/**
 * The feature switch guard: a process-wide cache with a five second life in front of the switch
 * table. Checks of many requests interleave wherever one of them waits for the database.
 */
module FeatureSwitches {
  import opened Results

  datatype Row = Row(enabled: string, scope: string, parent: Option<string>)

  type Table = map<(string, string), Row>

  const CACHE_TTL: real := 5.0

  predicate NoColon(tenant: string) {
    ':' !in tenant
  }

  function CacheKey(tenant: string, feature: string): string {
    tenant + ":" + feature
  }

  predicate StartsWith(s: string, prefix: string) {
    prefix <= s
  }

  // ---------- direct evaluation ----------

  function GetByKey(table: Table, tenant: string, feature: string): Option<Row> {
    if (tenant, feature) in table then Some(table[(tenant, feature)]) else None
  }

  predicate NeedsParent(own: Option<Row>) {
    own.Some? && own.value.scope == "sub_feature" && own.value.parent.Some? && own.value.parent.value != ""
  }

  /** A missing switch is on; a disabled parent forces a sub-feature off. */
  function Decide(own: Option<Row>, parent: Option<Row>): bool {
    if own.None? then true
    else if NeedsParent(own) && parent.Some? && parent.value.enabled != "true" then false
    else own.value.enabled == "true"
  }

  function ParentOf(table: Table, tenant: string, own: Option<Row>): Option<Row> {
    if NeedsParent(own) then GetByKey(table, tenant, own.value.parent.value) else None
  }

  /** The own row read from one state of the table, the parent row from a later one. */
  function DecideAt(first: Table, second: Table, tenant: string, feature: string): bool {
    var own := GetByKey(first, tenant, feature);
    Decide(own, ParentOf(second, tenant, own))
  }

  function Direct(table: Table, tenant: string, feature: string): bool {
    DecideAt(table, table, tenant, feature)
  }

  // ---------- the interleaved guard ----------

  /** Where a value comes from: the allow degradation, or reads of two states of the table. */
  datatype Origin = Degraded | ReadAt(own: nat, parent: nat)

  datatype Entry = Entry(value: bool, ts: real, tenant: string, feature: string, origin: Origin)

  datatype Stage = Missed | OwnRead(at: nat, row: Option<Row>) | Decided(value: bool, origin: Origin)

  /** A check that missed the cache and waits for the database. */
  datatype Flight = Flight(tenant: string, feature: string, stage: Stage)

  /** `history` holds every state of the table so far; the last one is current. */
  datatype State = State(
    allow: bool,
    cache: map<string, Entry>,
    flights: map<nat, Flight>,
    history: seq<Table>,
    now: real)

  datatype Event =
    | Tick(dt: real)
    | Change(table: Table)
    | Lookup(id: nat, tenant: string, feature: string)
    | ReadOwn(id: nat, fails: bool)
    | ReadParent(id: nat, fails: bool)
    | Store(id: nat)
    | Invalidate(only: Option<string>)

  /** The cached answer, if it is younger than the life of an entry. */
  function Hit(s: State, tenant: string, feature: string): Option<bool> {
    var key := CacheKey(tenant, feature);
    if key in s.cache && s.now - s.cache[key].ts < CACHE_TTL then Some(s.cache[key].value) else None
  }

  /** The entries that an invalidation leaves. */
  function Kept<V>(cache: map<string, V>, tenant: Option<string>): map<string, V> {
    if tenant.None? then map[] else map k | k in cache && !StartsWith(k, tenant.value + ":") :: cache[k]
  }

  function Land(s: State, id: nat, stage: Stage): State
    requires id in s.flights
  {
    s.(flights := s.flights[id := s.flights[id].(stage := stage)])
  }

  /** A failed read: the allow strategy answers true, the deny strategy raises. */
  function Fail(s: State, id: nat): State
    requires id in s.flights
  {
    if s.allow then Land(s, id, Decided(true, Degraded)) else s.(flights := s.flights - {id})
  }

  function Read(s: State, id: nat, fails: bool): State
    requires id in s.flights && s.history != []
  {
    var f, at := s.flights[id], |s.history| - 1;
    if f.stage.Missed? then
      if fails then Fail(s, id)
      else
        var own := GetByKey(s.history[at], f.tenant, f.feature);
        Land(s, id, if NeedsParent(own) then OwnRead(at, own) else Decided(Decide(own, None), ReadAt(at, at)))
    else if f.stage.OwnRead? then
      if fails then Fail(s, id)
      else
        var parent := ParentOf(s.history[at], f.tenant, f.stage.row);
        Land(s, id, Decided(Decide(f.stage.row, parent), ReadAt(f.stage.at, at)))
    else s

  }

  function StoreFlight(s: State, id: nat): State
    requires id in s.flights && s.flights[id].stage.Decided?
  {
    var f := s.flights[id];
    var entry := Entry(f.stage.value, s.now, f.tenant, f.feature, f.stage.origin);
    s.(cache := s.cache[CacheKey(f.tenant, f.feature) := entry], flights := s.flights - {id})
  }

  function Step(s: State, e: Event): State
    requires s.history != []
    ensures Step(s, e).history != []
  {
    match e
    case Tick(dt) => if dt >= 0.0 then s.(now := s.now + dt) else s
    case Change(table) => s.(history := s.history + [table])
    case Lookup(id, tenant, feature) =>
      if id in s.flights || !NoColon(tenant) || Hit(s, tenant, feature).Some? then s
      else s.(flights := s.flights[id := Flight(tenant, feature, Missed)])
    case ReadOwn(id, fails) => if id in s.flights && s.flights[id].stage.Missed? then Read(s, id, fails) else s
    case ReadParent(id, fails) => if id in s.flights && s.flights[id].stage.OwnRead? then Read(s, id, fails) else s
    case Store(id) => if id in s.flights && s.flights[id].stage.Decided? then StoreFlight(s, id) else s
    case Invalidate(only) => s.(cache := Kept(s.cache, only))
  }

  function Run(s: State, es: seq<Event>): State
    requires s.history != []
    ensures Run(s, es).history != []
    decreases |es|
  {
    if es == [] then s else Run(Step(s, es[0]), es[1..])
  }

  function Initial(allow: bool, table: Table, now: real): State {
    State(allow, map[], map[], [table], now)
  }

  // ---------- keys ----------

  function BeforeColon(s: string): string {
    if s == "" || s[0] == ':' then "" else [s[0]] + BeforeColon(s[1..])
  }

  lemma {:induction false} TenantOfKey(tenant: string, feature: string)
    requires NoColon(tenant)
    ensures BeforeColon(CacheKey(tenant, feature)) == tenant
  {
    if tenant != "" {
      assert CacheKey(tenant, feature)[1..] == CacheKey(tenant[1..], feature);
      TenantOfKey(tenant[1..], feature);
    }
  }

  /** A UUID holds no colon, so a key determines its tenant and feature. */
  lemma {:induction false} KeyInjective(t1: string, f1: string, t2: string, f2: string)
    requires NoColon(t1) && NoColon(t2) && CacheKey(t1, f1) == CacheKey(t2, f2)
    ensures t1 == t2 && f1 == f2
  {
    TenantOfKey(t1, f1);
    TenantOfKey(t2, f2);
    assert f1 == CacheKey(t1, f1)[|t1| + 1..] && f2 == CacheKey(t2, f2)[|t2| + 1..];
  }

  /** The prefix of a tenant matches exactly that tenant's keys. */
  lemma {:induction false} PrefixIsTenant(t: string, owner: string, feature: string)
    requires NoColon(t) && NoColon(owner)
    ensures StartsWith(CacheKey(owner, feature), t + ":") <==> t == owner
  {
    var k := CacheKey(owner, feature);
    if t + ":" <= k {
      assert k == t + ":" + k[|t| + 1..];
      KeyInjective(t, k[|t| + 1..], owner, feature);
    }
    if t == owner {
      assert k[..|t| + 1] == t + ":";
    }
  }

  // ---------- the cache refines direct evaluation ----------

  ghost predicate OriginOk(s: State, tenant: string, feature: string, value: bool, origin: Origin)
    requires s.history != []
  {
    match origin
    case Degraded => s.allow && value
    case ReadAt(i, j) =>
      i <= j < |s.history| && value == DecideAt(s.history[i], s.history[j], tenant, feature)
  }

  ghost predicate EntryOk(s: State, key: string, e: Entry)
    requires s.history != []
  {
    && NoColon(e.tenant) && key == CacheKey(e.tenant, e.feature) && e.ts <= s.now
    && OriginOk(s, e.tenant, e.feature, e.value, e.origin)
  }

  ghost predicate FlightOk(s: State, f: Flight)
    requires s.history != []
  {
    && NoColon(f.tenant)
    && match f.stage
       case Missed => true
       case OwnRead(i, row) =>
         i < |s.history| && row == GetByKey(s.history[i], f.tenant, f.feature) && NeedsParent(row)
       case Decided(v, o) => OriginOk(s, f.tenant, f.feature, v, o)
  }

  ghost predicate WellFormed(s: State) {
    && s.history != []
    && (forall k :: k in s.cache ==> EntryOk(s, k, s.cache[k]))
    && (forall id :: id in s.flights ==> FlightOk(s, s.flights[id]))
  }

  lemma {:induction false} ReadKeepsFlight(s: State, id: nat, fails: bool)
    requires s.history != [] && id in s.flights && FlightOk(s, s.flights[id])
    ensures id in Read(s, id, fails).flights ==> FlightOk(s, Read(s, id, fails).flights[id])
    ensures forall b :: b != id && b in Read(s, id, fails).flights ==>
      b in s.flights && Read(s, id, fails).flights[b] == s.flights[b]
    ensures Read(s, id, fails).(flights := s.flights) == s
  {
  }

  lemma {:induction false} StepKeepsWellFormed(s: State, e: Event)
    requires WellFormed(s)
    ensures WellFormed(Step(s, e))
  {
    match e
    case ReadOwn(id, fails) => ReadStepKeepsWellFormed(s, id, fails);
    case ReadParent(id, fails) => ReadStepKeepsWellFormed(s, id, fails);
    case Change(table) => ChangeKeepsWellFormed(s, table);
    case Store(id) => StoreKeepsWellFormed(s, id);
    case _ =>
  }

  lemma {:induction false} ChangeKeepsWellFormed(s: State, table: Table)
    requires WellFormed(s)
    ensures WellFormed(Step(s, Change(table)))
  {
  }

  lemma {:induction false} StoreKeepsWellFormed(s: State, id: nat)
    requires WellFormed(s)
    ensures WellFormed(Step(s, Store(id)))
  {
    var n := Step(s, Store(id));
    if id in s.flights {
      assert FlightOk(s, s.flights[id]);
    }
    forall k | k in n.cache ensures EntryOk(n, k, n.cache[k]) {
      assert k in s.cache ==> EntryOk(s, k, s.cache[k]);
    }
  }

  lemma {:induction false} ReadStepKeepsWellFormed(s: State, id: nat, fails: bool)
    requires WellFormed(s)
    ensures id in s.flights ==> WellFormed(Read(s, id, fails))
  {
    if id in s.flights {
      ReadKeepsFlight(s, id, fails);
    }
  }

  lemma {:induction false} RunKeepsWellFormed(s: State, es: seq<Event>)
    requires WellFormed(s)
    ensures WellFormed(Run(s, es))
    decreases |es|
  {
    if es != [] {
      StepKeepsWellFormed(s, es[0]);
      RunKeepsWellFormed(Step(s, es[0]), es[1..]);
    }
  }

  lemma {:induction false} RunKeepsStrategy(s: State, es: seq<Event>)
    requires s.history != []
    ensures Run(s, es).allow == s.allow
    decreases |es|
  {
    if es != [] {
      RunKeepsStrategy(Step(s, es[0]), es[1..]);
    }
  }

  // ---------- invalidation ----------

  /** Invalidating a tenant drops exactly that tenant's entries, invalidating without one drops all. */
  lemma {:induction false} InvalidateDropsExactlyTenant(s: State, t: string, key: string)
    requires WellFormed(s) && NoColon(t) && key in s.cache
    ensures key in Step(s, Invalidate(Some(t))).cache <==> s.cache[key].tenant != t
    ensures key in Step(s, Invalidate(Some(t))).cache ==> Step(s, Invalidate(Some(t))).cache[key] == s.cache[key]
    ensures Step(s, Invalidate(None)).cache == map[]
  {
    assert EntryOk(s, key, s.cache[key]);
    PrefixIsTenant(t, s.cache[key].tenant, s.cache[key].feature);
  }

  /** The value was decided on an own row older than table state `n`. */
  predicate OlderThan(origin: Origin, n: nat) {
    origin.ReadAt? && origin.own < n
  }

  /** No cached answer for the switch rests on a table state before `n`. */
  ghost predicate FreshSince(s: State, t: string, f: string, n: nat) {
    CacheKey(t, f) in s.cache ==> !OlderThan(s.cache[CacheKey(t, f)].origin, n)
  }

  /** The check in flight has read a table state before `n`. */
  predicate CarriesOlder(fl: Flight, n: nat) {
    (fl.stage.OwnRead? && fl.stage.at < n) || (fl.stage.Decided? && OlderThan(fl.stage.origin, n))
  }

  ghost predicate NoOldFlight(s: State, t: string, f: string, n: nat) {
    forall id :: id in s.flights && s.flights[id].tenant == t && s.flights[id].feature == f ==>
      !CarriesOlder(s.flights[id], n)
  }

  lemma {:induction false} StepKeepsFresh(s: State, e: Event, t: string, f: string, n: nat)
    requires WellFormed(s) && NoColon(t) && n < |s.history| && FreshSince(s, t, f, n) && NoOldFlight(s, t, f, n)
    ensures n < |Step(s, e).history| && FreshSince(Step(s, e), t, f, n) && NoOldFlight(Step(s, e), t, f, n)
  {
    if e.Store? && e.id in s.flights {
      var fl := s.flights[e.id];
      assert FlightOk(s, fl);
      if CacheKey(fl.tenant, fl.feature) == CacheKey(t, f) {
        KeyInjective(fl.tenant, fl.feature, t, f);
      }
    } else if (e.ReadOwn? || e.ReadParent?) && e.id in s.flights {
      assert FlightOk(s, s.flights[e.id]);
      ReadKeepsFlight(s, e.id, e.fails);
    }
  }

  lemma {:induction false} RunKeepsFresh(s: State, es: seq<Event>, t: string, f: string, n: nat)
    requires WellFormed(s) && NoColon(t) && n < |s.history| && FreshSince(s, t, f, n) && NoOldFlight(s, t, f, n)
    ensures FreshSince(Run(s, es), t, f, n)
    decreases |es|
  {
    if es != [] {
      StepKeepsFresh(s, es[0], t, f, n);
      StepKeepsWellFormed(s, es[0]);
      RunKeepsFresh(Step(s, es[0]), es[1..], t, f, n);
    }
  }

  /** From now on the switch is never answered from a table state before the current one. */
  ghost predicate StaysFresh(s: State, t: string, f: string)
    requires s.history != []
  {
    forall es :: FreshSince(Run(s, es), t, f, |s.history| - 1)
  }

  lemma {:induction false} OldFlightLands(s: State, id: nat, n: nat)
    requires WellFormed(s) && id in s.flights && CarriesOlder(s.flights[id], n)
    ensures var fl := s.flights[id];
      !FreshSince(Run(s, [ReadParent(id, false), Store(id)]), fl.tenant, fl.feature, n)
  {
    var s1 := Step(s, ReadParent(id, false));
    assert s1.flights[id].stage.Decided? && OlderThan(s1.flights[id].stage.origin, n);
    assert [ReadParent(id, false), Store(id)][1..] == [Store(id)];
    assert Run(s, [ReadParent(id, false), Store(id)]) == Run(s1, [Store(id)]) == Step(s1, Store(id));
  }

  /** After an invalidation the switch stays fresh exactly when no check in flight has already read
      an older state: such a check writes the old answer back into the cache. */
  lemma {:induction false} InvalidationHoldsIffNoOldFlight(s: State, t: string, f: string)
    requires WellFormed(s) && NoColon(t)
    ensures StaysFresh(Step(s, Invalidate(Some(t))), t, f) <==> NoOldFlight(s, t, f, |s.history| - 1)
  {
    var n := Step(s, Invalidate(Some(t)));
    var m := |s.history| - 1;
    StepKeepsWellFormed(s, Invalidate(Some(t)));
    PrefixIsTenant(t, t, f);
    if NoOldFlight(s, t, f, m) {
      forall es ensures FreshSince(Run(n, es), t, f, m) {
        RunKeepsFresh(n, es, t, f, m);
      }
    } else {
      var id :| id in s.flights && s.flights[id].tenant == t && s.flights[id].feature == f
        && CarriesOlder(s.flights[id], m);
      OldFlightLands(n, id, m);
    }
  }

  // ---------- the guard object ----------

  /** One check that nothing interleaves with, started `dt` after the previous event. */
  function CheckScript(dt: real, tenant: string, feature: string, ownFails: bool, parentFails: bool): seq<Event> {
    [Tick(dt), Lookup(0, tenant, feature), ReadOwn(0, ownFails), ReadParent(0, parentFails), Store(0)]
  }

  /** What a check returns: a young cached value, the degradation, or the current table's decision. */
  function Answer(s: State, tenant: string, feature: string, ownFails: bool, parentFails: bool): Result<bool, string>
    requires s.history != []
  {
    var hit := Hit(s, tenant, feature);
    var table := s.history[|s.history| - 1];
    if hit.Some? then Ok(hit.value)
    else if ownFails || (NeedsParent(GetByKey(table, tenant, feature)) && parentFails) then
      if s.allow then Ok(true) else Err("FEATURE_DISABLED")
    else Ok(Direct(table, tenant, feature))
  }

  /** The events of a check after its clock reading. */
  function Events(s: State, tenant: string, feature: string, ownFails: bool, parentFails: bool): State
    requires s.history != []
  {
    var read := Step(Step(s, Lookup(0, tenant, feature)), ReadOwn(0, ownFails));
    Step(Step(read, ReadParent(0, parentFails)), Store(0))
  }

  lemma {:induction false} RunCons(s: State, e: Event, es: seq<Event>)
    requires s.history != []
    ensures Run(s, [e] + es) == Run(Step(s, e), es)
  {
  }

  lemma {:induction false} RunCheckScript(s: State, dt: real, tenant: string, feature: string, ownFails: bool,
      parentFails: bool)
    requires s.history != []
    ensures Run(s, CheckScript(dt, tenant, feature, ownFails, parentFails))
         == Events(Step(s, Tick(dt)), tenant, feature, ownFails, parentFails)
  {
    var s1 := Step(s, Tick(dt));
    var s2 := Step(s1, Lookup(0, tenant, feature));
    var s3 := Step(s2, ReadOwn(0, ownFails));
    var s4 := Step(s3, ReadParent(0, parentFails));
    var e4 := [Store(0)];
    var e3 := [ReadParent(0, parentFails)] + e4;
    var e2 := [ReadOwn(0, ownFails)] + e3;
    var e1 := [Lookup(0, tenant, feature)] + e2;
    RunCons(s, Tick(dt), e1);
    RunCons(s1, Lookup(0, tenant, feature), e2);
    RunCons(s2, ReadOwn(0, ownFails), e3);
    RunCons(s3, ReadParent(0, parentFails), e4);
    assert e4 == [Store(0)] + [];
    RunCons(s4, Store(0), []);
    assert CheckScript(dt, tenant, feature, ownFails, parentFails) == [Tick(dt)] + e1;
  }

  /** What an uninterrupted check that starts in `s` leaves behind. */
  function Checked(s: State, tenant: string, feature: string, ownFails: bool, parentFails: bool): State
    requires s.history != []
  {
    var answer := Answer(s, tenant, feature, ownFails, parentFails);
    var m := |s.history| - 1;
    var broken := ownFails || (NeedsParent(GetByKey(s.history[m], tenant, feature)) && parentFails);
    if Hit(s, tenant, feature).Some? || answer.Err? then s
    else
      s.(cache := s.cache[CacheKey(tenant, feature) :=
           Entry(answer.value, s.now, tenant, feature, if broken then Degraded else ReadAt(m, m))])
  }

  /** A lone flight after its two reads. */
  lemma {:induction false} LoneFlightReads(s: State, tenant: string, feature: string, ownFails: bool, parentFails: bool)
    requires s.history != [] && s.flights == map[0 := Flight(tenant, feature, Missed)]
    ensures var n := Step(Step(s, ReadOwn(0, ownFails)), ReadParent(0, parentFails));
      var m := |s.history| - 1;
      var own := GetByKey(s.history[m], tenant, feature);
      var broken := ownFails || (NeedsParent(own) && parentFails);
      n == s.(flights :=
        if broken && !s.allow then map[]
        else map[0 := Flight(tenant, feature,
               if broken then Decided(true, Degraded)
               else Decided(Direct(s.history[m], tenant, feature), ReadAt(m, m)))])
  {
    var m := |s.history| - 1;
    var own := GetByKey(s.history[m], tenant, feature);
    var n := Step(s, ReadOwn(0, ownFails));
    if !ownFails && NeedsParent(own) {
      assert n == s.(flights := map[0 := Flight(tenant, feature, OwnRead(m, own))]);
    } else if ownFails && !s.allow {
      assert n == s.(flights := map[]);
    } else {
      assert n.flights[0].stage.Decided?;
    }
  }

  lemma {:induction false} LoneFlightStores(s: State, tenant: string, feature: string, ownFails: bool,
      parentFails: bool)
    requires s.history != [] && Hit(s, tenant, feature).None? && s.flights == map[]
    ensures var s2 := s.(flights := map[0 := Flight(tenant, feature, Missed)]);
      Step(Step(Step(s2, ReadOwn(0, ownFails)), ReadParent(0, parentFails)), Store(0))
      == Checked(s, tenant, feature, ownFails, parentFails)
  {
    var s2 := s.(flights := map[0 := Flight(tenant, feature, Missed)]);
    LoneFlightReads(s2, tenant, feature, ownFails, parentFails);
    var s4 := Step(Step(s2, ReadOwn(0, ownFails)), ReadParent(0, parentFails));
    assert s4.flights - {0} == map[];
  }

  lemma {:induction false} HitDoesNothing(s: State, tenant: string, feature: string, ownFails: bool, parentFails: bool)
    requires s.history != [] && s.flights == map[] && Hit(s, tenant, feature).Some?
    ensures Events(s, tenant, feature, ownFails, parentFails) == s
  {
    assert Step(s, Lookup(0, tenant, feature)) == s;
  }

  lemma {:induction false} MissEvaluates(s: State, tenant: string, feature: string, ownFails: bool, parentFails: bool)
    requires s.history != [] && s.flights == map[] && NoColon(tenant) && Hit(s, tenant, feature).None?
    ensures Events(s, tenant, feature, ownFails, parentFails) == Checked(s, tenant, feature, ownFails, parentFails)
  {
    LoneFlightStores(s, tenant, feature, ownFails, parentFails);
    assert Step(s, Lookup(0, tenant, feature)) == s.(flights := map[0 := Flight(tenant, feature, Missed)]);
  }

  /** The script of an uninterrupted check has exactly that effect. */
  lemma {:induction false} CheckOutcome(s: State, dt: real, tenant: string, feature: string, ownFails: bool,
      parentFails: bool)
    requires s.history != [] && NoColon(tenant) && s.flights == map[] && dt >= 0.0
    ensures Run(s, CheckScript(dt, tenant, feature, ownFails, parentFails))
         == Checked(s.(now := s.now + dt), tenant, feature, ownFails, parentFails)
  {
    RunCheckScript(s, dt, tenant, feature, ownFails, parentFails);
    var at := s.(now := s.now + dt);
    assert Step(s, Tick(dt)) == at;
    if Hit(at, tenant, feature).Some? {
      HitDoesNothing(at, tenant, feature, ownFails, parentFails);
    } else {
      MissEvaluates(at, tenant, feature, ownFails, parentFails);
    }
  }

  /** What the two reads yield on the current table: the decision, or nothing when a read fails. */
  function Evaluated(table: Table, tenant: string, feature: string, ownFails: bool, parentFails: bool): Option<bool> {
    if ownFails || (NeedsParent(GetByKey(table, tenant, feature)) && parentFails) then None
    else Some(Direct(table, tenant, feature))
  }

  lemma {:induction false} CheckedMiss(s: State, tenant: string, feature: string, ownFails: bool, parentFails: bool,
      origin: Origin)
    requires s.history != [] && Hit(s, tenant, feature).None?
    requires var m := |s.history| - 1;
      origin == if Evaluated(s.history[m], tenant, feature, ownFails, parentFails).None? then Degraded else ReadAt(m, m)
    ensures var value := Evaluated(s.history[|s.history| - 1], tenant, feature, ownFails, parentFails);
      var answer := if value.Some? then value.value else true;
      if value.None? && !s.allow then
        && Answer(s, tenant, feature, ownFails, parentFails) == Err("FEATURE_DISABLED")
        && Checked(s, tenant, feature, ownFails, parentFails) == s
      else
        && Answer(s, tenant, feature, ownFails, parentFails) == Ok(answer)
        && Checked(s, tenant, feature, ownFails, parentFails)
           == s.(cache := s.cache[CacheKey(tenant, feature) := Entry(answer, s.now, tenant, feature, origin)])
  {
  }

  /** The dictionary of values and times behind the protocol's cache. */
  function Plain(cache: map<string, Entry>): map<string, (bool, real)> {
    map k | k in cache :: (cache[k].value, cache[k].ts)
  }

  lemma {:induction false} PlainLookup(cache: map<string, Entry>, key: string)
    ensures key in Plain(cache) <==> key in cache
    ensures key in cache ==> Plain(cache)[key] == (cache[key].value, cache[key].ts)
  {
  }

  lemma {:induction false} PlainStore(cache: map<string, Entry>, key: string, e: Entry)
    ensures Plain(cache[key := e]) == Plain(cache)[key := (e.value, e.ts)]
  {
  }

  lemma {:induction false} PlainKept(cache: map<string, Entry>, tenant: Option<string>)
    ensures Plain(Kept(cache, tenant)) == Kept(Plain(cache), tenant)
  {
  }

  class FeatureSwitchGuard {
    const allow: bool
    var cache: map<string, (bool, real)>
    /** The reading of the monotonic clock. */
    var clock: real
    ghost var model: State

    constructor (allow: bool, table: Table, now: real)
      ensures Valid() && model == Initial(allow, table, now)
    {
      this.allow := allow;
      cache := map[];
      clock := now;
      model := Initial(allow, table, now);
    }

    /** The dictionary is the protocol's cache without its bookkeeping. */
    ghost predicate Valid()
      reads this
    {
      && model.history != [] && model.allow == allow && model.flights == map[]
      && clock == model.now && cache == Plain(model.cache)
    }

    /** The two reads and the decision; an error when a read fails. */
    method Evaluate(db: Table, tenant: string, feature: string, ownFails: bool, parentFails: bool)
      returns (r: Option<bool>)
      ensures r == Evaluated(db, tenant, feature, ownFails, parentFails)
    {
      if ownFails {
        return None;
      }
      var own := GetByKey(db, tenant, feature);
      if own.None? {
        return Some(true);
      }
      var enabled := own.value.enabled == "true";
      if own.value.scope == "sub_feature" && own.value.parent.Some? && own.value.parent.value != "" {
        if parentFails {
          return None;
        }
        var parent := GetByKey(db, tenant, own.value.parent.value);
        if parent.Some? && parent.value.enabled != "true" {
          return Some(false);
        }
      }
      return Some(enabled);
    }

    /** A check past the cache: read, decide or degrade, and store. */
    method CheckDatabase(db: Table, tenant: string, feature: string, ownFails: bool, parentFails: bool)
      returns (r: Result<bool, string>)
      requires Valid() && Hit(model, tenant, feature).None? && db == model.history[|model.history| - 1]
      modifies this
      ensures Valid() && model == Checked(old(model), tenant, feature, ownFails, parentFails)
      ensures r == Answer(old(model), tenant, feature, ownFails, parentFails)
    {
      var key := CacheKey(tenant, feature);
      var value := Evaluate(db, tenant, feature, ownFails, parentFails);
      ghost var origin := if value.None? then Degraded else ReadAt(|model.history| - 1, |model.history| - 1);
      CheckedMiss(model, tenant, feature, ownFails, parentFails, origin);
      if value.None? && !allow {
        return Err("FEATURE_DISABLED");
      }
      var answer := if value.Some? then value.value else true;
      Remember(key, answer, Entry(answer, model.now, tenant, feature, origin));
      return Ok(answer);
    }

    method Remember(key: string, answer: bool, ghost e: Entry)
      requires Valid() && e.value == answer && e.ts == model.now
      modifies this
      ensures Valid() && model == old(model).(cache := old(model).cache[key := e])
    {
      PlainStore(model.cache, key, e);
      cache := cache[key := (answer, clock)];
      model := model.(cache := model.cache[key := e]);
    }

    method Check(db: Table, tenant: string, feature: string, ownFails: bool, parentFails: bool, now: real)
      returns (r: Result<bool, string>)
      requires Valid() && NoColon(tenant) && db == model.history[|model.history| - 1] && model.now <= now
      modifies this
      ensures Valid()
      ensures model == Run(old(model), CheckScript(now - old(model.now), tenant, feature, ownFails, parentFails))
      ensures r == Answer(old(model).(now := now), tenant, feature, ownFails, parentFails)
    {
      CheckOutcome(model, now - model.now, tenant, feature, ownFails, parentFails);
      clock := now;
      model := model.(now := now);
      var key := CacheKey(tenant, feature);
      PlainLookup(model.cache, key);
      if key in cache && clock - cache[key].1 < CACHE_TTL {
        return Ok(cache[key].0);
      }
      r := CheckDatabase(db, tenant, feature, ownFails, parentFails);
    }

    /** Raises exactly when the check raises or answers off. */
    method Enforce(db: Table, tenant: string, feature: string, ownFails: bool, parentFails: bool, now: real)
      returns (r: Result<(), string>)
      requires Valid() && NoColon(tenant) && db == model.history[|model.history| - 1] && model.now <= now
      modifies this
      ensures Valid()
      ensures r.Ok? <==> Answer(old(model).(now := now), tenant, feature, ownFails, parentFails) == Ok(true)
    {
      var on := Check(db, tenant, feature, ownFails, parentFails, now);
      if on.Err? {
        return Err(on.error);
      }
      return if on.value then Ok(()) else Err("FEATURE_DISABLED");
    }

    method InvalidateCache(tenant: Option<string>)
      requires Valid()
      modifies this
      ensures Valid() && model == Step(old(model), Invalidate(tenant)) && cache == Kept(old(cache), tenant)
    {
      PlainKept(model.cache, tenant);
      if tenant.None? {
        cache := map[];
      } else {
        var prefix := tenant.value + ":";
        var left := set k | k in cache && StartsWith(k, prefix);
        while left != {}
          invariant forall k :: k in left <==> k in cache && StartsWith(k, prefix)
          invariant Kept(cache, tenant) == Kept(old(cache), tenant) && model == old(model) && clock == old(clock)
          decreases left
        {
          var k :| k in left;
          cache := cache - {k};
          left := left - {k};
        }
        assert cache == Kept(cache, tenant);
      }
      model := Step(model, Invalidate(tenant));
    }
  }
}
