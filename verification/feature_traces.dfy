/**
 * Where a cached answer comes from: the events of the check that stored it, and how old the table
 * states can be that it was read from.
 */
module FeatureTraces {
  import opened Results
  import opened FeatureSwitches

  /** The state before event `k` of a run. */
  function At(s0: State, es: seq<Event>, k: nat): (s: State)
    requires s0.history != [] && k <= |es|
    ensures s.history != []
  {
    Run(s0, es[..k])
  }

  function Current(s: State): Table
    requires s.history != []
  {
    s.history[|s.history| - 1]
  }

  function TableAt(s0: State, es: seq<Event>, k: nat): Table
    requires s0.history != [] && k <= |es|
  {
    Current(At(s0, es, k))
  }

  lemma {:induction false} RunLast(s: State, es: seq<Event>, e: Event)
    requires s.history != []
    ensures Run(s, es + [e]) == Step(Run(s, es), e)
    decreases |es|
  {
    if es == [] {
      assert [e][1..] == [] && es + [e] == [e];
      assert Run(s, [e]) == Run(Step(s, e), []);
    } else {
      assert (es + [e])[1..] == es[1..] + [e];
      RunLast(Step(s, es[0]), es[1..], e);
    }
  }

  lemma {:induction false} AtNext(s0: State, es: seq<Event>, k: nat)
    requires s0.history != [] && k < |es|
    ensures At(s0, es, k + 1) == Step(At(s0, es, k), es[k])
  {
    assert es[..k + 1] == es[..k] + [es[k]];
    RunLast(s0, es[..k], es[k]);
  }

  lemma {:induction false} AtPrefix(s0: State, es: seq<Event>, e: Event)
    requires s0.history != []
    ensures forall k :: 0 <= k <= |es| ==> At(s0, es + [e], k) == At(s0, es, k)
    ensures At(s0, es, |es|) == Run(s0, es) && At(s0, es + [e], |es| + 1) == Step(Run(s0, es), e)
  {
    forall k | 0 <= k <= |es| ensures At(s0, es + [e], k) == At(s0, es, k) {
      assert (es + [e])[..k] == es[..k];
    }
    assert es[..|es|] == es && (es + [e])[..|es| + 1] == es + [e];
    RunLast(s0, es, e);
  }

  // ---------- the check behind an answer ----------

  /** Request `id` reads the own row at event `p` and is in flight from there to event `n`. */
  ghost predicate Checking(s0: State, es: seq<Event>, id: nat, p: nat, n: nat, tenant: string, feature: string)
    requires s0.history != []
  {
    && p <= n <= |es| && p < |es| && es[p].ReadOwn? && es[p].id == id
    && id in At(s0, es, p).flights && At(s0, es, p).flights[id] == Flight(tenant, feature, Missed)
    && forall k :: p <= k <= n ==> id in At(s0, es, k).flights
  }

  /** The check that began at `p` decided at `r`: a read failed under the allow strategy, or the own row
      of the table at `p` was combined with the parent row, where one is needed, of the table at `r`. */
  predicate DecidedAt(s0: State, es: seq<Event>, id: nat, p: nat, r: nat, tenant: string, feature: string,
      value: bool, degraded: bool)
    requires s0.history != []
  {
    && p <= r < |es|
    && if degraded then
         s0.allow && value && (if r == p then es[p] == ReadOwn(id, true) else es[r] == ReadParent(id, true))
       else
         && es[p] == ReadOwn(id, false)
         && (if NeedsParent(GetByKey(TableAt(s0, es, p), tenant, feature)) then p < r && es[r] == ReadParent(id, false)
             else r == p)
         && value == DecideAt(TableAt(s0, es, p), TableAt(s0, es, r), tenant, feature)
  }

  ghost predicate OwnReadBy(s0: State, es: seq<Event>, id: nat, p: nat, fl: Flight)
    requires s0.history != [] && fl.stage.OwnRead?
  {
    && Checking(s0, es, id, p, |es|, fl.tenant, fl.feature) && es[p] == ReadOwn(id, false)
    && fl.stage.row == GetByKey(TableAt(s0, es, p), fl.tenant, fl.feature) && NeedsParent(fl.stage.row)
  }

  ghost predicate DecidedBy(s0: State, es: seq<Event>, id: nat, p: nat, r: nat, fl: Flight)
    requires s0.history != [] && fl.stage.Decided?
  {
    && Checking(s0, es, id, p, |es|, fl.tenant, fl.feature)
    && DecidedAt(s0, es, id, p, r, fl.tenant, fl.feature, fl.stage.value, fl.stage.origin.Degraded?)
  }

  ghost predicate FlightTraced(s0: State, es: seq<Event>, id: nat, fl: Flight)
    requires s0.history != []
  {
    match fl.stage
    case Missed => true
    case OwnRead(_, _) => exists p: nat :: OwnReadBy(s0, es, id, p, fl)
    case Decided(_, _) => exists p: nat, r: nat :: DecidedBy(s0, es, id, p, r, fl)
  }

  /** The entry was stored at event `q`, at the time it carries, by the check that began at `p`. */
  ghost predicate StoredBy(s0: State, es: seq<Event>, e: Entry, id: nat, p: nat, r: nat, q: nat)
    requires s0.history != []
  {
    && r < q < |es| && es[q] == Store(id) && At(s0, es, q).now == e.ts
    && Checking(s0, es, id, p, q, e.tenant, e.feature)
    && DecidedAt(s0, es, id, p, r, e.tenant, e.feature, e.value, e.origin.Degraded?)
  }

  ghost predicate EntryTraced(s0: State, es: seq<Event>, e: Entry)
    requires s0.history != []
  {
    exists id: nat, p: nat, r: nat, q: nat :: StoredBy(s0, es, e, id, p, r, q)
  }

  ghost predicate Traced(s0: State, es: seq<Event>)
    requires s0.history != []
  {
    && (forall id :: id in Run(s0, es).flights ==> FlightTraced(s0, es, id, Run(s0, es).flights[id]))
    && (forall key :: key in Run(s0, es).cache ==> EntryTraced(s0, es, Run(s0, es).cache[key]))
  }

  // ---------- every run is traced ----------

  lemma {:induction false} CheckingStays(s0: State, es: seq<Event>, e: Event, id: nat, p: nat, n: nat,
      tenant: string, feature: string)
    requires s0.history != [] && Checking(s0, es, id, p, n, tenant, feature)
    ensures Checking(s0, es + [e], id, p, n, tenant, feature)
    ensures n == |es| && id in Step(Run(s0, es), e).flights ==>
      Checking(s0, es + [e], id, p, n + 1, tenant, feature)
  {
    AtPrefix(s0, es, e);
  }

  lemma {:induction false} DecidedStays(s0: State, es: seq<Event>, e: Event, id: nat, p: nat, r: nat,
      tenant: string, feature: string, value: bool, degraded: bool)
    requires s0.history != [] && DecidedAt(s0, es, id, p, r, tenant, feature, value, degraded)
    ensures DecidedAt(s0, es + [e], id, p, r, tenant, feature, value, degraded)
  {
    AtPrefix(s0, es, e);
    assert (es + [e])[p] == es[p] && (es + [e])[r] == es[r];
    assert TableAt(s0, es + [e], p) == TableAt(s0, es, p) && TableAt(s0, es + [e], r) == TableAt(s0, es, r);
  }

  /** A check that goes on keeps its trace. */
  lemma {:induction false} FlightStaysTraced(s0: State, es: seq<Event>, e: Event, id: nat, fl: Flight)
    requires s0.history != [] && FlightTraced(s0, es, id, fl) && id in Step(Run(s0, es), e).flights
    ensures FlightTraced(s0, es + [e], id, fl)
  {
    match fl.stage
    case Missed =>
    case OwnRead(_, _) =>
      var p: nat :| OwnReadBy(s0, es, id, p, fl);
      CheckingStays(s0, es, e, id, p, |es|, fl.tenant, fl.feature);
      AtPrefix(s0, es, e);
      assert OwnReadBy(s0, es + [e], id, p, fl);
    case Decided(v, o) =>
      var p: nat, r: nat :| DecidedBy(s0, es, id, p, r, fl);
      CheckingStays(s0, es, e, id, p, |es|, fl.tenant, fl.feature);
      DecidedStays(s0, es, e, id, p, r, fl.tenant, fl.feature, v, o.Degraded?);
      assert DecidedBy(s0, es + [e], id, p, r, fl);
  }

  lemma {:induction false} EntryStaysTraced(s0: State, es: seq<Event>, e: Event, entry: Entry)
    requires s0.history != [] && EntryTraced(s0, es, entry)
    ensures EntryTraced(s0, es + [e], entry)
  {
    var id: nat, p: nat, r: nat, q: nat :| StoredBy(s0, es, entry, id, p, r, q);
    CheckingStays(s0, es, e, id, p, q, entry.tenant, entry.feature);
    DecidedStays(s0, es, e, id, p, r, entry.tenant, entry.feature, entry.value, entry.origin.Degraded?);
    AtPrefix(s0, es, e);
    assert StoredBy(s0, es + [e], entry, id, p, r, q);
  }

  /** The first read begins the trace of a check. */
  lemma {:induction false} OwnReadTraced(s0: State, es: seq<Event>, id: nat, fails: bool)
    requires s0.history != [] && Run(s0, es).allow == s0.allow
    requires id in Run(s0, es).flights && Run(s0, es).flights[id].stage.Missed?
    requires id in Step(Run(s0, es), ReadOwn(id, fails)).flights
    ensures FlightTraced(s0, es + [ReadOwn(id, fails)], id, Step(Run(s0, es), ReadOwn(id, fails)).flights[id])
  {
    var e := ReadOwn(id, fails);
    var fl := Step(Run(s0, es), e).flights[id];
    AtPrefix(s0, es, e);
    if fl.stage.OwnRead? {
      assert OwnReadBy(s0, es + [e], id, |es|, fl);
    } else {
      assert DecidedBy(s0, es + [e], id, |es|, |es|, fl);
    }
  }

  lemma {:induction false} ParentReadTraced(s0: State, es: seq<Event>, id: nat, fails: bool)
    requires s0.history != [] && Run(s0, es).allow == s0.allow
    requires id in Run(s0, es).flights && Run(s0, es).flights[id].stage.OwnRead?
    requires FlightTraced(s0, es, id, Run(s0, es).flights[id])
    requires id in Step(Run(s0, es), ReadParent(id, fails)).flights
    ensures FlightTraced(s0, es + [ReadParent(id, fails)], id, Step(Run(s0, es), ReadParent(id, fails)).flights[id])
  {
    var e := ReadParent(id, fails);
    var fl := Step(Run(s0, es), e).flights[id];
    AtPrefix(s0, es, e);
    var p: nat :| OwnReadBy(s0, es, id, p, Run(s0, es).flights[id]);
    assert DecidedBy(s0, es + [e], id, p, |es|, fl);
  }

  lemma {:induction false} StoreTraced(s0: State, es: seq<Event>, id: nat)
    requires s0.history != []
    requires id in Run(s0, es).flights && Run(s0, es).flights[id].stage.Decided?
    requires FlightTraced(s0, es, id, Run(s0, es).flights[id])
    ensures var s := Run(s0, es); var fl := s.flights[id];
      EntryTraced(s0, es + [Store(id)], Entry(fl.stage.value, s.now, fl.tenant, fl.feature, fl.stage.origin))
  {
    var s := Run(s0, es);
    var fl := s.flights[id];
    AtPrefix(s0, es, Store(id));
    var p: nat, r: nat :| DecidedBy(s0, es, id, p, r, fl);
    var entry := Entry(fl.stage.value, s.now, fl.tenant, fl.feature, fl.stage.origin);
    assert StoredBy(s0, es + [Store(id)], entry, id, p, r, |es|);
  }

  lemma {:induction false} EntryStep(s: State, e: Event, key: string)
    requires s.history != [] && key in Step(s, e).cache
    ensures
      || (key in s.cache && Step(s, e).cache[key] == s.cache[key])
      || (e.Store? && e.id in s.flights && s.flights[e.id].stage.Decided?
          && var fl := s.flights[e.id];
             Step(s, e).cache[key] == Entry(fl.stage.value, s.now, fl.tenant, fl.feature, fl.stage.origin))
  {
  }

  lemma {:induction false} StepTraced(s0: State, es: seq<Event>, e: Event)
    requires s0.history != [] && Traced(s0, es)
    ensures Traced(s0, es + [e])
  {
    var s := Run(s0, es);
    RunLast(s0, es, e);
    RunKeepsStrategy(s0, es);
    forall id | id in Step(s, e).flights ensures FlightTraced(s0, es + [e], id, Step(s, e).flights[id]) {
      if id in s.flights && Step(s, e).flights[id] == s.flights[id] {
        FlightStaysTraced(s0, es, e, id, s.flights[id]);
      } else if e.ReadOwn? && e.id == id {
        OwnReadTraced(s0, es, id, e.fails);
      } else if e.ReadParent? && e.id == id {
        ParentReadTraced(s0, es, id, e.fails);
      }
    }
    forall key | key in Step(s, e).cache ensures EntryTraced(s0, es + [e], Step(s, e).cache[key]) {
      EntryStep(s, e, key);
      if key in s.cache && Step(s, e).cache[key] == s.cache[key] {
        EntryStaysTraced(s0, es, e, s.cache[key]);
      } else {
        StoreTraced(s0, es, e.id);
      }
    }
  }

  lemma {:induction false} RunTraced(s0: State, es: seq<Event>)
    requires s0.history != [] && s0.cache == map[] && s0.flights == map[]
    ensures Traced(s0, es)
    decreases |es|
  {
    if es != [] {
      var init, e := es[..|es| - 1], es[|es| - 1];
      assert es == init + [e];
      RunTraced(s0, init);
      StepTraced(s0, init, e);
    }
  }

  // ---------- how old an answer can be ----------

  predicate NoChange(es: seq<Event>, i: nat, j: nat) {
    forall k :: i <= k < j && k < |es| ==> !es[k].Change?
  }

  lemma {:induction false} SameTable(s0: State, es: seq<Event>, i: nat, j: nat)
    requires s0.history != [] && i <= j <= |es| && NoChange(es, i, j)
    ensures TableAt(s0, es, i) == TableAt(s0, es, j)
    decreases j
  {
    if i < j {
      SameTable(s0, es, i, j - 1);
      AtNext(s0, es, j - 1);
      StepKeepsTable(At(s0, es, j - 1), es[j - 1]);
    }
  }

  lemma {:induction false} StepKeepsTable(s: State, e: Event)
    requires s.history != []
    ensures !e.Change? ==> Step(s, e).history == s.history
    ensures s.now <= Step(s, e).now
  {
  }

  lemma {:induction false} TimeGoesOn(s0: State, es: seq<Event>, i: nat, j: nat)
    requires s0.history != [] && i <= j <= |es|
    ensures At(s0, es, i).now <= At(s0, es, j).now
    decreases j
  {
    if i < j {
      TimeGoesOn(s0, es, i, j - 1);
      AtNext(s0, es, j - 1);
      StepKeepsTable(At(s0, es, j - 1), es[j - 1]);
    }
  }

  /** The table has not changed in the last five time units. */
  predicate NoRecentChange(s0: State, es: seq<Event>)
    requires s0.history != []
  {
    forall k :: 0 <= k < |es| && es[k].Change? ==> At(s0, es, k).now <= Run(s0, es).now - 5.0
  }

  /** What the check that stored an entry says about its value: without a change of the table between
      its first read and its store, the value is the direct evaluation of the table at the store, and if
      the table has not changed in the last five time units, of the current one. */
  lemma {:induction false} CleanCheckIsDirect(s0: State, es: seq<Event>, e: Entry, id: nat, p: nat, r: nat, q: nat)
    requires s0.history != [] && StoredBy(s0, es, e, id, p, r, q) && !e.origin.Degraded? && NoChange(es, p, q)
    ensures e.value == Direct(TableAt(s0, es, q), e.tenant, e.feature)
    ensures Run(s0, es).now - e.ts < 5.0 && NoRecentChange(s0, es) ==>
      e.value == Direct(Current(Run(s0, es)), e.tenant, e.feature)
  {
    SameTable(s0, es, p, r);
    SameTable(s0, es, p, q);
    assert es[..|es|] == es;
    if Run(s0, es).now - e.ts < 5.0 && NoRecentChange(s0, es) {
      forall k | q <= k < |es| ensures !es[k].Change? {
        TimeGoesOn(s0, es, q, k);
      }
      SameTable(s0, es, q, |es|);
    }
  }

  /** The answer `e` of state `Run(s0, es)`: stored less than five time units ago, by the check of `id`
      that read at `p` and `r` and stored at `q`; direct wherever the table did not change meanwhile. */
  ghost predicate AnsweredBy(s0: State, es: seq<Event>, e: Entry, id: nat, p: nat, r: nat, q: nat)
    requires s0.history != []
  {
    && StoredBy(s0, es, e, id, p, r, q)
    && Run(s0, es).now - 5.0 < At(s0, es, q).now <= Run(s0, es).now
    && (!e.origin.Degraded? && NoChange(es, p, q) ==>
          && e.value == Direct(TableAt(s0, es, q), e.tenant, e.feature)
          && (NoRecentChange(s0, es) ==> e.value == Direct(Current(Run(s0, es)), e.tenant, e.feature)))
  }

  lemma {:induction false} TracedAnswer(s0: State, es: seq<Event>, e: Entry)
    requires s0.history != [] && EntryTraced(s0, es, e)
    requires 0.0 <= Run(s0, es).now - e.ts < 5.0
    ensures exists id: nat, p: nat, r: nat, q: nat :: AnsweredBy(s0, es, e, id, p, r, q)
  {
    var id: nat, p: nat, r: nat, q: nat :| StoredBy(s0, es, e, id, p, r, q);
    if !e.origin.Degraded? && NoChange(es, p, q) {
      CleanCheckIsDirect(s0, es, e, id, p, r, q);
    }
    assert AnsweredBy(s0, es, e, id, p, r, q);
  }

  /** In every run a cached answer was stored less than five time units ago by one check, in flight from
      its first read at `p` to its store at `q`. It is an allow degradation after a failed read, or the
      own row of the table at `p` with the parent row of the table at `r`. If the table did not change
      between `p` and `q`, it is the direct evaluation of the table that was current when it was stored,
      and of the current table if that has not changed in the last five time units. */
  lemma {:induction false} HitRefinesDirect(allow: bool, table: Table, now: real, es: seq<Event>, tenant: string,
      feature: string)
    requires NoColon(tenant) && Hit(Run(Initial(allow, table, now), es), tenant, feature).Some?
    ensures var s0 := Initial(allow, table, now); var e := Run(s0, es).cache[CacheKey(tenant, feature)];
      && e.tenant == tenant && e.feature == feature && Hit(Run(s0, es), tenant, feature) == Some(e.value)
      && exists id: nat, p: nat, r: nat, q: nat :: AnsweredBy(s0, es, e, id, p, r, q)
  {
    var s0 := Initial(allow, table, now);
    var s := Run(s0, es);
    RunKeepsWellFormed(s0, es);
    RunTraced(s0, es);
    var key := CacheKey(tenant, feature);
    assert EntryOk(s, key, s.cache[key]) && EntryTraced(s0, es, s.cache[key]);
    KeyInjective(tenant, feature, s.cache[key].tenant, s.cache[key].feature);
    TracedAnswer(s0, es, s.cache[key]);
  }

  // ---------- why the table must not change meanwhile ----------

  /** The same events with every change going to one table. */
  function Retabled(es: seq<Event>, table: Table): (r: seq<Event>)
    ensures |r| == |es|
  {
    if es == [] then []
    else [if es[0].Change? then Change(table) else es[0]] + Retabled(es[1..], table)
  }

  /** Between its first read and its store the check reads its parent row, if it needs one. */
  predicate ReadsThrough(own: Option<Row>, id: nat, mid: seq<Event>) {
    && (forall i :: 0 <= i < |mid| ==> mid[i] != Store(id) && mid[i] != ReadParent(id, true))
    && (NeedsParent(own) ==> ReadParent(id, false) in mid)
  }

  /** The check has read `own` from state `m` of the table, and every later state is `later`. */
  ghost predicate Following(s: State, id: nat, own: Option<Row>, tenant: string, feature: string, m: nat,
      first: Table, later: Table) {
    && m < |s.history| && s.history[m] == first && (forall k :: m < k < |s.history| ==> s.history[k] == later)
    && id in s.flights && s.flights[id].tenant == tenant && s.flights[id].feature == feature
    && match s.flights[id].stage
       case Missed => false
       case OwnRead(_, row) => row == own && NeedsParent(own)
       case Decided(v, o) =>
         o.ReadAt? && m <= o.parent < |s.history| && v == Decide(own, ParentOf(s.history[o.parent], tenant, own))
  }

  /** What other requests, the clock, changes and invalidations leave of a check in flight. */
  lemma {:induction false} OthersKeepFlight(s: State, e: Event, id: nat)
    requires s.history != [] && id in s.flights && !s.flights[id].stage.Missed?
    requires e != Store(id) && !(e.ReadParent? && e.id == id)
    ensures id in Step(s, e).flights && Step(s, e).flights[id] == s.flights[id]
    ensures Step(s, e).history == if e.Change? then s.history + [e.table] else s.history
  {
  }

  lemma {:induction false} FollowingStep(s: State, e: Event, id: nat, own: Option<Row>, tenant: string,
      feature: string, m: nat, first: Table, later: Table)
    requires Following(s, id, own, tenant, feature, m, first, later)
    requires e != Store(id) && e != ReadParent(id, true) && (e.Change? ==> e.table == later)
    ensures Following(Step(s, e), id, own, tenant, feature, m, first, later)
    ensures e == ReadParent(id, false) || s.flights[id].stage.Decided? ==> Step(s, e).flights[id].stage.Decided?
    ensures |Step(s, e).history| == |s.history| + if e.Change? then 1 else 0
  {
    if e != ReadParent(id, false) {
      OthersKeepFlight(s, e, id);
    }
  }

  lemma {:induction false} FollowingRun(s: State, mid: seq<Event>, id: nat, own: Option<Row>, tenant: string,
      feature: string, m: nat, first: Table, later: Table)
    requires Following(s, id, own, tenant, feature, m, first, later)
    requires forall i :: 0 <= i < |mid| ==> mid[i] != Store(id) && mid[i] != ReadParent(id, true)
    ensures var n := Run(s, Retabled(mid, later));
      && Following(n, id, own, tenant, feature, m, first, later)
      && (s.flights[id].stage.Decided? || ReadParent(id, false) in mid ==> n.flights[id].stage.Decided?)
      && |s.history| <= |n.history| && (|n.history| == |s.history| <==> NoChange(mid, 0, |mid|))
    decreases |mid|
  {
    if mid != [] {
      var e := if mid[0].Change? then Change(later) else mid[0];
      FollowingStep(s, e, id, own, tenant, feature, m, first, later);
      FollowingRun(Step(s, e), mid[1..], id, own, tenant, feature, m, first, later);
      var r := Retabled(mid, later);
      assert r[0] == e && r[1..] == Retabled(mid[1..], later);
      assert mid == [mid[0]] + mid[1..];
      assert NoChange(mid, 0, |mid|) <==> !mid[0].Change? && NoChange(mid[1..], 0, |mid| - 1) by {
        assert forall k :: 0 <= k < |mid| - 1 ==> mid[1..][k] == mid[k + 1];
      }
    }
  }

  /** A table on which the switch evaluates to something that the check cannot have decided. */
  function Refuting(first: Table, own: Option<Row>, tenant: string, feature: string): Table {
    if own.Some? && own.value.enabled != "true" then map[]
    else if Direct(first, tenant, feature) then
      var other := feature + (if own.Some? && own.value.parent.Some? then own.value.parent.value else "") + "x";
      map[(tenant, feature) := Row("true", "sub_feature", Some(other)), (tenant, other) := Row("false", "module", None)]
    else
      var parent := if own.Some? && own.value.parent.Some? then own.value.parent.value else "";
      map[(tenant, parent) := Row("false", "module", None)]
  }

  lemma {:induction false} RefutingRefutes(first: Table, own: Option<Row>, tenant: string, feature: string,
      second: Table)
    requires own == GetByKey(first, tenant, feature)
    requires second == first || second == Refuting(first, own, tenant, feature)
    ensures Decide(own, ParentOf(second, tenant, own)) != Direct(Refuting(first, own, tenant, feature), tenant, feature)
  {
  }

  /** What a check decides is the direct evaluation of the table at its store, whatever the table changes
      to, exactly when the table does not change between the check's first read and its store. */
  lemma {:induction false} DecidedIsDirectIffNoChange(s: State, id: nat, mid: seq<Event>)
    requires WellFormed(s) && id in s.flights && s.flights[id].stage.Missed?
    requires ReadsThrough(GetByKey(Current(s), s.flights[id].tenant, s.flights[id].feature), id, mid)
    ensures (forall table: Table ::
               var n := Run(Step(s, ReadOwn(id, false)), Retabled(mid, table));
               && id in n.flights && n.flights[id].stage.Decided?
               && n.flights[id].stage.value == Direct(Current(n), s.flights[id].tenant, s.flights[id].feature))
            <==> NoChange(mid, 0, |mid|)
  {
    var t, f, first, m := s.flights[id].tenant, s.flights[id].feature, Current(s), |s.history| - 1;
    var own := GetByKey(first, t, f);
    var s1 := Step(s, ReadOwn(id, false));
    forall table: Table
      ensures Following(s1, id, own, t, f, m, first, table)
    {
    }
    if NoChange(mid, 0, |mid|) {
      forall table: Table
        ensures var n := Run(s1, Retabled(mid, table));
          && id in n.flights && n.flights[id].stage.Decided?
          && n.flights[id].stage.value == Direct(Current(n), t, f)
      {
        FollowingRun(s1, mid, id, own, t, f, m, first, table);
      }
    } else {
      var table := Refuting(first, own, t, f);
      FollowingRun(s1, mid, id, own, t, f, m, first, table);
      var n := Run(s1, Retabled(mid, table));
      RefutingRefutes(first, own, t, f, n.history[n.flights[id].stage.origin.parent]);
      assert Current(n) == table;
    }
  }

  // ---------- runs in which an answer is old, torn or back again ----------

  const ON := Row("true", "module", None)
  const OFF := Row("false", "module", None)

  /** A check of the switch has read its own row when the table changes. */
  function ReadThenChange(second: Table): seq<Event> {
    [Lookup(0, "t", "f"), ReadOwn(0, false), Change(second)]
  }

  function Waiting(allow: bool, first: Table, second: Table): State {
    var own := GetByKey(first, "t", "f");
    var stage := if NeedsParent(own) then OwnRead(0, own) else Decided(Decide(own, None), ReadAt(0, 0));
    State(allow, map[], map[0 := Flight("t", "f", stage)], [first, second], 0.0)
  }

  lemma {:induction false} ReadThenChangeWaits(allow: bool, first: Table, second: Table)
    ensures Run(Initial(allow, first, 0.0), ReadThenChange(second)) == Waiting(allow, first, second)
  {
    var s0 := Initial(allow, first, 0.0);
    var es := ReadThenChange(second);
    assert At(s0, es, 0) == s0;
    AtNext(s0, es, 0);
    assert At(s0, es, 1) == s0.(flights := map[0 := Flight("t", "f", Missed)]);
    AtNext(s0, es, 1);
    AtNext(s0, es, 2);
    assert es[..3] == es && [first] + [second] == [first, second];
  }

  /** An answer of any age: the switch is turned off while a check waits, the check stores what it read
      as late as one likes, and the old answer is given for almost five time units more. */
  lemma {:induction false} StaleHit(allow: bool, delay: real, wait: real)
    requires delay >= 0.0 && 0.0 <= wait < 5.0
    ensures var off := map[("t", "f") := OFF];
      var s0 := Initial(allow, map[("t", "f") := ON], 0.0);
      var es := ReadThenChange(off) + [Tick(delay)] + [Store(0)] + [Tick(wait)];
      var s := Run(s0, es);
      && Hit(s, "t", "f") == Some(true) && s.now == delay + wait
      && At(s0, es, 3).now == 0.0 && TableAt(s0, es, 3) == Current(s) == off && !Direct(off, "t", "f")
  {
    var on, off := map[("t", "f") := ON], map[("t", "f") := OFF];
    var s0 := Initial(allow, on, 0.0);
    var read := ReadThenChange(off);
    ReadThenChangeWaits(allow, on, off);
    RunLast(s0, read, Tick(delay));
    RunLast(s0, read + [Tick(delay)], Store(0));
    RunLast(s0, read + [Tick(delay)] + [Store(0)], Tick(wait));
    assert (read + [Tick(delay)] + [Store(0)] + [Tick(wait)])[..3] == read;
  }

  /** An answer that is the direct evaluation of no table at all: the own row comes from one state, its
      parent row from the next, and each state by itself turns the switch off. */
  lemma {:induction false} TornRead(allow: bool)
    ensures var first := map[("t", "f") := Row("true", "sub_feature", Some("p")), ("t", "p") := OFF];
      var second := map[("t", "f") := OFF, ("t", "p") := ON];
      var s := Run(Initial(allow, first, 0.0), ReadThenChange(second) + [ReadParent(0, false)] + [Store(0)]);
      && Hit(s, "t", "f") == Some(true) && s.history == [first, second]
      && !Direct(first, "t", "f") && !Direct(second, "t", "f")
  {
    var first := map[("t", "f") := Row("true", "sub_feature", Some("p")), ("t", "p") := OFF];
    var second := map[("t", "f") := OFF, ("t", "p") := ON];
    var s0 := Initial(allow, first, 0.0);
    var read := ReadThenChange(second);
    ReadThenChangeWaits(allow, first, second);
    RunLast(s0, read, ReadParent(0, false));
    RunLast(s0, read + [ReadParent(0, false)], Store(0));
    assert "p" != "f";
  }

  /** An old answer is back right after the invalidation that followed the change. */
  lemma {:induction false} InvalidatedAnswerReturns(allow: bool)
    ensures var off := map[("t", "f") := OFF];
      var es := ReadThenChange(off) + [Invalidate(Some("t"))] + [Store(0)];
      var s := Run(Initial(allow, map[("t", "f") := ON], 0.0), es);
      Hit(s, "t", "f") == Some(true) && Current(s) == off && !Direct(off, "t", "f")
  {
    var on, off := map[("t", "f") := ON], map[("t", "f") := OFF];
    var s0 := Initial(allow, on, 0.0);
    var read := ReadThenChange(off);
    ReadThenChangeWaits(allow, on, off);
    RunLast(s0, read, Invalidate(Some("t")));
    RunLast(s0, read + [Invalidate(Some("t"))], Store(0));
  }
}
