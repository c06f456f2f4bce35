/** What the checks of a switch answer: the decision of the table, and how long an answer holds. */
module FeatureAnswers {
  import opened Results
  import opened FeatureSwitches
  import opened FeatureTraces

  /** A switch is off exactly if its row says anything but "true", or it is a sub-feature whose parent
      row is there and says anything but "true"; a switch without a row is on. */
  lemma {:induction false} OffIff(table: Table, tenant: string, feature: string)
    ensures !Direct(table, tenant, feature) <==>
      && (tenant, feature) in table
      && var own := table[(tenant, feature)];
         || own.enabled != "true"
         || (own.scope == "sub_feature" && own.parent.Some? && own.parent.value != ""
             && (tenant, own.parent.value) in table && table[(tenant, own.parent.value)].enabled != "true")
  {
  }

  // ---------- how long an answer holds ----------

  /** Nothing clears the cache, and no invalidation is for this tenant. */
  predicate Uninvalidated(es: seq<Event>, tenant: string) {
    forall i :: 0 <= i < |es| && es[i].Invalidate? ==>
      es[i].only.Some? && es[i].only.value != tenant && NoColon(es[i].only.value)
  }

  /** No other check of the switch is waiting for the database. */
  ghost predicate NoOtherCheck(s: State, tenant: string, feature: string) {
    forall id :: id in s.flights ==> s.flights[id].tenant != tenant || s.flights[id].feature != feature
  }

  lemma {:induction false} SwitchStep(s: State, e: Event, id: nat)
    requires s.history != [] && id in Step(s, e).flights
    ensures
      || (id in s.flights && Step(s, e).flights[id].tenant == s.flights[id].tenant
          && Step(s, e).flights[id].feature == s.flights[id].feature)
      || (e.Lookup? && e.id == id && Step(s, e).flights[id] == Flight(e.tenant, e.feature, Missed)
          && Hit(s, e.tenant, e.feature).None?)
  {
  }

  lemma {:induction false} NoOtherCheckStep(s: State, e: Event, tenant: string, feature: string)
    requires s.history != [] && NoOtherCheck(s, tenant, feature) && Hit(s, tenant, feature).Some?
    ensures NoOtherCheck(Step(s, e), tenant, feature)
  {
    forall id | id in Step(s, e).flights
      ensures Step(s, e).flights[id].tenant != tenant || Step(s, e).flights[id].feature != feature
    {
      SwitchStep(s, e, id);
    }
  }

  lemma {:induction false} EntryStays(s: State, e: Event, tenant: string, feature: string)
    requires WellFormed(s) && NoColon(tenant) && NoOtherCheck(s, tenant, feature)
    requires CacheKey(tenant, feature) in s.cache && Uninvalidated([e], tenant)
    ensures var key := CacheKey(tenant, feature);
      key in Step(s, e).cache && Step(s, e).cache[key] == s.cache[key]
  {
    assert [e][0] == e;
    if e.Invalidate? {
      PrefixIsTenant(e.only.value, tenant, feature);
    } else if e.Store? && e.id in s.flights {
      var fl := s.flights[e.id];
      assert FlightOk(s, fl);
      if CacheKey(fl.tenant, fl.feature) == CacheKey(tenant, feature) {
        KeyInjective(fl.tenant, fl.feature, tenant, feature);
      }
    }
  }

  lemma {:induction false} RunTakesTime(s: State, es: seq<Event>)
    requires s.history != []
    ensures s.now <= Run(s, es).now
    decreases |es|
  {
    if es != [] {
      StepKeepsTable(s, es[0]);
      RunTakesTime(Step(s, es[0]), es[1..]);
    }
  }

  /** A cached answer stays the answer until five time units after it was stored, whatever the table
      becomes, whatever other checks do and whatever tenants are invalidated beside this one. */
  lemma {:induction false} HitHolds(s: State, es: seq<Event>, tenant: string, feature: string)
    requires WellFormed(s) && NoColon(tenant) && NoOtherCheck(s, tenant, feature)
    requires Hit(s, tenant, feature).Some? && Uninvalidated(es, tenant)
    requires Run(s, es).now < s.cache[CacheKey(tenant, feature)].ts + 5.0
    ensures Hit(Run(s, es), tenant, feature) == Hit(s, tenant, feature)
    decreases |es|
  {
    if es != [] {
      var n := Step(s, es[0]);
      assert Uninvalidated([es[0]], tenant);
      EntryStays(s, es[0], tenant, feature);
      NoOtherCheckStep(s, es[0], tenant, feature);
      StepKeepsWellFormed(s, es[0]);
      RunTakesTime(n, es[1..]);
      assert Hit(n, tenant, feature) == Hit(s, tenant, feature);
      assert forall i :: 0 <= i < |es[1..]| ==> es[1..][i] == es[i + 1];
      HitHolds(n, es[1..], tenant, feature);
    }
  }

  lemma {:induction false} CheckedWellFormed(s: State, tenant: string, feature: string, ownFails: bool,
      parentFails: bool)
    requires WellFormed(s) && NoColon(tenant)
    ensures WellFormed(Checked(s, tenant, feature, ownFails, parentFails))
  {
    var n := Checked(s, tenant, feature, ownFails, parentFails);
    forall k | k in n.cache ensures EntryOk(n, k, n.cache[k]) {
      assert k in s.cache ==> EntryOk(s, k, s.cache[k]);
    }
    forall id | id in n.flights ensures FlightOk(n, n.flights[id]) {
      assert FlightOk(s, s.flights[id]);
    }
  }

  /** What a check answers from the table holds for five time units: every later check answers the same,
      whatever the table and the faults of its reads are by then. */
  lemma {:induction false} AnswerHolds(s: State, tenant: string, feature: string, ownFails: bool, parentFails: bool,
      es: seq<Event>, ownFailsThen: bool, parentFailsThen: bool)
    requires WellFormed(s) && NoColon(tenant) && NoOtherCheck(s, tenant, feature)
    requires Hit(s, tenant, feature).None? && Answer(s, tenant, feature, ownFails, parentFails).Ok?
    requires Uninvalidated(es, tenant)
    requires Run(Checked(s, tenant, feature, ownFails, parentFails), es).now < s.now + 5.0
    ensures var n := Run(Checked(s, tenant, feature, ownFails, parentFails), es);
      Answer(n, tenant, feature, ownFailsThen, parentFailsThen) == Answer(s, tenant, feature, ownFails, parentFails)
  {
    var c := Checked(s, tenant, feature, ownFails, parentFails);
    CheckedWellFormed(s, tenant, feature, ownFails, parentFails);
    RunTakesTime(c, es);
    HitHolds(c, es, tenant, feature);
  }

  /** A check that answers from the cache says what was stored, and so do all until it expires. */
  lemma {:induction false} CachedAnswerHolds(s: State, tenant: string, feature: string, es: seq<Event>,
      ownFails: bool, parentFails: bool)
    requires WellFormed(s) && NoColon(tenant) && NoOtherCheck(s, tenant, feature)
    requires Hit(s, tenant, feature).Some? && Uninvalidated(es, tenant)
    requires Run(s, es).now < s.cache[CacheKey(tenant, feature)].ts + 5.0
    ensures Answer(Run(s, es), tenant, feature, ownFails, parentFails) == Ok(s.cache[CacheKey(tenant, feature)].value)
  {
    HitHolds(s, es, tenant, feature);
  }

  /** Every check for five time units from now answers `v`, whatever happens. */
  ghost predicate Holds(s: State, tenant: string, feature: string, v: bool)
    requires s.history != []
  {
    forall es, ownFails, parentFails ::
      Uninvalidated(es, tenant) && Run(s, es).now < s.now + 5.0 ==>
        Answer(Run(s, es), tenant, feature, ownFails, parentFails) == Ok(v)
  }

  /** Whatever the table and its reads do, the check can only store `v`: it has decided so, or it has read
      a row that is off, is not to be degraded, and `v` is off too. */
  predicate Settled(fl: Flight, v: bool, allow: bool) {
    match fl.stage
    case Missed => false
    case OwnRead(_, row) => !v && !allow && row.Some? && row.value.enabled != "true"
    case Decided(value, _) => value == v
  }

  /** The switch is answered `v` from an entry stored at `since` or later, and every check of it that still
      waits can only confirm that. */
  ghost predicate Holding(s: State, tenant: string, feature: string, v: bool, since: real) {
    && CacheKey(tenant, feature) in s.cache
    && s.cache[CacheKey(tenant, feature)].value == v && since <= s.cache[CacheKey(tenant, feature)].ts
    && forall id :: id in s.flights && s.flights[id].tenant == tenant && s.flights[id].feature == feature ==>
         Settled(s.flights[id], v, s.allow)
  }

  lemma {:induction false} SettledStep(s: State, e: Event, id: nat, v: bool)
    requires s.history != [] && id in s.flights && Settled(s.flights[id], v, s.allow) && id in Step(s, e).flights
    ensures Settled(Step(s, e).flights[id], v, s.allow)
  {
  }

  lemma {:induction false} HoldingStep(s: State, e: Event, tenant: string, feature: string, v: bool, since: real)
    requires WellFormed(s) && NoColon(tenant) && Holding(s, tenant, feature, v, since)
    requires since <= s.now < since + 5.0 && Uninvalidated([e], tenant)
    ensures Holding(Step(s, e), tenant, feature, v, since)
  {
    var n := Step(s, e);
    assert Hit(s, tenant, feature).Some?;
    RunKeepsStrategy(s, [e]);
    assert Run(s, [e]) == Run(n, [e][1..]) == n by {
      assert [e][1..] == [];
    }
    forall id | id in n.flights && n.flights[id].tenant == tenant && n.flights[id].feature == feature
      ensures Settled(n.flights[id], v, n.allow)
    {
      SwitchStep(s, e, id);
      SettledStep(s, e, id, v);
    }
    HeldEntryStep(s, e, tenant, feature, v, since);
  }

  lemma {:induction false} HeldEntryStep(s: State, e: Event, tenant: string, feature: string, v: bool, since: real)
    requires WellFormed(s) && NoColon(tenant) && Holding(s, tenant, feature, v, since)
    requires since <= s.now && Uninvalidated([e], tenant)
    ensures var key := CacheKey(tenant, feature);
      key in Step(s, e).cache && Step(s, e).cache[key].value == v && since <= Step(s, e).cache[key].ts
  {
    assert [e][0] == e;
    if e.Invalidate? {
      PrefixIsTenant(e.only.value, tenant, feature);
    } else if e.Store? && e.id in s.flights {
      var fl := s.flights[e.id];
      assert FlightOk(s, fl);
      if CacheKey(fl.tenant, fl.feature) == CacheKey(tenant, feature) {
        KeyInjective(fl.tenant, fl.feature, tenant, feature);
      }
    }
  }

  lemma {:induction false} HoldingRun(s: State, es: seq<Event>, tenant: string, feature: string, v: bool, since: real)
    requires WellFormed(s) && NoColon(tenant) && Holding(s, tenant, feature, v, since)
    requires since <= s.now && Run(s, es).now < since + 5.0 && Uninvalidated(es, tenant)
    ensures Holding(Run(s, es), tenant, feature, v, since)
    decreases |es|
  {
    if es != [] {
      var n := Step(s, es[0]);
      assert Uninvalidated([es[0]], tenant);
      StepKeepsTable(s, es[0]);
      RunTakesTime(n, es[1..]);
      HoldingStep(s, es[0], tenant, feature, v, since);
      StepKeepsWellFormed(s, es[0]);
      assert forall i :: 0 <= i < |es[1..]| ==> es[1..][i] == es[i + 1];
      HoldingRun(n, es[1..], tenant, feature, v, since);
    }
  }

  /** A table on which a switch without parent evaluates to the opposite of `v`. */
  function Against(tenant: string, feature: string, v: bool): Table {
    if v then map[(tenant, feature) := OFF] else map[]
  }

  /** The events by which a check that is not settled stores the opposite of `v`. */
  function Overturn(id: nat, fl: Flight, v: bool, allow: bool): seq<Event>
    requires fl.stage.OwnRead? ==> NeedsParent(fl.stage.row)
  {
    match fl.stage
    case Missed => [Change(Against(fl.tenant, fl.feature, v)), ReadOwn(id, false), Store(id)]
    case OwnRead(_, row) =>
      if v then [Change(map[(fl.tenant, row.value.parent.value) := OFF]), ReadParent(id, false), Store(id)]
      else if allow then [Change(map[]), ReadParent(id, true), Store(id)]
      else [Change(map[]), ReadParent(id, false), Store(id)]
    case Decided(_, _) => [Change(map[]), ReadOwn(id, false), Store(id)]
  }

  /** The first two of these events decide the opposite of `v`. */
  lemma {:induction false} OverturnDecides(s: State, id: nat, v: bool)
    requires WellFormed(s) && id in s.flights && !Settled(s.flights[id], v, s.allow)
    ensures FlightOk(s, s.flights[id])
    ensures var fl := s.flights[id];
      var es := Overturn(id, fl, v, s.allow);
      var n := Step(Step(s, es[0]), es[1]);
      && |es| == 3 && es[2] == Store(id) && Uninvalidated(es, fl.tenant) && n.now == s.now
      && id in n.flights && n.flights[id].tenant == fl.tenant && n.flights[id].feature == fl.feature
      && n.flights[id].stage.Decided? && n.flights[id].stage.value == !v
  {
    assert FlightOk(s, s.flights[id]);
  }

  lemma {:induction false} Overturned(s: State, id: nat, v: bool)
    requires WellFormed(s) && id in s.flights && !Settled(s.flights[id], v, s.allow)
    ensures FlightOk(s, s.flights[id])
    ensures var fl := s.flights[id];
      var n := Run(s, Overturn(id, fl, v, s.allow));
      n.now == s.now && Hit(n, fl.tenant, fl.feature) == Some(!v)
  {
    OverturnDecides(s, id, v);
    var es := Overturn(id, s.flights[id], v, s.allow);
    var none: seq<Event> := [];
    RunLast(s, none, es[0]);
    RunLast(s, [es[0]], es[1]);
    RunLast(s, [es[0], es[1]], es[2]);
    assert none + [es[0]] == [es[0]] && [es[0]] + [es[1]] == [es[0], es[1]] && [es[0], es[1]] + [es[2]] == es;
  }

  ghost predicate AllSettled(s: State, tenant: string, feature: string, v: bool) {
    forall id :: id in s.flights && s.flights[id].tenant == tenant && s.flights[id].feature == feature ==>
      Settled(s.flights[id], v, s.allow)
  }

  lemma {:induction false} OldEntryFails(s: State, tenant: string, feature: string)
    requires WellFormed(s) && NoColon(tenant) && Hit(s, tenant, feature).Some?
    requires s.cache[CacheKey(tenant, feature)].ts != s.now
    ensures !Holds(s, tenant, feature, s.cache[CacheKey(tenant, feature)].value)
  {
    var e := s.cache[CacheKey(tenant, feature)];
    assert EntryOk(s, CacheKey(tenant, feature), e);
    var table := Against(tenant, feature, e.value);
    var es := [Tick(e.ts + 5.0 - s.now), Change(table)];
    ExpiredAnswer(s, tenant, feature, table);
    assert Uninvalidated(es, tenant);
    OffIff(table, tenant, feature);
    assert Answer(Run(s, es), tenant, feature, false, false) != Ok(e.value);
  }

  lemma {:induction false} UnsettledFails(s: State, tenant: string, feature: string, v: bool)
    requires WellFormed(s) && !AllSettled(s, tenant, feature, v)
    ensures !Holds(s, tenant, feature, v)
  {
    var id :| id in s.flights && s.flights[id].tenant == tenant && s.flights[id].feature == feature
      && !Settled(s.flights[id], v, s.allow);
    OverturnDecides(s, id, v);
    Overturned(s, id, v);
    var es := Overturn(id, s.flights[id], v, s.allow);
    assert Answer(Run(s, es), tenant, feature, false, false) == Ok(!v);
  }

  lemma {:induction false} SettledHolds(s: State, tenant: string, feature: string)
    requires WellFormed(s) && NoColon(tenant) && Hit(s, tenant, feature).Some?
    requires var e := s.cache[CacheKey(tenant, feature)]; e.ts == s.now && AllSettled(s, tenant, feature, e.value)
    ensures Holds(s, tenant, feature, s.cache[CacheKey(tenant, feature)].value)
  {
    var v := s.cache[CacheKey(tenant, feature)].value;
    forall es, ownFails, parentFails | Uninvalidated(es, tenant) && Run(s, es).now < s.now + 5.0
      ensures Answer(Run(s, es), tenant, feature, ownFails, parentFails) == Ok(v)
    {
      HoldingRun(s, es, tenant, feature, v, s.now);
    }
  }

  /** A cached answer holds for five time units from now exactly if it was stored this very moment and every
      check of the switch that still waits for the database can only confirm it: an older entry expires
      before, and another check can store another answer over it. */
  lemma {:induction false} AnswerHoldsIff(s: State, tenant: string, feature: string)
    requires WellFormed(s) && NoColon(tenant) && Hit(s, tenant, feature).Some?
    ensures var e := s.cache[CacheKey(tenant, feature)];
      Holds(s, tenant, feature, e.value) <==> e.ts == s.now && AllSettled(s, tenant, feature, e.value)
  {
    var e := s.cache[CacheKey(tenant, feature)];
    if e.ts != s.now {
      OldEntryFails(s, tenant, feature);
    } else if !AllSettled(s, tenant, feature, e.value) {
      UnsettledFails(s, tenant, feature, e.value);
    } else {
      SettledHolds(s, tenant, feature);
    }
  }

  /** When an entry expires, the next check answers from the table. */
  lemma {:induction false} ExpiredAnswer(s: State, tenant: string, feature: string, table: Table)
    requires WellFormed(s) && Hit(s, tenant, feature).Some?
    ensures var es := [Tick(s.cache[CacheKey(tenant, feature)].ts + 5.0 - s.now), Change(table)];
      && Run(s, es).now == s.cache[CacheKey(tenant, feature)].ts + 5.0
      && Answer(Run(s, es), tenant, feature, false, false) == Ok(Direct(table, tenant, feature))
  {
    var dt := s.cache[CacheKey(tenant, feature)].ts + 5.0 - s.now;
    var es := [Tick(dt), Change(table)];
    var s1 := Step(s, Tick(dt));
    var s2 := Step(s1, Change(table));
    assert es[1..] == [Change(table)] && [Change(table)][1..] == [];
    assert Run(s, es) == Run(s1, [Change(table)]) == Run(s2, []) == s2;
    assert s2.history[|s2.history| - 1] == table;
  }

  // ---------- what an answer says ----------

  /** In every run the value that a check returns is either a cached one, with the check behind it and its
      age, or the direct evaluation of the current table, or an allow degradation after a failed read; a
      check raises exactly when a read fails that it needs, nothing is cached and the strategy is deny. */
  lemma {:induction false} AnswerRefinesDirect(allow: bool, table: Table, now: real, es: seq<Event>, tenant: string,
      feature: string, ownFails: bool, parentFails: bool)
    requires NoColon(tenant)
    ensures var s0 := Initial(allow, table, now); var s := Run(s0, es);
      match Answer(s, tenant, feature, ownFails, parentFails)
      case Ok(v) =>
        if Hit(s, tenant, feature).Some? then
          var e := s.cache[CacheKey(tenant, feature)];
          && v == e.value && e.tenant == tenant && e.feature == feature
          && exists id: nat, p: nat, r: nat, q: nat :: AnsweredBy(s0, es, e, id, p, r, q)
        else
          v == Direct(Current(s), tenant, feature) || (allow && v && (ownFails || parentFails))
      case Err(_) => Hit(s, tenant, feature).None? && !allow && (ownFails || parentFails)
  {
    var s := Run(Initial(allow, table, now), es);
    RunKeepsStrategy(Initial(allow, table, now), es);
    if Hit(s, tenant, feature).Some? {
      HitRefinesDirect(allow, table, now, es, tenant, feature);
    }
  }
}
