/** What one run of the migration runner does, for any database and any failures of its calls. */
module SchemaRuns {
  import opened SchemaMigrations

  /** All calls for migration `i` are fine: the query and, if it is not recorded, script and record. */
  predicate Passes<S>(ms: seq<Migration<S>>, recorded: set<string>, faults: seq<Fault>, i: nat)
    requires i < |ms|
  {
    && FaultAt(faults, 3 * i + 1).Fine?
    && (ms[i].version !in recorded ==> FaultAt(faults, 3 * i + 2).Fine? && FaultAt(faults, 3 * i + 3).Fine?)
  }

  /** The versions among the first `k` that are not recorded, in the order of the list. */
  function Missing<S>(ms: seq<Migration<S>>, k: nat, recorded: set<string>): seq<string>
    requires k <= |ms|
  {
    if k == 0 then []
    else Missing(ms, k - 1, recorded) + if ms[k - 1].version in recorded then [] else [ms[k - 1].version]
  }

  /** One pass over the scripts among the first `k` that are not recorded. */
  function Upgraded<S>(ms: seq<Migration<S>>, k: nat, recorded: set<string>, schema: S): S
    requires k <= |ms|
  {
    if k == 0 then schema
    else
      var before := Upgraded(ms, k - 1, recorded, schema);
      if ms[k - 1].version in recorded then before else ms[k - 1].up(before)
  }

  /** What the first `k` migrations leave when all their calls are fine. */
  function Passed<S>(ms: seq<Migration<S>>, k: nat, db: Db<S>): Db<S>
    requires k <= |ms|
  {
    Db(Upgraded(ms, k, db.recorded, db.schema), db.recorded + Versions(ms, k), true)
  }

  lemma {:induction false} RecordedBefore<S>(ms: seq<Migration<S>>, k: nat, db: Db<S>)
    requires Distinct(ms) && k < |ms|
    ensures ms[k].version in Passed(ms, k, db).recorded <==> ms[k].version in db.recorded
    ensures ms[k].version in db.recorded ==> Passed(ms, k + 1, db) == Passed(ms, k, db)
  {
    VersionsMember(ms, k, k);
  }

  /** Migrations whose calls are fine are gone through one by one. */
  lemma {:induction false} GoesThrough<S>(ms: seq<Migration<S>>, n: nat, k: nat, db: Db<S>, faults: seq<Fault>)
    requires Distinct(ms) && k <= n <= |ms| && db.hasTable
    requires forall i :: 0 <= i < k ==> Passes(ms, db.recorded, faults, i)
    ensures var rest := RunFrom(ms, n, k, Passed(ms, k, db), faults);
      RunFrom(ms, n, 0, db, faults) == rest.(executed := Missing(ms, k, db.recorded) + rest.executed)
  {
    if k == 0 {
      assert Passed(ms, 0, db) == db;
    } else {
      var j := k - 1;
      GoesThrough(ms, n, j, db, faults);
      RecordedBefore(ms, j, db);
      assert Passes(ms, db.recorded, faults, j);
      if ms[j].version !in db.recorded {
        var one := ApplyOne(ms[j], Passed(ms, j, db), Fine, Fine);
        assert one == Reply(Passed(ms, k, db), [ms[j].version], true);
      }
    }
  }

  /** A run whose calls are fine executes and records exactly the missing migrations, in order. */
  lemma {:induction false} FineRun<S>(ms: seq<Migration<S>>, n: nat, db: Db<S>, faults: seq<Fault>)
    requires Distinct(ms) && n <= |ms| && FaultAt(faults, 0).Fine?
    requires forall i :: 0 <= i < n ==> Passes(ms, db.recorded, faults, i)
    ensures RunRelease(ms, n, db, faults) == Reply(Passed(ms, n, db), Missing(ms, n, db.recorded), true)
  {
    GoesThrough(ms, n, n, db.(hasTable := true), faults);
  }

  /** A run stops at the first call that is not fine, with everything before it done and nothing after. */
  lemma {:induction false} StoppedRun<S>(ms: seq<Migration<S>>, n: nat, db: Db<S>, faults: seq<Fault>, k: nat)
    requires Distinct(ms) && k < n <= |ms| && FaultAt(faults, 0).Fine?
    requires forall i :: 0 <= i < k ==> Passes(ms, db.recorded, faults, i)
    requires !Passes(ms, db.recorded, faults, k)
    ensures var r := RunRelease(ms, n, db, faults);
      var query, script, record := FaultAt(faults, 3 * k + 1), FaultAt(faults, 3 * k + 2), FaultAt(faults, 3 * k + 3);
      var missing := Missing(ms, k, db.recorded);
      var before := Passed(ms, k, db);
      && !r.ok
      && (!query.Fine? || script.Refused? ==> r.db == before && r.executed == missing)
      && (query.Fine? && !script.Refused? ==>
            r.executed == missing + [ms[k].version] && r.db.schema == ms[k].up(before.schema) && r.db.hasTable)
      && (query.Fine? && (script.Unacknowledged? || (script.Fine? && record.Refused?)) ==>
            r.db.recorded == before.recorded)
      && (query.Fine? && script.Fine? && record.Unacknowledged? ==>
            r.db.recorded == before.recorded + {ms[k].version})
  {
    GoesThrough(ms, n, k, db.(hasTable := true), faults);
    RecordedBefore(ms, k, db);
  }

  /** A run answers without error exactly if every call it has to make is fine. */
  lemma {:induction false} RunSucceedsIff<S>(ms: seq<Migration<S>>, n: nat, db: Db<S>, faults: seq<Fault>)
    requires Distinct(ms) && n <= |ms|
    ensures RunRelease(ms, n, db, faults).ok
            <==> FaultAt(faults, 0).Fine? && forall i :: 0 <= i < n ==> Passes(ms, db.recorded, faults, i)
    ensures !FaultAt(faults, 0).Fine? ==>
              var r := RunRelease(ms, n, db, faults);
              && r.executed == [] && r.db.schema == db.schema && r.db.recorded == db.recorded
              && (r.db.hasTable <==> db.hasTable || FaultAt(faults, 0).Unacknowledged?)
  {
    if FaultAt(faults, 0).Fine? {
      var k := FirstStop(ms, n, db.recorded, faults);
      if k == n {
        FineRun(ms, n, db, faults);
      } else {
        StoppedRun(ms, n, db, faults, k);
      }
    }
  }

  lemma {:induction false} FirstStop<S>(ms: seq<Migration<S>>, n: nat, recorded: set<string>, faults: seq<Fault>)
    returns (k: nat)
    requires n <= |ms|
    ensures k <= n && (k < n ==> !Passes(ms, recorded, faults, k))
    ensures forall i :: 0 <= i < k ==> Passes(ms, recorded, faults, i)
  {
    k := 0;
    while k < n && Passes(ms, recorded, faults, k)
      invariant k <= n && forall i :: 0 <= i < k ==> Passes(ms, recorded, faults, i)
    {
      k := k + 1;
    }
  }
}
