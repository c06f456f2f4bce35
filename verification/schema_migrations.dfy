/**
 * The schema migration runner: apply a script, then record its version, with a failure possible
 * at and between all database calls.
 */
module SchemaMigrations {
  datatype Migration<!S> = Migration(version: string, up: S -> S)

  /** The fate of one database call: fine, without effect, or done with its answer lost. */
  datatype Fault = Fine | Refused | Unacknowledged

  datatype Db<+S> = Db(schema: S, recorded: set<string>, hasTable: bool)

  /** What one `Run` leaves, the versions whose script it executed, and whether it returned no error. */
  datatype Reply<+S> = Reply(db: Db<S>, executed: seq<string>, ok: bool)

  /** The database calls of one run are numbered; calls past the list are fine. */
  function FaultAt(faults: seq<Fault>, n: nat): Fault {
    if n < |faults| then faults[n] else Fine
  }

  /** Execute an unrecorded migration's script, then record its version. */
  function ApplyOne<S>(m: Migration<S>, db: Db<S>, exec: Fault, record: Fault): Reply<S> {
    if exec.Refused? then Reply(db, [], false)
    else
      var applied := db.(schema := m.up(db.schema));
      if exec.Unacknowledged? || record.Refused? then Reply(applied, [m.version], false)
      else Reply(applied.(recorded := db.recorded + {m.version}), [m.version], record.Fine?)
  }

  /** The run from migration `i` up to migration `n`; call 3i + 1 queries, 3i + 2 executes, 3i + 3 records. */
  function RunFrom<S>(ms: seq<Migration<S>>, n: nat, i: nat, db: Db<S>, faults: seq<Fault>): Reply<S>
    requires i <= n <= |ms|
    decreases n - i
  {
    if i == n then Reply(db, [], true)
    else if !FaultAt(faults, 3 * i + 1).Fine? then Reply(db, [], false)
    else if ms[i].version in db.recorded then RunFrom(ms, n, i + 1, db, faults)
    else
      var one := ApplyOne(ms[i], db, FaultAt(faults, 3 * i + 2), FaultAt(faults, 3 * i + 3));
      if !one.ok then one
      else
        var rest := RunFrom(ms, n, i + 1, one.db, faults);
        rest.(executed := one.executed + rest.executed)
  }

  /** One run of the release that ships the first `n` migrations; call 0 creates the tracking table. */
  function RunRelease<S>(ms: seq<Migration<S>>, n: nat, db: Db<S>, faults: seq<Fault>): Reply<S>
    requires n <= |ms|
  {
    var create := FaultAt(faults, 0);
    var ensured := if create.Refused? then db else db.(hasTable := true);
    if create.Fine? then RunFrom(ms, n, 0, ensured, faults) else Reply(ensured, [], false)
  }

  // ---------- the runner ----------

  class MigrationRunner<S> {
    const connected: bool
    var schema: S
    var recorded: set<string>
    var hasTable: bool

    constructor (connected: bool, db: Db<S>)
      ensures this.connected == connected && Model() == db
    {
      this.connected := connected;
      schema, recorded, hasTable := db.schema, db.recorded, db.hasTable;
    }

    function Model(): Db<S>
      reads this
    {
      Db(schema, recorded, hasTable)
    }

    method EnsureMigrationTable(fault: Fault) returns (ok: bool)
      modifies this`hasTable
      ensures ok == fault.Fine? && hasTable == (old(hasTable) || !fault.Refused?)
    {
      if !fault.Refused? {
        hasTable := true;
      }
      ok := fault.Fine?;
    }

    method ExecuteUp(m: Migration<S>, fault: Fault) returns (ok: bool)
      modifies this`schema
      ensures ok == fault.Fine? && schema == if fault.Refused? then old(schema) else m.up(old(schema))
    {
      if !fault.Refused? {
        schema := m.up(schema);
      }
      ok := fault.Fine?;
    }

    method RecordMigration(version: string, fault: Fault) returns (ok: bool)
      modifies this`recorded
      ensures ok == fault.Fine? && recorded == if fault.Refused? then old(recorded) else old(recorded) + {version}
    {
      if !fault.Refused? {
        recorded := recorded + {version};
      }
      ok := fault.Fine?;
    }

    method Run(ms: seq<Migration<S>>, faults: seq<Fault>) returns (ok: bool, executed: seq<string>)
      modifies this
      ensures !connected ==> !ok && executed == [] && Model() == old(Model())
      ensures connected ==> Reply(Model(), executed, ok) == RunRelease(ms, |ms|, old(Model()), faults)
    {
      executed := [];
      if !connected {
        return false, [];
      }
      ok := EnsureMigrationTable(FaultAt(faults, 0));
      if !ok {
        return;
      }
      ghost var whole := RunFrom(ms, |ms|, 0, Model(), faults);
      for i := 0 to |ms|
        invariant var rest := RunFrom(ms, |ms|, i, Model(), faults);
          whole == rest.(executed := executed + rest.executed)
        invariant ok
      {
        if !FaultAt(faults, 3 * i + 1).Fine? {
          return false, executed;
        }
        if ms[i].version in recorded {
          continue;
        }
        if !FaultAt(faults, 3 * i + 2).Refused? {
          executed := executed + [ms[i].version];
        }
        ok := ExecuteUp(ms[i], FaultAt(faults, 3 * i + 2));
        if !ok {
          return;
        }
        ok := RecordMigration(ms[i].version, FaultAt(faults, 3 * i + 3));
        if !ok {
          return;
        }
      }
    }
  }

  // ---------- sequences of runs ----------

  /** A run of the release that ships the first `release` migrations. */
  datatype Attempt = Attempt(release: nat, faults: seq<Fault>)

  predicate Releases<S>(ms: seq<Migration<S>>, attempts: seq<Attempt>) {
    forall i :: 0 <= i < |attempts| ==> attempts[i].release <= |ms|
  }

  function After<S>(ms: seq<Migration<S>>, db: Db<S>, attempts: seq<Attempt>): Db<S>
    requires Releases(ms, attempts)
    decreases |attempts|
  {
    if attempts == [] then db
    else After(ms, RunRelease(ms, attempts[0].release, db, attempts[0].faults).db, attempts[1..])
  }

  function Fresh<S>(schema: S): Db<S> {
    Db(schema, {}, false)
  }

  function Versions<S>(ms: seq<Migration<S>>, k: nat): set<string>
    requires k <= |ms|
  {
    if k == 0 then {} else Versions(ms, k - 1) + {ms[k - 1].version}
  }

  /** One in-order pass over the first `k` scripts. */
  function Applied<S>(ms: seq<Migration<S>>, s: S, k: nat): S
    requires k <= |ms|
  {
    if k == 0 then s else ms[k - 1].up(Applied(ms, s, k - 1))
  }

  function Times<S>(up: S -> S, s: S, j: nat): S {
    if j == 0 then s else up(Times(up, s, j - 1))
  }

  /** No version repeats an earlier one. */
  predicate Distinct<S>(ms: seq<Migration<S>>) {
    DistinctBelow(ms, |ms|)
  }

  predicate DistinctBelow<S>(ms: seq<Migration<S>>, k: nat)
    requires k <= |ms|
  {
    k == 0 || (DistinctBelow(ms, k - 1) && ms[k - 1].version !in Versions(ms, k - 1))
  }

  /** The first scripts run in order, script `i` as often as `counts[i]` says. */
  function Ran<S>(ms: seq<Migration<S>>, s0: S, counts: seq<nat>): S
    requires |counts| <= |ms|
    decreases |counts|
  {
    if counts == [] then s0
    else
      var i := |counts| - 1;
      Times(ms[i].up, Ran(ms, s0, counts[..i]), counts[i])
  }

  /** The first scripts run in order as often as `counts` says, and the next script `ahead` times. */
  function RanAhead<S>(ms: seq<Migration<S>>, s0: S, counts: seq<nat>, ahead: nat): S
    requires |counts| <= |ms|
  {
    if |counts| < |ms| then Times(ms[|counts|].up, Ran(ms, s0, counts), ahead) else Ran(ms, s0, counts)
  }

  predicate AtLeastOnce(counts: seq<nat>) {
    forall i :: 0 <= i < |counts| ==> counts[i] >= 1
  }

  /** The first `|counts|` versions are recorded and their scripts have run in order, each at least
      once; beyond the record only the next script may have run, `ahead` times. */
  ghost predicate Standing<S>(ms: seq<Migration<S>>, s0: S, db: Db<S>, counts: seq<nat>, ahead: nat) {
    && |counts| <= |ms|
    && db.recorded == Versions(ms, |counts|)
    && AtLeastOnce(counts)
    && db.schema == RanAhead(ms, s0, counts, ahead)
  }

  lemma {:induction false} VersionsMember<S>(ms: seq<Migration<S>>, k: nat, i: nat)
    requires Distinct(ms) && k <= |ms| && i < |ms|
    ensures ms[i].version in Versions(ms, k) <==> i < k
  {
    NotBefore(ms, |ms|, i);
    VersionsGrow(ms, if k <= i then k else i + 1, if k <= i then i else k);
  }

  lemma {:induction false} VersionsGrow<S>(ms: seq<Migration<S>>, a: nat, b: nat)
    requires a <= b <= |ms|
    ensures Versions(ms, a) <= Versions(ms, b)
    decreases b
  {
    if a < b {
      VersionsGrow(ms, a, b - 1);
    }
  }

  lemma {:induction false} NotBefore<S>(ms: seq<Migration<S>>, k: nat, i: nat)
    requires i < k <= |ms| && DistinctBelow(ms, k)
    ensures ms[i].version !in Versions(ms, i)
  {
    if i < k - 1 {
      NotBefore(ms, k - 1, i);
    }
  }

  lemma {:induction false} DistinctPrefix<S>(ms: seq<Migration<S>>, n: nat, k: nat)
    requires k <= n <= |ms| && DistinctBelow(ms, |ms|)
    ensures DistinctBelow(ms[..n], k) && Versions(ms[..n], k) == Versions(ms, k)
  {
    if k > 0 {
      DistinctPrefix(ms, n, k - 1);
      NotBefore(ms, |ms|, k - 1);
    }
  }

  lemma {:induction false} ApplyOneKeepsStanding<S>(
    ms: seq<Migration<S>>, s0: S, db: Db<S>, exec: Fault, record: Fault, counts: seq<nat>, ahead: nat)
    returns (counts': seq<nat>, ahead': nat)
    requires Standing(ms, s0, db, counts, ahead) && |counts| < |ms|
    ensures var one := ApplyOne(ms[|counts|], db, exec, record);
      Standing(ms, s0, one.db, counts', ahead') && (one.ok ==> |counts'| == |counts| + 1)
  {
    if exec.Refused? {
      counts', ahead' := counts, ahead;
    } else if exec.Unacknowledged? || record.Refused? {
      counts', ahead' := counts, ahead + 1;
    } else {
      counts', ahead' := counts + [ahead + 1], 0;
      assert counts'[..|counts|] == counts;
    }
  }

  lemma {:induction false} RunFromKeepsStanding<S>(
    ms: seq<Migration<S>>, s0: S, n: nat, i: nat, db: Db<S>, faults: seq<Fault>, counts: seq<nat>, ahead: nat)
    returns (counts': seq<nat>, ahead': nat)
    requires Distinct(ms) && i <= n <= |ms| && i <= |counts| && Standing(ms, s0, db, counts, ahead)
    ensures var r := RunFrom(ms, n, i, db, faults);
      Standing(ms, s0, r.db, counts', ahead') && (r.ok ==> n <= |counts'|)
    decreases n - i
  {
    counts', ahead' := counts, ahead;
    if i == n || !FaultAt(faults, 3 * i + 1).Fine? {
      return;
    }
    assert ms[i].version in db.recorded <==> i < |counts| by {
      VersionsMember(ms, |counts|, i);
    }
    if i < |counts| {
      counts', ahead' := RunFromKeepsStanding(ms, s0, n, i + 1, db, faults, counts, ahead);
    } else {
      var exec, record := FaultAt(faults, 3 * i + 2), FaultAt(faults, 3 * i + 3);
      var one := ApplyOne(ms[i], db, exec, record);
      counts', ahead' := ApplyOneKeepsStanding(ms, s0, db, exec, record, counts, ahead);
      if one.ok {
        counts', ahead' := RunFromKeepsStanding(ms, s0, n, i + 1, one.db, faults, counts', ahead');
      }
    }
  }

  lemma {:induction false} RunKeepsStanding<S>(
    ms: seq<Migration<S>>, s0: S, n: nat, db: Db<S>, faults: seq<Fault>, counts: seq<nat>, ahead: nat)
    returns (counts': seq<nat>, ahead': nat)
    requires Distinct(ms) && n <= |ms| && Standing(ms, s0, db, counts, ahead)
    ensures Standing(ms, s0, RunRelease(ms, n, db, faults).db, counts', ahead')
    ensures RunRelease(ms, n, db, faults).ok ==> n <= |counts'|
  {
    counts', ahead' := counts, ahead;
    if FaultAt(faults, 0).Fine? {
      counts', ahead' := RunFromKeepsStanding(ms, s0, n, 0, db.(hasTable := true), faults, counts, ahead);
    }
  }

  lemma {:induction false} AttemptsKeepStanding<S>(
    ms: seq<Migration<S>>, s0: S, db: Db<S>, attempts: seq<Attempt>, counts: seq<nat>, ahead: nat)
    returns (counts': seq<nat>, ahead': nat)
    requires Distinct(ms) && Releases(ms, attempts) && Standing(ms, s0, db, counts, ahead)
    ensures Standing(ms, s0, After(ms, db, attempts), counts', ahead')
    decreases |attempts|
  {
    counts', ahead' := counts, ahead;
    if attempts != [] {
      var a := attempts[0];
      counts', ahead' := RunKeepsStanding(ms, s0, a.release, db, a.faults, counts, ahead);
      var next := RunRelease(ms, a.release, db, a.faults).db;
      counts', ahead' := AttemptsKeepStanding(ms, s0, next, attempts[1..], counts', ahead');
    }
  }

  /** After any runs of any releases, failing anywhere: the recorded versions are those of a first
      part of the list, run in order, and at most the next script is ahead of the record. */
  lemma {:induction false} RecordedIsPrefix<S>(ms: seq<Migration<S>>, s0: S, attempts: seq<Attempt>)
    requires Distinct(ms) && Releases(ms, attempts)
    ensures exists counts, ahead :: Standing(ms, s0, After(ms, Fresh(s0), attempts), counts, ahead)
  {
    assert Standing(ms, s0, Fresh(s0), [], 0);
    var counts, ahead := AttemptsKeepStanding(ms, s0, Fresh(s0), attempts, [], 0);
  }

  // ---------- recovery ----------

  predicate RerunnableAt<S(==)>(m: Migration<S>, s: S) {
    m.up(m.up(s)) == m.up(s)
  }

  /** Each script, run again right where it stands in the list, changes nothing. */
  ghost predicate Rerunnable<S>(ms: seq<Migration<S>>, s0: S) {
    forall k {:trigger RerunnableAt(ms[k], Applied(ms, s0, k))} ::
      0 <= k < |ms| ==> RerunnableAt(ms[k], Applied(ms, s0, k))
  }

  lemma {:induction false} TimesRerunnable<S>(ms: seq<Migration<S>>, s0: S, k: nat, j: nat)
    requires Rerunnable(ms, s0) && k < |ms|
    ensures Times(ms[k].up, Applied(ms, s0, k), j) == Applied(ms, s0, if j == 0 then k else k + 1)
  {
    if j > 0 {
      TimesRerunnable(ms, s0, k, j - 1);
      assert RerunnableAt(ms[k], Applied(ms, s0, k));
    }
  }

  lemma {:induction false} RanRerunnable<S>(ms: seq<Migration<S>>, s0: S, counts: seq<nat>)
    requires Rerunnable(ms, s0) && |counts| <= |ms| && AtLeastOnce(counts)
    ensures Ran(ms, s0, counts) == Applied(ms, s0, |counts|)
    decreases |counts|
  {
    if counts != [] {
      var i := |counts| - 1;
      RanRerunnable(ms, s0, counts[..i]);
      TimesRerunnable(ms, s0, i, counts[i]);
    }
  }

  /** Runs of this list and of its earlier releases, failing anywhere, that end in a successful run
      of the whole list leave exactly the schema of one in-order pass. */
  ghost predicate Recovers<S(!new)>(ms: seq<Migration<S>>, s0: S) {
    forall attempts, last: seq<Fault> :: RecoversFrom(ms, s0, attempts, last)
  }

  predicate RecoversFrom<S(==)>(ms: seq<Migration<S>>, s0: S, attempts: seq<Attempt>, last: seq<Fault>) {
    Releases(ms, attempts) ==>
      var r := RunRelease(ms, |ms|, After(ms, Fresh(s0), attempts), last);
      r.ok ==> r.db.schema == Applied(ms, s0, |ms|)
  }

  lemma {:induction false} AppliedPrefix<S>(ms: seq<Migration<S>>, s0: S, n: nat, k: nat)
    requires k <= n <= |ms|
    ensures Applied(ms[..n], s0, k) == Applied(ms, s0, k)
  {
    if k > 0 {
      AppliedPrefix(ms, s0, n, k - 1);
    }
  }

  lemma {:induction false} RerunnableStanding<S>(ms: seq<Migration<S>>, s0: S, db: Db<S>, counts: seq<nat>, ahead: nat)
    requires Rerunnable(ms, s0) && Standing(ms, s0, db, counts, ahead) && |ms| <= |counts|
    ensures db.schema == Applied(ms, s0, |ms|) && db.recorded == Versions(ms, |ms|)
  {
    RanRerunnable(ms, s0, counts);
  }

  lemma {:induction false} RerunnableRecovers<S>(ms: seq<Migration<S>>, s0: S, attempts: seq<Attempt>, last: seq<Fault>)
    requires Distinct(ms) && Rerunnable(ms, s0) && Releases(ms, attempts)
    ensures RecoversFrom(ms, s0, attempts, last)
    ensures var r := RunRelease(ms, |ms|, After(ms, Fresh(s0), attempts), last);
      r.ok ==> r.db.recorded == Versions(ms, |ms|)
  {
    assert Standing(ms, s0, Fresh(s0), [], 0);
    var db := After(ms, Fresh(s0), attempts);
    var counts, ahead := AttemptsKeepStanding(ms, s0, Fresh(s0), attempts, [], 0);
    counts, ahead := RunKeepsStanding(ms, s0, |ms|, db, last, counts, ahead);
    var r := RunRelease(ms, |ms|, db, last);
    if r.ok {
      RerunnableStanding(ms, s0, r.db, counts, ahead);
    }
  }

  /** A clean first run is one in-order pass. */
  lemma {:induction false} CleanRun<S>(ms: seq<Migration<S>>, s0: S, n: nat, i: nat)
    requires Distinct(ms) && i <= n <= |ms|
    ensures RunFrom(ms, n, i, Clean(ms, s0, i), []).db == Clean(ms, s0, n)
    decreases n - i
  {
    if i < n {
      VersionsMember(ms, i, i);
      assert ApplyOne(ms[i], Clean(ms, s0, i), Fine, Fine) == Reply(Clean(ms, s0, i + 1), [ms[i].version], true);
      CleanRun(ms, s0, n, i + 1);
    }
  }

  function Clean<S>(ms: seq<Migration<S>>, s0: S, k: nat): Db<S>
    requires k <= |ms|
  {
    Db(Applied(ms, s0, k), Versions(ms, k), true)
  }

  /** Already recorded migrations are queried and skipped. */
  lemma {:induction false} SkipRecorded<S>(ms: seq<Migration<S>>, n: nat, k: nat, i: nat, db: Db<S>, faults: seq<Fault>)
    requires Distinct(ms) && i <= k <= n <= |ms| && db.recorded == Versions(ms, k)
    requires forall x :: 0 <= x < 3 * k + 2 ==> FaultAt(faults, x).Fine?
    ensures RunFrom(ms, n, i, db, faults) == RunFrom(ms, n, k, db, faults)
    decreases k - i
  {
    if i < k {
      VersionsMember(ms, k, i);
      assert FaultAt(faults, 3 * i + 1).Fine?;
      SkipRecorded(ms, n, k, i + 1, db, faults);
    }
  }

  /** The faults of a run that executes script `k` and then cannot record it. */
  function Crash(k: nat): seq<Fault> {
    seq(3 * k + 3, _ => Fine) + [Refused]
  }

  /** The state after the scripts before `k` are recorded and script `k` has run without its record. */
  function Crashed<S>(ms: seq<Migration<S>>, s0: S, k: nat): Db<S>
    requires k < |ms|
  {
    Clean(ms, s0, k).(schema := ms[k].up(Applied(ms, s0, k)))
  }

  lemma {:induction false} CrashedRun<S>(ms: seq<Migration<S>>, s0: S, k: nat)
    requires Distinct(ms) && k < |ms|
    ensures RunRelease(ms, k + 1, Clean(ms, s0, k), Crash(k)).db == Crashed(ms, s0, k)
  {
    VersionsMember(ms, k, k);
    SkipRecorded(ms, k + 1, k, 0, Clean(ms, s0, k), Crash(k));
    assert ApplyOne(ms[k], Clean(ms, s0, k), Fine, Refused) == Reply(Crashed(ms, s0, k), [ms[k].version], false);
  }

  lemma {:induction false} RerunOfCrashed<S>(ms: seq<Migration<S>>, s0: S, k: nat)
    requires Distinct(ms) && k < |ms|
    ensures var r := RunRelease(ms, k + 1, Crashed(ms, s0, k), []);
      r.ok && r.db.schema == ms[k].up(ms[k].up(Applied(ms, s0, k)))
  {
    var d := Crashed(ms, s0, k);
    VersionsMember(ms, k, k);
    SkipRecorded(ms, k + 1, k, 0, d, []);
    var one := ApplyOne(ms[k], d, Fine, Fine);
    assert RunFrom(ms, k + 1, k + 1, one.db, []) == Reply(one.db, [], true);
  }

  /** One crash between the last script and its record makes the next run execute it again. */
  lemma {:induction false} CrashThenRerun<S(!new)>(ms: seq<Migration<S>>, s0: S, k: nat)
    requires Distinct(ms) && k + 1 == |ms| && Recovers(ms, s0)
    ensures RerunnableAt(ms[k], Applied(ms, s0, k))
  {
    var attempts := [Attempt(k, []), Attempt(k + 1, Crash(k))];
    CleanRun(ms, s0, k, 0);
    assert RunRelease(ms, k, Fresh(s0), []).db == Clean(ms, s0, k);
    CrashedRun(ms, s0, k);
    AfterTwo(ms, Fresh(s0), attempts[0], attempts[1]);
    RerunOfCrashed(ms, s0, k);
    assert RecoversFrom(ms, s0, attempts, []);
  }

  lemma {:induction false} AfterTwo<S>(ms: seq<Migration<S>>, db: Db<S>, a: Attempt, b: Attempt)
    requires Releases(ms, [a, b]) && a.release <= |ms| && b.release <= |ms|
    ensures After(ms, db, [a, b]) == RunRelease(ms, b.release, RunRelease(ms, a.release, db, a.faults).db, b.faults).db
  {
    assert [a, b][1..] == [b] && [b][1..] == [];
    var d := RunRelease(ms, a.release, db, a.faults).db;
    assert After(ms, db, [a, b]) == After(ms, d, [b]) == After(ms, RunRelease(ms, b.release, d, b.faults).db, []);
  }

  lemma {:induction false} RerunnablePrefixRecovers<S(!new)>(ms: seq<Migration<S>>, s0: S, n: nat)
    requires Distinct(ms) && Rerunnable(ms, s0) && n <= |ms|
    ensures Recovers(ms[..n], s0)
  {
    var list := ms[..n];
    DistinctPrefix(ms, n, n);
    forall k | 0 <= k < n ensures RerunnableAt(list[k], Applied(list, s0, k)) {
      AppliedPrefix(ms, s0, n, k);
      assert RerunnableAt(ms[k], Applied(ms, s0, k));
    }
    forall attempts, last: seq<Fault> ensures RecoversFrom(list, s0, attempts, last) {
      if Releases(list, attempts) {
        RerunnableRecovers(list, s0, attempts, last);
      }
    }
  }

  /** Every release recovers from every failure pattern exactly when every script may be run again
      where it stands in the list. */
  lemma {:induction false} RecoversIffRerunnable<S(!new)>(ms: seq<Migration<S>>, s0: S)
    requires Distinct(ms)
    ensures (forall n :: 0 <= n <= |ms| ==> Recovers(ms[..n], s0)) <==> Rerunnable(ms, s0)
  {
    if Rerunnable(ms, s0) {
      forall n | 0 <= n <= |ms| ensures Recovers(ms[..n], s0) {
        RerunnablePrefixRecovers(ms, s0, n);
      }
    }
    if forall n :: 0 <= n <= |ms| ==> Recovers(ms[..n], s0) {
      forall k | 0 <= k < |ms| ensures RerunnableAt(ms[k], Applied(ms, s0, k)) {
        RecoveryNeedsRerunnable(ms, s0, k);
      }
    }
  }

  lemma {:induction false} RecoveryNeedsRerunnable<S(!new)>(ms: seq<Migration<S>>, s0: S, k: nat)
    requires Distinct(ms) && k < |ms| && Recovers(ms[..k + 1], s0)
    ensures RerunnableAt(ms[k], Applied(ms, s0, k))
  {
    DistinctPrefix(ms, k + 1, k + 1);
    CrashThenRerun(ms[..k + 1], s0, k);
    AppliedPrefix(ms, s0, k + 1, k);
  }

  /** Once every version is recorded, no run of any release executes or changes anything. */
  lemma {:induction false} RecordedRunsChangeNothing<S>(ms: seq<Migration<S>>, n: nat, i: nat, db: Db<S>,
      faults: seq<Fault>)
    requires Distinct(ms) && i <= n <= |ms| && db.recorded == Versions(ms, |ms|)
    ensures RunFrom(ms, n, i, db, faults).db == db && RunFrom(ms, n, i, db, faults).executed == []
    decreases n - i
  {
    if i < n {
      VersionsMember(ms, |ms|, i);
      RecordedRunsChangeNothing(ms, n, i + 1, db, faults);
    }
  }

  /** After the first success on the whole list, every later run is without effect. */
  lemma {:induction false} SettledForever<S>(ms: seq<Migration<S>>, db: Db<S>, attempts: seq<Attempt>)
    requires Distinct(ms) && Releases(ms, attempts) && db.recorded == Versions(ms, |ms|) && db.hasTable
    ensures After(ms, db, attempts) == db
    ensures forall i :: 0 <= i < |attempts| ==>
      RunRelease(ms, attempts[i].release, db, attempts[i].faults).executed == []
    decreases |attempts|
  {
    if attempts != [] {
      var a := attempts[0];
      RecordedRunsChangeNothing(ms, a.release, 0, db, a.faults);
      assert db.(hasTable := true) == db;
      SettledForever(ms, db, attempts[1..]);
      forall i | 1 <= i < |attempts|
        ensures RunRelease(ms, attempts[i].release, db, attempts[i].faults).executed == []
      {
        assert attempts[i] == attempts[1..][i - 1];
      }
    }
  }

  lemma {:induction false} RunFromKeepsTable<S>(ms: seq<Migration<S>>, n: nat, i: nat, db: Db<S>, faults: seq<Fault>)
    requires i <= n <= |ms|
    ensures RunFrom(ms, n, i, db, faults).db.hasTable == db.hasTable
    decreases n - i
  {
    if i < n && FaultAt(faults, 3 * i + 1).Fine? {
      if ms[i].version in db.recorded {
        RunFromKeepsTable(ms, n, i + 1, db, faults);
      } else {
        var one := ApplyOne(ms[i], db, FaultAt(faults, 3 * i + 2), FaultAt(faults, 3 * i + 3));
        if one.ok {
          RunFromKeepsTable(ms, n, i + 1, one.db, faults);
        }
      }
    }
  }

  /** Whatever failed before: once a run of the whole list has answered without error, all versions are
      recorded, and no later run of any release executes or changes anything. */
  lemma {:induction false} SuccessSettles<S>(
    ms: seq<Migration<S>>, s0: S, attempts: seq<Attempt>, last: seq<Fault>, later: seq<Attempt>)
    requires Distinct(ms) && Releases(ms, attempts) && Releases(ms, later)
    requires RunRelease(ms, |ms|, After(ms, Fresh(s0), attempts), last).ok
    ensures var db := RunRelease(ms, |ms|, After(ms, Fresh(s0), attempts), last).db;
      && db.recorded == Versions(ms, |ms|) && After(ms, db, later) == db
      && forall i :: 0 <= i < |later| ==> RunRelease(ms, later[i].release, db, later[i].faults).executed == []
  {
    var before := After(ms, Fresh(s0), attempts);
    var counts, ahead := AttemptsKeepStanding(ms, s0, Fresh(s0), attempts, [], 0);
    counts, ahead := RunKeepsStanding(ms, s0, |ms|, before, last, counts, ahead);
    RunFromKeepsTable(ms, |ms|, 0, before.(hasTable := true), last);
    SettledForever(ms, RunRelease(ms, |ms|, before, last).db, later);
  }
}
