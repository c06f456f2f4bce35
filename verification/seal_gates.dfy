/** The release gates, their append-only records and the final verdict. */
module SealGates {
  import opened Results

  type Uuid = nat

  datatype GateType =
    MilestoneFinalPass | CoreFreezeHash | Regression378 | GitClean | TagConflict | CertValidity

  datatype Verdict = FinalPass | FinalFail

  datatype GateError =
    | GateConflict | SealAuditInvalid | FreezeDeclarationMissing | FreezeDeclarationNotEffective

  datatype Record = Record(release: Uuid, gate: GateType, passed: bool)

  /** Calls on the record table, with what the checkers answer. */
  datatype Op =
    | Execute(release: Uuid, answers: GateType -> bool)
    | Retry(release: Uuid, gates: seq<GateType>, answers: GateType -> bool)

  predicate Recorded(table: seq<Record>, release: Uuid, gate: GateType) {
    exists i :: 0 <= i < |table| && table[i].release == release && table[i].gate == gate
  }

  /** Insert under the unique key of release and gate; rows are never updated or deleted. */
  function Insert(table: seq<Record>, r: Record): Result<seq<Record>, GateError> {
    if Recorded(table, r.release, r.gate) then Err(GateConflict) else Ok(table + [r])
  }

  /** The checkers in order, up to the first that fails. */
  function ExecuteAll(table: seq<Record>, release: Uuid, checkers: seq<GateType>, answers: GateType -> bool)
    : Result<seq<Record>, GateError>
    decreases |checkers|
  {
    if checkers == [] then Ok(table)
    else
      var passed := answers(checkers[0]);
      var next :- Insert(table, Record(release, checkers[0], passed));
      if passed then ExecuteAll(next, release, checkers[1..], answers) else Ok(next)
  }

  /** The named gates in order, all of them; gates without a checker are skipped. */
  function RetryAll(table: seq<Record>, release: Uuid, checkers: seq<GateType>, gates: seq<GateType>,
      answers: GateType -> bool)
    : Result<seq<Record>, GateError>
    decreases |gates|
  {
    if gates == [] then Ok(table)
    else if gates[0] !in checkers then RetryAll(table, release, checkers, gates[1..], answers)
    else
      var next :- Insert(table, Record(release, gates[0], answers(gates[0])));
      RetryAll(next, release, checkers, gates[1..], answers)
  }

  function Do(table: seq<Record>, checkers: seq<GateType>, op: Op): Result<seq<Record>, GateError> {
    match op
    case Execute(release, answers) => ExecuteAll(table, release, checkers, answers)
    case Retry(release, gates, answers) => RetryAll(table, release, checkers, gates, answers)
  }

  function Apply(table: seq<Record>, checkers: seq<GateType>, op: Op): seq<Record> {
    match Do(table, checkers, op)
    case Ok(next) => next
    case Err(_) => table
  }

  function Run(table: seq<Record>, checkers: seq<GateType>, ops: seq<Op>): seq<Record>
    decreases |ops|
  {
    if ops == [] then table else Run(Apply(table, checkers, ops[0]), checkers, ops[1..])
  }

  function RecordsOf(table: seq<Record>, release: Uuid): seq<Record> {
    if table == [] then []
    else
      var last := table[|table| - 1];
      RecordsOf(table[..|table| - 1], release) + if last.release == release then [last] else []
  }

  predicate AllPass(records: seq<Record>) {
    forall i :: 0 <= i < |records| ==> records[i].passed
  }

  function Judge(table: seq<Record>, release: Uuid, hashOk: bool, declaration: Option<string>)
    : Result<Verdict, GateError>
  {
    var gates := RecordsOf(table, release);
    if gates == [] then Err(SealAuditInvalid)
    else if !AllPass(gates) then Ok(FinalFail)
    else if !hashOk then Ok(FinalFail)
    else if declaration.None? then Err(FreezeDeclarationMissing)
    else if declaration.value != "EFFECTIVE" then Err(FreezeDeclarationNotEffective)
    else Ok(FinalPass)
  }

  // ---------- the table only grows, release by release ----------

  /** The records of a release are the table's rows for it. */
  lemma {:induction false} RecordsMember(table: seq<Record>, release: Uuid, r: Record)
    ensures r in RecordsOf(table, release) <==> r in table && r.release == release
  {
    if table != [] {
      RecordsMember(table[..|table| - 1], release, r);
      assert table == table[..|table| - 1] + [table[|table| - 1]];
    }
  }

  lemma {:induction false} ExecuteGrows(table: seq<Record>, release: Uuid, checkers: seq<GateType>,
      answers: GateType -> bool)
    requires ExecuteAll(table, release, checkers, answers).Ok?
    ensures table <= ExecuteAll(table, release, checkers, answers).value
    decreases |checkers|
  {
    if checkers != [] {
      var next := table + [Record(release, checkers[0], answers(checkers[0]))];
      if answers(checkers[0]) {
        ExecuteGrows(next, release, checkers[1..], answers);
      }
    }
  }

  lemma {:induction false} RetryGrows(table: seq<Record>, release: Uuid, checkers: seq<GateType>,
      gates: seq<GateType>, answers: GateType -> bool)
    requires RetryAll(table, release, checkers, gates, answers).Ok?
    ensures table <= RetryAll(table, release, checkers, gates, answers).value
    decreases |gates|
  {
    if gates != [] {
      if gates[0] in checkers {
        RetryGrows(table + [Record(release, gates[0], answers(gates[0]))], release, checkers, gates[1..], answers);
      } else {
        RetryGrows(table, release, checkers, gates[1..], answers);
      }
    }
  }

  lemma {:induction false} RunGrows(table: seq<Record>, checkers: seq<GateType>, ops: seq<Op>)
    ensures table <= Run(table, checkers, ops)
    decreases |ops|
  {
    if ops != [] {
      var op := ops[0];
      if Do(table, checkers, op).Ok? {
        match op
        case Execute(release, answers) => ExecuteGrows(table, release, checkers, answers);
        case Retry(release, gates, answers) => RetryGrows(table, release, checkers, gates, answers);
      }
      RunGrows(Apply(table, checkers, op), checkers, ops[1..]);
    }
  }

  /** Once a gate of a release has failed, no later run of calls can bring the verdict to pass. */
  lemma {:induction false} FailIsForever(table: seq<Record>, checkers: seq<GateType>, ops: seq<Op>, r: Record,
                                         hashOk: bool, declaration: Option<string>)
    requires r in table && !r.passed
    ensures Judge(Run(table, checkers, ops), r.release, hashOk, declaration) == Ok(FinalFail)
  {
    var end := Run(table, checkers, ops);
    RunGrows(table, checkers, ops);
    assert r in end;
    RecordsMember(end, r.release, r);
    var i :| 0 <= i < |RecordsOf(end, r.release)| && RecordsOf(end, r.release)[i] == r;
  }

  /** The verdict read off the table: pass needs records, no failure among them, an intact snapshot and
      an effective declaration; fail needs a failure, or records whose snapshot was tampered with; the
      errors say that there are no records, no declaration, or none that is effective. */
  lemma {:induction false} VerdictOfTable(table: seq<Record>, release: Uuid, hashOk: bool, declaration: Option<string>)
    ensures Judge(table, release, hashOk, declaration) == Ok(FinalPass) <==>
      && (exists r :: r in table && r.release == release)
      && (forall r :: r in table && r.release == release ==> r.passed)
      && hashOk && declaration == Some("EFFECTIVE")
    ensures Judge(table, release, hashOk, declaration) == Ok(FinalFail) <==>
      exists r :: r in table && r.release == release && (!r.passed || !hashOk)
    ensures Judge(table, release, hashOk, declaration) == Err(SealAuditInvalid) <==>
      forall r :: r in table ==> r.release != release
    ensures Judge(table, release, hashOk, declaration) == Err(FreezeDeclarationMissing) <==>
      && (exists r :: r in table && r.release == release)
      && (forall r :: r in table && r.release == release ==> r.passed)
      && hashOk && declaration == None
    ensures Judge(table, release, hashOk, declaration) == Err(FreezeDeclarationNotEffective) <==>
      && (exists r :: r in table && r.release == release)
      && (forall r :: r in table && r.release == release ==> r.passed)
      && hashOk && declaration != None && declaration != Some("EFFECTIVE")
  {
    var rs := RecordsOf(table, release);
    forall r ensures r in rs <==> r in table && r.release == release {
      RecordsMember(table, release, r);
    }
    assert rs != [] ==> rs[0] in rs;
    assert AllPass(rs) <==> forall r :: r in rs ==> r.passed;
  }

  // ---------- releases gated by execute alone ----------

  /** Passes for the first checkers in order, the last record possibly a failure. */
  predicate GatedPrefix(records: seq<Record>, release: Uuid, checkers: seq<GateType>) {
    && |records| <= |checkers|
    && (forall i :: 0 <= i < |records| ==> records[i].release == release && records[i].gate == checkers[i])
    && (forall i :: 0 <= i < |records| - 1 ==> records[i].passed)
    && (records != [] && |records| < |checkers| ==> !records[|records| - 1].passed)
  }

  /** What a completed execution adds, from checker `i` on. */
  lemma {:induction false} ExecuteAdds(table: seq<Record>, release: Uuid, checkers: seq<GateType>,
      answers: GateType -> bool, i: nat, other: Uuid)
    requires i <= |checkers| && ExecuteAll(table, release, checkers[i..], answers).Ok?
    requires var rs := RecordsOf(table, release);
      |rs| == i && AllPass(rs) && forall k :: 0 <= k < i ==> rs[k].release == release && rs[k].gate == checkers[k]
    ensures var n := ExecuteAll(table, release, checkers[i..], answers).value;
      && GatedPrefix(RecordsOf(n, release), release, checkers)
      && (other != release ==> RecordsOf(n, other) == RecordsOf(table, other))
    decreases |checkers| - i
  {
    if i < |checkers| {
      var r := Record(release, checkers[i], answers(checkers[i]));
      assert checkers[i..][1..] == checkers[i + 1..] && checkers[i..][0] == checkers[i];
      if answers(checkers[i]) {
        ExecuteAdds(table + [r], release, checkers, answers, i + 1, other);
      }
    }
  }

  /** A release with records is past its first gate, so executing it again raises. */
  lemma {:induction false} ExecuteAgainConflicts(table: seq<Record>, release: Uuid, checkers: seq<GateType>,
      answers: GateType -> bool)
    requires checkers != [] && RecordsOf(table, release) != []
    requires GatedPrefix(RecordsOf(table, release), release, checkers)
    ensures ExecuteAll(table, release, checkers, answers) == Err(GateConflict)
  {
    var r := RecordsOf(table, release)[0];
    RecordsMember(table, release, r);
    assert Recorded(table, release, checkers[0]);
  }

  predicate NoRetryOf(ops: seq<Op>, release: Uuid) {
    forall i :: 0 <= i < |ops| && ops[i].Retry? ==> ops[i].release != release
  }

  lemma {:induction false} RetryOther(table: seq<Record>, release: Uuid, checkers: seq<GateType>,
      gates: seq<GateType>, answers: GateType -> bool, other: Uuid)
    requires RetryAll(table, release, checkers, gates, answers).Ok? && other != release
    ensures RecordsOf(RetryAll(table, release, checkers, gates, answers).value, other) == RecordsOf(table, other)
    decreases |gates|
  {
    if gates != [] {
      if gates[0] in checkers {
        var r := Record(release, gates[0], answers(gates[0]));
        RetryOther(table + [r], release, checkers, gates[1..], answers, other);
      } else {
        RetryOther(table, release, checkers, gates[1..], answers, other);
      }
    }
  }

  lemma {:induction false} StepKeepsGated(table: seq<Record>, checkers: seq<GateType>, op: Op, release: Uuid)
    requires checkers != [] && GatedPrefix(RecordsOf(table, release), release, checkers)
    requires op.Retry? ==> op.release != release
    ensures GatedPrefix(RecordsOf(Apply(table, checkers, op), release), release, checkers)
  {
    if Do(table, checkers, op).Ok? {
      match op
      case Retry(r, gates, answers) => RetryOther(table, r, checkers, gates, answers, release);
      case Execute(r, answers) =>
        if r == release && RecordsOf(table, release) != [] {
          ExecuteAgainConflicts(table, release, checkers, answers);
        } else {
          assert checkers[0..] == checkers;
          if r == release {
            ExecuteAdds(table, r, checkers, answers, 0, release);
          } else {
            ExecuteOther(table, r, checkers, answers, release);
          }
        }
    }
  }

  lemma {:induction false} ExecuteOther(table: seq<Record>, release: Uuid, checkers: seq<GateType>,
      answers: GateType -> bool, other: Uuid)
    requires ExecuteAll(table, release, checkers, answers).Ok? && other != release
    ensures RecordsOf(ExecuteAll(table, release, checkers, answers).value, other) == RecordsOf(table, other)
    decreases |checkers|
  {
    if checkers != [] {
      var r := Record(release, checkers[0], answers(checkers[0]));
      if answers(checkers[0]) {
        ExecuteOther(table + [r], release, checkers[1..], answers, other);
      }
    }
  }

  /** In every run without retries of the release, its records are passes in checker order with at
      most one failure, at the end; short of all checkers there is one. */
  lemma {:induction false} RecordsOfGatedRelease(table: seq<Record>, checkers: seq<GateType>, ops: seq<Op>,
      release: Uuid)
    requires checkers != [] && NoRetryOf(ops, release) && GatedPrefix(RecordsOf(table, release), release, checkers)
    ensures GatedPrefix(RecordsOf(Run(table, checkers, ops), release), release, checkers)
    decreases |ops|
  {
    if ops != [] {
      StepKeepsGated(table, checkers, ops[0], release);
      RecordsOfGatedRelease(Apply(table, checkers, ops[0]), checkers, ops[1..], release);
    }
  }

  // ---------- six distinct gates ----------

  predicate UniqueKeys(table: seq<Record>) {
    forall i, j :: 0 <= i < j < |table| ==> table[i].release != table[j].release || table[i].gate != table[j].gate
  }

  lemma {:induction false} ExecuteKeepsUnique(table: seq<Record>, release: Uuid, checkers: seq<GateType>,
      answers: GateType -> bool)
    requires UniqueKeys(table) && ExecuteAll(table, release, checkers, answers).Ok?
    ensures UniqueKeys(ExecuteAll(table, release, checkers, answers).value)
    decreases |checkers|
  {
    if checkers != [] {
      var r := Record(release, checkers[0], answers(checkers[0]));
      if answers(checkers[0]) {
        ExecuteKeepsUnique(table + [r], release, checkers[1..], answers);
      }
    }
  }

  lemma {:induction false} RetryKeepsUnique(table: seq<Record>, release: Uuid, checkers: seq<GateType>,
      gates: seq<GateType>, answers: GateType -> bool)
    requires UniqueKeys(table) && RetryAll(table, release, checkers, gates, answers).Ok?
    ensures UniqueKeys(RetryAll(table, release, checkers, gates, answers).value)
    decreases |gates|
  {
    if gates != [] {
      if gates[0] in checkers {
        var r := Record(release, gates[0], answers(gates[0]));
        RetryKeepsUnique(table + [r], release, checkers, gates[1..], answers);
      } else {
        RetryKeepsUnique(table, release, checkers, gates[1..], answers);
      }
    }
  }

  lemma {:induction false} RunKeepsUnique(table: seq<Record>, checkers: seq<GateType>, ops: seq<Op>)
    requires UniqueKeys(table)
    ensures UniqueKeys(Run(table, checkers, ops))
    decreases |ops|
  {
    if ops != [] {
      var op := ops[0];
      if Do(table, checkers, op).Ok? {
        match op
        case Execute(release, answers) => ExecuteKeepsUnique(table, release, checkers, answers);
        case Retry(release, gates, answers) => RetryKeepsUnique(table, release, checkers, gates, answers);
      }
      RunKeepsUnique(Apply(table, checkers, op), checkers, ops[1..]);
    }
  }

  /** Unique keys leave the records of one release with distinct gates. */
  lemma {:induction false} RecordsHaveDistinctGates(table: seq<Record>, release: Uuid)
    requires UniqueKeys(table)
    ensures UniqueKeys(RecordsOf(table, release))
  {
    if table != [] {
      var init := table[..|table| - 1];
      var last := table[|table| - 1];
      RecordsHaveDistinctGates(init, release);
      var rs := RecordsOf(init, release);
      forall i | 0 <= i < |rs| ensures rs[i].release != last.release || rs[i].gate != last.gate {
        RecordsMember(init, release, rs[i]);
      }
    }
  }

  function Gates(records: seq<Record>): set<GateType> {
    if records == [] then {} else Gates(records[..|records| - 1]) + {records[|records| - 1].gate}
  }

  lemma {:induction false} DistinctGatesCount(records: seq<Record>, release: Uuid)
    requires UniqueKeys(records) && forall i :: 0 <= i < |records| ==> records[i].release == release
    ensures |Gates(records)| == |records|
    ensures forall g :: g in Gates(records) ==> exists i :: 0 <= i < |records| && records[i].gate == g
  {
    if records != [] {
      var init := records[..|records| - 1];
      DistinctGatesCount(init, release);
      var last := records[|records| - 1];
      assert last.gate !in Gates(init);
    }
  }

  function EveryGate(): set<GateType> {
    {MilestoneFinalPass, CoreFreezeHash, Regression378, GitClean, TagConflict, CertValidity}
  }

  lemma {:induction false} EveryGateIsThere(g: GateType)
    ensures g in EveryGate()
  {
  }

  lemma {:induction false} SixGatesAreAll(gates: set<GateType>, g: GateType)
    requires |gates| == 6
    ensures g in gates
  {
    EveryGateIsThere(g);
    if g !in gates {
      forall x | x in gates ensures x in EveryGate() - {g} {
        EveryGateIsThere(x);
      }
      SubsetCard(gates, EveryGate() - {g});
    }
  }

  lemma {:induction false} SubsetCard<T>(a: set<T>, b: set<T>)
    requires a <= b
    ensures |a| <= |b|
  {
    if a != {} {
      var x :| x in a;
      SubsetCard(a - {x}, b - {x});
    }
  }

  /** A final pass on a release gated by `execute` alone means that every gate type has passed. */
  lemma {:induction false} FinalPassMeansAllGates(checkers: seq<GateType>, ops: seq<Op>, release: Uuid, hashOk: bool,
      declaration: Option<string>)
    requires |checkers| == 6 && NoRetryOf(ops, release)
    requires Judge(Run([], checkers, ops), release, hashOk, declaration) == Ok(FinalPass)
    ensures forall g :: Record(release, g, true) in Run([], checkers, ops)
  {
    var table := Run([], checkers, ops);
    var rs := RecordsOf(table, release);
    RecordsOfGatedRelease([], checkers, ops, release);
    RunKeepsUnique([], checkers, ops);
    RecordsHaveDistinctGates(table, release);
    DistinctGatesCount(rs, release);
    forall g ensures Record(release, g, true) in table {
      SixGatesAreAll(Gates(rs), g);
      var i :| 0 <= i < |rs| && rs[i].gate == g;
      assert rs[i] == Record(release, g, true);
      RecordsMember(table, release, rs[i]);
    }
  }

  /** In every run, retries included, a final pass covers all gates exactly if the release has six records. */
  lemma {:induction false} FinalPassIsCompleteIffSix(checkers: seq<GateType>, ops: seq<Op>, release: Uuid,
                                                     hashOk: bool, declaration: Option<string>)
    requires Judge(Run([], checkers, ops), release, hashOk, declaration) == Ok(FinalPass)
    ensures (forall g :: Record(release, g, true) in Run([], checkers, ops))
            <==> |RecordsOf(Run([], checkers, ops), release)| == 6
  {
    var table := Run([], checkers, ops);
    var rs := RecordsOf(table, release);
    RunKeepsUnique([], checkers, ops);
    RecordsHaveDistinctGates(table, release);
    forall i | 0 <= i < |rs| ensures rs[i].release == release {
      RecordsMember(table, release, rs[i]);
    }
    DistinctGatesCount(rs, release);
    if |rs| == 6 {
      forall g ensures Record(release, g, true) in table {
        SixGatesAreAll(Gates(rs), g);
        var i :| 0 <= i < |rs| && rs[i].gate == g;
        assert rs[i] == Record(release, g, true);
        RecordsMember(table, release, rs[i]);
      }
    } else if forall g :: Record(release, g, true) in table {
      forall g ensures g in Gates(rs) {
        RecordsMember(table, release, Record(release, g, true));
        GateListed(rs, Record(release, g, true));
      }
      AllGatesAreSix(Gates(rs));
    }
  }

  lemma {:induction false} GateListed(records: seq<Record>, r: Record)
    requires r in records
    ensures r.gate in Gates(records)
  {
    var init := records[..|records| - 1];
    assert records == init + [records[|records| - 1]];
    if r in init {
      GateListed(init, r);
    }
  }

  lemma {:induction false} AllGatesAreSix(gates: set<GateType>)
    requires forall g: GateType :: g in gates
    ensures |gates| == 6
  {
    forall g | g in gates ensures g in EveryGate() {
      EveryGateIsThere(g);
    }
    assert gates == EveryGate();
  }

  // ---------- what a record stands for ----------

  lemma {:induction false} ExecuteRecords(table: seq<Record>, release: Uuid, checkers: seq<GateType>,
      answers: GateType -> bool, r: Record)
    requires ExecuteAll(table, release, checkers, answers).Ok?
    requires r in ExecuteAll(table, release, checkers, answers).value && r !in table
    ensures r.release == release && r.gate in checkers && answers(r.gate) == r.passed
    decreases |checkers|
  {
    if checkers != [] {
      var first := Record(release, checkers[0], answers(checkers[0]));
      if r != first && first.passed {
        ExecuteRecords(table + [first], release, checkers[1..], answers, r);
      }
    }
  }

  lemma {:induction false} RetryRecords(table: seq<Record>, release: Uuid, checkers: seq<GateType>,
      gates: seq<GateType>, answers: GateType -> bool, r: Record)
    requires RetryAll(table, release, checkers, gates, answers).Ok?
    requires r in RetryAll(table, release, checkers, gates, answers).value && r !in table
    ensures r.release == release && r.gate in checkers && r.gate in gates && answers(r.gate) == r.passed
    decreases |gates|
  {
    if gates != [] {
      if gates[0] in checkers {
        var first := Record(release, gates[0], answers(gates[0]));
        if r != first {
          RetryRecords(table + [first], release, checkers, gates[1..], answers, r);
        }
      } else {
        RetryRecords(table, release, checkers, gates[1..], answers, r);
      }
    }
  }

  /** The call is for the record's release, reaches its gate, and its checker answers what is recorded. */
  predicate StandsFor(op: Op, checkers: seq<GateType>, r: Record) {
    && op.release == r.release && r.gate in checkers && (op.Retry? ==> r.gate in op.gates)
    && op.answers(r.gate) == r.passed
  }

  /** In every run, retries included, each record stands for an accepted call in which that gate's checker
      gave that answer. */
  lemma {:induction false} RecordHasItsCall(table: seq<Record>, checkers: seq<GateType>, ops: seq<Op>, r: Record)
    requires r in Run(table, checkers, ops) && r !in table
    ensures exists i ::
      && 0 <= i < |ops| && StandsFor(ops[i], checkers, r)
      && Do(Run(table, checkers, ops[..i]), checkers, ops[i]).Ok?
    decreases |ops|
  {
    var next := Apply(table, checkers, ops[0]);
    if r in next {
      match ops[0]
      case Execute(release, answers) => ExecuteRecords(table, release, checkers, answers, r);
      case Retry(release, gates, answers) => RetryRecords(table, release, checkers, gates, answers, r);
      assert ops[..0] == [] && StandsFor(ops[0], checkers, r);
    } else {
      RecordHasItsCall(next, checkers, ops[1..], r);
      var i :| 0 <= i < |ops[1..]| && StandsFor(ops[1..][i], checkers, r)
        && Do(Run(next, checkers, ops[1..][..i]), checkers, ops[1..][i]).Ok?;
      assert ops[..i + 1][0] == ops[0] && ops[..i + 1][1..] == ops[1..][..i];
      assert StandsFor(ops[i + 1], checkers, r);
    }
  }

  /** The checkers before `k` all answer yes, so that checker `k` is asked. */
  predicate Reached(checkers: seq<GateType>, answers: GateType -> bool, k: nat)
    requires k <= |checkers|
  {
    forall j :: 0 <= j < k ==> answers(checkers[j])
  }

  /** An accepted execution records the answer of every checker it asks, the first no included. */
  lemma {:induction false} AskedIsRecorded(table: seq<Record>, release: Uuid, checkers: seq<GateType>,
      answers: GateType -> bool, k: nat)
    requires ExecuteAll(table, release, checkers, answers).Ok?
    requires k < |checkers| && Reached(checkers, answers, k)
    ensures Record(release, checkers[k], answers(checkers[k])) in ExecuteAll(table, release, checkers, answers).value
    decreases |checkers|
  {
    var next := table + [Record(release, checkers[0], answers(checkers[0]))];
    if k > 0 {
      assert answers(checkers[0]);
      assert forall j :: 0 <= j < k - 1 ==> checkers[1..][j] == checkers[j + 1];
      AskedIsRecorded(next, release, checkers[1..], answers, k - 1);
    } else {
      assert next[|table|] == Record(release, checkers[0], answers(checkers[0]));
      if answers(checkers[0]) {
        ExecuteGrows(next, release, checkers[1..], answers);
        assert ExecuteAll(table, release, checkers, answers).value[|table|] == next[|table|];
      }
    }
  }

  /** An accepted retry records the answer of every named gate that has a checker. */
  lemma {:induction false} RetriedIsRecorded(table: seq<Record>, release: Uuid, checkers: seq<GateType>,
      gates: seq<GateType>, answers: GateType -> bool, g: GateType)
    requires RetryAll(table, release, checkers, gates, answers).Ok? && g in gates && g in checkers
    ensures Record(release, g, answers(g)) in RetryAll(table, release, checkers, gates, answers).value
    decreases |gates|
  {
    if gates[0] in checkers {
      var next := table + [Record(release, gates[0], answers(gates[0]))];
      if gates[0] == g {
        assert next[|table|] == Record(release, g, answers(g));
        RetryGrows(next, release, checkers, gates[1..], answers);
        assert RetryAll(table, release, checkers, gates, answers).value[|table|] == next[|table|];
      } else {
        RetriedIsRecorded(next, release, checkers, gates[1..], answers, g);
      }
    } else {
      RetriedIsRecorded(table, release, checkers, gates[1..], answers, g);
    }
  }

  /** A call is refused exactly if a gate that it asks has a record already, or comes up twice. */
  lemma {:induction false} ExecuteAcceptedIff(table: seq<Record>, release: Uuid, checkers: seq<GateType>,
      answers: GateType -> bool)
    ensures ExecuteAll(table, release, checkers, answers).Ok? <==>
      forall k :: 0 <= k < |checkers| && Reached(checkers, answers, k) ==>
        !Recorded(table, release, checkers[k]) && checkers[k] !in checkers[..k]
    decreases |checkers|
  {
    if checkers != [] {
      var first, rest := checkers[0], checkers[1..];
      var next := table + [Record(release, first, answers(first))];
      assert Reached(checkers, answers, 0);
      forall g ensures Recorded(next, release, g) <==> Recorded(table, release, g) || g == first {
        RecordedAppend(table, Record(release, first, answers(first)), release, g);
      }
      forall k | 1 <= k < |checkers|
        ensures checkers[k] == rest[k - 1]
        ensures Reached(checkers, answers, k) <==> answers(first) && Reached(rest, answers, k - 1)
        ensures checkers[k] in checkers[..k] <==> checkers[k] == first || checkers[k] in rest[..k - 1]
      {
        assert checkers[..k] == [first] + rest[..k - 1];
        assert forall j :: 0 <= j < k - 1 ==> rest[j] == checkers[j + 1];
      }
      if !Recorded(table, release, first) && answers(first) {
        ExecuteAcceptedIff(next, release, rest, answers);
        assert forall k :: 0 <= k < |rest| ==> rest[k] == checkers[k + 1];
      }
    }
  }

  /** A retry is refused exactly if a named gate with a checker has a record already, or is named twice. */
  lemma {:induction false} RetryAcceptedIff(table: seq<Record>, release: Uuid, checkers: seq<GateType>,
      gates: seq<GateType>, answers: GateType -> bool)
    ensures RetryAll(table, release, checkers, gates, answers).Ok? <==>
      forall k :: 0 <= k < |gates| && gates[k] in checkers ==>
        !Recorded(table, release, gates[k]) && gates[k] !in gates[..k]
    decreases |gates|
  {
    if gates != [] {
      var first, rest := gates[0], gates[1..];
      var r := Record(release, first, answers(first));
      var next := if first in checkers then table + [r] else table;
      forall g ensures g in checkers ==>
        (Recorded(next, release, g) <==> Recorded(table, release, g) || (first in checkers && g == first))
      {
        RecordedAppend(table, r, release, g);
      }
      forall k | 1 <= k < |gates|
        ensures gates[k] == rest[k - 1]
        ensures gates[k] in gates[..k] <==> gates[k] == first || gates[k] in rest[..k - 1]
      {
        assert gates[..k] == [first] + rest[..k - 1];
      }
      if first !in checkers || !Recorded(table, release, first) {
        RetryAcceptedIff(next, release, checkers, rest, answers);
        assert forall k :: 0 <= k < |rest| ==> rest[k] == gates[k + 1];
      }
    }
  }

  lemma {:induction false} RecordedAppend(table: seq<Record>, r: Record, release: Uuid, g: GateType)
    ensures Recorded(table + [r], release, g) <==> Recorded(table, release, g) || (r.release == release && r.gate == g)
  {
    var n := table + [r];
    assert n[|table|] == r && forall i :: 0 <= i < |table| ==> n[i] == table[i];
    if Recorded(table, release, g) {
      var i :| 0 <= i < |table| && table[i].release == release && table[i].gate == g;
      assert n[i].release == release && n[i].gate == g;
    }
  }

  /** The records of a release come from the call, and say what its checkers answered. */
  predicate AllFrom(op: Op, records: seq<Record>) {
    forall i :: 0 <= i < |records| ==> op.answers(records[i].gate) == records[i].passed
  }

  /** Without retries, all records of a release come from one accepted execution. */
  lemma {:induction false} RecordsComeFromOneCall(checkers: seq<GateType>, ops: seq<Op>, release: Uuid)
    requires checkers != [] && NoRetryOf(ops, release) && RecordsOf(Run([], checkers, ops), release) != []
    ensures exists i ::
      && 0 <= i < |ops| && ops[i].Execute? && ops[i].release == release
      && Do(Run([], checkers, ops[..i]), checkers, ops[i]).Ok?
      && AllFrom(ops[i], RecordsOf(Run([], checkers, ops), release))
    decreases |ops|
  {
    if ops == [] {
      assert false;
    } else {
      var init, op := ops[..|ops| - 1], ops[|ops| - 1];
      var table := Run([], checkers, init);
      assert ops == init + [op];
      RunLast([], checkers, init, op);
      assert NoRetryOf(init, release);
      RecordsOfGatedRelease([], checkers, init, release);
      var rs := RecordsOf(Run([], checkers, ops), release);
      if op.Execute? && op.release == release && Do(table, checkers, op).Ok? {
        if RecordsOf(table, release) != [] {
          ExecuteAgainConflicts(table, release, checkers, op.answers);
        }
        FreshRecords(table, checkers, op, release);
        assert ops[..|init|] == init && ops[|init|] == op;
      } else {
        LastLeavesRecords(table, checkers, op, release);
        RecordsComeFromOneCall(checkers, init, release);
        var i :| 0 <= i < |init| && init[i].Execute? && init[i].release == release
          && Do(Run([], checkers, init[..i]), checkers, init[i]).Ok? && AllFrom(init[i], rs);
        assert ops[..i] == init[..i] && ops[i] == init[i];
      }
    }
  }

  lemma {:induction false} RunLast(table: seq<Record>, checkers: seq<GateType>, ops: seq<Op>, op: Op)
    ensures Run(table, checkers, ops + [op]) == Apply(Run(table, checkers, ops), checkers, op)
    decreases |ops|
  {
    if ops == [] {
      assert [op][1..] == [] && ops + [op] == [op];
      assert Run(table, checkers, [op]) == Run(Apply(table, checkers, op), checkers, []);
    } else {
      assert (ops + [op])[1..] == ops[1..] + [op];
      RunLast(Apply(table, checkers, ops[0]), checkers, ops[1..], op);
    }
  }

  lemma {:induction false} FreshRecords(table: seq<Record>, checkers: seq<GateType>, op: Op, release: Uuid)
    requires op.Execute? && op.release == release && Do(table, checkers, op).Ok? && RecordsOf(table, release) == []
    ensures AllFrom(op, RecordsOf(Apply(table, checkers, op), release))
  {
    var n := Apply(table, checkers, op);
    var rs := RecordsOf(n, release);
    forall i | 0 <= i < |rs| ensures op.answers(rs[i].gate) == rs[i].passed {
      RecordsMember(n, release, rs[i]);
      RecordsMember(table, release, rs[i]);
      ExecuteRecords(table, release, checkers, op.answers, rs[i]);
    }
  }

  lemma {:induction false} LastLeavesRecords(table: seq<Record>, checkers: seq<GateType>, op: Op, release: Uuid)
    requires op.release == release ==> op.Execute? && Do(table, checkers, op).Err?
    ensures RecordsOf(Apply(table, checkers, op), release) == RecordsOf(table, release)
  {
    if Do(table, checkers, op).Ok? {
      match op
      case Execute(other, answers) => ExecuteOther(table, other, checkers, answers, release);
      case Retry(other, gates, answers) => RetryOther(table, other, checkers, gates, answers, release);
    }
  }

  /** A final pass on a release gated by `execute` alone means one accepted execution in which every one of
      the six checkers answered yes. */
  lemma {:induction false} FinalPassMeansAllYes(checkers: seq<GateType>, ops: seq<Op>, release: Uuid, hashOk: bool,
      declaration: Option<string>)
    requires |checkers| == 6 && NoRetryOf(ops, release)
    requires Judge(Run([], checkers, ops), release, hashOk, declaration) == Ok(FinalPass)
    ensures exists i ::
      && 0 <= i < |ops| && ops[i].Execute? && ops[i].release == release
      && Do(Run([], checkers, ops[..i]), checkers, ops[i]).Ok? && forall g: GateType :: ops[i].answers(g)
  {
    var table := Run([], checkers, ops);
    var rs := RecordsOf(table, release);
    RecordsComeFromOneCall(checkers, ops, release);
    var i :| 0 <= i < |ops| && ops[i].Execute? && ops[i].release == release
      && Do(Run([], checkers, ops[..i]), checkers, ops[i]).Ok? && AllFrom(ops[i], rs);
    FinalPassMeansAllGates(checkers, ops, release, hashOk, declaration);
    forall g: GateType ensures ops[i].answers(g) {
      RecordsMember(table, release, Record(release, g, true));
      var k :| 0 <= k < |rs| && rs[k] == Record(release, g, true);
      assert ops[i].answers(rs[k].gate) == rs[k].passed;
    }
  }

  function Yes(g: GateType): bool {
    true
  }

  /** With retries the promise is lost: one retried gate alone can bring the verdict to pass. */
  lemma {:induction false} OneRetriedGateCanPass(checkers: seq<GateType>, release: Uuid, g: GateType)
    requires g in checkers
    ensures var table := Run([], checkers, [Retry(release, [g], Yes)]);
      && RecordsOf(table, release) == [Record(release, g, true)]
      && Judge(table, release, true, Some("EFFECTIVE")) == Ok(FinalPass)
  {
    var op := Retry(release, [g], Yes);
    var none: seq<Record> := [];
    var r := Record(release, g, true);
    RetryOne(none, release, checkers, g);
    assert [op][1..] == [];
    assert Run(none, checkers, [op]) == Run(none + [r], checkers, []) == none + [r];
  }

  lemma {:induction false} RetryOne(table: seq<Record>, release: Uuid, checkers: seq<GateType>, g: GateType)
    requires g in checkers && !Recorded(table, release, g)
    ensures RetryAll(table, release, checkers, [g], Yes) == Ok(table + [Record(release, g, true)])
  {
  }

  // ---------- the executor ----------

  class SealGateExecutor {
    const checkers: seq<GateType>
    var table: seq<Record>

    constructor (checkers: seq<GateType>, table: seq<Record>)
      requires |checkers| == 6
      ensures this.checkers == checkers && this.table == table
    {
      this.checkers, this.table := checkers, table;
    }

    /** The source's constructor raises unless there are exactly six checkers. */
    static method Make(checkers: seq<GateType>, table: seq<Record>) returns (executor: SealGateExecutor?)
      ensures executor != null <==> |checkers| == 6
      ensures executor != null ==> fresh(executor) && executor.checkers == checkers && executor.table == table
    {
      executor := null;
      if |checkers| == 6 {
        executor := new SealGateExecutor(checkers, table);
      }
    }

    method Save(r: Record) returns (ok: bool)
      modifies this
      ensures ok == Insert(old(table), r).Ok?
      ensures table == if ok then old(table) + [r] else old(table)
    {
      ok := !Recorded(table, r.release, r.gate);
      if ok {
        table := table + [r];
      }
    }

    method Execute(release: Uuid, answers: GateType -> bool) returns (r: Result<seq<(GateType, bool)>, GateError>)
      modifies this
      ensures table == Apply(old(table), checkers, Op.Execute(release, answers))
      ensures r.Ok? == Do(old(table), checkers, Op.Execute(release, answers)).Ok?
      ensures r.Ok? ==> |table| == |old(table)| + |r.value|
      ensures r.Ok? ==>
        forall i :: 0 <= i < |r.value| ==> table[|old(table)| + i] == Record(release, r.value[i].0, r.value[i].1)
    {
      var before := table;
      var results: seq<(GateType, bool)> := [];
      for i := 0 to |checkers|
        invariant |table| == |before| + |results| && before <= table
        invariant forall k :: 0 <= k < |results| ==> table[|before| + k] == Record(release, results[k].0, results[k].1)
        invariant ExecuteAll(before, release, checkers, answers) == ExecuteAll(table, release, checkers[i..], answers)
      {
        assert checkers[i..][1..] == checkers[i + 1..];
        var gate := checkers[i];
        var passed := answers(gate);
        var ok := Save(Record(release, gate, passed));
        if !ok {
          table := before;
          return Err(GateConflict);
        }
        results := results + [(gate, passed)];
        if !passed {
          break;
        }
      }
      return Ok(results);
    }

    method RetryGates(release: Uuid, gates: seq<GateType>, answers: GateType -> bool)
      returns (r: Result<seq<(GateType, bool)>, GateError>)
      modifies this
      ensures table == Apply(old(table), checkers, Retry(release, gates, answers))
      ensures r.Ok? == Do(old(table), checkers, Retry(release, gates, answers)).Ok?
      ensures r.Ok? ==> |table| == |old(table)| + |r.value|
      ensures r.Ok? ==>
        forall i :: 0 <= i < |r.value| ==> table[|old(table)| + i] == Record(release, r.value[i].0, r.value[i].1)
    {
      var before := table;
      var results: seq<(GateType, bool)> := [];
      for i := 0 to |gates|
        invariant |table| == |before| + |results| && before <= table
        invariant forall k :: 0 <= k < |results| ==> table[|before| + k] == Record(release, results[k].0, results[k].1)
        invariant RetryAll(before, release, checkers, gates, answers)
               == RetryAll(table, release, checkers, gates[i..], answers)
      {
        assert gates[i..][1..] == gates[i + 1..];
        var gate := gates[i];
        if gate in checkers {
          var passed := answers(gate);
          var ok := Save(Record(release, gate, passed));
          if !ok {
            table := before;
            return Err(GateConflict);
          }
          results := results + [(gate, passed)];
        }
      }
      return Ok(results);
    }
  }
}
