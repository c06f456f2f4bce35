/**
 * The tenant migration protocol. Every call of `Migrate` is a program counter; one event is one
 * assignment to the shared task or one write to the tenant store, so that a sequence of events is
 * an arbitrary interleaving of any number of calls.
 */
module MigrationProtocol {
  import opened Results

  type Uuid = nat

  datatype Phase =
    Pending | Freezing | FullSync | IncrementalSync | Verifying | Switching | Completed | Failed | RolledBack

  datatype TenantStatus = Provisioning | Active | Disabled | Deprovisioned | StatusFailed

  datatype Task = Task(tenant: Uuid, phase: Phase, reason: string)

  /** The fate of one status write: acknowledged, refused, or applied with the answer lost. */
  datatype Write = Done | Refused | Unacknowledged

  /** Where a call of `Migrate` stands: the action it performs next, or its return. */
  datatype Pc =
    | AtFreeze
    | AtDisable
    | AtStage(stage: nat)
    | AtResult(stage: nat)
    | AtRollback(error: string)
    | AtUnfreeze(failed: bool)
    | AtComplete
    | Returned(ok: bool)

  /** A call with its task, the phases the task has had and the unfreezes the call has attempted. */
  datatype Call = Call(task: Task, pc: Pc, phases: seq<Phase>, unfreezes: nat)

  type StatusMap = map<Uuid, TenantStatus>

  datatype State = State(calls: map<Uuid, Call>, status: StatusMap)

  datatype Event =
    | Begin(id: Uuid, tenant: Uuid)
    | Act(id: Uuid, write: Write, fault: Option<string>)

  /** The phases of an undisturbed migration, in order. */
  function PhaseAt(k: nat): Phase {
    if k == 0 then Pending
    else if k == 1 then Freezing
    else if k == 2 then FullSync
    else if k == 3 then IncrementalSync
    else if k == 4 then Verifying
    else if k == 5 then Switching
    else Completed
  }

  function Written(status: StatusMap, t: Uuid, value: TenantStatus, w: Write): StatusMap {
    if w.Refused? || t !in status then status else status[t := value]
  }

  function Created(tenant: Uuid): Call {
    Call(Task(tenant, Pending, ""), AtFreeze, [Pending], 0)
  }

  function Moved(c: Call, phase: Phase, pc: Pc): Call {
    c.(task := c.task.(phase := phase), phases := c.phases + [phase], pc := pc)
  }

  /** The next action of a call, as it changes the call; the store and the stages answer it. */
  function NextCall(c: Call, write: Write, fault: Option<string>): Call {
    match c.pc
    case AtFreeze => Moved(c, Freezing, AtDisable)
    case AtDisable => c.(pc := if write.Done? then AtStage(0) else Returned(false))
    case AtStage(k) => Moved(c, PhaseAt(k + 2), AtResult(k))
    case AtResult(k) =>
      c.(pc := if fault.Some? then AtRollback(fault.value) else if k == 3 then AtUnfreeze(false) else AtStage(k + 1))
    case AtRollback(e) => Moved(c, RolledBack, AtUnfreeze(true)).(task := c.task.(phase := RolledBack, reason := e))
    case AtUnfreeze(failed) =>
      c.(pc := if failed then Returned(false) else AtComplete, unfreezes := c.unfreezes + 1)
    case AtComplete => Moved(c, Completed, Returned(true))
    case Returned(_) => c
  }

  /** The next action of a call, as it changes the tenant store. */
  function NextStatus(c: Call, status: StatusMap, write: Write): StatusMap {
    match c.pc
    case AtDisable => Written(status, c.task.tenant, Disabled, write)
    case AtUnfreeze(_) => Written(status, c.task.tenant, Active, write)
    case _ => status
  }

  function Step(s: State, e: Event): State {
    match e
    case Begin(id, tenant) => if id in s.calls then s else s.(calls := s.calls[id := Created(tenant)])
    case Act(id, write, fault) =>
      if id !in s.calls then s
      else State(s.calls[id := NextCall(s.calls[id], write, fault)], NextStatus(s.calls[id], s.status, write))
  }

  function Run(s: State, es: seq<Event>): State
    decreases |es|
  {
    if es == [] then s else Run(Step(s, es[0]), es[1..])
  }

  function Initial(status: StatusMap): State {
    State(map[], status)
  }

  lemma {:induction false} RunConcat(s: State, a: seq<Event>, b: seq<Event>)
    ensures Run(s, a + b) == Run(Run(s, a), b)
    decreases |a|
  {
    if a == [] {
      assert a + b == b;
    } else {
      assert (a + b)[1..] == a[1..] + b;
      RunConcat(Step(s, a[0]), a[1..], b);
    }
  }

  // ---------- the phases of one call ----------

  function HappyPath(n: nat): seq<Phase> {
    if n == 0 then [] else HappyPath(n - 1) + [PhaseAt(n - 1)]
  }

  /** A rollback after one of the four stages has begun. */
  ghost predicate RolledBackAfterFreeze(phases: seq<Phase>) {
    exists n | 3 <= n <= 6 :: phases == HappyPath(n) + [RolledBack]
  }

  /** The phases so far: a start of the undisturbed order, or such a start cut after a stage has begun,
      and a rollback. */
  predicate FollowsProtocol(phases: seq<Phase>) {
    var order := [Pending, Freezing, FullSync, IncrementalSync, Verifying, Switching, Completed];
    || (1 <= |phases| <= 7 && phases == order[..|phases|])
    || (4 <= |phases| <= 7 && phases == order[..|phases| - 1] + [RolledBack])
  }

  /** The call returned from its freeze and left its task in the phase Freezing. */
  ghost predicate GaveUp(c: Call) {
    c.pc == Returned(false) && c.phases == HappyPath(2)
  }

  ghost predicate OnPath(c: Call, n: nat) {
    c.phases == HappyPath(n) && c.unfreezes == 0
  }

  ghost predicate CallOk(c: Call) {
    && c.phases != [] && c.task.phase == c.phases[|c.phases| - 1]
    && match c.pc
       case AtFreeze => OnPath(c, 1)
       case AtDisable => OnPath(c, 2)
       case AtStage(k) => k < 4 && OnPath(c, k + 2)
       case AtResult(k) => k < 4 && OnPath(c, k + 3)
       case AtRollback(_) => exists n | 3 <= n <= 6 :: OnPath(c, n)
       case AtUnfreeze(failed) => if failed then c.unfreezes == 0 && RolledBackAfterFreeze(c.phases) else OnPath(c, 6)
       case AtComplete => c.phases == HappyPath(6) && c.unfreezes == 1
       case Returned(ok) =>
         if ok then c.phases == HappyPath(7) && c.unfreezes == 1
         else OnPath(c, 2) || (c.unfreezes == 1 && RolledBackAfterFreeze(c.phases))
  }

  ghost predicate WellFormed(s: State) {
    forall id :: id in s.calls ==> CallOk(s.calls[id])
  }

  lemma NextKeepsCallOk(c: Call, write: Write, fault: Option<string>)
    requires CallOk(c)
    ensures CallOk(NextCall(c, write, fault))
  {
    var d := NextCall(c, write, fault);
    match c.pc
    case AtResult(k) =>
      assert OnPath(d, k + 3);
    case AtRollback(_) =>
      var n :| 3 <= n <= 6 && OnPath(c, n);
      assert d.phases == HappyPath(n) + [RolledBack];
    case _ =>
  }

  lemma StepKeepsWellFormed(s: State, e: Event)
    requires WellFormed(s)
    ensures WellFormed(Step(s, e))
  {
    if e.Act? && e.id in s.calls {
      NextKeepsCallOk(s.calls[e.id], e.write, e.fault);
    } else if e.Begin? {
      assert HappyPath(1) == [Pending];
    }
  }

  lemma {:induction false} RunKeepsWellFormed(s: State, es: seq<Event>)
    requires WellFormed(s)
    ensures WellFormed(Run(s, es))
    decreases |es|
  {
    if es != [] {
      StepKeepsWellFormed(s, es[0]);
      RunKeepsWellFormed(Step(s, es[0]), es[1..]);
    }
  }

  lemma {:induction false} HappyPathInOrder(n: nat)
    requires 1 <= n <= 7
    ensures HappyPath(n) == [Pending, Freezing, FullSync, IncrementalSync, Verifying, Switching, Completed][..n]
  {
    if n > 1 {
      HappyPathInOrder(n - 1);
    } else {
      assert HappyPath(0) == [];
    }
  }

  lemma {:induction false} PathFollowsProtocol(phases: seq<Phase>, n: nat)
    requires 1 <= n <= 7
    requires phases == HappyPath(n) || (3 <= n <= 6 && phases == HappyPath(n) + [RolledBack])
    ensures FollowsProtocol(phases)
  {
    HappyPathInOrder(n);
  }

  lemma {:induction false} RollbackFollowsProtocol(phases: seq<Phase>)
    requires RolledBackAfterFreeze(phases)
    ensures FollowsProtocol(phases)
  {
    var n :| 3 <= n <= 6 && phases == HappyPath(n) + [RolledBack];
    PathFollowsProtocol(phases, n);
  }

  lemma {:induction false} CallFollowsProtocol(c: Call)
    requires CallOk(c)
    ensures FollowsProtocol(c.phases)
  {
    match c.pc
    case AtFreeze => PathFollowsProtocol(c.phases, 1);
    case AtDisable => PathFollowsProtocol(c.phases, 2);
    case AtStage(k) => PathFollowsProtocol(c.phases, k + 2);
    case AtResult(k) => PathFollowsProtocol(c.phases, k + 3);
    case AtRollback(_) =>
      var n :| 3 <= n <= 6 && OnPath(c, n);
      PathFollowsProtocol(c.phases, n);
    case AtUnfreeze(failed) =>
      if failed {
        RollbackFollowsProtocol(c.phases);
      } else {
        PathFollowsProtocol(c.phases, 6);
      }
    case AtComplete => PathFollowsProtocol(c.phases, 6);
    case Returned(ok) =>
      if ok {
        PathFollowsProtocol(c.phases, 7);
      } else if OnPath(c, 2) {
        PathFollowsProtocol(c.phases, 2);
      } else {
        RollbackFollowsProtocol(c.phases);
      }
  }

  /** What the bookkeeping of a call says about its phases and unfreezes. */
  lemma {:induction false} CallOkMeaning(c: Call)
    requires CallOk(c)
    ensures FollowsProtocol(c.phases)
    ensures c.pc.Returned? ==>
      if GaveUp(c) then c.unfreezes == 0 && c.task.phase == Freezing
      else c.unfreezes == 1 && c.task.phase == if c.pc.ok then Completed else RolledBack
  {
    CallFollowsProtocol(c);
    HappyPathInOrder(2);
    HappyPathInOrder(7);
    if RolledBackAfterFreeze(c.phases) {
      var n :| 3 <= n <= 6 && c.phases == HappyPath(n) + [RolledBack];
      assert c.phases[|c.phases| - 1] == RolledBack;
    }
  }

  // ---------- failed freeze writes ----------

  /** Event `i` of the run is a freeze write of the call, and it is refused or its answer is lost. */
  ghost predicate FreezeWriteFails(s: State, es: seq<Event>, i: nat, id: Uuid) {
    && i < |es| && es[i].Act? && es[i].id == id && !es[i].write.Done?
    && id in Run(s, es[..i]).calls && Run(s, es[..i]).calls[id].pc.AtDisable?
  }

  ghost predicate FreezeWriteFailed(s: State, es: seq<Event>, id: Uuid) {
    exists i: nat :: FreezeWriteFails(s, es, i, id)
  }

  lemma {:induction false} RunLast(s: State, es: seq<Event>, e: Event)
    ensures Run(s, es + [e]) == Step(Run(s, es), e)
  {
    RunConcat(s, es, [e]);
    assert [e][1..] == [];
    assert Run(Run(s, es), [e]) == Run(Step(Run(s, es), e), []);
  }

  /** One more event can only add itself to the failed freeze writes. */
  lemma {:induction false} FreezeWriteFailedLast(s: State, es: seq<Event>, e: Event, id: Uuid)
    ensures FreezeWriteFailed(s, es + [e], id) <==>
      FreezeWriteFailed(s, es, id) || FreezeWriteFails(s, es + [e], |es|, id)
  {
    forall i: nat | i < |es| ensures FreezeWriteFails(s, es + [e], i, id) <==> FreezeWriteFails(s, es, i, id) {
      assert (es + [e])[..i] == es[..i] && (es + [e])[i] == es[i];
    }
    if FreezeWriteFailed(s, es, id) {
      var i: nat :| FreezeWriteFails(s, es, i, id);
      assert FreezeWriteFails(s, es + [e], i, id);
    }
    if FreezeWriteFailed(s, es + [e], id) {
      var i: nat :| FreezeWriteFails(s, es + [e], i, id);
      assert i < |es| ==> FreezeWriteFails(s, es, i, id);
    }
  }

  lemma {:induction false} NextGivesUpIff(c: Call, write: Write, fault: Option<string>)
    requires CallOk(c)
    ensures GaveUp(NextCall(c, write, fault)) <==> GaveUp(c) || (c.pc.AtDisable? && !write.Done?)
  {
    var d := NextCall(c, write, fault);
    NextKeepsCallOk(c, write, fault);
    CallOkMeaning(d);
    if c.pc.AtUnfreeze? {
      assert d.unfreezes == 1;
    }
  }

  /** What a call looks like that gave up is what a failed freeze write makes of it, in every run. */
  lemma {:induction false} GaveUpIffFreezeWriteFailed(status: StatusMap, es: seq<Event>, id: Uuid)
    ensures FreezeWriteFailed(Initial(status), es, id) <==>
      id in Run(Initial(status), es).calls && GaveUp(Run(Initial(status), es).calls[id])
    decreases |es|
  {
    var s0 := Initial(status);
    if es != [] {
      var init, e := es[..|es| - 1], es[|es| - 1];
      assert es == init + [e];
      var s := Run(s0, init);
      RunLast(s0, init, e);
      RunKeepsWellFormed(s0, init);
      GaveUpIffFreezeWriteFailed(status, init, id);
      FreezeWriteFailedLast(s0, init, e, id);
      assert (init + [e])[..|init|] == init;
      if e.Act? && e.id == id && id in s.calls {
        NextGivesUpIff(s.calls[id], e.write, e.fault);
      }
    }
  }

  /** In every run: each task has followed the protocol, and a returned call has attempted exactly
      one unfreeze and ended Completed or RolledBack, unless its freeze write failed. */
  lemma PhasesOfEveryRun(status: StatusMap, es: seq<Event>, id: Uuid)
    requires id in Run(Initial(status), es).calls
    ensures var c := Run(Initial(status), es).calls[id];
      && FollowsProtocol(c.phases)
      && c.phases != [] && c.task.phase == c.phases[|c.phases| - 1]
    ensures var c := Run(Initial(status), es).calls[id];
      c.pc.Returned? ==>
        if FreezeWriteFailed(Initial(status), es, id) then c.unfreezes == 0 && c.task.phase == Freezing && !c.pc.ok
        else c.unfreezes == 1 && c.task.phase == if c.pc.ok then Completed else RolledBack
  {
    RunKeepsWellFormed(Initial(status), es);
    CallOkMeaning(Run(Initial(status), es).calls[id]);
    GaveUpIffFreezeWriteFailed(status, es, id);
  }

  // ---------- the frozen report ----------

  predicate FrozenPhase(p: Phase) {
    p == Freezing || p == FullSync || p == IncrementalSync || p == Verifying || p == Switching
  }

  ghost predicate WriteFrozen(s: State, t: Uuid) {
    exists id :: id in s.calls && s.calls[id].task.tenant == t && FrozenPhase(s.calls[id].task.phase)
  }

  /** In every run a tenant is reported frozen exactly while one of its tasks has begun its freeze and is
      neither completed nor rolled back. */
  lemma {:induction false} FrozenWhileMigrating(status: StatusMap, es: seq<Event>, t: Uuid)
    ensures var s := Run(Initial(status), es);
      WriteFrozen(s, t) <==>
        exists id :: id in s.calls && s.calls[id].task.tenant == t
          && Freezing in s.calls[id].phases && Completed !in s.calls[id].phases && RolledBack !in s.calls[id].phases
  {
    var s := Run(Initial(status), es);
    RunKeepsWellFormed(Initial(status), es);
    forall id | id in s.calls
      ensures FrozenPhase(s.calls[id].task.phase) <==>
        Freezing in s.calls[id].phases && Completed !in s.calls[id].phases && RolledBack !in s.calls[id].phases
    {
      CallFollowsProtocol(s.calls[id]);
      FrozenByPhases(s.calls[id].phases);
    }
  }

  lemma {:induction false} FrozenByPhases(phases: seq<Phase>)
    requires FollowsProtocol(phases)
    ensures phases != []
    ensures FrozenPhase(phases[|phases| - 1]) <==>
      Freezing in phases && Completed !in phases && RolledBack !in phases
  {
    var order := [Pending, Freezing, FullSync, IncrementalSync, Verifying, Switching, Completed];
    assert |phases| >= 2 ==> phases[1] == order[1];
    if RolledBack in phases {
      assert phases[|phases| - 1] == RolledBack;
    } else {
      assert phases[|phases| - 1] == order[|phases| - 1];
      assert |phases| == 7 ==> phases[6] == Completed;
    }
  }

  ghost predicate AllReturned(s: State, t: Uuid) {
    forall id :: id in s.calls && s.calls[id].task.tenant == t ==> s.calls[id].pc.Returned?
  }

  /** Once all calls of a tenant have returned, it is reported frozen exactly when the freeze write of
      one of them failed. */
  lemma FrozenAfterReturnIffFreezeWriteFailed(status: StatusMap, es: seq<Event>, t: Uuid)
    requires AllReturned(Run(Initial(status), es), t)
    ensures var s := Run(Initial(status), es);
      WriteFrozen(s, t) <==>
        exists id :: id in s.calls && s.calls[id].task.tenant == t && FreezeWriteFailed(Initial(status), es, id)
  {
    var s := Run(Initial(status), es);
    forall id | id in s.calls && s.calls[id].task.tenant == t
      ensures FrozenPhase(s.calls[id].task.phase) <==> FreezeWriteFailed(Initial(status), es, id)
    {
      PhasesOfEveryRun(status, es, id);
    }
  }

  /** After a failed freeze write the tenant is reported frozen, whatever happens from then on. */
  lemma {:induction false} FailedFreezeLastsForever(status: StatusMap, es: seq<Event>, more: seq<Event>, id: Uuid)
    requires FreezeWriteFailed(Initial(status), es, id)
    ensures id in Run(Initial(status), es).calls
    ensures WriteFrozen(Run(Initial(status), es + more), Run(Initial(status), es).calls[id].task.tenant)
  {
    var s := Run(Initial(status), es);
    GaveUpIffFreezeWriteFailed(status, es, id);
    RunKeepsWellFormed(Initial(status), es);
    CallOkMeaning(s.calls[id]);
    RunConcat(Initial(status), es, more);
    ReturnedStays(s, more, id);
    assert Run(s, more).calls[id] == s.calls[id];
  }

  lemma {:induction false} ReturnedStays(s: State, es: seq<Event>, id: Uuid)
    requires id in s.calls && s.calls[id].pc.Returned?
    ensures id in Run(s, es).calls && Run(s, es).calls[id] == s.calls[id]
    decreases |es|
  {
    if es != [] {
      ReturnedStays(Step(s, es[0]), es[1..], id);
    }
  }

  /** It happens: three events of one call, and for every tenant the report never ends. */
  lemma {:induction false} FailedFreezeRun(status: StatusMap, t: Uuid, id: Uuid, write: Write, more: seq<Event>)
    requires !write.Done?
    ensures var es := [Begin(id, t), Act(id, Done, None), Act(id, write, None)];
      && FreezeWriteFailed(Initial(status), es, id)
      && AllReturned(Run(Initial(status), es), t)
      && WriteFrozen(Run(Initial(status), es + more), t)
  {
    var s0 := Initial(status);
    var e1, e2, e3 := Begin(id, t), Act(id, Done, None), Act(id, write, None);
    var none: seq<Event> := [];
    RunLast(s0, none, e1);
    RunLast(s0, [e1], e2);
    RunLast(s0, [e1, e2], e3);
    assert none + [e1] == [e1] && [e1] + [e2] == [e1, e2] && [e1, e2] + [e3] == [e1, e2, e3];
    assert Run(s0, none) == s0;
    assert [e1, e2, e3][..2] == [e1, e2];
    assert FreezeWriteFails(s0, [e1, e2, e3], 2, id);
    FailedFreezeLastsForever(status, [e1, e2, e3], more, id);
  }

  // ---------- the stored status during a migration ----------

  predicate SyncPhase(p: Phase) {
    p == FullSync || p == IncrementalSync || p == Verifying
  }

  /** While data is copied or verified, the tenant's stored status is disabled. */
  ghost predicate SyncMeansDisabled(s: State, t: Uuid) {
    forall id :: id in s.calls && s.calls[id].task.tenant == t && SyncPhase(s.calls[id].task.phase) ==>
      t in s.status && s.status[t] == Disabled
  }

  /** The call may still perform its unfreeze. */
  predicate Unfinished(pc: Pc) {
    !pc.AtComplete? && !pc.Returned?
  }

  predicate PastDisable(pc: Pc) {
    pc.AtStage? || pc.AtResult? || pc.AtRollback? || pc.AtUnfreeze?
  }

  ghost predicate UnfinishedOn(s: State, id: Uuid, t: Uuid) {
    id in s.calls && s.calls[id].task.tenant == t && Unfinished(s.calls[id].pc)
  }

  ghost predicate Idle(s: State, t: Uuid) {
    forall id :: !UnfinishedOn(s, id, t)
  }

  /** At most one unfinished call on the tenant, and its freeze is in force. */
  ghost predicate Exclusive(s: State, t: Uuid) {
    && t in s.status
    && (forall a, b :: UnfinishedOn(s, a, t) && UnfinishedOn(s, b, t) ==> a == b)
    && (forall id :: UnfinishedOn(s, id, t) && PastDisable(s.calls[id].pc) ==> s.status[t] == Disabled)
  }

  lemma SyncPhaseIsPastDisable(c: Call)
    requires CallOk(c) && SyncPhase(c.task.phase)
    ensures Unfinished(c.pc) && PastDisable(c.pc)
  {
  }

  lemma ExclusiveIsSafe(s: State, t: Uuid)
    requires WellFormed(s) && Exclusive(s, t)
    ensures SyncMeansDisabled(s, t)
  {
    forall id | id in s.calls && s.calls[id].task.tenant == t && SyncPhase(s.calls[id].task.phase)
      ensures s.status[t] == Disabled
    {
      SyncPhaseIsPastDisable(s.calls[id]);
      assert UnfinishedOn(s, id, t);
    }
  }

  /** Every new call on `t` begins when no call on `t` is unfinished. */
  ghost predicate OneAtATime(s: State, es: seq<Event>, t: Uuid)
    decreases |es|
  {
    es == [] || ((es[0].Begin? && es[0].tenant == t ==> Idle(s, t)) && OneAtATime(Step(s, es[0]), es[1..], t))
  }

  lemma NextOfUnfinished(c: Call, write: Write, fault: Option<string>)
    ensures NextCall(c, write, fault).task.tenant == c.task.tenant
    ensures Unfinished(NextCall(c, write, fault).pc) ==> Unfinished(c.pc)
    ensures PastDisable(NextCall(c, write, fault).pc) ==> PastDisable(c.pc) || (c.pc.AtDisable? && write.Done?)
    ensures Unfinished(NextCall(c, write, fault).pc) ==> !c.pc.AtUnfreeze?
  {
  }

  lemma ActKeepsExclusive(s: State, id: Uuid, write: Write, fault: Option<string>, t: Uuid)
    requires Exclusive(s, t) && id in s.calls
    ensures Exclusive(Step(s, Act(id, write, fault)), t)
  {
    var n := Step(s, Act(id, write, fault));
    var c := s.calls[id];
    NextOfUnfinished(c, write, fault);
    forall b | UnfinishedOn(n, b, t) ensures UnfinishedOn(s, b, t) {
    }
    if c.task.tenant != t {
      assert n.status[t] == s.status[t];
    } else if c.pc.AtDisable? || c.pc.AtUnfreeze? {
      assert UnfinishedOn(s, id, t);
    } else {
      assert n.status == s.status;
    }
  }

  lemma StepKeepsExclusive(s: State, e: Event, t: Uuid)
    requires Exclusive(s, t) && (e.Begin? && e.tenant == t ==> Idle(s, t))
    ensures Exclusive(Step(s, e), t)
  {
    if e.Act? {
      if e.id in s.calls {
        ActKeepsExclusive(s, e.id, e.write, e.fault, t);
      }
    } else {
      var n := Step(s, e);
      forall b | UnfinishedOn(n, b, t) && b != e.id ensures UnfinishedOn(s, b, t) {
      }
    }
  }

  lemma {:induction false} RunKeepsExclusive(s: State, es: seq<Event>, t: Uuid)
    requires WellFormed(s) && Exclusive(s, t) && OneAtATime(s, es, t)
    ensures WellFormed(Run(s, es)) && Exclusive(Run(s, es), t)
    decreases |es|
  {
    if es != [] {
      StepKeepsWellFormed(s, es[0]);
      StepKeepsExclusive(s, es[0], t);
      RunKeepsExclusive(Step(s, es[0]), es[1..], t);
    }
  }

  ghost predicate AlwaysDisabledInSync(status: StatusMap, t: Uuid) {
    forall es :: OneAtATime(Initial(status), es, t) ==> SyncMeansDisabled(Run(Initial(status), es), t)
  }

  /** Without a row for the tenant, a call reaches its first stage with nothing disabled. */
  lemma MissingRowIsUnsafe(status: StatusMap, t: Uuid)
    requires t !in status
    ensures !AlwaysDisabledInSync(status, t)
  {
    var go := Act(0, Done, None);
    var s0 := Initial(status);
    var s1 := Step(s0, Begin(0, t));
    ReachFirstStage(s1, 0, t);
    var es := [Begin(0, t)] + [go, go, go];
    assert es[1..] == [go, go, go];
    assert NoBeginOn([go, go, go], t);
    NoBeginIsOneAtATime(s1, [go, go, go], t);
    assert OneAtATime(s0, es, t) && Run(s0, es) == Run(s1, [go, go, go]);
  }

  /** One call at a time suffices for every interleaving exactly when the tenant has a row: writing
      the status of a missing row reports no error and stores nothing. */
  lemma OneAtATimeIsSafeIffRowExists(status: StatusMap, t: Uuid)
    ensures AlwaysDisabledInSync(status, t) <==> t in status
  {
    if t in status {
      forall es | OneAtATime(Initial(status), es, t) ensures SyncMeansDisabled(Run(Initial(status), es), t) {
        RunKeepsExclusive(Initial(status), es, t);
        ExclusiveIsSafe(Run(Initial(status), es), t);
      }
    } else {
      MissingRowIsUnsafe(status, t);
    }
  }

  // ---------- why the calls must exclude each other ----------

  /** Three actions bring a fresh call into the full synchronisation. */
  lemma ReachFirstStage(s: State, id: Uuid, t: Uuid)
    requires id in s.calls && s.calls[id] == Created(t)
    ensures var go := Act(id, Done, None); var n := Run(s, [go, go, go]);
      && n.calls.Keys == s.calls.Keys && n.calls[id].task == Task(t, FullSync, "")
      && (forall b :: b in s.calls && b != id ==> n.calls[b] == s.calls[b])
      && n.status == Written(s.status, t, Disabled, Done)
  {
    var go := Act(id, Done, None);
    assert [go, go, go][1..] == [go, go] && [go, go][1..] == [go];
    var s1 := Step(s, go);
    var s2 := Step(s1, go);
    assert s1.calls[id].pc == AtDisable && s2.calls[id].pc == AtStage(0);
    assert Run(s, [go, go, go]) == Run(s1, [go, go]) == Run(s2, [go]) == Step(s2, go);
  }

  function Left(pc: Pc): nat {
    match pc
    case AtFreeze => 6
    case AtDisable => 5
    case AtStage(_) => 4
    case AtResult(_) => 3
    case AtRollback(_) => 2
    case AtUnfreeze(_) => 1
    case _ => 0
  }

  function Repeat(e: Event, n: nat): seq<Event> {
    if n == 0 then [] else [e] + Repeat(e, n - 1)
  }

  /** Whatever an unfinished call has still to do, it can end by setting the tenant active. */
  lemma {:induction false} UnfinishedCanActivate(s: State, a: Uuid, t: Uuid)
    requires UnfinishedOn(s, a, t) && t in s.status
    ensures var n := Run(s, Repeat(Act(a, Done, Some("fault")), Left(s.calls[a].pc)));
      && t in n.status && n.status[t] == Active
      && forall b :: b != a && b in s.calls ==> b in n.calls && n.calls[b] == s.calls[b]
    decreases Left(s.calls[a].pc)
  {
    var e := Act(a, Done, Some("fault"));
    var k := Left(s.calls[a].pc);
    var n := Step(s, e);
    assert Repeat(e, k)[0] == e && Repeat(e, k)[1..] == Repeat(e, k - 1);
    assert Run(s, Repeat(e, k)) == Run(n, Repeat(e, k - 1));
    if k > 1 {
      assert Left(n.calls[a].pc) == k - 1;
      UnfinishedCanActivate(n, a, t);
    }
  }

  ghost predicate NoBeginOn(es: seq<Event>, t: Uuid) {
    forall i :: 0 <= i < |es| && es[i].Begin? ==> es[i].tenant != t
  }

  /** Beginning call `id` on `t` now keeps the promise, whatever the calls do from here. */
  ghost predicate BeginIsSafe(s: State, id: Uuid, t: Uuid) {
    forall es | NoBeginOn(es, t) :: SyncMeansDisabled(Run(Step(s, Begin(id, t)), es), t)
  }

  lemma RepeatHasNoBegin(a: Uuid, w: Write, f: Option<string>, n: nat, t: Uuid)
    ensures NoBeginOn(Repeat(Act(a, w, f), n), t)
  {
  }

  lemma {:induction false} NoBeginIsOneAtATime(s: State, es: seq<Event>, t: Uuid)
    requires NoBeginOn(es, t)
    ensures OneAtATime(s, es, t)
    decreases |es|
  {
    if es != [] {
      NoBeginIsOneAtATime(Step(s, es[0]), es[1..], t);
    }
  }

  /** With a call `a` unfinished on the same tenant, a new call can be left copying live data. */
  lemma OverlapIsUnsafe(s: State, id: Uuid, t: Uuid, a: Uuid)
    requires t in s.status && id !in s.calls && UnfinishedOn(s, a, t)
    ensures !BeginIsSafe(s, id, t)
  {
    var go := Act(id, Done, None);
    var s1 := Step(s, Begin(id, t));
    ReachFirstStage(s1, id, t);
    var s4 := Run(s1, [go, go, go]);
    UnfinishedCanActivate(s4, a, t);
    var tail := Repeat(Act(a, Done, Some("fault")), Left(s4.calls[a].pc));
    RunConcat(s1, [go, go, go], tail);
    RepeatHasNoBegin(a, Done, Some("fault"), Left(s4.calls[a].pc), t);
    assert NoBeginOn([go, go, go] + tail, t);
    assert !SyncMeansDisabled(Run(s1, [go, go, go] + tail), t);
  }

  /** A new call on a tenant is safe exactly when no other call on it is unfinished. */
  lemma BeginIsSafeIffIdle(s: State, id: Uuid, t: Uuid)
    requires WellFormed(s) && Exclusive(s, t) && id !in s.calls
    ensures BeginIsSafe(s, id, t) <==> Idle(s, t)
  {
    if Idle(s, t) {
      var n := Step(s, Begin(id, t));
      StepKeepsWellFormed(s, Begin(id, t));
      StepKeepsExclusive(s, Begin(id, t), t);
      forall es | NoBeginOn(es, t) ensures SyncMeansDisabled(Run(n, es), t) {
        NoBeginIsOneAtATime(n, es, t);
        RunKeepsExclusive(n, es, t);
        ExclusiveIsSafe(Run(n, es), t);
      }
    } else {
      var a :| UnfinishedOn(s, a, t);
      OverlapIsUnsafe(s, id, t, a);
    }
  }

  /** Two calls on one tenant are enough: some run of them copies data while the tenant is active. */
  lemma {:induction false} TwoCallsCopyLiveData(status: StatusMap, t: Uuid)
    requires t in status
    ensures exists es :: !SyncMeansDisabled(Run(Initial(status), [Begin(0, t), Begin(1, t)] + es), t)
  {
    var s := Step(Initial(status), Begin(0, t));
    assert UnfinishedOn(s, 0, t);
    OverlapIsUnsafe(s, 1, t, 0);
    var es :| NoBeginOn(es, t) && !SyncMeansDisabled(Run(Step(s, Begin(1, t)), es), t);
    var both := [Begin(0, t), Begin(1, t)];
    RunConcat(Initial(status), both, es);
    assert both[1..] == [Begin(1, t)] && [Begin(1, t)][1..] == [];
    assert Run(Initial(status), both) == Run(s, [Begin(1, t)]) == Run(Step(s, Begin(1, t)), []);
  }

  // ---------- the status a migration leaves ----------

  /** The status that an event writes for the tenant, if its write takes effect. */
  function WrittenBy(s: State, e: Event, t: Uuid): Option<TenantStatus> {
    if e.Begin? || e.id !in s.calls || s.calls[e.id].task.tenant != t || e.write.Refused? then None
    else if s.calls[e.id].pc.AtDisable? then Some(Disabled)
    else if s.calls[e.id].pc.AtUnfreeze? then Some(Active)
    else None
  }

  /** Event `i` is the last of the run whose write for the tenant takes effect. */
  ghost predicate LastEffectiveWrite(s: State, es: seq<Event>, i: nat, t: Uuid) {
    && i < |es| && WrittenBy(Run(s, es[..i]), es[i], t).Some?
    && forall k :: i < k < |es| ==> WrittenBy(Run(s, es[..k]), es[k], t).None?
  }

  lemma {:induction false} StepWritesStatus(s: State, e: Event, t: Uuid)
    requires t in s.status
    ensures t in Step(s, e).status
    ensures Step(s, e).status[t] == var w := WrittenBy(s, e, t); if w.Some? then w.value else s.status[t]
  {
  }

  lemma {:induction false} StatusAfter(s: State, es: seq<Event>, i: nat, t: Uuid)
    requires t in s.status && i <= |es|
    requires forall k :: i <= k < |es| ==> WrittenBy(Run(s, es[..k]), es[k], t).None?
    ensures t in Run(s, es).status && t in Run(s, es[..i]).status
    ensures Run(s, es).status[t] == Run(s, es[..i]).status[t]
    decreases |es|
  {
    if i == |es| {
      assert es[..i] == es;
      RunKeepsRow(s, es, t);
    } else {
      var init, e := es[..|es| - 1], es[|es| - 1];
      assert es == init + [e];
      RunLast(s, init, e);
      forall k | i <= k < |init| ensures WrittenBy(Run(s, init[..k]), init[k], t).None? {
        assert es[..k] == init[..k];
      }
      assert es[..i] == init[..i];
      StatusAfter(s, init, i, t);
      StepWritesStatus(Run(s, init), e, t);
    }
  }

  lemma {:induction false} RunKeepsRow(s: State, es: seq<Event>, t: Uuid)
    requires t in s.status
    ensures t in Run(s, es).status
    decreases |es|
  {
    if es != [] {
      StepWritesStatus(s, es[0], t);
      RunKeepsRow(Step(s, es[0]), es[1..], t);
    }
  }

  /** In every run the stored status is what the last effective write says, disabled for a freeze and
      active for an unfreeze. */
  lemma {:induction false} LastWriteDecides(s: State, es: seq<Event>, i: nat, t: Uuid)
    requires t in s.status && LastEffectiveWrite(s, es, i, t)
    ensures t in Run(s, es).status && Run(s, es).status[t] == WrittenBy(Run(s, es[..i]), es[i], t).value
  {
    StatusAfter(s, es, i + 1, t);
    assert es[..i + 1] == es[..i] + [es[i]];
    RunLast(s, es[..i], es[i]);
    RunKeepsRow(s, es[..i], t);
    StepWritesStatus(Run(s, es[..i]), es[i], t);
  }

  /** Without an effective write the stored status is the old one. */
  lemma {:induction false} NoWriteNoChange(s: State, es: seq<Event>, t: Uuid)
    requires t in s.status && forall k :: 0 <= k < |es| ==> WrittenBy(Run(s, es[..k]), es[k], t).None?
    ensures t in Run(s, es).status && Run(s, es).status[t] == s.status[t]
  {
    StatusAfter(s, es, 0, t);
    assert es[..0] == [];
  }

  /** The actions a call has left when each is answered with `fault`; 0 where it cannot come to be. */
  function ToDo(pc: Pc, fault: Option<string>): nat {
    match pc
    case AtFreeze => if fault.None? then 12 else 6
    case AtDisable => if fault.None? then 11 else 5
    case AtStage(k) => if k > 3 then 0 else if fault.None? then 10 - 2 * k else 4
    case AtResult(k) => if k > 3 then 0 else if fault.None? then 9 - 2 * k else 3
    case AtRollback(_) => if fault.None? then 0 else 2
    case AtUnfreeze(failed) => if failed == fault.None? then 0 else if failed then 1 else 2
    case AtComplete => if fault.None? then 1 else 0
    case Returned(_) => 0
  }

  lemma {:induction false} NextToDo(c: Call, fault: Option<string>)
    requires ToDo(c.pc, fault) > 0
    ensures ToDo(NextCall(c, Done, fault).pc, fault) == ToDo(c.pc, fault) - 1
    ensures ToDo(c.pc, fault) == 1 ==> NextCall(c, Done, fault).pc == Returned(fault.None?)
  {
  }

  lemma {:induction false} Finish(s: State, t: Uuid, fault: Option<string>)
    requires s.calls.Keys == {0} && s.calls[0].task.tenant == t && t in s.status
    requires ToDo(s.calls[0].pc, fault) > 0 && (s.calls[0].pc.AtComplete? ==> s.status[t] == Active)
    ensures var n := Run(s, Repeat(Act(0, Done, fault), ToDo(s.calls[0].pc, fault)));
      n.calls.Keys == {0} && n.calls[0].pc == Returned(fault.None?) && n.status == s.status[t := Active]
    decreases ToDo(s.calls[0].pc, fault)
  {
    var e := Act(0, Done, fault);
    var k: nat := ToDo(s.calls[0].pc, fault);
    var n := Step(s, e);
    assert Repeat(e, k)[0] == e && Repeat(e, k)[1..] == Repeat(e, k - 1);
    assert Run(s, Repeat(e, k)) == Run(n, Repeat(e, k - 1));
    NextToDo(s.calls[0], fault);
    if k > 1 {
      Finish(n, t, fault);
    }
  }

  /** A single call, undisturbed and with every write taking effect, leaves the tenant active, whatever
      its status was: completed or rolled back, a deprovisioned or failed tenant comes back. */
  lemma {:induction false} CallLeavesActive(status: StatusMap, t: Uuid, fault: Option<string>)
    requires t in status
    ensures exists es ::
      var n := Run(Initial(status), [Begin(0, t)] + es);
      n.calls.Keys == {0} && n.calls[0].pc == Returned(fault.None?) && n.status == status[t := Active]
  {
    var s1 := Step(Initial(status), Begin(0, t));
    var es := Repeat(Act(0, Done, fault), ToDo(AtFreeze, fault));
    Finish(s1, t, fault);
    RunConcat(Initial(status), [Begin(0, t)], es);
    assert [Begin(0, t)][1..] == [];
    assert Run(Initial(status), [Begin(0, t)]) == Run(s1, []);
    assert Run(Initial(status), [Begin(0, t)] + es) == Run(s1, es);
  }

  /** No run adds or removes a tenant's row. */
  lemma {:induction false} RunKeepsRows(s: State, es: seq<Event>)
    ensures Run(s, es).status.Keys == s.status.Keys
    decreases |es|
  {
    if es != [] {
      RunKeepsRows(Step(s, es[0]), es[1..]);
    }
  }

  // ---------- failed stages ----------

  /** Event `i` of the run is a stage of the call answering with the fault `r`. */
  ghost predicate StageFails(s: State, es: seq<Event>, i: nat, id: Uuid, r: string) {
    && i < |es| && es[i].Act? && es[i].id == id && es[i].fault == Some(r)
    && id in Run(s, es[..i]).calls && Run(s, es[..i]).calls[id].pc.AtResult?
  }

  ghost predicate StageFailed(s: State, es: seq<Event>, id: Uuid, r: string) {
    exists i: nat :: StageFails(s, es, i, id, r)
  }

  lemma {:induction false} StageFailedLast(s: State, es: seq<Event>, e: Event, id: Uuid, r: string)
    ensures StageFailed(s, es + [e], id, r) <==> StageFailed(s, es, id, r) || StageFails(s, es + [e], |es|, id, r)
  {
    forall i: nat | i < |es| ensures StageFails(s, es + [e], i, id, r) <==> StageFails(s, es, i, id, r) {
      assert (es + [e])[..i] == es[..i] && (es + [e])[i] == es[i];
    }
    if StageFailed(s, es, id, r) {
      var i: nat :| StageFails(s, es, i, id, r);
      assert StageFails(s, es + [e], i, id, r);
    }
    if StageFailed(s, es + [e], id, r) {
      var i: nat :| StageFails(s, es + [e], i, id, r);
      assert i < |es| ==> StageFails(s, es, i, id, r);
    }
  }

  /** The call is on its rollback, or has done it, for this reason. */
  predicate RollsBackFor(c: Call, r: string) {
    c.pc == AtRollback(r) || (c.task.phase == RolledBack && c.task.reason == r)
  }

  /** A call that is not on its rollback has no reason; what it does next follows the answer. */
  lemma {:induction false} NextRollsBackIff(c: Call, write: Write, fault: Option<string>, r: string)
    requires CallOk(c)
    ensures RollsBackFor(NextCall(c, write, fault), r) <==>
      RollsBackFor(c, r) || (c.pc.AtResult? && fault == Some(r))
  {
    CallFollowsProtocol(c);
    RollbackIsLate(c);
  }

  lemma {:induction false} RollbackIsLate(c: Call)
    requires CallOk(c)
    ensures c.task.phase == RolledBack ==> c.pc == AtUnfreeze(true) || c.pc == Returned(false)
    ensures c.pc == AtUnfreeze(true) ==> c.task.phase == RolledBack
  {
    if OnPath(c, |c.phases|) || c.phases == HappyPath(|c.phases|) {
      OnPathNotRolledBack(c);
    }
  }

  lemma {:induction false} OnPathNotRolledBack(c: Call)
    requires CallOk(c) && c.phases == HappyPath(|c.phases|)
    ensures c.task.phase != RolledBack
  {
  }

  /** In every run a call rolls back exactly for a fault that one of its stages answered, and its task
      then carries that fault. */
  lemma {:induction false} RollsBackIffStageFailed(status: StatusMap, es: seq<Event>, id: Uuid, r: string)
    ensures StageFailed(Initial(status), es, id, r) <==>
      id in Run(Initial(status), es).calls && RollsBackFor(Run(Initial(status), es).calls[id], r)
    decreases |es|
  {
    var s0 := Initial(status);
    if es != [] {
      var init, e := es[..|es| - 1], es[|es| - 1];
      assert es == init + [e];
      var s := Run(s0, init);
      RunLast(s0, init, e);
      RunKeepsWellFormed(s0, init);
      RollsBackIffStageFailed(status, init, id, r);
      StageFailedLast(s0, init, e, id, r);
      assert (init + [e])[..|init|] == init;
      if e.Act? && e.id == id && id in s.calls {
        NextRollsBackIff(s.calls[id], e.write, e.fault, r);
      }
    }
  }

  /** In every run a returned call has succeeded exactly if neither its freeze write nor a stage failed. */
  lemma {:induction false} SucceedsIffNothingFailed(status: StatusMap, es: seq<Event>, id: Uuid)
    requires id in Run(Initial(status), es).calls && Run(Initial(status), es).calls[id].pc.Returned?
    ensures Run(Initial(status), es).calls[id].pc.ok <==>
      !FreezeWriteFailed(Initial(status), es, id) && forall r :: !StageFailed(Initial(status), es, id, r)
  {
    var c := Run(Initial(status), es).calls[id];
    PhasesOfEveryRun(status, es, id);
    RollsBackIffStageFailed(status, es, id, c.task.reason);
    forall r | StageFailed(Initial(status), es, id, r) ensures !c.pc.ok {
      RollsBackIffStageFailed(status, es, id, r);
    }
  }
}
