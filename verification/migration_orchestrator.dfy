/** The orchestrator object whose methods perform the protocol, action by action. */
module MigrationOrchestration {
  import opened Results
  import opened MigrationProtocol

  /** What the outside world answers to one call of `Migrate`. */
  datatype Answers = Answers(freeze: Write, faults: seq<Option<string>>, unfreeze: Write)

  /** The actions of stage `k`: set the phase, then see the stage's result. */
  function StageScript(id: Uuid, a: Answers, k: nat): seq<Event>
    requires k < |a.faults|
  {
    [Act(id, a.unfreeze, None), Act(id, a.unfreeze, a.faults[k])]
  }

  /** A whole call as events. Actions after the return change nothing. */
  function CallScript(id: Uuid, tenant: Uuid, a: Answers): seq<Event>
    requires |a.faults| == 4
  {
    [Begin(id, tenant)] + [Act(id, a.freeze, None), Act(id, a.freeze, None)]
    + StageScript(id, a, 0) + StageScript(id, a, 1) + StageScript(id, a, 2) + StageScript(id, a, 3)
    + [Act(id, a.unfreeze, None), Act(id, a.unfreeze, None)]
  }

  lemma RunOne(s: State, e: Event)
    ensures Run(s, [e]) == Step(s, e)
  {
  }

  lemma RunTwo(s: State, e: Event, f: Event)
    ensures Run(s, [e, f]) == Step(Step(s, e), f)
  {
    assert [e, f][1..] == [f];
    assert Run(s, [e, f]) == Run(Step(s, e), [f]);
  }

  /** A returned call ignores the rest of its script. */
  lemma ReturnedStutters(s: State, id: Uuid, es: seq<Event>)
    requires id in s.calls && s.calls[id].pc.Returned?
    requires forall i :: 0 <= i < |es| ==> es[i].Act? && es[i].id == id
    ensures Run(s, es) == s
    decreases |es|
  {
    if es != [] {
      assert s.calls[id := s.calls[id]] == s.calls;
      assert Step(s, es[0]) == s;
      ReturnedStutters(s, id, es[1..]);
    }
  }

  /** Seeing a stage's result moves the call and leaves its task and the store. */
  lemma ResultKeepsTask(c: Call, status: StatusMap, write: Write, fault: Option<string>)
    requires c.pc.AtResult?
    ensures NextCall(c, write, fault).task == c.task && NextStatus(c, status, write) == status
  {
  }

  class MigrationTask {
    const tenantId: Uuid
    var phase: Phase
    var failureReason: string

    constructor (tenantId: Uuid)
      ensures this.tenantId == tenantId && phase == Pending && failureReason == ""
    {
      this.tenantId := tenantId;
      phase := Pending;
      failureReason := "";
    }
  }

  class MigrationOrchestrator {
    var tasks: map<Uuid, MigrationTask>
    var tenantStatus: StatusMap
    ghost var calls: map<Uuid, Call>

    constructor (tenantStatus: StatusMap)
      ensures Valid() && Model() == Initial(tenantStatus)
    {
      tasks, calls := map[], map[];
      this.tenantStatus := tenantStatus;
    }

    /** The task objects are distinct and say what the protocol's calls say. */
    ghost predicate Valid()
      reads this, tasks.Values
    {
      && tasks.Keys == calls.Keys
      && (forall a, b :: a in tasks && b in tasks && a != b ==> tasks[a] != tasks[b])
      && (forall id :: id in tasks ==>
            calls[id].task == Task(tasks[id].tenantId, tasks[id].phase, tasks[id].failureReason))
    }

    ghost function Model(): State
      reads this
    {
      State(calls, tenantStatus)
    }

    method UpdateStatus(tenant: Uuid, value: TenantStatus, write: Write) returns (ok: bool)
      modifies this`tenantStatus
      ensures tenantStatus == Written(old(tenantStatus), tenant, value, write)
      ensures ok == write.Done?
    {
      if !write.Refused? && tenant in tenantStatus {
        tenantStatus := tenantStatus[tenant := value];
      }
      ok := write.Done?;
    }

    /** Assign the task's phase and reason, where that is the call's next action. */
    method SetPhase(id: Uuid, phase: Phase, reason: string, ghost write: Write)
      requires Valid() && id in tasks
      requires NextCall(calls[id], write, None).task == Task(tasks[id].tenantId, phase, reason)
      requires NextStatus(calls[id], tenantStatus, write) == tenantStatus
      modifies this`calls, tasks[id]
      ensures Valid() && Model() == Step(old(Model()), Act(id, write, None))
    {
      tasks[id].phase := phase;
      tasks[id].failureReason := reason;
      calls := calls[id := NextCall(calls[id], write, None)];
    }

    /** Write the tenant's status, where that is the call's next action. */
    method WriteStatus(id: Uuid, value: TenantStatus, write: Write) returns (ok: bool)
      requires Valid() && id in tasks
      requires NextStatus(calls[id], tenantStatus, write) == Written(tenantStatus, tasks[id].tenantId, value, write)
      requires NextCall(calls[id], write, None).task == calls[id].task
      modifies this`calls, this`tenantStatus
      ensures Valid() && ok == write.Done? && Model() == Step(old(Model()), Act(id, write, None))
    {
      ok := UpdateStatus(tasks[id].tenantId, value, write);
      calls := calls[id := NextCall(calls[id], write, None)];
    }

    method FreezeWrites(id: Uuid, write: Write) returns (ok: bool)
      requires Valid() && id in tasks && calls[id].pc == AtFreeze
      modifies this`calls, this`tenantStatus, tasks[id]
      ensures Valid() && ok == write.Done?
      ensures Model() == Step(Step(old(Model()), Act(id, write, None)), Act(id, write, None))
      ensures calls[id].pc == if ok then AtStage(0) else Returned(false)
    {
      SetPhase(id, Freezing, tasks[id].failureReason, write);
      ok := WriteStatus(id, Disabled, write);
    }

    /** The four stages differ in the phase they set. */
    method RunStage(id: Uuid, k: nat, a: Answers) returns (fault: Option<string>)
      requires Valid() && id in tasks && k < |a.faults| == 4 && calls[id].pc == AtStage(k)
      modifies this`calls, tasks[id]
      ensures Valid() && fault == a.faults[k]
      ensures Model() == Step(Step(old(Model()), Act(id, a.unfreeze, None)), Act(id, a.unfreeze, fault))
      ensures calls[id].pc ==
        if fault.Some? then AtRollback(fault.value) else if k == 3 then AtUnfreeze(false) else AtStage(k + 1)
    {
      SetPhase(id, PhaseAt(k + 2), tasks[id].failureReason, a.unfreeze);
      fault := a.faults[k];
      SeeResult(id, k, a.unfreeze, fault);
    }

    /** The stage has answered: the call moves on or turns to its rollback, and nothing else changes. */
    ghost method SeeResult(id: Uuid, k: nat, write: Write, fault: Option<string>)
      requires Valid() && id in tasks && k < 4 && calls[id].pc == AtResult(k)
      modifies this`calls
      ensures Valid() && Model() == Step(old(Model()), Act(id, write, fault))
      ensures calls[id].pc ==
        if fault.Some? then AtRollback(fault.value) else if k == 3 then AtUnfreeze(false) else AtStage(k + 1)
    {
      ResultKeepsTask(calls[id], tenantStatus, write, fault);
      calls := calls[id := NextCall(calls[id], write, fault)];
    }

    method UnfreezeWrites(id: Uuid, write: Write)
      requires Valid() && id in tasks && calls[id].pc.AtUnfreeze?
      modifies this`calls, this`tenantStatus
      ensures Valid() && Model() == Step(old(Model()), Act(id, write, None))
    {
      var _ := WriteStatus(id, Active, write);
    }

    method Rollback(id: Uuid, error: string, write: Write)
      requires Valid() && id in tasks && calls[id].pc == AtRollback(error)
      modifies this`calls, this`tenantStatus, tasks[id]
      ensures Valid() && calls[id].pc == Returned(false)
      ensures Model() == Step(Step(old(Model()), Act(id, write, None)), Act(id, write, None))
    {
      SetPhase(id, RolledBack, error, write);
      UnfreezeWrites(id, write);
    }

    method Complete(id: Uuid, write: Write)
      requires Valid() && id in tasks && calls[id].pc == AtUnfreeze(false)
      modifies this`calls, this`tenantStatus, tasks[id]
      ensures Valid() && calls[id].pc == Returned(true)
      ensures Model() == Step(Step(old(Model()), Act(id, write, None)), Act(id, write, None))
    {
      UnfreezeWrites(id, write);
      SetPhase(id, Completed, tasks[id].failureReason, write);
    }

    /** The rest of a call from stage `k`, as events. */
    static function RestScript(id: Uuid, a: Answers, k: nat): seq<Event>
      requires |a.faults| == 4 && k <= 4
      decreases 4 - k
    {
      if k == 4 then [Act(id, a.unfreeze, None), Act(id, a.unfreeze, None)]
      else StageScript(id, a, k) + RestScript(id, a, k + 1)
    }

    static lemma RestIsActs(id: Uuid, a: Answers, k: nat)
      requires |a.faults| == 4 && k <= 4
      ensures forall i :: 0 <= i < |RestScript(id, a, k)| ==>
        RestScript(id, a, k)[i].Act? && RestScript(id, a, k)[i].id == id
      decreases 4 - k
    {
    }

    static lemma ScriptIsRest(id: Uuid, tenant: Uuid, a: Answers)
      requires |a.faults| == 4
      ensures CallScript(id, tenant, a)
           == [Begin(id, tenant)] + ([Act(id, a.freeze, None), Act(id, a.freeze, None)] + RestScript(id, a, 0))
    {
    }

    /** Do stages `k` to 3 answer without a fault? */
    static predicate NoFaultFrom(a: Answers, k: nat) {
      forall i :: k <= i < |a.faults| ==> a.faults[i].None?
    }

    /** The first fault from stage `k` on is `reason`. */
    static predicate FirstFaultFrom(a: Answers, k: nat, reason: string) {
      exists i :: k <= i < |a.faults| && a.faults[i] == Some(reason) && forall j :: k <= j < i ==> a.faults[j].None?
    }

    /** What the rest of a call makes of it and of the tenant's status. */
    static predicate Ended(s: State, n: State, id: Uuid, a: Answers, k: nat)
      requires id in s.calls
    {
      && n.calls.Keys == s.calls.Keys && (forall b :: b in s.calls && b != id ==> n.calls[b] == s.calls[b])
      && n.calls[id].task.tenant == s.calls[id].task.tenant
      && n.calls[id].pc == Returned(NoFaultFrom(a, k))
      && (if NoFaultFrom(a, k) then
            n.calls[id].task.phase == Completed && n.calls[id].task.reason == s.calls[id].task.reason
          else
            n.calls[id].task.phase == RolledBack && FirstFaultFrom(a, k, n.calls[id].task.reason))
      && n.status ==
           var t := s.calls[id].task.tenant;
           if a.unfreeze.Refused? || t !in s.status then s.status else s.status[t := Active]
    }

    static lemma {:induction false} LastStepsEnd(s: State, id: Uuid, a: Answers)
      requires |a.faults| == 4 && id in s.calls && s.calls[id].pc == AtUnfreeze(false)
      ensures Ended(s, Run(s, RestScript(id, a, 4)), id, a, 4)
    {
      RunTwo(s, Act(id, a.unfreeze, None), Act(id, a.unfreeze, None));
    }

    /** The two actions of a stage. */
    static function Staged(s: State, id: Uuid, a: Answers, k: nat): State
      requires k < |a.faults|
    {
      Step(Step(s, Act(id, a.unfreeze, None)), Act(id, a.unfreeze, a.faults[k]))
    }

    static lemma {:induction false} StagedCall(s: State, id: Uuid, a: Answers, k: nat)
      requires |a.faults| == 4 && k < 4 && id in s.calls && s.calls[id].pc == AtStage(k)
      ensures var n := Staged(s, id, a, k);
        && n.calls.Keys == s.calls.Keys && (forall b :: b in s.calls && b != id ==> n.calls[b] == s.calls[b])
        && n.status == s.status
        && n.calls[id].task.tenant == s.calls[id].task.tenant && n.calls[id].task.reason == s.calls[id].task.reason
        && n.calls[id].pc ==
             if a.faults[k].Some? then AtRollback(a.faults[k].value)
             else if k == 3 then AtUnfreeze(false) else AtStage(k + 1)
    {
    }

    static lemma {:induction false} RollbackCall(s: State, id: Uuid, a: Answers, k: nat)
      requires |a.faults| == 4 && 1 <= k <= 4 && id in s.calls && s.calls[id].pc.AtRollback?
      ensures var n := Run(s, RestScript(id, a, k)); var t := s.calls[id].task.tenant;
        && n.calls.Keys == s.calls.Keys && (forall b :: b in s.calls && b != id ==> n.calls[b] == s.calls[b])
        && n.calls[id].task == Task(t, RolledBack, s.calls[id].pc.error) && n.calls[id].pc == Returned(false)
        && n.status == if a.unfreeze.Refused? || t !in s.status then s.status else s.status[t := Active]
    {
      RollbackEndsScript(s, id, a, k);
    }

    static lemma {:induction false} RestEnds(s: State, id: Uuid, a: Answers, k: nat)
      requires |a.faults| == 4 && k <= 4 && id in s.calls
      requires s.calls[id].pc == if k == 4 then AtUnfreeze(false) else AtStage(k)
      ensures Ended(s, Run(s, RestScript(id, a, k)), id, a, k)
      decreases 4 - k
    {
      if k == 4 {
        LastStepsEnd(s, id, a);
      } else {
        var m := Staged(s, id, a, k);
        StageThenRest(s, id, a, k);
        StagedCall(s, id, a, k);
        if a.faults[k].Some? {
          RollbackCall(m, id, a, k + 1);
          assert FirstFaultFrom(a, k, a.faults[k].value);
        } else {
          RestEnds(m, id, a, k + 1);
          assert NoFaultFrom(a, k) <==> NoFaultFrom(a, k + 1);
          FirstFaultEarlier(a, k, Run(m, RestScript(id, a, k + 1)).calls[id].task.reason);
        }
      }
    }

    static lemma {:induction false} FirstFaultEarlier(a: Answers, k: nat, reason: string)
      requires k < |a.faults| && a.faults[k].None?
      ensures FirstFaultFrom(a, k + 1, reason) ==> FirstFaultFrom(a, k, reason)
    {
    }

    /** A whole call of its own: it succeeds exactly if its freeze write is acknowledged and no stage
        faults; it ends Completed, RolledBack with the first fault, or Freezing after a failed freeze write;
        it leaves the tenant active, or, where writes fail, disabled or as it was. */
    static lemma {:induction false} CallOutcome(s: State, id: Uuid, tenant: Uuid, a: Answers)
      requires |a.faults| == 4 && id !in s.calls
      ensures var n := Run(s, CallScript(id, tenant, a));
        var frozen := if a.freeze.Refused? || tenant !in s.status then s.status else s.status[tenant := Disabled];
        && n.calls.Keys == s.calls.Keys + {id} && (forall b :: b in s.calls ==> n.calls[b] == s.calls[b])
        && n.calls[id].task.tenant == tenant
        && n.calls[id].pc == Returned(a.freeze.Done? && NoFaultFrom(a, 0))
        && if !a.freeze.Done? then n.calls[id].task.phase == Freezing && n.status == frozen
           else
             && (if NoFaultFrom(a, 0) then n.calls[id].task.phase == Completed && n.calls[id].task.reason == ""
                 else n.calls[id].task.phase == RolledBack && FirstFaultFrom(a, 0, n.calls[id].task.reason))
             && n.status == if a.unfreeze.Refused? || tenant !in s.status then frozen else s.status[tenant := Active]
    {
      var s1 := Step(s, Begin(id, tenant));
      var freezing := [Act(id, a.freeze, None), Act(id, a.freeze, None)];
      var m := Step(Step(s1, freezing[0]), freezing[1]);
      ScriptIsRest(id, tenant, a);
      RunOne(s, Begin(id, tenant));
      RunConcat(s, [Begin(id, tenant)], freezing + RestScript(id, a, 0));
      RunConcat(s1, freezing, RestScript(id, a, 0));
      RunTwo(s1, freezing[0], freezing[1]);
      if a.freeze.Done? {
        RestEnds(m, id, a, 0);
      } else {
        RestIsActs(id, a, 0);
        ReturnedStutters(m, id, RestScript(id, a, 0));
      }
    }

    /** One whole call, alone on the orchestrator: it is its script. */
    method Migrate(id: Uuid, tenant: Uuid, a: Answers) returns (ok: bool)
      requires Valid() && id !in tasks && |a.faults| == 4
      modifies this
      ensures Valid() && id in tasks && Model() == Run(old(Model()), CallScript(id, tenant, a))
      ensures ok <==> a.freeze.Done? && NoFaultFrom(a, 0)
      ensures calls[id].pc == Returned(ok)
    {
      ghost var s0 := Model();
      var task := new MigrationTask(tenant);
      tasks := tasks[id := task];
      calls := calls[id := Created(tenant)];
      ghost var s1 := Model();
      ghost var freezing := [Act(id, a.freeze, None), Act(id, a.freeze, None)];
      ScriptIsRest(id, tenant, a);
      RunOne(s0, Begin(id, tenant));
      RunConcat(s0, [Begin(id, tenant)], freezing + RestScript(id, a, 0));
      RunConcat(s1, freezing, RestScript(id, a, 0));
      ok := FreezeWrites(id, a.freeze);
      RunTwo(s1, Act(id, a.freeze, None), Act(id, a.freeze, None));
      if !ok {
        RestIsActs(id, a, 0);
        ReturnedStutters(Model(), id, RestScript(id, a, 0));
        return;
      }
      ok := RunStages(id, a);
      assert ok <==> NoFaultFrom(a, 0) by {
        CallOutcome(s0, id, tenant, a);
      }
    }

    /** Steps 2 to 6 of a call: the stages in order, a rollback at the first fault, or completion. */
    method RunStages(id: Uuid, a: Answers) returns (ok: bool)
      requires Valid() && id in tasks && |a.faults| == 4 && calls[id].pc == AtStage(0)
      modifies this`calls, this`tenantStatus, tasks[id]
      ensures Valid() && Model() == Run(old(Model()), RestScript(id, a, 0))
      ensures calls[id].pc == Returned(ok)
    {
      for k := 0 to 4
        invariant Valid() && id in tasks
        invariant calls[id].pc == if k == 4 then AtUnfreeze(false) else AtStage(k)
        invariant Run(old(Model()), RestScript(id, a, 0)) == Run(Model(), RestScript(id, a, k))
      {
        StageThenRest(Model(), id, a, k);
        var fault := RunStage(id, k, a);
        if fault.Some? {
          RollbackEndsScript(Model(), id, a, k + 1);
          Rollback(id, fault.value, a.unfreeze);
          return false;
        }
      }
      RunTwo(Model(), Act(id, a.unfreeze, None), Act(id, a.unfreeze, None));
      Complete(id, a.unfreeze);
      return true;
    }

    static lemma StageThenRest(s: State, id: Uuid, a: Answers, k: nat)
      requires |a.faults| == 4 && k < 4
      ensures Run(s, RestScript(id, a, k))
           == Run(Step(Step(s, Act(id, a.unfreeze, None)), Act(id, a.unfreeze, a.faults[k])), RestScript(id, a, k + 1))
    {
    }

    /** After a rollback the remaining script changes nothing. */
    static lemma RollbackEndsScript(s: State, id: Uuid, a: Answers, k: nat)
      requires |a.faults| == 4 && 1 <= k <= 4 && id in s.calls && s.calls[id].pc.AtRollback?
      ensures Run(s, RestScript(id, a, k)) == Step(Step(s, Act(id, a.unfreeze, None)), Act(id, a.unfreeze, None))
    {
      RunTwo(s, Act(id, a.unfreeze, None), Act(id, a.unfreeze, None));
      if k < 4 {
        StageThenRest(s, id, a, k);
        var m := Step(Step(s, Act(id, a.unfreeze, None)), Act(id, a.unfreeze, None));
        RestIsActs(id, a, k + 1);
        ReturnedStutters(m, id, RestScript(id, a, k + 1));
      }
    }

    /** The report scans the tasks in any order. */
    method IsWriteFrozen(tenant: Uuid) returns (frozen: bool)
      requires Valid()
      ensures frozen <==> WriteFrozen(Model(), tenant)
    {
      var left := tasks.Keys;
      while left != {}
        invariant left <= tasks.Keys
        invariant forall id :: id in tasks && id !in left ==>
          !(tasks[id].tenantId == tenant && FrozenPhase(tasks[id].phase))
        decreases left
      {
        var id :| id in left;
        if tasks[id].tenantId == tenant && FrozenPhase(tasks[id].phase) {
          assert calls[id].task.tenant == tenant;
          return true;
        }
        left := left - {id};
      }
      return false;
    }
  }
}
