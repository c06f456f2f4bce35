/** The provisioning saga: run the steps in order, and undo the completed ones backwards on failure. */
module ProvisioningSaga {
  import opened Results

  /** What one external action leaves behind, and the error it reports. */
  datatype Outcome<+W> = Outcome(world: W, error: Option<string>)

  datatype SagaStep<!W> = SagaStep(name: string, execute: W -> Outcome<W>, compensate: W -> Outcome<W>)

  datatype Action = Execute(step: nat, ok: bool) | Compensate(step: nat, ok: bool) | MarkFailed

  // ---------- specification ----------

  /** The world after the first `n` executions. */
  function Forward<W>(steps: seq<SagaStep<W>>, w: W, n: nat): W
    requires n <= |steps|
  {
    if n == 0 then w else steps[n - 1].execute(Forward(steps, w, n - 1)).world
  }

  predicate Succeeds<W>(steps: seq<SagaStep<W>>, w: W, i: nat)
    requires i < |steps|
  {
    steps[i].execute(Forward(steps, w, i)).error.None?
  }

  predicate AllSucceed<W>(steps: seq<SagaStep<W>>, w: W, n: nat)
    requires n <= |steps|
  {
    n == 0 || (AllSucceed(steps, w, n - 1) && Succeeds(steps, w, n - 1))
  }

  /** Step `k` is the first to fail, or `k` is the number of steps. */
  predicate FailsFirstAt<W>(steps: seq<SagaStep<W>>, w: W, k: nat) {
    && k <= |steps|
    && AllSucceed(steps, w, k)
    && (k < |steps| ==> !Succeeds(steps, w, k))
  }

  /** The world after compensating steps `k - 1` down to 0. */
  function Undo<W>(steps: seq<SagaStep<W>>, w: W, k: nat): W
    requires k <= |steps|
    decreases k
  {
    if k == 0 then w else Undo(steps, steps[k - 1].compensate(w).world, k - 1)
  }

  function UndoTrace<W>(steps: seq<SagaStep<W>>, w: W, k: nat): seq<Action>
    requires k <= |steps|
    decreases k
  {
    if k == 0 then []
    else
      var o := steps[k - 1].compensate(w);
      [Compensate(k - 1, o.error.None?)] + UndoTrace(steps, o.world, k - 1)
  }

  function Executions(k: nat): seq<Action> {
    if k == 0 then [] else Executions(k - 1) + [Execute(k - 1, true)]
  }

  function Trace<W>(steps: seq<SagaStep<W>>, w: W, k: nat, marks: bool): seq<Action>
    requires k <= |steps|
  {
    if k == |steps| then Executions(k)
    else
      Executions(k) + [Execute(k, false)] + UndoTrace(steps, Forward(steps, w, k + 1), k)
      + (if marks then [MarkFailed] else [])
  }

  /** The world a run leaves: all steps done, or what the compensations and the status write leave. */
  function FinalWorld<W>(steps: seq<SagaStep<W>>, w: W, k: nat, markFailed: Option<W -> W>): W
    requires k <= |steps|
  {
    if k == |steps| then Forward(steps, w, k)
    else
      MarkedBy(markFailed, Undo(steps, Forward(steps, w, k + 1), k))
  }

  function MarkedBy<W>(markFailed: Option<W -> W>, w: W): W {
    if markFailed.Some? then markFailed.value(w) else w
  }

  lemma AppendExecution(before: seq<Action>, k: nat)
    ensures before + Executions(k) + [Execute(k, true)] == before + Executions(k + 1)
  {
  }

  /** The log of a failed run, appended piece by piece. */
  lemma AppendFailedTrace<W>(before: seq<Action>, steps: seq<SagaStep<W>>, w: W, k: nat, marks: bool)
    requires k < |steps|
    ensures before + Executions(k) + [Execute(k, false)] + UndoTrace(steps, Forward(steps, w, k + 1), k)
            + (if marks then [MarkFailed] else [])
         == before + Trace(steps, w, k, marks)
  {
  }

  // ---------- the orchestrator ----------

  class ProvisioningOrchestrator<W> {
    var world: W
    var trace: seq<Action>
    /** The write of the failed status; absent when there is no tenant store. */
    const markFailed: Option<W -> W>

    constructor (world: W, markFailed: Option<W -> W>)
      ensures this.world == world && trace == [] && this.markFailed == markFailed
    {
      this.world, this.markFailed, trace := world, markFailed, [];
    }

    method RunExecute(step: SagaStep<W>, i: nat) returns (error: Option<string>)
      modifies this
      ensures Outcome(world, error) == step.execute(old(world))
      ensures trace == old(trace) + [Execute(i, error.None?)]
    {
      var o := step.execute(world);
      world, error, trace := o.world, o.error, trace + [Execute(i, o.error.None?)];
    }

    /** The countdown over the completed steps; a failed compensation is logged and passed over. */
    method CompensateCompleted(steps: seq<SagaStep<W>>, completed: seq<nat>)
      requires |completed| <= |steps| && forall j :: 0 <= j < |completed| ==> completed[j] == j
      modifies this
      ensures world == Undo(steps, old(world), |completed|)
      ensures trace == old(trace) + UndoTrace(steps, old(world), |completed|)
    {
      var j := |completed|;
      while j > 0
        invariant 0 <= j <= |completed|
        invariant Undo(steps, world, j) == Undo(steps, old(world), |completed|)
        invariant trace + UndoTrace(steps, world, j) == old(trace) + UndoTrace(steps, old(world), |completed|)
      {
        j := j - 1;
        var i := completed[j];
        var o := steps[i].compensate(world);
        world, trace := o.world, trace + [Compensate(i, o.error.None?)];
      }
    }

    /** The failure branch: compensations, then the write of the failed status. */
    method Abort(steps: seq<SagaStep<W>>, completed: seq<nat>, ghost before: seq<Action>, ghost w: W)
      requires |completed| < |steps| && forall j :: 0 <= j < |completed| ==> completed[j] == j
      requires world == Forward(steps, w, |completed| + 1)
      requires trace == before + Executions(|completed|) + [Execute(|completed|, false)]
      modifies this
      ensures world == FinalWorld(steps, w, |completed|, markFailed)
      ensures trace == before + Trace(steps, w, |completed|, markFailed.Some?)
    {
      AppendFailedTrace(before, steps, w, |completed|, markFailed.Some?);
      CompensateCompleted(steps, completed);
      if markFailed.Some? {
        world, trace := markFailed.value(world), trace + [MarkFailed];
      }
    }

    method Provision(steps: seq<SagaStep<W>>) returns (r: Result<(), string>, ghost k: nat)
      modifies this
      ensures FailsFirstAt(steps, old(world), k)
      ensures trace == old(trace) + Trace(steps, old(world), k, markFailed.Some?)
      ensures world == FinalWorld(steps, old(world), k, markFailed)
      ensures r == if k == |steps| then Ok(()) else Err(steps[k].name)
    {
      var completed: seq<nat> := [];
      for i := 0 to |steps|
        invariant |completed| == i && forall j :: 0 <= j < i ==> completed[j] == j
        invariant AllSucceed(steps, old(world), i)
        invariant world == Forward(steps, old(world), i) && trace == old(trace) + Executions(i)
      {
        var error := RunExecute(steps[i], i);
        if error.Some? {
          Abort(steps, completed, old(trace), old(world));
          return Err(steps[i].name), i;
        }
        completed := completed + [i];
        AppendExecution(old(trace), i);
      }
      return Ok(()), |steps|;
    }
  }

  // ---------- what the trace and the state are ----------

  lemma {:induction false} UndoTraceShape<W>(steps: seq<SagaStep<W>>, w: W, k: nat)
    requires k <= |steps|
    ensures var t := UndoTrace(steps, w, k);
      |t| == k && forall j :: 0 <= j < k ==> t[j].Compensate? && t[j].step == k - 1 - j
    decreases k
  {
    if k > 0 {
      UndoTraceShape(steps, steps[k - 1].compensate(w).world, k - 1);
    }
  }

  predicate IsCompensation(a: Action, step: int) {
    a.Compensate? && a.step == step
  }

  /** Whatever fails: executions 0 to k, then compensations k - 1 down to 0, each exactly once. */
  lemma TraceShape<W>(steps: seq<SagaStep<W>>, w: W, k: nat, marks: bool)
    requires k < |steps|
    ensures var t := Trace(steps, w, k, marks);
      && |t| == 2 * k + 1 + (if marks then 1 else 0)
      && (forall i :: 0 <= i <= k ==> t[i] == Execute(i, i < k))
      && (forall i :: k < i <= 2 * k ==> IsCompensation(t[i], 2 * k - i))
      && (marks ==> t[2 * k + 1] == MarkFailed)
  {
    var undo := UndoTrace(steps, Forward(steps, w, k + 1), k);
    UndoTraceShape(steps, Forward(steps, w, k + 1), k);
    ExecutionsShape(k);
    var t := Trace(steps, w, k, marks);
    forall i | k < i <= 2 * k ensures IsCompensation(t[i], 2 * k - i) {
      assert t[i] == undo[i - k - 1];
    }
  }

  lemma ExecutionsShape(k: nat)
    ensures |Executions(k)| == k && forall i :: 0 <= i < k ==> Executions(k)[i] == Execute(i, true)
  {
  }

  /** The compensation inverts the step's success, and a failed execution has no effect. */
  predicate InvertsAt<W(==)>(step: SagaStep<W>, w: W) {
    var o := step.execute(w);
    if o.error.None? then step.compensate(o.world).world == w else o.world == w
  }

  ghost predicate Inverting<W(!new)>(steps: seq<SagaStep<W>>) {
    forall i, w :: 0 <= i < |steps| ==> InvertsAt(steps[i], w)
  }

  lemma {:induction false} UndoForward<W(!new)>(steps: seq<SagaStep<W>>, w: W, k: nat)
    requires k <= |steps| && Inverting(steps)
    requires AllSucceed(steps, w, k)
    ensures Undo(steps, Forward(steps, w, k), k) == w
  {
    if k > 0 {
      assert Succeeds(steps, w, k - 1) && InvertsAt(steps[k - 1], Forward(steps, w, k - 1));
      UndoForward(steps, w, k - 1);
    }
  }

  /** With inverting steps a failed run restores the state; only a configured store's status write is
      left, and it is the last thing that happens. */
  lemma FailedRunRestores<W(!new)>(steps: seq<SagaStep<W>>, w: W, k: nat)
    requires Inverting(steps) && FailsFirstAt(steps, w, k) && k < |steps|
    ensures FinalWorld(steps, w, k, None) == w
    ensures forall f: W -> W :: FinalWorld(steps, w, k, Some(f)) == f(w)
  {
    assert InvertsAt(steps[k], Forward(steps, w, k));
    UndoForward(steps, w, k);
  }

  /** Whatever the steps do: with a store configured, a failed run leaves what it would leave without
      one, and then the failed status is written. */
  lemma FailedRunMarks<W>(steps: seq<SagaStep<W>>, w: W, k: nat, f: W -> W)
    requires k < |steps|
    ensures FinalWorld(steps, w, k, Some(f)) == f(FinalWorld(steps, w, k, None))
    ensures Trace(steps, w, k, true) == Trace(steps, w, k, false) + [MarkFailed]
  {
  }

  // ---------- successful runs ----------

  /** A successful run executes each step once, in order, and does nothing else: no compensation, and no
      failed status, whether a store is configured or not. */
  lemma SuccessTrace<W>(steps: seq<SagaStep<W>>, w: W, marks: bool)
    requires FailsFirstAt(steps, w, |steps|)
    ensures var t := Trace(steps, w, |steps|, marks);
      |t| == |steps| && forall i :: 0 <= i < |steps| ==> t[i] == Execute(i, true)
  {
    ExecutionsShape(|steps|);
  }

  /** Undoing all steps after a successful run gives the first state back: the run leaves what its steps
      did and nothing more. */
  lemma SuccessIsUndone<W(!new)>(steps: seq<SagaStep<W>>, w: W, markFailed: Option<W -> W>)
    requires Inverting(steps) && FailsFirstAt(steps, w, |steps|)
    ensures Undo(steps, FinalWorld(steps, w, |steps|, markFailed), |steps|) == w
  {
    UndoForward(steps, w, |steps|);
  }

  // ---------- resources left behind ----------

  /** Step `i` acquires resource `i`; its compensation releases it; either may fail without effect. */
  predicate AcquiresAt(step: SagaStep<set<nat>>, i: nat, w: set<nat>) {
    var e, c := step.execute(w), step.compensate(w);
    && e.world == (if e.error.None? then w + {i} else w)
    && c.world == (if c.error.None? then w - {i} else w)
  }

  ghost predicate Acquires(steps: seq<SagaStep<set<nat>>>) {
    forall i: nat, w :: i < |steps| ==> AcquiresAt(steps[i], i, w)
  }

  /** The steps whose compensation failed in an undo trace. */
  function FailedCompensations(undo: seq<Action>): set<nat> {
    if undo == [] then {}
    else (if undo[0].Compensate? && !undo[0].ok then {undo[0].step} else {}) + FailedCompensations(undo[1..])
  }

  function Below(k: nat): (r: set<nat>)
    ensures forall i: nat :: i in r <==> i < k
  {
    if k == 0 then {} else Below(k - 1) + {k - 1}
  }

  lemma {:induction false} ForwardAcquires(steps: seq<SagaStep<set<nat>>>, w: set<nat>, k: nat)
    requires k <= |steps| && Acquires(steps) && AllSucceed(steps, w, k)
    ensures Forward(steps, w, k) == w + Below(k)
  {
    if k > 0 {
      assert Succeeds(steps, w, k - 1) && AcquiresAt(steps[k - 1], k - 1, Forward(steps, w, k - 1));
      ForwardAcquires(steps, w, k - 1);
      assert Below(k) == Below(k - 1) + {k - 1};
    }
  }

  lemma {:induction false} UndoResidue(steps: seq<SagaStep<set<nat>>>, w: set<nat>, k: nat)
    requires k <= |steps| && Acquires(steps) && Below(k) <= w
    ensures Undo(steps, w, k) == (w - Below(k)) + FailedCompensations(UndoTrace(steps, w, k))
    ensures FailedCompensations(UndoTrace(steps, w, k)) <= Below(k)
    decreases k
  {
    if k > 0 {
      assert AcquiresAt(steps[k - 1], k - 1, w);
      var o := steps[k - 1].compensate(w);
      UndoResidue(steps, o.world, k - 1);
      var here := if o.error.None? then {} else {k - 1};
      FailedCons(Compensate(k - 1, o.error.None?), UndoTrace(steps, o.world, k - 1));
      assert o.world - Below(k - 1) == (w - Below(k)) + here;
    }
  }

  lemma FailedCons(a: Action, rest: seq<Action>)
    ensures FailedCompensations([a] + rest)
         == (if a.Compensate? && !a.ok then {a.step} else {}) + FailedCompensations(rest)
  {
  }

  lemma {:induction false} NoneFailed(steps: seq<SagaStep<set<nat>>>, w: set<nat>, k: nat)
    requires k <= |steps|
    ensures FailedCompensations(UndoTrace(steps, w, k)) == {} <==>
      forall a :: a in UndoTrace(steps, w, k) ==> a.Compensate? && a.ok
    decreases k
  {
    if k > 0 {
      var t := UndoTrace(steps, w, k);
      NoneFailed(steps, steps[k - 1].compensate(w).world, k - 1);
      assert t == [t[0]] + t[1..];
    }
  }

  /** After a failed run exactly the resources whose compensation failed are left over, so nothing
      is left over exactly when every compensation succeeded. */
  lemma ResidueOfFailedRun(steps: seq<SagaStep<set<nat>>>, w: set<nat>, k: nat)
    requires Acquires(steps) && FailsFirstAt(steps, w, k) && k < |steps| && w !! Below(|steps|)
    ensures var undo := UndoTrace(steps, Forward(steps, w, k + 1), k);
      && FinalWorld(steps, w, k, None) == w + FailedCompensations(undo)
      && (FinalWorld(steps, w, k, None) == w <==> forall a :: a in undo ==> a.Compensate? && a.ok)
  {
    var at := Forward(steps, w, k + 1);
    assert AcquiresAt(steps[k], k, Forward(steps, w, k));
    ForwardAcquires(steps, w, k);
    UndoResidue(steps, at, k);
    NoneFailed(steps, at, k);
    assert at - Below(k) == w;
    assert Below(k) <= Below(|steps|);
  }

  /** After a successful run exactly the steps' resources are added, whether a store is configured or not. */
  lemma SuccessAcquiresAll(steps: seq<SagaStep<set<nat>>>, w: set<nat>, markFailed: Option<set<nat> -> set<nat>>)
    requires Acquires(steps) && FailsFirstAt(steps, w, |steps|)
    ensures FinalWorld(steps, w, |steps|, markFailed) == w + Below(|steps|)
  {
    ForwardAcquires(steps, w, |steps|);
  }
}
