/**
 * The reference check of specification templates: a depth-first search whose `visited` set and
 * `path` list are shared by every branch of the recursion.
 */
module TemplateCycles {
  type TemplateId = nat
  type Dependencies = map<TemplateId, seq<TemplateId>>

  /** The search returns normally, or raises with the reported cycle. */
  datatype Verdict = Acyclic | Cycle(walk: seq<TemplateId>)

  function DepsOf(deps: Dependencies, t: TemplateId): seq<TemplateId> {
    if t in deps then deps[t] else []
  }

  /** The map lists `b` among the dependencies of `a`. */
  predicate Edge(deps: Dependencies, a: TemplateId, b: TemplateId) {
    a in deps && b in deps[a]
  }

  predicate IsWalk(deps: Dependencies, w: seq<TemplateId>) {
    |w| > 0 && forall i :: 0 <= i < |w| - 1 ==> Edge(deps, w[i], w[i + 1])
  }

  /** Some walk from `start` ends at a template it has already passed. */
  ghost predicate CycleReachable(deps: Dependencies, start: TemplateId) {
    exists w :: IsWalk(deps, w) && w[0] == start && w[|w| - 1] in w[..|w| - 1]
  }

  /** Every dependency of a listed template is listed strictly before it: position is a rank. */
  ghost predicate Ranked(deps: Dependencies, order: seq<TemplateId>) {
    forall i, d :: 0 <= i < |order| && Edge(deps, order[i], d) ==> d in order[..i]
  }

  ghost function Known(deps: Dependencies, start: TemplateId): set<TemplateId> {
    {start} + deps.Keys + set k, d | k in deps && d in deps[k] :: d
  }

  lemma {:induction false} WalkDescends(deps: Dependencies, order: seq<TemplateId>, w: seq<TemplateId>, i: nat)
    requires Ranked(deps, order) && IsWalk(deps, w)
    requires i < |order| && w[0] == order[i] && |w| >= 2
    ensures w[|w| - 1] in order[..i]
    decreases |w|
  {
    assert Edge(deps, w[0], w[1]);
    if |w| > 2 {
      var k :| 0 <= k < i && order[k] == w[1];
      assert IsWalk(deps, w[1..]) by {
        forall j | 0 <= j < |w[1..]| - 1 ensures Edge(deps, w[1..][j], w[1..][j + 1]) {
          assert Edge(deps, w[j + 1], w[j + 2]);
        }
      }
      WalkDescends(deps, order, w[1..], k);
    }
  }

  lemma {:induction false} NoClosedWalk(deps: Dependencies, order: seq<TemplateId>, w: seq<TemplateId>, i: nat)
    requires Ranked(deps, order) && IsWalk(deps, w) && |w| >= 2 && w[0] == w[|w| - 1]
    requires i < |order| && w[0] == order[i]
    ensures false
    decreases i
  {
    WalkDescends(deps, order, w, i);
    var k :| 0 <= k < i && order[k] == w[0];
    NoClosedWalk(deps, order, w, k);
  }

  lemma WalkSuffix(deps: Dependencies, w: seq<TemplateId>, j: nat)
    requires IsWalk(deps, w) && j < |w|
    ensures IsWalk(deps, w[j..])
  {
  }

  lemma WalkPrefix(deps: Dependencies, w: seq<TemplateId>, j: nat)
    requires IsWalk(deps, w) && 0 < j <= |w|
    ensures IsWalk(deps, w[..j])
  {
  }

  lemma WalkPrefixOrEmpty(deps: Dependencies, w: seq<TemplateId>)
    requires IsWalk(deps, w)
    ensures |w| == 1 || IsWalk(deps, w[..|w| - 1])
  {
  }

  lemma WalkExtend(deps: Dependencies, w: seq<TemplateId>, t: TemplateId)
    requires w == [] || (IsWalk(deps, w) && Edge(deps, w[|w| - 1], t))
    ensures IsWalk(deps, w + [t])
  {
  }

  lemma RankedExtend(deps: Dependencies, order: seq<TemplateId>, t: TemplateId)
    requires Ranked(deps, order) && forall d :: d in DepsOf(deps, t) ==> d in order
    ensures Ranked(deps, order + [t])
  {
    var o := order + [t];
    forall i, d | 0 <= i < |o| && Edge(deps, o[i], d) ensures d in o[..i] {
      if i < |order| {
        assert o[..i] == order[..i];
      } else {
        assert o[..i] == order;
      }
    }
  }

  lemma RankedWalkNeverReturns(deps: Dependencies, order: seq<TemplateId>, w: seq<TemplateId>, j: nat)
    requires Ranked(deps, order) && IsWalk(deps, w) && w[0] in order
    requires j < |w| - 1 && w[j] == w[|w| - 1]
    ensures false
  {
    var k :| 0 <= k < |order| && order[k] == w[0];
    if j > 0 {
      WalkPrefix(deps, w, j + 1);
      WalkDescends(deps, order, w[..j + 1], k);
      k :| 0 <= k < |order| && order[k] == w[j];
    }
    WalkSuffix(deps, w, j);
    NoClosedWalk(deps, order, w[j..], k);
  }

  /** A ranking that lists `start` rules out every reachable cycle. */
  lemma RankExcludesCycles(deps: Dependencies, order: seq<TemplateId>, start: TemplateId)
    requires Ranked(deps, order) && start in order
    ensures !CycleReachable(deps, start)
  {
    forall w | IsWalk(deps, w) && w[0] == start && w[|w| - 1] in w[..|w| - 1] ensures false {
      var j :| 0 <= j < |w| - 1 && w[j] == w[|w| - 1];
      RankedWalkNeverReturns(deps, order, w, j);
    }
  }

  /** Visited is exactly on-path or finished; the path is a simple walk; finished is ranked. */
  ghost predicate SearchState(deps: Dependencies, visited: set<TemplateId>, path: seq<TemplateId>,
      finished: seq<TemplateId>) {
    && (forall t :: t in visited <==> t in path || t in finished)
    && (forall t :: t in path ==> t !in finished)
    && (forall i, j :: 0 <= i < j < |path| ==> path[i] != path[j])
    && (path == [] || IsWalk(deps, path))
    && Ranked(deps, finished)
  }

  lemma EnterKeepsState(deps: Dependencies, visited: set<TemplateId>, path: seq<TemplateId>,
      finished: seq<TemplateId>, t: TemplateId)
    requires SearchState(deps, visited, path, finished) && t !in visited
    requires path != [] ==> Edge(deps, path[|path| - 1], t)
    ensures SearchState(deps, visited + {t}, path + [t], finished)
  {
  }

  lemma LeaveKeepsState(deps: Dependencies, visited: set<TemplateId>, path: seq<TemplateId>,
      finished: seq<TemplateId>, t: TemplateId)
    requires SearchState(deps, visited, path + [t], finished)
    requires forall d :: d in DepsOf(deps, t) ==> d in finished
    ensures SearchState(deps, visited, path, finished + [t])
  {
    RankedExtend(deps, finished, t);
    WalkPrefixOrEmpty(deps, path + [t]);
    assert (path + [t])[..|path + [t]| - 1] == path;
    assert (path + [t])[|path|] == t;
  }

  /** The path and the report of a raised error: the path closes on the reported walk's first template. */
  ghost predicate Raised(deps: Dependencies, path: seq<TemplateId>, walk: seq<TemplateId>) {
    exists i | 0 <= i < |path| :: ClosesAt(deps, path, walk, i)
  }

  ghost predicate ClosesAt(deps: Dependencies, path: seq<TemplateId>, walk: seq<TemplateId>, i: nat)
    requires i < |path|
  {
    IsWalk(deps, path + [path[i]]) && walk == path[i..] + [path[i]]
  }

  lemma {:induction false} RepeatRaises(deps: Dependencies, path: seq<TemplateId>, t: TemplateId, i: nat)
    requires IsWalk(deps, path) && Edge(deps, path[|path| - 1], t) && i < |path| && path[i] == t
    ensures Raised(deps, path, path[i..] + [t])
  {
    WalkExtend(deps, path, t);
    assert ClosesAt(deps, path, path[i..] + [t], i);
  }

  lemma {:induction false} ClosingMakesCycle(deps: Dependencies, path: seq<TemplateId>, walk: seq<TemplateId>, i: nat)
    requires i < |path| && ClosesAt(deps, path, walk, i)
    ensures CycleReachable(deps, path[0])
  {
    var w := path + [path[i]];
    assert w[..|w| - 1] == path;
    assert w[|w| - 1] in w[..|w| - 1] && w[0] == path[0];
  }

  lemma {:induction false} ClosingWalkIsClosed(deps: Dependencies, path: seq<TemplateId>, walk: seq<TemplateId>, i: nat)
    requires i < |path| && ClosesAt(deps, path, walk, i)
    ensures |walk| >= 2 && IsWalk(deps, walk) && walk[0] == walk[|walk| - 1] == path[i]
  {
    var w := path + [path[i]];
    WalkSuffix(deps, w, i);
    assert walk == w[i..];
  }

  lemma {:induction false} PathLeadsThere(deps: Dependencies, path: seq<TemplateId>, walk: seq<TemplateId>, i: nat)
    requires i < |path| && ClosesAt(deps, path, walk, i)
    ensures IsWalk(deps, path[..i + 1]) && path[..i + 1][0] == path[0] && path[..i + 1][i] == path[i]
  {
    var w := path + [path[i]];
    WalkPrefix(deps, w, i + 1);
    assert w[..i + 1] == path[..i + 1];
  }

  /** What a raised error means for a search that began at `path[0]`. */
  lemma {:induction false} RaisedIsReachableCycle(deps: Dependencies, path: seq<TemplateId>, walk: seq<TemplateId>)
    requires Raised(deps, path, walk)
    ensures CycleReachable(deps, path[0])
    ensures |walk| >= 2 && IsWalk(deps, walk) && walk[0] == walk[|walk| - 1]
    ensures exists lead :: IsWalk(deps, lead) && lead[0] == path[0] && lead[|lead| - 1] == walk[0]
  {
    var i :| 0 <= i < |path| && ClosesAt(deps, path, walk, i);
    ClosingMakesCycle(deps, path, walk, i);
    ClosingWalkIsClosed(deps, path, walk, i);
    PathLeadsThere(deps, path, walk, i);
    var lead := path[..i + 1];
    assert lead[|lead| - 1] == walk[0];
  }

  method FirstIndex(path: seq<TemplateId>, t: TemplateId) returns (i: nat)
    requires t in path
    ensures i < |path| && path[i] == t && t !in path[..i]
  {
    i := 0;
    while path[i] != t
      invariant i < |path| && t in path[i..] && t !in path[..i]
      decreases |path| - i
    {
      i := i + 1;
    }
  }

  /** The state one top-level call shares among its recursive calls. */
  class CycleSearch {
    const deps: Dependencies
    ghost const known: set<TemplateId>
    var visited: set<TemplateId>
    var path: seq<TemplateId>
    ghost var finished: seq<TemplateId>

    constructor (deps: Dependencies, start: TemplateId)
      ensures Valid() && path == [] && finished == []
      ensures this.deps == deps && known == Known(deps, start)
    {
      this.deps := deps;
      known := Known(deps, start);
      visited, path, finished := {}, [], [];
    }

    ghost predicate Valid()
      reads this
    {
      SearchState(deps, visited, path, finished)
    }

    method Visit(t: TemplateId) returns (verdict: Verdict)
      requires Valid() && t in known
      requires path != [] ==> Edge(deps, path[|path| - 1], t)
      requires forall k, d :: k in deps && d in deps[k] ==> d in known
      modifies this`visited, this`path, this`finished
      ensures old(visited) <= visited
      ensures verdict.Acyclic? ==> Valid() && path == old(path)
      ensures verdict.Acyclic? ==> old(finished) <= finished && t in finished
      ensures verdict.Cycle? ==> old(path) <= path && Raised(deps, path, verdict.walk)
      ensures verdict.Cycle? && old(path) == [] ==> path[0] == t
      decreases known - visited
    {
      if t in path {
        var i := FirstIndex(path, t);
        RepeatRaises(deps, path, t, i);
        return Cycle(path[i..] + [t]);
      }
      if t in visited {
        return Acyclic;
      }
      EnterKeepsState(deps, visited, path, finished, t);
      visited := visited + {t};
      path := path + [t];
      var ds := DepsOf(deps, t);
      for n := 0 to |ds|
        invariant Valid() && path == old(path) + [t]
        invariant old(visited) + {t} <= visited && old(finished) <= finished
        invariant forall m :: 0 <= m < n ==> ds[m] in finished
      {
        verdict := Visit(ds[n]);
        if verdict.Cycle? {
          return;
        }
      }
      LeaveKeepsState(deps, visited, old(path), finished, t);
      path := path[..|path| - 1];
      finished := finished + [t];
      return Acyclic;
    }
  }

  /** The top-level call: it raises exactly when a cycle is reachable from `start`. */
  method ValidateNoTemplateCycle(start: TemplateId, deps: Dependencies) returns (verdict: Verdict)
    ensures verdict.Cycle? <==> CycleReachable(deps, start)
    ensures verdict.Cycle? ==>
      |verdict.walk| >= 2 && IsWalk(deps, verdict.walk) && verdict.walk[0] == verdict.walk[|verdict.walk| - 1]
    ensures verdict.Cycle? ==>
      exists lead :: IsWalk(deps, lead) && lead[0] == start && lead[|lead| - 1] == verdict.walk[0]
    ensures verdict.Acyclic? ==>
      exists order :: Ranked(deps, order) && start in order
  {
    var search := new CycleSearch(deps, start);
    verdict := search.Visit(start);
    if verdict.Cycle? {
      RaisedIsReachableCycle(deps, search.path, verdict.walk);
    } else {
      RankExcludesCycles(deps, search.finished, start);
    }
  }
}
