/** Versions of master data, the diff of two snapshots and the search for a version to roll back to. */
module VersionDiff {
  import opened Results

  /** Field values; `None` is Python's None, which a snapshot may store or leave out. */
  type Snapshot<V> = map<string, Option<V>>

  datatype Change<V> = Change(before: Option<V>, after: Option<V>)

  type Diff<V> = map<string, Change<V>>

  datatype Version<V> = Version(number: int, snapshot: Snapshot<V>)

  datatype VersionError = VersionNotFound

  /** `dict.get`: a missing key reads as None. */
  function Get<V>(s: Snapshot<V>, key: string): Option<V> {
    if key in s then s[key] else None
  }

  /** Equal up to keys whose value is None. */
  ghost predicate Same<V>(a: Snapshot<V>, b: Snapshot<V>) {
    forall key :: Get(a, key) == Get(b, key)
  }

  ghost function DiffOf<V>(a: Snapshot<V>, b: Snapshot<V>): Diff<V> {
    map key | key in a.Keys + b.Keys && Get(a, key) != Get(b, key) :: Change(Get(a, key), Get(b, key))
  }

  /** A diff read as a patch: each listed field takes its `after` value. */
  function Patch<V>(s: Snapshot<V>, d: Diff<V>): Snapshot<V> {
    map key | key in s.Keys + d.Keys :: if key in d then d[key].after else s[key]
  }

  function Swap<V>(d: Diff<V>): Diff<V> {
    map key | key in d :: Change(d[key].after, d[key].before)
  }

  /** Two diffs in a row as one; fields that come back to their first value drop out. */
  ghost function Compose<V>(d: Diff<V>, e: Diff<V>): Diff<V> {
    map key | key in d.Keys + e.Keys && Net(d, e, key).before != Net(d, e, key).after :: Net(d, e, key)
  }

  /** The change of one field over both diffs. */
  ghost function Net<V>(d: Diff<V>, e: Diff<V>, key: string): Change<V>
    requires key in d || key in e
  {
    Change(if key in d then d[key].before else e[key].before, if key in e then e[key].after else d[key].after)
  }

  // ---------- the diff as a patch ----------

  lemma {:induction false} DiffAt<V>(a: Snapshot<V>, b: Snapshot<V>, key: string)
    ensures key in DiffOf(a, b) <==> Get(a, key) != Get(b, key)
    ensures key in DiffOf(a, b) ==> DiffOf(a, b)[key] == Change(Get(a, key), Get(b, key))
  {
  }

  /** Patching anything that agrees with the first snapshot gives the second. */
  lemma {:induction false} DiffPatches<V>(s: Snapshot<V>, a: Snapshot<V>, b: Snapshot<V>)
    requires Same(s, a)
    ensures Same(Patch(s, DiffOf(a, b)), b)
  {
    forall key ensures Get(Patch(s, DiffOf(a, b)), key) == Get(b, key) {
      DiffAt(a, b, key);
    }
  }

  /** The patched snapshot is the second one to the key exactly if no key was dropped and no None added. */
  lemma {:induction false} PatchIsExactIff<V>(a: Snapshot<V>, b: Snapshot<V>)
    ensures Patch(a, DiffOf(a, b)) == b
            <==> a.Keys <= b.Keys && forall key :: key in b && b[key] == None ==> key in a
  {
  }

  /** No smaller patch does it: whatever takes `a` to `b` lists every field the diff lists, and gives
      it the same value. */
  lemma {:induction false} DiffIsLeastPatch<V>(a: Snapshot<V>, b: Snapshot<V>, d: Diff<V>)
    requires Same(Patch(a, d), b)
    ensures forall key :: key in DiffOf(a, b) ==> key in d && d[key].after == DiffOf(a, b)[key].after
  {
  }

  /** Swapping the versions swaps before and after, so the swapped diff undoes the patch. */
  lemma {:induction false} SwapUndoes<V>(a: Snapshot<V>, b: Snapshot<V>)
    ensures DiffOf(b, a) == Swap(DiffOf(a, b))
    ensures Same(Patch(Patch(a, DiffOf(a, b)), Swap(DiffOf(a, b))), a)
  {
  }

  /** Nothing is reported exactly if the snapshots agree up to None. */
  lemma {:induction false} EmptyIffSame<V>(a: Snapshot<V>, b: Snapshot<V>)
    ensures DiffOf(a, b) == map[] <==> Same(a, b)
  {
    if DiffOf(a, b) == map[] {
      forall key ensures Get(a, key) == Get(b, key) {
        DiffAt(a, b, key);
      }
    } else {
      var key :| key in DiffOf(a, b);
      DiffAt(a, b, key);
    }
  }

  // ---------- chains of versions ----------

  lemma {:induction false} ComposeDiffs<V>(a: Snapshot<V>, b: Snapshot<V>, c: Snapshot<V>)
    ensures Compose(DiffOf(a, b), DiffOf(b, c)) == DiffOf(a, c)
  {
    var d, e, f := DiffOf(a, b), DiffOf(b, c), DiffOf(a, c);
    forall key ensures key in Compose(d, e) <==> key in f
               ensures key in f ==> Compose(d, e)[key] == f[key]
    {
      DiffAt(a, b, key);
      DiffAt(b, c, key);
      DiffAt(a, c, key);
    }
  }

  function PatchAll<V>(s: Snapshot<V>, ds: seq<Diff<V>>): Snapshot<V>
    decreases |ds|
  {
    if ds == [] then s else PatchAll(Patch(s, ds[0]), ds[1..])
  }

  ghost function ComposeAll<V>(ds: seq<Diff<V>>): Diff<V>
    decreases |ds|
  {
    if ds == [] then map[] else Compose(ds[0], ComposeAll(ds[1..]))
  }

  /** The diffs of neighbouring versions. */
  ghost function Steps<V>(chain: seq<Snapshot<V>>): (ds: seq<Diff<V>>)
    requires chain != []
    ensures |ds| == |chain| - 1
    decreases |chain|
  {
    if |chain| == 1 then [] else [DiffOf(chain[0], chain[1])] + Steps(chain[1..])
  }

  /** Along any chain of versions: applying every step to the first snapshot gives the last, and the
      steps compose to the diff of first and last. */
  lemma {:induction false} ChainPatches<V>(s: Snapshot<V>, chain: seq<Snapshot<V>>)
    requires chain != [] && Same(s, chain[0])
    ensures Same(PatchAll(s, Steps(chain)), chain[|chain| - 1])
    ensures ComposeAll(Steps(chain)) == DiffOf(chain[0], chain[|chain| - 1])
    decreases |chain|
  {
    if |chain| == 1 {
      EmptyIffSame(chain[0], chain[0]);
    } else {
      var d := DiffOf(chain[0], chain[1]);
      assert Steps(chain)[0] == d && Steps(chain)[1..] == Steps(chain[1..]);
      DiffPatches(s, chain[0], chain[1]);
      ChainPatches(Patch(s, d), chain[1..]);
      ComposeDiffs(chain[0], chain[1], chain[|chain| - 1]);
    }
  }

  // ---------- the comparator ----------

  lemma {:induction false} RestoreKey<V>(d: Diff<V>, keys: set<string>, key: string)
    requires key in keys
    ensures d - (keys - {key}) == if key in d then (d - keys)[key := d[key]] else d - keys
  {
  }

  method Compare<V(==)>(a: Version<V>, b: Version<V>) returns (diff: Diff<V>)
    ensures diff == DiffOf(a.snapshot, b.snapshot)
  {
    ghost var full := DiffOf(a.snapshot, b.snapshot);
    var keys := a.snapshot.Keys + b.snapshot.Keys;
    diff := map[];
    while keys != {}
      invariant diff == full - keys
      decreases |keys|
    {
      var key :| key in keys;
      var before, after := Get(a.snapshot, key), Get(b.snapshot, key);
      DiffAt(a.snapshot, b.snapshot, key);
      RestoreKey(full, keys, key);
      keys := keys - {key};
      if before != after {
        diff := diff[key := Change(before, after)];
      }
    }
  }

  /** `v` is the first listed version with the number. */
  predicate FirstWith<V(==)>(versions: seq<Version<V>>, number: int, v: Version<V>) {
    exists i :: 0 <= i < |versions| && versions[i] == v && v.number == number
      && forall j :: 0 <= j < i ==> versions[j].number != number
  }

  predicate Numbered<V>(versions: seq<Version<V>>, number: int) {
    exists i :: 0 <= i < |versions| && versions[i].number == number
  }

  /** The first version with the number, or the error when there is none. */
  method FindVersion<V(==)>(versions: seq<Version<V>>, number: int) returns (r: Result<Version<V>, VersionError>)
    ensures r.Ok? <==> Numbered(versions, number)
    ensures r.Ok? ==> FirstWith(versions, number, r.value)
  {
    for i := 0 to |versions|
      invariant forall j :: 0 <= j < i ==> versions[j].number != number
    {
      if versions[i].number == number {
        return Ok(versions[i]);
      }
    }
    return Err(VersionNotFound);
  }

  /** The first of the versions with the greatest number. */
  function GetLatestVersion<V>(versions: seq<Version<V>>): (r: Option<Version<V>>)
    ensures r.None? <==> versions == []
    ensures r.Some? ==> exists i ::
      && 0 <= i < |versions| && versions[i] == r.value
      && (forall j :: 0 <= j < i ==> versions[j].number < r.value.number)
      && (forall j :: i <= j < |versions| ==> versions[j].number <= r.value.number)
    decreases |versions|
  {
    if versions == [] then None
    else
      var rest := GetLatestVersion(versions[1..]);
      assert forall j :: 1 <= j < |versions| ==> versions[j] == versions[1..][j - 1];
      if rest.Some? && versions[0].number < rest.value.number then rest else Some(versions[0])
  }

  /** There is nothing before version 1, whatever the list holds. */
  method GetPreviousVersion<V(==)>(versions: seq<Version<V>>, current: int)
    returns (r: Result<Version<V>, VersionError>)
    ensures r.Ok? <==> current > 1 && Numbered(versions, current - 1)
    ensures r.Ok? ==> FirstWith(versions, current - 1, r.value)
  {
    if current <= 1 {
      return Err(VersionNotFound);
    }
    r := FindVersion(versions, current - 1);
  }

  method RollbackTo<V(==)>(versions: seq<Version<V>>, target: int) returns (r: Result<Version<V>, VersionError>)
    ensures r.Ok? <==> Numbered(versions, target)
    ensures r.Ok? ==> FirstWith(versions, target, r.value)
  {
    r := FindVersion(versions, target);
  }
}
