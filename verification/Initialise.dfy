/**
 pkg/clients/clientutil.Initialize: pairs of a detector and a remediator, run in the order
 given. A detector follows pointers from the root of a nested optional structure down to its
 level; if the level is missing, its remediator allocates it.
 */
module Initialise {

  /** One struct on the way down: its other fields, and the pointer to the next. */
  class Level {
    var rest: seq<string>
    var inner: Level?

    constructor ()
      ensures rest == [] && inner == null
    {
      rest, inner := [], null;
    }
  }

  /** All the levels there are, from the root down. */
  ghost predicate IsPath(path: seq<Level>, root: Level)
    reads path
  {
    path != [] && path[0] == root && path[|path| - 1].inner == null &&
    forall i :: 0 <= i < |path| - 1 ==> path[i].inner == path[i + 1]
  }

  // ---------------------------------------------------------------- which orders are safe

  /** With `present` levels below the root, every detector finds the levels above its own. */
  predicate Safe(order: seq<nat>, present: nat) {
    order != [] ==> order[0] <= present && Safe(order[1..], if order[0] == present then present + 1 else present)
  }

  function Present(order: seq<nat>, present: nat): nat {
    if order == [] then present else Present(order[1..], if order[0] == present then present + 1 else present)
  }

  function UpFrom(k: nat, n: nat): (s: seq<nat>)
    requires k <= n
    ensures |s| == n - k && forall i :: 0 <= i < n - k ==> s[i] == k + i
  {
    seq(n - k, i requires 0 <= i => k + i)
  }

  lemma {:induction false} InOrderFrom(k: nat, n: nat, present: nat)
    requires k <= n && k <= present
    ensures Safe(UpFrom(k, n), present)
    ensures Present(UpFrom(k, n), present) == if n <= present then present else n
    decreases n - k
  {
    if k < n {
      assert UpFrom(k, n)[1..] == UpFrom(k + 1, n);
      InOrderFrom(k + 1, n, if k == present then present + 1 else present);
    }
  }

  /** Index order works whatever is there already, and ends with every level present. */
  lemma InOrder(n: nat, present: nat)
    ensures Safe(UpFrom(0, n), present)
    ensures Present(UpFrom(0, n), present) == if n <= present then present else n
  {
    InOrderFrom(0, n, present);
  }

  ghost predicate AlwaysSafe(order: seq<nat>) {
    forall present: nat :: Safe(order, present)
  }

  predicate IsArrangement(order: seq<nat>) {
    (forall i :: 0 <= i < |order| ==> order[i] < |order|) &&
    forall i, j :: 0 <= i < j < |order| ==> order[i] != order[j]
  }

  lemma {:induction false} SafeForcesOrder(order: seq<nat>, k: nat)
    requires k <= |order| && IsArrangement(order) && order[..k] == UpFrom(0, k) && Safe(order[k..], k)
    ensures order == UpFrom(0, |order|)
    decreases |order| - k
  {
    if k < |order| {
      forall i | 0 <= i < k
        ensures order[i] == i
      {
        assert order[..k][i] == i;
      }
      var j := if order[k] < k then order[k] else k;
      assert order[j] == order[k] && j == k;
      assert order[..k + 1] == order[..k] + [order[k]] == UpFrom(0, k + 1);
      assert order[k..][1..] == order[k + 1..];
      SafeForcesOrder(order, k + 1);
    }
  }

  /** Of all the ways to arrange the pairs, index order is the only one that is always safe. */
  lemma SafeOrderIff(order: seq<nat>)
    requires IsArrangement(order)
    ensures AlwaysSafe(order) <==> order == UpFrom(0, |order|)
  {
    if order == UpFrom(0, |order|) {
      forall present: nat
        ensures Safe(order, present)
      {
        InOrder(|order|, present);
      }
    }
    if AlwaysSafe(order) {
      assert Safe(order, 0) && order[0..] == order;
      SafeForcesOrder(order, 0);
    }
  }

  // ---------------------------------------------------------------- on the heap

  /** The pointer chain of one closure: `holder` is the struct that holds the pointer looked at. */
  method Follow(root: Level, level: nat, ghost path: seq<Level>) returns (holder: Level)
    requires IsPath(path, root) && level < |path|
    ensures holder == path[level]
  {
    holder := root;
    for i := 0 to level
      invariant holder == path[i]
    {
      assert path[i].inner == path[i + 1];
      holder := holder.inner;
    }
  }

  /** One pair: if the level is missing, it is added at the end of the path. */
  method Remedy(root: Level, level: nat, ghost path: seq<Level>) returns (ghost path': seq<Level>)
    requires IsPath(path, root) && level < |path|
    modifies path[|path| - 1]
    ensures path[|path| - 1].rest == old(path[|path| - 1].rest)
    ensures IsPath(path', root)
    ensures level < |path| - 1 ==> path' == path
    ensures level == |path| - 1 ==>
              |path'| == |path| + 1 && path == path'[..|path|] &&
              fresh(path'[|path|]) && path'[|path|].rest == []
    ensures path' == path ==> path[|path| - 1].inner == old(path[|path| - 1].inner)
  {
    path' := path;
    var holder := Follow(root, level, path);
    assert level < |path| - 1 ==> path[level].inner == path[level + 1];
    if holder.inner == null {
      var added := new Level();
      holder.inner := added;
      path' := path + [added];
    }
  }

  /**
   Never follows a missing level, changes one pointer of what was there at most, and
   everything it adds is empty.
   */
  method Initialize(root: Level, order: seq<nat>, ghost path: seq<Level>) returns (ghost path': seq<Level>)
    requires IsPath(path, root) && Safe(order, |path| - 1)
    modifies path[|path| - 1]
    ensures path[|path| - 1].rest == old(path[|path| - 1].rest)
    ensures IsPath(path', root) && path <= path' && |path'| - 1 == Present(order, |path| - 1)
    ensures forall k :: |path| <= k < |path'| ==> fresh(path'[k]) && path'[k].rest == []
  {
    path' := path;
    var idx := 0;
    while idx < |order|
      invariant 0 <= idx <= |order|
      invariant IsPath(path', root) && path <= path'
      invariant path[|path| - 1].rest == old(path[|path| - 1].rest)
      invariant Safe(order[idx..], |path'| - 1)
      invariant Present(order[idx..], |path'| - 1) == Present(order, |path| - 1)
      invariant forall k :: |path| <= k < |path'| ==> fresh(path'[k]) && path'[k].rest == []
    {
      assert order[idx..][0] == order[idx] && order[idx..][1..] == order[idx + 1..];
      path' := Remedy(root, order[idx], path');
      idx := idx + 1;
    }
  }

  /** The callers' use: one pair per level, outermost first, from any state of the structure. */
  method InitializeAll(root: Level, depth: nat, ghost path: seq<Level>) returns (ghost path': seq<Level>)
    requires IsPath(path, root)
    modifies path[|path| - 1]
    ensures path[|path| - 1].rest == old(path[|path| - 1].rest)
    ensures IsPath(path', root) && path <= path'
    ensures depth < |path'| && (depth < |path| ==> path' == path)
    ensures forall k :: |path| <= k < |path'| ==> fresh(path'[k]) && path'[k].rest == []
  {
    InOrder(depth, |path| - 1);
    path' := Initialize(root, UpFrom(0, depth), path);
  }
}
