/** controllers/helpers.go: the finalizer list of an object, as a list without a set discipline. */
module Finalizers {

  const FINALIZER: string := "azure.alexeldeib.xyz/finalizer"

  /** `fs` with every occurrence of `f` dropped, the others in their order. */
  function Without(fs: seq<string>, f: string): (r: seq<string>)
    ensures f !in r
  {
    if fs == [] then []
    else if fs[0] == f then Without(fs[1..], f)
    else [fs[0]] + Without(fs[1..], f)
  }

  /** `fs` with `f` appended unless it is already there. */
  function With(fs: seq<string>, f: string): (r: seq<string>)
    ensures f in r && fs <= r && (f in fs ==> r == fs) && |r| <= |fs| + 1
  {
    if f in fs then fs else fs + [f]
  }

  lemma {:induction false} WithoutConcat(xs: seq<string>, ys: seq<string>, f: string)
    ensures Without(xs + ys, f) == Without(xs, f) + Without(ys, f)
  {
    if xs == [] {
      assert xs + ys == ys;
    } else {
      assert (xs + ys)[1..] == xs[1..] + ys;
      WithoutConcat(xs[1..], ys, f);
    }
  }

  /** Dropping an absent finalizer changes nothing. */
  lemma {:induction false} WithoutAbsent(fs: seq<string>, f: string)
    requires f !in fs
    ensures Without(fs, f) == fs
  {
    if fs == [] {
    } else {
      WithoutAbsent(fs[1..], f);
    }
  }

  /** Every other finalizer survives a removal, with its multiplicity. */
  lemma {:induction false} WithoutKeepsOthers(fs: seq<string>, f: string)
    ensures multiset(Without(fs, f)) == multiset(fs)[f := 0]
  {
    if fs == [] {
    } else {
      assert fs == [fs[0]] + fs[1..];
      WithoutKeepsOthers(fs[1..], f);
    }
  }

  /** Adding then removing cancels out, whether or not the finalizer was there. */
  lemma AddThenRemove(fs: seq<string>, f: string)
    ensures Without(With(fs, f), f) == Without(fs, f)
    ensures f !in fs ==> Without(With(fs, f), f) == fs
  {
    if f !in fs {
      WithoutConcat(fs, [f], f);
      WithoutAbsent(fs, f);
    }
  }

  method RemoveString(slice: seq<string>, s: string) returns (kept: seq<string>)
    ensures kept == Without(slice, s)
    ensures multiset(kept) == multiset(slice)[s := 0]
  {
    kept := [];
    var i := 0;
    while i < |slice|
      invariant 0 <= i <= |slice|
      invariant kept == Without(slice[..i], s)
    {
      assert slice[..i + 1] == slice[..i] + [slice[i]];
      WithoutConcat(slice[..i], [slice[i]], s);
      if slice[i] != s {
        kept := kept + [slice[i]];
      }
      i := i + 1;
    }
    assert slice[..i] == slice;
    WithoutKeepsOthers(slice, s);
  }

  /** The part of an object's metadata that the helpers read and write. */
  class ObjectMeta {
    var finalizers: seq<string>

    constructor (fs: seq<string>)
      ensures finalizers == fs
    {
      finalizers := fs;
    }

    method HasFinalizer(f: string) returns (has: bool)
      ensures has <==> f in finalizers
    {
      var i := 0;
      while i < |finalizers|
        invariant 0 <= i <= |finalizers|
        invariant f !in finalizers[..i]
      {
        if finalizers[i] == f {
          return true;
        }
        i := i + 1;
      }
      return false;
    }

    method AddFinalizer(f: string)
      modifies this
      ensures finalizers == With(old(finalizers), f)
    {
      var has := HasFinalizer(f);
      if !has {
        finalizers := finalizers + [f];
      }
    }

    method RemoveFinalizer(f: string)
      modifies this
      ensures finalizers == Without(old(finalizers), f)
    {
      finalizers := RemoveString(finalizers, f);
    }
  }
}
