/**
 The dual of no-orphan: no DELETE ever hits the resource of an object that is still declared, not
 even when the cache shows an earlier object of the same name that was being deleted.
 */
module Deletions {
  import opened Wrappers
  import opened Protocol
  import opened Safety

  /** What is deployed, or about to be, is owned in every version still to come. */
  ghost predicate AllOwned<L(!new), R(!new)>(w: World<L, R>) {
    forall i :: 0 <= i < |Versions(w)| ==> Owned(Versions(w)[i])
  }

  /** A deletion is not taken back: the next version, if there is an object, is marked as well. */
  ghost predicate DeletionStays<L(!new), R(!new)>(w: World<L, R>) {
    forall i :: 0 <= i < |Versions(w)| - 1 ==>
      Versions(w)[i].Some? && Versions(w)[i].value.deleting && Versions(w)[i + 1].Some? ==>
        Versions(w)[i + 1].value.deleting
  }

  ghost predicate AllDeleting<L(!new), R(!new)>(w: World<L, R>) {
    forall i :: 0 <= i < |Versions(w)| ==> Versions(w)[i].Some? && Versions(w)[i].value.deleting
  }

  /** The worker holds a copy that is marked for deletion. */
  predicate HoldsDeleting<L, R>(pc: Pc<L, R>) {
    match pc
    case Fetched(l) => l.deleting
    case Deleting(_) => true
    case Polling(_) => true
    case Deleted(_, _, _) => true
    case Releasing(_) => true
    case _ => false
  }

  predicate HoldsLive<L, R>(pc: Pc<L, R>) {
    match pc
    case Fetched(l) => Live(Some(l))
    case Ensuring(_) => true
    case Putting(_, _) => true
    case _ => false
  }

  ghost predicate Careful<L(!new), R(!new)>(w: World<L, R>) {
    (w.remote.Present? || HoldsLive(w.pc) ==> AllOwned(w)) && DeletionStays(w) &&
    (w.remote.Present? && HoldsDeleting(w.pc) ==> AllDeleting(w))
  }

  // ---------------------------------------------------------------- every step keeps it

  /** A stored object stays owned until the release, and a deletion mark is for good. */
  lemma StepMovesStore<L(!new), R(!new)>(c: Client<L, R>, w: World<L, R>, a: Action<L>)
    requires Safe(w) && Enabled(c, w, a)
    ensures var o, o' := Store(w), Store(Step(c, w, a));
            (Owned(o) && !a.Release? ==> Owned(o')) &&
            (o.Some? && o.value.deleting && o'.Some? ==> o'.value.deleting)
  {
    if Owned(Store(w)) && !Owned(Store(Step(c, w, a))) {
      OnlyReleaseDrops(c, w, a);
    }
  }

  /** Who deploys, or fetches to deploy, does so for versions that are all owned. */
  lemma WasOwned<L(!new), R(!new)>(c: Client<L, R>, w: World<L, R>, a: Action<L>)
    requires Safe(w) && Careful(w) && Enabled(c, w, a)
    requires c.sync ==> c.honestDelete
    requires Step(c, w, a).remote.Present? || HoldsLive(Step(c, w, a).pc)
    ensures AllOwned(w) && !a.Release?
  {
    if a.Fetch? {
      assert Versions(w)[0] == w.cache;
    }
  }

  lemma StepKeepsAllOwned<L(!new), R(!new)>(c: Client<L, R>, w: World<L, R>, a: Action<L>)
    requires Safe(w) && Careful(w) && Enabled(c, w, a)
    requires c.sync ==> c.honestDelete
    requires Step(c, w, a).remote.Present? || HoldsLive(Step(c, w, a).pc)
    ensures AllOwned(Step(c, w, a))
  {
    WasOwned(c, w, a);
    StepMovesVersions(c, w, a);
    StepMovesStore(c, w, a);
  }

  lemma VersionsKeepDeletion<L(!new), R(!new)>(w: World<L, R>, w': World<L, R>)
    requires DeletionStays(w) && Versions(w)[|Versions(w)| - 1] == Store(w)
    requires var vs := Versions(w);
             Versions(w') == vs || Versions(w') == vs[1..] || Versions(w') == vs + [Store(w')]
    requires Store(w).Some? && Store(w).value.deleting && Store(w').Some? ==> Store(w').value.deleting
    ensures DeletionStays(w')
  {
  }

  lemma StepKeepsDeletionStays<L(!new), R(!new)>(c: Client<L, R>, w: World<L, R>, a: Action<L>)
    requires Safe(w) && Careful(w) && Enabled(c, w, a)
    ensures DeletionStays(Step(c, w, a))
  {
    StepMovesVersions(c, w, a);
    StepMovesStore(c, w, a);
    VersionsKeepDeletion(w, Step(c, w, a));
  }

  /** If every version is there and the first is marked, then so are all. */
  lemma {:induction false} MarkSpreads<L(!new), R(!new)>(w: World<L, R>, i: nat)
    requires DeletionStays(w) && AllOwned(w) && i < |Versions(w)|
    requires w.cache.Some? && w.cache.value.deleting
    ensures Versions(w)[i].Some? && Versions(w)[i].value.deleting
  {
    if i == 0 {
    } else {
      MarkSpreads(w, i - 1);
      assert Versions(w)[i - 1 + 1] == Versions(w)[i];
    }
  }

  /** Who holds a marked copy while the resource is deployed did so before, or fetched it now. */
  lemma WasDeleting<L(!new), R(!new)>(c: Client<L, R>, w: World<L, R>, a: Action<L>)
    requires Enabled(c, w, a)
    requires Step(c, w, a).remote.Present? && HoldsDeleting(Step(c, w, a).pc)
    ensures w.remote.Present?
    ensures HoldsDeleting(w.pc) ||
            (a.Fetch? && w.cache.Some? && w.cache.value.deleting && Versions(Step(c, w, a)) == Versions(w))
  {
  }

  lemma StepKeepsAllDeleting<L(!new), R(!new)>(c: Client<L, R>, w: World<L, R>, a: Action<L>)
    requires Safe(w) && Careful(w) && Enabled(c, w, a)
    requires c.sync ==> c.honestDelete
    requires Step(c, w, a).remote.Present? && HoldsDeleting(Step(c, w, a).pc)
    ensures AllDeleting(Step(c, w, a))
  {
    WasDeleting(c, w, a);
    if HoldsDeleting(w.pc) {
      StepMovesVersions(c, w, a);
      StepMovesStore(c, w, a);
      StepKeepsAllOwned(c, w, a);
    } else {
      forall i | 0 <= i < |Versions(w)|
        ensures Versions(w)[i].Some? && Versions(w)[i].value.deleting
      {
        MarkSpreads(w, i);
      }
    }
  }

  lemma StepKeepsCareful<L(!new), R(!new)>(c: Client<L, R>, w: World<L, R>, a: Action<L>)
    requires Safe(w) && Careful(w) && Enabled(c, w, a)
    requires c.sync ==> c.honestDelete
    ensures Careful(Step(c, w, a))
  {
    var w' := Step(c, w, a);
    if w'.remote.Present? || HoldsLive(w'.pc) {
      StepKeepsAllOwned(c, w, a);
    }
    StepKeepsDeletionStays(c, w, a);
    if w'.remote.Present? && HoldsDeleting(w'.pc) {
      StepKeepsAllDeleting(c, w, a);
    }
  }

  lemma {:induction false} RunIsCareful<L(!new), R(!new)>(
      c: Client<L, R>, tr: seq<World<L, R>>, acts: seq<Action<L>>, i: nat)
    requires Run(c, tr, acts) && Initial(tr[0]) && i < |tr|
    requires c.sync ==> c.honestDelete
    ensures Safe(tr[i]) && Careful(tr[i])
  {
    RunIsSafe(c, tr, acts, i);
    if i == 0 {
    } else {
      RunIsCareful(c, tr, acts, i - 1);
      assert Taken(c, tr, acts, i - 1);
      StepKeepsCareful(c, tr[i - 1], acts[i - 1]);
    }
  }

  /**
   No DELETE for a declared resource: in every interleaving, with any calls failing and whatever
   version the cache showed, a DELETE that finds the resource finds its object stored, still
   with our finalizer, and marked for deletion.
   */
  lemma DeletesOnlyMarked<L(!new), R(!new)>(c: Client<L, R>, tr: seq<World<L, R>>, acts: seq<Action<L>>, i: nat)
    requires Run(c, tr, acts) && Initial(tr[0]) && i < |acts|
    requires c.sync ==> c.honestDelete
    requires (acts[i].Remove? || acts[i].RemoveSync?) && tr[i].remote.Present?
    ensures Owned(Store(tr[i])) && Store(tr[i]).value.deleting
  {
    RunIsCareful(c, tr, acts, i);
    assert Taken(c, tr, acts, i);
    var vs := Versions(tr[i]);
    assert vs[|vs| - 1] == Store(tr[i]);
  }
}
