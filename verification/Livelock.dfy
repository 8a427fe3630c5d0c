/**
 What never converges: a declaration that no write can satisfy, and a resource that is parked. Both
 hold from the moment the object is stored, with or without the finalizer, and in the middle of a pass.
 */
module Livelock {
  import opened Wrappers
  import opened Protocol
  import opened Safety
  import opened Progress
  import opened Deletions
  import opened Convergence

  // ---------------------------------------------------------------- one declaration in play

  /** A copy in hand that may still be deployed, or stored, declares `spec`. */
  predicate CopyFor<L(==), R>(pc: Pc<L, R>, spec: L) {
    match pc
    case Fetched(l) => l.deleting || l.spec == spec
    case Adding(l) => l.spec == spec
    case Ensuring(l) => l.spec == spec
    case Putting(l, _) => l.spec == spec
    case _ => true
  }

  ghost predicate OnlyDeclares<L(!new), R(!new)>(w: World<L, R>, spec: L) {
    forall i :: 0 <= i < |Versions(w)| && Declares(Versions(w)[i]) ==> Versions(w)[i].value.spec == spec
  }

  ghost predicate Stores<L(!new), R(!new)>(w: World<L, R>, spec: L) {
    Declares(Store(w)) && Store(w).value.spec == spec
  }

  /** The stored object declares `spec` and no other declaration is in play. */
  ghost predicate Pinned<L(!new), R(!new)>(w: World<L, R>, spec: L) {
    Stores(w, spec) && CopyFor(w.pc, spec) && OnlyDeclares(w, spec)
  }

  /** In a calm that lets no pass begin over a lagging cache, only a pass about to fetch may see other versions. */
  ghost predicate ActsFor<L(!new), R(!new)>(calm: Calm, w: World<L, R>, spec: L) {
    Stores(w, spec) && CopyFor(w.pc, spec) && (calm.lagging || w.pc.Fetching? ==> OnlyDeclares(w, spec))
  }

  /** A declared, deployed resource is not in the hands of a deletion. */
  lemma NotBeingDeleted<L(!new), R(!new)>(w: World<L, R>)
    requires Careful(w) && Declares(Store(w)) && w.remote.Present?
    ensures !HoldsDeleting(w.pc)
  {
    assert Versions(w)[|Versions(w)| - 1] == Store(w);
  }

  /** No step but a user's changes what the stored object declares. */
  lemma StepKeepsStores<L(!new), R(!new)>(c: Client<L, R>, w: World<L, R>, a: Action<L>, spec: L)
    requires Safe(w) && Stores(w, spec) && Enabled(c, w, a) && !ByUser(a)
    ensures Stores(Step(c, w, a), spec)
  {
    if ByWorker(a) {
      WorkerWritesOnlyItsOwn(c, w, a);
    } else if a.Deliver? {
      assert Store(Step(c, w, a)) == Store(w);
    }
  }

  lemma StepKeepsCopyFor<L(!new), R(!new)>(c: Client<L, R>, w: World<L, R>, a: Action<L>, spec: L)
    requires CopyFor(w.pc, spec) && Enabled(c, w, a)
    requires w.pc.Fetching? && Declares(w.cache) ==> w.cache.value.spec == spec
    ensures CopyFor(Step(c, w, a).pc, spec)
  {
  }

  lemma StepKeepsPinned<L(!new), R(!new)>(c: Client<L, R>, w: World<L, R>, a: Action<L>, spec: L)
    requires Safe(w) && Pinned(w, spec) && Enabled(c, w, a) && !ByUser(a)
    ensures Pinned(Step(c, w, a), spec)
  {
    assert Versions(w)[0] == w.cache;
    StepMovesVersions(c, w, a);
    StepKeepsStores(c, w, a, spec);
    StepKeepsCopyFor(c, w, a, spec);
  }

  lemma VersionsKeepSpec<L(!new), R(!new)>(w: World<L, R>, w': World<L, R>, spec: L)
    requires OnlyDeclares(w, spec) || w.backlog == []
    requires Stores(w, spec) && Stores(w', spec) && Versions(w)[|Versions(w)| - 1] == Store(w)
    requires var vs := Versions(w);
             Versions(w') == vs || Versions(w') == vs[1..] || Versions(w') == vs + [Store(w')]
    ensures OnlyDeclares(w', spec)
  {
  }

  lemma QuietKeepsCopyFor<L(!new), R(!new)>(c: Client<L, R>, calm: Calm, w: World<L, R>, a: Action<L>, spec: L)
    requires ActsFor(calm, w, spec) && Quiet(c, calm, w, a)
    ensures CopyFor(QuietStep(c, calm, w, a).pc, spec)
  {
    if a.Begin? {
      assert QuietStep(c, calm, w, a).pc.Fetching?;
    } else {
      assert Versions(w)[0] == w.cache;
      StepKeepsCopyFor(c, w, a, spec);
    }
  }

  lemma QuietKeepsActsFor<L(!new), R(!new)>(c: Client<L, R>, calm: Calm, w: World<L, R>, a: Action<L>, spec: L)
    requires !c.sync && Safe(w) && ActsFor(calm, w, spec) && Quiet(c, calm, w, a)
    ensures ActsFor(calm, QuietStep(c, calm, w, a), spec)
  {
    var w' := QuietStep(c, calm, w, a);
    QuietKeepsDeclaration(c, calm, w, a);
    QuietKeepsCopyFor(c, calm, w, a, spec);
    if calm.lagging || w'.pc.Fetching? {
      QuietMovesVersions(c, calm, w, a);
      VersionsKeepSpec(w, w', spec);
    }
  }

  // ---------------------------------------------------------------- hopeless declarations

  predicate Leaving<R>(r: Remote<R>) {
    r.Present? && (r.phase.Removing? || r.phase.Failed?)
  }

  predicate Stable<R>(r: Remote<R>) {
    r.Present? && !r.phase.Removing?
  }

  /**
   The deployed body lies in `stuck`, and a write that is under way keeps it there. If the
   resource may be `gone`, then a first write leads into `stuck` as well, and a body may lie
   elsewhere only while it is being removed or after its removal has failed.
   */
  ghost predicate BodyIn<L(!new), R(!new)>(c: Client<L, R>, w: World<L, R>, spec: L, stuck: iset<R>, gone: bool) {
    (w.remote.Present? && !(gone && Leaving(w.remote)) ==> w.remote.body in stuck) &&
    (w.pc.Putting? && w.pc.prior.Some? ==> w.pc.prior.value in stuck) &&
    if gone then c.overlay(None, spec) in stuck else Stable(w.remote) && (w.pc.Putting? ==> w.pc.prior.Some?)
  }

  /** Every body in `stuck` asks for an update, and an update leads back into `stuck`. */
  ghost predicate Hopeless<L(!new), R(!new)>(c: Client<L, R>, spec: L, stuck: iset<R>) {
    forall b {:trigger c.needsUpdate(b, spec)} {:trigger c.overlay(Some(b), spec)} ::
      b in stuck ==> c.needsUpdate(b, spec) && c.overlay(Some(b), spec) in stuck
  }

  lemma StepKeepsStuck<L(!new), R(!new)>(
      c: Client<L, R>, w: World<L, R>, a: Action<L>, spec: L, stuck: iset<R>, gone: bool)
    requires Enabled(c, w, a) && !c.sync && Hopeless(c, spec, stuck)
    requires CopyFor(w.pc, spec) && BodyIn(c, w, spec, stuck, gone)
    requires w.remote.Present? ==> !HoldsDeleting(w.pc)
    ensures BodyIn(c, Step(c, w, a), spec, stuck, gone)
  {
    if w.pc.Putting? {
      assert w.pc.prior == None || w.pc.prior == Some(w.pc.prior.value);
    }
  }

  lemma PinnedStaysStuck<L(!new), R(!new)>(
      c: Client<L, R>, w: World<L, R>, a: Action<L>, spec: L, stuck: iset<R>, gone: bool)
    requires Safe(w) && Careful(w) && Enabled(c, w, a) && !ByUser(a)
    requires !c.sync && Hopeless(c, spec, stuck)
    requires Pinned(w, spec) && BodyIn(c, w, spec, stuck, gone)
    ensures Pinned(Step(c, w, a), spec) && BodyIn(c, Step(c, w, a), spec, stuck, gone)
  {
    if w.remote.Present? {
      NotBeingDeleted(w);
    }
    StepKeepsPinned(c, w, a, spec);
    StepKeepsStuck(c, w, a, spec, stuck, gone);
  }

  lemma {:induction false} StaysStuck<L(!new), R(!new)>(
      c: Client<L, R>, tr: seq<World<L, R>>, acts: seq<Action<L>>, i: nat, k: nat,
      spec: L, stuck: iset<R>, gone: bool)
    requires Run(c, tr, acts) && Initial(tr[0]) && i <= k < |tr|
    requires !c.sync && Hopeless(c, spec, stuck)
    requires Pinned(tr[i], spec) && BodyIn(c, tr[i], spec, stuck, gone)
    requires forall j :: i <= j < k ==> !ByUser(acts[j])
    ensures Pinned(tr[k], spec) && BodyIn(c, tr[k], spec, stuck, gone)
    decreases k
  {
    if i == k {
    } else {
      StaysStuck(c, tr, acts, i, k - 1, spec, stuck, gone);
      RunIsCareful(c, tr, acts, k - 1);
      var w, a := tr[k - 1], acts[k - 1];
      assert Taken(c, tr, acts, k - 1);
      PinnedStaysStuck(c, w, a, spec, stuck, gone);
    }
  }

  /**
   Livelock: as long as nobody changes the declaration, a resource whose body is hopeless for
   it is never settled and the controller never comes to rest.
   */
  lemma HopelessNeverSettles<L(!new), R(!new)>(
      c: Client<L, R>, tr: seq<World<L, R>>, acts: seq<Action<L>>, i: nat, k: nat,
      spec: L, stuck: iset<R>, gone: bool)
    requires Run(c, tr, acts) && Initial(tr[0]) && i <= k < |tr|
    requires !c.sync && Hopeless(c, spec, stuck)
    requires Pinned(tr[i], spec) && BodyIn(c, tr[i], spec, stuck, gone)
    requires forall j :: i <= j < k ==> !ByUser(acts[j])
    ensures !Settled(c, Store(tr[k]), tr[k].remote) && !Quiescent(tr[k])
    ensures BodyIn(c, tr[k], spec, stuck, gone)
  {
    StaysStuck(c, tr, acts, i, k, spec, stuck, gone);
    RunIsWorking(c, tr, acts, k);
  }

  lemma QuietKeepsStuck<L(!new), R(!new)>(
      c: Client<L, R>, calm: Calm, w: World<L, R>, a: Action<L>, spec: L, stuck: iset<R>, gone: bool)
    requires !c.sync && Safe(w) && Careful(w) && Quiet(c, calm, w, a) && Hopeless(c, spec, stuck)
    requires ActsFor(calm, w, spec) && BodyIn(c, w, spec, stuck, gone)
    ensures ActsFor(calm, QuietStep(c, calm, w, a), spec) && BodyIn(c, QuietStep(c, calm, w, a), spec, stuck, gone)
  {
    QuietKeepsActsFor(c, calm, w, a, spec);
    if w.remote.Present? {
      NotBeingDeleted(w);
    }
    if !a.Begin? {
      StepKeepsStuck(c, w, a, spec, stuck, gone);
    } else if Busy(w.remote) {
      StepKeepsStuck(c, w, Tick(false), spec, stuck, gone);
    }
  }

  lemma {:induction false} QuietRunStaysStuck<L(!new), R(!new)>(
      c: Client<L, R>, calm: Calm, tr: seq<World<L, R>>, acts: seq<Action<L>>,
      rest: seq<World<L, R>>, quiet: seq<Action<L>>, k: nat, spec: L, stuck: iset<R>, gone: bool)
    requires Run(c, tr, acts) && Initial(tr[0]) && !c.sync && Hopeless(c, spec, stuck)
    requires QuietRun(c, calm, rest, quiet) && rest[0] == tr[|acts|] && k <= |quiet|
    requires ActsFor(calm, rest[0], spec) && BodyIn(c, rest[0], spec, stuck, gone)
    ensures ActsFor(calm, rest[k], spec) && BodyIn(c, rest[k], spec, stuck, gone)
  {
    if k == 0 {
    } else {
      QuietRunStaysStuck(c, calm, tr, acts, rest, quiet, k - 1, spec, stuck, gone);
      var tr', acts' := ContinueQuietly(c, calm, tr, acts, rest, quiet, k - 1);
      RunIsCareful(c, tr', acts', |acts'|);
      var w, a := rest[k - 1], quiet[k - 1];
      assert QuietlyTaken(c, calm, rest, quiet, k - 1);
      QuietKeepsStuck(c, calm, w, a, spec, stuck, gone);
    }
  }

  /** Not even edits and failures ceasing helps. */
  lemma HopelessNeverConverges<L(!new), R(!new)>(
      c: Client<L, R>, calm: Calm, tr: seq<World<L, R>>, acts: seq<Action<L>>, spec: L, stuck: iset<R>, gone: bool)
    requires Run(c, tr, acts) && Initial(tr[0]) && !c.sync && Hopeless(c, spec, stuck)
    requires ActsFor(calm, tr[|acts|], spec) && BodyIn(c, tr[|acts|], spec, stuck, gone)
    ensures !Converges(c, calm, tr[|acts|])
  {
    forall rest, quiet | QuietRun(c, calm, rest, quiet) && rest[0] == tr[|acts|]
      ensures !RestsWell(c, tr[|acts|], rest[|quiet|])
    {
      QuietRunStaysStuck(c, calm, tr, acts, rest, quiet, |quiet|, spec, stuck, gone);
    }
  }

  // ---------------------------------------------------------------- parked resources

  /** The resource of a declared object is in a state that is neither Succeeded nor in progress. */
  predicate Parked<L, R>(w: World<L, R>) {
    Declares(Store(w)) && w.remote.Present? && w.remote.phase.Failed?
  }

  lemma ParkedByLast<L(!new), R(!new)>(c: Client<L, R>, tr: seq<World<L, R>>, acts: seq<Action<L>>, k: nat)
    requires Run(c, tr, acts) && Initial(tr[0]) && k < |acts| && !ByUser(acts[k])
    requires !c.sync && Parked(tr[k])
    ensures Parked(tr[k + 1]) && tr[k + 1].remote == tr[k].remote && !acts[k].Put?
    ensures acts[k] == Look(true) ==> tr[k + 1].pc.Ensured? && !tr[k + 1].pc.done && !tr[k + 1].pc.failed
  {
    var w, a := tr[k], acts[k];
    assert Taken(c, tr, acts, k);
    RunIsCareful(c, tr, acts, k);
    RunIsWorking(c, tr, acts, k);
    NotBeingDeleted(w);
    StepKeepsStores(c, w, a, Store(w).value.spec);
  }

  lemma {:induction false} StaysParked<L(!new), R(!new)>(
      c: Client<L, R>, tr: seq<World<L, R>>, acts: seq<Action<L>>, i: nat, k: nat)
    requires Run(c, tr, acts) && Initial(tr[0]) && i <= k < |tr|
    requires !c.sync && Parked(tr[i])
    requires forall j :: i <= j < k ==> !ByUser(acts[j])
    ensures Parked(tr[k]) && tr[k].remote == tr[i].remote
    decreases k
  {
    if i == k {
    } else {
      StaysParked(c, tr, acts, i, k - 1);
      ParkedByLast(c, tr, acts, k - 1);
    }
  }

  /**
   A parked resource is never written again while its object stays declared, whatever the object
   declares: every look at it answers (false, nil), and the controller never comes to rest.
   */
  lemma ParkedForever<L(!new), R(!new)>(
      c: Client<L, R>, tr: seq<World<L, R>>, acts: seq<Action<L>>, i: nat, k: nat)
    requires Run(c, tr, acts) && Initial(tr[0]) && i <= k < |tr|
    requires !c.sync && Parked(tr[i])
    requires forall j :: i <= j < k ==> !ByUser(acts[j])
    ensures Parked(tr[k]) && tr[k].remote == tr[i].remote && !Quiescent(tr[k])
    ensures k < |acts| && !ByUser(acts[k]) ==> !acts[k].Put?
    ensures k < |acts| && acts[k] == Look(true) ==>
              tr[k + 1].pc.Ensured? && !tr[k + 1].pc.done && !tr[k + 1].pc.failed
  {
    StaysParked(c, tr, acts, i, k);
    RunIsWorking(c, tr, acts, k);
    if k < |acts| && !ByUser(acts[k]) {
      ParkedByLast(c, tr, acts, k);
    }
  }

  lemma ParkedNeverConverges<L(!new), R(!new)>(
      c: Client<L, R>, calm: Calm, tr: seq<World<L, R>>, acts: seq<Action<L>>)
    requires Run(c, tr, acts) && Initial(tr[0]) && !c.sync && Parked(tr[|acts|])
    ensures !Converges(c, calm, tr[|acts|])
  {
    forall rest, quiet | QuietRun(c, calm, rest, quiet) && rest[0] == tr[|acts|]
      ensures !RestsWell(c, tr[|acts|], rest[|quiet|])
    {
      var tr', acts' := ContinueQuietly(c, calm, tr, acts, rest, quiet, |quiet|);
      ParkedForever(c, tr', acts', |acts|, |acts'|);
    }
  }

  /** For a client that one accepted write satisfies, being parked is the only obstacle. */
  lemma ConvergesIff<L(!new), R(!new)>(c: Client<L, R>, calm: Calm, tr: seq<World<L, R>>, acts: seq<Action<L>>)
    requires Run(c, tr, acts) && Initial(tr[0]) && AlwaysRepairs(c)
    requires var r := tr[|acts|].remote; Busy(r) ==> r.ticks <= calm.ticks
    ensures Converges(c, calm, tr[|acts|]) <==> !Parked(tr[|acts|])
  {
    if Parked(tr[|acts|]) {
      ParkedNeverConverges(c, calm, tr, acts);
    } else {
      ReachableConverges(c, calm, tr, acts);
    }
  }
}
