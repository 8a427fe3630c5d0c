/** No lost work: when the controller has nothing left to do, there is nothing left to do. */
module Progress {
  import opened Wrappers
  import opened Finalizers
  import opened Protocol
  import opened Safety

  /** The declared object is gone, or released, or deployed as declared. */
  predicate Settled<L, R>(c: Client<L, R>, v: Option<Object<L>>, r: Remote<R>) {
    v.None? || (v.value.deleting && !Owned(v)) || (Live(v) && Matches(c, r, v.value.spec))
  }

  /** Nothing is being processed, queued, or on its way to the queue. */
  predicate Quiescent<L, R>(w: World<L, R>) {
    w.pc.Idle? && !w.pending && w.backlog == []
  }

  /** Unless something is queued, the copy is what the cache shows. */
  ghost predicate Tracks<L(!new), R(!new)>(w: World<L, R>, l: Object<L>) {
    !w.pending ==>
      w.cache.Some? && w.cache.value.spec == l.spec && w.cache.value.deleting == l.deleting &&
      (Owned(w.cache) <==> FINALIZER in l.finalizers)
  }

  /** The status of a deployed object says so; a synchronous client reports what it saw before its write. */
  predicate Reported<L(==), R(==)>(c: Client<L, R>, v: Option<Object<L>>) {
    !c.sync && Live(v) ==> v.value.status.id && v.value.status.state == Some(Succeeded)
  }

  ghost predicate Accounted<L(!new), R(!new)>(c: Client<L, R>, w: World<L, R>) {
    w.pending || w.backlog != [] || (Settled(c, w.cache, w.remote) && Reported(c, w.cache))
  }

  ghost predicate Working<L(!new), R(!new)>(c: Client<L, R>, w: World<L, R>) {
    match w.pc
    case Idle => Accounted(c, w)
    case Returned(requeue, err) => requeue || err || Accounted(c, w)
    case Fetched(l) => Tracks(w, l)
    case Ensuring(l) => Tracks(w, l) && Live(Some(l))
    case Putting(l, prior) =>
      Tracks(w, l) && Live(Some(l)) && Body(w.remote) == prior && (w.remote.Present? ==> w.remote.phase.Succeeded?)
    case Ensured(l, done, failed) =>
      Tracks(w, l) && Live(Some(l)) &&
      (done && !failed ==> Matches(c, w.remote, l.spec) && (!c.sync ==> l.status == Status(true, Some(Succeeded))))
    case _ => true
  }

  /** Whatever is pushed to the watch stream will queue the object. */
  lemma OthersKeepWorking<L(!new), R(!new)>(c: Client<L, R>, w: World<L, R>, a: Action<L>)
    requires Working(c, w) && Enabled(c, w, a)
    requires ByUser(a) || a.Deliver? || a.Resync? || a.Tick?
    ensures Working(c, Step(c, w, a))
  {
  }

  lemma FetchKeepsWorking<L(!new), R(!new)>(c: Client<L, R>, w: World<L, R>, a: Action<L>)
    requires Working(c, w) && Enabled(c, w, a)
    requires a.Begin? || a.Fetch? || a.Authorize? || a.Finish?
    ensures Working(c, Step(c, w, a))
  {
  }

  lemma DeleteKeepsWorking<L(!new), R(!new)>(c: Client<L, R>, w: World<L, R>, a: Action<L>)
    requires Working(c, w) && Enabled(c, w, a)
    requires a.AddWrite? || a.Remove? || a.Poll? || a.RemoveSync? || a.DeletedStatus? || a.Release?
    ensures Working(c, Step(c, w, a))
  {
  }

  lemma EnsureKeepsWorking<L(!new), R(!new)>(c: Client<L, R>, w: World<L, R>, a: Action<L>)
    requires Working(c, w) && Enabled(c, w, a)
    requires c.sync ==> c.honestEnsure
    requires a.Look? || a.Put? || a.EnsureSync? || a.EnsuredStatus?
    ensures Working(c, Step(c, w, a))
  {
  }

  lemma StepKeepsWorking<L(!new), R(!new)>(c: Client<L, R>, w: World<L, R>, a: Action<L>)
    requires Working(c, w) && Enabled(c, w, a)
    requires c.sync ==> c.honestEnsure
    ensures Working(c, Step(c, w, a))
  {
    if a.Look? || a.Put? || a.EnsureSync? || a.EnsuredStatus? {
      EnsureKeepsWorking(c, w, a);
    } else if a.AddWrite? || a.Remove? || a.Poll? || a.RemoveSync? || a.DeletedStatus? || a.Release? {
      DeleteKeepsWorking(c, w, a);
    } else if a.Begin? || a.Fetch? || a.Authorize? || a.Finish? {
      FetchKeepsWorking(c, w, a);
    } else {
      OthersKeepWorking(c, w, a);
    }
  }

  lemma {:induction false} RunIsWorking<L(!new), R(!new)>(
      c: Client<L, R>, tr: seq<World<L, R>>, acts: seq<Action<L>>, i: nat)
    requires Run(c, tr, acts) && Initial(tr[0]) && i < |tr|
    requires c.sync ==> c.honestEnsure
    ensures Working(c, tr[i])
  {
    if i == 0 {
    } else {
      RunIsWorking(c, tr, acts, i - 1);
      assert Taken(c, tr, acts, i - 1);
      StepKeepsWorking(c, tr[i - 1], acts[i - 1]);
    }
  }

  /** A write is sent over what is deployed. */
  lemma PutsOverDeployed<L(!new), R(!new)>(c: Client<L, R>, tr: seq<World<L, R>>, acts: seq<Action<L>>, i: nat)
    requires Run(c, tr, acts) && Initial(tr[0]) && i < |tr|
    requires c.sync ==> c.honestEnsure
    ensures tr[i].pc.Putting? ==> Body(tr[i].remote) == tr[i].pc.prior
  {
    RunIsWorking(c, tr, acts, i);
  }

  /**
   No lost work, with any calls failing and the cache lagging: a quiescent controller has
   settled the object, and a pass that ends without an error or a requeue either settled
   what the cache shows or left an event behind that will start another pass.
   */
  lemma NoLostWork<L(!new), R(!new)>(c: Client<L, R>, tr: seq<World<L, R>>, acts: seq<Action<L>>)
    requires Run(c, tr, acts) && Initial(tr[0])
    requires c.sync ==> c.honestEnsure
    ensures forall i :: 0 <= i < |tr| && Quiescent(tr[i]) ==> Settled(c, Store(tr[i]), tr[i].remote)
    ensures forall i :: 0 <= i < |tr| && Quiescent(tr[i]) ==> Reported(c, Store(tr[i]))
    ensures forall i :: 0 <= i < |tr| && tr[i].pc == Returned(false, false) ==> Accounted(c, tr[i])
  {
    forall i | 0 <= i < |tr|
      ensures Working(c, tr[i])
    {
      RunIsWorking(c, tr, acts, i);
    }
  }

  ghost predicate NeverLosesWork<L(!new), R(!new)>(c: Client<L, R>) {
    forall tr: seq<World<L, R>>, acts: seq<Action<L>>, i: nat ::
      Run(c, tr, acts) && Initial(tr[0]) && i < |tr| && Quiescent(tr[i]) ==> Settled(c, Store(tr[i]), tr[i].remote)
  }

  /** The run that forgets an object when a synchronous Ensure swallows an error. */
  lemma DishonestEnsureForgets<L(!new), R(!new)>(c: Client<L, R>, spec: L)
    returns (tr: seq<World<L, R>>, acts: seq<Action<L>>)
    requires c.sync && !c.honestEnsure
    ensures Run(c, tr, acts) && Initial(tr[0])
    ensures var w := tr[|acts|]; Quiescent(w) && !Settled(c, Store(w), w.remote) && w.remote.Absent?
  {
    tr, acts := CreatedAndFetched(c, spec);
    tr, acts := Extend(c, tr, acts, EnsureSync(false, false));
    tr, acts := Extend(c, tr, acts, EnsuredStatus(Applied));
    tr, acts := Extend(c, tr, acts, Finish);
  }

  /** Exactly the clients whose Ensure tells the truth never lose work. */
  lemma NeverLosesWorkIff<L(!new), R(!new)>(c: Client<L, R>, spec: L)
    ensures NeverLosesWork(c) <==> (c.sync ==> c.honestEnsure)
  {
    if c.sync ==> c.honestEnsure {
      forall tr: seq<World<L, R>>, acts: seq<Action<L>>, i: nat
        | Run(c, tr, acts) && Initial(tr[0]) && i < |tr| && Quiescent(tr[i])
        ensures Settled(c, Store(tr[i]), tr[i].remote)
      {
        RunIsWorking(c, tr, acts, i);
      }
    } else {
      var tr, acts := DishonestEnsureForgets(c, spec);
      var w := tr[|acts|];
      assert Run(c, tr, acts) && Initial(tr[0]) && |acts| < |tr| && Quiescent(w) && !Settled(c, Store(w), w.remote);
    }
  }

  // ---------------------------------------------------------------- failed calls

  /** The client's call failed, or the pass that made it is about to end with an error. */
  predicate Failing<L, R>(pc: Pc<L, R>) {
    (pc.Ensured? && pc.failed) || (pc.Deleted? && pc.failed) || (pc.Returned? && pc.err)
  }

  lemma StepFromFailing<L(!new), R(!new)>(c: Client<L, R>, w: World<L, R>, a: Action<L>)
    requires Enabled(c, w, a) && Failing(w.pc)
    ensures var w' := Step(c, w, a); Failing(w'.pc) || (a.Finish? && w'.pc.Idle? && w'.pending)
    ensures !a.Put? && !a.Release? && !a.Remove? && !a.EnsureSync? && !a.RemoveSync?
  {
  }

  /**
   The reconcilers look at the error first. Whatever else a failed Ensure or Delete answers,
   `done` and `not found` included, the pass touches neither the resource nor the finalizer
   any more, and by the time the worker is idle again the object is queued.
   */
  lemma {:induction false} FailedPassIsRepeated<L(!new), R(!new)>(
      c: Client<L, R>, tr: seq<World<L, R>>, acts: seq<Action<L>>, i: nat, j: nat)
    requires Run(c, tr, acts) && i < j < |tr|
    requires Failing(tr[i].pc) && forall k :: i <= k < j ==> !tr[k].pc.Idle?
    ensures Failing(tr[j].pc) || (tr[j].pc.Idle? && tr[j].pending)
    ensures forall k :: i <= k < j ==> Failing(tr[k].pc) && !acts[k].Put? && !acts[k].Release? && !acts[k].Remove?
    decreases j
  {
    var w, a := tr[j - 1], acts[j - 1];
    assert Taken(c, tr, acts, j - 1);
    if j == i + 1 {
      StepFromFailing(c, w, a);
    } else {
      FailedPassIsRepeated(c, tr, acts, i, j - 1);
      StepFromFailing(c, w, a);
    }
  }
}
