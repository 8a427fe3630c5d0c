/** No orphan: a deployed resource always has a stored object that carries the finalizer. */
module Safety {
  import opened Wrappers
  import opened Finalizers
  import opened Protocol

  /** A version that the worker would deploy for. */
  predicate Live<L>(v: Option<Object<L>>) {
    Owned(v) && !v.value.deleting
  }

  /** Along the watch stream versions grow, and a live version is followed by owned ones only. */
  ghost predicate Ordered<L(!new), R(!new)>(w: World<L, R>) {
    var vs := Versions(w);
    (forall i :: 0 <= i < |vs| && vs[i].Some? ==> vs[i].value.rv <= w.clock) &&
    (forall i, j :: 0 <= i < j < |vs| && vs[i].Some? && vs[j].Some? ==> vs[i].value.rv < vs[j].value.rv) &&
    (forall i, j :: 0 <= i < j < |vs| && Live(vs[i]) ==> Owned(vs[j]))
  }

  ghost predicate NothingLive<L(!new), R(!new)>(w: World<L, R>) {
    forall i :: 0 <= i < |Versions(w)| ==> !Live(Versions(w)[i])
  }

  /** As long as the copy is current it differs from the stored object in our finalizer and the status only. */
  ghost predicate Held<L(!new), R(!new)>(w: World<L, R>, l: Object<L>) {
    l.rv <= w.clock &&
    (Current(w, l) ==>
       var o := Store(w).value;
       o.spec == l.spec && o.deleting == l.deleting &&
       Without(o.finalizers, FINALIZER) == Without(l.finalizers, FINALIZER))
  }

  ghost predicate HeldForDeletion<L(!new), R(!new)>(w: World<L, R>, l: Object<L>) {
    Held(w, l) && l.deleting && (Current(w, l) ==> NothingLive(w))
  }

  ghost predicate HeldForEnsure<L(!new), R(!new)>(w: World<L, R>, l: Object<L>) {
    Held(w, l) && Live(Some(l)) && Owned(Store(w))
  }

  ghost predicate SafePc<L(!new), R(!new)>(w: World<L, R>) {
    match w.pc
    case Idle => true
    case Fetching => true
    case Fetched(l) =>
      Held(w, l) && if l.deleting then HeldForDeletion(w, l) else (Live(Some(l)) ==> HeldForEnsure(w, l))
    case Adding(l) => Held(w, l) && Live(Some(l))
    case Deleting(l) => HeldForDeletion(w, l)
    case Polling(l) => HeldForDeletion(w, l)
    case Deleted(l, found, failed) => HeldForDeletion(w, l) && (!found && !failed ==> w.remote.Absent?)
    case Releasing(l) => HeldForDeletion(w, l) && w.remote.Absent? && FINALIZER !in l.finalizers
    case Ensuring(l) => HeldForEnsure(w, l)
    case Putting(l, _) => HeldForEnsure(w, l)
    case Ensured(l, _, _) => HeldForEnsure(w, l)
    case Returned(_, _) => true
  }

  ghost predicate Safe<L(!new), R(!new)>(w: World<L, R>) {
    Ordered(w) && SafePc(w) && (w.remote.Present? ==> Owned(Store(w)))
  }

  // ---------------------------------------------------------------- pushes and deliveries

  lemma PushKeepsOrder<L(!new), R(!new)>(w: World<L, R>, v: Option<Object<L>>)
    requires Ordered(w)
    requires v.Some? ==> v.value.rv == w.clock + 1
    requires Owned(v) || NothingLive(w)
    ensures Ordered(Push(w, v))
    ensures Store(Push(w, v)) == v
    ensures Versions(Push(w, v)) == Versions(w) + [v]
  {
    var vs, vs' := Versions(w), Versions(Push(w, v));
    assert vs' == vs + [v];
    forall i, j | 0 <= i < j < |vs'| && vs'[i].Some? && vs'[j].Some?
      ensures vs'[i].value.rv < vs'[j].value.rv
    {
      assert vs'[i] == vs[i];
      assert j < |vs| ==> vs'[j] == vs[j];
    }
    forall i, j | 0 <= i < j < |vs'| && Live(vs'[i])
      ensures Owned(vs'[j])
    {
      assert vs'[i] == vs[i];
      assert j < |vs| ==> vs'[j] == vs[j];
    }
  }

  /** If the stored object is not owned then no undelivered version is live. */
  lemma NotOwnedNotLive<L(!new), R(!new)>(w: World<L, R>)
    requires Ordered(w) && !Owned(Store(w))
    ensures NothingLive(w)
  {
    var vs := Versions(w);
    assert vs[|vs| - 1] == Store(w);
  }

  lemma ByOthersKeepsSafe<L(!new), R(!new)>(w: World<L, R>, v: Option<Object<L>>)
    requires Safe(w)
    requires v.Some? ==> v.value.rv == w.clock + 1
    requires Owned(Store(w)) ==> Owned(v)
    ensures Safe(Push(w, v))
  {
    if !Owned(Store(w)) {
      NotOwnedNotLive(w);
    }
    PushKeepsOrder(w, v);
  }

  lemma DeliveredIsOrdered<L(!new), R(!new)>(w: World<L, R>, w': World<L, R>)
    requires Ordered(w) && w'.clock == w.clock && Versions(w') == Versions(w)[1..]
    ensures Ordered(w') && (NothingLive(w) ==> NothingLive(w'))
  {
  }

  lemma DeliverKeepsSafe<L(!new), R(!new)>(c: Client<L, R>, w: World<L, R>)
    requires Safe(w) && Enabled(c, w, Deliver)
    ensures Safe(Step(c, w, Deliver))
  {
    var w' := Step(c, w, Deliver);
    assert Versions(w') == Versions(w)[1..];
    DeliveredIsOrdered(w, w');
    assert Store(w') == Store(w);
  }

  /** A copy taken from the cache is current only if nothing is undelivered. */
  lemma CurrentMeansDelivered<L(!new), R(!new)>(w: World<L, R>)
    requires Ordered(w) && w.cache.Some? && Current(w, w.cache.value)
    ensures w.backlog == []
  {
    var vs := Versions(w);
    assert vs[0] == w.cache && vs[|vs| - 1] == Store(w);
  }

  lemma FetchKeepsSafe<L(!new), R(!new)>(c: Client<L, R>, w: World<L, R>, ok: bool)
    requires Safe(w) && Enabled(c, w, Action.Fetch(ok))
    ensures Safe(Step(c, w, Action.Fetch(ok)))
  {
    var vs := Versions(w);
    assert vs[0] == w.cache && vs[|vs| - 1] == Store(w);
    if w.cache.Some? && Current(w, w.cache.value) {
      CurrentMeansDelivered(w);
    }
  }

  // ---------------------------------------------------------------- the worker's writes

  lemma StatusWriteKeepsSafe<L(!new), R(!new)>(w: World<L, R>, l: Object<L>)
    requires Ordered(w) && Held(w, l) && Current(w, l)
    requires w.remote.Present? ==> Owned(Store(w))
    requires l.deleting ==> NothingLive(w)
    ensures var w' := StatusUpdated(w, l);
            Ordered(w') && Owned(Store(w')) == Owned(Store(w)) && Store(w').Some? && w'.remote == w.remote &&
            (l.deleting ==> NothingLive(w')) && Store(w').value.rv <= w'.clock &&
            Store(w').value == Store(w).value.(status := l.status, rv := Store(w').value.rv)
  {
    var o := Some(Store(w).value.(status := l.status, rv := w.clock + 1));
    if !Owned(Store(w)) {
      NotOwnedNotLive(w);
    }
    PushKeepsOrder(w, o);
  }

  /** Nothing that the API server stores changes in these steps. */
  lemma StoreUnchanged<L(!new), R(!new)>(w: World<L, R>, w': World<L, R>)
    requires Ordered(w)
    requires w'.cache == w.cache && w'.backlog == w.backlog && w'.clock == w.clock
    ensures Ordered(w') && Store(w') == Store(w) && (NothingLive(w) ==> NothingLive(w'))
  {
    assert Versions(w') == Versions(w);
  }

  /** After its status write the copy, refreshed and without our finalizer, is ready for the release. */
  lemma ReadyForRelease<L(!new), R(!new)>(w: World<L, R>, l: Object<L>)
    requires HeldForDeletion(w, l) && Current(w, l) && Ordered(w)
    requires w.remote.Absent?
    ensures var w1 := StatusUpdated(w, l);
            Store(w1).Some? &&
            var l' := l.(finalizers := Without(l.finalizers, FINALIZER), rv := Store(w1).value.rv);
            Safe(w1.(pc := Releasing(l')))
  {
    StatusWriteKeepsSafe(w, l);
    var w1 := StatusUpdated(w, l);
    var l' := l.(finalizers := Without(l.finalizers, FINALIZER), rv := Store(w1).value.rv);
    WithoutAbsent(Without(l.finalizers, FINALIZER), FINALIZER);
    StoreUnchanged(w1, w1.(pc := Releasing(l')));
  }

  lemma ReturnedIsSafe<L(!new), R(!new)>(w: World<L, R>, requeue: bool, err: bool)
    requires Ordered(w) && (w.remote.Present? ==> Owned(Store(w)))
    ensures Safe(w.(pc := Returned(requeue, err)))
  {
    StoreUnchanged(w, w.(pc := Returned(requeue, err)));
  }

  /** An update of the copy adds one version, owned unless nothing was live. */
  lemma UpdateIsOrdered<L(!new), R(!new)>(w: World<L, R>, l: Object<L>)
    requires Ordered(w) && Current(w, l)
    requires (FINALIZER in l.finalizers && !Store(w).value.deleting) || NothingLive(w)
    ensures Ordered(Updated(w, l))
    ensures Store(Updated(w, l)) == Stamped(w, Store(w).value.(spec := l.spec, finalizers := l.finalizers))
  {
    PushKeepsOrder(w, Stamped(w, Store(w).value.(spec := l.spec, finalizers := l.finalizers)));
  }

  lemma AddKeepsSafe<L(!new), R(!new)>(c: Client<L, R>, w: World<L, R>, out: Write)
    requires Safe(w) && Enabled(c, w, AddWrite(out))
    ensures Safe(Step(c, w, AddWrite(out)))
  {
    if out.Rejected? {
      ReturnedIsSafe(w, false, true);
    } else {
      UpdateIsOrdered(w, w.pc.local);
      ReturnedIsSafe(Updated(w, w.pc.local), false, !out.Applied?);
    }
  }

  lemma ReleaseKeepsSafe<L(!new), R(!new)>(c: Client<L, R>, w: World<L, R>, out: Write)
    requires Safe(w) && Enabled(c, w, Release(out))
    ensures Safe(Step(c, w, Release(out)))
  {
    if out.Rejected? {
      ReturnedIsSafe(w, false, true);
    } else {
      UpdateIsOrdered(w, w.pc.local);
      ReturnedIsSafe(Updated(w, w.pc.local), false, !out.Applied?);
    }
  }

  lemma DeletedStatusKeepsSafe<L(!new), R(!new)>(c: Client<L, R>, w: World<L, R>, out: Write)
    requires Safe(w) && Enabled(c, w, DeletedStatus(out))
    ensures Safe(Step(c, w, DeletedStatus(out)))
  {
    var l := w.pc.local;
    if out.Rejected? {
      ReturnedIsSafe(w, false, true);
    } else {
      StatusWriteKeepsSafe(w, l);
      if w.pc.failed || !out.Applied? || w.pc.found {
        ReturnedIsSafe(StatusUpdated(w, l), false, true);
      } else {
        ReadyForRelease(w, l);
      }
    }
  }

  lemma EnsuredStatusKeepsSafe<L(!new), R(!new)>(c: Client<L, R>, w: World<L, R>, out: Write)
    requires Safe(w) && Enabled(c, w, EnsuredStatus(out))
    ensures Safe(Step(c, w, EnsuredStatus(out)))
  {
    if out.Rejected? {
      ReturnedIsSafe(w, !w.pc.done, true);
    } else {
      StatusWriteKeepsSafe(w, w.pc.local);
      ReturnedIsSafe(StatusUpdated(w, w.pc.local), !w.pc.done, w.pc.failed || !out.Applied?);
    }
  }

  lemma AuthorizeKeepsSafe<L(!new), R(!new)>(c: Client<L, R>, w: World<L, R>, ok: bool)
    requires Safe(w) && Enabled(c, w, Authorize(ok))
    ensures Safe(Step(c, w, Authorize(ok)))
  {
    var w' := Step(c, w, Action.Authorize(ok));
    StoreUnchanged(w, w');
    AddThenRemove(w.pc.local.finalizers, FINALIZER);
    assert SafePc(w');
  }

  lemma UserKeepsSafe<L(!new), R(!new)>(c: Client<L, R>, w: World<L, R>, a: Action<L>)
    requires Safe(w) && Enabled(c, w, a) && ByUser(a)
    ensures Safe(Step(c, w, a))
  {
    match a
    case Create(spec, fs) => ByOthersKeepsSafe(w, Some(Object(spec, fs, false, Status(false, None), w.clock + 1)));
    case Edit(spec) => ByOthersKeepsSafe(w, Stamped(w, Store(w).value.(spec := spec)));
    case Relabel(fs) => ByOthersKeepsSafe(w, Stamped(w, Store(w).value.(finalizers := fs)));
    case RequestDelete => ByOthersKeepsSafe(w, Stamped(w, Store(w).value.(deleting := true)));
  }

  lemma PlainKeepsSafe<L(!new), R(!new)>(c: Client<L, R>, w: World<L, R>, a: Action<L>)
    requires Safe(w) && Enabled(c, w, a)
    requires a.Tick? || a.Resync? || a.Begin? || a.Finish?
    ensures Safe(Step(c, w, a))
  {
    StoreUnchanged(w, Step(c, w, a));
  }

  lemma LookKeepsSafe<L(!new), R(!new)>(c: Client<L, R>, w: World<L, R>, ok: bool)
    requires Safe(w) && Enabled(c, w, Look(ok))
    ensures Safe(Step(c, w, Look(ok)))
  {
    StoreUnchanged(w, Step(c, w, Look(ok)));
  }

  lemma RemovalKeepsSafe<L(!new), R(!new)>(c: Client<L, R>, w: World<L, R>, a: Action<L>)
    requires Safe(w) && Enabled(c, w, a)
    requires c.sync ==> c.honestDelete
    requires a.Remove? || a.Poll? || a.RemoveSync?
    ensures Safe(Step(c, w, a))
  {
    StoreUnchanged(w, Step(c, w, a));
  }

  lemma DeployKeepsSafe<L(!new), R(!new)>(c: Client<L, R>, w: World<L, R>, a: Action<L>)
    requires Safe(w) && Enabled(c, w, a)
    requires a.Put? || a.EnsureSync?
    ensures Safe(Step(c, w, a))
  {
    StoreUnchanged(w, Step(c, w, a));
  }

  /** Every action keeps the invariant, provided a synchronous client's delete tells the truth. */
  lemma StepKeepsSafe<L(!new), R(!new)>(c: Client<L, R>, w: World<L, R>, a: Action<L>)
    requires Safe(w) && Enabled(c, w, a)
    requires c.sync ==> c.honestDelete
    ensures Safe(Step(c, w, a))
  {
    if ByUser(a) { UserKeepsSafe(c, w, a); }
    else if a.Deliver? { DeliverKeepsSafe(c, w); }
    else if a.Fetch? { FetchKeepsSafe(c, w, a.ok); }
    else if a.Authorize? { AuthorizeKeepsSafe(c, w, a.ok); }
    else if a.AddWrite? { AddKeepsSafe(c, w, a.out); }
    else if a.DeletedStatus? { DeletedStatusKeepsSafe(c, w, a.out); }
    else if a.Release? { ReleaseKeepsSafe(c, w, a.out); }
    else if a.EnsuredStatus? { EnsuredStatusKeepsSafe(c, w, a.out); }
    else if a.Remove? || a.Poll? || a.RemoveSync? { RemovalKeepsSafe(c, w, a); }
    else if a.Look? { LookKeepsSafe(c, w, a.ok); }
    else if a.Put? || a.EnsureSync? { DeployKeepsSafe(c, w, a); }
    else { PlainKeepsSafe(c, w, a); }
  }

  // ---------------------------------------------------------------- whole runs

  lemma {:induction false} RunIsSafe<L(!new), R(!new)>(
      c: Client<L, R>, tr: seq<World<L, R>>, acts: seq<Action<L>>, i: nat)
    requires Run(c, tr, acts) && Initial(tr[0]) && i < |tr|
    requires c.sync ==> c.honestDelete
    ensures Safe(tr[i])
  {
    if i == 0 {
    } else {
      RunIsSafe(c, tr, acts, i - 1);
      assert Taken(c, tr, acts, i - 1);
      StepKeepsSafe(c, tr[i - 1], acts[i - 1]);
    }
  }

  /** The resource is deployed only under a stored object with the finalizer. */
  predicate Orphaned<L, R>(w: World<L, R>) {
    w.remote.Present? && !Owned(Store(w))
  }

  ghost predicate NeverOrphans<L(!new), R(!new)>(c: Client<L, R>) {
    forall tr: seq<World<L, R>>, acts: seq<Action<L>>, i: nat ::
      Run(c, tr, acts) && Initial(tr[0]) && i < |tr| ==> !Orphaned(tr[i])
  }

  /** The calls that may create or change the resource. */
  predicate Deploys<L>(a: Action<L>) {
    a.Look? || a.Put? || a.EnsureSync?
  }

  lemma DeploysForOwned<L(!new), R(!new)>(c: Client<L, R>, w: World<L, R>, a: Action<L>)
    requires Safe(w) && Enabled(c, w, a) && Deploys(a)
    ensures Owned(Store(w))
  {
  }

  /**
   No orphan, in every interleaving and with any calls failing; and Ensure runs only on an
   object that is stored with the finalizer, whatever version the cache showed.
   */
  lemma NoOrphan<L(!new), R(!new)>(c: Client<L, R>, tr: seq<World<L, R>>, acts: seq<Action<L>>)
    requires Run(c, tr, acts) && Initial(tr[0])
    requires c.sync ==> c.honestDelete
    ensures forall i :: 0 <= i < |tr| ==> !Orphaned(tr[i])
    ensures forall i :: 0 <= i < |acts| && Deploys(acts[i]) ==> Owned(Store(tr[i]))
  {
    forall i | 0 <= i < |tr|
      ensures !Orphaned(tr[i])
    {
      RunIsSafe(c, tr, acts, i);
    }
    forall i | 0 <= i < |acts| && Deploys(acts[i])
      ensures Owned(Store(tr[i]))
    {
      RunIsSafe(c, tr, acts, i);
      assert Taken(c, tr, acts, i);
      DeploysForOwned(c, tr[i], acts[i]);
    }
  }

  /** What a step does to the versions: takes the oldest away, adds one, or neither. */
  lemma StepMovesVersions<L(!new), R(!new)>(c: Client<L, R>, w: World<L, R>, a: Action<L>)
    requires Enabled(c, w, a)
    ensures var vs, w' := Versions(w), Step(c, w, a);
            Versions(w') == vs || Versions(w') == vs[1..] || Versions(w') == vs + [Store(w')]
    ensures Versions(w)[|Versions(w)| - 1] == Store(w)
  {
    var vs, w' := Versions(w), Step(c, w, a);
    if a.Deliver? {
      assert Versions(w') == vs[1..];
    } else if w'.backlog == w.backlog {
      assert Versions(w') == vs;
    } else {
      assert w'.backlog == w.backlog + [Store(w')];
    }
  }

  /** Where the worker stands between a 404 on the poll and the release of the finalizer. */
  predicate SawItGone<L, R>(pc: Pc<L, R>) {
    pc.Releasing? || (pc.Deleted? && !pc.found && !pc.failed)
  }

  lemma SeenGoneNow<L(!new), R(!new)>(c: Client<L, R>, w: World<L, R>, a: Action<L>)
    requires Enabled(c, w, a) && !c.sync
    requires !SawItGone(w.pc) && SawItGone(Step(c, w, a).pc)
    ensures a == Action<L>.Poll(true) && w.pc.Polling? && w.remote.Absent? && Step(c, w, a).remote.Absent?
  {
  }

  /** Either it was seen gone before the last step already, or that step is the GET that said 404. */
  lemma SeenGoneByLast<L(!new), R(!new)>(c: Client<L, R>, tr: seq<World<L, R>>, acts: seq<Action<L>>, i: nat)
    requires Run(c, tr, acts) && Initial(tr[0]) && i < |tr|
    requires !c.sync && SawItGone(tr[i].pc)
    ensures i > 0 && tr[i].remote.Absent?
    ensures SawItGone(tr[i - 1].pc) ||
            (acts[i - 1] == Action<L>.Poll(true) && tr[i - 1].pc.Polling? && tr[i - 1].remote.Absent?)
  {
    RunIsSafe(c, tr, acts, i);
    var w, a := tr[i - 1], acts[i - 1];
    assert Taken(c, tr, acts, i - 1);
    if !SawItGone(w.pc) {
      SeenGoneNow(c, w, a);
    }
  }

  lemma {:induction false} PolledBefore<L(!new), R(!new)>(
      c: Client<L, R>, tr: seq<World<L, R>>, acts: seq<Action<L>>, i: nat)
    returns (j: nat)
    requires Run(c, tr, acts) && Initial(tr[0]) && i < |tr|
    requires !c.sync && SawItGone(tr[i].pc)
    ensures j < i && acts[j] == Action<L>.Poll(true) && tr[j].pc.Polling?
    ensures forall k :: j <= k <= i ==> tr[k].remote.Absent?
    ensures forall k :: j < k <= i ==> SawItGone(tr[k].pc)
  {
    SeenGoneByLast(c, tr, acts, i);
    if !SawItGone(tr[i - 1].pc) {
      j := i - 1;
    } else {
      j := PolledBefore(c, tr, acts, i - 1);
    }
  }

  /** A worker that polls goes on polling, unless its last step was the DELETE. */
  lemma PollingByLast<L(!new), R(!new)>(c: Client<L, R>, tr: seq<World<L, R>>, acts: seq<Action<L>>, i: nat)
    requires Run(c, tr, acts) && Initial(tr[0]) && i < |tr| && tr[i].pc.Polling?
    ensures i > 0 && (tr[i - 1].pc.Polling? || acts[i - 1].Remove?)
  {
    var w, a := tr[i - 1], acts[i - 1];
    assert Taken(c, tr, acts, i - 1);
  }

  /** A worker that polls has sent its DELETE in the same pass. */
  lemma {:induction false} RemovedBefore<L(!new), R(!new)>(
      c: Client<L, R>, tr: seq<World<L, R>>, acts: seq<Action<L>>, i: nat)
    returns (m: nat)
    requires Run(c, tr, acts) && Initial(tr[0]) && i < |tr| && tr[i].pc.Polling?
    ensures m < i && acts[m].Remove?
    ensures forall k :: m < k <= i ==> tr[k].pc.Polling?
  {
    PollingByLast(c, tr, acts, i);
    if acts[i - 1].Remove? {
      m := i - 1;
    } else {
      m := RemovedBefore(c, tr, acts, i - 1);
    }
  }

  lemma StatusStepKeepsOwned<L(!new), R(!new)>(c: Client<L, R>, w: World<L, R>, a: Action<L>)
    requires Safe(w) && Enabled(c, w, a)
    requires a.DeletedStatus? || a.EnsuredStatus?
    ensures Owned(Store(Step(c, w, a))) == Owned(Store(w))
  {
    if !a.out.Rejected? {
      StatusWriteKeepsSafe(w, w.pc.local);
    }
  }

  lemma OnlyReleaseDrops<L(!new), R(!new)>(c: Client<L, R>, w: World<L, R>, a: Action<L>)
    requires Safe(w) && Enabled(c, w, a)
    requires Owned(Store(w)) && !Owned(Store(Step(c, w, a)))
    ensures a.Release? && w.remote.Absent? && Step(c, w, a).remote.Absent?
  {
    if a.DeletedStatus? || a.EnsuredStatus? {
      StatusStepKeepsOwned(c, w, a);
    }
  }

  /**
   The finalizer leaves the stored object only through the worker's release, and only after
   the same pass sent DELETE and then a GET that said 404; from that GET until the release
   nothing is deployed.
   */
  lemma FinalizerDroppedOnlyAfterNotFound<L(!new), R(!new)>(
      c: Client<L, R>, tr: seq<World<L, R>>, acts: seq<Action<L>>, i: nat)
    returns (m: nat, j: nat)
    requires Run(c, tr, acts) && Initial(tr[0]) && i < |acts|
    requires !c.sync
    requires Owned(Store(tr[i])) && !Owned(Store(tr[i + 1]))
    ensures acts[i].Release?
    ensures m < j < i && acts[m].Remove? && acts[j] == Action<L>.Poll(true)
    ensures forall k :: m < k <= j ==> tr[k].pc.Polling?
    ensures forall k :: j < k <= i ==> SawItGone(tr[k].pc)
    ensures forall k :: j <= k <= i + 1 ==> tr[k].remote.Absent?
  {
    RunIsSafe(c, tr, acts, i);
    assert Taken(c, tr, acts, i);
    OnlyReleaseDrops(c, tr[i], acts[i]);
    j := PolledBefore(c, tr, acts, i);
    m := RemovedBefore(c, tr, acts, j);
  }

  /** The stored object keeps what is not ours; it vanishes only with the last finalizer, when that was ours. */
  predicate KeepsForeign<L(==)>(o: Option<Object<L>>, o': Option<Object<L>>) {
    (o.None? ==> o'.None?) &&
    (o.Some? && o'.Some? ==>
       o'.value.spec == o.value.spec && o'.value.deleting == o.value.deleting &&
       Without(o'.value.finalizers, FINALIZER) == Without(o.value.finalizers, FINALIZER)) &&
    (o.Some? && o'.None? ==> o.value.deleting && Without(o.value.finalizers, FINALIZER) == [])
  }

  lemma UpdateKeepsForeign<L(!new), R(!new)>(w: World<L, R>, l: Object<L>)
    requires Held(w, l) && Current(w, l)
    ensures KeepsForeign(Store(w), Store(Updated(w, l)))
  {
    assert Without([], FINALIZER) == [];
  }

  predicate WritesObject<L>(a: Action<L>) {
    (a.AddWrite? || a.Release? || a.DeletedStatus? || a.EnsuredStatus?) && !a.out.Rejected?
  }

  lemma CallsLeaveStore<L(!new), R(!new)>(c: Client<L, R>, w: World<L, R>, a: Action<L>)
    requires Enabled(c, w, a) && ByWorker(a) && !WritesObject(a)
    ensures Store(Step(c, w, a)) == Store(w)
  {
  }

  /**
   Optimistic concurrency: no step of the worker touches the declared spec, the deletion mark
   or anyone else's finalizer, and an object vanishes under it only when it was being deleted
   and ours was the last finalizer.
   */
  lemma WorkerWritesOnlyItsOwn<L(!new), R(!new)>(c: Client<L, R>, w: World<L, R>, a: Action<L>)
    requires Safe(w) && Enabled(c, w, a) && ByWorker(a)
    ensures KeepsForeign(Store(w), Store(Step(c, w, a)))
  {
    if !WritesObject(a) {
      CallsLeaveStore(c, w, a);
    } else if a.AddWrite? || a.Release? {
      UpdateKeepsForeign(w, w.pc.local);
      assert Store(Step(c, w, a)) == Store(Updated(w, w.pc.local));
    } else {
      StatusWriteKeepsSafe(w, w.pc.local);
      assert Store(Step(c, w, a)) == Store(StatusUpdated(w, w.pc.local));
    }
  }

  // ---------------------------------------------------------------- the dishonest delete

  /** One more enabled action at the end of a run. */
  lemma Extend<L(!new), R(!new)>(c: Client<L, R>, tr: seq<World<L, R>>, acts: seq<Action<L>>, a: Action<L>)
    returns (tr': seq<World<L, R>>, acts': seq<Action<L>>)
    requires Run(c, tr, acts) && Enabled(c, tr[|acts|], a)
    ensures Run(c, tr', acts') && tr <= tr' && acts' == acts + [a]
    ensures tr'[|acts'|] == Step(c, tr[|acts|], a)
  {
    tr', acts' := tr + [Step(c, tr[|acts|], a)], acts + [a];
    forall i | 0 <= i < |acts'|
      ensures Taken(c, tr', acts', i)
    {
      assert i < |acts| ==> Taken(c, tr, acts, i);
    }
  }

  lemma Created<L(!new), R(!new)>(c: Client<L, R>, spec: L)
    returns (tr: seq<World<L, R>>, acts: seq<Action<L>>)
    ensures Run(c, tr, acts) && Initial(tr[0])
    ensures var o := Object(spec, [FINALIZER], false, Status(false, None), 1);
            tr[|acts|] == World(Some(o), [], 1, Absent, true, Idle)
  {
    tr, acts := [World<L, R>.World(None, [], 0, Absent, false, Idle)], [];
    tr, acts := Extend(c, tr, acts, Create(spec, [FINALIZER]));
    tr, acts := Extend(c, tr, acts, Deliver);
  }

  /** An idle worker with something queued fetches what the cache shows. */
  lemma Fetches<L(!new), R(!new)>(c: Client<L, R>, tr: seq<World<L, R>>, acts: seq<Action<L>>)
    returns (tr': seq<World<L, R>>, acts': seq<Action<L>>)
    requires Run(c, tr, acts) && Enabled(c, tr[|acts|], Begin) && tr[|acts|].cache.Some?
    ensures Run(c, tr', acts') && tr <= tr'
    ensures var w := tr[|acts|];
            tr'[|acts'|] == w.(pending := false, pc := Branch(w.cache.value))
  {
    tr', acts' := Extend(c, tr, acts, Begin);
    tr', acts' := Extend(c, tr', acts', Action.Fetch(true));
    tr', acts' := Extend(c, tr', acts', Authorize(true));
  }

  /** An object created with the finalizer, up to the point where the worker is about to Ensure it. */
  lemma CreatedAndFetched<L(!new), R(!new)>(c: Client<L, R>, spec: L)
    returns (tr: seq<World<L, R>>, acts: seq<Action<L>>)
    ensures Run(c, tr, acts) && Initial(tr[0])
    ensures var o := Object(spec, [FINALIZER], false, Status(false, None), 1);
            tr[|acts|] == World(Some(o), [], 1, Absent, false, Ensuring(o))
  {
    tr, acts := Created(c, spec);
    tr, acts := Fetches(c, tr, acts);
  }

  /** The same object deployed by a synchronous client, whose own status write then fails. */
  lemma Deployed<L(!new), R(!new)>(c: Client<L, R>, spec: L)
    returns (tr: seq<World<L, R>>, acts: seq<Action<L>>)
    requires c.sync
    ensures Run(c, tr, acts) && Initial(tr[0])
    ensures var o := Object(spec, [FINALIZER], false, Status(false, None), 1);
            tr[|acts|] == World(Some(o), [], 1, Present(c.overlay(None, spec), Succeeded, 0), true, Idle)
  {
    tr, acts := CreatedAndFetched(c, spec);
    tr, acts := Extend(c, tr, acts, EnsureSync(true, true));
    tr, acts := Extend(c, tr, acts, EnsuredStatus(Rejected));
    tr, acts := Extend(c, tr, acts, Finish);
  }

  /** Then marked for deletion and fetched again. */
  lemma DeployedThenDeleting<L(!new), R(!new)>(c: Client<L, R>, spec: L)
    returns (tr: seq<World<L, R>>, acts: seq<Action<L>>)
    requires c.sync
    ensures Run(c, tr, acts) && Initial(tr[0])
    ensures var o := Object(spec, [FINALIZER], true, Status(false, None), 2);
            tr[|acts|] == World(Some(o), [], 2, Present(c.overlay(None, spec), Succeeded, 0), false, Deleting(o))
  {
    tr, acts := Deployed(c, spec);
    tr, acts := Extend(c, tr, acts, RequestDelete);
    tr, acts := Extend(c, tr, acts, Deliver);
    tr, acts := Fetches(c, tr, acts);
  }

  /** The run that orphans a synchronous client's resource when its delete swallows an error. */
  lemma DishonestDeleteOrphans<L(!new), R(!new)>(c: Client<L, R>, spec: L)
    returns (tr: seq<World<L, R>>, acts: seq<Action<L>>)
    requires c.sync && !c.honestDelete
    ensures Run(c, tr, acts) && Initial(tr[0]) && Orphaned(tr[|acts|])
  {
    tr, acts := DeployedThenDeleting(c, spec);
    tr, acts := Extend(c, tr, acts, RemoveSync(false, false));
    tr, acts := Extend(c, tr, acts, DeletedStatus(Applied));
    assert Without([FINALIZER], FINALIZER) == [];
    tr, acts := Extend(c, tr, acts, Release(Applied));
  }

  /** Exactly the clients whose delete tells the truth never orphan a resource. */
  lemma NeverOrphansIff<L(!new), R(!new)>(c: Client<L, R>, spec: L)
    ensures NeverOrphans(c) <==> (c.sync ==> c.honestDelete)
  {
    if c.sync ==> c.honestDelete {
      forall tr: seq<World<L, R>>, acts: seq<Action<L>>, i: nat | Run(c, tr, acts) && Initial(tr[0]) && i < |tr|
        ensures !Orphaned(tr[i])
      {
        RunIsSafe(c, tr, acts, i);
      }
    } else {
      var tr, acts := DishonestDeleteOrphans(c, spec);
      assert Run(c, tr, acts) && Initial(tr[0]) && |acts| < |tr| && Orphaned(tr[|acts|]);
    }
  }
}
