/**
 The reconcilers in the form the source has them: methods that fetch an object, change its
 finalizers and status in place and write it back call by call. Every call first lets the rest
 of the world act, so the proofs say that these bodies only ever take steps of the protocol.
 */
module Controller {
  import opened Wrappers
  import opened Finalizers
  import opened Protocol
  import opened Safety
  import opened Progress
  import opened Passes

  /** The object a pass works on: its metadata and its status are updated in place. */
  class Local<L> {
    const spec: L
    const deleting: bool
    const meta: ObjectMeta
    var status: Status
    var rv: nat

    function Value(): Object<L>
      reads this, meta
    {
      Object(spec, meta.finalizers, deleting, status, rv)
    }

    constructor (o: Object<L>)
      ensures Value() == o && fresh(meta)
    {
      spec, deleting, status, rv := o.spec, o.deleting, o.status, o.rv;
      meta := new ObjectMeta(o.finalizers);
    }
  }

  /** What a GET returns; a 404 comes with an error as well. */
  datatype Response<R> = NotFound | NoBody | Found(body: R, phase: Phase)

  /** SetStatus: the id always follows the response, the state only when there is a body. */
  function StatusFrom<R>(s: Status, remote: Response<R>): Status {
    if remote.Found? then Status(true, Some(remote.phase)) else Status(false, s.state)
  }

  /** Everything outside the reconciler, with the history of what happened to it. */
  class Environment<L(!new), R(!new)> {
    const c: Client<L, R>
    var world: World<L, R>
    ghost var trace: seq<World<L, R>>
    ghost var acts: seq<Action<L>>

    ghost predicate Valid()
      reads this
    {
      Run(c, trace, acts) && Initial(trace[0]) && trace[|acts|] == world
    }

    twostate predicate Grown()
      reads this
    {
      old(trace) <= trace && old(acts) <= acts && forall k :: |old(acts)| <= k < |acts| ==> !acts[k].Finish?
    }

    /** A call since then failed. */
    ghost predicate FailedSince(n: nat)
      reads this
    {
      FailedIn(acts, n, |acts|)
    }

    /** A GET since then found the resource after its DELETE. */
    ghost predicate FoundSince(n: nat)
      requires Valid()
      reads this
    {
      FoundIn(trace, acts, n, |acts|)
    }

    /** Ensure looked since then, and the resource was not as declared. */
    ghost predicate NotDoneSince(n: nat)
      requires Valid()
      reads this
    {
      NotDoneIn(c, trace, acts, n, |acts|)
    }

    constructor (client: Client<L, R>)
      ensures Valid() && c == client && world.pc == Idle
    {
      c := client;
      world := World(None, [], 0, Absent, false, Idle);
      trace, acts := [World(None, [], 0, Absent, false, Idle)], [];
    }

    /** The result of a pass that was in hand when `n` actions had been taken. */
    lemma Reports(n: nat)
      requires Valid() && n <= |acts| && world.pc.Returned?
      requires !trace[n].pc.Idle? && Tells(trace[n].pc, false, false, false)
      requires forall k :: n <= k < |acts| ==> !acts[k].Finish?
      ensures world.pc.err <==> FailedSince(n) || FoundSince(n)
      ensures world.pc.requeue <==> NotDoneSince(n)
    {
      PassTells(c, trace, acts, n, |acts|);
    }

    method Take(a: Action<L>)
      requires Valid() && Enabled(c, world, a)
      modifies this
      ensures Valid() && old(trace) <= trace && (!a.Finish? ==> Grown())
      ensures world == Step(c, old(world), a)
    {
      ghost var tr, taken := Extend(c, trace, acts, a);
      world := Step(c, world, a);
      trace, acts := tr, taken;
    }

    /** Users, the watch stream and Azure do anything they can, any number of times. */
    method Interfere()
      requires Valid()
      modifies this
      ensures Valid() && Grown() && world.pc == old(world.pc)
    {
      var turns: nat := *;
      while turns > 0
        invariant Valid() && Grown() && world.pc == old(world.pc)
      {
        var a: Action<L> := *;
        if !ByWorker(a) && Enabled(c, world, a) {
          Take(a);
        }
        turns := turns - 1;
      }
    }

    // ------------------------------------------------------------ API server

    method Get() returns (found: Option<Local<L>>, err: bool)
      requires Valid() && world.pc.Fetching?
      modifies this
      ensures Valid() && Grown()
      ensures found.Some? ==> !err && fresh(found.value) && fresh(found.value.meta)
      ensures found.Some? ==> world.cache == Some(found.value.Value()) && world.pc == Fetched(found.value.Value())
      ensures found.None? ==> world.pc == Returned(false, err) && (!err ==> world.cache.None?)
    {
      Interfere();
      var ok: bool := *;
      var cache := world.cache;
      Take(Action.Fetch(ok));
      if !ok {
        return None, true;
      } else if cache.None? {
        return None, false;
      }
      var local := new Local(cache.value);
      return Some(local), false;
    }

    method Outcome(local: Local<L>) returns (out: Write)
      requires Valid()
      ensures out.Rejected? || Current(world, local.Value())
    {
      out := *;
      if !Current(world, local.Value()) {
        out := Rejected;
      }
    }

    method Update(local: Local<L>) returns (err: bool)
      requires Valid() && (world.pc == Adding(local.Value()) || world.pc == Releasing(local.Value()))
      modifies this
      ensures Valid() && Grown() && world.pc == Returned(false, err)
      ensures !err ==> match Store(world)
                       case Some(o) => o.spec == local.spec && o.finalizers == local.meta.finalizers
                       case None => local.meta.finalizers == []
    {
      Interfere();
      var out := Outcome(local);
      if world.pc.Adding? {
        Take(AddWrite(out));
      } else {
        Take(Release(out));
      }
      return !out.Applied?;
    }

    /** What an applied status write leaves in the store. */
    lemma StatusApplied(w: World<L, R>, a: Action<L>)
      requires Enabled(c, w, a) && (a == DeletedStatus(Applied) || a == EnsuredStatus(Applied))
      ensures Store(Step(c, w, a)).Some? && Store(Step(c, w, a)).value.status == w.pc.local.status
      ensures a.DeletedStatus? && !w.pc.failed && !w.pc.found ==>
                Step(c, w, a).pc == Releasing(w.pc.local.(finalizers := Without(w.pc.local.finalizers, FINALIZER),
                                                          rv := Store(Step(c, w, a)).value.rv))
    {
    }

    /** A successful status write also refreshes the copy, so that a later Update is not stale. */
    method StatusUpdate(local: Local<L>) returns (err: bool)
      requires Valid() && (world.pc.Deleted? || world.pc.Ensured?) && world.pc.local == local.Value()
      modifies this, local`rv
      ensures Valid() && Grown()
      ensures !err ==>
                Store(world).Some? && Store(world).value.status == local.status && Store(world).value.rv == local.rv
      ensures old(world.pc).Ensured? ==> world.pc == Returned(!old(world.pc).done, old(world.pc).failed || err)
      ensures old(world.pc).Deleted? && (old(world.pc).failed || err || old(world.pc).found) ==>
                world.pc == Returned(false, true)
      ensures old(world.pc).Deleted? && !old(world.pc).failed && !err && !old(world.pc).found ==>
                world.pc == Releasing(local.Value().(finalizers := Without(local.meta.finalizers, FINALIZER)))
    {
      Interfere();
      var out := Outcome(local);
      var a := if world.pc.Deleted? then DeletedStatus(out) else EnsuredStatus(out);
      if out.Applied? {
        StatusApplied(world, a);
      }
      Take(a);
      if out.Applied? {
        local.rv := Store(world).value.rv;
      }
      return !out.Applied?;
    }

    // ------------------------------------------------------------ Azure

    /** ForSubscription may fail to authorise the client. */
    method Authorise(local: Local<L>) returns (err: bool)
      requires Valid() && world.pc == Fetched(local.Value())
      modifies this
      ensures Valid() && Grown()
      ensures world.pc == if err then Returned(false, true) else Branch(local.Value())
    {
      Interfere();
      err := *;
      Take(Authorize(!err));
    }

    method GetResource(local: Local<L>) returns (remote: Response<R>, err: bool)
      requires Valid() && !c.sync
      requires world.pc == Ensuring(local.Value()) || world.pc == Polling(local.Value())
      modifies this
      ensures Valid() && Grown() && (err <==> !remote.Found?)
      ensures var l := local.Value().(status := StatusFrom(local.status, remote));
              world.pc ==
                if old(world.pc).Polling? then Deleted(l, !remote.NotFound?, remote.NoBody?)
                else if remote.NoBody? then Ensured(l, false, true)
                else if remote.NotFound? then Putting(l, None)
                else AfterLook(c, local.Value(), Present(remote.body, remote.phase, 0))
    {
      Interfere();
      var ok: bool := *;
      if !ok {
        remote := NoBody;
      } else if world.remote.Absent? {
        remote := NotFound;
      } else {
        remote := Found(world.remote.body, world.remote.phase);
      }
      if world.pc.Ensuring? {
        Take(Look(ok));
      } else {
        Take(Poll(ok));
      }
      err := !remote.Found?;
    }

    method CreateOrUpdate(local: Local<L>, body: R) returns (err: bool)
      requires Valid() && world.pc.Putting? && world.pc.local == local.Value()
      requires body == c.overlay(world.pc.prior, local.spec)
      modifies this
      ensures Valid() && Grown() && world.pc == Ensured(local.Value(), false, err)
    {
      Interfere();
      var effect: bool, ticks: nat := *, *;
      err := *;
      Take(Put(effect, err, ticks));
    }

    method DeleteResource(local: Local<L>) returns (reply: Reply)
      requires Valid() && !c.sync && world.pc == Deleting(local.Value())
      modifies this
      ensures Valid() && Grown()
      ensures world.pc == if reply.Refused? then Deleted(local.Value(), false, true) else Polling(local.Value())
    {
      Interfere();
      var effect: bool, ticks: nat := *, *;
      reply := *;
      Take(Remove(effect && world.remote.Present? && !world.remote.phase.Removing?, reply, ticks));
    }

    /** Ensure of a synchronous client, as far as the reconciler can tell. */
    method EnsureNow(local: Local<L>) returns (err: bool)
      requires Valid() && c.sync && world.pc == Ensuring(local.Value())
      modifies this, local`status
      ensures Valid() && Grown() && world.pc == Ensured(local.Value(), true, err)
    {
      Interfere();
      var effect: bool := *;
      err := *;
      if !Enabled(c, world, EnsureSync(effect, err)) {
        err := true;
      }
      var seen := world.remote;
      Take(EnsureSync(effect, err));
      local.status := Observed(local.status, seen);
    }

    /** Delete of a synchronous client. */
    method DeleteNow(local: Local<L>) returns (err: bool)
      requires Valid() && c.sync && world.pc == Deleting(local.Value())
      modifies this
      ensures Valid() && Grown() && world.pc == Deleted(local.Value(), false, err)
    {
      Interfere();
      var effect: bool := *;
      err := *;
      if !Enabled(c, world, RemoveSync(effect, err)) {
        err := true;
      }
      Take(RemoveSync(effect, err));
    }

    // ------------------------------------------------------------ the work queue

    method Dequeue() returns (got: bool)
      requires Valid() && world.pc.Idle?
      modifies this
      ensures Valid() && Grown()
      ensures world.pc == if got then Fetching else Idle
    {
      Interfere();
      got := world.pending;
      if got {
        Take(Begin);
      }
    }

    /** Either result, a requeue or an error, queues the object again. */
    method Done(requeue: bool, err: bool)
      requires Valid() && world.pc == Returned(requeue, err)
      modifies this
      ensures Valid() && old(trace) <= trace && world.pc.Idle?
      ensures world.pending <==> old(world.pending) || requeue || err
    {
      Take(Finish);
    }
  }

  /** The body that the resource-group, virtual-network and similar clients share. */
  class AsyncClient<L(!new), R(!new)> {
    const env: Environment<L, R>

    constructor (e: Environment<L, R>)
      ensures env == e
    {
      env := e;
    }

    method SetStatus(local: Local<L>, remote: Response<R>)
      modifies local`status
      ensures local.status == StatusFrom(old(local.status), remote)
      ensures local.status.id <==> remote.Found?
      ensures local.status.state == if remote.Found? then Some(remote.phase) else old(local.status).state
    {
      match remote
      case Found(_, phase) => local.status := Status(true, Some(phase));
      case _ => local.status := Status(false, local.status.state);
    }

    /** The current status reads Succeeded. */
    predicate Done(local: Local<L>)
      reads local
    {
      local.status.state.Some? && local.status.state.value == Succeeded
    }

    method Ensure(local: Local<L>) returns (done: bool, err: bool)
      requires env.Valid() && !env.c.sync && env.world.pc == Ensuring(local.Value())
      modifies env, local`status
      ensures env.Valid() && env.Grown() && env.world.pc == Ensured(local.Value(), done, err)
    {
      var remote, getErr := env.GetResource(local);
      var found := !remote.NotFound?;
      SetStatus(local, remote);
      if getErr && found {
        return false, true;
      }
      var prior: Option<R> := None;
      if found {
        if Done(local) {
          if !env.c.needsUpdate(remote.body, local.spec) {
            return true, false;
          }
        } else {
          return false, false;
        }
        prior := Some(remote.body);
      }
      err := env.CreateOrUpdate(local, env.c.overlay(prior, local.spec));
      return false, err;
    }

    method Delete(local: Local<L>) returns (found: bool, err: bool)
      requires env.Valid() && !env.c.sync && env.world.pc == Deleting(local.Value())
      modifies env, local`status
      ensures env.Valid() && env.Grown() && env.world.pc == Deleted(local.Value(), found, err)
    {
      var reply := env.DeleteResource(local);
      if reply.Refused? {
        return false, true;
      }
      var remote, getErr := env.GetResource(local);
      found := !remote.NotFound?;
      SetStatus(local, remote);
      if getErr && !found {
        return false, false;
      }
      return found, getErr;
    }
  }

  /** The deleting half of Reconcile of AsyncReconciler. */
  method FinalizeAsync<L(!new), R(!new)>(env: Environment<L, R>, az: AsyncClient<L, R>, local: Local<L>)
    returns (err: bool)
    requires env.Valid() && !env.c.sync && az.env == env && env.world.pc == Deleting(local.Value())
    modifies env, local, local.meta
    ensures env.Valid() && env.Grown() && env.world.pc == Returned(false, err)
  {
    var found, deleteErr := az.Delete(local);
    var statusErr := env.StatusUpdate(local);
    if deleteErr || statusErr {
      return true;
    }
    if !found {
      local.meta.RemoveFinalizer(FINALIZER);
      err := env.Update(local);
      return err;
    }
    return true;
  }

  /** Reconcile of AsyncReconciler once the client is authorised. */
  method ActAsync<L(!new), R(!new)>(env: Environment<L, R>, az: AsyncClient<L, R>, local: Local<L>)
    returns (requeue: bool, err: bool)
    requires env.Valid() && !env.c.sync && az.env == env && env.world.pc == Branch(local.Value())
    modifies env, local, local.meta
    ensures env.Valid() && env.Grown() && env.world.pc == Returned(requeue, err)
    ensures err <==> env.FailedSince(old(|env.acts|)) || env.FoundSince(old(|env.acts|))
    ensures requeue <==> env.NotDoneSince(old(|env.acts|))
  {
    ghost var n := |env.acts|;
    var has := local.meta.HasFinalizer(FINALIZER);
    if !local.deleting {
      if !has {
        local.meta.AddFinalizer(FINALIZER);
        err := env.Update(local);
        env.Reports(n);
        return false, err;
      }
    } else {
      if has {
        err := FinalizeAsync(env, az, local);
        env.Reports(n);
        return false, err;
      }
      env.Reports(n);
      return false, false;
    }
    var done, ensureErr := az.Ensure(local);
    var statusErr := env.StatusUpdate(local);
    env.Reports(n);
    return !done, ensureErr || statusErr;
  }

  /** Reconcile of AsyncReconciler: the result says whether to requeue, or fails. */
  method ReconcileAsync<L(!new), R(!new)>(env: Environment<L, R>, az: AsyncClient<L, R>)
    returns (requeue: bool, err: bool)
    requires env.Valid() && !env.c.sync && az.env == env && env.world.pc.Fetching?
    modifies env
    ensures env.Valid() && env.Grown() && env.world.pc == Returned(requeue, err)
    ensures err <==> env.FailedSince(old(|env.acts|)) || env.FoundSince(old(|env.acts|))
    ensures requeue <==> env.NotDoneSince(old(|env.acts|))
  {
    ghost var n := |env.acts|;
    var fetched, getErr := env.Get();
    if fetched.None? {
      env.Reports(n);
      return false, getErr;
    }
    var authErr := env.Authorise(fetched.value);
    if authErr {
      env.Reports(n);
      return false, true;
    }
    requeue, err := ActAsync(env, az, fetched.value);
    env.Reports(n);
  }

  /** The deleting half of Reconcile of SyncReconciler. */
  method FinalizeSync<L(!new), R(!new)>(env: Environment<L, R>, local: Local<L>) returns (err: bool)
    requires env.Valid() && env.c.sync && env.world.pc == Deleting(local.Value())
    modifies env, local, local.meta
    ensures env.Valid() && env.Grown() && env.world.pc == Returned(false, err)
  {
    var deleteErr := env.DeleteNow(local);
    var statusErr := env.StatusUpdate(local);
    if deleteErr || statusErr {
      return true;
    }
    local.meta.RemoveFinalizer(FINALIZER);
    err := env.Update(local);
  }

  /** Reconcile of SyncReconciler once the client is authorised. */
  method ActSync<L(!new), R(!new)>(env: Environment<L, R>, local: Local<L>) returns (err: bool)
    requires env.Valid() && env.c.sync && env.world.pc == Branch(local.Value())
    modifies env, local, local.meta
    ensures env.Valid() && env.Grown() && env.world.pc == Returned(false, err)
    ensures err <==> env.FailedSince(old(|env.acts|)) || env.FoundSince(old(|env.acts|))
  {
    ghost var n := |env.acts|;
    var has := local.meta.HasFinalizer(FINALIZER);
    if !local.deleting {
      if !has {
        local.meta.AddFinalizer(FINALIZER);
        err := env.Update(local);
        env.Reports(n);
        return err;
      }
    } else {
      if has {
        err := FinalizeSync(env, local);
        env.Reports(n);
        return err;
      }
      env.Reports(n);
      return false;
    }
    var ensureErr := env.EnsureNow(local);
    var statusErr := env.StatusUpdate(local);
    env.Reports(n);
    return ensureErr || statusErr;
  }

  /** Reconcile of SyncReconciler. */
  method ReconcileSync<L(!new), R(!new)>(env: Environment<L, R>) returns (err: bool)
    requires env.Valid() && env.c.sync && env.world.pc.Fetching?
    modifies env
    ensures env.Valid() && env.Grown() && env.world.pc == Returned(false, err)
    ensures err <==> env.FailedSince(old(|env.acts|)) || env.FoundSince(old(|env.acts|))
  {
    ghost var n := |env.acts|;
    var fetched, getErr := env.Get();
    if fetched.None? {
      env.Reports(n);
      return getErr;
    }
    var authErr := env.Authorise(fetched.value);
    if authErr {
      env.Reports(n);
      return true;
    }
    err := ActSync(env, fetched.value);
    env.Reports(n);
  }

  /**
   The worker of one asynchronous controller, for any number of turns. Whatever the rest of the
   world does meanwhile, at no point of its history is a resource orphaned, and whenever it
   comes to rest the object is settled.
   */
  method WorkAsync<L(!new), R(!new)>(c: Client<L, R>, turns: nat) returns (env: Environment<L, R>)
    requires !c.sync
    ensures fresh(env) && env.Valid() && env.c == c && env.world.pc.Idle?
    ensures forall i :: 0 <= i < |env.trace| ==> !Orphaned(env.trace[i])
    ensures forall i :: 0 <= i < |env.trace| && Quiescent(env.trace[i]) ==>
              Settled(c, Store(env.trace[i]), env.trace[i].remote)
  {
    env := new Environment(c);
    var az := new AsyncClient(env);
    for i := 0 to turns
      invariant env.Valid() && env.world.pc.Idle?
    {
      var got := env.Dequeue();
      if got {
        var requeue, err := ReconcileAsync(env, az);
        env.Done(requeue, err);
      }
    }
    NoOrphan(c, env.trace, env.acts);
    NoLostWork(c, env.trace, env.acts);
  }

  /** The worker of a synchronous controller whose client is honest. */
  method WorkSync<L(!new), R(!new)>(c: Client<L, R>, turns: nat) returns (env: Environment<L, R>)
    requires c.sync
    ensures fresh(env) && env.Valid() && env.c == c && env.world.pc.Idle?
    ensures c.honestDelete ==> forall i :: 0 <= i < |env.trace| ==> !Orphaned(env.trace[i])
    ensures c.honestEnsure ==>
              forall i :: 0 <= i < |env.trace| && Quiescent(env.trace[i]) ==>
                Settled(c, Store(env.trace[i]), env.trace[i].remote)
  {
    env := new Environment(c);
    for i := 0 to turns
      invariant env.Valid() && env.world.pc.Idle?
    {
      var got := env.Dequeue();
      if got {
        var err := ReconcileSync(env);
        env.Done(false, err);
      }
    }
    if c.honestDelete {
      NoOrphan(c, env.trace, env.acts);
    }
    if c.honestEnsure {
      NoLostWork(c, env.trace, env.acts);
    }
  }
}
