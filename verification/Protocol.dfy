/**
 The finalizer and reconcile protocol: controllers/async_controller.go and
 controllers/sync_controller.go as one labelled transition system over the API server, the
 watch stream that feeds the controller's cache and its work queue, Azure, and one worker.

 A world belongs to one namespaced name and the one Azure resource its spec identifies.
 `L` is the declared spec and `R` the body of the resource as Azure echoes it.
 */
module Protocol {
  import opened Wrappers
  import opened Finalizers

  // ---------------------------------------------------------------- data

  /** Azure's provisioning states, as far as the clients tell them apart. */
  datatype Phase = Updating | Succeeded | Removing | Failed

  datatype Status = Status(id: bool, state: Option<Phase>)

  datatype Object<L> = Object(spec: L, finalizers: seq<string>, deleting: bool, status: Status, rv: nat)

  /** A resource in `Updating` or `Removing` settles after `ticks` more polls. */
  datatype Remote<R> = Absent | Present(body: R, phase: Phase, ticks: nat)

  /**
   What differs between the clients. An asynchronous client issues GET, PUT and DELETE
   separately; a synchronous one hides them behind two calls, which are honest when a nil
   error means that the resource was written, or is gone.
   */
  datatype Client<!L, !R> = Client(
    sync: bool,
    honestEnsure: bool,
    honestDelete: bool,
    needsUpdate: (R, L) -> bool,
    overlay: (Option<R>, L) -> R)

  /** Where the worker is: the call it is about to make and the object it holds. */
  datatype Pc<L, R> =
    | Idle
    | Fetching
    | Fetched(local: Object<L>)
    | Adding(local: Object<L>)
    | Deleting(local: Object<L>)
    | Polling(local: Object<L>)
    | Deleted(local: Object<L>, found: bool, failed: bool)
    | Releasing(local: Object<L>)
    | Ensuring(local: Object<L>)
    | Putting(local: Object<L>, prior: Option<R>)
    | Ensured(local: Object<L>, done: bool, failed: bool)
    | Returned(requeue: bool, err: bool)

  /** `cache` is what the controller reads; `backlog` holds the versions it has not seen yet. */
  datatype World<L, R> = World(
    cache: Option<Object<L>>,
    backlog: seq<Option<Object<L>>>,
    clock: nat,
    remote: Remote<R>,
    pending: bool,
    pc: Pc<L, R>)

  /** How Azure answered DELETE: accepted, 404 or 409, no response at all, or another status. */
  datatype Reply = Accepted | Tolerated | NoResponse | Refused

  datatype Action<L> =
    // users and other controllers, through the API server
    | Create(spec: L, finalizers: seq<string>)
    | Edit(spec: L)
    | Relabel(finalizers: seq<string>)
    | RequestDelete
    // the watch stream and the queue
    | Deliver
    | Resync
    // Azure on its own
    | Tick(fails: bool)
    // the worker, one call at a time
    | Begin
    | Fetch(ok: bool)
    | Authorize(ok: bool)
    | AddWrite(out: Write)
    | Remove(effect: bool, reply: Reply, ticks: nat)
    | Poll(ok: bool)
    | RemoveSync(effect: bool, failed: bool)
    | DeletedStatus(out: Write)
    | Release(out: Write)
    | Look(ok: bool)
    | Put(effect: bool, failed: bool, ticks: nat)
    | EnsureSync(effect: bool, failed: bool)
    | EnsuredStatus(out: Write)
    | Finish

  // ---------------------------------------------------------------- the API server

  /** The versions the cache will go through, the current one first. */
  function Versions<L, R>(w: World<L, R>): seq<Option<Object<L>>> {
    [w.cache] + w.backlog
  }

  function Store<L, R>(w: World<L, R>): Option<Object<L>> {
    if w.backlog == [] then w.cache else w.backlog[|w.backlog| - 1]
  }

  predicate Owned<L>(v: Option<Object<L>>) {
    v.Some? && FINALIZER in v.value.finalizers
  }

  /** The resource version of the copy is still the stored one. */
  predicate Current<L, R>(w: World<L, R>, local: Object<L>) {
    Store(w).Some? && Store(w).value.rv == local.rv
  }

  function Push<L, R>(w: World<L, R>, v: Option<Object<L>>): World<L, R> {
    w.(backlog := w.backlog + [v], clock := w.clock + 1)
  }

  function Stamped<L, R>(w: World<L, R>, o: Object<L>): Option<Object<L>> {
    if o.deleting && o.finalizers == [] then None else Some(o.(rv := w.clock + 1))
  }

  /** Update: the spec and the finalizers of the copy replace the stored ones. */
  function Updated<L, R>(w: World<L, R>, local: Object<L>): World<L, R>
    requires Store(w).Some?
  {
    Push(w, Stamped(w, Store(w).value.(spec := local.spec, finalizers := local.finalizers)))
  }

  /** Status().Update: writes the status only, and nothing at all when it is unchanged. */
  function StatusUpdated<L, R>(w: World<L, R>, local: Object<L>): World<L, R>
    requires Store(w).Some?
  {
    if Store(w).value.status == local.status then w
    else Push(w, Some(Store(w).value.(status := local.status, rv := w.clock + 1)))
  }

  // ---------------------------------------------------------------- Azure

  function Body<R>(r: Remote<R>): Option<R> {
    if r.Absent? then None else Some(r.body)
  }

  /** The status the clients derive from a response: a 404 clears the id and keeps the state. */
  function Observed<R>(s: Status, r: Remote<R>): Status {
    if r.Absent? then Status(false, s.state) else Status(true, Some(r.phase))
  }

  /** The status after a call that brought no resource back. */
  function Unobserved(s: Status): Status {
    Status(false, s.state)
  }

  predicate Busy<R>(r: Remote<R>) {
    r.Present? && (r.phase.Updating? || r.phase.Removing?)
  }

  function Ticked<R>(r: Remote<R>, fails: bool): Remote<R>
    requires Busy(r)
  {
    if r.ticks > 0 then r.(ticks := r.ticks - 1)
    else if fails then r.(phase := Failed)
    else if r.phase.Updating? then r.(phase := Succeeded)
    else Absent
  }

  /** The resource is what the spec asks for. */
  predicate Matches<L, R>(c: Client<L, R>, r: Remote<R>, spec: L) {
    r.Present? && r.phase.Succeeded? && !c.needsUpdate(r.body, spec)
  }

  // ---------------------------------------------------------------- steps

  predicate Enabled<L, R>(c: Client<L, R>, w: World<L, R>, a: Action<L>) {
    match a
    case Create(_, _) => Store(w).None?
    case Edit(_) => Store(w).Some?
    case Relabel(fs) => Store(w).Some? && (FINALIZER in fs <==> FINALIZER in Store(w).value.finalizers)
    case RequestDelete => Store(w).Some? && !Store(w).value.deleting
    case Deliver => w.backlog != []
    case Resync => true
    case Tick(_) => Busy(w.remote)
    case Begin => w.pc.Idle? && w.pending
    case Fetch(_) => w.pc.Fetching?
    case Authorize(_) => w.pc.Fetched?
    case AddWrite(out) => w.pc.Adding? && (out.Rejected? || Current(w, w.pc.local))
    case Remove(effect, _, _) =>
      w.pc.Deleting? && !c.sync && (effect ==> w.remote.Present? && !w.remote.phase.Removing?)
    case Poll(_) => w.pc.Polling?
    case RemoveSync(effect, failed) =>
      w.pc.Deleting? && c.sync && (c.honestDelete && !failed ==> effect || w.remote.Absent?)
    case DeletedStatus(out) => w.pc.Deleted? && (out.Rejected? || Current(w, w.pc.local))
    case Release(out) => w.pc.Releasing? && (out.Rejected? || Current(w, w.pc.local))
    case Look(_) => w.pc.Ensuring? && !c.sync
    case Put(_, _, _) => w.pc.Putting?
    case EnsureSync(effect, failed) =>
      w.pc.Ensuring? && c.sync &&
      (c.honestEnsure && !failed ==>
         if effect then !c.needsUpdate(c.overlay(Body(w.remote), w.pc.local.spec), w.pc.local.spec)
         else Matches(c, w.remote, w.pc.local.spec))
    case EnsuredStatus(out) => w.pc.Ensured? && (out.Rejected? || Current(w, w.pc.local))
    case Finish => w.pc.Returned?
  }

  /** Reconcile after the fetch and ForSubscription: which call comes next. */
  function Branch<L, R>(l: Object<L>): Pc<L, R> {
    if !l.deleting then
      if FINALIZER in l.finalizers then Ensuring(l) else Adding(l.(finalizers := With(l.finalizers, FINALIZER)))
    else
      if FINALIZER in l.finalizers then Deleting(l) else Returned(false, false)
  }

  /** Ensure after its GET: nothing to do, wait, or overlay the spec on what was found. */
  function AfterLook<L, R>(c: Client<L, R>, l: Object<L>, r: Remote<R>): Pc<L, R> {
    var l' := l.(status := Observed(l.status, r));
    if r.Absent? then Putting(l', None)
    else if l'.status.state != Some(Succeeded) then Ensured(l', false, false)
    else if c.needsUpdate(r.body, l.spec) then Putting(l', Some(r.body))
    else Ensured(l', true, false)
  }

  function Step<L, R>(c: Client<L, R>, w: World<L, R>, a: Action<L>): World<L, R>
    requires Enabled(c, w, a)
  {
    match a
    case Create(spec, fs) =>
      Push(w, Some(Object(spec, fs, false, Status(false, None), w.clock + 1)))
    case Edit(spec) => Push(w, Stamped(w, Store(w).value.(spec := spec)))
    case Relabel(fs) => Push(w, Stamped(w, Store(w).value.(finalizers := fs)))
    case RequestDelete => Push(w, Stamped(w, Store(w).value.(deleting := true)))
    case Deliver => w.(cache := w.backlog[0], backlog := w.backlog[1..], pending := true)
    case Resync => w.(pending := true)
    case Tick(fails) => w.(remote := Ticked(w.remote, fails))
    case Begin => w.(pending := false, pc := Fetching)
    case Fetch(ok) =>
      w.(pc := if !ok then Returned(false, true)
               else if w.cache.None? then Returned(false, false)
               else Fetched(w.cache.value))
    case Authorize(ok) => w.(pc := if ok then Branch(w.pc.local) else Returned(false, true))
    case AddWrite(out) =>
      (if out.Rejected? then w else Updated(w, w.pc.local)).(pc := Returned(false, !out.Applied?))
    case Remove(effect, reply, ticks) =>
      w.(remote := if effect then w.remote.(phase := Removing, ticks := ticks) else w.remote,
         pc := if reply.Refused? then Deleted(w.pc.local, false, true) else Polling(w.pc.local))
    case Poll(ok) =>
      w.(pc := if ok
               then Deleted(w.pc.local.(status := Observed(w.pc.local.status, w.remote)), w.remote.Present?, false)
               else Deleted(w.pc.local.(status := Unobserved(w.pc.local.status)), true, true))
    case RemoveSync(effect, failed) =>
      w.(remote := if effect then Absent else w.remote, pc := Deleted(w.pc.local, false, failed))
    case DeletedStatus(out) =>
      var l := w.pc.local;
      var w' := if out.Rejected? then w else StatusUpdated(w, l);
      w'.(pc := if w.pc.failed || !out.Applied? || w.pc.found then Returned(false, true)
                else Releasing(l.(finalizers := Without(l.finalizers, FINALIZER), rv := Store(w').value.rv)))
    case Release(out) =>
      (if out.Rejected? then w else Updated(w, w.pc.local)).(pc := Returned(false, !out.Applied?))
    case Look(ok) =>
      w.(pc := if ok then AfterLook(c, w.pc.local, w.remote)
               else Ensured(w.pc.local.(status := Unobserved(w.pc.local.status)), false, true))
    case Put(effect, failed, ticks) =>
      w.(remote := if effect then Present(c.overlay(w.pc.prior, w.pc.local.spec), Updating, ticks) else w.remote,
         pc := Ensured(w.pc.local, false, failed))
    case EnsureSync(effect, failed) =>
      var l := w.pc.local;
      w.(remote := if effect then Present(c.overlay(Body(w.remote), l.spec), Succeeded, 0) else w.remote,
         pc := Ensured(l.(status := Observed(l.status, w.remote)), true, failed))
    case EnsuredStatus(out) =>
      (if out.Rejected? then w else StatusUpdated(w, w.pc.local))
      .(pc := Returned(!w.pc.done, w.pc.failed || !out.Applied?))
    case Finish => w.(pending := w.pending || w.pc.requeue || w.pc.err, pc := Idle)
  }

  // ---------------------------------------------------------------- runs

  /** Nothing declared, nothing deployed, nothing queued. */
  ghost predicate Initial<L, R>(w: World<L, R>) {
    w.cache.None? && w.backlog == [] && w.remote.Absent? && !w.pending && w.pc.Idle?
  }

  /** Action `i` was enabled and led to the next world. */
  ghost predicate Taken<L(!new), R(!new)>(c: Client<L, R>, tr: seq<World<L, R>>, acts: seq<Action<L>>, i: nat)
    requires i < |acts| < |tr|
  {
    Enabled(c, tr[i], acts[i]) && tr[i + 1] == Step(c, tr[i], acts[i])
  }

  /** `tr` lists the worlds of a run and `acts` the actions between them. */
  ghost predicate Run<L(!new), R(!new)>(c: Client<L, R>, tr: seq<World<L, R>>, acts: seq<Action<L>>) {
    |tr| == |acts| + 1 && forall i :: 0 <= i < |acts| ==> Taken(c, tr, acts, i)
  }

  /** The calls of the worker that write to the API server or to Azure. */
  predicate ByWorker<L>(a: Action<L>) {
    !a.Create? && !a.Edit? && !a.Relabel? && !a.RequestDelete? && !a.Deliver? && !a.Resync? && !a.Tick?
  }

  /** Actions that change what the user declares. */
  predicate ByUser<L>(a: Action<L>) {
    a.Create? || a.Edit? || a.Relabel? || a.RequestDelete?
  }
}
