/**
 Convergence: once edits and failures stop, every run of the asynchronous controller comes to
 rest within a computed number of steps, with the object reconciled or deleted.
 */
module Convergence {
  import opened Wrappers
  import opened Finalizers
  import opened Protocol
  import opened Safety
  import opened Progress

  // ---------------------------------------------------------------- quiet steps

  /**
   The calm after edits and failures: how many ticks an Azure operation may need, and whether a
   pass may begin while versions are still on their way to the cache.
   */
  datatype Calm = Calm(ticks: nat, lagging: bool)

  /** Without failures a write is rejected only for being out of date. */
  predicate Prompt<L, R>(w: World<L, R>, out: Write)
    requires w.pc.Adding? || w.pc.Deleted? || w.pc.Releasing? || w.pc.Ensured?
  {
    if Current(w, w.pc.local) then out.Applied? else out.Rejected?
  }

  /** No user acts, no call fails, and an Azure operation succeeds within the ticks granted. */
  predicate Quiet<L, R>(c: Client<L, R>, calm: Calm, w: World<L, R>, a: Action<L>) {
    Enabled(c, w, a) && !ByUser(a) && !a.Resync? &&
    match a
    case Tick(fails) => !fails
    case Begin => calm.lagging || w.backlog == []
    case Fetch(ok) => ok
    case Authorize(ok) => ok
    case AddWrite(out) => Prompt(w, out)
    case Remove(effect, reply, ticks) =>
      !reply.Refused? && ticks <= calm.ticks && (effect <==> w.remote.Present? && !w.remote.phase.Removing?)
    case Poll(ok) => ok
    case DeletedStatus(out) => Prompt(w, out)
    case Release(out) => Prompt(w, out)
    case Look(ok) => ok
    case Put(effect, failed, ticks) => effect && !failed && ticks <= calm.ticks
    case EnsuredStatus(out) => Prompt(w, out)
    case _ => true
  }

  function Settling<R>(r: Remote<R>): Remote<R> {
    if Busy(r) then Ticked(r, false) else r
  }

  /** Before a pass over a busy resource comes a tick, and before one over a lagging cache a delivery. */
  function Prepared<L, R>(w: World<L, R>): World<L, R> {
    var w1 := w.(remote := Settling(w.remote));
    if w.backlog == [] then w1 else w1.(cache := w.backlog[0], backlog := w.backlog[1..])
  }

  function QuietStep<L, R>(c: Client<L, R>, calm: Calm, w: World<L, R>, a: Action<L>): World<L, R>
    requires Quiet(c, calm, w, a)
  {
    Step(c, if a.Begin? then Prepared(w) else w, a)
  }

  ghost predicate QuietlyTaken<L(!new), R(!new)>(
      c: Client<L, R>, calm: Calm, tr: seq<World<L, R>>, acts: seq<Action<L>>, i: nat)
    requires i < |acts| < |tr|
  {
    Quiet(c, calm, tr[i], acts[i]) && tr[i + 1] == QuietStep(c, calm, tr[i], acts[i])
  }

  ghost predicate QuietRun<L(!new), R(!new)>(c: Client<L, R>, calm: Calm, tr: seq<World<L, R>>, acts: seq<Action<L>>) {
    |tr| == |acts| + 1 && forall i :: 0 <= i < |acts| ==> QuietlyTaken(c, calm, tr, acts, i)
  }

  /** What comes before a pass, step by step. */
  lemma PreparedBySteps<L(!new), R(!new)>(c: Client<L, R>, tr: seq<World<L, R>>, acts: seq<Action<L>>)
    returns (tr': seq<World<L, R>>, acts': seq<Action<L>>)
    requires Run(c, tr, acts)
    ensures Run(c, tr', acts') && tr <= tr' && acts <= acts'
    ensures tr'[|acts'|] == Prepared(tr[|acts|]).(pending := tr'[|acts'|].pending)
    ensures tr[|acts|].pending ==> tr'[|acts'|].pending
    ensures forall j :: |acts| <= j < |acts'| ==> acts'[j] == Tick(false) || acts'[j].Deliver?
  {
    var w := tr[|acts|];
    tr', acts' := tr, acts;
    if Busy(w.remote) {
      tr', acts' := Extend(c, tr', acts', Tick(false));
    }
    if w.backlog != [] {
      tr', acts' := Extend(c, tr', acts', Deliver);
    }
  }

  /** A quiet step is a step of the protocol, after a tick or a delivery if it begins a pass. */
  lemma QuietStepsAreSteps<L(!new), R(!new)>(
      c: Client<L, R>, calm: Calm, tr: seq<World<L, R>>, acts: seq<Action<L>>, a: Action<L>)
    returns (tr': seq<World<L, R>>, acts': seq<Action<L>>)
    requires Run(c, tr, acts) && Quiet(c, calm, tr[|acts|], a)
    ensures Run(c, tr', acts') && tr <= tr' && acts <= acts'
    ensures tr'[|acts'|] == QuietStep(c, calm, tr[|acts|], a)
    ensures forall j :: |acts| <= j < |acts'| ==> !ByUser(acts'[j])
    ensures forall j :: |acts| <= j < |acts'| - 1 ==> a.Begin? && (acts'[j] == Tick(false) || acts'[j].Deliver?)
  {
    if a.Begin? {
      tr', acts' := PreparedBySteps(c, tr, acts);
    } else {
      tr', acts' := tr, acts;
    }
    tr', acts' := Extend(c, tr', acts', a);
  }

  /** A quiet run continues any run of the protocol, without user actions. */
  lemma {:induction false} ContinueQuietly<L(!new), R(!new)>(
      c: Client<L, R>, calm: Calm, tr: seq<World<L, R>>, acts: seq<Action<L>>,
      rest: seq<World<L, R>>, quiet: seq<Action<L>>, k: nat)
    returns (tr': seq<World<L, R>>, acts': seq<Action<L>>)
    requires Run(c, tr, acts) && QuietRun(c, calm, rest, quiet) && rest[0] == tr[|acts|] && k <= |quiet|
    ensures Run(c, tr', acts') && tr <= tr' && acts <= acts' && tr'[|acts'|] == rest[k]
    ensures forall j :: |acts| <= j < |acts'| ==> !ByUser(acts'[j])
  {
    if k == 0 {
      tr', acts' := tr, acts;
    } else {
      tr', acts' := ContinueQuietly(c, calm, tr, acts, rest, quiet, k - 1);
      var w, a := rest[k - 1], quiet[k - 1];
      assert QuietlyTaken(c, calm, rest, quiet, k - 1);
      tr', acts' := QuietStepsAreSteps(c, calm, tr', acts', a);
    }
  }

  // ---------------------------------------------------------------- what convergence asks of a client

  ghost predicate Closed<L(!new), R(!new)>(c: Client<L, R>, spec: L, good: iset<R>) {
    c.overlay(None, spec) in good &&
    forall b {:trigger c.overlay(Some(b), spec)} :: b in good ==> c.overlay(Some(b), spec) in good
  }

  /** One accepted write over nothing, or over a good body, satisfies `spec`. */
  ghost predicate Repairs<L(!new), R(!new)>(c: Client<L, R>, spec: L, good: iset<R>) {
    Closed(c, spec, good) && !c.needsUpdate(c.overlay(None, spec), spec) &&
    forall b {:trigger c.overlay(Some(b), spec)} :: b in good ==> !c.needsUpdate(c.overlay(Some(b), spec), spec)
  }

  predicate Declares<L>(v: Option<Object<L>>) {
    v.Some? && !v.value.deleting
  }

  /** The resource of a declared object can be repaired. */
  ghost predicate Repairable<L(!new), R(!new)>(
      c: Client<L, R>, calm: Calm, v: Option<Object<L>>, r: Remote<R>, good: iset<R>) {
    (Busy(r) ==> r.ticks <= calm.ticks) &&
    (Declares(v) ==>
       Repairs(c, v.value.spec, good) &&
       (r.Present? ==> !r.phase.Failed? && (r.phase.Removing? || r.body in good)))
  }

  /** A pass that is about to fetch may still be shown any of the versions in play; so may later ones under a lag. */
  ghost predicate VersionsClosed<L(!new), R(!new)>(c: Client<L, R>, calm: Calm, w: World<L, R>, good: iset<R>) {
    calm.lagging || w.pc.Fetching? ==>
      forall i :: 0 <= i < |Versions(w)| && Declares(Versions(w)[i]) ==> Closed(c, Versions(w)[i].value.spec, good)
  }

  ghost predicate CopyClosed<L(!new), R(!new)>(c: Client<L, R>, w: World<L, R>, good: iset<R>) {
    match w.pc
    case Fetched(l) => l.deleting || Closed(c, l.spec, good)
    case Ensuring(l) => Closed(c, l.spec, good)
    case Putting(l, prior) => Closed(c, l.spec, good) && (prior.Some? && Declares(Store(w)) ==> prior.value in good)
    case _ => true
  }

  /** A copy that is still the stored object has been delivered, but for the worker's own status write. */
  ghost predicate Seen<L(!new), R(!new)>(w: World<L, R>) {
    match w.pc
    case Idle => true
    case Fetching => true
    case Returned(_, _) => true
    case Releasing(l) => Current(w, l) ==> |w.backlog| <= 1 && Owned(Store(w))
    case Fetched(l) => Current(w, l) ==> w.backlog == [] && w.cache == Some(l)
    case Adding(l) => Current(w, l) ==> w.backlog == []
    case _ => Current(w, w.pc.local) ==> w.backlog == [] && Owned(Store(w))
  }

  lemma DeliverKeepsSeen<L(!new), R(!new)>(c: Client<L, R>, w: World<L, R>)
    requires Seen(w) && Enabled(c, w, Deliver)
    ensures Seen(Step(c, w, Deliver))
  {
    assert Store(Step(c, w, Deliver)) == Store(w);
  }

  /** What users do makes every copy outdated. */
  lemma UserKeepsSeen<L(!new), R(!new)>(c: Client<L, R>, w: World<L, R>, a: Action<L>)
    requires Safe(w) && Seen(w) && Enabled(c, w, a) && ByUser(a)
    ensures Seen(Step(c, w, a))
  {
    var w' := Step(c, w, a);
    assert Store(w').None? || Store(w').value.rv == w.clock + 1;
  }

  lemma OthersKeepSeen<L(!new), R(!new)>(c: Client<L, R>, w: World<L, R>, a: Action<L>)
    requires Safe(w) && Seen(w) && Enabled(c, w, a) && !ByWorker(a)
    ensures Seen(Step(c, w, a))
  {
    if ByUser(a) {
      UserKeepsSeen(c, w, a);
    } else if a.Deliver? {
      DeliverKeepsSeen(c, w);
    }
  }

  lemma WritesKeepSeen<L(!new), R(!new)>(c: Client<L, R>, w: World<L, R>, a: Action<L>)
    requires Safe(w) && Seen(w) && Enabled(c, w, a)
    requires a.AddWrite? || a.DeletedStatus? || a.Release? || a.EnsuredStatus?
    ensures Seen(Step(c, w, a))
  {
  }

  lemma FetchKeepsSeen<L(!new), R(!new)>(c: Client<L, R>, w: World<L, R>, ok: bool)
    requires Safe(w) && Enabled(c, w, Action.Fetch(ok))
    ensures Seen(Step(c, w, Action.Fetch(ok)))
  {
    if w.cache.Some? && Current(w, w.cache.value) {
      CurrentMeansDelivered(w);
    }
  }

  lemma AuthorizeKeepsSeen<L(!new), R(!new)>(c: Client<L, R>, w: World<L, R>, ok: bool)
    requires Seen(w) && Safe(w) && Enabled(c, w, Authorize(ok))
    ensures Seen(Step(c, w, Authorize(ok)))
  {
  }

  lemma CallsKeepSeen<L(!new), R(!new)>(c: Client<L, R>, w: World<L, R>, a: Action<L>)
    requires Safe(w) && Seen(w) && Enabled(c, w, a) && ByWorker(a)
    requires !(a.AddWrite? || a.DeletedStatus? || a.Release? || a.EnsuredStatus?)
    ensures Seen(Step(c, w, a))
  {
    if a.Fetch? {
      FetchKeepsSeen(c, w, a.ok);
    } else if a.Authorize? {
      AuthorizeKeepsSeen(c, w, a.ok);
    } else {
      assert Store(Step(c, w, a)) == Store(w);
    }
  }

  lemma StepKeepsSeen<L(!new), R(!new)>(c: Client<L, R>, w: World<L, R>, a: Action<L>)
    requires Safe(w) && Seen(w) && Enabled(c, w, a)
    ensures Seen(Step(c, w, a))
  {
    if !ByWorker(a) {
      OthersKeepSeen(c, w, a);
    } else if a.AddWrite? || a.DeletedStatus? || a.Release? || a.EnsuredStatus? {
      WritesKeepSeen(c, w, a);
    } else {
      CallsKeepSeen(c, w, a);
    }
  }

  lemma {:induction false} RunIsSeen<L(!new), R(!new)>(
      c: Client<L, R>, tr: seq<World<L, R>>, acts: seq<Action<L>>, i: nat)
    requires Run(c, tr, acts) && Initial(tr[0]) && i < |tr|
    requires c.sync ==> c.honestDelete
    ensures Seen(tr[i])
  {
    if i == 0 {
    } else {
      RunIsSeen(c, tr, acts, i - 1);
      RunIsSafe(c, tr, acts, i - 1);
      assert Taken(c, tr, acts, i - 1);
      StepKeepsSeen(c, tr[i - 1], acts[i - 1]);
    }
  }

  /** The state from which convergence starts and that quiet steps keep. */
  ghost predicate Convergent<L(!new), R(!new)>(c: Client<L, R>, calm: Calm, w: World<L, R>, good: iset<R>) {
    !c.sync && Repairable(c, calm, Store(w), w.remote, good) &&
    VersionsClosed(c, calm, w, good) && CopyClosed(c, w, good) &&
    Safe(w) && Working(c, w) && Seen(w)
  }

  // ---------------------------------------------------------------- the measure

  /** Passes still needed when a pass over a declared, owned object finds the remote like this. */
  function LiveWork<L, R>(c: Client<L, R>, calm: Calm, spec: L, synced: bool, r: Remote<R>): nat {
    if r.Absent? then calm.ticks + 4
    else match r.phase
      case Succeeded => if c.needsUpdate(r.body, spec) then calm.ticks + 4 else if synced then 0 else 1
      case Updating => r.ticks + if c.needsUpdate(r.body, spec) then calm.ticks + 5 else 2
      case Removing => r.ticks + calm.ticks + 5
      case Failed => 0
  }

  function DeleteWork<R>(calm: Calm, r: Remote<R>): nat {
    if r.Absent? then 1
    else if r.phase.Removing? then r.ticks + 2
    else calm.ticks + 3
  }

  predicate Synced<L, R>(o: Object<L>, r: Remote<R>) {
    o.status == Observed(o.status, r)
  }

  /** Passes still needed after one that starts from this stored object and this remote. */
  function PassWork<L, R>(c: Client<L, R>, calm: Calm, v: Option<Object<L>>, r: Remote<R>): nat {
    if v.None? then 0
    else if v.value.deleting then if Owned(v) then DeleteWork(calm, r) else 0
    else if Owned(v) then LiveWork(c, calm, v.value.spec, Synced(v.value, r), r)
    else calm.ticks + 5
  }

  /** Passes still needed from an idle worker that has something queued. */
  function IdleWork<L, R>(c: Client<L, R>, calm: Calm, w: World<L, R>): nat {
    1 + PassWork(c, calm, Store(w), Settling(w.remote))
  }

  function Ceiling(calm: Calm): nat {
    2 * calm.ticks + 8
  }

  /** Nothing is left to be done for the object. */
  predicate Gone<L>(v: Option<Object<L>>) {
    v.None? || (v.value.deleting && !Owned(v))
  }

  /** Passes that undelivered versions may still start, now and after the release of the finalizer. */
  function Lag<L, R>(w: World<L, R>): nat {
    (if |w.backlog| <= 1 then 0 else 3 * (|w.backlog| - 1)) + if Gone(Store(w)) then 0 else 3
  }

  /** The copy in hand is the stored object and nothing is queued behind it. */
  ghost predicate Fresh<L(!new), R(!new)>(w: World<L, R>) {
    match w.pc
    case Idle => true
    case Returned(_, _) => true
    case Fetching => !w.pending && w.backlog == []
    case Fetched(l) => !w.pending && w.backlog == [] && w.cache == Some(l)
    case Adding(l) => !w.pending && w.backlog == [] && Current(w, l) && !Owned(Store(w))
    case Releasing(l) => Current(w, l)
    case _ => !w.pending && w.backlog == [] && Current(w, w.pc.local) && Owned(Store(w))
  }

  predicate Waiting<L, R>(w: World<L, R>) {
    w.pending || w.backlog != []
  }

  /** Passes still needed from an idle worker: over a lagging cache anything may come first. */
  function LaggedWork<L, R>(c: Client<L, R>, calm: Calm, w: World<L, R>): nat {
    if |w.backlog| <= 1 || Gone(Store(w)) then IdleWork(c, calm, w) else Ceiling(calm)
  }

  function FreshWork<L, R>(c: Client<L, R>, calm: Calm, w: World<L, R>): nat {
    match w.pc
    case Idle => if Waiting(w) then LaggedWork(c, calm, w) else 0
    case Returned(requeue, err) => if requeue || err || Waiting(w) then LaggedWork(c, calm, w) else 0
    case Putting(_, _) => calm.ticks + 4
    case Releasing(_) => 1
    case Polling(_) => if w.remote.Absent? then 1 else IdleWork(c, calm, w)
    case Deleted(_, found, failed) => if found || failed then IdleWork(c, calm, w) else 1
    case Ensured(l, done, failed) =>
      if !done || failed then 1 + LiveWork(c, calm, l.spec, false, Settling(w.remote))
      else if Store(w).Some? && Store(w).value.status == l.status then 0 else 1
    case _ => PassWork(c, calm, Store(w), w.remote)
  }

  /** An upper bound for a pass that acts on anything but the stored object. */
  function StaleWork<L, R>(calm: Calm, w: World<L, R>): nat {
    (if Gone(Store(w)) then 1 else Ceiling(calm)) +
    if w.pc.Polling? || w.pc.Deleted? || w.pc.Ensured? || w.pc.Releasing? then 1 else 2
  }

  ghost function BaseWork<L(!new), R(!new)>(c: Client<L, R>, calm: Calm, w: World<L, R>): nat {
    if Fresh(w) then FreshWork(c, calm, w) else StaleWork(calm, w)
  }

  /** An upper bound on the passes still needed, counted from wherever the worker is. */
  ghost function Work<L(!new), R(!new)>(c: Client<L, R>, calm: Calm, w: World<L, R>): nat {
    BaseWork(c, calm, w) + Lag(w)
  }

  function Rank<L, R>(pc: Pc<L, R>): nat {
    match pc
    case Idle => 0
    case Returned(_, _) => 5
    case Releasing(_) => 10
    case Deleted(_, _, _) => 16
    case Ensured(_, _, _) => 16
    case Polling(_) => 20
    case Putting(_, _) => 20
    case Adding(_) => 24
    case Deleting(_) => 24
    case Ensuring(_) => 24
    case Fetched(_) => 27
    case Fetching => 30
  }

  function Slack<L, R>(w: World<L, R>): nat {
    Rank(w.pc) + 2 * |w.backlog| + (if w.pending then 1 else 0) + (if Busy(w.remote) then w.remote.ticks + 1 else 0)
  }

  /** The number of quiet steps after which the controller is certainly at rest. */
  ghost function Measure<L(!new), R(!new)>(c: Client<L, R>, calm: Calm, w: World<L, R>): nat {
    Work(c, calm, w) * (calm.ticks + 40) + Slack(w)
  }

  ghost predicate Drops<L(!new), R(!new)>(c: Client<L, R>, calm: Calm, w: World<L, R>, w': World<L, R>) {
    (Work(c, calm, w') <= Work(c, calm, w) && Slack(w') < Slack(w)) ||
    (Work(c, calm, w') < Work(c, calm, w) && Slack(w') < Slack(w) + calm.ticks + 40)
  }

  lemma MulMonotone(x: nat, x': nat, k: nat)
    requires x' < x
    ensures x' * k + k <= x * k
  {
    assert x * k == (x - x' - 1) * k + (x' + 1) * k;
  }

  lemma DropsMeasure<L(!new), R(!new)>(c: Client<L, R>, calm: Calm, w: World<L, R>, w': World<L, R>)
    requires Drops(c, calm, w, w')
    ensures Measure(c, calm, w') < Measure(c, calm, w)
  {
    var x, x' := Work(c, calm, w), Work(c, calm, w');
    if x' < x {
      MulMonotone(x, x', calm.ticks + 40);
    }
  }

  // ---------------------------------------------------------------- every quiet step keeps the state

  ghost predicate SameDeclaration<L>(v: Option<Object<L>>, v': Option<Object<L>>) {
    (Declares(v) <==> Declares(v')) && (Declares(v) ==> v'.value.spec == v.value.spec)
  }

  lemma PreparedIsSafe<L(!new), R(!new)>(c: Client<L, R>, w: World<L, R>)
    requires !c.sync && Safe(w) && Working(c, w) && Seen(w) && w.pc.Idle? && w.pending
    ensures var w' := Prepared(w);
            Safe(w') && Working(c, w') && Seen(w') && Store(w') == Store(w) && Enabled(c, w', Begin)
  {
    var w1 := w;
    if Busy(w.remote) {
      w1 := Step(c, w, Tick(false));
      StepKeepsSafe(c, w, Tick(false));
      StepKeepsWorking(c, w, Tick(false));
    }
    if w1.backlog != [] {
      StepKeepsSafe(c, w1, Deliver);
      StepKeepsWorking(c, w1, Deliver);
      assert Prepared(w) == Step(c, w1, Deliver);
    } else {
      assert Prepared(w) == w1;
    }
  }

  lemma QuietKeepsSafe<L(!new), R(!new)>(c: Client<L, R>, calm: Calm, w: World<L, R>, a: Action<L>)
    requires !c.sync && Safe(w) && Working(c, w) && Seen(w) && Quiet(c, calm, w, a)
    ensures var w' := QuietStep(c, calm, w, a); Safe(w') && Working(c, w') && Seen(w')
  {
    var w1 := w;
    if a.Begin? {
      PreparedIsSafe(c, w);
      w1 := Prepared(w);
    }
    StepKeepsSafe(c, w1, a);
    StepKeepsWorking(c, w1, a);
    StepKeepsSeen(c, w1, a);
  }

  /** A quiet step leaves the stored declaration alone, except that a released object goes. */
  lemma QuietKeepsDeclaration<L(!new), R(!new)>(c: Client<L, R>, calm: Calm, w: World<L, R>, a: Action<L>)
    requires !c.sync && Safe(w) && Quiet(c, calm, w, a)
    ensures SameDeclaration(Store(w), Store(QuietStep(c, calm, w, a)))
  {
    if a.Begin? {
      assert Store(Prepared(w)) == Store(w);
    } else if ByWorker(a) {
      WorkerWritesOnlyItsOwn(c, w, a);
    } else if a.Deliver? {
      assert Store(Step(c, w, a)) == Store(w);
    }
  }

  /** What a quiet step does to the versions, and when it starts a fetch. */
  lemma QuietMovesVersions<L(!new), R(!new)>(c: Client<L, R>, calm: Calm, w: World<L, R>, a: Action<L>)
    requires Quiet(c, calm, w, a)
    ensures var vs, w' := Versions(w), QuietStep(c, calm, w, a);
            Versions(w') == vs || Versions(w') == vs[1..] || Versions(w') == vs + [Store(w')]
    ensures Versions(w)[|Versions(w)| - 1] == Store(w)
    ensures QuietStep(c, calm, w, a).pc.Fetching? ==> w.pc.Fetching? || w.backlog == [] || calm.lagging
  {
    if a.Begin? {
      var vs, w' := Versions(w), QuietStep(c, calm, w, a);
      assert Versions(w') == if w.backlog == [] then vs else vs[1..];
    } else {
      StepMovesVersions(c, w, a);
    }
  }

  lemma VersionsStayClosed<L(!new), R(!new)>(
      c: Client<L, R>, calm: Calm, w: World<L, R>, w': World<L, R>, good: iset<R>)
    requires Repairable(c, calm, Store(w), w.remote, good) && VersionsClosed(c, calm, w, good)
    requires SameDeclaration(Store(w), Store(w'))
    requires var vs := Versions(w);
             (Versions(w') == vs || Versions(w') == vs[1..] || Versions(w') == vs + [Store(w')]) &&
             vs[|vs| - 1] == Store(w)
    requires w'.pc.Fetching? ==> w.pc.Fetching? || w.backlog == [] || calm.lagging
    ensures VersionsClosed(c, calm, w', good)
  {
  }

  lemma QuietKeepsClosed<L(!new), R(!new)>(
      c: Client<L, R>, calm: Calm, w: World<L, R>, a: Action<L>, good: iset<R>)
    requires Convergent(c, calm, w, good) && Quiet(c, calm, w, a)
    ensures VersionsClosed(c, calm, QuietStep(c, calm, w, a), good)
  {
    QuietKeepsDeclaration(c, calm, w, a);
    QuietMovesVersions(c, calm, w, a);
    VersionsStayClosed(c, calm, w, QuietStep(c, calm, w, a), good);
  }

  /** What a quiet step may do to the resource. */
  ghost predicate RemoteMoves<L, R>(c: Client<L, R>, calm: Calm, w: World<L, R>, a: Action<L>, r: Remote<R>) {
    if a.Put? && w.pc.Putting? then
      r.Present? && r.body == c.overlay(w.pc.prior, w.pc.local.spec) && r.phase.Updating? && r.ticks <= calm.ticks
    else if a.Remove? && w.remote.Present? then
      r == w.remote || (r.Present? && r.body == w.remote.body && r.phase.Removing? && r.ticks <= calm.ticks)
    else r == w.remote || r == Settling(w.remote)
  }

  lemma QuietMovesRemote<L(!new), R(!new)>(c: Client<L, R>, calm: Calm, w: World<L, R>, a: Action<L>)
    requires !c.sync && Quiet(c, calm, w, a)
    ensures RemoteMoves(c, calm, w, a, QuietStep(c, calm, w, a).remote)
  {
  }

  lemma QuietKeepsRepairable<L(!new), R(!new)>(
      c: Client<L, R>, calm: Calm, w: World<L, R>, a: Action<L>, r: Remote<R>, v: Option<Object<L>>, good: iset<R>)
    requires Repairable(c, calm, Store(w), w.remote, good) && CopyClosed(c, w, good)
    requires RemoteMoves(c, calm, w, a, r)
    requires SameDeclaration(Store(w), v)
    ensures Repairable(c, calm, v, r, good)
  {
    if w.pc.Putting? && w.pc.prior.Some? {
      assert w.pc.prior == Some(w.pc.prior.value);
    }
  }

  lemma QuietKeepsCopy<L(!new), R(!new)>(c: Client<L, R>, calm: Calm, w: World<L, R>, a: Action<L>, good: iset<R>)
    requires !c.sync && Quiet(c, calm, w, a)
    requires Repairable(c, calm, Store(w), w.remote, good) && CopyClosed(c, w, good)
    requires w.pc.Fetching? && Declares(w.cache) ==> Closed(c, w.cache.value.spec, good)
    requires SameDeclaration(Store(w), Store(QuietStep(c, calm, w, a)))
    ensures CopyClosed(c, QuietStep(c, calm, w, a), good)
  {
  }

  lemma QuietKeepsConvergent<L(!new), R(!new)>(c: Client<L, R>, calm: Calm, w: World<L, R>, a: Action<L>, good: iset<R>)
    requires Convergent(c, calm, w, good) && Quiet(c, calm, w, a)
    ensures Convergent(c, calm, QuietStep(c, calm, w, a), good)
  {
    QuietKeepsSafe(c, calm, w, a);
    QuietKeepsClosed(c, calm, w, a, good);
    QuietKeepsDeclaration(c, calm, w, a);
    assert Versions(w)[0] == w.cache;
    QuietMovesRemote(c, calm, w, a);
    QuietKeepsRepairable(c, calm, w, a, QuietStep(c, calm, w, a).remote, Store(QuietStep(c, calm, w, a)), good);
    QuietKeepsCopy(c, calm, w, a, good);
  }

  // ---------------------------------------------------------------- every quiet step drops the measure

  lemma CeilingHolds<L(!new), R(!new)>(c: Client<L, R>, calm: Calm, w: World<L, R>)
    requires Busy(w.remote) ==> w.remote.ticks <= calm.ticks
    ensures IdleWork(c, calm, w) <= Ceiling(calm) && LaggedWork(c, calm, w) <= Ceiling(calm)
  {
  }

  lemma DropsAtDeliver<L(!new), R(!new)>(c: Client<L, R>, calm: Calm, w: World<L, R>, a: Action<L>, good: iset<R>)
    requires Convergent(c, calm, w, good) && Quiet(c, calm, w, a)
    requires a.Deliver?
    ensures Drops(c, calm, w, QuietStep(c, calm, w, a))
  {
    CeilingHolds(c, calm, w);
    assert Store(QuietStep(c, calm, w, a)) == Store(w);
  }

  lemma TickLowersPassWork<L(!new), R(!new)>(c: Client<L, R>, calm: Calm, v: Option<Object<L>>, r: Remote<R>)
    requires Busy(r)
    ensures PassWork(c, calm, v, Ticked(r, false)) <= PassWork(c, calm, v, r)
    ensures PassWork(c, calm, v, Settling(Ticked(r, false))) <= PassWork(c, calm, v, Settling(r))
  {
  }

  lemma TickLowersFreshWork<L(!new), R(!new)>(c: Client<L, R>, calm: Calm, w: World<L, R>)
    requires Busy(w.remote)
    ensures FreshWork(c, calm, w.(remote := Ticked(w.remote, false))) <= FreshWork(c, calm, w)
  {
    var w' := w.(remote := Ticked(w.remote, false));
    TickLowersPassWork(c, calm, Store(w), w.remote);
    assert Store(w') == Store(w) && IdleWork(c, calm, w') <= IdleWork(c, calm, w);
    assert LaggedWork(c, calm, w') <= LaggedWork(c, calm, w);
  }

  lemma TickDrops<L(!new), R(!new)>(c: Client<L, R>, calm: Calm, w: World<L, R>)
    requires Busy(w.remote)
    ensures Drops(c, calm, w, w.(remote := Ticked(w.remote, false)))
  {
    var w' := w.(remote := Ticked(w.remote, false));
    assert Store(w') == Store(w) && (Fresh(w') <==> Fresh(w));
    TickLowersFreshWork(c, calm, w);
    assert Lag(w') == Lag(w);
  }

  lemma DropsAtTick<L(!new), R(!new)>(c: Client<L, R>, calm: Calm, w: World<L, R>, a: Action<L>)
    requires Quiet(c, calm, w, a) && a.Tick?
    ensures Drops(c, calm, w, QuietStep(c, calm, w, a))
  {
    assert QuietStep(c, calm, w, a) == w.(remote := Ticked(w.remote, false));
    TickDrops(c, calm, w);
  }

  lemma PreparedDrops<L(!new), R(!new)>(c: Client<L, R>, calm: Calm, w: World<L, R>)
    requires w.pc.Idle? && w.pending
    requires Busy(w.remote) ==> w.remote.ticks <= calm.ticks
    ensures Drops(c, calm, w, Prepared(w).(pending := false, pc := Fetching))
  {
    var w' := Prepared(w).(pending := false, pc := Fetching);
    CeilingHolds(c, calm, w);
    assert Store(w') == Store(w) && w'.remote == Settling(w.remote);
    assert Fresh(w') <==> |w.backlog| <= 1;
  }

  lemma DropsAtBegin<L(!new), R(!new)>(c: Client<L, R>, calm: Calm, w: World<L, R>, a: Action<L>, good: iset<R>)
    requires Convergent(c, calm, w, good) && Quiet(c, calm, w, a)
    requires a.Begin?
    ensures Drops(c, calm, w, QuietStep(c, calm, w, a))
  {
    assert QuietStep(c, calm, w, a) == Prepared(w).(pending := false, pc := Fetching);
    PreparedDrops(c, calm, w);
  }

  lemma FetchDrops<L(!new), R(!new)>(c: Client<L, R>, calm: Calm, w: World<L, R>)
    requires w.pc.Fetching?
    requires Busy(w.remote) ==> w.remote.ticks <= calm.ticks
    ensures Drops(c, calm, w, w.(pc := if w.cache.None? then Returned(false, false) else Fetched(w.cache.value)))
  {
    var w' := w.(pc := if w.cache.None? then Returned(false, false) else Fetched(w.cache.value));
    CeilingHolds(c, calm, w);
    assert Store(w') == Store(w) && Lag(w') == Lag(w) && LaggedWork(c, calm, w') == LaggedWork(c, calm, w);
  }

  lemma DropsAtFetch<L(!new), R(!new)>(c: Client<L, R>, calm: Calm, w: World<L, R>, a: Action<L>, good: iset<R>)
    requires Convergent(c, calm, w, good) && Quiet(c, calm, w, a)
    requires a.Fetch?
    ensures Drops(c, calm, w, QuietStep(c, calm, w, a))
  {
    FetchDrops(c, calm, w);
  }

  lemma BranchDrops<L(!new), R(!new)>(c: Client<L, R>, calm: Calm, w: World<L, R>)
    requires w.pc.Fetched?
    requires Busy(w.remote) ==> w.remote.ticks <= calm.ticks
    ensures Drops(c, calm, w, w.(pc := Branch(w.pc.local)))
  {
    CeilingHolds(c, calm, w);
    var w' := w.(pc := Branch(w.pc.local));
    assert Store(w') == Store(w) && (Fresh(w) ==> Fresh(w'));
  }

  lemma DropsAtAuthorize<L(!new), R(!new)>(c: Client<L, R>, calm: Calm, w: World<L, R>, a: Action<L>, good: iset<R>)
    requires Convergent(c, calm, w, good) && Quiet(c, calm, w, a)
    requires a.Authorize?
    ensures Drops(c, calm, w, QuietStep(c, calm, w, a))
  {
    assert QuietStep(c, calm, w, a) == w.(pc := Branch(w.pc.local));
    BranchDrops(c, calm, w);
  }

  /** A write that came too late ends the pass, and the next one is no longer stale. */
  lemma RejectedDrops<L(!new), R(!new)>(c: Client<L, R>, calm: Calm, w: World<L, R>, requeue: bool)
    requires w.pc.Adding? || w.pc.Deleted? || w.pc.Releasing? || w.pc.Ensured?
    requires !Fresh(w) && (Busy(w.remote) ==> w.remote.ticks <= calm.ticks)
    ensures Drops(c, calm, w, w.(pc := Returned(requeue, true)))
  {
    var w' := w.(pc := Returned(requeue, true));
    CeilingHolds(c, calm, w');
    assert Store(w') == Store(w) && Lag(w') == Lag(w);
  }

  lemma AddDrops<L(!new), R(!new)>(c: Client<L, R>, calm: Calm, w: World<L, R>)
    requires w.pc.Adding? && Current(w, w.pc.local) && Held(w, w.pc.local) && Live(Some(w.pc.local))
    requires w.backlog == []
    requires Busy(w.remote) ==> w.remote.ticks <= calm.ticks
    requires w.remote.Present? ==> Owned(Store(w))
    ensures Drops(c, calm, w, Updated(w, w.pc.local).(pc := Returned(false, false)))
  {
    var w' := Updated(w, w.pc.local).(pc := Returned(false, false));
    CeilingHolds(c, calm, w');
    assert Live(Store(w')) && |w'.backlog| == |w.backlog| + 1;
  }

  lemma DropsAtAdd<L(!new), R(!new)>(c: Client<L, R>, calm: Calm, w: World<L, R>, a: Action<L>, good: iset<R>)
    requires Convergent(c, calm, w, good) && Quiet(c, calm, w, a)
    requires a.AddWrite?
    ensures Drops(c, calm, w, QuietStep(c, calm, w, a))
  {
    if Current(w, w.pc.local) {
      AddDrops(c, calm, w);
    } else {
      RejectedDrops(c, calm, w, false);
    }
  }

  lemma RemoveDrops<L(!new), R(!new)>(c: Client<L, R>, calm: Calm, w: World<L, R>, remote: Remote<R>)
    requires w.pc.Deleting? && Held(w, w.pc.local) && w.pc.local.deleting
    requires Busy(w.remote) ==> w.remote.ticks <= calm.ticks
    requires if w.remote.Absent? || w.remote.phase.Removing? then remote == w.remote
             else remote.Present? && remote.phase.Removing? && remote.ticks <= calm.ticks
    ensures Drops(c, calm, w, w.(remote := remote, pc := Polling(w.pc.local)))
  {
    var w' := w.(remote := remote, pc := Polling(w.pc.local));
    CeilingHolds(c, calm, w');
    assert Store(w') == Store(w) && Lag(w') == Lag(w) && (Fresh(w') <==> Fresh(w));
  }

  lemma DropsAtRemove<L(!new), R(!new)>(c: Client<L, R>, calm: Calm, w: World<L, R>, a: Action<L>, good: iset<R>)
    requires Convergent(c, calm, w, good) && Quiet(c, calm, w, a)
    requires a.Remove?
    ensures Drops(c, calm, w, QuietStep(c, calm, w, a))
  {
    var w' := QuietStep(c, calm, w, a);
    assert w' == w.(remote := w'.remote, pc := Polling(w.pc.local));
    RemoveDrops(c, calm, w, w'.remote);
  }

  lemma DropsAtPoll<L(!new), R(!new)>(c: Client<L, R>, calm: Calm, w: World<L, R>, a: Action<L>, good: iset<R>)
    requires Convergent(c, calm, w, good) && Quiet(c, calm, w, a)
    requires a.Poll?
    ensures Drops(c, calm, w, QuietStep(c, calm, w, a))
  {
    CeilingHolds(c, calm, w);
  }

  lemma DeletedStatusDrops<L(!new), R(!new)>(c: Client<L, R>, calm: Calm, w: World<L, R>, w': World<L, R>)
    requires w.pc.Deleted? && w.pc.local.deleting && Held(w, w.pc.local)
    requires Current(w, w.pc.local) && w.backlog == [] && Owned(Store(w))
    requires IdleWork(c, calm, w) <= Ceiling(calm)
    requires w'.(pc := w.pc) == StatusUpdated(w, w.pc.local)
    requires if w.pc.failed || w.pc.found then w'.pc == Returned(false, true)
             else w'.pc.Releasing? && w'.pc.local.rv == Store(w').value.rv
    ensures Drops(c, calm, w, w')
  {
    assert Store(w').value.deleting && Owned(Store(w')) && |w'.backlog| <= 1;
    assert IdleWork(c, calm, w') == IdleWork(c, calm, w);
  }

  lemma DropsAtDeletedStatus<L(!new), R(!new)>(c: Client<L, R>, calm: Calm, w: World<L, R>, a: Action<L>, good: iset<R>)
    requires Convergent(c, calm, w, good) && Quiet(c, calm, w, a)
    requires a.DeletedStatus?
    ensures Drops(c, calm, w, QuietStep(c, calm, w, a))
  {
    CeilingHolds(c, calm, w);
    if Current(w, w.pc.local) {
      var w' := QuietStep(c, calm, w, a);
      assert Store(w') == Store(StatusUpdated(w, w.pc.local));
      DeletedStatusDrops(c, calm, w, w');
    } else {
      RejectedDrops(c, calm, w, false);
    }
  }

  lemma ReleaseDrops<L(!new), R(!new)>(c: Client<L, R>, calm: Calm, w: World<L, R>)
    requires w.pc.Releasing? && Current(w, w.pc.local) && Held(w, w.pc.local) && w.pc.local.deleting
    requires FINALIZER !in w.pc.local.finalizers
    requires |w.backlog| <= 1 && Owned(Store(w))
    ensures Drops(c, calm, w, Updated(w, w.pc.local).(pc := Returned(false, false)))
  {
    var w' := Updated(w, w.pc.local).(pc := Returned(false, false));
    assert Gone(Store(w')) && |w'.backlog| == |w.backlog| + 1;
  }

  lemma DropsAtRelease<L(!new), R(!new)>(c: Client<L, R>, calm: Calm, w: World<L, R>, a: Action<L>, good: iset<R>)
    requires Convergent(c, calm, w, good) && Quiet(c, calm, w, a)
    requires a.Release?
    ensures Drops(c, calm, w, QuietStep(c, calm, w, a))
  {
    if Current(w, w.pc.local) {
      ReleaseDrops(c, calm, w);
    } else {
      RejectedDrops(c, calm, w, false);
    }
  }

  lemma LookDrops<L(!new), R(!new)>(c: Client<L, R>, calm: Calm, w: World<L, R>)
    requires w.pc.Ensuring? && Held(w, w.pc.local) && Live(Some(w.pc.local))
    requires Busy(w.remote) ==> w.remote.ticks <= calm.ticks
    requires Declares(Store(w)) && w.remote.Present? ==> !w.remote.phase.Failed?
    ensures Drops(c, calm, w, w.(pc := AfterLook(c, w.pc.local, w.remote)))
  {
    var w' := w.(pc := AfterLook(c, w.pc.local, w.remote));
    assert Store(w') == Store(w) && (Fresh(w') <==> Fresh(w));
  }

  lemma DropsAtLook<L(!new), R(!new)>(c: Client<L, R>, calm: Calm, w: World<L, R>, a: Action<L>, good: iset<R>)
    requires Convergent(c, calm, w, good) && Quiet(c, calm, w, a)
    requires a.Look?
    ensures Drops(c, calm, w, QuietStep(c, calm, w, a))
  {
    assert QuietStep(c, calm, w, a) == w.(pc := AfterLook(c, w.pc.local, w.remote));
    LookDrops(c, calm, w);
  }

  lemma PutDrops<L(!new), R(!new)>(c: Client<L, R>, calm: Calm, w: World<L, R>, ticks: nat)
    requires w.pc.Putting? && Held(w, w.pc.local) && Live(Some(w.pc.local))
    requires ticks <= calm.ticks
    requires Fresh(w) ==> !c.needsUpdate(c.overlay(w.pc.prior, w.pc.local.spec), w.pc.local.spec)
    ensures var body := c.overlay(w.pc.prior, w.pc.local.spec);
            Drops(c, calm, w, w.(remote := Present(body, Updating, ticks), pc := Ensured(w.pc.local, false, false)))
  {
    var body := c.overlay(w.pc.prior, w.pc.local.spec);
    var w' := w.(remote := Present(body, Updating, ticks), pc := Ensured(w.pc.local, false, false));
    assert Store(w') == Store(w) && Lag(w') == Lag(w) && (Fresh(w') <==> Fresh(w));
  }

  lemma DropsAtPut<L(!new), R(!new)>(c: Client<L, R>, calm: Calm, w: World<L, R>, a: Action<L>, good: iset<R>)
    requires Convergent(c, calm, w, good) && Quiet(c, calm, w, a)
    requires a.Put?
    ensures Drops(c, calm, w, QuietStep(c, calm, w, a))
  {
    if w.pc.prior.Some? {
      assert w.pc.prior == Some(w.pc.prior.value);
    }
    PutDrops(c, calm, w, a.ticks);
  }

  /** A status that was written leaves a declared object with the work counted for it. */
  lemma StatusWrittenWork<L(!new), R(!new)>(c: Client<L, R>, calm: Calm, w: World<L, R>)
    requires w.pc.Ensured? && Current(w, w.pc.local) && Owned(Store(w))
    requires !Store(w).value.deleting && Store(w).value.spec == w.pc.local.spec
    ensures var w' := StatusUpdated(w, w.pc.local);
            |w'.backlog| <= |w.backlog| + 1 && w'.remote == w.remote && w'.pending == w.pending &&
            (Store(w).value.status == w.pc.local.status ==> w' == w) &&
            Live(Store(w')) && Store(w').value.spec == w.pc.local.spec && Store(w').value.status == w.pc.local.status
  {
  }

  lemma LiveIdleWork<L(!new), R(!new)>(c: Client<L, R>, calm: Calm, w: World<L, R>, spec: L)
    requires Live(Store(w)) && Store(w).value.spec == spec
    ensures IdleWork(c, calm, w) <= 1 + LiveWork(c, calm, spec, false, Settling(w.remote))
    ensures Matches(c, w.remote, spec) && Store(w).value.status == Status(true, Some(Succeeded)) ==>
              IdleWork(c, calm, w) == 1
  {
  }

  lemma FreshStatusDrops<L(!new), R(!new)>(c: Client<L, R>, calm: Calm, w: World<L, R>)
    requires w.pc.Ensured? && Fresh(w) && Held(w, w.pc.local) && Live(Some(w.pc.local))
    requires w.pc.done && !w.pc.failed ==>
               Matches(c, w.remote, w.pc.local.spec) && w.pc.local.status == Status(true, Some(Succeeded))
    ensures Drops(c, calm, w, StatusUpdated(w, w.pc.local).(pc := Returned(!w.pc.done, w.pc.failed)))
  {
    var w' := StatusUpdated(w, w.pc.local).(pc := Returned(!w.pc.done, w.pc.failed));
    StatusWrittenWork(c, calm, w);
    LiveIdleWork(c, calm, w', w.pc.local.spec);
    assert Lag(w') == Lag(w);
  }

  lemma StaleStatusDrops<L(!new), R(!new)>(c: Client<L, R>, calm: Calm, w: World<L, R>)
    requires w.pc.Ensured? && !Fresh(w) && Held(w, w.pc.local) && Live(Some(w.pc.local))
    requires Current(w, w.pc.local) && w.backlog == [] && Owned(Store(w))
    requires Busy(w.remote) ==> w.remote.ticks <= calm.ticks
    ensures Drops(c, calm, w, StatusUpdated(w, w.pc.local).(pc := Returned(!w.pc.done, w.pc.failed)))
  {
    var w' := StatusUpdated(w, w.pc.local).(pc := Returned(!w.pc.done, w.pc.failed));
    CeilingHolds(c, calm, w');
    StatusWrittenWork(c, calm, w);
    assert Lag(w') == Lag(w);
  }

  lemma DropsAtEnsuredStatus<L(!new), R(!new)>(c: Client<L, R>, calm: Calm, w: World<L, R>, a: Action<L>, good: iset<R>)
    requires Convergent(c, calm, w, good) && Quiet(c, calm, w, a)
    requires a.EnsuredStatus?
    ensures Drops(c, calm, w, QuietStep(c, calm, w, a))
  {
    if Fresh(w) {
      FreshStatusDrops(c, calm, w);
    } else if Current(w, w.pc.local) {
      StaleStatusDrops(c, calm, w);
    } else {
      RejectedDrops(c, calm, w, !w.pc.done);
    }
  }

  lemma DropsAtFinish<L(!new), R(!new)>(c: Client<L, R>, calm: Calm, w: World<L, R>, a: Action<L>, good: iset<R>)
    requires Convergent(c, calm, w, good) && Quiet(c, calm, w, a)
    requires a.Finish?
    ensures Drops(c, calm, w, QuietStep(c, calm, w, a))
  {
    CeilingHolds(c, calm, w);
  }

  lemma QuietDrops<L(!new), R(!new)>(c: Client<L, R>, calm: Calm, w: World<L, R>, a: Action<L>, good: iset<R>)
    requires Convergent(c, calm, w, good) && Quiet(c, calm, w, a)
    ensures Measure(c, calm, QuietStep(c, calm, w, a)) < Measure(c, calm, w)
  {
    if a.Deliver? { DropsAtDeliver(c, calm, w, a, good); }
    else if a.Tick? { DropsAtTick(c, calm, w, a); }
    else if a.Begin? { DropsAtBegin(c, calm, w, a, good); }
    else if a.Fetch? { DropsAtFetch(c, calm, w, a, good); }
    else if a.Authorize? { DropsAtAuthorize(c, calm, w, a, good); }
    else if a.AddWrite? { DropsAtAdd(c, calm, w, a, good); }
    else if a.Remove? { DropsAtRemove(c, calm, w, a, good); }
    else if a.Poll? { DropsAtPoll(c, calm, w, a, good); }
    else if a.DeletedStatus? { DropsAtDeletedStatus(c, calm, w, a, good); }
    else if a.Release? { DropsAtRelease(c, calm, w, a, good); }
    else if a.Look? { DropsAtLook(c, calm, w, a, good); }
    else if a.Put? { DropsAtPut(c, calm, w, a, good); }
    else if a.EnsuredStatus? { DropsAtEnsuredStatus(c, calm, w, a, good); }
    else { DropsAtFinish(c, calm, w, a, good); }
    DropsMeasure(c, calm, w, QuietStep(c, calm, w, a));
  }

  // ---------------------------------------------------------------- coming to rest

  /** The next call of the worker, or the next delivery. */
  function NextQuiet<L, R>(w: World<L, R>): (a: Action<L>) {
    match w.pc
    case Idle => if w.backlog != [] then Deliver else Begin
    case Fetching => Action.Fetch(true)
    case Fetched(_) => Authorize(true)
    case Adding(l) => AddWrite(if Current(w, l) then Applied else Rejected)
    case Deleting(_) => Remove(w.remote.Present? && !w.remote.phase.Removing?, Accepted, 0)
    case Polling(_) => Poll(true)
    case Deleted(l, _, _) => DeletedStatus(if Current(w, l) then Applied else Rejected)
    case Releasing(l) => Release(if Current(w, l) then Applied else Rejected)
    case Ensuring(_) => Look(true)
    case Putting(_, _) => Put(true, false, 0)
    case Ensured(l, _, _) => EnsuredStatus(if Current(w, l) then Applied else Rejected)
    case Returned(_, _) => Finish
  }

  /** The controller never deadlocks short of rest. */
  lemma NextQuietIsEnabled<L(!new), R(!new)>(c: Client<L, R>, calm: Calm, w: World<L, R>)
    requires !c.sync && !Quiescent(w)
    ensures Quiet(c, calm, w, NextQuiet(w))
  {
  }

  /** Reconciled or deleted: the two ways in which a declaration is fully acted upon. */
  ghost predicate Accomplished<L(!new), R(!new)>(c: Client<L, R>, w: World<L, R>) {
    if Declares(Store(w)) then Owned(Store(w)) && Matches(c, w.remote, Store(w).value.spec)
    else w.remote.Absent? && !Owned(Store(w))
  }

  lemma RestIsAccomplished<L(!new), R(!new)>(c: Client<L, R>, calm: Calm, w: World<L, R>, good: iset<R>)
    requires Convergent(c, calm, w, good) && Quiescent(w)
    ensures Accomplished(c, w)
  {
  }

  /** One quiet step: everything that a run of them accumulates. */
  lemma QuietStepKeeps<L(!new), R(!new)>(
      c: Client<L, R>, calm: Calm, w: World<L, R>, a: Action<L>, w': World<L, R>, good: iset<R>)
    requires Convergent(c, calm, w, good) && Quiet(c, calm, w, a) && w' == QuietStep(c, calm, w, a)
    ensures Convergent(c, calm, w', good)
    ensures Measure(c, calm, w') < Measure(c, calm, w)
    ensures SameDeclaration(Store(w), Store(w'))
  {
    QuietKeepsConvergent(c, calm, w, a, good);
    QuietDrops(c, calm, w, a, good);
    QuietKeepsDeclaration(c, calm, w, a);
  }

  lemma {:induction false} QuietRunKeeps<L(!new), R(!new)>(
      c: Client<L, R>, calm: Calm, tr: seq<World<L, R>>, acts: seq<Action<L>>, k: nat, good: iset<R>)
    requires QuietRun(c, calm, tr, acts) && Convergent(c, calm, tr[0], good) && k <= |acts|
    ensures Convergent(c, calm, tr[k], good)
    ensures k + Measure(c, calm, tr[k]) <= Measure(c, calm, tr[0])
    ensures SameDeclaration(Store(tr[0]), Store(tr[k]))
  {
    if k == 0 {
    } else {
      QuietRunKeeps(c, calm, tr, acts, k - 1, good);
      var w, a, w' := tr[k - 1], acts[k - 1], tr[k];
      assert QuietlyTaken(c, calm, tr, acts, k - 1);
      QuietStepKeeps(c, calm, w, a, w', good);
    }
  }

  /**
   Convergence. From a convergent state a quiet run has at most `Measure` steps, however it is
   scheduled; if it cannot go on, the controller is at rest and what the user declared at its
   start is accomplished.
   */
  lemma QuietRunsConverge<L(!new), R(!new)>(
      c: Client<L, R>, calm: Calm, tr: seq<World<L, R>>, acts: seq<Action<L>>, good: iset<R>)
    requires QuietRun(c, calm, tr, acts) && Convergent(c, calm, tr[0], good)
    ensures |acts| <= Measure(c, calm, tr[0])
    ensures SameDeclaration(Store(tr[0]), Store(tr[|acts|]))
    ensures (forall a :: !Quiet(c, calm, tr[|acts|], a)) ==> Quiescent(tr[|acts|]) && Accomplished(c, tr[|acts|])
  {
    QuietRunKeeps(c, calm, tr, acts, |acts|, good);
    var w := tr[|acts|];
    if Quiescent(w) {
      RestIsAccomplished(c, calm, w, good);
    } else {
      NextQuietIsEnabled(c, calm, w);
    }
  }

  lemma StepFirst<L(!new), R(!new)>(
      c: Client<L, R>, calm: Calm, w: World<L, R>, a: Action<L>, tr': seq<World<L, R>>, acts': seq<Action<L>>)
    returns (tr: seq<World<L, R>>, acts: seq<Action<L>>)
    requires Quiet(c, calm, w, a) && QuietRun(c, calm, tr', acts') && tr'[0] == QuietStep(c, calm, w, a)
    ensures QuietRun(c, calm, tr, acts) && tr == [w] + tr' && acts == [a] + acts'
  {
    tr, acts := [w] + tr', [a] + acts';
    forall i | 0 <= i < |acts|
      ensures QuietlyTaken(c, calm, tr, acts, i)
    {
      assert i > 0 ==> QuietlyTaken(c, calm, tr', acts', i - 1);
    }
  }

  /** And rest is always reachable: the worker's own next calls lead there. */
  lemma {:induction false} RestIsReachable<L(!new), R(!new)>(c: Client<L, R>, calm: Calm, w: World<L, R>, good: iset<R>)
    returns (tr: seq<World<L, R>>, acts: seq<Action<L>>)
    requires Convergent(c, calm, w, good)
    ensures QuietRun(c, calm, tr, acts) && tr[0] == w && |acts| <= Measure(c, calm, w)
    ensures Quiescent(tr[|acts|]) && Accomplished(c, tr[|acts|])
    decreases Measure(c, calm, w)
  {
    if Quiescent(w) {
      RestIsAccomplished(c, calm, w, good);
      tr, acts := [w], [];
    } else {
      var a := NextQuiet(w);
      NextQuietIsEnabled(c, calm, w);
      var w' := QuietStep(c, calm, w, a);
      QuietStepKeeps(c, calm, w, a, w', good);
      var tr', acts' := RestIsReachable(c, calm, w', good);
      tr, acts := StepFirst(c, calm, w, a, tr', acts');
    }
  }

  /** The bound in figures: passes times steps, both linear in the longest operation and the undelivered events. */
  function Limit<L, R>(calm: Calm, w: World<L, R>): nat {
    (2 * calm.ticks + 13 + 3 * |w.backlog|) * (calm.ticks + 40) + calm.ticks + 32 + 2 * |w.backlog|
  }

  lemma MeasureBound<L(!new), R(!new)>(c: Client<L, R>, calm: Calm, w: World<L, R>)
    requires Busy(w.remote) ==> w.remote.ticks <= calm.ticks
    ensures Measure(c, calm, w) <= Limit(calm, w)
  {
    CeilingHolds(c, calm, w);
    var x, most := Work(c, calm, w), 2 * calm.ticks + 13 + 3 * |w.backlog|;
    assert BaseWork(c, calm, w) <= 2 * calm.ticks + 10 && Lag(w) <= 3 * |w.backlog| + 3;
    if x < most {
      MulMonotone(most, x, calm.ticks + 40);
    }
  }

  /** The quiet run has come to rest with what `w` declared accomplished. */
  ghost predicate RestsWell<L(!new), R(!new)>(c: Client<L, R>, w: World<L, R>, end: World<L, R>) {
    Quiescent(end) && Accomplished(c, end) && SameDeclaration(Store(w), Store(end))
  }

  /** Every quiet run from `w` is short and ends only where it rests well, and there is one that does. */
  ghost predicate Converges<L(!new), R(!new)>(c: Client<L, R>, calm: Calm, w: World<L, R>) {
    (forall tr, acts :: QuietRun(c, calm, tr, acts) && tr[0] == w ==>
       |acts| <= Limit(calm, w) &&
       ((forall a :: !Quiet(c, calm, tr[|acts|], a)) ==> RestsWell(c, w, tr[|acts|]))) &&
    exists tr, acts :: QuietRun(c, calm, tr, acts) && tr[0] == w && RestsWell(c, w, tr[|acts|])
  }

  lemma ConvergentConverges<L(!new), R(!new)>(c: Client<L, R>, calm: Calm, w: World<L, R>, good: iset<R>)
    requires Convergent(c, calm, w, good)
    ensures Converges(c, calm, w)
  {
    MeasureBound(c, calm, w);
    forall tr, acts | QuietRun(c, calm, tr, acts) && tr[0] == w
      ensures |acts| <= Limit(calm, w)
      ensures (forall a :: !Quiet(c, calm, tr[|acts|], a)) ==> RestsWell(c, w, tr[|acts|])
    {
      QuietRunsConverge(c, calm, tr, acts, good);
    }
    var rest, quiet := RestIsReachable(c, calm, w, good);
    QuietRunsConverge(c, calm, rest, quiet, good);
  }

  // ---------------------------------------------------------------- clients that always converge

  predicate IsBody<R>(b: R) {
    true
  }

  ghost function Anything<R(!new)>(): iset<R> {
    iset b: R | IsBody(b)
  }

  /** One accepted write satisfies any spec, whatever was deployed before. */
  ghost predicate AlwaysRepairs<L(!new), R(!new)>(c: Client<L, R>) {
    !c.sync && forall p, spec {:trigger c.overlay(p, spec)} :: !c.needsUpdate(c.overlay(p, spec), spec)
  }

  /**
   For such a client every reachable world converges, in the middle of a pass or not, unless
   the resource of a declared object is parked in a failed state.
   */
  lemma ReachableConverges<L(!new), R(!new)>(c: Client<L, R>, calm: Calm, tr: seq<World<L, R>>, acts: seq<Action<L>>)
    requires Run(c, tr, acts) && Initial(tr[0]) && AlwaysRepairs(c)
    requires var r := tr[|acts|].remote; Busy(r) ==> r.ticks <= calm.ticks
    requires var w := tr[|acts|]; Declares(Store(w)) && w.remote.Present? ==> !w.remote.phase.Failed?
    ensures Converges(c, calm, tr[|acts|])
  {
    RunIsSafe(c, tr, acts, |acts|);
    RunIsWorking(c, tr, acts, |acts|);
    RunIsSeen(c, tr, acts, |acts|);
    ConvergentConverges(c, calm, tr[|acts|], Anything());
  }

  /**
   Deletion converges for every asynchronous client, whatever its update check and overlay do
   and however the resource is parked: unless an object is declared, the controller comes to
   rest with the resource absent and the finalizer gone.
   */
  lemma DeletionConverges<L(!new), R(!new)>(c: Client<L, R>, calm: Calm, tr: seq<World<L, R>>, acts: seq<Action<L>>)
    requires Run(c, tr, acts) && Initial(tr[0]) && !c.sync
    requires var r := tr[|acts|].remote; Busy(r) ==> r.ticks <= calm.ticks
    requires !Declares(Store(tr[|acts|]))
    ensures Converges(c, calm, tr[|acts|])
  {
    RunIsSafe(c, tr, acts, |acts|);
    RunIsWorking(c, tr, acts, |acts|);
    RunIsSeen(c, tr, acts, |acts|);
    ConvergentConverges(c, calm, tr[|acts|], Anything());
  }
}
