/**
 What a pass reports, told from its calls alone: an error iff a call failed or a deletion still found
 the resource, a requeue iff Ensure looked and the resource was not yet as declared.
 */
module Passes {
  import opened Wrappers
  import opened Protocol

  /** The call was answered with an error. */
  predicate CallFails<L>(a: Action<L>) {
    match a
    case Fetch(ok) => !ok
    case Authorize(ok) => !ok
    case AddWrite(out) => !out.Applied?
    case Remove(_, reply, _) => reply.Refused?
    case Poll(ok) => !ok
    case RemoveSync(_, failed) => failed
    case DeletedStatus(out) => !out.Applied?
    case Release(out) => !out.Applied?
    case Look(ok) => !ok
    case Put(_, failed, _) => failed
    case EnsureSync(_, failed) => failed
    case EnsuredStatus(out) => !out.Applied?
    case _ => false
  }

  /** The GET after a DELETE found the resource. */
  predicate StillFound<L(==), R>(w: World<L, R>, a: Action<L>) {
    a == Action<L>.Poll(true) && w.remote.Present?
  }

  /** Ensure's GET did not find the resource as declared. */
  predicate NotDone<L, R>(c: Client<L, R>, w: World<L, R>, a: Action<L>) {
    a.Look? && w.pc.Ensuring? && !(a.ok && Matches(c, w.remote, w.pc.local.spec))
  }

  /** Where the worker stands after calls of which some failed, found, or were not done. */
  predicate Tells<L, R>(pc: Pc<L, R>, failed: bool, found: bool, notDone: bool) {
    match pc
    case Idle => true
    case Returned(requeue, err) => requeue == notDone && err == (failed || found)
    case Deleted(_, f, e) => failed == e && (!e ==> found == f) && !notDone
    case Ensured(_, done, e) => failed == e && !found && notDone == !done
    case Putting(_, _) => !failed && !found && notDone
    case _ => !failed && !found && !notDone
  }

  lemma StepTells<L(!new), R(!new)>(
      c: Client<L, R>, w: World<L, R>, a: Action<L>, failed: bool, found: bool, notDone: bool)
    requires Enabled(c, w, a) && !w.pc.Idle? && !a.Finish?
    requires Tells(w.pc, failed, found, notDone)
    ensures !Step(c, w, a).pc.Idle?
    ensures Tells(Step(c, w, a).pc, failed || CallFails(a), found || StillFound(w, a), notDone || NotDone(c, w, a))
  {
  }

  ghost predicate FailedIn<L(!new)>(acts: seq<Action<L>>, i: nat, j: nat)
    requires j <= |acts|
  {
    exists k :: i <= k < j && CallFails(acts[k])
  }

  ghost predicate FoundIn<L(!new), R(!new)>(tr: seq<World<L, R>>, acts: seq<Action<L>>, i: nat, j: nat)
    requires j <= |acts| < |tr|
  {
    exists k :: i <= k < j && StillFound(tr[k], acts[k])
  }

  ghost predicate NotDoneIn<L(!new), R(!new)>(
      c: Client<L, R>, tr: seq<World<L, R>>, acts: seq<Action<L>>, i: nat, j: nat)
    requires j <= |acts| < |tr|
  {
    exists k :: i <= k < j && NotDone(c, tr[k], acts[k])
  }

  lemma OneMoreCall<L(!new), R(!new)>(c: Client<L, R>, tr: seq<World<L, R>>, acts: seq<Action<L>>, i: nat, j: nat)
    requires i <= j < |acts| < |tr|
    ensures FailedIn(acts, i, j + 1) <==> FailedIn(acts, i, j) || CallFails(acts[j])
    ensures FoundIn(tr, acts, i, j + 1) <==> FoundIn(tr, acts, i, j) || StillFound(tr[j], acts[j])
    ensures NotDoneIn(c, tr, acts, i, j + 1) <==> NotDoneIn(c, tr, acts, i, j) || NotDone(c, tr[j], acts[j])
  {
  }

  lemma {:induction false} PassTells<L(!new), R(!new)>(
      c: Client<L, R>, tr: seq<World<L, R>>, acts: seq<Action<L>>, i: nat, j: nat)
    requires Run(c, tr, acts) && i <= j < |tr|
    requires !tr[i].pc.Idle? && Tells(tr[i].pc, false, false, false)
    requires forall k :: i <= k < j ==> !acts[k].Finish?
    ensures !tr[j].pc.Idle?
    ensures Tells(tr[j].pc, FailedIn(acts, i, j), FoundIn(tr, acts, i, j), NotDoneIn(c, tr, acts, i, j))
    decreases j
  {
    if i == j {
    } else {
      PassTells(c, tr, acts, i, j - 1);
      OneMoreCall(c, tr, acts, i, j - 1);
      var w, a := tr[j - 1], acts[j - 1];
      assert Taken(c, tr, acts, j - 1);
      StepTells(c, w, a, FailedIn(acts, i, j - 1), FoundIn(tr, acts, i, j - 1), NotDoneIn(c, tr, acts, i, j - 1));
    }
  }

  /**
   From the fetch on, in any interleaving: a pass that has returned reports an error iff one of
   its calls failed or its deletion still found the resource, and a requeue iff its Ensure looked
   and did not find the resource as declared.
   */
  lemma PassResult<L(!new), R(!new)>(c: Client<L, R>, tr: seq<World<L, R>>, acts: seq<Action<L>>, i: nat, j: nat)
    requires Run(c, tr, acts) && i <= j < |tr|
    requires tr[i].pc.Fetching? && tr[j].pc.Returned?
    requires forall k :: i <= k < j ==> !acts[k].Finish?
    ensures tr[j].pc.err <==> FailedIn(acts, i, j) || FoundIn(tr, acts, i, j)
    ensures tr[j].pc.requeue <==> NotDoneIn(c, tr, acts, i, j)
  {
    PassTells(c, tr, acts, i, j);
  }
}
