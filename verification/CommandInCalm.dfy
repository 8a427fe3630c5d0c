/**
 The command line against a calm Azure: no call fails, operations succeed within a bound, and at
 least one tick passes between two attempts. Then the verdict says what the declaration can become.
 */
module CommandInCalm {
  import opened Wrappers
  import opened Protocol
  import opened Convergence
  import opened Livelock
  import opened EnsureCommand
  import ResourceGroups
  import VirtualNetworks

  // ---------------------------------------------------------------- attempts that meet each other's work

  /** The resource after one attempt to ensure it; a write takes `ticks`. */
  function Attempted<L, R>(c: Client<L, R>, spec: L, r: Remote<R>, ticks: nat): Remote<R> {
    if r.Absent? then Present(c.overlay(None, spec), Updating, ticks)
    else if r.phase.Succeeded? && c.needsUpdate(r.body, spec) then
      Present(c.overlay(Some(r.body), spec), Updating, ticks)
    else r
  }

  /** It is what the protocol's GET and PUT leave behind. */
  lemma AttemptedIsProtocol<L(!new), R(!new)>(c: Client<L, R>, w: World<L, R>, ticks: nat)
    requires !c.sync && w.pc.Ensuring?
    ensures var w1 := Step(c, w, Look(true));
            var w2 := if w1.pc.Putting? then Step(c, w1, Put(true, false, ticks)) else w1;
            w2.pc.Ensured? && w2.remote == Attempted(c, w.pc.local.spec, w.remote, ticks)
  {
  }

  /** What an attempt leaves for the next one. */
  ghost predicate Follows<L(!new), R(!new)>(c: Client<L, R>, calm: Calm, spec: L, r: Remote<R>, r': Remote<R>) {
    exists ticks: nat :: ticks <= calm.ticks && r' == Settling(Attempted(c, spec, r, ticks))
  }

  ghost predicate CalmAttempts<L(!new), R(!new)>(c: Client<L, R>, calm: Calm, spec: L, ms: seq<Meeting<R>>) {
    (forall k :: 0 <= k < |ms| ==> ms[k].getOk && !ms[k].putErr) &&
    (ms != [] && Busy(ms[0].remote) ==> ms[0].remote.ticks <= calm.ticks) &&
    forall k :: 0 <= k < |ms| - 1 ==> Follows(c, calm, spec, ms[k].remote, ms[k + 1].remote)
  }

  // ---------------------------------------------------------------- enough attempts

  /** One write over a good body satisfies `spec`, and so does a first write if the resource may be `gone`. */
  ghost predicate Mends<L(!new), R(!new)>(c: Client<L, R>, spec: L, good: iset<R>, gone: bool) {
    (gone ==> c.overlay(None, spec) in good && !c.needsUpdate(c.overlay(None, spec), spec)) &&
    forall b {:trigger c.overlay(Some(b), spec)} :: b in good ==>
      c.overlay(Some(b), spec) in good && !c.needsUpdate(c.overlay(Some(b), spec), spec)
  }

  /** A resource that attempts will bring to what is declared. */
  ghost predicate Hopeful<L(!new), R(!new)>(calm: Calm, r: Remote<R>, good: iset<R>, gone: bool) {
    (Busy(r) ==> r.ticks <= calm.ticks) && (gone || Stable(r)) &&
    (r.Present? ==> !r.phase.Failed? && (r.phase.Removing? || r.body in good))
  }

  lemma AttemptLowersWork<L(!new), R(!new)>(
      c: Client<L, R>, calm: Calm, spec: L, r: Remote<R>, ticks: nat, good: iset<R>, gone: bool)
    requires Mends(c, spec, good, gone) && Hopeful<L, R>(calm, r, good, gone)
    requires !Matches(c, r, spec) && ticks <= calm.ticks
    ensures var r' := Settling(Attempted(c, spec, r, ticks));
            Hopeful<L, R>(calm, r', good, gone) && LiveWork(c, calm, spec, true, r') < LiveWork(c, calm, spec, true, r)
  {
  }

  lemma WorkIsBounded<L(!new), R(!new)>(c: Client<L, R>, calm: Calm, spec: L, r: Remote<R>, good: iset<R>, gone: bool)
    requires Hopeful<L, R>(calm, r, good, gone)
    ensures LiveWork(c, calm, spec, true, r) <= 2 * calm.ticks + 5
  {
  }

  /** Attempts without a match use up the work. */
  lemma {:induction false} WorkAfter<L(!new), R(!new)>(
      c: Client<L, R>, calm: Calm, spec: L, ms: seq<Meeting<R>>, n: nat,
      good: iset<R>, gone: bool)
    requires CalmAttempts(c, calm, spec, ms) && Mends(c, spec, good, gone)
    requires n < |ms| && Hopeful<L, R>(calm, ms[0].remote, good, gone)
    requires forall k :: 0 <= k < n ==> !Matches(c, ms[k].remote, spec)
    ensures Hopeful<L, R>(calm, ms[n].remote, good, gone)
    ensures n + LiveWork(c, calm, spec, true, ms[n].remote) <= LiveWork(c, calm, spec, true, ms[0].remote)
  {
    if n == 0 {
    } else {
      WorkAfter(c, calm, spec, ms, n - 1, good, gone);
      var r, r' := ms[n - 1].remote, ms[n - 1 + 1].remote;
      assert Follows(c, calm, spec, r, r');
      var ticks: nat :| ticks <= calm.ticks && r' == Settling(Attempted(c, spec, r, ticks));
      AttemptLowersWork(c, calm, spec, r, ticks, good, gone);
    }
  }

  /** Attempts enough for any calm. */
  function Enough(calm: Calm): nat {
    2 * calm.ticks + 7
  }

  lemma SomeAttemptMatches<L(!new), R(!new)>(
      c: Client<L, R>, calm: Calm, spec: L, ms: seq<Meeting<R>>, steps: nat,
      good: iset<R>, gone: bool)
    requires CalmAttempts(c, calm, spec, ms) && Enough(calm) <= steps <= |ms|
    requires Mends(c, spec, good, gone) && Hopeful<L, R>(calm, ms[0].remote, good, gone)
    ensures exists k :: 0 <= k < steps && Matches(c, ms[k].remote, spec)
  {
    if forall k :: 0 <= k < steps ==> !Matches(c, ms[k].remote, spec) {
      WorkAfter(c, calm, spec, ms, steps - 1, good, gone);
      WorkIsBounded(c, calm, spec, ms[0].remote, good, gone);
      assert false;
    }
  }

  // ---------------------------------------------------------------- attempts in vain

  /** The resource stays in `stuck`, or parked. */
  ghost predicate InVain<L(!new), R(!new)>(c: Client<L, R>, spec: L, r: Remote<R>, stuck: iset<R>, gone: bool) {
    (r.Present? && !(gone && Leaving(r)) ==> r.body in stuck) &&
    if gone then c.overlay(None, spec) in stuck else Stable(r)
  }

  lemma AttemptIsInVain<L(!new), R(!new)>(
      c: Client<L, R>, spec: L, r: Remote<R>, ticks: nat, stuck: iset<R>, gone: bool)
    requires Hopeless(c, spec, stuck) && InVain(c, spec, r, stuck, gone)
    ensures !Matches(c, r, spec) && InVain(c, spec, Settling(Attempted(c, spec, r, ticks)), stuck, gone)
  {
  }

  lemma {:induction false} NoAttemptMatches<L(!new), R(!new)>(
      c: Client<L, R>, calm: Calm, spec: L, ms: seq<Meeting<R>>, n: nat, stuck: iset<R>, gone: bool)
    requires CalmAttempts(c, calm, spec, ms) && n < |ms|
    requires Hopeless(c, spec, stuck) && InVain(c, spec, ms[0].remote, stuck, gone)
    ensures InVain(c, spec, ms[n].remote, stuck, gone) && !Matches(c, ms[n].remote, spec)
  {
    if n == 0 {
      AttemptIsInVain(c, spec, ms[0].remote, 0, stuck, gone);
    } else {
      NoAttemptMatches(c, calm, spec, ms, n - 1, stuck, gone);
      var r, r' := ms[n - 1].remote, ms[n - 1 + 1].remote;
      assert Follows(c, calm, spec, r, r');
      var ticks: nat :| ticks <= calm.ticks && r' == Settling(Attempted(c, spec, r, ticks));
      AttemptIsInVain(c, spec, r, ticks, stuck, gone);
      AttemptIsInVain(c, spec, r', 0, stuck, gone);
    }
  }

  lemma {:induction false} ParkedIsInVain<L(!new), R(!new)>(
      c: Client<L, R>, calm: Calm, spec: L, ms: seq<Meeting<R>>, n: nat)
    requires CalmAttempts(c, calm, spec, ms) && n < |ms|
    requires ms[0].remote.Present? && ms[0].remote.phase.Failed?
    ensures ms[n].remote == ms[0].remote
  {
    if n == 0 {
    } else {
      ParkedIsInVain(c, calm, spec, ms, n - 1);
      assert Follows(c, calm, spec, ms[n - 1].remote, ms[n - 1 + 1].remote);
    }
  }

  // ---------------------------------------------------------------- the verdicts

  /** Nil iff authorised and some attempt met the resource as declared. */
  method EnsureInCalm<L(!new), R(!new)>(
      c: Client<L, R>, calm: Calm, spec: L, authFails: bool, ms: seq<Meeting<R>>, steps: nat)
    returns (verdict: Verdict)
    requires CalmAttempts(c, calm, spec, ms) && steps <= |ms|
    ensures verdict.Nil? <==> !authFails && exists k :: 0 <= k < steps && Matches(c, ms[k].remote, spec)
  {
    var decided;
    verdict, decided := EnsureConverges(c, spec, authFails, ms, steps);
    if k :| 0 <= k < steps && Matches(c, ms[k].remote, spec) {
      assert ms[k].getOk;
    }
  }

  predicate ParkedAt<R>(r: Remote<R>) {
    r.Present? && r.phase.Failed?
  }

  lemma GroupMatchesIff(calm: Calm, spec: ResourceGroups.GroupSpec, ms: seq<Meeting<ResourceGroups.Group>>, steps: nat)
    requires CalmAttempts(ResourceGroups.GroupClient(), calm, spec, ms) && Enough(calm) <= steps <= |ms|
    ensures (exists k :: 0 <= k < steps && Matches(ResourceGroups.GroupClient(), ms[k].remote, spec))
            <==> !ParkedAt(ms[0].remote)
  {
    var c := ResourceGroups.GroupClient();
    if ParkedAt(ms[0].remote) {
      forall k | 0 <= k < steps
        ensures !Matches(c, ms[k].remote, spec)
      {
        ParkedIsInVain(c, calm, spec, ms, k);
      }
    } else {
      SomeAttemptMatches(c, calm, spec, ms, steps, Anything(), true);
    }
  }

  /** With enough attempts the command ensures a resource group iff it is authorised and the group is not parked. */
  method EnsureGroup(
      calm: Calm, spec: ResourceGroups.GroupSpec, authFails: bool, ms: seq<Meeting<ResourceGroups.Group>>, steps: nat)
    returns (verdict: Verdict)
    requires CalmAttempts(ResourceGroups.GroupClient(), calm, spec, ms) && Enough(calm) <= steps <= |ms|
    ensures verdict.Nil? <==> !authFails && !ParkedAt(ms[0].remote)
  {
    verdict := EnsureInCalm(ResourceGroups.GroupClient(), calm, spec, authFails, ms, steps);
    GroupMatchesIff(calm, spec, ms, steps);
  }

  lemma NetworkMatchesIff(
      calm: Calm, spec: VirtualNetworks.NetworkSpec, ms: seq<Meeting<VirtualNetworks.Network>>, steps: nat)
    requires CalmAttempts(VirtualNetworks.NetworkClient(), calm, spec, ms) && Enough(calm) <= steps <= |ms|
    ensures (exists k :: 0 <= k < steps && Matches(VirtualNetworks.NetworkClient(), ms[k].remote, spec))
            <==> !ParkedAt(ms[0].remote) && VirtualNetworks.Reachable(spec, VirtualNetworks.StartsFrom(ms[0].remote))
  {
    var c, r := VirtualNetworks.NetworkClient(), ms[0].remote;
    if ParkedAt(r) {
      forall k | 0 <= k < steps
        ensures !Matches(c, ms[k].remote, spec)
      {
        ParkedIsInVain(c, calm, spec, ms, k);
      }
    } else if VirtualNetworks.Reachable(spec, VirtualNetworks.StartsFrom(r)) {
      var prior := if Stable(r) then Some(r.body) else None;
      VirtualNetworks.DoneAfterWriteIff(prior, spec);
      SomeAttemptMatches(c, calm, spec, ms, steps, VirtualNetworks.Trap(r, spec), !Stable(r));
    } else {
      VirtualNetworks.TrapIsHopeless(r, spec);
      forall k | 0 <= k < steps
        ensures !Matches(c, ms[k].remote, spec)
      {
        NoAttemptMatches(c, calm, spec, ms, k, VirtualNetworks.Trap(r, spec), !Stable(r));
      }
    }
  }

  /** And a virtual network iff, besides, the declared list extends what is deployed by distinct new prefixes. */
  method EnsureNetwork(
      calm: Calm, spec: VirtualNetworks.NetworkSpec, authFails: bool,
      ms: seq<Meeting<VirtualNetworks.Network>>, steps: nat)
    returns (verdict: Verdict)
    requires CalmAttempts(VirtualNetworks.NetworkClient(), calm, spec, ms) && Enough(calm) <= steps <= |ms|
    ensures verdict.Nil? <==>
              !authFails && !ParkedAt(ms[0].remote) &&
              VirtualNetworks.Reachable(spec, VirtualNetworks.StartsFrom(ms[0].remote))
  {
    verdict := EnsureInCalm(VirtualNetworks.NetworkClient(), calm, spec, authFails, ms, steps);
    NetworkMatchesIff(calm, spec, ms, steps);
  }

  // ---------------------------------------------------------------- deletions

  /** Every DELETE is accepted or tolerated, so from the first GET on the resource is on its way out. */
  ghost predicate CalmPartings<R(!new)>(calm: Calm, ps: seq<Parting<R>>) {
    (forall k :: 0 <= k < |ps| ==> !ps[k].reply.Refused? && ps[k].getOk) &&
    (ps != [] && ps[0].remote.Present? ==> ps[0].remote.phase.Removing? && ps[0].remote.ticks <= calm.ticks) &&
    forall k :: 0 <= k < |ps| - 1 ==> ps[k + 1].remote == Settling(ps[k].remote)
  }

  lemma {:induction false} PartingAfter<R(!new)>(calm: Calm, ps: seq<Parting<R>>, n: nat)
    requires CalmPartings(calm, ps) && n < |ps|
    ensures ps[n].remote.Present? ==>
              ps[n].remote.phase.Removing? && n + ps[n].remote.ticks <= calm.ticks
  {
    if n == 0 {
    } else {
      PartingAfter(calm, ps, n - 1);
      assert ps[n - 1 + 1].remote == Settling(ps[n - 1].remote);
    }
  }

  /** With enough attempts the command deletes what it is authorised to delete, and it is gone when it says so. */
  method DeleteInCalm<R(!new)>(calm: Calm, authFails: bool, ps: seq<Parting<R>>, steps: nat)
    returns (verdict: Verdict, decided: nat)
    requires CalmPartings(calm, ps) && calm.ticks + 2 <= steps <= |ps|
    ensures verdict.Nil? <==> !authFails
    ensures verdict.Nil? ==> decided < steps && ps[decided].remote.Absent?
  {
    PartingAfter(calm, ps, calm.ticks + 1);
    assert ps[calm.ticks + 1].getOk && ps[calm.ticks + 1].remote.Absent?;
    verdict, decided := DeleteConverges(authFails, ps, steps);
  }
}
