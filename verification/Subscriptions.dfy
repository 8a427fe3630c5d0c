/**
 Clients remember one subscription at a time: ForSubscription points the client at the
 subscription of the object in hand, and every later remote call uses whatever the client
 points at by then. Workers that share a client overwrite each other.
 */
module Subscriptions {

  datatype State = State(current: seq<string>, serving: seq<Serving>)
  datatype Serving = Idle | For(subscription: string)

  /** Who uses which client, and the subscriptions of the objects there are. */
  datatype Setup = Setup(clientOf: seq<nat>, clients: nat, subscriptions: set<string>)

  datatype Action =
    /** ForSubscription: the client is replaced before authorisation can fail. */
    | Start(worker: nat, subscription: string, authorised: bool)
    /** A remote call for the object in hand. */
    | Call(worker: nat)
    | Finish(worker: nat)

  predicate Wellformed(s: Setup) {
    forall w :: 0 <= w < |s.clientOf| ==> s.clientOf[w] < s.clients
  }

  predicate Fits(s: Setup, st: State) {
    |st.current| == s.clients && |st.serving| == |s.clientOf|
  }

  predicate Enabled(s: Setup, st: State, a: Action)
    requires Fits(s, st)
  {
    a.worker < |st.serving| &&
    match a
    case Start(w, sub, _) => st.serving[w].Idle? && sub in s.subscriptions
    case Call(w) => st.serving[w].For?
    case Finish(w) => st.serving[w].For?
  }

  function Step(s: Setup, st: State, a: Action): (st': State)
    requires Wellformed(s) && Fits(s, st) && Enabled(s, st, a)
    ensures Fits(s, st')
  {
    match a
    case Start(w, sub, ok) =>
      State(st.current[s.clientOf[w] := sub], if ok then st.serving[w := For(sub)] else st.serving)
    case Call(_) => st
    case Finish(w) => st.(serving := st.serving[w := Idle])
  }

  /** A call made now for the object in hand reaches that object's subscription. */
  predicate CallIsRight(s: Setup, st: State, a: Action)
    requires Wellformed(s) && Fits(s, st) && Enabled(s, st, a)
  {
    a.Call? ==> st.serving[a.worker] == For(st.current[s.clientOf[a.worker]])
  }

  predicate IsRun(s: Setup, st: State, actions: seq<Action>)
    requires Wellformed(s) && Fits(s, st)
    decreases |actions|
  {
    actions == [] || (Enabled(s, st, actions[0]) && IsRun(s, Step(s, st, actions[0]), actions[1..]))
  }

  predicate AllCallsRight(s: Setup, st: State, actions: seq<Action>)
    requires Wellformed(s) && Fits(s, st) && IsRun(s, st, actions)
    decreases |actions|
  {
    actions != [] ==> CallIsRight(s, st, actions[0]) && AllCallsRight(s, Step(s, st, actions[0]), actions[1..])
  }

  predicate AtRest(st: State) {
    forall w :: 0 <= w < |st.serving| ==> st.serving[w].Idle?
  }

  predicate OwnClients(s: Setup) {
    forall v, w :: 0 <= v < w < |s.clientOf| ==> s.clientOf[v] != s.clientOf[w]
  }

  predicate OneSubscription(s: Setup) {
    forall a, b :: a in s.subscriptions && b in s.subscriptions ==> a == b
  }

  /** Whoever is serving an object has its client pointed at it. */
  predicate Isolated(s: Setup, st: State)
    requires Wellformed(s) && Fits(s, st)
  {
    forall w :: 0 <= w < |st.serving| ==>
      (st.serving[w].For? ==> st.serving[w].subscription in s.subscriptions &&
                              st.serving[w] == For(st.current[s.clientOf[w]]))
  }

  lemma StepKeepsIsolated(s: Setup, st: State, a: Action)
    requires Wellformed(s) && Fits(s, st) && Enabled(s, st, a) && Isolated(s, st)
    requires OwnClients(s) || OneSubscription(s)
    ensures Isolated(s, Step(s, st, a)) && CallIsRight(s, st, a)
  {
  }

  lemma {:induction false} RunIsIsolated(s: Setup, st: State, actions: seq<Action>)
    requires Wellformed(s) && Fits(s, st) && Isolated(s, st) && IsRun(s, st, actions)
    requires OwnClients(s) || OneSubscription(s)
    ensures AllCallsRight(s, st, actions)
    decreases |actions|
  {
    if actions == [] {
    } else {
      StepKeepsIsolated(s, st, actions[0]);
      RunIsIsolated(s, Step(s, st, actions[0]), actions[1..]);
    }
  }

  ghost predicate AlwaysIsolated(s: Setup)
    requires Wellformed(s)
  {
    forall st, actions | Fits(s, st) && AtRest(st) && IsRun(s, st, actions) :: AllCallsRight(s, st, actions)
  }

  /**
   Two workers on one client: the second start redirects the first worker's next call, even if its
   authorisation then fails.
   */
  lemma SharedClientMixesUp(s: Setup, v: nat, w: nat, a: string, b: string, authorised: bool)
    requires Wellformed(s) && v < |s.clientOf| && w < |s.clientOf| && v != w && s.clientOf[v] == s.clientOf[w]
    requires a in s.subscriptions && b in s.subscriptions && a != b
    ensures var st := State(seq(s.clients, _ => ""), seq(|s.clientOf|, _ => Idle));
            var acts := [Start(v, a, true), Start(w, b, authorised), Call(v)];
            Fits(s, st) && AtRest(st) && IsRun(s, st, acts) && !AllCallsRight(s, st, acts)
    ensures !AlwaysIsolated(s)
  {
    var st := State(seq(s.clients, _ => ""), seq(|s.clientOf|, _ => Idle));
    var x, y, z := Start(v, a, true), Start(w, b, authorised), Call(v);
    var st1 := Step(s, st, x);
    var st2 := Step(s, st1, y);
    assert !CallIsRight(s, st2, z);
    assert IsRun(s, Step(s, st2, z), []);
    assert [z][1..] == [] && [y, z][1..] == [z] && [x, y, z][1..] == [y, z];
    assert IsRun(s, st2, [z]) && !AllCallsRight(s, st2, [z]);
    assert IsRun(s, st1, [y, z]) && !AllCallsRight(s, st1, [y, z]);
    assert IsRun(s, st, [x, y, z]) && !AllCallsRight(s, st, [x, y, z]);
  }

  /**
   In every interleaving every call reaches the subscription of its own object, exactly if no
   two workers share a client or all objects live in one subscription.
   */
  lemma IsolationIff(s: Setup)
    requires Wellformed(s)
    ensures AlwaysIsolated(s) <==> OwnClients(s) || OneSubscription(s)
  {
    if OwnClients(s) || OneSubscription(s) {
      forall st, actions | Fits(s, st) && AtRest(st) && IsRun(s, st, actions)
        ensures AllCallsRight(s, st, actions)
      {
        RunIsIsolated(s, st, actions);
      }
    } else {
      var v, w :| 0 <= v < w < |s.clientOf| && s.clientOf[v] == s.clientOf[w];
      var a, b :| a in s.subscriptions && b in s.subscriptions && a != b;
      SharedClientMixesUp(s, v, w, a, b, true);
    }
  }

  /** A controller: `workers` workers (MaxConcurrentReconciles) on the one client made at start-up. */
  function ControllerSetup(workers: nat, subscriptions: set<string>): Setup {
    Setup(seq(workers, _ => 0), 1, subscriptions)
  }

  /** The command line: a task per object, each with the client it made itself. */
  function CommandSetup(tasks: nat, subscriptions: set<string>): Setup {
    Setup(seq(tasks, i requires 0 <= i => i), tasks, subscriptions)
  }

  lemma OneSubscriptionIff(s: Setup)
    ensures OneSubscription(s) <==> |s.subscriptions| <= 1
  {
    if s.subscriptions != {} {
      var a :| a in s.subscriptions;
      var others := s.subscriptions - {a};
      assert |others| == |s.subscriptions| - 1;
      if others != {} {
        var b :| b in others;
        assert a != b;
      } else {
        assert s.subscriptions == {a};
      }
    }
  }

  /** Fifteen workers, as SQL servers and firewall rules have, are not isolated; one worker is. */
  lemma ControllerIsolatedIff(workers: nat, subscriptions: set<string>)
    ensures Wellformed(ControllerSetup(workers, subscriptions))
    ensures AlwaysIsolated(ControllerSetup(workers, subscriptions)) <==> workers <= 1 || |subscriptions| <= 1
  {
    var s := ControllerSetup(workers, subscriptions);
    IsolationIff(s);
    assert OwnClients(s) <==> workers <= 1 by {
      if workers > 1 {
        assert s.clientOf[0] == s.clientOf[1];
      }
    }
    OneSubscriptionIff(s);
  }

  lemma CommandIsIsolated(tasks: nat, subscriptions: set<string>)
    ensures Wellformed(CommandSetup(tasks, subscriptions))
    ensures AlwaysIsolated(CommandSetup(tasks, subscriptions))
  {
    IsolationIff(CommandSetup(tasks, subscriptions));
  }
}
