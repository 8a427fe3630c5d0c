/**
 cmd/ensure/ensure.go: how the command line turns many retried attempts into one verdict per
 object, and many objects into one exit code.
 */
module EnsureCommand {
  import opened Protocol

  // ---------------------------------------------------------------- retrying

  /** What the retried function returned: stop, and an error. */
  datatype Condition = Condition(stop: bool, err: bool)

  datatype Verdict = Nil | Failed | TimedOut

  /** wait.ExponentialBackoff: the first attempt that stops or fails decides; none within the steps is a timeout. */
  method Backoff(conditions: seq<Condition>, steps: nat) returns (verdict: Verdict, decided: nat)
    requires steps <= |conditions|
    ensures verdict.TimedOut? ==> forall j :: 0 <= j < steps ==> !conditions[j].stop && !conditions[j].err
    ensures !verdict.TimedOut? ==>
              decided < steps && (verdict.Failed? <==> conditions[decided].err) &&
              (verdict.Nil? ==> conditions[decided].stop) &&
              forall j :: 0 <= j < decided ==> !conditions[j].stop && !conditions[j].err
  {
    decided := 0;
    while decided < steps
      invariant 0 <= decided <= steps
      invariant forall j :: 0 <= j < decided ==> !conditions[j].stop && !conditions[j].err
    {
      if conditions[decided].err {
        return Verdict.Failed, decided;
      }
      if conditions[decided].stop {
        return Nil, decided;
      }
      decided := decided + 1;
    }
    return TimedOut, decided;
  }

  /** The answer of one Ensure or Delete: done or found, and an error. */
  datatype Attempt = Attempt(flag: bool, err: bool)

  method EnsureAsync(authFails: bool, attempts: seq<Attempt>, steps: nat) returns (verdict: Verdict, decided: nat)
    requires steps <= |attempts|
    ensures verdict.Nil? <==> !authFails && exists k :: 0 <= k < steps && attempts[k].flag
    ensures verdict.Nil? ==>
              decided < steps && attempts[decided].flag && forall j :: 0 <= j < decided ==> !attempts[j].flag
  {
    if authFails {
      return Verdict.Failed, 0;
    }
    var conditions := seq(|attempts|, i requires 0 <= i < |attempts| => Condition(attempts[i].flag, false));
    verdict, decided := Backoff(conditions, steps);
    assert forall k :: 0 <= k < steps ==> conditions[k].stop == attempts[k].flag;
  }

  method DeleteAsync(authFails: bool, attempts: seq<Attempt>, steps: nat) returns (verdict: Verdict, decided: nat)
    requires steps <= |attempts|
    ensures verdict.Nil? <==> !authFails && exists k :: 0 <= k < steps && !attempts[k].flag
    ensures verdict.Nil? ==>
              decided < steps && !attempts[decided].flag && forall j :: 0 <= j < decided ==> attempts[j].flag
  {
    if authFails {
      return Verdict.Failed, 0;
    }
    var conditions := seq(|attempts|, i requires 0 <= i < |attempts| => Condition(!attempts[i].flag, false));
    verdict, decided := Backoff(conditions, steps);
    assert forall k :: 0 <= k < steps ==> conditions[k].stop == !attempts[k].flag;
  }

  /** EnsureSync and DeleteSync: the flag of an attempt is its error. */
  method RetrySync(authFails: bool, errs: seq<bool>, steps: nat) returns (verdict: Verdict, decided: nat)
    requires steps <= |errs|
    ensures verdict.Nil? <==> !authFails && exists k :: 0 <= k < steps && !errs[k]
    ensures verdict.Nil? ==> decided < steps && !errs[decided]
  {
    if authFails {
      return Verdict.Failed, 0;
    }
    var conditions := seq(|errs|, i requires 0 <= i < |errs| => Condition(!errs[i], false));
    verdict, decided := Backoff(conditions, steps);
    assert forall k :: 0 <= k < steps ==> conditions[k].stop == !errs[k];
  }

  // ---------------------------------------------------------------- the attempts of the clients

  /** What one attempt meets: the GET works or not, the resource at that moment, the write fails or not. */
  datatype Meeting<R> = Meeting(getOk: bool, remote: Remote<R>, putErr: bool)

  /** Ensure of the resource-group and virtual-network clients. */
  function EnsureAnswer<L, R>(c: Client<L, R>, spec: L, m: Meeting<R>): Attempt {
    if !m.getOk then Attempt(false, true)
    else if m.remote.Absent? then Attempt(false, m.putErr)
    else if !m.remote.phase.Succeeded? then Attempt(false, false)
    else if c.needsUpdate(m.remote.body, spec) then Attempt(false, m.putErr)
    else Attempt(true, false)
  }

  /** Ensure of the subnet client, which answers `found` as `done` when its GET fails. */
  function SubnetAnswer<L, R>(c: Client<L, R>, spec: L, m: Meeting<R>): Attempt {
    if !m.getOk then Attempt(true, true) else EnsureAnswer(c, spec, m)
  }

  /** What one deletion meets: the reply to DELETE, then the GET and the resource it sees. */
  datatype Parting<R> = Parting(reply: Reply, getOk: bool, remote: Remote<R>)

  /** Delete of the asynchronous clients. */
  function DeleteAnswer<R>(p: Parting<R>): Attempt {
    if p.reply.Refused? then Attempt(false, true)
    else if !p.getOk then Attempt(true, true)
    else Attempt(p.remote.Present?, false)
  }

  /** The protocol's own view of Ensure gives the same answers. */
  lemma EnsureAnswerIsProtocol<L, R>(c: Client<L, R>, l: Object<L>, m: Meeting<R>)
    ensures var a := EnsureAnswer(c, l.spec, m);
            if !m.getOk then a == Attempt(false, true)
            else var pc := AfterLook(c, l, m.remote);
                 (pc.Ensured? && a == Attempt(pc.done, pc.failed)) || (pc.Putting? && a == Attempt(false, m.putErr))
  {
  }

  /** So does Delete: its answer is what the protocol's DELETE and GET leave behind. */
  lemma DeleteAnswerIsProtocol<L, R>(c: Client<L, R>, w: World<L, R>, effect: bool, ticks: nat, p: Parting<R>)
    requires Enabled(c, w, Remove(effect, p.reply, ticks))
    ensures var w1 := Step(c, w, Remove(effect, p.reply, ticks));
            if p.reply.Refused? then w1.pc.Deleted? && DeleteAnswer(p) == Attempt(w1.pc.found, w1.pc.failed)
            else
              w1.pc.Polling? &&
              var pc := Step(c, w1.(remote := p.remote), Poll(p.getOk)).pc;
              pc.Deleted? && DeleteAnswer(p) == Attempt(pc.found, pc.failed)
  {
  }

  /** For these clients a nil verdict means that the resource was as declared when the deciding attempt looked. */
  method EnsureConverges<L, R>(c: Client<L, R>, spec: L, authFails: bool, ms: seq<Meeting<R>>, steps: nat)
    returns (verdict: Verdict, decided: nat)
    requires steps <= |ms|
    ensures verdict.Nil? ==> !authFails && decided < steps && ms[decided].getOk && Matches(c, ms[decided].remote, spec)
    ensures !authFails && (exists k :: 0 <= k < steps && ms[k].getOk && Matches(c, ms[k].remote, spec)) ==> verdict.Nil?
  {
    var attempts := seq(|ms|, i requires 0 <= i < |ms| => EnsureAnswer(c, spec, ms[i]));
    verdict, decided := EnsureAsync(authFails, attempts, steps);
    assert forall k :: 0 <= k < |ms| ==> attempts[k] == EnsureAnswer(c, spec, ms[k]);
  }

  /** For subnets it means that, exactly unless the deciding attempt could not look at all. */
  method EnsureSubnet<L, R>(c: Client<L, R>, spec: L, authFails: bool, ms: seq<Meeting<R>>, steps: nat)
    returns (verdict: Verdict, decided: nat)
    requires steps <= |ms|
    ensures verdict.Nil? ==>
              !authFails && decided < steps && (SubnetAnswer(c, spec, ms[decided]).err <==> !ms[decided].getOk) &&
              (ms[decided].getOk ==> Matches(c, ms[decided].remote, spec))
    ensures !authFails && steps > 0 && !ms[0].getOk ==> verdict.Nil? && decided == 0
  {
    var attempts := seq(|ms|, i requires 0 <= i < |ms| => SubnetAnswer(c, spec, ms[i]));
    verdict, decided := EnsureAsync(authFails, attempts, steps);
    assert forall k :: 0 <= k < |ms| ==> attempts[k] == SubnetAnswer(c, spec, ms[k]);
  }

  /**
   A nil verdict of a deletion means that the resource was gone, exactly unless the deciding
   attempt's DELETE was refused: that failure counts as not found.
   */
  method DeleteConverges<R>(authFails: bool, ps: seq<Parting<R>>, steps: nat) returns (verdict: Verdict, decided: nat)
    requires steps <= |ps|
    ensures verdict.Nil? ==>
              !authFails && decided < steps && (DeleteAnswer(ps[decided]).err <==> ps[decided].reply.Refused?) &&
              (!ps[decided].reply.Refused? ==> ps[decided].getOk && ps[decided].remote.Absent?)
    ensures !authFails && steps > 0 && ps[0].reply.Refused? ==> verdict.Nil? && decided == 0
    ensures !authFails && (exists k :: 0 <= k < steps && ps[k].getOk && ps[k].remote.Absent?) ==> verdict.Nil?
  {
    var attempts := seq(|ps|, i requires 0 <= i < |ps| => DeleteAnswer(ps[i]));
    verdict, decided := DeleteAsync(authFails, attempts, steps);
    assert forall k :: 0 <= k < |ps| ==> attempts[k] == DeleteAnswer(ps[k]);
  }

  // ---------------------------------------------------------------- the fan-out

  const TOO_MANY := 10

  /** The counting loop of `do`, which stops at ten errors. */
  method CountErrors(errs: seq<bool>) returns (failed: bool)
    ensures failed <==> exists i :: 0 <= i < |errs| && errs[i]
  {
    var numErrors := 0;
    var i := 0;
    while i < |errs|
      invariant 0 <= i <= |errs|
      invariant numErrors > 0 <==> exists k :: 0 <= k < i && errs[k]
      invariant 0 <= numErrors < TOO_MANY
    {
      if errs[i] {
        numErrors := numErrors + 1;
      }
      if numErrors >= TOO_MANY {
        break;
      }
      i := i + 1;
    }
    failed := numErrors > 0;
  }

  datatype Kind =
    | Deployment | DockerConfig | Identity | Keyvault | LoadBalancer | NetworkInterface | Redis | ResourceGroup
    | Secret | SecretBundle | ServiceBusKey | ServiceBusNamespace | SQLServer | StorageKey | Subnet | RedisKey
    | TLSSecret | TrafficManager | VirtualNetwork | VM | Other

  /** What would happen to one object: its kubeclient, its own client, its retried operation. */
  datatype Manifest = Manifest(kind: Kind, kubeErr: bool, clientErr: bool, opErr: bool)

  /** These kinds assign their error to a variable that shadows the one returned. */
  predicate Shadowed(k: Kind) {
    k.DockerConfig? || k.Secret? || k.SecretBundle? || k.TLSSecret?
  }

  predicate EnsurePropagates(k: Kind) {
    !Shadowed(k) && !k.Deployment? && !k.Other?
  }

  /** Deleting is a no-op for more kinds. */
  predicate DeletePropagates(k: Kind) {
    EnsurePropagates(k) && !k.TrafficManager? && !k.ServiceBusKey? && !k.RedisKey?
  }

  /** `client, err := New(...)` opens a scope of its own; what is assigned to that err is printed at most. */
  method SwallowError(m: Manifest) {
    var err := m.clientErr;
    if !err {
      err := m.opErr;
    }
  }

  /** The kinds whose failures reach the exit code, and those whose deletion does. */
  lemma PropagatingKinds(k: Kind)
    ensures EnsurePropagates(k) <==>
              k in [Identity, Keyvault, LoadBalancer, NetworkInterface, Redis, ResourceGroup, ServiceBusKey,
                    ServiceBusNamespace, SQLServer, StorageKey, Subnet, RedisKey, TrafficManager, VirtualNetwork, VM]
    ensures DeletePropagates(k) <==>
              k in [Identity, Keyvault, LoadBalancer, NetworkInterface, Redis, ResourceGroup, ServiceBusNamespace,
                    SQLServer, StorageKey, Subnet, VirtualNetwork, VM]
  {
  }

  method EnsureOne(m: Manifest) returns (err: bool)
    ensures err <==> m.kubeErr || (EnsurePropagates(m.kind) && m.opErr)
  {
    err := m.kubeErr;
    if err {
      return;
    }
    match m.kind
    case Deployment =>
    case Other =>
    case DockerConfig => SwallowError(m);
    case Secret => SwallowError(m);
    case SecretBundle => SwallowError(m);
    case TLSSecret => SwallowError(m);
    case _ => err := m.opErr;
  }

  method DeleteOne(m: Manifest) returns (err: bool)
    ensures err <==> m.kubeErr || (DeletePropagates(m.kind) && m.opErr)
  {
    err := m.kubeErr;
    if err {
      return;
    }
    match m.kind
    case Deployment =>
    case Other =>
    case TrafficManager =>
    case ServiceBusKey =>
    case RedisKey =>
    case DockerConfig => SwallowError(m);
    case Secret => SwallowError(m);
    case SecretBundle => SwallowError(m);
    case TLSSecret => SwallowError(m);
    case _ => err := m.opErr;
  }

  predicate Propagates(k: Kind, deleting: bool) {
    if deleting then DeletePropagates(k) else EnsurePropagates(k)
  }

  predicate Fails(m: Manifest, deleting: bool) {
    m.kubeErr || (Propagates(m.kind, deleting) && m.opErr)
  }

  /** One task per object, all run, then counted: whichever way the pool schedules them. */
  method Do(manifests: seq<Manifest>, deleting: bool) returns (failed: bool)
    ensures failed <==> exists i :: 0 <= i < |manifests| && Fails(manifests[i], deleting)
  {
    var errs: seq<bool> := [];
    for i := 0 to |manifests|
      invariant |errs| == i
      invariant forall k :: 0 <= k < i ==> errs[k] == Fails(manifests[k], deleting)
    {
      var err: bool;
      if deleting {
        err := DeleteOne(manifests[i]);
      } else {
        err := EnsureOne(manifests[i]);
      }
      errs := errs + [err];
    }
    failed := CountErrors(errs);
  }
}
