/**
 pkg/clients/sqlservers: a SQL server in Azure and the Kubernetes secret with its administrator
 credential, kept in step by a client whose calls may fail at any point.
 */
module SqlServers {
  import opened Wrappers

  datatype Credential = Credential(username: string, password: string)

  /**
   The two stores and the firewall rule that admits Azure services; `past` holds every
   credential that the secret has held.
   */
  datatype Stores = Stores(secret: Option<Credential>, server: Option<Credential>, rule: bool, past: set<Credential>)

  /** How the read of the secret went: up to date, behind, showing what was stored once or nothing, or failing. */
  datatype SecretRead = UpToDate | Behind(shown: Option<Credential>) | Unreadable

  /** A long-running call: sent without error, waited for without error, and whether it took effect. */
  datatype LongCall = LongCall(sent: bool, waited: bool, effect: bool)
  {
    predicate Succeeded() {
      sent && waited
    }
  }

  /** What happens to the calls of one Ensure, and the credential it would generate. */
  datatype EnsureFaults = EnsureFaults(
    serverReadable: bool, secret: SecretRead, create: Write, write: LongCall,
    authorised: bool, rule: Write, generated: Credential, allowAzure: bool)

  datatype DeleteFaults = DeleteFaults(secret: Write, server: LongCall)

  /** A call that reports completion has taken effect, and a cache never shows what was never stored. */
  predicate Plausible(s: Stores, f: EnsureFaults) {
    (f.write.Succeeded() ==> f.write.effect) &&
    (f.secret.Behind? && f.secret.shown.Some? ==> f.secret.shown.value in s.past)
  }

  predicate PlausibleDelete(f: DeleteFaults) {
    f.server.Succeeded() ==> f.server.effect
  }

  // ---------------------------------------------------------------- what the calls amount to

  /** What the read of the secret shows. */
  function Shown(s: Stores, f: EnsureFaults): Option<Credential> {
    match f.secret
    case UpToDate => s.secret
    case Behind(shown) => shown
    case Unreadable => None
  }

  predicate Creates(s: Stores, f: EnsureFaults) {
    !f.secret.Unreadable? && Shown(s, f).None? && s.secret.None? && !f.create.Rejected?
  }

  /** The stored secret after ensureSecret. */
  function SecretAfter(s: Stores, f: EnsureFaults): Option<Credential> {
    if Creates(s, f) then Some(f.generated) else s.secret
  }

  /** The secret that ensureSecret returns; None stands for an error. */
  function Target(s: Stores, f: EnsureFaults): Option<Credential> {
    if Shown(s, f).Some? then Shown(s, f)
    else if Creates(s, f) && f.create.Applied? then Some(f.generated)
    else None
  }

  predicate Writes(s: Stores, f: EnsureFaults) {
    f.serverReadable && Target(s, f).Some?
  }

  /** The remote write of this Ensure took effect. */
  predicate Accepted(s: Stores, f: EnsureFaults) {
    Writes(s, f) && f.write.effect
  }

  /** The cache showed a secret that is not the stored one any more. */
  predicate Stale(s: Stores, f: EnsureFaults) {
    f.secret.Behind? && f.secret.shown.Some? && f.secret.shown != s.secret
  }

  function WithSecret(s: Stores, secret: Option<Credential>): Stores {
    s.(secret := secret, past := s.past + if secret.Some? then {secret.value} else {})
  }

  function AfterEnsure(s: Stores, f: EnsureFaults): Stores {
    var s1 := if f.serverReadable then WithSecret(s, SecretAfter(s, f)) else s;
    var s2 := if Accepted(s, f) then s1.(server := Target(s, f)) else s1;
    if Writes(s, f) && f.write.Succeeded() && f.authorised && !f.rule.Rejected? then s2.(rule := f.allowAzure) else s2
  }

  predicate EnsureSucceeds(s: Stores, f: EnsureFaults) {
    Writes(s, f) &&
    if !f.write.sent then s.server.None?
    else f.write.waited && f.authorised && (f.allowAzure ==> f.rule.Applied?)
  }

  function AfterDelete(s: Stores, f: DeleteFaults): Stores {
    s.(secret := if f.secret.Rejected? then s.secret else None,
       server := if f.secret.Applied? && f.server.effect then None else s.server)
  }

  predicate DeleteSucceeds(f: DeleteFaults) {
    f.secret.Applied? && f.server.Succeeded()
  }

  // ---------------------------------------------------------------- the client

  class Client {
    var stores: Stores

    ghost predicate Valid()
      reads this
    {
      stores.secret.Some? ==> stores.secret.value in stores.past
    }

    constructor ()
      ensures Valid()
      ensures stores == Stores(None, None, false, {})
    {
      stores := Stores(None, None, false, {});
    }

    /** Finds the secret or creates it with a generated credential; None stands for an error. */
    method EnsureSecret(f: EnsureFaults) returns (target: Option<Credential>)
      requires Valid()
      modifies this
      ensures Valid()
      ensures stores == WithSecret(old(stores), SecretAfter(old(stores), f))
      ensures target == Target(old(stores), f)
    {
      if f.secret.Unreadable? {
        return None;
      }
      var shown := if f.secret.Behind? then f.secret.shown else stores.secret;
      if shown.Some? {
        return shown;
      }
      var alreadyExists := stores.secret.Some?;
      if !alreadyExists && !f.create.Rejected? {
        stores := stores.(secret := Some(f.generated), past := stores.past + {f.generated});
      }
      if alreadyExists || !f.create.Applied? {
        return None;
      }
      return Some(f.generated);
    }

    /** The firewall client may not be authorised; deleting the rule never reports an error. */
    method EnsureRule(f: EnsureFaults) returns (err: bool)
      requires Valid()
      modifies this
      ensures Valid()
      ensures stores ==
                if f.authorised && !f.rule.Rejected? then old(stores).(rule := f.allowAzure) else old(stores)
      ensures err <==> !f.authorised || (f.allowAzure && !f.rule.Applied?)
    {
      if !f.authorised {
        return true;
      }
      if !f.rule.Rejected? {
        stores := stores.(rule := f.allowAzure);
      }
      return f.allowAzure && !f.rule.Applied?;
    }

    method Ensure(f: EnsureFaults) returns (err: bool)
      requires Valid() && Plausible(stores, f)
      modifies this
      ensures Valid()
      ensures stores == AfterEnsure(old(stores), f)
      ensures !err <==> EnsureSucceeds(old(stores), f)
      ensures !err && f.allowAzure ==> stores.rule || (old(stores).server.None? && !f.write.sent)
    {
      if !f.serverReadable {
        return true;
      }
      var found := stores.server.Some?;
      var target := EnsureSecret(f);
      if target.None? {
        return true;
      }
      if f.write.effect {
        stores := stores.(server := target);
      }
      if found {
        if !f.write.sent || !f.write.waited {
          return true;
        }
      } else {
        if !f.write.sent {
          return false;
        }
        if !f.write.waited {
          return true;
        }
      }
      err := EnsureRule(f);
    }

    method Delete(f: DeleteFaults) returns (err: bool)
      requires Valid()
      modifies this
      ensures Valid()
      ensures stores == AfterDelete(old(stores), f)
      ensures !err <==> DeleteSucceeds(f)
    {
      if !f.secret.Rejected? {
        stores := stores.(secret := None);
      }
      if !f.secret.Applied? {
        return true;
      }
      if f.server.effect {
        stores := stores.(server := None);
      }
      return !f.server.Succeeded();
    }
  }

  // ---------------------------------------------------------------- whole runs

  datatype Op = Ensuring(ensure: EnsureFaults) | Deleting(delete: DeleteFaults)

  function After(s: Stores, op: Op): Stores {
    match op
    case Ensuring(f) => AfterEnsure(s, f)
    case Deleting(f) => AfterDelete(s, f)
  }

  predicate PlausibleOp(s: Stores, op: Op) {
    match op
    case Ensuring(f) => Plausible(s, f)
    case Deleting(f) => PlausibleDelete(f)
  }

  const EMPTY := Stores(None, None, false, {})

  /** `ss` lists the stores of a run that starts with nothing and `ops` the operations between them. */
  ghost predicate Run(ss: seq<Stores>, ops: seq<Op>) {
    |ss| == |ops| + 1 && ss[0] == EMPTY &&
    forall i :: 0 <= i < |ops| ==> PlausibleOp(ss[i], ops[i]) && ss[i + 1] == After(ss[i], ops[i])
  }

  /** A server exists only with its secret, and the two hold the same credential. */
  predicate InStep(s: Stores) {
    s.server.Some? ==> s.secret == s.server
  }

  /** The secret has only ever held what it holds now. */
  predicate NeverReplaced(s: Stores) {
    s.past == if s.secret.Some? then {s.secret.value} else {}
  }

  lemma EnsureKeepsStep(s: Stores, f: EnsureFaults)
    requires InStep(s) && NeverReplaced(s) && Plausible(s, f)
    ensures InStep(AfterEnsure(s, f)) && NeverReplaced(AfterEnsure(s, f))
    ensures s.secret.Some? ==> AfterEnsure(s, f).secret == s.secret
  {
  }

  /**
   The credential invariant: in a run of Ensures with arbitrary failures and a lagging cache the
   stores are always in step, and a secret, once there, never changes.
   */
  lemma {:induction false} EnsuresStayInStep(ss: seq<Stores>, ops: seq<Op>, m: nat, n: nat)
    requires Run(ss, ops) && m <= n < |ss|
    requires forall i :: 0 <= i < |ops| ==> ops[i].Ensuring?
    ensures InStep(ss[n]) && NeverReplaced(ss[n])
    ensures ss[m].secret.Some? ==> ss[n].secret == ss[m].secret
  {
    if n == 0 {
    } else {
      EnsuresStayInStep(ss, ops, if m < n then m else n - 1, n - 1);
      assert ss[n] == AfterEnsure(ss[n - 1], ops[n - 1].ensure);
      EnsureKeepsStep(ss[n - 1], ops[n - 1].ensure);
    }
  }

  /**
   Whatever Deletes went before, an Ensure whose remote write is accepted brings the stores back
   in step, exactly unless its cache still showed a secret that is gone or was replaced.
   */
  lemma AcceptedWriteRestoresIff(s: Stores, f: EnsureFaults)
    requires Accepted(s, f)
    ensures AfterEnsure(s, f).server.Some?
    ensures InStep(AfterEnsure(s, f)) <==> !Stale(s, f)
    ensures s.secret.Some? ==> AfterEnsure(s, f).secret == s.secret
  {
  }

  /** Puts the stores out of step: a Delete that leaves the server behind, or a write of a stale credential. */
  predicate Breaks(s: Stores, op: Op) {
    match op
    case Ensuring(f) => Accepted(s, f) && Stale(s, f)
    case Deleting(f) => s.server.Some? && !f.secret.Rejected? && !(f.secret.Applied? && f.server.effect)
  }

  /** Brings them back: a write of the stored credential, or a Delete that takes the server. */
  predicate Mends(s: Stores, op: Op) {
    match op
    case Ensuring(f) => Accepted(s, f) && !Stale(s, f)
    case Deleting(f) => f.secret.Applied? && f.server.effect
  }

  /** Generated credentials are new: they differ from everything stored before. */
  ghost predicate GeneratesNew(ss: seq<Stores>, ops: seq<Op>)
    requires |ss| == |ops| + 1
  {
    forall i :: 0 <= i < |ops| && ops[i].Ensuring? ==> ops[i].ensure.generated !in ss[i].past
  }

  predicate Remembers(s: Stores) {
    (s.secret.Some? ==> s.secret.value in s.past) && (s.server.Some? ==> s.server.value in s.past)
  }

  lemma EnsureInStepIff(s: Stores, f: EnsureFaults)
    requires Remembers(s) && Plausible(s, f) && f.generated !in s.past
    ensures Remembers(AfterEnsure(s, f))
    ensures InStep(AfterEnsure(s, f)) <==> !Breaks(s, Ensuring(f)) && (Mends(s, Ensuring(f)) || InStep(s))
  {
  }

  lemma DeleteInStepIff(s: Stores, f: DeleteFaults)
    requires Remembers(s)
    ensures Remembers(AfterDelete(s, f))
    ensures InStep(AfterDelete(s, f)) <==> !Breaks(s, Deleting(f)) && (Mends(s, Deleting(f)) || InStep(s))
  {
  }

  lemma StepInStepIff(s: Stores, op: Op)
    requires Remembers(s)
    requires op.Ensuring? ==> Plausible(s, op.ensure) && op.ensure.generated !in s.past
    ensures Remembers(After(s, op))
    ensures InStep(After(s, op)) <==> !Breaks(s, op) && (Mends(s, op) || InStep(s))
  {
    match op
    case Ensuring(f) => EnsureInStepIff(s, f);
    case Deleting(f) => DeleteInStepIff(s, f);
  }

  lemma {:induction false} RunRemembers(ss: seq<Stores>, ops: seq<Op>, n: nat)
    requires Run(ss, ops) && GeneratesNew(ss, ops) && n < |ss|
    ensures Remembers(ss[n])
  {
    if n == 0 {
    } else {
      RunRemembers(ss, ops, n - 1);
      assert ss[n] == After(ss[n - 1], ops[n - 1]);
      StepInStepIff(ss[n - 1], ops[n - 1]);
    }
  }

  /** The operation put the stores out of step and none before `n` mended them. */
  ghost predicate BrokenSince(ss: seq<Stores>, ops: seq<Op>, k: nat, n: nat)
    requires k < n <= |ops| && |ss| == |ops| + 1
  {
    Breaks(ss[k], ops[k]) && forall j :: k < j < n ==> !Mends(ss[j], ops[j])
  }

  ghost predicate Broken(ss: seq<Stores>, ops: seq<Op>, n: nat)
    requires n <= |ops| && |ss| == |ops| + 1
  {
    exists k :: 0 <= k < n && BrokenSince(ss, ops, k, n)
  }

  lemma BrokenNextIff(ss: seq<Stores>, ops: seq<Op>, n: nat)
    requires n < |ops| && |ss| == |ops| + 1
    ensures Broken(ss, ops, n + 1) <==>
              Breaks(ss[n], ops[n]) || (Broken(ss, ops, n) && !Mends(ss[n], ops[n]))
  {
    var n' := n + 1;
    if Breaks(ss[n], ops[n]) {
      assert BrokenSince(ss, ops, n, n');
    }
    if Broken(ss, ops, n) && !Mends(ss[n], ops[n]) {
      var k :| 0 <= k < n && BrokenSince(ss, ops, k, n);
      assert BrokenSince(ss, ops, k, n');
    }
    if Broken(ss, ops, n') && !Breaks(ss[n], ops[n]) {
      var k :| 0 <= k < n' && BrokenSince(ss, ops, k, n');
      assert BrokenSince(ss, ops, k, n);
    }
  }

  /**
   Exactly when the stores are out of step, in any run of Ensures and Deletes: some operation
   broke them and none since has mended them.
   */
  lemma {:induction false} OutOfStepIff(ss: seq<Stores>, ops: seq<Op>, n: nat)
    requires Run(ss, ops) && GeneratesNew(ss, ops) && n < |ss|
    ensures !InStep(ss[n]) <==> Broken(ss, ops, n)
  {
    if n == 0 {
    } else {
      OutOfStepIff(ss, ops, n - 1);
      RunRemembers(ss, ops, n - 1);
      assert ss[n] == After(ss[n - 1], ops[n - 1]);
      StepInStepIff(ss[n - 1], ops[n - 1]);
      BrokenNextIff(ss, ops, n - 1);
    }
  }

  const DONE := LongCall(true, true, true)
  const FAILED := LongCall(false, false, false)

  /** It does happen: create, delete with the server's deletion failing, ensure with the update failing. */
  lemma TornRun() returns (ss: seq<Stores>, ops: seq<Op>)
    ensures Run(ss, ops) && GeneratesNew(ss, ops)
    ensures !InStep(ss[|ops|]) && ss[|ops|].secret.Some?
  {
    var a, b := Credential("a", "p"), Credential("b", "q");
    assert a.username[0] != b.username[0];
    ops := [Ensuring(EnsureFaults(true, UpToDate, Applied, DONE, true, Applied, a, false)),
            Deleting(DeleteFaults(Applied, FAILED)),
            Ensuring(EnsureFaults(true, UpToDate, Applied, FAILED, true, Applied, b, false))];
    ss := [EMPTY, Stores(Some(a), Some(a), false, {a}), Stores(None, Some(a), false, {a}),
           Stores(Some(b), Some(a), false, {a, b})];
  }

  /**
   And without any failing call: create, delete completely, and ensure again before the cache
   has noticed. Ensure succeeds, and the server runs with a credential that is stored nowhere.
   */
  lemma StaleRun() returns (ss: seq<Stores>, ops: seq<Op>)
    ensures Run(ss, ops) && GeneratesNew(ss, ops)
    ensures |ops| == 3 && ops[0].Ensuring? && ops[1].Deleting? && ops[2].Ensuring?
    ensures EnsureSucceeds(ss[0], ops[0].ensure) && DeleteSucceeds(ops[1].delete)
    ensures EnsureSucceeds(ss[2], ops[2].ensure)
    ensures ss[3].server.Some? && ss[3].secret.None?
  {
    var a, b := Credential("a", "p"), Credential("b", "q");
    assert a.username[0] != b.username[0];
    ops := [Ensuring(EnsureFaults(true, UpToDate, Applied, DONE, true, Applied, a, false)),
            Deleting(DeleteFaults(Applied, DONE)),
            Ensuring(EnsureFaults(true, Behind(Some(a)), Applied, DONE, true, Applied, b, false))];
    ss := [EMPTY, Stores(Some(a), Some(a), false, {a}), Stores(None, None, false, {a}),
           Stores(None, Some(a), false, {a})];
  }

  // ---------------------------------------------------------------- what a nil error means

  /**
   A nil error from Ensure means that the server runs with the secret's credential, exactly
   unless the server was absent and its creation was refused, an error that is swallowed, or
   the credential written was a stale one.
   */
  lemma EnsureNilMeansServerIff(s: Stores, f: EnsureFaults)
    requires Plausible(s, f) && EnsureSucceeds(s, f)
    ensures var s' := AfterEnsure(s, f);
            s'.server.Some? && s'.server == s'.secret <==>
              !(s.server.None? && !f.write.sent && !f.write.effect) && !Stale(s, f)
  {
  }

  /**
   What Ensure reports: every failure it meets, except the refused creation of an absent server, after
   which nothing more is tried, and the refused removal of the rule.
   */
  lemma EnsureErrsIff(s: Stores, f: EnsureFaults)
    ensures !EnsureSucceeds(s, f) <==>
              !f.serverReadable ||
              f.secret.Unreadable? ||
              (Shown(s, f).None? && (s.secret.Some? || !f.create.Applied?)) ||
              (s.server.Some? && !f.write.sent) ||
              (f.write.sent && !f.write.waited) ||
              (f.write.sent && !f.authorised) ||
              (f.write.sent && f.allowAzure && !f.rule.Applied?)
  {
  }

  /** With the rule declared, nil means that it is on, unless it was off and the server's creation was refused. */
  lemma EnsureNilMeansRuleOn(s: Stores, f: EnsureFaults)
    requires EnsureSucceeds(s, f) && f.allowAzure
    ensures AfterEnsure(s, f).rule || (!s.rule && s.server.None? && !f.write.sent)
  {
  }

  /** If every call works, Ensure returns nil, with the server, its secret and the rule as declared. */
  lemma EnsureWorks(s: Stores, f: EnsureFaults)
    requires f.serverReadable && f.secret.UpToDate? && f.create.Applied? && f.write == DONE
    requires f.authorised && f.rule.Applied?
    ensures EnsureSucceeds(s, f)
    ensures var s' := AfterEnsure(s, f);
            s'.server == s'.secret == (if s.secret.Some? then s.secret else Some(f.generated)) &&
            s'.rule == f.allowAzure
  {
  }

  /** And so does Delete. */
  lemma DeleteErrsIff(s: Stores, f: DeleteFaults)
    ensures !DeleteSucceeds(f) <==> !f.secret.Applied? || !f.server.sent || !f.server.waited
    ensures f.secret.Rejected? ==> AfterDelete(s, f) == s
    ensures AfterDelete(s, f).rule == s.rule
  {
  }

  /** A nil error from Delete means that both stores are empty. */
  lemma DeleteNilMeansGone(s: Stores, f: DeleteFaults)
    requires PlausibleDelete(f) && DeleteSucceeds(f)
    ensures AfterDelete(s, f).secret.None? && AfterDelete(s, f).server.None?
  {
  }

  /**
   A nil error says that the rule is as declared, exactly if it was so before or the rule was
   reached and its call took effect: neither the swallowed creation nor a refused removal gets that far.
   */
  lemma EnsureNilMeansRuleIff(s: Stores, f: EnsureFaults)
    requires EnsureSucceeds(s, f)
    ensures AfterEnsure(s, f).rule == f.allowAzure <==>
              s.rule == f.allowAzure || (f.write.sent && !f.rule.Rejected?)
  {
  }

  /** The two ways in which it fails: creating the server is refused, and removing the rule is refused. */
  lemma RuleNotAsDeclared() returns (s: Stores, refusedServer: EnsureFaults, t: Stores, refusedRemoval: EnsureFaults)
    ensures Plausible(s, refusedServer) && EnsureSucceeds(s, refusedServer)
    ensures refusedServer.allowAzure && !AfterEnsure(s, refusedServer).rule
    ensures Plausible(t, refusedRemoval) && EnsureSucceeds(t, refusedRemoval)
    ensures !refusedRemoval.allowAzure && AfterEnsure(t, refusedRemoval).rule
  {
    var a := Credential("a", "p");
    s := EMPTY;
    refusedServer := EnsureFaults(true, UpToDate, Applied, FAILED, true, Applied, a, true);
    t := Stores(Some(a), Some(a), true, {a});
    refusedRemoval := EnsureFaults(true, UpToDate, Applied, DONE, true, Rejected, a, false);
  }
}
