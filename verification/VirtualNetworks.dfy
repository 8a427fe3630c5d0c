/**
 pkg/clients/virtualnetworks: the address-space merge against NeedsUpdate, and what it means
 for the reconcile loop.
 */
module VirtualNetworks {
  import opened Wrappers
  import opened Protocol
  import opened Safety
  import opened Progress
  import opened Convergence
  import opened Livelock

  // ---------------------------------------------------------------- data

  /** A Go slice of strings: the comparison tells a nil slice from an empty one. */
  datatype Slice = Nil | Items(items: seq<string>)

  function Elements(s: Slice): seq<string> {
    if s.Nil? then [] else s.items
  }

  datatype NetworkSpec = NetworkSpec(
    name: string, location: string, resourceGroup: string, subscription: string, addresses: Slice)

  /** The nested optional structure of the SDK type; subnets stand for what the client never sets. */
  datatype AddressSpaceFormat = AddressSpaceFormat(prefixes: Option<seq<string>>)
  datatype PropertiesFormat = PropertiesFormat(addressSpace: Option<AddressSpaceFormat>, subnets: seq<(string, string)>)
  datatype Network = Network(name: Option<string>, location: Option<string>, properties: Option<PropertiesFormat>)

  function Addresses(n: Network): Option<seq<string>> {
    if n.properties.None? || n.properties.value.addressSpace.None? then None
    else n.properties.value.addressSpace.value.prefixes
  }

  function Prefixes(n: Network): seq<string> {
    if Addresses(n).Some? then Addresses(n).value else []
  }

  predicate NeedsUpdate(n: Network, local: NetworkSpec) {
    n.name != Some(local.name) || n.location != Some(local.location) ||
    Addresses(n).None? || local.addresses != Items(Addresses(n).value)
  }

  // ---------------------------------------------------------------- the merge

  function Insert(have: seq<string>, cidr: string): seq<string> {
    if cidr in have then have else have + [cidr]
  }

  function Merge(have: seq<string>, want: seq<string>): seq<string>
    decreases |want|
  {
    if want == [] then have else Merge(Insert(have, want[0]), want[1..])
  }

  ghost predicate Distinct(xs: seq<string>) {
    forall i, j :: 0 <= i < j < |xs| ==> xs[i] != xs[j]
  }

  ghost predicate Apart(xs: seq<string>, ys: seq<string>) {
    forall x :: x in xs ==> x !in ys
  }

  /** The desired list extends what is deployed by distinct new prefixes. */
  ghost predicate Extends(want: seq<string>, have: seq<string>) {
    have <= want && Distinct(want[|have|..]) && Apart(want[|have|..], have)
  }

  lemma {:induction false} MergeSnoc(have: seq<string>, want: seq<string>, cidr: string)
    ensures Merge(have, want + [cidr]) == Insert(Merge(have, want), cidr)
    decreases |want|
  {
    if want == [] {
      assert [cidr][1..] == [];
      assert Merge(have, [cidr]) == Merge(Insert(have, cidr), []);
    } else {
      assert (want + [cidr])[1..] == want[1..] + [cidr];
      MergeSnoc(Insert(have, want[0]), want[1..], cidr);
    }
  }

  /** What is deployed stays a prefix, the rest is new and distinct, and the elements are the union. */
  lemma {:induction false} MergeShape(have: seq<string>, want: seq<string>)
    ensures Extends(Merge(have, want), have)
    ensures forall x :: x in Merge(have, want) <==> x in have || x in want
    ensures Distinct(have) ==> Distinct(Merge(have, want))
    decreases |want|
  {
    if want == [] {
    } else {
      var init, last := want[..|want| - 1], want[|want| - 1];
      assert want == init + [last];
      MergeSnoc(have, init, last);
      MergeShape(have, init);
      var m := Merge(have, init);
      if last !in m {
        assert (m + [last])[|have|..] == m[|have|..] + [last];
      }
    }
  }

  /** A list all of whose elements are there already adds nothing. */
  lemma {:induction false} MergeAbsorbs(have: seq<string>, want: seq<string>)
    requires forall x :: x in want ==> x in have
    ensures Merge(have, want) == have
  {
    if want == [] {
    } else {
      assert want[0] in want;
      MergeAbsorbs(have, want[1..]);
    }
  }

  lemma MergeIdempotent(have: seq<string>, want: seq<string>)
    ensures Merge(Merge(have, want), want) == Merge(have, want)
  {
    MergeShape(have, want);
    MergeAbsorbs(Merge(have, want), want);
  }

  /** Distinct new prefixes are appended as they stand. */
  lemma {:induction false} MergeAppends(have: seq<string>, rest: seq<string>)
    requires Distinct(rest) && Apart(rest, have)
    ensures Merge(have, rest) == have + rest
    decreases |rest|
  {
    if rest == [] {
      assert have + rest == have;
    } else {
      assert rest[0] in rest;
      var have' := have + [rest[0]];
      forall x | x in rest[1..]
        ensures x !in have'
      {
      }
      MergeAppends(have', rest[1..]);
      assert have' + rest[1..] == have + rest;
    }
  }

  lemma {:induction false} MergeSplits(have: seq<string>, xs: seq<string>, ys: seq<string>)
    ensures Merge(have, xs + ys) == Merge(Merge(have, xs), ys)
    decreases |ys|
  {
    if ys == [] {
      assert xs + ys == xs;
    } else {
      var init, last := ys[..|ys| - 1], ys[|ys| - 1];
      assert ys == init + [last] && xs + ys == (xs + init) + [last];
      MergeSplits(have, xs, init);
      MergeSnoc(have, xs + init, last);
      MergeSnoc(Merge(have, xs), init, last);
    }
  }

  /** The merge produces exactly the desired list iff that list extends what is deployed. */
  lemma MergeIsWantedIff(have: seq<string>, want: seq<string>)
    ensures Merge(have, want) == want <==> Extends(want, have)
  {
    MergeShape(have, want);
    if Extends(want, have) {
      var rest := want[|have|..];
      assert want == have + rest;
      MergeSplits(have, have, rest);
      MergeAbsorbs(have, have);
      MergeAppends(have, rest);
    }
  }

  // ---------------------------------------------------------------- the spec, in place

  /** Every level down to the prefix list present, nothing else changed. */
  function WithPrefixes(n: Network, prefixes: seq<string>): Network {
    var p := if n.properties.Some? then n.properties.value else PropertiesFormat(None, []);
    n.(properties := Some(p.(addressSpace := Some(AddressSpaceFormat(Some(prefixes))))))
  }

  function Subnets(n: Network): seq<(string, string)> {
    if n.properties.Some? then n.properties.value.subnets else []
  }

  class Spec {
    var internal: Network

    constructor ()
      ensures internal == Network(None, None, None)
    {
      internal := Network(None, None, None);
    }

    constructor WithRemote(remote: Network)
      ensures internal == remote
    {
      internal := remote;
    }

    method Name(name: string)
      modifies this
      ensures internal == old(internal).(name := Some(name))
    {
      internal := internal.(name := Some(name));
    }

    method Location(location: string)
      modifies this
      ensures internal == old(internal).(location := Some(location))
    {
      internal := internal.(location := Some(location));
    }

    method SetPrefixes(prefixes: seq<string>)
      requires internal.properties.Some? && internal.properties.value.addressSpace.Some?
      modifies this
      ensures internal == WithPrefixes(old(internal), prefixes)
    {
      var properties := internal.properties.value;
      internal := internal.(properties := Some(properties.(addressSpace := Some(AddressSpaceFormat(Some(prefixes))))));
    }

    /** The three detectors in order, each remedied before the next one looks inside. */
    method InitializePrefixes()
      modifies this
      ensures internal == WithPrefixes(old(internal), Prefixes(old(internal)))
      ensures Addresses(internal) == Some(Prefixes(old(internal))) && Subnets(internal) == Subnets(old(internal))
      ensures internal.name == old(internal).name && internal.location == old(internal).location
      ensures Addresses(old(internal)).Some? ==> internal == old(internal)
    {
      if internal.properties.None? {
        internal := internal.(properties := Some(PropertiesFormat(None, [])));
      }
      if internal.properties.value.addressSpace.None? {
        var properties := internal.properties.value;
        internal := internal.(properties := Some(properties.(addressSpace := Some(AddressSpaceFormat(None)))));
      }
      if internal.properties.value.addressSpace.value.prefixes.None? {
        SetPrefixes([]);
      }
    }

    method AppendIfMissing(cidr: string)
      requires Addresses(internal).Some?
      modifies this
      ensures internal == WithPrefixes(old(internal), Insert(Prefixes(old(internal)), cidr))
    {
      var prefixes := internal.properties.value.addressSpace.value.prefixes.value;
      var found := false;
      var j := 0;
      while j < |prefixes|
        invariant 0 <= j <= |prefixes|
        invariant found <==> cidr in prefixes[..j]
      {
        if prefixes[j] == cidr {
          found := true;
        }
        j := j + 1;
      }
      if !found {
        SetPrefixes(prefixes + [cidr]);
      }
    }

    method AddressSpaces(cidrs: Slice)
      modifies this
      ensures internal == WithPrefixes(old(internal), Merge(Prefixes(old(internal)), Elements(cidrs)))
      ensures Addresses(internal) == Some(Merge(Prefixes(old(internal)), Elements(cidrs)))
      ensures Subnets(internal) == Subnets(old(internal))
      ensures internal.name == old(internal).name && internal.location == old(internal).location
    {
      var n := internal;
      InitializePrefixes();
      var want := Elements(cidrs);
      var i := 0;
      while i < |want|
        invariant 0 <= i <= |want|
        invariant internal == WithPrefixes(n, Merge(Prefixes(n), want[..i]))
      {
        assert want[..i + 1] == want[..i] + [want[i]];
        MergeSnoc(Prefixes(n), want[..i], want[i]);
        AppendIfMissing(want[i]);
        i := i + 1;
      }
      assert want[..i] == want;
    }

    method AddressSpace(cidr: string)
      modifies this
      ensures internal == WithPrefixes(old(internal), Insert(Prefixes(old(internal)), cidr))
      ensures var have := Prefixes(old(internal));
              Addresses(internal) == Some(if cidr in have then have else have + [cidr])
      ensures Subnets(internal) == Subnets(old(internal))
      ensures internal.name == old(internal).name && internal.location == old(internal).location
    {
      InitializePrefixes();
      AppendIfMissing(cidr);
    }
  }

  /** Calling AddressSpace once for each prefix. */
  function OneByOne(n: Network, cidrs: seq<string>): Network
    decreases |cidrs|
  {
    if cidrs == [] then n else OneByOne(WithPrefixes(n, Insert(Prefixes(n), cidrs[0])), cidrs[1..])
  }

  /**
   AddressSpaces does what its one-by-one form does, except for an empty list, where only the
   list form fills in missing levels.
   */
  lemma {:induction false} OneByOneIsMergeIff(n: Network, cidrs: seq<string>)
    ensures OneByOne(n, cidrs) == WithPrefixes(n, Merge(Prefixes(n), cidrs)) <==> cidrs != [] || Addresses(n).Some?
    decreases |cidrs|
  {
    if cidrs == [] {
    } else {
      var n' := WithPrefixes(n, Insert(Prefixes(n), cidrs[0]));
      OneByOneIsMergeIff(n', cidrs[1..]);
      assert Prefixes(n') == Insert(Prefixes(n), cidrs[0]);
    }
  }

  // ---------------------------------------------------------------- the payload and the fixpoint

  function Overlay(prior: Option<Network>, local: NetworkSpec): Network {
    var base := if prior.Some? then prior.value else Network(None, None, None);
    var named := base.(name := Some(local.name), location := Some(local.location));
    WithPrefixes(named, Merge(Prefixes(base), Elements(local.addresses)))
  }

  method BuildPayload(prior: Option<Network>, local: NetworkSpec) returns (payload: Network)
    ensures payload == Overlay(prior, local)
    ensures payload.name == Some(local.name) && payload.location == Some(local.location)
    ensures Subnets(payload) == if prior.Some? then Subnets(prior.value) else []
    ensures Addresses(payload) ==
              Some(Merge(if prior.Some? then Prefixes(prior.value) else [],
                         if local.addresses.Items? then local.addresses.items else []))
  {
    var spec: Spec;
    if prior.Some? {
      spec := new Spec.WithRemote(prior.value);
    } else {
      spec := new Spec();
    }
    spec.Name(local.name);
    spec.Location(local.location);
    spec.AddressSpaces(local.addresses);
    payload := spec.internal;
  }

  ghost predicate Reachable(local: NetworkSpec, have: seq<string>) {
    local.addresses.Items? && Extends(local.addresses.items, have)
  }

  /**
   The fixpoint theorem: after an accepted write the network is done iff the desired list is
   not nil and extends the deployed one; done or not, every later round would send the same payload.
   */
  lemma DoneAfterWriteIff(prior: Option<Network>, local: NetworkSpec)
    ensures var have := if prior.Some? then Prefixes(prior.value) else [];
            !NeedsUpdate(Overlay(prior, local), local) <==> Reachable(local, have)
    ensures Overlay(Some(Overlay(prior, local)), local) == Overlay(prior, local)
  {
    var have := if prior.Some? then Prefixes(prior.value) else [];
    MergeIsWantedIff(have, Elements(local.addresses));
    MergeIdempotent(have, Elements(local.addresses));
  }

  /** A network that is done already could be reached from where it is. */
  lemma DoneMeansReachable(n: Network, local: NetworkSpec)
    requires !NeedsUpdate(n, local)
    ensures Reachable(local, Prefixes(n)) && Overlay(Some(n), local) == n
  {
    var want := local.addresses.items;
    assert want[|want|..] == [];
    MergeAbsorbs(want, want);
  }

  function NetworkClient(): Client<NetworkSpec, Network> {
    Client(false, true, true, (n, l) => NeedsUpdate(n, l), (p, l) => Overlay(p, l))
  }

  /** The prefixes that the next write starts from; a network on its way out leaves none. */
  function StartsFrom(r: Remote<Network>): seq<string> {
    if Stable(r) then Prefixes(r.body) else []
  }

  ghost predicate DeploysDistinct(r: Remote<Network>) {
    r.Present? ==> Distinct(Prefixes(r.body))
  }

  lemma StepKeepsDistinct(w: World<NetworkSpec, Network>, a: Action<NetworkSpec>)
    requires Enabled(NetworkClient(), w, a)
    requires DeploysDistinct(w.remote)
    requires w.pc.Putting? ==> Body(w.remote) == w.pc.prior
    ensures DeploysDistinct(Step(NetworkClient(), w, a).remote)
  {
    if a.Put? {
      MergeShape(if w.pc.prior.Some? then Prefixes(w.pc.prior.value) else [], Elements(w.pc.local.spec.addresses));
    }
  }

  /** No write ever repeats a prefix, so what is deployed has none twice. */
  lemma {:induction false} DeployedIsDistinct(
      tr: seq<World<NetworkSpec, Network>>, acts: seq<Action<NetworkSpec>>, i: nat)
    requires Run(NetworkClient(), tr, acts) && Initial(tr[0]) && i < |tr|
    ensures DeploysDistinct(tr[i].remote)
  {
    if i == 0 {
    } else {
      DeployedIsDistinct(tr, acts, i - 1);
      PutsOverDeployed(NetworkClient(), tr, acts, i - 1);
      var w, a := tr[i - 1], acts[i - 1];
      assert Taken(NetworkClient(), tr, acts, i - 1);
      StepKeepsDistinct(w, a);
    }
  }

  /** All that attempts for this one declaration can lead to; an unreachable one never escapes from there. */
  ghost function Trap(r: Remote<Network>, spec: NetworkSpec): iset<Network> {
    if Stable(r) then iset{r.body, Overlay(Some(r.body), spec)} else iset{Overlay(None, spec)}
  }

  lemma TrapIsHopeless(r: Remote<Network>, spec: NetworkSpec)
    requires !Reachable(spec, StartsFrom(r))
    ensures Hopeless(NetworkClient(), spec, Trap(r, spec))
  {
    var prior := if Stable(r) then Some(r.body) else None;
    DoneAfterWriteIff(prior, spec);
    if Stable(r) && !NeedsUpdate(r.body, spec) {
      DoneMeansReachable(r.body, spec);
    }
  }

  /** A reachable world is in the trap of its own resource. */
  lemma StartsInTrap(tr: seq<World<NetworkSpec, Network>>, acts: seq<Action<NetworkSpec>>, i: nat, spec: NetworkSpec)
    requires Run(NetworkClient(), tr, acts) && Initial(tr[0]) && i < |tr|
    ensures BodyIn(NetworkClient(), tr[i], spec, Trap(tr[i].remote, spec), !Stable(tr[i].remote))
  {
    RunIsWorking(NetworkClient(), tr, acts, i);
  }

  /**
   Livelock: if the declared list does not extend what the next write starts from, then for as
   long as nobody edits the declaration the network is never settled and the controller never
   rests, in any run and whatever fails; and no write ever leads to more than one payload. The
   object need not even carry the finalizer yet.
   */
  lemma NetworkLivelock(
      tr: seq<World<NetworkSpec, Network>>, acts: seq<Action<NetworkSpec>>, i: nat, k: nat, spec: NetworkSpec)
    requires Run(NetworkClient(), tr, acts) && Initial(tr[0]) && i <= k < |tr|
    requires Pinned(tr[i], spec) && !Reachable(spec, StartsFrom(tr[i].remote))
    requires forall j :: i <= j < k ==> !ByUser(acts[j])
    ensures !Settled(NetworkClient(), Store(tr[k]), tr[k].remote) && !Quiescent(tr[k])
    ensures var r, r' := tr[i].remote, tr[k].remote;
            if Stable(r) then Stable(r') && (r'.body == r.body || r'.body == Overlay(Some(r.body), spec))
            else r'.Present? && !Leaving(r') ==> r'.body == Overlay(None, spec)
  {
    var r := tr[i].remote;
    TrapIsHopeless(r, spec);
    StartsInTrap(tr, acts, i, spec);
    HopelessNeverSettles(NetworkClient(), tr, acts, i, k, spec, Trap(r, spec), !Stable(r));
  }

  /** The bodies that writes for one declaration can lead to. */
  ghost function Outcomes(r: Remote<Network>, spec: NetworkSpec): iset<Network> {
    iset{Overlay(None, spec)} + if !Stable(r) then iset{} else iset{r.body, Overlay(Some(r.body), spec)}
  }

  /** A list that extends distinct prefixes by distinct new ones has no duplicates. */
  lemma ReachableFromNothing(spec: NetworkSpec, have: seq<string>)
    requires Reachable(spec, have) && Distinct(have)
    ensures Reachable(spec, [])
  {
    MergeIsWantedIff(have, spec.addresses.items);
    MergeShape(have, spec.addresses.items);
    assert spec.addresses.items[0..] == spec.addresses.items;
  }

  lemma OutcomesRepair(r: Remote<Network>, spec: NetworkSpec)
    requires Reachable(spec, StartsFrom(r)) && Distinct(StartsFrom(r))
    ensures Repairs(NetworkClient(), spec, Outcomes(r, spec))
  {
    ReachableFromNothing(spec, StartsFrom(r));
    DoneAfterWriteIff(None, spec);
    if Stable(r) {
      DoneAfterWriteIff(Some(r.body), spec);
    }
  }

  /** The declared prefixes exactly, or nothing at all. */
  predicate NetworkAsDeclared(v: Option<Object<NetworkSpec>>, end: World<NetworkSpec, Network>) {
    if Declares(v) then
      end.remote.Present? && end.remote.phase.Succeeded? &&
      end.remote.body.name == Some(v.value.spec.name) && end.remote.body.location == Some(v.value.spec.location) &&
      Addresses(end.remote.body).Some? && v.value.spec.addresses == Items(Addresses(end.remote.body).value)
    else end.remote.Absent? && !Owned(Store(end))
  }

  lemma NetworkConverges(
      calm: Calm, tr: seq<World<NetworkSpec, Network>>, acts: seq<Action<NetworkSpec>>, spec: NetworkSpec)
    requires Run(NetworkClient(), tr, acts) && Initial(tr[0])
    requires var w := tr[|acts|];
             (Busy(w.remote) ==> w.remote.ticks <= calm.ticks) &&
             ActsFor(calm, w, spec) && !Parked(w) && Reachable(spec, StartsFrom(w.remote))
    ensures Converges(NetworkClient(), calm, tr[|acts|])
  {
    var c, w := NetworkClient(), tr[|acts|];
    RunIsSafe(c, tr, acts, |acts|);
    RunIsWorking(c, tr, acts, |acts|);
    RunIsSeen(c, tr, acts, |acts|);
    DeployedIsDistinct(tr, acts, |acts|);
    OutcomesRepair(w.remote, spec);
    ConvergentConverges(c, calm, w, Outcomes(w.remote, spec));
  }

  /**
   The exact condition, from the first pass over a new object to the last one over a deleted one
   and in the middle of a pass, provided that no pass for another declared list is under way or
   can still begin: a network converges iff its object declares nothing any more, or it is
   not parked and the declared list extends what the next write starts from.
   */
  lemma NetworkConvergesIff(calm: Calm, tr: seq<World<NetworkSpec, Network>>, acts: seq<Action<NetworkSpec>>)
    requires Run(NetworkClient(), tr, acts) && Initial(tr[0])
    requires var r := tr[|acts|].remote; Busy(r) ==> r.ticks <= calm.ticks
    requires var w := tr[|acts|]; Declares(Store(w)) ==> ActsFor(calm, w, Store(w).value.spec)
    ensures var w := tr[|acts|];
            Converges(NetworkClient(), calm, w) <==>
              (Declares(Store(w)) ==> !Parked(w) && Reachable(Store(w).value.spec, StartsFrom(w.remote)))
    ensures forall end :: RestsWell(NetworkClient(), tr[|acts|], end) ==> NetworkAsDeclared(Store(tr[|acts|]), end)
  {
    var c, w := NetworkClient(), tr[|acts|];
    if !Declares(Store(w)) {
      DeletionConverges(c, calm, tr, acts);
    } else if Parked(w) {
      ParkedNeverConverges(c, calm, tr, acts);
    } else {
      var spec := Store(w).value.spec;
      if Reachable(spec, StartsFrom(w.remote)) {
        NetworkConverges(calm, tr, acts, spec);
      } else {
        TrapIsHopeless(w.remote, spec);
        StartsInTrap(tr, acts, |acts|, spec);
        HopelessNeverConverges(c, calm, tr, acts, spec, Trap(w.remote, spec), !Stable(w.remote));
      }
    }
  }

  /** The run goes on without user actions. */
  ghost predicate Continues(
      tr: seq<World<NetworkSpec, Network>>, acts: seq<Action<NetworkSpec>>,
      tr': seq<World<NetworkSpec, Network>>, acts': seq<Action<NetworkSpec>>) {
    Run(NetworkClient(), tr', acts') && |tr| == |acts| + 1 && tr <= tr' && acts <= acts' &&
    forall j :: |acts| <= j < |acts'| ==> !ByUser(acts'[j])
  }

  /** An object that was just created with a duplicate in its list. */
  lemma CreatedWithDuplicate()
    returns (tr: seq<World<NetworkSpec, Network>>, acts: seq<Action<NetworkSpec>>, spec: NetworkSpec)
    ensures Run(NetworkClient(), tr, acts) && Initial(tr[0])
    ensures acts == [Create(spec, []), Deliver] && spec.addresses == Items(["a", "a"])
    ensures Pinned(tr[2], spec) && tr[2].remote.Absent? && !Reachable(spec, [])
  {
    var c := NetworkClient();
    spec := NetworkSpec("n", "l", "g", "s", Items(["a", "a"]));
    tr, acts := [World<NetworkSpec, Network>.World(None, [], 0, Absent, false, Idle)], [];
    tr, acts := Extend(c, tr, acts, Create(spec, []));
    tr, acts := Extend(c, tr, acts, Deliver);
    assert spec.addresses.items[0..] == ["a", "a"];
    assert ["a", "a"][0] == ["a", "a"][1];
  }

  /** A declared list with a duplicate, from the moment it is created. */
  lemma DuplicateNeverSettles(calm: Calm)
    returns (tr: seq<World<NetworkSpec, Network>>, acts: seq<Action<NetworkSpec>>, spec: NetworkSpec)
    ensures Run(NetworkClient(), tr, acts) && Initial(tr[0])
    ensures acts == [Create(spec, []), Deliver] && spec.addresses == Items(["a", "a"])
    ensures !Converges(NetworkClient(), calm, tr[|acts|])
    ensures forall tr', acts' :: Continues(tr, acts, tr', acts') ==>
              var w := tr'[|acts'|]; !Settled(NetworkClient(), Store(w), w.remote) && !Quiescent(w)
  {
    var c := NetworkClient();
    tr, acts, spec := CreatedWithDuplicate();
    NetworkConvergesIff(calm, tr, acts);
    forall tr', acts' | Continues(tr, acts, tr', acts')
      ensures var w := tr'[|acts'|]; !Settled(c, Store(w), w.remote) && !Quiescent(w)
    {
      NetworkLivelock(tr', acts', |acts|, |acts'|, spec);
    }
  }
}
