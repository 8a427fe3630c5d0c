/** pkg/clients/nics: the payload of a network interface. */
module Nics {
  import opened Wrappers

  // ---------------------------------------------------------------- decimal names

  function Digit(d: nat): char
    requires d < 10
  {
    '0' + d as char
  }

  /** strconv.Itoa on indices. */
  function Itoa(n: nat): (s: string)
    ensures s != []
  {
    if n < 10 then [Digit(n)] else Itoa(n / 10) + [Digit(n % 10)]
  }

  /** Reading the digits back. */
  function Value(s: string): int {
    if s == [] then 0 else 10 * Value(s[..|s| - 1]) + (s[|s| - 1] as int - '0' as int)
  }

  lemma {:induction false} ItoaRoundTrip(n: nat)
    ensures Value(Itoa(n)) == n
  {
    if n < 10 {
      assert [Digit(n)][..0] == [];
      assert Value([Digit(n)]) == n;
    } else {
      var init := Itoa(n / 10);
      ItoaRoundTrip(n / 10);
      assert Itoa(n)[..|init|] == init;
    }
  }

  function ConfigName(i: nat): string {
    "ipConfig" + Itoa(i)
  }

  lemma ConfigNamesDiffer(i: nat, j: nat)
    requires i != j
    ensures ConfigName(i) != ConfigName(j)
  {
    ItoaRoundTrip(i);
    ItoaRoundTrip(j);
    assert ConfigName(i)[8..] == Itoa(i) && ConfigName(j)[8..] == Itoa(j);
  }

  // ---------------------------------------------------------------- the payload

  datatype Pool = Pool(subscription: string, resourceGroup: string, loadBalancer: string, name: string)
  datatype Wanted = Wanted(publicIP: Option<string>, privateIP: Option<string>, pools: Option<seq<Pool>>)
  datatype NicSpec = NicSpec(
    location: string, subscription: string, resourceGroup: string,
    network: string, subnet: string, configurations: Option<seq<Wanted>>)

  datatype Allocation = Dynamic | Static
  datatype Config = Config(
    name: string, primary: Option<bool>, subnet: string, allocation: Allocation,
    privateIP: Option<string>, publicIP: Option<string>, pools: Option<seq<string>>)

  /** Names joined by slashes. */
  function Joined(names: seq<string>): string
    requires names != []
  {
    if |names| == 1 then names[0] else names[0] + "/" + Joined(names[1..])
  }

  function GroupPath(s: NicSpec): string {
    Joined(["", "subscriptions", s.subscription, "resourceGroups", s.resourceGroup])
  }

  function SubnetPath(s: NicSpec): string {
    GroupPath(s) + "/" + Joined(["providers", "Microsoft.Network", "virtualnetworks", s.network, "subnets", s.subnet])
  }

  function PublicIPPath(base: string, name: string): string {
    base + "/" + Joined(["providers", "Microsoft.Network", "publicIPAddresses", name])
  }

  function PoolPath(p: Pool): string {
    Joined(["", "subscriptions", p.subscription, "resourceGroups", p.resourceGroup, "providers",
            "Microsoft.LoadBalancers", p.loadBalancer, "backendAddressPools", p.name])
  }

  // ---------------------------------------------------------------- reading the paths back

  /** The parts between slashes. */
  function Segments(path: string): (r: seq<string>)
    ensures r != []
  {
    if path == [] then [""]
    else
      var r := Segments(path[1..]);
      if path[0] == '/' then [""] + r else [[path[0]] + r[0]] + r[1..]
  }

  lemma {:induction false} SegmentsOfPlain(a: string)
    requires '/' !in a
    ensures Segments(a) == [a]
  {
    if a == [] {
    } else {
      SegmentsOfPlain(a[1..]);
      assert a == [a[0]] + a[1..];
    }
  }

  lemma {:induction false} SegmentsOfJoined(a: string, rest: string)
    requires '/' !in a
    ensures Segments(a + "/" + rest) == [a] + Segments(rest)
  {
    var path := a + "/" + rest;
    if a == [] {
      assert path[0] == '/' && path[1..] == rest;
    } else {
      SegmentsOfJoined(a[1..], rest);
      assert path[0] == a[0] && path[1..] == a[1..] + "/" + rest;
      assert a == [a[0]] + a[1..];
    }
  }

  /** Plain names come back in their order. */
  lemma {:induction false} JoinedReadsBack(names: seq<string>)
    requires names != [] && forall n :: n in names ==> '/' !in n
    ensures Segments(Joined(names)) == names
  {
    assert names[0] in names;
    if |names| == 1 {
      SegmentsOfPlain(names[0]);
    } else {
      assert forall n :: n in names[1..] ==> n in names;
      JoinedReadsBack(names[1..]);
      SegmentsOfJoined(names[0], Joined(names[1..]));
      assert names == [names[0]] + names[1..];
    }
  }

  predicate Plain(s: string) {
    '/' !in s
  }

  lemma {:induction false} JoinedConcat(xs: seq<string>, ys: seq<string>)
    requires xs != [] && ys != []
    ensures Joined(xs + ys) == Joined(xs) + "/" + Joined(ys)
  {
    if |xs| == 1 {
      assert (xs + ys)[1..] == ys;
    } else {
      assert (xs + ys)[1..] == xs[1..] + ys;
      JoinedConcat(xs[1..], ys);
    }
  }

  /** A pool's path names, in this order, its subscription, group, load balancer and pool. */
  lemma PoolPathReadsBack(p: Pool)
    requires Plain(p.subscription) && Plain(p.resourceGroup) && Plain(p.loadBalancer) && Plain(p.name)
    ensures Segments(PoolPath(p)) ==
              ["", "subscriptions", p.subscription, "resourceGroups", p.resourceGroup, "providers",
               "Microsoft.LoadBalancers", p.loadBalancer, "backendAddressPools", p.name]
  {
    JoinedReadsBack(["", "subscriptions", p.subscription, "resourceGroups", p.resourceGroup, "providers",
                     "Microsoft.LoadBalancers", p.loadBalancer, "backendAddressPools", p.name]);
  }

  /** Different pools have different paths. */
  lemma PoolPathsDiffer(p: Pool, q: Pool)
    requires Plain(p.subscription) && Plain(p.resourceGroup) && Plain(p.loadBalancer) && Plain(p.name)
    requires Plain(q.subscription) && Plain(q.resourceGroup) && Plain(q.loadBalancer) && Plain(q.name)
    requires PoolPath(p) == PoolPath(q)
    ensures p == q
  {
    PoolPathReadsBack(p);
    PoolPathReadsBack(q);
    var s, t := Segments(PoolPath(p)), Segments(PoolPath(q));
    assert s[2] == t[2] && s[4] == t[4] && s[7] == t[7] && s[9] == t[9];
  }

  /** A subnet's path names, in this order, the subscription, group, network and subnet of the interface. */
  lemma SubnetPathReadsBack(s: NicSpec)
    requires Plain(s.subscription) && Plain(s.resourceGroup) && Plain(s.network) && Plain(s.subnet)
    ensures Segments(SubnetPath(s)) ==
              ["", "subscriptions", s.subscription, "resourceGroups", s.resourceGroup] +
              ["providers", "Microsoft.Network", "virtualnetworks", s.network, "subnets", s.subnet]
  {
    var group := ["", "subscriptions", s.subscription, "resourceGroups", s.resourceGroup];
    var subnet := ["providers", "Microsoft.Network", "virtualnetworks", s.network, "subnets", s.subnet];
    JoinedConcat(group, subnet);
    JoinedReadsBack(group + subnet);
  }

  /** A public address is one of the interface's own subscription and group. */
  lemma PublicIPPathReadsBack(s: NicSpec, name: string)
    requires Plain(s.subscription) && Plain(s.resourceGroup) && Plain(name)
    ensures Segments(PublicIPPath(GroupPath(s), name)) ==
              ["", "subscriptions", s.subscription, "resourceGroups", s.resourceGroup] +
              ["providers", "Microsoft.Network", "publicIPAddresses", name]
  {
    var group := ["", "subscriptions", s.subscription, "resourceGroups", s.resourceGroup];
    var address := ["providers", "Microsoft.Network", "publicIPAddresses", name];
    JoinedConcat(group, address);
    JoinedReadsBack(group + address);
  }

  // ---------------------------------------------------------------- the configurations

  /** The configuration says what was wanted; the address is static exactly when one was given. */
  ghost predicate Carries(c: Config, w: Wanted, s: NicSpec) {
    c.subnet == SubnetPath(s) && c.privateIP == w.privateIP && (c.allocation.Static? <==> w.privateIP.Some?) &&
    (c.publicIP.Some? <==> w.publicIP.Some?) &&
    (w.publicIP.Some? ==> c.publicIP.value == PublicIPPath(GroupPath(s), w.publicIP.value)) &&
    (c.pools.Some? <==> w.pools.Some?) &&
    (w.pools.Some? ==>
       |c.pools.value| == |w.pools.value| &&
       forall i :: 0 <= i < |w.pools.value| ==> c.pools.value[i] == PoolPath(w.pools.value[i]))
  }

  method BuildIPConfig(name: string, s: NicSpec, w: Wanted) returns (c: Config)
    ensures c.name == name && c.primary == None && Carries(c, w, s)
    ensures c.subnet == SubnetPath(s) && c.privateIP == w.privateIP
    ensures c.allocation == if w.privateIP.Some? then Static else Dynamic
    ensures c.publicIP == if w.publicIP.Some? then Some(PublicIPPath(GroupPath(s), w.publicIP.value)) else None
    ensures c.pools.Some? <==> w.pools.Some?
    ensures w.pools.Some? ==>
              |c.pools.value| == |w.pools.value| &&
              forall i :: 0 <= i < |w.pools.value| ==> c.pools.value[i] == PoolPath(w.pools.value[i])
  {
    c := Config(name, None, SubnetPath(s), Dynamic, None, None, None);
    if w.publicIP.Some? {
      c := c.(publicIP := Some(PublicIPPath(GroupPath(s), w.publicIP.value)));
    }
    if w.privateIP.Some? {
      c := c.(allocation := Static, privateIP := w.privateIP);
    }
    if w.pools.Some? {
      var pools: seq<string> := [];
      for i := 0 to |w.pools.value|
        invariant |pools| == i && forall k :: 0 <= k < i ==> pools[k] == PoolPath(w.pools.value[k])
      {
        pools := pools + [PoolPath(w.pools.value[i])];
      }
      c := c.(pools := Some(pools));
    }
  }

  datatype Payload = Refused | Sent(location: string, configurations: Option<seq<Config>>)

  /**
   The loop over the declared configurations. An empty list is refused; without a list the
   default configuration is built and then not sent. Otherwise the names are pairwise
   distinct and exactly the first configuration is primary.
   */
  method Build(s: NicSpec) returns (p: Payload)
    ensures p.Refused? <==> s.configurations == Some([])
    ensures p.Sent? ==> p.location == s.location && (p.configurations.None? <==> s.configurations.None?)
    ensures p.Sent? && p.configurations.Some? ==>
              var configs := p.configurations.value;
              |configs| == |s.configurations.value| &&
              (forall i :: 0 <= i < |configs| ==> Carries(configs[i], s.configurations.value[i], s)) &&
              (forall i :: 0 <= i < |configs| ==> (configs[i].primary == Some(true) <==> i == 0)) &&
              (forall i :: 0 <= i < |configs| ==> configs[i].name == "ipConfig" + Itoa(i)) &&
              forall i, j :: 0 <= i < j < |configs| ==> configs[i].name != configs[j].name
  {
    if s.configurations.None? {
      return Sent(s.location, None);
    }
    var wanted := s.configurations.value;
    if |wanted| < 1 {
      return Refused;
    }
    var configs: seq<Config> := [];
    for i := 0 to |wanted|
      invariant |configs| == i
      invariant forall k :: 0 <= k < i ==>
                  configs[k].name == ConfigName(k) && configs[k].primary == None && Carries(configs[k], wanted[k], s)
    {
      var c := BuildIPConfig(ConfigName(i), s, wanted[i]);
      configs := configs + [c];
    }
    configs := configs[0 := configs[0].(primary := Some(true))];
    forall i, j | 0 <= i < j < |configs|
      ensures configs[i].name != configs[j].name
    {
      ConfigNamesDiffer(i, j);
    }
    return Sent(s.location, Some(configs));
  }
}
