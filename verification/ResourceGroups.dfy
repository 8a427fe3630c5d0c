/** pkg/clients/resourcegroups: the simplest asynchronous client, and what the protocol gives it. */
module ResourceGroups {
  import opened Wrappers
  import opened Protocol
  import opened Safety
  import opened Progress
  import opened Convergence
  import opened Livelock

  datatype GroupSpec = GroupSpec(name: string, location: string, subscription: string)

  /** A resource group as Azure echoes it; the tags stand for the fields the client never sets. */
  datatype Group = Group(name: Option<string>, location: Option<string>, tags: map<string, string>)

  predicate NeedsUpdate(g: Group, local: GroupSpec) {
    g.name != Some(local.name) || g.location != Some(local.location)
  }

  /** The payload of CreateOrUpdate: name and location over what was found. */
  function Overlay(prior: Option<Group>, local: GroupSpec): Group {
    var base := if prior.Some? then prior.value else Group(None, None, map[]);
    base.(name := Some(local.name), location := Some(local.location))
  }

  class Spec {
    var internal: Group

    constructor ()
      ensures internal == Group(None, None, map[])
    {
      internal := Group(None, None, map[]);
    }

    constructor WithRemote(remote: Group)
      ensures internal == remote
    {
      internal := remote;
    }

    method Name(name: string)
      modifies this
      ensures internal == old(internal).(name := Some(name))
    {
      internal := internal.(name := Some(name));
    }

    method Location(location: string)
      modifies this
      ensures internal == old(internal).(location := Some(location))
    {
      internal := internal.(location := Some(location));
    }
  }

  /** The part of Ensure that builds the payload. */
  method BuildPayload(prior: Option<Group>, local: GroupSpec) returns (payload: Group)
    ensures payload == Overlay(prior, local)
    ensures payload.name == Some(local.name) && payload.location == Some(local.location)
    ensures payload.tags == if prior.Some? then prior.value.tags else map[]
    ensures !NeedsUpdate(payload, local)
    ensures prior.Some? && !NeedsUpdate(prior.value, local) ==> payload == prior.value
  {
    var spec: Spec;
    if prior.Some? {
      spec := new Spec.WithRemote(prior.value);
    } else {
      spec := new Spec();
    }
    spec.Name(local.name);
    spec.Location(local.location);
    payload := spec.internal;
  }

  function GroupClient(): Client<GroupSpec, Group> {
    Client(false, true, true, (g, l) => NeedsUpdate(g, l), (p, l) => Overlay(p, l))
  }

  lemma GroupsAlwaysRepair()
    ensures AlwaysRepairs(GroupClient())
  {
  }

  /**
   The resource-group controller at rest, after any run: the object is gone, or released, or
   its resource group exists, has been provisioned, and carries the declared name and location.
   */
  lemma GroupAtRest(tr: seq<World<GroupSpec, Group>>, acts: seq<Action<GroupSpec>>)
    requires Run(GroupClient(), tr, acts) && Initial(tr[0]) && Quiescent(tr[|acts|])
    ensures var w := tr[|acts|];
            var v := Store(w);
            v.None? || (v.value.deleting && !Owned(v)) ||
            (Live(v) && w.remote.Present? && w.remote.phase.Succeeded? &&
             w.remote.body.name == Some(v.value.spec.name) && w.remote.body.location == Some(v.value.spec.location))
  {
    NoLostWork(GroupClient(), tr, acts);
  }

  /** What the object declared is deployed, or everything is gone together with our finalizer. */
  predicate GroupAsDeclared(v: Option<Object<GroupSpec>>, end: World<GroupSpec, Group>) {
    if Declares(v) then
      end.remote.Present? && end.remote.phase.Succeeded? &&
      end.remote.body.name == Some(v.value.spec.name) && end.remote.body.location == Some(v.value.spec.location)
    else end.remote.Absent? && !Owned(Store(end))
  }

  /**
   From every reachable world, within the computed number of quiet steps the group carries what
   the object declared at that moment, or is gone together with our finalizer, iff the group of
   a declared object is not parked.
   */
  lemma GroupConvergesIff(calm: Calm, tr: seq<World<GroupSpec, Group>>, acts: seq<Action<GroupSpec>>)
    requires Run(GroupClient(), tr, acts) && Initial(tr[0])
    requires var r := tr[|acts|].remote; Busy(r) ==> r.ticks <= calm.ticks
    ensures Converges(GroupClient(), calm, tr[|acts|]) <==> !Parked(tr[|acts|])
    ensures forall end :: RestsWell(GroupClient(), tr[|acts|], end) ==> GroupAsDeclared(Store(tr[|acts|]), end)
  {
    ConvergesIff(GroupClient(), calm, tr, acts);
  }
}
