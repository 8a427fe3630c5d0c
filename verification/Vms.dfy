/** The zone choice of pkg/clients/vms Ensure, over any sequence of Ensures. */
module Vms {
  import opened Wrappers
  import opened Zones

  datatype VmSpec = VmSpec(
    name: string, sku: string, location: string, zone: Option<string>,
    primaryNic: string, secondaryNics: Option<seq<string>>)

  datatype State = Succeeded | Pending

  /** A machine as Azure echoes it; `zones` is the list with at most one zone in use. */
  datatype Machine = Machine(
    name: Option<string>, hostname: Option<string>, sku: Option<string>, location: Option<string>,
    zones: Option<seq<string>>, nics: seq<Nic>, state: State)

  /** A network interface of a machine. */
  datatype Nic = Nic(id: string, primary: bool)

  function ZoneOf(m: Machine): Option<string> {
    if m.zones.Some? && m.zones.value != [] then Some(m.zones.value[0]) else None
  }

  predicate NeedsUpdate(m: Machine, local: VmSpec) {
    m.name != Some(local.name) || m.sku != Some(local.sku)
  }

  /** What GET answers; 404 and 409 both count as not found. */
  datatype Lookup = Broken | Absent | Conflict

  /** The SKU listing and the restrictions the zone client sees, and what its random pick yields. */
  datatype World = World(skus: seq<Sku>, broken: Option<nat>, pick: nat)

  datatype Result = Result(done: bool, err: bool, payload: Option<Machine>)

  /** The zone is one that the listing offers unrestricted at the location, for that SKU. */
  ghost predicate Offered(w: World, local: VmSpec, zone: string) {
    exists k, zones :: 0 <= k < |w.skus| && Counts(w.skus[k], local.sku, local.location) && !Barred(w.skus[k]) &&
      IsChoice(w.skus[k], local.location, zones) && zone in zones
  }

  function FreshMachine(): Machine {
    Machine(None, None, None, None, Some([]), [], Pending)
  }

  /** A zone of the listing's choice, or what was there if the choice is empty. */
  ghost predicate ChosenFromListing(w: World, local: VmSpec, base: Machine, payload: Machine) {
    exists last, zones :: Answers(w.skus, |w.skus|, local.sku, local.location, last, zones) &&
      if zones == [] then payload.zones == base.zones
      else payload.zones.Some? && |payload.zones.value| == 1 && payload.zones.value[0] in zones
  }

  /** The rules for the zone of a payload built over `base`. */
  ghost predicate ZoneRule(w: World, local: VmSpec, base: Machine, payload: Machine) {
    if local.zone.Some? then payload.zones == Some([local.zone.value])
    else if ZoneOf(base).Some? then payload.zones == base.zones
    else ChosenFromListing(w, local, base, payload)
  }

  /** The listing rejects the SKU or breaks off. */
  ghost predicate ListingFails(w: World, local: VmSpec) {
    Rejects(w.skus, Yielded(w.skus, w.broken), local.sku, local.location) ||
    (w.broken.Some? && w.broken.value <= |w.skus|)
  }

  function Secondaries(local: VmSpec): seq<string> {
    if local.secondaryNics.Some? then local.secondaryNics.value else []
  }

  /** The primary interface, then the last of the secondary ones, once for each that was declared. */
  function Attached(local: VmSpec): (nics: seq<Nic>)
    ensures |nics| == 1 + |Secondaries(local)|
  {
    var more := Secondaries(local);
    [Nic(local.primaryNic, true)] + seq(|more|, i requires 0 <= i < |more| => Nic(more[|more| - 1], false))
  }

  /** What was declared: each interface once. */
  function Declared(local: VmSpec): (nics: seq<Nic>)
    ensures |nics| == 1 + |Secondaries(local)|
  {
    var more := Secondaries(local);
    [Nic(local.primaryNic, true)] + seq(|more|, i requires 0 <= i < |more| => Nic(more[i], false))
  }

  /** The machine gets the declared interfaces iff all secondary ones are the same, as with at most one. */
  lemma AttachedIsDeclaredIff(local: VmSpec)
    ensures var more := Secondaries(local);
            Attached(local) == Declared(local) <==> forall i :: 0 <= i < |more| ==> more[i] == more[|more| - 1]
    ensures |Secondaries(local)| <= 1 ==> Attached(local) == Declared(local)
  {
    var more := Secondaries(local);
    if Attached(local) == Declared(local) {
      forall i | 0 <= i < |more|
        ensures more[i] == more[|more| - 1]
      {
        assert Attached(local)[i + 1] == Declared(local)[i + 1];
      }
    }
  }

  /** An interface reference in the heap. */
  datatype Reference = Reference(id: StringCell, primary: bool)

  /** NICs: the references of the secondary interfaces share the loop variable. */
  method References(local: VmSpec) returns (refs: seq<Reference>)
    ensures |refs| == |Attached(local)| == 1 + |Secondaries(local)|
    ensures refs[0].id.text == local.primaryNic && refs[0].primary
    ensures forall i :: 1 <= i < |refs| ==>
              refs[i].id.text == Secondaries(local)[|Secondaries(local)| - 1] && !refs[i].primary
    ensures forall i :: 0 <= i < |refs| ==> Nic(refs[i].id.text, refs[i].primary) == Attached(local)[i]
  {
    var primary := new StringCell(local.primaryNic);
    refs := [Reference(primary, true)];
    if local.secondaryNics.Some? && local.secondaryNics.value != [] {
      var more := local.secondaryNics.value;
      var nic := new StringCell(more[0]);
      for i := 0 to |more|
        invariant |refs| == i + 1 && refs[0] == Reference(primary, true) && primary.text == local.primaryNic
        invariant nic != primary && fresh(nic)
        invariant forall k :: 1 <= k <= i ==> refs[k] == Reference(nic, false)
        invariant i > 0 ==> nic.text == more[i - 1]
      {
        nic.text := more[i];
        refs := refs + [Reference(nic, false)];
      }
    }
  }

  /** What is sent: the pointers are followed when the payload is encoded. */
  method Nics(local: VmSpec) returns (nics: seq<Nic>)
    ensures nics == Attached(local)
  {
    var refs := References(local);
    nics := [];
    for i := 0 to |refs|
      invariant |nics| == i && forall k :: 0 <= k < i ==> nics[k] == Attached(local)[k]
    {
      nics := nics + [Nic(refs[i].id.text, refs[i].primary)];
    }
  }

  /** Everything a payload owes to the spec besides its zone. */
  predicate Overlaid(local: VmSpec, base: Machine, payload: Machine) {
    payload.name == Some(local.name) && payload.sku == Some(local.sku) && payload.location == Some(local.location) &&
    payload.hostname == Some(local.name) && payload.nics == Attached(local) && payload.state == base.state
  }

  class VmClient {

    constructor () {}

    /**
     Ensure, up to the payload that is sent. `found` is the machine, or why there is none. It is done
     with a machine that succeeded under the declared name and SKU, waits for one that has not
     succeeded, and errs if the lookup broke, or if a zone had to be looked up and the listing failed.
     */
    method Ensure(found: Option<Machine>, why: Lookup, local: VmSpec, w: World) returns (r: Result)
      ensures var base := if found.Some? then found.value else FreshMachine();
              var waits := found.Some? && !found.value.state.Succeeded?;
              var upToDate := found.Some? && base.name == Some(local.name) && base.sku == Some(local.sku);
              var looksUp := local.zone.None? && ZoneOf(base).None?;
              (r.done <==> !waits && upToDate) &&
              (r.err <==> if found.None? && why.Broken? then true
                          else !waits && !upToDate && looksUp && ListingFails(w, local)) &&
              (r.payload.Some? <==> !r.done && !r.err && !waits)
      ensures r.payload.Some? ==>
                var base, p := if found.Some? then found.value else FreshMachine(), r.payload.value;
                Overlaid(local, base, p) && ZoneRule(w, local, base, p) &&
                p.name == Some(local.name) && p.hostname == Some(local.name) && p.sku == Some(local.sku) &&
                p.location == Some(local.location) && p.state == base.state &&
                (found.None? && local.zone.None? ==> p.zones.Some? && |p.zones.value| <= 1)
    {
      if found.None? && why.Broken? {
        return Result(false, true, None);
      }
      var spec := FreshMachine();
      if found.Some? {
        spec := found.value;
        if spec.state.Succeeded? {
          if !NeedsUpdate(spec, local) {
            return Result(true, false, None);
          }
        } else {
          return Result(false, false, None);
        }
      }
      var base := spec;
      var zone: Option<string> := None;
      if local.zone.Some? {
        zone := local.zone;
      } else if ZoneOf(spec).None? {
        var answer, last := Zones.Get(w.skus, w.broken, local.sku, local.location);
        if !answer.Choices? {
          return Result(false, true, None);
        }
        if |answer.zones| > 0 {
          zone := Some(answer.zones[w.pick % |answer.zones|]);
        }
        assert Answers(w.skus, |w.skus|, local.sku, local.location, last, answer.zones);
      }
      var nics := Nics(local);
      spec := spec.(name := Some(local.name), location := Some(local.location), hostname := Some(local.name),
                    sku := Some(local.sku), nics := nics);
      if zone.Some? {
        spec := spec.(zones := Some([zone.value]));
      }
      return Result(false, false, Some(spec));
    }
  }

  // ---------------------------------------------------------------- many Ensures

  /** One Ensure that finds the machine: what was declared and offered then, what was sent, what Azure shows next. */
  datatype Round = Round(local: VmSpec, world: World, before: Machine, payload: Option<Machine>, after: Machine)

  /** A round as Ensure and Azure allow it: nothing sent, or a payload by the rules, accepted or not. */
  ghost predicate Allowed(r: Round) {
    match r.payload
    case None => r.after.zones == r.before.zones
    case Some(p) =>
      Overlaid(r.local, r.before, p) && ZoneRule(r.world, r.local, r.before, p) &&
      (r.after.zones == r.before.zones || r.after.zones == p.zones)
  }

  ghost predicate Rounds(rs: seq<Round>) {
    (forall i :: 0 <= i < |rs| ==> Allowed(rs[i])) &&
    forall i :: 0 <= i < |rs| - 1 ==> rs[i].after.zones == rs[i + 1].before.zones
  }

  /** The bridge: what Ensure sends for a machine it found is a round, whether or not Azure takes it. */
  method Play(client: VmClient, before: Machine, local: VmSpec, w: World, accepted: bool) returns (round: Round)
    ensures Allowed(round) && round.before == before && round.local == local && round.world == w
    ensures round.payload.Some? && accepted ==> round.after == round.payload.value
    ensures round.payload.None? || !accepted ==> round.after == before
  {
    var r := client.Ensure(Some(before), Absent, local, w);
    round := Round(local, w, before, r.payload, if r.payload.Some? && accepted then r.payload.value else before);
  }

  /** While no declaration names a zone, an assigned zone is never changed. */
  lemma {:induction false} AssignedZoneStays(rs: seq<Round>, n: nat)
    requires Rounds(rs) && n < |rs|
    requires forall i :: 0 <= i < |rs| ==> rs[i].local.zone.None?
    requires ZoneOf(rs[0].before).Some?
    ensures rs[n].after.zones == rs[0].before.zones
    ensures forall p :: rs[n].payload == Some(p) ==> p.zones == rs[0].before.zones
  {
    if n == 0 {
    } else {
      AssignedZoneStays(rs, n - 1);
    }
  }

  /** What is chosen from the listing is offered. */
  lemma ChosenIsOffered(w: World, local: VmSpec, base: Machine, payload: Machine)
    requires ChosenFromListing(w, local, base, payload)
    ensures payload.zones == base.zones || (payload.zones.Some? && payload.zones != Some([]) &&
              Offered(w, local, payload.zones.value[0]))
  {
    var last, zones :| Answers(w.skus, |w.skus|, local.sku, local.location, last, zones) &&
      if zones == [] then payload.zones == base.zones
      else payload.zones.Some? && |payload.zones.value| == 1 && payload.zones.value[0] in zones;
    if zones != [] {
      assert last >= 0 && Counts(w.skus[last], local.sku, local.location) && !Barred(w.skus[last]);
    }
  }

  /** Without a declared zone one round keeps an assigned zone, or assigns an offered one. */
  lemma ZoneStep(r: Round)
    requires Allowed(r) && r.local.zone.None?
    ensures ZoneOf(r.before).Some? ==> r.after.zones == r.before.zones
    ensures ZoneOf(r.before).None? && ZoneOf(r.after).Some? ==> Offered(r.world, r.local, ZoneOf(r.after).value)
  {
    if ZoneOf(r.before).None? && r.payload.Some? {
      ChosenIsOffered(r.world, r.local, r.before, r.payload.value);
    }
  }

  /** A machine without a zone gets one from the first accepted payload iff the listing's choice is not empty. */
  lemma ZoneAssignedIff(r: Round, last: int, zones: seq<string>)
    requires Allowed(r) && r.local.zone.None? && ZoneOf(r.before).None?
    requires r.payload.Some? && r.after.zones == r.payload.value.zones
    requires Answers(r.world.skus, |r.world.skus|, r.local.sku, r.local.location, last, zones)
    ensures ZoneOf(r.after).Some? <==> zones != []
    ensures zones != [] ==> ZoneOf(r.after).value in zones
  {
    var p := r.payload.value;
    var last', zones' :| Answers(r.world.skus, |r.world.skus|, r.local.sku, r.local.location, last', zones') &&
      if zones' == [] then p.zones == r.before.zones
      else p.zones.Some? && |p.zones.value| == 1 && p.zones.value[0] in zones';
    AnswersAreUnique(r.world.skus, |r.world.skus|, r.local.sku, r.local.location, last, zones, last', zones');
  }

  /** A zone that appears without being declared was offered and unrestricted in the round that chose it. */
  lemma {:induction false} ChosenZoneWasOffered(rs: seq<Round>, n: nat) returns (k: nat)
    requires Rounds(rs) && n < |rs|
    requires forall i :: 0 <= i < |rs| ==> rs[i].local.zone.None?
    requires ZoneOf(rs[0].before).None? && ZoneOf(rs[n].after).Some?
    ensures k <= n && Offered(rs[k].world, rs[k].local, ZoneOf(rs[n].after).value)
    ensures ZoneOf(rs[k].before).None? && forall i :: k <= i <= n ==> ZoneOf(rs[i].after) == ZoneOf(rs[n].after)
  {
    ZoneStep(rs[n]);
    if ZoneOf(rs[n].before).None? {
      k := n;
    } else {
      assert n > 0 && rs[n - 1].after.zones == rs[n].before.zones;
      k := ChosenZoneWasOffered(rs, n - 1);
    }
  }
}
