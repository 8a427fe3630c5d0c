/**
 pkg/clients/rediskeys and pkg/clients/servicebuskey: several declarations overlay the keys of
 different Azure resources onto one shared Kubernetes secret.
 */
module SecretSync {
  import opened Wrappers

  type Data = map<string, string>

  /** One requested key: the name it is to have in the secret, and the value Azure listed for it. */
  datatype Slot = Slot(name: Option<string>, value: Option<string>)

  /** The slots of one declaration; Redis skips the whole sync when no name is requested. */
  datatype Sync = Sync(slots: seq<Slot>, skipsEmpty: bool)

  // ---------------------------------------------------------------- one sync on values

  predicate Missing(slots: seq<Slot>) {
    exists i :: 0 <= i < |slots| && slots[i].name.Some? && slots[i].value.None?
  }

  predicate Requested(slots: seq<Slot>) {
    exists i :: 0 <= i < |slots| && slots[i].name.Some?
  }

  /** The named values, a later slot winning over an earlier one of the same name. */
  function Overlay(slots: seq<Slot>): Data {
    if slots == [] then map[]
    else
      var init, last := slots[..|slots| - 1], slots[|slots| - 1];
      if last.name.Some? && last.value.Some? then Overlay(init)[last.name.value := last.value.value] else Overlay(init)
  }

  predicate Writes(s: Sync) {
    !Missing(s.slots) && (s.skipsEmpty ==> Requested(s.slots))
  }

  function Base(secret: Option<Data>): Data {
    if secret.Some? then secret.value else map[]
  }

  function Apply(secret: Option<Data>, s: Sync): Option<Data> {
    if Writes(s) then Some(Base(secret) + Overlay(s.slots)) else secret
  }

  lemma {:induction false} OverlayKeys(slots: seq<Slot>)
    requires !Missing(slots)
    ensures forall k :: k in Overlay(slots) <==> exists i :: 0 <= i < |slots| && slots[i].name == Some(k)
  {
    if slots == [] {
    } else {
      var init, last := slots[..|slots| - 1], slots[|slots| - 1];
      assert forall i :: 0 <= i < |init| ==> slots[i] == init[i];
      assert !Missing(init);
      OverlayKeys(init);
      forall k
        ensures k in Overlay(slots) <==> exists i :: 0 <= i < |slots| && slots[i].name == Some(k)
      {
        if k in Overlay(init) {
          var i :| 0 <= i < |init| && init[i].name == Some(k);
          assert slots[i].name == Some(k);
        }
      }
    }
  }

  /** No later slot asks for the same name. */
  predicate IsLastNamed(slots: seq<Slot>, i: nat)
    requires i < |slots|
  {
    slots[i].name.Some? && forall j :: i < j < |slots| ==> slots[j].name != slots[i].name
  }

  /** A name that is asked for more than once gets the value of the last slot. */
  lemma {:induction false} OverlayValue(slots: seq<Slot>, i: nat)
    requires !Missing(slots) && i < |slots| && IsLastNamed(slots, i)
    ensures slots[i].name.value in Overlay(slots) && Overlay(slots)[slots[i].name.value] == slots[i].value.value
  {
    var init, last := slots[..|slots| - 1], slots[|slots| - 1];
    assert !Missing(init) by {
      assert forall k :: 0 <= k < |init| ==> init[k] == slots[k];
    }
    if i < |init| {
      assert init[i] == slots[i];
      OverlayValue(init, i);
    }
  }

  /**
   A sync that writes stores exactly its requested keys, each with the value listed for the last
   slot of that name, and leaves every other key alone; one with a missing value writes nothing;
   doing it twice is doing it once.
   */
  lemma SyncTouchesOnlyItsNames(secret: Option<Data>, s: Sync)
    ensures Missing(s.slots) ==> Apply(secret, s) == secret
    ensures Writes(s) ==>
              Apply(secret, s).Some? &&
              (forall i :: 0 <= i < |s.slots| && s.slots[i].name.Some? ==>
                 s.slots[i].name.value in Apply(secret, s).value &&
                 (IsLastNamed(s.slots, i) ==>
                    Apply(secret, s).value[s.slots[i].name.value] == s.slots[i].value.value)) &&
              forall k :: (forall i :: 0 <= i < |s.slots| ==> s.slots[i].name != Some(k)) ==>
                (k in Apply(secret, s).value <==> secret.Some? && k in secret.value) &&
                (secret.Some? && k in secret.value ==> Apply(secret, s).value[k] == secret.value[k])
    ensures Apply(Apply(secret, s), s) == Apply(secret, s)
  {
    if Writes(s) {
      OverlayKeys(s.slots);
      forall i | 0 <= i < |s.slots| && IsLastNamed(s.slots, i)
        ensures s.slots[i].name.value in Overlay(s.slots)
        ensures Overlay(s.slots)[s.slots[i].name.value] == s.slots[i].value.value
      {
        OverlayValue(s.slots, i);
      }
      assert Base(secret) + Overlay(s.slots) + Overlay(s.slots) == Base(secret) + Overlay(s.slots);
    }
  }

  // ---------------------------------------------------------------- the clients

  /** The secret as the mutate closure sees it. */
  class TargetSecret {
    var data: Option<Data>

    constructor (d: Option<Data>)
      ensures data == d
    {
      data := d;
    }

    /** One `if name != nil { if value != nil { Data[name] = value } else { append an error } }`. */
    method Set(slot: Slot) returns (err: bool)
      requires data.Some?
      modifies this
      ensures data.Some?
      ensures err <==> slot.name.Some? && slot.value.None?
      ensures data.value == if slot.name.Some? && slot.value.Some?
                            then old(data).value[slot.name.value := slot.value.value] else old(data).value
    {
      err := false;
      if slot.name.Some? {
        if slot.value.Some? {
          data := Some(data.value[slot.name.value := slot.value.value]);
        } else {
          err := true;
        }
      }
    }
  }

  /** The slots of a Redis declaration; without a listing no value is known. */
  function TwoKeys(
      primary: Option<string>, secondary: Option<string>,
      keys: Option<(Option<string>, Option<string>)>): (r: seq<Slot>)
    ensures |r| == 2
  {
    var listed := if keys.Some? then keys.value else (None, None);
    [Slot(primary, listed.0), Slot(secondary, listed.1)]
  }

  function SetOne(d: Data, slot: Slot): Data {
    if slot.name.Some? && slot.value.Some? then d[slot.name.value := slot.value.value] else d
  }

  /** Setting the slots one after the other over `d` is merging their overlay into it. */
  lemma OverlaySnoc(slots: seq<Slot>, last: Slot, d: Data)
    ensures d + Overlay(slots + [last]) == SetOne(d + Overlay(slots), last)
  {
    assert (slots + [last])[..|slots|] == slots;
  }

  lemma TwoSlots(slots: seq<Slot>, d: Data)
    requires |slots| == 2
    ensures d + Overlay(slots) == SetOne(SetOne(d, slots[0]), slots[1])
  {
    assert slots == [] + [slots[0]] + [slots[1]];
    OverlaySnoc([], slots[0], d);
    OverlaySnoc([] + [slots[0]], slots[1], d);
    assert d + Overlay([]) == d;
  }

  type Four = (Option<string>, Option<string>, Option<string>, Option<string>)

  function FourSlots(n: Four, v: Four): (r: seq<Slot>)
    ensures |r| == 4
  {
    [Slot(n.0, v.0), Slot(n.1, v.1), Slot(n.2, v.2), Slot(n.3, v.3)]
  }

  lemma OverlayFour(slots: seq<Slot>, d: Data)
    requires |slots| == 4
    ensures d + Overlay(slots) == SetOne(SetOne(SetOne(SetOne(d, slots[0]), slots[1]), slots[2]), slots[3])
  {
    var two := slots[..2];
    TwoSlots(two, d);
    OverlaySnoc(two, slots[2], d);
    OverlaySnoc(two + [slots[2]], slots[3], d);
    assert slots == two + [slots[2]] + [slots[3]];
  }

  /** The secret holds that value under that name. */
  predicate Holds(secret: Option<Data>, name: string, value: Option<string>) {
    secret.Some? && name in secret.value && value == Some(secret.value[name])
  }

  /** The key is in both with the same value, or in neither. */
  predicate SameAt(before: Option<Data>, after: Option<Data>, k: string) {
    ((before.Some? && k in before.value) <==> (after.Some? && k in after.value)) &&
    (before.Some? && k in before.value ==> after.Some? && k in after.value && before.value[k] == after.value[k])
  }

  lemma SlotStored(before: Option<Data>, s: Sync, i: nat)
    requires Writes(s) && i < |s.slots| && IsLastNamed(s.slots, i)
    ensures Holds(Apply(before, s), s.slots[i].name.value, s.slots[i].value)
  {
    SyncTouchesOnlyItsNames(before, s);
  }

  lemma OtherKept(before: Option<Data>, s: Sync, k: string)
    requires forall i :: 0 <= i < |s.slots| ==> s.slots[i].name != Some(k)
    ensures SameAt(before, Apply(before, s), k)
  {
    SyncTouchesOnlyItsNames(before, s);
  }

  /** Name by name, what a sync of two keys stores; of equal names the last one wins. */
  lemma TwoStored(
      primary: Option<string>, secondary: Option<string>, v: (Option<string>, Option<string>), before: Option<Data>)
    ensures var s := Sync(TwoKeys(primary, secondary, Some(v)), true);
            (primary.Some? || secondary.Some?) && (primary.Some? ==> v.0.Some?) && (secondary.Some? ==> v.1.Some?)
            <==> Writes(s)
    ensures var s := Sync(TwoKeys(primary, secondary, Some(v)), true);
            Writes(s) ==>
              (secondary.Some? ==> Holds(Apply(before, s), secondary.value, v.1)) &&
              (primary.Some? && primary != secondary ==> Holds(Apply(before, s), primary.value, v.0)) &&
              forall k :: Some(k) != primary && Some(k) != secondary ==> SameAt(before, Apply(before, s), k)
  {
    var s := Sync(TwoKeys(primary, secondary, Some(v)), true);
    assert s.slots[0] == Slot(primary, v.0) && s.slots[1] == Slot(secondary, v.1);
    if Writes(s) {
      if secondary.Some? {
        SlotStored(before, s, 1);
      }
      if primary.Some? && primary != secondary {
        SlotStored(before, s, 0);
      }
      forall k | Some(k) != primary && Some(k) != secondary
        ensures SameAt(before, Apply(before, s), k)
      {
        OtherKept(before, s, k);
      }
    }
  }

  /** Name by name, what a sync of four keys stores; of equal names the last one wins. */
  lemma FourStored(n: Four, v: Four, before: Option<Data>)
    ensures var s := Sync(FourSlots(n, v), false);
            (Writes(s) <==> (n.0.Some? ==> v.0.Some?) && (n.1.Some? ==> v.1.Some?) &&
                            (n.2.Some? ==> v.2.Some?) && (n.3.Some? ==> v.3.Some?))
    ensures var s := Sync(FourSlots(n, v), false);
            Writes(s) ==>
              var after := Apply(before, s);
              (n.3.Some? ==> Holds(after, n.3.value, v.3)) &&
              (n.2.Some? && n.2 != n.3 ==> Holds(after, n.2.value, v.2)) &&
              (n.1.Some? && n.1 !in [n.2, n.3] ==> Holds(after, n.1.value, v.1)) &&
              (n.0.Some? && n.0 !in [n.1, n.2, n.3] ==> Holds(after, n.0.value, v.0)) &&
              forall k :: Some(k) !in [n.0, n.1, n.2, n.3] ==> SameAt(before, after, k)
  {
    var s := Sync(FourSlots(n, v), false);
    assert s.slots[0] == Slot(n.0, v.0) && s.slots[1] == Slot(n.1, v.1);
    assert s.slots[2] == Slot(n.2, v.2) && s.slots[3] == Slot(n.3, v.3);
    if Writes(s) {
      forall i | 0 <= i < 4 && IsLastNamed(s.slots, i)
        ensures Holds(Apply(before, s), s.slots[i].name.value, s.slots[i].value)
      {
        SlotStored(before, s, i);
      }
      assert n.3.Some? ==> IsLastNamed(s.slots, 3);
      assert n.2.Some? && n.2 != n.3 ==> IsLastNamed(s.slots, 2);
      assert n.1.Some? && n.1 !in [n.2, n.3] ==> IsLastNamed(s.slots, 1);
      assert n.0.Some? && n.0 !in [n.1, n.2, n.3] ==> IsLastNamed(s.slots, 0);
      forall k | Some(k) !in [n.0, n.1, n.2, n.3]
        ensures SameAt(before, Apply(before, s), k)
      {
        OtherKept(before, s, k);
      }
    }
  }

  class SecretStore {
    var secret: Option<Data>

    constructor ()
      ensures secret == None
    {
      secret := None;
    }

    /** Get, mutate, and write unless the mutation failed or the write is refused. */
    method CommitUnless(failed: bool, target: TargetSecret, refused: bool) returns (err: bool)
      requires target.data.Some?
      modifies this
      ensures secret == if failed || refused then old(secret) else target.data
      ensures err <==> failed || refused
    {
      if failed {
        return true;
      }
      if refused {
        return true;
      }
      secret := target.data;
      return false;
    }

    /** Ensure of the Redis key client; `keys` is None when listing them failed. */
    method EnsureRedisKeys(
        primary: Option<string>, secondary: Option<string>,
        keys: Option<(Option<string>, Option<string>)>, refused: bool)
      returns (err: bool)
      modifies this
      ensures var s := Sync(TwoKeys(primary, secondary, keys), true);
              secret == (if keys.None? || refused then old(secret) else Apply(old(secret), s)) &&
              (!err <==> !Requested(s.slots) || (keys.Some? && !refused && Writes(s)))
      ensures !err <==> (primary.None? && secondary.None?) ||
                        (keys.Some? && !refused && (primary.Some? ==> keys.value.0.Some?) &&
                         (secondary.Some? ==> keys.value.1.Some?))
      ensures err || (primary.None? && secondary.None?) ==> secret == old(secret)
      ensures !err && secondary.Some? ==> Holds(secret, secondary.value, keys.value.1)
      ensures !err && primary.Some? && primary != secondary ==> Holds(secret, primary.value, keys.value.0)
      ensures forall k :: Some(k) != primary && Some(k) != secondary ==> SameAt(old(secret), secret, k)
    {
      ghost var slots := TwoKeys(primary, secondary, keys);
      assert slots[0].name == primary && slots[1].name == secondary;
      if primary.None? && secondary.None? {
        return false;
      }
      assert Requested(slots);
      if keys.None? {
        return true;
      }
      var target := new TargetSecret(secret);
      if target.data.None? {
        target.data := Some(map[]);
      }
      var err0 := target.Set(Slot(primary, keys.value.0));
      var err1 := target.Set(Slot(secondary, keys.value.1));
      TwoSlots(slots, Base(secret));
      TwoStored(primary, secondary, keys.value, secret);
      err := CommitUnless(err0 || err1, target, refused);
    }

    /** Ensure of the Service Bus key client, with its four optional keys. */
    method EnsureServiceBusKeys(
        names: Four, keys: Option<Four>, refused: bool)
      returns (err: bool)
      modifies this
      ensures keys.None? ==> err && secret == old(secret)
      ensures keys.Some? ==>
                var s := Sync(FourSlots(names, keys.value), false);
                secret == (if refused then old(secret) else Apply(old(secret), s)) && (!err <==> !refused && Writes(s))
      ensures !err ==> keys.Some? && !refused && secret.Some?
      ensures err ==> secret == old(secret)
      ensures keys.Some? && !refused ==>
                (err <==> (names.0.Some? && keys.value.0.None?) || (names.1.Some? && keys.value.1.None?) ||
                          (names.2.Some? && keys.value.2.None?) || (names.3.Some? && keys.value.3.None?))
      ensures !err && names.3.Some? ==> Holds(secret, names.3.value, keys.value.3)
      ensures !err && names.2.Some? && names.2 != names.3 ==> Holds(secret, names.2.value, keys.value.2)
      ensures !err && names.1.Some? && names.1 !in [names.2, names.3] ==> Holds(secret, names.1.value, keys.value.1)
      ensures !err && names.0.Some? && names.0 !in [names.1, names.2, names.3] ==>
                Holds(secret, names.0.value, keys.value.0)
      ensures forall k :: Some(k) !in [names.0, names.1, names.2, names.3] ==> SameAt(old(secret), secret, k)
    {
      if keys.None? {
        return true;
      }
      var target := new TargetSecret(secret);
      if target.data.None? {
        target.data := Some(map[]);
      }
      var err0 := target.Set(Slot(names.0, keys.value.0));
      var err1 := target.Set(Slot(names.1, keys.value.1));
      var err2 := target.Set(Slot(names.2, keys.value.2));
      var err3 := target.Set(Slot(names.3, keys.value.3));
      ghost var slots := FourSlots(names, keys.value);
      OverlayFour(slots, Base(secret));
      FourStored(names, keys.value, secret);
      err := CommitUnless(err0 || err1 || err2 || err3, target, refused);
    }
  }

  // ---------------------------------------------------------------- many syncs on one secret

  function ApplyAll(secret: Option<Data>, ss: seq<Sync>): Option<Data> {
    if ss == [] then secret else Apply(ApplyAll(secret, ss[..|ss| - 1]), ss[|ss| - 1])
  }

  /** Where two syncs write the same key they write the same value. */
  ghost predicate Agree(a: Sync, b: Sync) {
    forall k :: k in Overlay(a.slots) && k in Overlay(b.slots) ==> Overlay(a.slots)[k] == Overlay(b.slots)[k]
  }

  ghost predicate AllAgree(ss: seq<Sync>) {
    forall a, b :: a in ss && b in ss && Writes(a) && Writes(b) ==> Agree(a, b)
  }

  lemma {:induction false} ApplyAllSome(secret: Option<Data>, ss: seq<Sync>)
    ensures ApplyAll(secret, ss).Some? <==> secret.Some? || exists s :: s in ss && Writes(s)
  {
    if ss == [] {
    } else {
      var init, last := ss[..|ss| - 1], ss[|ss| - 1];
      assert ss == init + [last];
      ApplyAllSome(secret, init);
    }
  }

  /** What is written stays written. */
  lemma {:induction false} ApplyAllWritten(secret: Option<Data>, ss: seq<Sync>, s: Sync, k: string)
    requires AllAgree(ss) && s in ss && Writes(s) && k in Overlay(s.slots)
    ensures k in Base(ApplyAll(secret, ss)) && Base(ApplyAll(secret, ss))[k] == Overlay(s.slots)[k]
  {
    var init, last := ss[..|ss| - 1], ss[|ss| - 1];
    assert ss == init + [last];
    if Writes(last) && k in Overlay(last.slots) {
      assert Agree(s, last);
    } else {
      assert s in init;
      ApplyAllWritten(secret, init, s, k);
    }
  }

  lemma {:induction false} ApplyAllUntouched(secret: Option<Data>, ss: seq<Sync>, k: string)
    requires forall s :: s in ss && Writes(s) ==> k !in Overlay(s.slots)
    ensures k in Base(ApplyAll(secret, ss)) <==> k in Base(secret)
    ensures k in Base(secret) ==> Base(ApplyAll(secret, ss))[k] == Base(secret)[k]
  {
    if ss == [] {
    } else {
      var init, last := ss[..|ss| - 1], ss[|ss| - 1];
      assert ss == init + [last];
      ApplyAllUntouched(secret, init, k);
    }
  }

  /**
   Order independence: any two lists with the same syncs, in whatever order and however often
   repeated, leave the same secret behind, as long as the syncs agree where they overlap.
   */
  lemma OrderIndependent(secret: Option<Data>, ss: seq<Sync>, tt: seq<Sync>)
    requires AllAgree(ss)
    requires forall s :: s in ss <==> s in tt
    ensures ApplyAll(secret, ss) == ApplyAll(secret, tt)
  {
    ApplyAllSome(secret, ss);
    ApplyAllSome(secret, tt);
    var d, e := Base(ApplyAll(secret, ss)), Base(ApplyAll(secret, tt));
    forall k
      ensures k in d <==> k in e
      ensures k in d && k in e ==> d[k] == e[k]
    {
      if s :| s in ss && Writes(s) && k in Overlay(s.slots) {
        ApplyAllWritten(secret, ss, s, k);
        ApplyAllWritten(secret, tt, s, k);
      } else {
        ApplyAllUntouched(secret, ss, k);
        ApplyAllUntouched(secret, tt, k);
      }
    }
    assert d == e;
  }

  ghost predicate DisjointNames(ss: seq<Sync>) {
    forall i, j, k :: 0 <= i < j < |ss| && k in Overlay(ss[i].slots) ==> k !in Overlay(ss[j].slots)
  }

  /** In particular every permutation of syncs with pairwise disjoint key names. */
  lemma DisjointSyncsPermute(secret: Option<Data>, ss: seq<Sync>, tt: seq<Sync>)
    requires DisjointNames(ss) && multiset(ss) == multiset(tt)
    ensures ApplyAll(secret, ss) == ApplyAll(secret, tt)
  {
    forall a, b | a in ss && b in ss
      ensures Agree(a, b)
    {
      var i :| 0 <= i < |ss| && ss[i] == a;
      var j :| 0 <= j < |ss| && ss[j] == b;
      if i != j {
        assert forall k :: k in Overlay(a.slots) ==> k !in Overlay(b.slots);
      }
    }
    forall s
      ensures s in ss <==> s in tt
    {
      assert s in ss <==> s in multiset(ss);
      assert s in tt <==> s in multiset(tt);
    }
    OrderIndependent(secret, ss, tt);
  }

  /** Two syncs commute on every secret exactly when one of them does not write or they agree. */
  lemma CommuteIff(a: Sync, b: Sync)
    ensures (forall secret :: Apply(Apply(secret, a), b) == Apply(Apply(secret, b), a))
            <==> !Writes(a) || !Writes(b) || Agree(a, b)
  {
    if Writes(a) && Writes(b) {
      var oa, ob := Overlay(a.slots), Overlay(b.slots);
      if Agree(a, b) {
        forall secret
          ensures Apply(Apply(secret, a), b) == Apply(Apply(secret, b), a)
        {
          assert Base(secret) + oa + ob == Base(secret) + ob + oa;
        }
      } else {
        var k :| k in oa && k in ob && oa[k] != ob[k];
        assert (map[] + oa + ob)[k] != (map[] + ob + oa)[k];
        assert Apply(Apply(None, a), b) != Apply(Apply(None, b), a);
      }
    }
  }
}
