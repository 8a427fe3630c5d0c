/** pkg/clients/zones: which availability zones a SKU may be deployed to. */
module Zones {
  import opened Wrappers

  // ---------------------------------------------------------------- strings

  function LowerChar(c: char): char {
    if 'A' <= c <= 'Z' then c - 'A' + 'a' else c
  }

  function Lower(s: string): string {
    if s == [] then [] else [LowerChar(s[0])] + Lower(s[1..])
  }

  /** strings.EqualFold, on ASCII. */
  predicate EqualFold(a: string, b: string) {
    Lower(a) == Lower(b)
  }

  /** The same letter in either case. */
  predicate SameLetter(a: char, b: char) {
    a == b || ('A' <= a <= 'Z' && b as int == a as int + 32) || ('A' <= b <= 'Z' && a as int == b as int + 32)
  }

  /** Equal but for the case of ASCII letters, position by position. */
  lemma {:induction false} EqualFoldIff(a: string, b: string)
    ensures EqualFold(a, b) <==> |a| == |b| && forall i :: 0 <= i < |a| ==> SameLetter(a[i], b[i])
  {
    if a == [] || b == [] {
    } else {
      EqualFoldIff(a[1..], b[1..]);
      if EqualFold(a, b) {
        assert Lower(a)[0] == Lower(b)[0] && Lower(a)[1..] == Lower(b)[1..];
        forall i | 0 <= i < |a|
          ensures SameLetter(a[i], b[i])
        {
          assert i > 0 ==> a[i] == a[1..][i - 1] && b[i] == b[1..][i - 1];
        }
      }
      if |a| == |b| && forall i :: 0 <= i < |a| ==> SameLetter(a[i], b[i]) {
        assert forall i :: 0 <= i < |a| - 1 ==> a[1..][i] == a[i + 1] && b[1..][i] == b[i + 1];
      }
    }
  }

  /** The lexical order of sort.Strings. */
  predicate Less(a: string, b: string) {
    b != [] && (a == [] || a[0] < b[0] || (a[0] == b[0] && Less(a[1..], b[1..])))
  }

  lemma {:induction false} LessTransitive(a: string, b: string, c: string)
    requires Less(a, b) && Less(b, c)
    ensures Less(a, c)
  {
    if a != [] && a[0] == b[0] && b[0] == c[0] {
      LessTransitive(a[1..], b[1..], c[1..]);
    }
  }

  lemma {:induction false} LessTotal(a: string, b: string)
    ensures !Less(a, a)
    ensures Less(a, b) || Less(b, a) || a == b
    ensures !(Less(a, b) && Less(b, a))
  {
    if a != [] {
      LessTotal(a[1..], if b == [] then [] else b[1..]);
      if b != [] && a[0] == b[0] && a[1..] == b[1..] {
        assert a == [a[0]] + a[1..] == b;
      }
    }
  }

  /** At position `k` the first difference, or the end of `a`. */
  predicate PrecedesAt(a: string, b: string, k: nat) {
    k <= |a| && k < |b| && a[..k] == b[..k] && (k == |a| || a[k] < b[k])
  }

  /** The order is that of the first difference, a prefix coming first. */
  lemma {:induction false} LessIff(a: string, b: string)
    ensures Less(a, b) <==> exists k: nat :: PrecedesAt(a, b, k)
  {
    if a == [] || b == [] || a[0] != b[0] {
      if Less(a, b) {
        assert PrecedesAt(a, b, 0);
      }
      forall k: nat | 0 < k <= |a| && k <= |b|
        ensures a[..k] != b[..k]
      {
        assert a[..k][0] == a[0] && b[..k][0] == b[0];
      }
    } else {
      LessIff(a[1..], b[1..]);
      if k: nat :| PrecedesAt(a[1..], b[1..], k) {
        assert a[..k + 1] == [a[0]] + a[1..][..k] && b[..k + 1] == [b[0]] + b[1..][..k];
        assert PrecedesAt(a, b, k + 1);
      }
      if k: nat :| PrecedesAt(a, b, k) {
        assert k > 0;
        assert a[1..][..k - 1] == a[..k][1..] && b[1..][..k - 1] == b[..k][1..];
        assert PrecedesAt(a[1..], b[1..], k - 1);
      }
    }
  }

  ghost predicate StrictlySorted(xs: seq<string>) {
    forall i, j :: 0 <= i < j < |xs| ==> Less(xs[i], xs[j])
  }

  /** The strictly sorted, duplicate-free list of the members of `s`. */
  ghost predicate Lists(xs: seq<string>, s: set<string>) {
    StrictlySorted(xs) && forall x :: x in xs <==> x in s
  }

  lemma RestOfListing(xs: seq<string>, s: set<string>, x: string)
    requires Lists(xs, s) && xs != []
    ensures x in xs[1..] <==> x in s - {xs[0]}
  {
    LessTotal(xs[0], xs[0]);
    assert xs == [xs[0]] + xs[1..];
    if x in xs[1..] {
      var i :| 0 <= i < |xs[1..]| && xs[1..][i] == x;
      assert Less(xs[0], xs[i + 1]);
    }
  }

  /** There is only one such list. */
  lemma {:induction false} ListingIsUnique(xs: seq<string>, ys: seq<string>, s: set<string>)
    requires Lists(xs, s) && Lists(ys, s)
    ensures xs == ys
  {
    if ys != [] {
      assert ys[0] in s;
    }
    if xs != [] {
      assert xs[0] in s;
      var j :| 0 <= j < |ys| && ys[j] == xs[0];
      var i :| 0 <= i < |xs| && xs[i] == ys[0];
      LessTotal(xs[0], ys[0]);
      assert xs[0] == ys[0];
      forall x
        ensures x in xs[1..] <==> x in s - {xs[0]}
        ensures x in ys[1..] <==> x in s - {xs[0]}
      {
        RestOfListing(xs, s, x);
        RestOfListing(ys, s, x);
      }
      ListingIsUnique(xs[1..], ys[1..], s - {xs[0]});
      assert xs == [xs[0]] + xs[1..] && ys == [ys[0]] + ys[1..];
    }
  }

  lemma BelowTheRest(xs: seq<string>, i: nat, x: string, k: nat)
    requires StrictlySorted(xs) && i <= k < |xs| && Less(x, xs[i])
    ensures Less(x, xs[k])
  {
    if i < k {
      LessTransitive(x, xs[i], xs[k]);
    }
  }

  /** Inserts a new string where it belongs. */
  method Insert(xs: seq<string>, x: string) returns (ys: seq<string>)
    requires StrictlySorted(xs) && x !in xs
    ensures StrictlySorted(ys)
    ensures forall y :: y in ys <==> y in xs || y == x
  {
    var i := 0;
    while i < |xs| && Less(xs[i], x)
      invariant 0 <= i <= |xs|
      invariant forall k :: 0 <= k < i ==> Less(xs[k], x)
    {
      i := i + 1;
    }
    forall k | i <= k < |xs|
      ensures Less(x, xs[k])
    {
      LessTotal(xs[i], x);
      BelowTheRest(xs, i, x, k);
    }
    var before, after := xs[..i], xs[i..];
    assert xs == before + after;
    ys := before + [x] + after;
  }

  /** sort.Strings on a list without duplicates. */
  method Sort(xs: seq<string>) returns (ys: seq<string>)
    requires forall i, j :: 0 <= i < j < |xs| ==> xs[i] != xs[j]
    ensures StrictlySorted(ys)
    ensures forall y :: y in ys <==> y in xs
  {
    ys := [];
    for i := 0 to |xs|
      invariant StrictlySorted(ys)
      invariant forall y :: y in ys <==> y in xs[..i]
    {
      ys := Insert(ys, xs[i]);
      assert xs[..i + 1] == xs[..i] + [xs[i]];
    }
    assert xs[..|xs|] == xs;
  }

  // ---------------------------------------------------------------- the SKU listing

  datatype Restriction = Restriction(wholeLocation: bool, locations: seq<string>, zones: seq<string>)
  datatype LocationInfo = LocationInfo(location: string, zones: seq<string>)
  datatype Sku = Sku(name: string, locations: seq<LocationInfo>, restrictions: seq<Restriction>)

  /** The answer: zones, a rejected SKU, or a listing that broke off. */
  datatype Answer = Choices(zones: seq<string>) | RejectedSku | BrokenListing

  predicate Hit(sku: Sku, location: string, i: nat)
    requires i < |sku.locations|
  {
    EqualFold(sku.locations[i].location, location)
  }

  /** The SKU has an entry for the location. */
  ghost predicate Offers(sku: Sku, location: string) {
    exists i :: 0 <= i < |sku.locations| && Hit(sku, location, i)
  }

  ghost predicate Barred(sku: Sku) {
    exists r :: r in sku.restrictions && r.wholeLocation
  }

  ghost function Restricted(rs: seq<Restriction>): set<string> {
    set r, z | r in rs && z in r.zones :: z
  }

  /** The zones of the first `n` location entries. */
  ghost function ZonesUpTo(sku: Sku, n: nat): set<string>
    requires n <= |sku.locations|
  {
    set i, z | 0 <= i < n && z in sku.locations[i].zones :: z
  }

  /** What one pass over a SKU leaves: the zones up to its last entry for the location, minus the restricted ones. */
  ghost predicate IsChoice(sku: Sku, location: string, zones: seq<string>) {
    exists h :: 0 <= h < |sku.locations| && Hit(sku, location, h) &&
      (forall k :: h < k < |sku.locations| ==> !Hit(sku, location, k)) &&
      Lists(zones, ZonesUpTo(sku, h + 1) - Restricted(sku.restrictions))
  }

  predicate Relevant(sku: Sku, name: string) {
    EqualFold(sku.name, name)
  }

  method AddZones(available: set<string>, zones: seq<string>) returns (more: set<string>)
    ensures more == available + set z | z in zones
  {
    more := available;
    for i := 0 to |zones|
      invariant more == available + set z | z in zones[..i]
    {
      more := more + {zones[i]};
      assert zones[..i + 1] == zones[..i] + [zones[i]];
    }
    assert zones[..|zones|] == zones;
  }

  method RemoveZones(available: set<string>, zones: seq<string>) returns (fewer: set<string>)
    ensures fewer == available - set z | z in zones
  {
    fewer := available;
    for i := 0 to |zones|
      invariant fewer == available - set z | z in zones[..i]
    {
      fewer := fewer - {zones[i]};
      assert zones[..i + 1] == zones[..i] + [zones[i]];
    }
    assert zones[..|zones|] == zones;
  }

  /** Any restriction of the whole location rejects the SKU, whichever location it is about. */
  method Restrict(available: set<string>, restrictions: seq<Restriction>) returns (barred: bool, fewer: set<string>)
    ensures barred <==> exists r :: r in restrictions && r.wholeLocation
    ensures !barred ==> fewer == available - Restricted(restrictions)
  {
    fewer := available;
    var i := 0;
    while i < |restrictions|
      invariant 0 <= i <= |restrictions|
      invariant forall k :: 0 <= k < i ==> !restrictions[k].wholeLocation
      invariant fewer == available - Restricted(restrictions[..i])
    {
      if restrictions[i].wholeLocation {
        assert restrictions[i] in restrictions;
        return true, {};
      }
      fewer := RemoveZones(fewer, restrictions[i].zones);
      assert restrictions[..i + 1] == restrictions[..i] + [restrictions[i]];
      assert Restricted(restrictions[..i + 1]) == Restricted(restrictions[..i]) + set z | z in restrictions[i].zones;
      i := i + 1;
    }
    assert restrictions[..i] == restrictions;
    barred := false;
  }

  /** The set taken out in an arbitrary order, then sorted. */
  method Listing(available: set<string>) returns (zones: seq<string>)
    ensures Lists(zones, available)
  {
    var collected: seq<string> := [];
    var left := available;
    while left != {}
      invariant left <= available
      invariant forall z :: z in collected ==> z in available && z !in left
      invariant forall z :: z in available ==> z in left || z in collected
      invariant forall i, j :: 0 <= i < j < |collected| ==> collected[i] != collected[j]
      decreases |left|
    {
      var z :| z in left;
      collected := collected + [z];
      left := left - {z};
    }
    zones := Sort(collected);
  }

  /** The inner loops, for one matching SKU. */
  method ZonesOfSku(sku: Sku, location: string, before: seq<string>) returns (barred: bool, zones: seq<string>)
    ensures barred <==> Offers(sku, location) && Barred(sku)
    ensures !barred && Offers(sku, location) ==> IsChoice(sku, location, zones)
    ensures !Offers(sku, location) ==> zones == before
  {
    var available: set<string> := {};
    zones := before;
    ghost var last := -1;
    var i := 0;
    while i < |sku.locations|
      invariant 0 <= i <= |sku.locations| && -1 <= last < i
      invariant ZonesUpTo(sku, i) - Restricted(sku.restrictions) <= available <= ZonesUpTo(sku, i)
      invariant forall k :: last < k < i ==> !Hit(sku, location, k)
      invariant last == -1 ==> zones == before
      invariant last >= 0 ==> Hit(sku, location, last) && !Barred(sku) &&
                              Lists(zones, ZonesUpTo(sku, last + 1) - Restricted(sku.restrictions))
    {
      available := AddZones(available, sku.locations[i].zones);
      assert ZonesUpTo(sku, i + 1) == ZonesUpTo(sku, i) + set z | z in sku.locations[i].zones;
      if EqualFold(sku.locations[i].location, location) {
        assert Hit(sku, location, i);
        barred, available := Restrict(available, sku.restrictions);
        if barred {
          return true, [];
        }
        zones := Listing(available);
        last := i;
      }
      i := i + 1;
    }
    barred := false;
  }

  // ---------------------------------------------------------------- the whole listing

  /** The SKU is the requested one, offered at the location. */
  ghost predicate Counts(sku: Sku, name: string, location: string) {
    Relevant(sku, name) && Offers(sku, location)
  }

  /** What a visit that is not barred leaves behind. */
  ghost predicate Visited(sku: Sku, name: string, location: string, before: seq<string>, zones: seq<string>) {
    if Counts(sku, name, location) then !Barred(sku) && IsChoice(sku, location, zones) else zones == before
  }

  /** One entry of the listing. */
  method Visit(sku: Sku, name: string, location: string, before: seq<string>) returns (barred: bool, zones: seq<string>)
    ensures barred <==> Counts(sku, name, location) && Barred(sku)
    ensures !barred ==> Visited(sku, name, location, before, zones)
  {
    barred, zones := false, before;
    if EqualFold(sku.name, name) {
      barred, zones := ZonesOfSku(sku, location, before);
    }
  }

  /** `last` is the last of the first `n` entries that counts, none that counts is barred, and `zones` is its choice. */
  ghost predicate Answers(skus: seq<Sku>, n: nat, name: string, location: string, last: int, zones: seq<string>)
    requires n <= |skus|
  {
    -1 <= last < n &&
    (forall k :: 0 <= k < n && Counts(skus[k], name, location) ==> k <= last && !Barred(skus[k])) &&
    if last < 0 then zones == [] else Counts(skus[last], name, location) && IsChoice(skus[last], location, zones)
  }

  lemma AnswersNext(
      skus: seq<Sku>, n: nat, name: string, location: string, last: int, before: seq<string>, zones: seq<string>)
    returns (last': int)
    requires n < |skus| && Answers(skus, n, name, location, last, before)
    requires Visited(skus[n], name, location, before, zones)
    ensures Answers(skus, n + 1, name, location, last', zones)
  {
    last' := if Counts(skus[n], name, location) then n else last;
  }

  /** The entries that the listing yields before it ends or fails. */
  function Yielded(skus: seq<Sku>, broken: Option<nat>): (n: nat)
    ensures n <= |skus|
  {
    if broken.Some? && broken.value <= |skus| then broken.value else |skus|
  }

  /** One of the first `n` entries counts and is barred. */
  ghost predicate Rejects(skus: seq<Sku>, n: nat, name: string, location: string)
    requires n <= |skus|
  {
    exists k :: 0 <= k < n && Counts(skus[k], name, location) && Barred(skus[k])
  }

  lemma AnswersNotRejected(
      skus: seq<Sku>, n: nat, name: string, location: string, last: int, zones: seq<string>)
    requires n <= |skus| && Answers(skus, n, name, location, last, zones)
    ensures !Rejects(skus, n, name, location)
  {
  }

  /** Get. `broken` is the number of entries after which the listing fails, if it does. */
  method Get(skus: seq<Sku>, broken: Option<nat>, name: string, location: string)
    returns (answer: Answer, ghost last: int)
    ensures answer.RejectedSku? <==> Rejects(skus, Yielded(skus, broken), name, location)
    ensures answer.BrokenListing? <==> !answer.RejectedSku? && broken.Some? && broken.value <= |skus|
    ensures answer.Choices? ==>
              Answers(skus, |skus|, name, location, last, answer.zones) &&
              (forall k :: 0 <= k < |skus| && Counts(skus[k], name, location) ==> k <= last && !Barred(skus[k])) &&
              if last < 0 then answer.zones == []
              else last < |skus| && Counts(skus[last], name, location) && IsChoice(skus[last], location, answer.zones)
  {
    var zones: seq<string> := [];
    last := -1;
    var i := 0;
    while i < Yielded(skus, broken)
      invariant 0 <= i <= Yielded(skus, broken)
      invariant Answers(skus, i, name, location, last, zones)
    {
      var barred, now := Visit(skus[i], name, location, zones);
      if barred {
        assert Rejects(skus, Yielded(skus, broken), name, location);
        return RejectedSku, i;
      }
      last := AnswersNext(skus, i, name, location, last, zones, now);
      zones := now;
      i := i + 1;
    }
    AnswersNotRejected(skus, i, name, location, last, zones);
    if broken == Some(i) {
      return BrokenListing, last;
    }
    return Choices(zones), last;
  }

  /** With one entry per SKU for its one location, the choice is that location's unrestricted zones. */
  lemma SingleLocationChoice(sku: Sku, location: string, zones: seq<string>)
    requires |sku.locations| == 1 && IsChoice(sku, location, zones)
    ensures StrictlySorted(zones)
    ensures forall z :: z in zones <==> z in sku.locations[0].zones && z !in Restricted(sku.restrictions)
  {
  }

  /** The last entry for the location. */
  predicate LastHit(sku: Sku, location: string, h: nat)
    requires h < |sku.locations|
  {
    Hit(sku, location, h) && forall k :: h < k < |sku.locations| ==> !Hit(sku, location, k)
  }

  /** The restriction is about this location. */
  predicate Concerns(r: Restriction, location: string) {
    exists i :: 0 <= i < |r.locations| && EqualFold(r.locations[i], location)
  }

  ghost predicate RestrictedAt(sku: Sku, location: string, zone: string) {
    exists r :: r in sku.restrictions && Concerns(r, location) && zone in r.zones
  }

  /** Every zone of an entry before the last one for the location is one of its own, or restricted. */
  ghost predicate NothingCountedIn(sku: Sku, h: nat)
    requires h < |sku.locations|
  {
    forall i, z :: 0 <= i < h && z in sku.locations[i].zones ==>
      z in sku.locations[h].zones || z in Restricted(sku.restrictions)
  }

  /**
   The choice is the location's own unrestricted zones iff no zone is counted in from an
   earlier entry.
   */
  lemma ChoiceIsOwnIff(sku: Sku, location: string, h: nat, zones: seq<string>)
    requires h < |sku.locations| && LastHit(sku, location, h) && IsChoice(sku, location, zones)
    ensures (forall z :: z in zones <==> z in sku.locations[h].zones && z !in Restricted(sku.restrictions))
            <==> NothingCountedIn(sku, h)
  {
    var g :| 0 <= g < |sku.locations| && Hit(sku, location, g) &&
             (forall k :: g < k < |sku.locations| ==> !Hit(sku, location, k)) &&
             Lists(zones, ZonesUpTo(sku, g + 1) - Restricted(sku.restrictions));
    assert g == h;
    if forall z :: z in zones <==> z in sku.locations[h].zones && z !in Restricted(sku.restrictions) {
      forall i, z | 0 <= i < h && z in sku.locations[i].zones
        ensures z in sku.locations[h].zones || z in Restricted(sku.restrictions)
      {
        assert z in ZonesUpTo(sku, h + 1);
      }
    }
  }

  /** No zone of the entry is taken out for the sake of another location. */
  ghost predicate NothingTakenOut(sku: Sku, location: string, h: nat)
    requires h < |sku.locations|
  {
    forall z :: z in sku.locations[h].zones && z in Restricted(sku.restrictions) ==> RestrictedAt(sku, location, z)
  }

  /** It is what is offered and unrestricted at this location iff, besides, none is taken out for another one. */
  lemma ChoiceIsLocalIff(sku: Sku, location: string, h: nat, zones: seq<string>)
    requires h < |sku.locations| && LastHit(sku, location, h) && IsChoice(sku, location, zones)
    ensures (forall z :: z in zones <==> z in sku.locations[h].zones && !RestrictedAt(sku, location, z))
            <==> NothingCountedIn(sku, h) && NothingTakenOut(sku, location, h)
  {
    ChoiceIsOwnIff(sku, location, h, zones);
    assert forall z :: z in zones ==> z !in Restricted(sku.restrictions);
    assert forall z :: RestrictedAt(sku, location, z) ==> z in Restricted(sku.restrictions);
  }

  /** Both happen: a zone of another region is offered, and an own one is taken out, for another region. */
  lemma TwoRegions() returns (counted: Sku, taken: Sku)
    ensures |counted.locations| == 2 && LastHit(counted, "b", 1) && IsChoice(counted, "b", ["1"])
    ensures counted.locations[1].zones == [] && counted.restrictions == []
    ensures |taken.locations| == 2 && LastHit(taken, "b", 1) && IsChoice(taken, "b", [])
    ensures "1" in taken.locations[1].zones && !RestrictedAt(taken, "b", "1")
  {
    counted := Sku("s", [LocationInfo("a", ["1"]), LocationInfo("b", [])], []);
    taken := Sku("s", [LocationInfo("a", []), LocationInfo("b", ["1"])], [Restriction(false, ["a"], ["1"])]);
    assert Lower("a")[0] != Lower("b")[0];
    assert Hit(counted, "b", 1) && Hit(taken, "b", 1);
    var r := taken.restrictions[0];
    assert !EqualFold(r.locations[0], "b");
    assert counted.locations[0].zones[0] == "1" && counted.locations[0].zones == ["1"];
    assert ZonesUpTo(counted, 2) == {"1"} by {
      assert "1" in counted.locations[0].zones;
    }
    assert ZonesUpTo(taken, 2) - Restricted(taken.restrictions) == {} by {
      assert r in taken.restrictions && "1" in r.zones;
    }
    assert Lists(["1"], ZonesUpTo(counted, 1 + 1) - Restricted(counted.restrictions));
    assert Lists([], ZonesUpTo(taken, 1 + 1) - Restricted(taken.restrictions));
  }

  ghost predicate BarredAt(sku: Sku, location: string) {
    exists r :: r in sku.restrictions && r.wholeLocation && Concerns(r, location)
  }

  ghost predicate RejectsAt(skus: seq<Sku>, n: nat, name: string, location: string)
    requires n <= |skus|
  {
    exists k :: 0 <= k < n && Counts(skus[k], name, location) && BarredAt(skus[k], location)
  }

  /** A SKU barred at the location is always rejected; a rejection is right iff one that counts is barred there. */
  lemma RejectionIsRightIff(skus: seq<Sku>, n: nat, name: string, location: string)
    requires n <= |skus|
    ensures RejectsAt(skus, n, name, location) ==> Rejects(skus, n, name, location)
    ensures (Rejects(skus, n, name, location) <==> RejectsAt(skus, n, name, location))
            <==> !Rejects(skus, n, name, location) || RejectsAt(skus, n, name, location)
  {
    forall k | 0 <= k < n && BarredAt(skus[k], location)
      ensures Barred(skus[k])
    {
    }
  }

  /** A SKU may also be rejected for another region, which bars it there only. */
  lemma RejectedElsewhere() returns (sku: Sku)
    ensures Rejects([sku], 1, "s", "b") && !RejectsAt([sku], 1, "s", "b")
  {
    var r := Restriction(true, ["a"], []);
    sku := Sku("s", [LocationInfo("b", ["1"])], [r]);
    assert Lower("a")[0] != Lower("b")[0];
    assert Hit(sku, "b", 0) && r in sku.restrictions && !EqualFold(r.locations[0], "b");
    assert [sku][0] == sku && Counts(sku, "s", "b") && Barred(sku) && !BarredAt(sku, "b");
  }

  /** The choice does not depend on the order in which the map was iterated. */
  lemma ChoiceIsUnique(sku: Sku, location: string, xs: seq<string>, ys: seq<string>)
    requires IsChoice(sku, location, xs) && IsChoice(sku, location, ys)
    ensures xs == ys
  {
    var h :| 0 <= h < |sku.locations| && Hit(sku, location, h) &&
             (forall k :: h < k < |sku.locations| ==> !Hit(sku, location, k)) &&
             Lists(xs, ZonesUpTo(sku, h + 1) - Restricted(sku.restrictions));
    var g :| 0 <= g < |sku.locations| && Hit(sku, location, g) &&
             (forall k :: g < k < |sku.locations| ==> !Hit(sku, location, k)) &&
             Lists(ys, ZonesUpTo(sku, g + 1) - Restricted(sku.restrictions));
    assert h == g;
    ListingIsUnique(xs, ys, ZonesUpTo(sku, h + 1) - Restricted(sku.restrictions));
  }

  /** Nor does the answer of the whole listing. */
  lemma AnswersAreUnique(
      skus: seq<Sku>, n: nat, name: string, location: string, last: int, xs: seq<string>, last': int, ys: seq<string>)
    requires n <= |skus|
    requires Answers(skus, n, name, location, last, xs) && Answers(skus, n, name, location, last', ys)
    ensures last == last' && xs == ys
  {
    assert last >= 0 ==> Counts(skus[last], name, location);
    assert last' >= 0 ==> Counts(skus[last'], name, location);
    if last >= 0 {
      ChoiceIsUnique(skus[last], location, xs, ys);
    }
  }
}
