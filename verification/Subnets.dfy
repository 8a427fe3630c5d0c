/**
 The subnet upsert of pkg/clients/virtualnetworks/spec.go. A subnet is copied out of the list
 by the loop, but its properties are reached through a pointer, so the assignment in the loop
 is seen by every list element that holds the same properties object.
 */
module Subnets {
  class SubnetProperties {
    var addressPrefix: string

    constructor (prefix: string)
      ensures addressPrefix == prefix
    {
      addressPrefix := prefix;
    }
  }

  datatype Subnet = Subnet(name: string, properties: SubnetProperties)

  // ---------------------------------------------------------------- the list as a table

  type Entry = (string, string)

  function Names(es: seq<Entry>): (r: seq<string>)
    ensures |r| == |es|
    ensures forall i :: 0 <= i < |es| ==> r[i] == es[i].0
  {
    if es == [] then [] else [es[0].0] + Names(es[1..])
  }

  function Replaced(es: seq<Entry>, name: string, cidr: string): (r: seq<Entry>)
    ensures |r| == |es|
    ensures forall i :: 0 <= i < |es| ==> r[i] == if es[i].0 == name then (name, cidr) else es[i]
  {
    if es == [] then []
    else [if es[0].0 == name then (name, cidr) else es[0]] + Replaced(es[1..], name, cidr)
  }

  function Upserted(es: seq<Entry>, name: string, cidr: string): seq<Entry> {
    if name in Names(es) then Replaced(es, name, cidr) else es + [(name, cidr)]
  }

  ghost predicate DistinctNames(es: seq<Entry>) {
    forall i, j :: 0 <= i < j < |es| ==> es[i].0 != es[j].0
  }

  /** The table that the list stands for; with distinct names, every element is in it. */
  ghost function Table(es: seq<Entry>): map<string, string> {
    if es == [] then map[] else Table(es[1..])[es[0].0 := es[0].1]
  }

  lemma {:induction false} TableHolds(es: seq<Entry>, i: nat)
    requires DistinctNames(es) && i < |es|
    ensures es[i].0 in Table(es) && Table(es)[es[i].0] == es[i].1
  {
    if i == 0 {
    } else {
      assert es[1..][i - 1] == es[i];
      TableHolds(es[1..], i - 1);
    }
  }

  lemma {:induction false} TableKeys(es: seq<Entry>, name: string)
    ensures name in Table(es) <==> name in Names(es)
  {
    if es == [] {
    } else {
      TableKeys(es[1..], name);
      assert Names(es) == [es[0].0] + Names(es[1..]);
    }
  }

  lemma {:induction false} TableOfReplaced(es: seq<Entry>, name: string, cidr: string)
    ensures Table(Replaced(es, name, cidr)) == if name in Table(es) then Table(es)[name := cidr] else Table(es)
  {
    if es == [] {
    } else {
      TableOfReplaced(es[1..], name, cidr);
    }
  }

  lemma {:induction false} TableOfAppended(es: seq<Entry>, name: string, cidr: string)
    requires name !in Names(es)
    ensures Table(es + [(name, cidr)]) == Table(es)[name := cidr]
  {
    if es == [] {
      assert [(name, cidr)][1..] == [];
    } else {
      assert (es + [(name, cidr)])[1..] == es[1..] + [(name, cidr)];
      assert Names(es) == [es[0].0] + Names(es[1..]);
      TableOfAppended(es[1..], name, cidr);
    }
  }

  lemma UpsertedNames(es: seq<Entry>, name: string, cidr: string)
    ensures Names(Upserted(es, name, cidr)) == if name in Names(es) then Names(es) else Names(es) + [name]
  {
    var es' := Upserted(es, name, cidr);
    assert forall i :: 0 <= i < |es| ==> Names(es')[i] == es'[i].0 == es[i].0;
  }

  ghost predicate Mentions(es: seq<Entry>, name: string) {
    exists i :: 0 <= i < |es| && es[i].0 == name
  }

  /** Upserted, element by element. */
  lemma UpsertedAt(es: seq<Entry>, es': seq<Entry>, name: string, cidr: string)
    requires |es'| == |es| + if Mentions(es, name) then 0 else 1
    requires forall i :: 0 <= i < |es| ==> es'[i] == (es[i].0, if es[i].0 == name then cidr else es[i].1)
    requires |es'| > |es| ==> es'[|es|] == (name, cidr)
    ensures es' == Upserted(es, name, cidr)
  {
    assert forall i :: 0 <= i < |es| ==> Names(es)[i] == es[i].0;
  }

  /**
   One upsert: the table gets one update; names stay distinct and in order of first insertion;
   every other subnet is left alone.
   */
  lemma UpsertUpdatesTable(es: seq<Entry>, name: string, cidr: string)
    ensures var es' := Upserted(es, name, cidr);
            (DistinctNames(es) ==> DistinctNames(es')) && Table(es') == Table(es)[name := cidr] &&
            Names(es') == (if name in Names(es) then Names(es) else Names(es) + [name]) &&
            forall i :: 0 <= i < |es| && es[i].0 != name ==> es'[i] == es[i]
  {
    UpsertedNames(es, name, cidr);
    if name in Names(es) {
      TableOfReplaced(es, name, cidr);
      TableKeys(es, name);
    } else {
      TableOfAppended(es, name, cidr);
      assert forall i :: 0 <= i < |es| ==> Names(es)[i] == es[i].0;
    }
  }

  function AllUpserted(es: seq<Entry>, calls: seq<Entry>): seq<Entry> {
    if calls == [] then es
    else Upserted(AllUpserted(es, calls[..|calls| - 1]), calls[|calls| - 1].0, calls[|calls| - 1].1)
  }

  ghost function Updates(m: map<string, string>, calls: seq<Entry>): map<string, string> {
    if calls == [] then m
    else Updates(m, calls[..|calls| - 1])[calls[|calls| - 1].0 := calls[|calls| - 1].1]
  }

  /** Any number of upserts refines the same number of map updates. */
  lemma {:induction false} UpsertsRefineUpdates(es: seq<Entry>, calls: seq<Entry>)
    ensures DistinctNames(es) ==> DistinctNames(AllUpserted(es, calls))
    ensures Table(AllUpserted(es, calls)) == Updates(Table(es), calls)
    ensures Names(es) <= Names(AllUpserted(es, calls))
  {
    if calls == [] {
    } else {
      var init, last := calls[..|calls| - 1], calls[|calls| - 1];
      UpsertsRefineUpdates(es, init);
      UpsertUpdatesTable(AllUpserted(es, init), last.0, last.1);
    }
  }

  // ---------------------------------------------------------------- the list in the heap

  class SubnetList {
    var items: seq<Subnet>

    constructor ()
      ensures items == []
    {
      items := [];
    }

    ghost function Properties(): set<SubnetProperties>
      reads this
    {
      set i | 0 <= i < |items| :: items[i].properties
    }

    /** No two elements hold the same properties object. */
    ghost predicate Unshared()
      reads this
    {
      forall i, j :: 0 <= i < j < |items| ==> items[i].properties != items[j].properties
    }

    ghost function Entries(): (es: seq<Entry>)
      reads this, Properties()
      ensures |es| == |items|
    {
      seq(|items|, i requires 0 <= i < |items| reads this, Properties() =>
        (items[i].name, items[i].properties.addressPrefix))
    }

    ghost predicate Has(name: string)
      reads this
    {
      exists i :: 0 <= i < |items| && items[i].name == name
    }

    lemma HasIff(name: string)
      ensures Has(name) <==> Mentions(Entries(), name)
    {
      assert forall i :: 0 <= i < |items| ==> Entries()[i].0 == items[i].name;
    }

    /** Whether element `i` shares its properties with an element of that name. */
    ghost predicate Reached(i: nat, name: string)
      requires i < |items|
      reads this
    {
      exists j :: 0 <= j < |items| && items[j].name == name && items[j].properties == items[i].properties
    }

    lemma OnlyItself(i: nat, name: string)
      requires i < |items| && Unshared()
      ensures Reached(i, name) <==> items[i].name == name
    {
    }

    /**
     On any list: the elements that share properties with one of that name get the new prefix,
     and if there is none of that name, one is appended.
     */
    method Upsert(name: string, cidr: string)
      modifies this, Properties()
      ensures old(items) <= items
      ensures |items| == |old(items)| + if old(Has(name)) then 0 else 1
      ensures forall i :: 0 <= i < |old(items)| ==>
                items[i].properties.addressPrefix ==
                  if old(Reached(i, name)) then cidr else old(items[i].properties.addressPrefix)
      ensures |items| > |old(items)| ==>
                var added := items[|old(items)|];
                added.name == name && fresh(added.properties) && added.properties.addressPrefix == cidr
    {
      var found := false;
      ghost var hit: set<SubnetProperties> := {};
      var i := 0;
      while i < |items|
        invariant 0 <= i <= |items| && items == old(items)
        invariant found <==> hit != {}
        invariant forall p :: p in hit ==> exists j :: 0 <= j < i && items[j].name == name && items[j].properties == p
        invariant forall j :: 0 <= j < i && items[j].name == name ==> items[j].properties in hit
        invariant forall k :: 0 <= k < |items| ==>
                    items[k].properties.addressPrefix ==
                      if items[k].properties in hit then cidr else old(items[k].properties.addressPrefix)
      {
        var subnet := items[i];
        if subnet.name == name {
          subnet.properties.addressPrefix := cidr;
          found := true;
          hit := hit + {subnet.properties};
        }
        i := i + 1;
      }
      assert forall k :: 0 <= k < |items| ==> (old(Reached(k, name)) <==> items[k].properties in hit);
      if !found {
        var p := new SubnetProperties(cidr);
        items := items + [Subnet(name, p)];
      }
    }

    /** On an unshared list that is exactly the upsert of the table. */
    method UpsertUnshared(name: string, cidr: string)
      requires Unshared()
      modifies this, Properties()
      ensures Unshared() && Entries() == Upserted(old(Entries()), name, cidr)
      ensures forall k :: 0 <= k < |items| ==> items[k].properties in old(Properties()) || fresh(items[k].properties)
    {
      ghost var es := Entries();
      HasIff(name);
      forall i | 0 <= i < |items|
        ensures Reached(i, name) <==> es[i].0 == name
      {
        OnlyItself(i, name);
      }
      Upsert(name, cidr);
      forall i, j | 0 <= i < j < |items|
        ensures items[i].properties != items[j].properties
      {
        assert items[i] == old(items)[i];
        assert j < |old(items)| ==> items[j] == old(items)[j];
      }
      ghost var es' := Entries();
      forall i | 0 <= i < |es|
        ensures es'[i] == (es[i].0, if es[i].0 == name then cidr else es[i].1)
      {
        assert items[i] == old(items)[i];
      }
      UpsertedAt(es, es', name, cidr);
    }

    /** Any sequence of upserts on an unshared list. */
    method UpsertAll(calls: seq<Entry>)
      requires Unshared()
      modifies this, Properties()
      ensures Unshared() && Entries() == AllUpserted(old(Entries()), calls)
      ensures Table(Entries()) == Updates(Table(old(Entries())), calls)
      ensures DistinctNames(old(Entries())) ==> DistinctNames(Entries())
    {
      ghost var es := Entries();
      var i := 0;
      while i < |calls|
        invariant 0 <= i <= |calls| && Unshared() && Entries() == AllUpserted(es, calls[..i])
        invariant forall k :: 0 <= k < |items| ==>
                    items[k].properties in old(Properties()) || fresh(items[k].properties)
      {
        assert calls[..i + 1][..i] == calls[..i];
        UpsertUnshared(calls[i].0, calls[i].1);
        i := i + 1;
      }
      assert calls[..i] == calls;
      UpsertsRefineUpdates(es, calls);
    }

    /** The prefixes in list order. */
    method Prefixes() returns (prefixes: seq<string>)
      ensures |prefixes| == |items|
      ensures forall i :: 0 <= i < |items| ==> prefixes[i] == items[i].properties.addressPrefix
    {
      prefixes := [];
      for i := 0 to |items|
        invariant |prefixes| == i
        invariant forall k :: 0 <= k < i ==> prefixes[k] == items[k].properties.addressPrefix
      {
        prefixes := prefixes + [items[i].properties.addressPrefix];
      }
    }
  }
}
