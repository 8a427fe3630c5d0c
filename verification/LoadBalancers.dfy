/**
 pkg/clients/loadbalancers/spec.go under the loop semantics of Go 1.12 (go.mod:3): a `for`
 variable is one cell for the whole loop, so the address of one of its fields, taken in every
 iteration, is the same address each time.
 */
module LoadBalancers {
  import opened Wrappers

  newtype int32 = x: int | -0x8000_0000 <= x < 0x8000_0000

  datatype RuleSpec = RuleSpec(
    name: string, frontend: string, backendPool: string, probe: string,
    protocol: string, frontendPort: int32, backendPort: int32)

  /** The storage of a loop variable of type RuleSpec. */
  class RuleCell {
    var rule: RuleSpec

    constructor (r: RuleSpec)
      ensures rule == r
    {
      rule := r;
    }
  }

  /** A rule for Azure: four pointers into the loop variable, three values of its own. */
  datatype AzureRule = AzureRule(
    name: RuleCell, frontend: RuleCell, backendPool: RuleCell, probe: RuleCell,
    protocol: string, frontendPort: int32, backendPort: int32)

  /** Ports and protocol of each rule, names and references of the last one. */
  function Aliased(specs: seq<RuleSpec>): (r: seq<RuleSpec>)
    ensures |r| == |specs|
  {
    seq(|specs|, i requires 0 <= i < |specs| =>
      var last := specs[|specs| - 1];
      specs[i].(name := last.name, frontend := last.frontend, backendPool := last.backendPool, probe := last.probe))
  }

  class Spec {
    var rules: Option<seq<AzureRule>>

    constructor ()
      ensures rules == None
    {
      rules := None;
    }

    ghost function Pointers(r: AzureRule): set<RuleCell> {
      {r.name, r.frontend, r.backendPool, r.probe}
    }

    ghost function Cells(): set<RuleCell>
      reads this
    {
      if rules.None? then {}
      else set i, c | 0 <= i < |rules.value| && c in Pointers(rules.value[i]) :: c
    }

    /** What the pointers of one rule lead to now. */
    function Deref(r: AzureRule): RuleSpec
      reads r.name, r.frontend, r.backendPool, r.probe
    {
      RuleSpec(r.name.rule.name, r.frontend.rule.frontend, r.backendPool.rule.backendPool, r.probe.rule.probe,
               r.protocol, r.frontendPort, r.backendPort)
    }

    /** The setter. */
    method SetRules(specs: Option<seq<RuleSpec>>)
      modifies this
      ensures rules.Some? && fresh(Cells())
      ensures specs.None? ==> rules.value == []
      ensures specs.Some? ==>
                |rules.value| == |specs.value| &&
                forall i :: 0 <= i < |specs.value| ==> Deref(rules.value[i]) == Aliased(specs.value)[i]
    {
      rules := Some([]);
      if specs.Some? && specs.value != [] {
        var list := specs.value;
        var rule := new RuleCell(list[0]);
        var i := 0;
        while i < |list|
          invariant 0 <= i <= |list|
          invariant rules.Some? && |rules.value| == i
          invariant i > 0 ==> rule.rule == list[i - 1]
          invariant forall k :: 0 <= k < i ==>
                      rules.value[k] ==
                        AzureRule(rule, rule, rule, rule, list[k].protocol, list[k].frontendPort, list[k].backendPort)
        {
          rule.rule := list[i];
          var now := rule.rule;
          var item := AzureRule(rule, rule, rule, rule, now.protocol, now.frontendPort, now.backendPort);
          rules := Some(rules.value + [item]);
          i := i + 1;
        }
      }
    }

    /** The getter. */
    method GetRules() returns (specs: Option<seq<RuleSpec>>)
      ensures specs.None? <==> rules.None?
      ensures specs.Some? ==>
                |specs.value| == |rules.value| &&
                forall i :: 0 <= i < |specs.value| ==> specs.value[i] == Deref(rules.value[i])
    {
      if rules.None? {
        return None;
      }
      var out: seq<RuleSpec> := [];
      for i := 0 to |rules.value|
        invariant |out| == i
        invariant forall k :: 0 <= k < i ==> out[k] == Deref(rules.value[k])
      {
        out := out + [Deref(rules.value[i])];
      }
      return Some(out);
    }
  }

  // ---------------------------------------------------------------- the round trip

  predicate SameReferences(a: RuleSpec, b: RuleSpec) {
    a.name == b.name && a.frontend == b.frontend && a.backendPool == b.backendPool && a.probe == b.probe
  }

  /** All rules agree with the last one on the four aliased fields. */
  predicate Uniform(specs: seq<RuleSpec>) {
    forall i :: 0 <= i < |specs| ==> SameReferences(specs[i], specs[|specs| - 1])
  }

  lemma AliasedIsIdentityIff(specs: seq<RuleSpec>)
    ensures Aliased(specs) == specs <==> Uniform(specs)
  {
    if Aliased(specs) == specs {
      forall i | 0 <= i < |specs|
        ensures SameReferences(specs[i], specs[|specs| - 1])
      {
        assert Aliased(specs)[i] == specs[i];
      }
    }
  }

  /** Setting rules and reading them back, on a spec of its own. */
  method RoundTrip(specs: seq<RuleSpec>) returns (back: seq<RuleSpec>)
    ensures |back| == |specs|
    ensures forall i :: 0 <= i < |specs| ==>
              back[i].protocol == specs[i].protocol && back[i].frontendPort == specs[i].frontendPort &&
              back[i].backendPort == specs[i].backendPort
    ensures forall i :: 0 <= i < |specs| ==>
              var last := specs[|specs| - 1];
              back[i].name == last.name && back[i].frontend == last.frontend &&
              back[i].backendPool == last.backendPool && back[i].probe == last.probe
    ensures back == specs <==> Uniform(specs)
    ensures |specs| <= 1 ==> back == specs
  {
    var spec := new Spec();
    spec.SetRules(Some(specs));
    var read := spec.GetRules();
    back := read.value;
    assert back == Aliased(specs);
    AliasedIsIdentityIff(specs);
  }

  // ---------------------------------------------------------------- the update check

  datatype Local = Local(name: string, location: string, rules: Option<seq<RuleSpec>>)
  datatype Remote = Remote(name: Option<string>, location: Option<string>, rules: Option<seq<RuleSpec>>)
  datatype Verdict = Panics | Says(update: bool)

  /** The third detector dereferences both rule lists for its debug dump, nil or not. */
  function NeedsUpdate(r: Remote, l: Local): Verdict {
    if r.name != Some(l.name) || r.location != Some(l.location) then Says(true)
    else if l.rules.None? || r.rules.None? then Panics
    else Says(l.rules.value != r.rules.value)
  }

  /** An update is needed iff name, location or rules differ; without rules on either side the question panics. */
  lemma NeedsUpdateIff(r: Remote, l: Local)
    ensures NeedsUpdate(r, l) == Says(false) <==>
              r.name == Some(l.name) && r.location == Some(l.location) && r.rules == l.rules && l.rules.Some?
    ensures NeedsUpdate(r, l).Panics? <==>
              r.name == Some(l.name) && r.location == Some(l.location) && (r.rules.None? || l.rules.None?)
  {
  }

  /** What Azure echoes after an accepted write. */
  method Written(l: Local) returns (r: Remote)
    ensures r.name == Some(l.name) && r.location == Some(l.location) && r.rules.Some?
    ensures l.rules.Some? ==> r.rules.value == Aliased(l.rules.value)
    ensures NeedsUpdate(r, l) == Panics <==> l.rules.None?
    ensures NeedsUpdate(r, l) == Says(false) <==> l.rules.Some? && Uniform(l.rules.value)
  {
    var spec := new Spec();
    spec.SetRules(l.rules);
    var rules := spec.GetRules();
    r := Remote(Some(l.name), Some(l.location), rules);
    if l.rules.Some? {
      assert rules.value == Aliased(l.rules.value);
      AliasedIsIdentityIff(l.rules.value);
    }
  }

  // ---------------------------------------------------------------- frontends

  /** The name points at a variable of the loop body, the address id at the loop variable. */
  datatype Frontend = Frontend(name: StringCell, publicIP: StringCell)

  /** The last path segment of a resource id. */
  function LastSegment(id: string): string {
    if id == [] then [] else if id[|id| - 1] == '/' then [] else LastSegment(id[..|id| - 1]) + [id[|id| - 1]]
  }

  /** What follows the last slash, or all if there is none. */
  lemma {:induction false} LastSegmentIs(id: string)
    ensures var seg := LastSegment(id);
            '/' !in seg && |seg| <= |id| && id[|id| - |seg|..] == seg &&
            (|seg| < |id| ==> id[|id| - |seg| - 1] == '/')
  {
    if id == [] || id[|id| - 1] == '/' {
    } else {
      var init := id[..|id| - 1];
      LastSegmentIs(init);
      var before, c := LastSegment(init), id[|id| - 1];
      assert id == init + [c] && LastSegment(id) == before + [c];
      assert id[|id| - |before| - 1..] == init[|init| - |before|..] + [c];
    }
  }

  /** Every frontend gets its own name but the address of the last one. */
  method Frontends(ids: seq<string>) returns (frontends: seq<Frontend>)
    ensures |frontends| == |ids|
    ensures forall i :: 0 <= i < |ids| ==>
              frontends[i].name.text == LastSegment(ids[i]) && frontends[i].publicIP.text == ids[|ids| - 1]
    ensures (forall i :: 0 <= i < |ids| ==> frontends[i].publicIP.text == ids[i])
            <==> forall i :: 0 <= i < |ids| ==> ids[i] == ids[|ids| - 1]
  {
    frontends := [];
    if ids == [] {
      return;
    }
    var frontend := new StringCell(ids[0]);
    var i := 0;
    while i < |ids|
      invariant 0 <= i <= |ids| && |frontends| == i && fresh(frontend)
      invariant i > 0 ==> frontend.text == ids[i - 1]
      invariant forall k :: 0 <= k < i ==>
                  frontends[k].publicIP == frontend && frontends[k].name != frontend && fresh(frontends[k].name) &&
                  frontends[k].name.text == LastSegment(ids[k])
    {
      frontend.text := ids[i];
      var resourceName := new StringCell(LastSegment(frontend.text));
      frontends := frontends + [Frontend(resourceName, frontend)];
      i := i + 1;
    }
  }
}
