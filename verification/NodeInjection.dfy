/** The Custom API Call option, pushed in place into the options of a parameter. Arrays
    may be shared: between parameters, between nodes, and with the loaders that own them. */
module NodeInjection {
  import opened Options
  import opened NodeDescriptions

  predicate EndsWithCustom(options: seq<Choice>) {
    options != [] && options[|options| - 1].name == CUSTOM_API_CALL_NAME
  }

  /** The options after the injection. */
  function WithCustom(options: seq<Choice>): seq<Choice> {
    if EndsWithCustom(options) then options else options + [CUSTOM_API_CALL]
  }

  function Injected(arrays: Arrays, targets: set<Ref>): Arrays {
    map r | r in arrays :: if r in targets then WithCustom(arrays[r]) else arrays[r]
  }

  predicate IsTarget(p: Property<Ref>) {
    IsTargetName(p.name) && p.options.Some?
  }

  function PropertyTargets(properties: seq<Property<Ref>>): set<Ref> {
    set i | 0 <= i < |properties| && IsTarget(properties[i]) :: properties[i].options.value
  }

  /** The arrays that the injection reaches through a node itself. */
  function OwnTargets(n: Node<Ref>, credentials: seq<CredentialType>): set<Ref> {
    if Qualifies(n, credentials) && n.properties.Some? then PropertyTargets(n.properties.value) else {}
  }

  function Targets(nodes: seq<Node<Ref>>, credentials: seq<CredentialType>): set<Ref> {
    set i, r | 0 <= i < |nodes| && r in OwnTargets(nodes[i], credentials) :: r
  }

  // ---------- the injection as it runs ----------

  /** The arrays, and whether the run came to its end: an empty options array makes it throw. */
  function InjectProperties(arrays: Arrays, properties: seq<Property<Ref>>): (Arrays, bool) {
    if properties == [] then (arrays, true)
    else
      var p := properties[0];
      if !IsTarget(p) then InjectProperties(arrays, properties[1..])
      else if At(arrays, p.options.value) == [] then (arrays, false)
      else InjectProperties(Pushed(arrays, p.options.value), properties[1..])
  }

  function Pushed(arrays: Arrays, r: Ref): Arrays {
    arrays[r := WithCustom(At(arrays, r))]
  }

  function InjectNodes(arrays: Arrays, nodes: seq<Node<Ref>>, credentials: seq<CredentialType>): (Arrays, bool)
    decreases |nodes|
  {
    if nodes == [] then (arrays, true)
    else if !Qualifies(nodes[0], credentials) then InjectNodes(arrays, nodes[1..], credentials)
    else if nodes[0].properties.None? then (arrays, false)
    else
      var (arrays', completed) := InjectProperties(arrays, nodes[0].properties.value);
      if completed then InjectNodes(arrays', nodes[1..], credentials) else (arrays', false)
  }

  lemma InjectedTwice(arrays: Arrays, a: set<Ref>, b: set<Ref>)
    ensures Injected(Injected(arrays, a), b) == Injected(arrays, a + b)
  {
  }

  ghost predicate NoneEmpty(arrays: Arrays, targets: set<Ref>) {
    forall r :: r in targets ==> At(arrays, r) != []
  }

  lemma {:induction false} InjectPropertiesIs(arrays: Arrays, properties: seq<Property<Ref>>)
    requires forall i :: 0 <= i < |properties| && properties[i].options.Some? ==> properties[i].options.value in arrays
    ensures var (arrays', completed) := InjectProperties(arrays, properties);
            && arrays'.Keys == arrays.Keys
            && (completed <==> NoneEmpty(arrays, PropertyTargets(properties)))
            && (completed ==> arrays' == Injected(arrays, PropertyTargets(properties)))
    decreases |properties|
  {
    if properties == [] {
      assert Injected(arrays, {}) == arrays;
      assert PropertyTargets(properties) == {};
    } else {
      var p, rest := properties[0], properties[1..];
      FirstTargets(properties);
      if !IsTarget(p) {
        InjectPropertiesIs(arrays, rest);
      } else {
        var r := p.options.value;
        if At(arrays, r) != [] {
          var next := Pushed(arrays, r);
          assert next == Injected(arrays, {r});
          InjectPropertiesIs(next, rest);
          InjectedTwice(arrays, {r}, PropertyTargets(rest));
        }
      }
    }
  }

  lemma FirstTargets(properties: seq<Property<Ref>>)
    requires properties != []
    ensures PropertyTargets(properties)
         == (if IsTarget(properties[0]) then {properties[0].options.value} else {}) + PropertyTargets(properties[1..])
  {
    var rest := properties[1..];
    forall i | 0 <= i < |rest| && IsTarget(rest[i]) ensures rest[i].options.value in PropertyTargets(properties) {
      assert properties[i + 1] == rest[i];
    }
    forall i | 0 < i < |properties| && IsTarget(properties[i])
      ensures properties[i].options.value in PropertyTargets(rest)
    {
      assert rest[i - 1] == properties[i];
    }
  }

  /** The arrays a node refers to exist. */
  ghost predicate Grounded(n: Node<Ref>, arrays: Arrays) {
    RefsOf(n) <= arrays.Keys
  }

  ghost predicate AllGrounded(nodes: seq<Node<Ref>>, arrays: Arrays) {
    forall i :: 0 <= i < |nodes| ==> Grounded(nodes[i], arrays)
  }

  /** Nothing makes the injection throw: qualifying nodes have parameters, and none of their
      resource and operation parameters has an empty options array. */
  ghost predicate Injectable(arrays: Arrays, nodes: seq<Node<Ref>>, credentials: seq<CredentialType>) {
    && NoneEmpty(arrays, Targets(nodes, credentials))
    && forall i :: 0 <= i < |nodes| && Qualifies(nodes[i], credentials) ==> nodes[i].properties.Some?
  }

  /** The injection completes exactly when nothing makes it throw, and then, whatever is shared,
      every array reached has got the option once and every other array is as it was. */
  lemma {:induction false} InjectNodesIs(arrays: Arrays, nodes: seq<Node<Ref>>, credentials: seq<CredentialType>)
    requires AllGrounded(nodes, arrays)
    ensures var (arrays', completed) := InjectNodes(arrays, nodes, credentials);
            && (completed <==> Injectable(arrays, nodes, credentials))
            && (completed ==> arrays' == Injected(arrays, Targets(nodes, credentials)))
    decreases |nodes|
  {
    if nodes == [] {
      assert Targets(nodes, credentials) == {};
      assert Injected(arrays, {}) == arrays;
    } else {
      var n, rest := nodes[0], nodes[1..];
      FirstNodeTargets(nodes, credentials);
      if !Qualifies(n, credentials) {
        InjectNodesIs(arrays, rest, credentials);
        InjectableRest(arrays, nodes, credentials);
      } else if n.properties.Some? {
        var own := n.properties.value;
        assert Grounded(n, arrays);
        forall i | 0 <= i < |own| && own[i].options.Some? ensures own[i].options.value in arrays {
          assert own[i].options.value in RefsOf(n);
        }
        InjectPropertiesIs(arrays, own);
        var (next, completed) := InjectProperties(arrays, own);
        if completed {
          InjectNodesIs(next, rest, credentials);
          InjectedTwice(arrays, PropertyTargets(own), Targets(rest, credentials));
          InjectableRest(arrays, nodes, credentials);
        }
      }
    }
  }

  lemma FirstNodeTargets(nodes: seq<Node<Ref>>, credentials: seq<CredentialType>)
    requires nodes != []
    ensures Targets(nodes, credentials) == OwnTargets(nodes[0], credentials) + Targets(nodes[1..], credentials)
  {
    var rest := nodes[1..];
    forall r | r in Targets(nodes, credentials)
      ensures r in OwnTargets(nodes[0], credentials) + Targets(rest, credentials)
    {
      var i :| 0 <= i < |nodes| && r in OwnTargets(nodes[i], credentials);
      if i > 0 {
        assert rest[i - 1] == nodes[i];
      }
    }
    forall r | r in Targets(rest, credentials) ensures r in Targets(nodes, credentials) {
      var i :| 0 <= i < |rest| && r in OwnTargets(rest[i], credentials);
      assert nodes[i + 1] == rest[i];
    }
  }

  lemma InjectableRest(arrays: Arrays, nodes: seq<Node<Ref>>, credentials: seq<CredentialType>)
    requires nodes != []
    ensures Injectable(arrays, nodes, credentials) <==>
      && (Qualifies(nodes[0], credentials) ==> nodes[0].properties.Some?)
      && NoneEmpty(arrays, OwnTargets(nodes[0], credentials))
      && Injectable(arrays, nodes[1..], credentials)
  {
    var rest := nodes[1..];
    FirstNodeTargets(nodes, credentials);
    forall i | 0 <= i < |nodes| ensures i == 0 || nodes[i] == rest[i - 1] {
    }
    assert forall i :: 0 <= i < |rest| ==> rest[i] == nodes[i + 1];
  }

  /** A qualifying node has the array as the options of a parameter named resource or operation. */
  ghost predicate IsReached(nodes: seq<Node<Ref>>, credentials: seq<CredentialType>, r: Ref) {
    exists i :: 0 <= i < |nodes| && Qualifies(nodes[i], credentials) && nodes[i].properties.Some?
      && HasOptions(nodes[i].properties.value, r)
  }

  ghost predicate HasOptions(properties: seq<Property<Ref>>, r: Ref) {
    exists k :: 0 <= k < |properties| && (properties[k].name == "resource" || properties[k].name == "operation")
      && properties[k].options == Some(r)
  }

  /** What each array holds after an injection that came to its end: the option at its end, once, if it is
      reached. */
  lemma InjectionPushes(arrays: Arrays, nodes: seq<Node<Ref>>, credentials: seq<CredentialType>, r: Ref)
    requires AllGrounded(nodes, arrays) && r in arrays && InjectNodes(arrays, nodes, credentials).1
    ensures var (arrays', options) := (InjectNodes(arrays, nodes, credentials).0, arrays[r]);
            && r in arrays'
            && arrays'[r] ==
                 if IsReached(nodes, credentials, r)
                    && !(options != [] && options[|options| - 1].name == "Custom API Call")
                 then options + [Choice("Custom API Call", "__CUSTOM_API_CALL__")] else options
  {
    InjectNodesIs(arrays, nodes, credentials);
    ReachedAreTargets(nodes, credentials, r);
  }

  lemma ReachedAreTargets(nodes: seq<Node<Ref>>, credentials: seq<CredentialType>, r: Ref)
    ensures r in Targets(nodes, credentials) <==> IsReached(nodes, credentials, r)
  {
    forall i | 0 <= i < |nodes|
      ensures r in OwnTargets(nodes[i], credentials)
         <==> Qualifies(nodes[i], credentials) && nodes[i].properties.Some?
              && HasOptions(nodes[i].properties.value, r)
    {
      if nodes[i].properties.Some? {
        OptionsAreTargets(nodes[i].properties.value, r);
      }
    }
  }

  lemma OptionsAreTargets(properties: seq<Property<Ref>>, r: Ref)
    ensures r in PropertyTargets(properties) <==> HasOptions(properties, r)
  {
    if k :| 0 <= k < |properties| && (properties[k].name == "resource" || properties[k].name == "operation")
            && properties[k].options == Some(r) {
      assert IsTarget(properties[k]);
    }
  }
}
