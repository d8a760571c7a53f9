/** The service that keeps the registry and rebuilds it from the loaders. */
module LoadNodesAndCredentialsModel {
  import opened Options
  import opened NodeDescriptions
  import opened NodeInjection
  import opened NodeRegistry
  import opened NodeRebuild
  import opened NodeRebuildAgain
  import opened NodeNames

  class LoadNodesAndCredentials {
    var loaders: seq<Loader>
    /** The option arrays in memory, those of the loaders among them, and the next free reference. */
    var arrays: Arrays
    var nextRef: Ref

    var knownNodes: map<string, Option<KnownNode>>
    var knownCredentials: map<string, KnownCredential>
    var loadedNodes: map<string, string>
    var loadedCredentials: map<string, string>
    var nodes: seq<Node<Ref>>
    var credentials: seq<CredentialType>

    ghost predicate Valid()
      reads this
    {
      Ready(arrays, nextRef, loaders)
    }

    function State(): Registry
      reads this
    {
      Registry(arrays, nextRef, nodes, credentials, knownNodes, knownCredentials, loadedNodes, loadedCredentials)
    }

    constructor (loaders: seq<Loader>, arrays: Arrays, nextRef: Ref)
      requires Ready(arrays, nextRef, loaders)
      ensures Valid() && this.loaders == loaders && this.arrays == arrays && this.nextRef == nextRef
    {
      this.loaders, this.arrays, this.nextRef := loaders, arrays, nextRef;
      knownNodes, knownCredentials := map[], map[];
      loadedNodes, loadedCredentials := map[], map[];
      nodes, credentials := [], [];
    }

    /** Pushes the option where it is missing; an empty options array, or a qualifying node
        without parameters, makes it throw. */
    method InjectCustomApiCallOptions() returns (completed: bool)
      modifies this`arrays
      ensures (arrays, completed) == InjectNodes(old(arrays), nodes, credentials)
    {
      ghost var before := arrays;
      for i := 0 to |nodes|
        invariant InjectNodes(arrays, nodes[i..], credentials) == InjectNodes(before, nodes, credentials)
      {
        assert nodes[i..][1..] == nodes[i + 1..];
        if IsLatest(nodes[i]) {
          if !SupportsProxyAuth(nodes[i], credentials) {
            continue;
          }
          if nodes[i].properties.None? {
            return false;
          }
          completed := InjectInto(nodes[i].properties.value);
          if !completed {
            return;
          }
        }
      }
      completed := true;
    }

    /** The parameters of one node. */
    method InjectInto(properties: seq<Property<Ref>>) returns (completed: bool)
      modifies this`arrays
      ensures (arrays, completed) == InjectProperties(old(arrays), properties)
    {
      ghost var before := arrays;
      for i := 0 to |properties|
        invariant InjectProperties(arrays, properties[i..]) == InjectProperties(before, properties)
      {
        assert properties[i..][1..] == properties[i + 1..];
        var p := properties[i];
        if IsTargetName(p.name) && p.options.Some? {
          var options := At(arrays, p.options.value);
          if options == [] {
            return false;
          }
          assert EndsWithCustom(options) ==> Pushed(arrays, p.options.value) == arrays;
          if options[|options| - 1].name != CUSTOM_API_CALL_NAME {
            arrays := arrays[p.options.value := options + [CUSTOM_API_CALL]];
          }
        }
      }
      completed := true;
    }

    /** One tool for each node that is usable as one when the loop starts. */
    method CreateAiTools()
      modifies this
      ensures loaders == old(loaders)
      ensures State() == WithTools(old(State()), Usable(old(nodes)))
    {
      var usableNodes := Usable(nodes);
      for i := 0 to |usableNodes|
        invariant loaders == old(loaders)
        invariant State() == WithTools(old(State()), usableNodes[..i])
      {
        OneMoreTool(old(State()), usableNodes, i);
        CreateAiTool(usableNodes[i]);
      }
      assert usableNodes[..|usableNodes|] == usableNodes;
    }

    method CreateAiTool(usableNode: Node<Ref>)
      modifies this
      ensures loaders == old(loaders)
      ensures State() == WithTool(old(State()), usableNode)
    {
      var wrapped := NewTool(usableNode, nextRef);
      arrays := ExtendedArrays(arrays, nextRef, RefsOf(usableNode));
      nextRef := 2 * nextRef + 1;
      nodes := nodes + [wrapped];
      var entry := if usableNode.name in knownNodes then knownNodes[usableNode.name] else None;
      knownNodes := knownNodes[wrapped.name := entry];
      knownCredentials :=
        map k | k in knownCredentials :: WithSupport(knownCredentials[k], usableNode.name, wrapped.name);
    }

    /** Starts from empty tables and adds what each loader holds. */
    method CollectLoaders()
      modifies this
      ensures loaders == old(loaders)
      ensures State() == Collected(old(arrays), old(nextRef), loaders)
      ensures AllNamed(loaders, nodes) && |nodes| == StartOf(loaders, |loaders|)
      ensures AllListed(loaders, credentials) && |credentials| == CredentialStart(loaders, |loaders|)
    {
      knownNodes, knownCredentials := map[], map[];
      loadedNodes, loadedCredentials := map[], map[];
      nodes, credentials := [], [];
      for i := 0 to |loaders|
        invariant loaders == old(loaders)
        invariant State() == Collected(old(arrays), old(nextRef), loaders[..i])
      {
        var loader := loaders[i];
        assert loaders[..i + 1][..i] == loaders[..i];
        nodes := nodes + NodesOf(loader);
        credentials := credentials + CredentialsOf(loader);
        loadedNodes := loadedNodes + QualifiedKeys(loader, loader.loadedNodes);
        loadedCredentials := loadedCredentials + loader.loadedCredentials;
        knownNodes := knownNodes + KnownNodesOf(loader);
        knownCredentials := knownCredentials + KnownCredentialsOf(loader);
      }
      assert loaders[..|loaders|] == loaders;
      CollectedAreNamed(old(arrays), old(nextRef), loaders);
      CollectedAreListed(old(arrays), old(nextRef), loaders);
    }

    /** Rebuilds the registry. The descriptions keep the arrays of the loaders. */
    method PostProcessLoaders() returns (completed: bool)
      requires Valid()
      modifies this
      ensures loaders == old(loaders)
      ensures (State(), completed) == Rebuilt(old(arrays), old(nextRef), loaders)
      ensures completed <==> Injectable(old(arrays), BaseNodes(loaders), Credentials(loaders))
      ensures completed ==> Valid() && ReadAll(nodes, arrays) == Shown(loaders, old(arrays))
      ensures Gathers(loaders, State())
    {
      CollectLoaders();
      CreateAiTools();
      completed := InjectCustomApiCallOptions();
      RebuildFacts(old(arrays), old(nextRef), loaders);
      RebuildGathers(old(arrays), old(nextRef), loaders);
    }
  }

  lemma OneMoreTool(base: Registry, usable: seq<Node<Ref>>, i: nat)
    requires i < |usable|
    ensures WithTools(base, usable[..i + 1]) == WithTool(WithTools(base, usable[..i]), usable[i])
  {
    assert usable[..i + 1][..i] == usable[..i];
  }

  lemma RebuildFacts(arrays: Arrays, next: Ref, loaders: seq<Loader>)
    requires Ready(arrays, next, loaders)
    ensures var (reg, completed) := Rebuilt(arrays, next, loaders);
            && (completed <==> Injectable(arrays, BaseNodes(loaders), Credentials(loaders)))
            && (completed ==>
                  Ready(reg.arrays, reg.next, loaders) && ReadAll(reg.nodes, reg.arrays) == Shown(loaders, arrays))
  {
    RebuildCompletesExactlyWhen(arrays, next, loaders);
    if Rebuilt(arrays, next, loaders).1 {
      RebuildShows(arrays, next, loaders);
      RebuildLeaves(arrays, next, loaders);
    }
  }
}
