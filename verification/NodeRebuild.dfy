/** What a rebuild of the registry shows, and what rebuilding again changes. */
module NodeRebuild {
  import opened Options
  import opened NodeDescriptions
  import opened NodeInjection
  import opened NodeRegistry

  /** The loaders refer to existing arrays, and new ones lie above. */
  ghost predicate Ready(arrays: Arrays, next: Ref, loaders: seq<Loader>) {
    Bounded(arrays, next) && AllGrounded(BaseNodes(loaders), arrays)
  }

  // ---------- the simple form ----------

  /** What a reader sees after a rebuild, without any array being shared or changed: each node of
      the loaders with the option wherever some qualifying node of the loaders shares the
      array, then each tool, made from its node before any injection, with the option where the
      node itself asks for it. */
  function Shown(loaders: seq<Loader>, arrays: Arrays): seq<Node<seq<Choice>>> {
    ShownWith(BaseNodes(loaders), arrays, Credentials(loaders))
  }

  function ShownWith(base: seq<Node<Ref>>, arrays: Arrays, credentials: seq<CredentialType>): seq<Node<seq<Choice>>> {
    ReadAll(base, Injected(arrays, Targets(base, credentials))) + ShownTools(Usable(base), arrays, credentials)
  }

  function ShownTool(n: Node<Ref>, arrays: Arrays, credentials: seq<CredentialType>): Node<seq<Choice>> {
    ToolOf(Read(n, Injected(arrays, OwnTargets(n, credentials))), AUTO_CHOICES)
  }

  function ShownTools(usable: seq<Node<Ref>>, arrays: Arrays, credentials: seq<CredentialType>)
    : (shown: seq<Node<seq<Choice>>>)
    ensures |shown| == |usable|
    ensures forall j :: 0 <= j < |shown| ==> shown[j] == ShownTool(usable[j], arrays, credentials)
  {
    seq(|usable|, j requires 0 <= j < |usable| => ShownTool(usable[j], arrays, credentials))
  }

  // ---------- where the injection reaches ----------

  lemma ToolTargets(u: Node<Ref>, offset: nat, credentials: seq<CredentialType>, f: Ref)
    requires forall r :: r in RefsOf(u) ==> r < offset
    ensures f in OwnTargets(NewTool(u, offset), credentials)
       <==> offset <= f < 2 * offset && f - offset in OwnTargets(u, credentials)
  {
    ToolQualifies<Ref>(Moved(u, offset), 2 * offset, credentials);
    assert Qualifies(NewTool(u, offset), credentials) <==> Qualifies(u, credentials);
    NewToolTargets(u, offset, if f >= offset then f - offset else 0);
    OwnNamesAreRefs(u);
  }

  lemma OwnNamesAreRefs(n: Node<Ref>)
    ensures OwnNames(n) <= RefsOf(n)
  {
  }

  /** A registry that holds the tools of `usable`, all of them grounded. */
  ghost predicate Prepared(base: Registry, reg: Registry, usable: seq<Node<Ref>>) {
    && Bounded(base.arrays, base.next) && AllGrounded(base.nodes, base.arrays)
    && (forall j :: 0 <= j < |usable| ==> Grounded(usable[j], base.arrays))
    && HoldsTools(base, reg, usable)
  }

  lemma ToolsAreGrounded(base: Registry, reg: Registry, usable: seq<Node<Ref>>)
    requires Prepared(base, reg, usable)
    ensures AllGrounded(reg.nodes, reg.arrays)
  {
    forall i | 0 <= i < |reg.nodes| ensures Grounded(reg.nodes[i], reg.arrays) {
      if i < |base.nodes| {
        assert reg.nodes[i] == base.nodes[i] && Grounded(base.nodes[i], base.arrays);
      } else {
        var j := i - |base.nodes|;
        var offset := Offset(base.next, j);
        assert HoldsTool(base, reg, usable[j], reg.nodes[|base.nodes| + j], offset);
        forall f | f in RefsOf(reg.nodes[i]) ensures f in reg.arrays {
          NewToolRefs(usable[j], offset, f);
          if f != 2 * offset {
            assert offset + (f - offset) in reg.arrays;
          }
        }
      }
    }
  }

  /** An array of the loaders is reached exactly if one of the loaders' nodes reaches it. */
  lemma BaseTargets(base: Registry, reg: Registry, usable: seq<Node<Ref>>, r: Ref)
    requires Prepared(base, reg, usable) && r < base.next
    ensures r in Targets(reg.nodes, base.credentials) <==> r in Targets(base.nodes, base.credentials)
  {
    if r in Targets(base.nodes, base.credentials) {
      var i :| 0 <= i < |base.nodes| && r in OwnTargets(base.nodes[i], base.credentials);
      assert reg.nodes[i] == base.nodes[i];
    }
    if r in Targets(reg.nodes, base.credentials) {
      var i :| 0 <= i < |reg.nodes| && r in OwnTargets(reg.nodes[i], base.credentials);
      if i >= |base.nodes| {
        var j := i - |base.nodes|;
        assert HoldsTool(base, reg, usable[j], reg.nodes[|base.nodes| + j], Offset(base.next, j));
        assert Grounded(usable[j], base.arrays);
        ToolTargets(usable[j], Offset(base.next, j), base.credentials, r);
      }
      assert reg.nodes[i] == base.nodes[i];
    }
  }

  /** The references of a tool are reached through no other node. */
  lemma ReachedFromItsTool(base: Registry, reg: Registry, usable: seq<Node<Ref>>, j: nat, i: nat, f: Ref)
    requires Prepared(base, reg, usable) && j < |usable| && i < |reg.nodes|
    requires Offset(base.next, j) <= f <= 2 * Offset(base.next, j)
    requires f in OwnTargets(reg.nodes[i], base.credentials)
    ensures i == |base.nodes| + j
  {
    if i < |base.nodes| {
      ReachedFromBase(base, reg, usable, i, f);
    } else {
      var j' := i - |base.nodes|;
      assert HoldsTool(base, reg, usable[j'], reg.nodes[|base.nodes| + j'], Offset(base.next, j'));
      assert Grounded(usable[j'], base.arrays);
      ToolTargets(usable[j'], Offset(base.next, j'), base.credentials, f);
      if j' < j {
        OffsetGap(base.next, j', j);
      } else if j < j' {
        OffsetGap(base.next, j, j');
      }
    }
  }

  lemma ReachedFromBase(base: Registry, reg: Registry, usable: seq<Node<Ref>>, i: nat, f: Ref)
    requires Prepared(base, reg, usable) && i < |base.nodes|
    requires f in OwnTargets(reg.nodes[i], base.credentials)
    ensures f < base.next
  {
    assert reg.nodes[i] == base.nodes[i] && Grounded(base.nodes[i], base.arrays);
    OwnNamesAreRefs(base.nodes[i]);
    assert f in base.arrays;
  }

  /** An array of the j-th tool is reached exactly if its node reaches the array it was copied from. */
  lemma TargetsInTool(base: Registry, reg: Registry, usable: seq<Node<Ref>>, j: nat, f: Ref)
    requires Prepared(base, reg, usable) && j < |usable|
    requires Offset(base.next, j) <= f <= 2 * Offset(base.next, j)
    ensures f in Targets(reg.nodes, base.credentials)
       <==> f < 2 * Offset(base.next, j) && f - Offset(base.next, j) in OwnTargets(usable[j], base.credentials)
  {
    var offset := Offset(base.next, j);
    assert HoldsTool(base, reg, usable[j], reg.nodes[|base.nodes| + j], offset);
    assert Grounded(usable[j], base.arrays);
    ToolTargets(usable[j], offset, base.credentials, f);
    if f in Targets(reg.nodes, base.credentials) {
      var i :| 0 <= i < |reg.nodes| && f in OwnTargets(reg.nodes[i], base.credentials);
      ReachedFromItsTool(base, reg, usable, j, i, f);
    }
  }

  // ---------- refinement ----------

  lemma ToolShows(base: Registry, reg: Registry, usable: seq<Node<Ref>>, j: nat)
    requires Prepared(base, reg, usable) && j < |usable|
    ensures Read(reg.nodes[|base.nodes| + j], Injected(reg.arrays, Targets(reg.nodes, base.credentials)))
         == ShownTool(usable[j], base.arrays, base.credentials)
  {
    var u, tool, offset := usable[j], reg.nodes[|base.nodes| + j], Offset(base.next, j);
    var after := Injected(reg.arrays, Targets(reg.nodes, base.credentials));
    var own := Injected(base.arrays, OwnTargets(u, base.credentials));
    assert HoldsTool(base, reg, u, tool, offset);
    TargetsInTool(base, reg, usable, j, 2 * offset);
    assert At(after, 2 * offset) == AUTO_CHOICES;
    ReadOfTool(Moved(u, offset), 2 * offset, after);
    forall r | r in RefsOf(u) ensures At(after, offset + r) == At(own, r) {
      assert Grounded(u, base.arrays) && r in base.arrays;
      TargetsInTool(base, reg, usable, j, offset + r);
    }
    ReadOfMoved(u, offset, own, after);
  }

  lemma BaseNodeShows(base: Registry, reg: Registry, usable: seq<Node<Ref>>, i: nat)
    requires Prepared(base, reg, usable) && i < |base.nodes|
    ensures Read(reg.nodes[i], Injected(reg.arrays, Targets(reg.nodes, base.credentials)))
         == Read(base.nodes[i], Injected(base.arrays, Targets(base.nodes, base.credentials)))
  {
    var n := base.nodes[i];
    assert reg.nodes[i] == n && Grounded(n, base.arrays);
    var after := Injected(reg.arrays, Targets(reg.nodes, base.credentials));
    var before := Injected(base.arrays, Targets(base.nodes, base.credentials));
    forall r | r in RefsOf(n) ensures At(after, r) == At(before, r) {
      BaseTargets(base, reg, usable, r);
    }
    SameRead(n, after, before);
  }

  lemma SameRead(n: Node<Ref>, a: Arrays, b: Arrays)
    requires forall r :: r in RefsOf(n) ==> At(a, r) == At(b, r)
    ensures Read(n, a) == Read(n, b)
  {
    if n.properties.Some? {
      var own := n.properties.value;
      forall i | 0 <= i < |own| ensures ReadProperty(own[i], a) == ReadProperty(own[i], b) {
        if own[i].options.Some? {
          assert own[i].options.value in RefsOf(n);
        }
      }
      assert ReadProperties(own, a) == ReadProperties(own, b);
    }
  }

  lemma Prepares(arrays: Arrays, next: Ref, loaders: seq<Loader>)
    requires Ready(arrays, next, loaders)
    ensures var base := Collected(arrays, next, loaders);
            && base.nodes == BaseNodes(loaders) && base.credentials == Credentials(loaders)
            && base.arrays == arrays && base.next == next
            && Prepared(base, Tooled(arrays, next, loaders), Usable(base.nodes))
  {
    CollectedIgnoresArrays(arrays, next, loaders);
    var base := Collected(arrays, next, loaders);
    var usable := Usable(base.nodes);
    forall j | 0 <= j < |usable| ensures Grounded(usable[j], arrays) {
      assert usable[j] in usable;
      var i :| 0 <= i < |base.nodes| && base.nodes[i] == usable[j];
    }
    ToolsAreHeld(base, usable);
  }

  lemma RebuildInjects(arrays: Arrays, next: Ref, loaders: seq<Loader>)
    requires Ready(arrays, next, loaders)
    ensures var (reg, completed) := Rebuilt(arrays, next, loaders);
            var tooled := Tooled(arrays, next, loaders);
            && reg.nodes == tooled.nodes && reg.next == tooled.next && tooled.credentials == Credentials(loaders)
            && (completed <==> Injectable(tooled.arrays, tooled.nodes, tooled.credentials))
            && (completed ==> reg.arrays == Injected(tooled.arrays, Targets(tooled.nodes, tooled.credentials)))
  {
    Prepares(arrays, next, loaders);
    var base, tooled := Collected(arrays, next, loaders), Tooled(arrays, next, loaders);
    ToolsAreGrounded(base, tooled, Usable(base.nodes));
    InjectNodesIs(tooled.arrays, tooled.nodes, tooled.credentials);
  }

  lemma PreparedShows(base: Registry, tooled: Registry, usable: seq<Node<Ref>>, i: nat)
    requires Prepared(base, tooled, usable) && i < |tooled.nodes|
    ensures Read(tooled.nodes[i], Injected(tooled.arrays, Targets(tooled.nodes, base.credentials)))
         == if i < |base.nodes|
            then Read(base.nodes[i], Injected(base.arrays, Targets(base.nodes, base.credentials)))
            else ShownTool(usable[i - |base.nodes|], base.arrays, base.credentials)
  {
    if i < |base.nodes| {
      BaseNodeShows(base, tooled, usable, i);
    } else {
      ToolShows(base, tooled, usable, i - |base.nodes|);
    }
  }

  lemma PreparedShowsAll(base: Registry, tooled: Registry)
    requires Prepared(base, tooled, Usable(base.nodes))
    ensures ReadAll(tooled.nodes, Injected(tooled.arrays, Targets(tooled.nodes, base.credentials)))
         == ShownWith(base.nodes, base.arrays, base.credentials)
  {
    var read := ReadAll(tooled.nodes, Injected(tooled.arrays, Targets(tooled.nodes, base.credentials)));
    var shown := ShownWith(base.nodes, base.arrays, base.credentials);
    assert |read| == |shown|;
    forall i | 0 <= i < |tooled.nodes| ensures read[i] == shown[i] {
      PreparedShows(base, tooled, Usable(base.nodes), i);
    }
  }

  /** A rebuild that comes to its end shows what the simple form shows. */
  lemma RebuildShows(arrays: Arrays, next: Ref, loaders: seq<Loader>)
    requires Ready(arrays, next, loaders) && Rebuilt(arrays, next, loaders).1
    ensures var reg := Rebuilt(arrays, next, loaders).0;
            ReadAll(reg.nodes, reg.arrays) == Shown(loaders, arrays)
  {
    Prepares(arrays, next, loaders);
    RebuildInjects(arrays, next, loaders);
    PreparedShowsAll(Collected(arrays, next, loaders), Tooled(arrays, next, loaders));
  }

  /** It leaves the arrays of the loaders with the option pushed once into each one that a
      qualifying node of the loaders reaches, and ready for the next rebuild. */
  lemma RebuildLeaves(arrays: Arrays, next: Ref, loaders: seq<Loader>)
    requires Ready(arrays, next, loaders) && Rebuilt(arrays, next, loaders).1
    ensures var reg := Rebuilt(arrays, next, loaders).0;
            && Ready(reg.arrays, reg.next, loaders)
            && forall r :: r in arrays ==>
                 r in reg.arrays
                 && reg.arrays[r] == Injected(arrays, Targets(BaseNodes(loaders), Credentials(loaders)))[r]
  {
    Prepares(arrays, next, loaders);
    RebuildInjects(arrays, next, loaders);
    var base, tooled := Collected(arrays, next, loaders), Tooled(arrays, next, loaders);
    var reg := Rebuilt(arrays, next, loaders).0;
    forall r | r in arrays
      ensures r in reg.arrays && reg.arrays[r] == Injected(arrays, Targets(base.nodes, base.credentials))[r]
    {
      BaseTargets(base, tooled, Usable(base.nodes), r);
    }
    forall i | 0 <= i < |base.nodes| ensures Grounded(base.nodes[i], reg.arrays) {
      assert Grounded(base.nodes[i], arrays);
    }
  }
}
