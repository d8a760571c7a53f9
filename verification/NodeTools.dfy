/** The tools made from the nodes that are usable as tools, and who supports them. */
module NodeTools {
  import opened Options
  import opened NodeDescriptions
  import opened NodeInjection
  import opened NodeRegistry
  import opened NodeRebuild

  function ToolName(n: Node<Ref>): string {
    if n.properties.None? then n.name else n.name + "Tool"
  }

  lemma ToolNameIs(n: Node<Ref>, offset: nat)
    ensures NewTool(n, offset).name == ToolName(n)
  {
  }

  /** The name of a tool that differs from its node's is neither the name of a node made into a
      tool, nor known, nor supported by a credential. */
  ghost predicate FreshNames(base: Registry, usable: seq<Node<Ref>>) {
    forall u :: u in usable && u.properties.Some? ==>
      && (forall v :: v in usable ==> v.name != ToolName(u))
      && (forall k :: k in base.knownCredentials ==> !Supports(base.knownCredentials[k], ToolName(u)))
  }

  ghost predicate IsToolOfSupported(c: KnownCredential, usable: seq<Node<Ref>>, name: string) {
    exists u :: u in usable && u.properties.Some? && ToolName(u) == name && Supports(c, u.name)
  }

  lemma IsToolOfSupportedSnoc(c: KnownCredential, front: seq<Node<Ref>>, n: Node<Ref>, name: string)
    ensures IsToolOfSupported(c, front + [n], name)
       <==> (IsToolOfSupported(c, front, name) || (n.properties.Some? && ToolName(n) == name && Supports(c, n.name)))
  {
    if u :| u in front && u.properties.Some? && ToolName(u) == name && Supports(c, u.name) {
      assert u in front + [n];
    }
    assert n in front + [n];
  }

  lemma SupportAfterOne(before: Registry, n: Node<Ref>, k: string, name: string)
    requires k in before.knownCredentials
    ensures k in WithTool(before, n).knownCredentials
    ensures Supports(WithTool(before, n).knownCredentials[k], name)
       <==> (Supports(before.knownCredentials[k], name)
             || (ToolName(n) == name && Supports(before.knownCredentials[k], n.name)))
  {
    ToolNameIs(n, before.next);
  }

  /** A credential supports what it supported and the tools of the nodes it supports, and nothing else. */
  lemma {:induction false} SupportAfterTools(base: Registry, usable: seq<Node<Ref>>, done: nat, k: string, name: string)
    requires FreshNames(base, usable) && done <= |usable| && k in base.knownCredentials
    ensures k in WithTools(base, usable[..done]).knownCredentials
    ensures Supports(WithTools(base, usable[..done]).knownCredentials[k], name)
       <==> (Supports(base.knownCredentials[k], name)
             || IsToolOfSupported(base.knownCredentials[k], usable[..done], name))
    decreases done
  {
    if done == 0 {
    } else {
      var n, front := usable[done - 1], usable[..done - 1];
      assert usable[..done][..done - 1] == front && usable[..done] == front + [n];
      var c := base.knownCredentials[k];
      SupportAfterTools(base, usable, done - 1, k, name);
      SupportAfterTools(base, usable, done - 1, k, n.name);
      SupportAfterOne(WithTools(base, front), n, k, name);
      IsToolOfSupportedSnoc(c, front, n, name);
      NoToolHasTheName(base, usable, done - 1, n, c);
    }
  }

  lemma NoToolHasTheName(base: Registry, usable: seq<Node<Ref>>, done: nat, n: Node<Ref>, c: KnownCredential)
    requires FreshNames(base, usable) && done <= |usable| && n in usable
    ensures !IsToolOfSupported(c, usable[..done], n.name)
  {
    assert forall u :: u in usable[..done] ==> u in usable;
  }

  /** What one tool leaves recorded: the tool as its node is, or without data; at the end of the nodes that a
      credential supports the tool, if its node is among them; and everything else as it was. */
  lemma OneToolIsRecorded(reg: Registry, n: Node<Ref>)
    ensures var (reg', name) := (WithTool(reg, n), if n.properties.None? then n.name else n.name + "Tool");
            && |reg'.nodes| == |reg.nodes| + 1 && reg'.nodes[..|reg.nodes|] == reg.nodes
            && reg'.nodes[|reg.nodes|].name == name
            && reg'.credentials == reg.credentials
            && reg'.loadedNodes == reg.loadedNodes && reg'.loadedCredentials == reg.loadedCredentials
            && reg'.knownNodes.Keys == reg.knownNodes.Keys + {name}
            && (forall k :: k in reg.knownNodes && k != name ==> reg'.knownNodes[k] == reg.knownNodes[k])
            && reg'.knownNodes[name] == (if n.name in reg.knownNodes then reg.knownNodes[n.name] else None)
            && reg'.knownCredentials.Keys == reg.knownCredentials.Keys
            && (forall k :: k in reg.knownCredentials ==>
                  var c := reg.knownCredentials[k];
                  reg'.knownCredentials[k]
                  == if c.supportedNodes.Some? && n.name in c.supportedNodes.value
                     then c.(supportedNodes := Some(c.supportedNodes.value + [name])) else c)
  {
    ToolNameIs(n, reg.next);
  }

  /** For each node made into a tool, a credential supports the tool if and only if it supports the node. */
  lemma ToolSupportedExactlyWhen(base: Registry, usable: seq<Node<Ref>>, n: Node<Ref>, k: string)
    requires FreshNames(base, usable) && n in usable && k in base.knownCredentials
    ensures k in WithTools(base, usable).knownCredentials
    ensures Supports(WithTools(base, usable).knownCredentials[k], ToolName(n))
       <==> Supports(base.knownCredentials[k], n.name)
    ensures Supports(WithTools(base, usable).knownCredentials[k], n.name)
       <==> Supports(base.knownCredentials[k], n.name)
  {
    var c := base.knownCredentials[k];
    assert usable[..|usable|] == usable;
    SupportAfterTools(base, usable, |usable|, k, ToolName(n));
    SupportAfterTools(base, usable, |usable|, k, n.name);
    assert !IsToolOfSupported(c, usable, n.name);
    if n.properties.Some? {
      if u :| u in usable && u.properties.Some? && ToolName(u) == ToolName(n) && Supports(c, u.name) {
        SameSuffix(u.name, n.name, "Tool");
      }
    }
  }

  lemma SameSuffix(a: string, b: string, suffix: string)
    requires a + suffix == b + suffix
    ensures a == b
  {
    assert |a| == |b|;
    assert a == (a + suffix)[..|a|] && b == (b + suffix)[..|b|];
  }

  /** A tool is recorded as its node is: with the same data, or without any. */
  lemma {:induction false} ToolsAreKnown(base: Registry, usable: seq<Node<Ref>>, done: nat)
    requires FreshNames(base, usable) && done <= |usable|
    ensures forall u :: u in usable && u.name in base.knownNodes ==>
              u.name in WithTools(base, usable[..done]).knownNodes
              && WithTools(base, usable[..done]).knownNodes[u.name] == base.knownNodes[u.name]
    ensures forall u :: u in usable[..done] && u.name in base.knownNodes ==>
              ToolName(u) in WithTools(base, usable[..done]).knownNodes
              && WithTools(base, usable[..done]).knownNodes[ToolName(u)] == base.knownNodes[u.name]
    decreases done
  {
    if done == 0 {
    } else {
      var n, front := usable[done - 1], usable[..done - 1];
      ToolsAreKnown(base, usable, done - 1);
      assert usable[..done][..done - 1] == front && usable[..done] == front + [n];
      var before, after := WithTools(base, front), WithTools(base, usable[..done]);
      ToolNameIs(n, before.next);
      assert n in usable;
      forall u | u in usable && u.name in base.knownNodes
        ensures u.name in after.knownNodes && after.knownNodes[u.name] == base.knownNodes[u.name]
      {
      }
      forall u | u in usable[..done] && u.name in base.knownNodes
        ensures ToolName(u) in after.knownNodes && after.knownNodes[ToolName(u)] == base.knownNodes[u.name]
      {
        assert u in usable && (u == n || u in front);
        if ToolName(u) == ToolName(n) {
          SameToolSameName(base, usable, u, n);
        }
      }
    }
  }

  lemma SameToolSameName(base: Registry, usable: seq<Node<Ref>>, u: Node<Ref>, n: Node<Ref>)
    requires FreshNames(base, usable) && u in usable && n in usable && ToolName(u) == ToolName(n)
    ensures u.name == n.name
  {
    if u.properties.Some? && n.properties.Some? {
      SameSuffix(u.name, n.name, "Tool");
    }
  }

  lemma ToolReadsAs(base: Registry, reg: Registry, usable: seq<Node<Ref>>, j: nat)
    requires Prepared(base, reg, usable) && j < |usable|
    ensures Read(reg.nodes[|base.nodes| + j], reg.arrays) == ToolOf(Read(usable[j], base.arrays), AUTO_CHOICES)
  {
    var offset := Offset(base.next, j);
    assert HoldsTool(base, reg, usable[j], reg.nodes[|base.nodes| + j], offset);
    ReadOfTool(Moved(usable[j], offset), 2 * offset, reg.arrays);
    ReadOfMoved(usable[j], offset, base.arrays, reg.arrays);
  }

  lemma BaseReadsAs(base: Registry, reg: Registry, usable: seq<Node<Ref>>, i: nat)
    requires Prepared(base, reg, usable) && i < |base.nodes|
    ensures Read(reg.nodes[i], reg.arrays) == Read(base.nodes[i], base.arrays)
  {
    assert reg.nodes[i] == base.nodes[i] && Grounded(base.nodes[i], base.arrays);
    SameRead(base.nodes[i], reg.arrays, base.arrays);
  }

  /** Making the tools changes no description that was there, and appends exactly one tool, in
      order, for each node usable as a tool: this is what any position holds afterwards. */
  lemma ToolsAreAppended(base: Registry, reg: Registry, usable: seq<Node<Ref>>, i: nat)
    requires Prepared(base, reg, usable) && i < |reg.nodes|
    ensures |reg.nodes| == |base.nodes| + |usable|
    ensures Read(reg.nodes[i], reg.arrays)
         == if i < |base.nodes| then Read(base.nodes[i], base.arrays)
            else ToolOf(Read(usable[i - |base.nodes|], base.arrays), AUTO_CHOICES)
  {
    if i < |base.nodes| {
      BaseReadsAs(base, reg, usable, i);
    } else {
      ToolReadsAs(base, reg, usable, i - |base.nodes|);
    }
  }
}
