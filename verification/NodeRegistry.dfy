/** The registry of nodes and credentials, rebuilt from the loaders each time they change. */
module NodeRegistry {
  import opened Options
  import opened NodeDescriptions
  import opened NodeInjection

  datatype KnownNode = KnownNode(className: string, sourcePath: string)

  datatype KnownCredential = KnownCredential(
    className: string,
    sourcePath: string,
    supportedNodes: Option<seq<string>>,
    parents: Option<seq<string>>)

  /** `isPackage`: the loader of a package, and not of a directory of custom nodes. */
  datatype Loader = Loader(
    packageName: string,
    isPackage: bool,
    directory: string,
    nodes: seq<Node<Ref>>,
    credentials: seq<CredentialType>,
    knownNodes: map<string, KnownNode>,
    knownCredentials: map<string, KnownCredential>,
    loadedNodes: map<string, string>,
    loadedCredentials: map<string, string>)

  /** `next` is above every reference in use. A known node may be recorded without data. */
  datatype Registry = Registry(
    arrays: Arrays,
    next: Ref,
    nodes: seq<Node<Ref>>,
    credentials: seq<CredentialType>,
    knownNodes: map<string, Option<KnownNode>>,
    knownCredentials: map<string, KnownCredential>,
    loadedNodes: map<string, string>,
    loadedCredentials: map<string, string>)

  // ---------- collecting from the loaders ----------

  function Qualified(l: Loader, name: string): string {
    l.packageName + "." + name
  }

  function Joined(directory: string, path: string): string {
    directory + "/" + path
  }

  function QualifiedNames(l: Loader, names: Option<seq<string>>): Option<seq<string>> {
    if l.isPackage && names.Some?
    then Some(seq(|names.value|, i requires 0 <= i < |names.value| => Qualified(l, names.value[i])))
    else None
  }

  function NodesOf(l: Loader): seq<Node<Ref>> {
    seq(|l.nodes|, i requires 0 <= i < |l.nodes| => l.nodes[i].(name := Qualified(l, l.nodes[i].name)))
  }

  function CredentialsOf(l: Loader): seq<CredentialType> {
    seq(|l.credentials|, i requires 0 <= i < |l.credentials| =>
      l.credentials[i].(supportedNodes := QualifiedNames(l, l.credentials[i].supportedNodes)))
  }

  function QualifiedKeys<V>(l: Loader, m: map<string, V>): map<string, V> {
    map k | k in QualifiedSet(l, m.Keys) :: m[k[|l.packageName| + 1..]]
  }

  function QualifiedSet(l: Loader, names: set<string>): (qualified: set<string>)
    ensures forall k :: k in qualified ==> |k| > |l.packageName| && k[|l.packageName| + 1..] in names
  {
    set t | t in names :: Qualified(l, t)
  }

  /** Each entry stands under its qualified name, and nothing else does. */
  lemma QualifiedKeysHold<V>(l: Loader, m: map<string, V>, t: string)
    ensures Qualified(l, t) in QualifiedKeys(l, m) <==> t in m
    ensures t in m ==> QualifiedKeys(l, m)[Qualified(l, t)] == m[t]
    ensures forall k :: k in QualifiedKeys(l, m) ==> exists u :: u in m && k == Qualified(l, u)
  {
    assert Qualified(l, t)[|l.packageName| + 1..] == t;
  }

  function KnownNodesOf(l: Loader): map<string, Option<KnownNode>> {
    var located := map t | t in l.knownNodes ::
      Some(KnownNode(l.knownNodes[t].className, Joined(l.directory, l.knownNodes[t].sourcePath)));
    QualifiedKeys(l, located)
  }

  function KnownCredentialsOf(l: Loader): map<string, KnownCredential> {
    map t | t in l.knownCredentials ::
      var c := l.knownCredentials[t];
      KnownCredential(c.className, Joined(l.directory, c.sourcePath), QualifiedNames(l, c.supportedNodes), c.parents)
  }

  function Collected(arrays: Arrays, next: Ref, loaders: seq<Loader>): Registry {
    if loaders == [] then Registry(arrays, next, [], [], map[], map[], map[], map[])
    else
      var before, l := Collected(arrays, next, loaders[..|loaders| - 1]), loaders[|loaders| - 1];
      Registry(arrays, next,
               before.nodes + NodesOf(l),
               before.credentials + CredentialsOf(l),
               before.knownNodes + KnownNodesOf(l),
               before.knownCredentials + KnownCredentialsOf(l),
               before.loadedNodes + QualifiedKeys(l, l.loadedNodes),
               before.loadedCredentials + l.loadedCredentials)
  }

  // ---------- tools ----------

  predicate IsUsable(n: Node<Ref>) {
    n.usableAsTool == Some(true)
  }

  function Usable(nodes: seq<Node<Ref>>): (usable: seq<Node<Ref>>)
    ensures forall n :: n in usable <==> n in nodes && IsUsable(n)
  {
    if nodes == [] then []
    else
      var front, last := nodes[..|nodes| - 1], nodes[|nodes| - 1];
      assert nodes == front + [last];
      Usable(front) + if IsUsable(last) then [last] else []
  }

  /** They are the nodes marked so, each as often as it stands there, in their order. */
  lemma {:induction false} UsableInOrder(a: seq<Node<Ref>>, b: seq<Node<Ref>>)
    ensures Usable(a + b) == Usable(a) + Usable(b)
    decreases |b|
  {
    if b == [] {
      assert a + b == a;
    } else {
      var m := |b| - 1;
      UsableInOrder(a, b[..m]);
      assert (a + b)[..|a + b| - 1] == a + b[..m];
    }
  }

  lemma UsableOfOne(n: Node<Ref>)
    ensures Usable([n]) == if n.usableAsTool == Some(true) then [n] else []
  {
    assert [n][..0] == [];
  }

  function Supports(c: KnownCredential, node: string): bool {
    c.supportedNodes.Some? && node in c.supportedNodes.value
  }

  function WithSupport(c: KnownCredential, node: string, tool: string): KnownCredential {
    if Supports(c, node) then c.(supportedNodes := Some(c.supportedNodes.value + [tool])) else c
  }

  /** The tool of `n` with new references: those of the copy, and one for the array it adds. */
  function NewTool(n: Node<Ref>, offset: nat): Node<Ref> {
    ToolOf<Ref>(Moved(n, offset), 2 * offset)
  }

  /** One tool is made from a copy of `n`, recorded as `n` is, and supported wherever `n` is. */
  function WithTool(reg: Registry, n: Node<Ref>): Registry {
    var tool := NewTool(n, reg.next);
    reg.(arrays := ExtendedArrays(reg.arrays, reg.next, RefsOf(n)),
         next := 2 * reg.next + 1,
         nodes := reg.nodes + [tool],
         knownNodes := reg.knownNodes[tool.name := if n.name in reg.knownNodes then reg.knownNodes[n.name] else None],
         knownCredentials :=
           map k | k in reg.knownCredentials :: WithSupport(reg.knownCredentials[k], n.name, tool.name))
  }

  function WithTools(reg: Registry, usable: seq<Node<Ref>>): Registry {
    if usable == [] then reg else WithTool(WithTools(reg, usable[..|usable| - 1]), usable[|usable| - 1])
  }

  // ---------- one rebuild ----------

  function Tooled(arrays: Arrays, next: Ref, loaders: seq<Loader>): Registry {
    var base := Collected(arrays, next, loaders);
    WithTools(base, Usable(base.nodes))
  }

  /** The registry after a rebuild, and whether it came to its end. */
  function Rebuilt(arrays: Arrays, next: Ref, loaders: seq<Loader>): (Registry, bool) {
    var reg := Tooled(arrays, next, loaders);
    var (arrays', completed) := InjectNodes(reg.arrays, reg.nodes, reg.credentials);
    (reg.(arrays := arrays'), completed)
  }

  /** The nodes as the loaders give them, before any tool. */
  function BaseNodes(loaders: seq<Loader>): seq<Node<Ref>> {
    Collected(map[], 0, loaders).nodes
  }

  function Credentials(loaders: seq<Loader>): seq<CredentialType> {
    Collected(map[], 0, loaders).credentials
  }

  lemma {:induction false} CollectedIgnoresArrays(arrays: Arrays, next: Ref, loaders: seq<Loader>)
    ensures Collected(arrays, next, loaders) == Collected(map[], 0, loaders).(arrays := arrays, next := next)
  {
    if loaders == [] {
    } else {
      CollectedIgnoresArrays(arrays, next, loaders[..|loaders| - 1]);
    }
  }

  // ---------- what the tools read ----------

  ghost predicate Bounded(arrays: Arrays, next: Ref) {
    forall r :: r in arrays ==> r < next
  }

  /** The new tool refers to the copied arrays and the added one. */
  lemma NewToolRefs(n: Node<Ref>, offset: nat, r: Ref)
    requires r in RefsOf(NewTool(n, offset))
    ensures r == 2 * offset || (r >= offset && r - offset in RefsOf(n))
  {
    if n.properties.Some? {
      var own := n.properties.value;
      var moved := MovedProperties(own, offset);
      var prefix := ToolPrefix<Ref>(moved, n.description, 2 * offset);
      var all := prefix + moved;
      assert NewTool(n, offset).properties.value == all;
      var i :| 0 <= i < |all| && all[i].options.Some? && all[i].options.value == r;
      if i >= |prefix| {
        var k := i - |prefix|;
        assert all[i] == moved[k] && own[k].options.Some? && r == offset + own[k].options.value;
      }
    }
  }

  /** Its resource and operation parameters are the copies of those of the node. */
  lemma NewToolTargets(n: Node<Ref>, offset: nat, r: Ref)
    ensures offset + r in OwnNames(NewTool(n, offset)) <==> r in OwnNames(n)
    ensures forall f :: f in OwnNames(NewTool(n, offset)) ==> f >= offset
  {
    if n.properties.Some? {
      var own := n.properties.value;
      var moved := MovedProperties(own, offset);
      var prefix := ToolPrefix<Ref>(moved, n.description, 2 * offset);
      var all := prefix + moved;
      assert NewTool(n, offset).properties.value == all;
      assert forall i :: 0 <= i < |prefix| ==> !IsTarget(all[i]);
      forall i | 0 <= i < |all| && IsTarget(all[i])
        ensures i >= |prefix| && IsTarget(own[i - |prefix|])
             && all[i].options.value == offset + own[i - |prefix|].options.value
      {
        assert i >= |prefix| && all[i] == moved[i - |prefix|];
      }
      if i :| 0 <= i < |own| && IsTarget(own[i]) && own[i].options.value == r {
        assert all[|prefix| + i] == moved[i] && IsTarget(all[|prefix| + i]);
      }
    }
  }

  /** The arrays that resource and operation parameters of the node refer to. */
  function OwnNames(n: Node<Ref>): set<Ref> {
    if n.properties.Some? then PropertyTargets(n.properties.value) else {}
  }

  /** Where the references of the j-th tool start. */
  function Offset(start: nat, j: nat): (o: nat)
    ensures o >= start
  {
    if j == 0 then start else 2 * Offset(start, j - 1) + 1
  }

  /** The references of one tool lie below those of the next. */
  lemma {:induction false} OffsetGap(start: nat, i: nat, j: nat)
    requires i < j
    ensures 2 * Offset(start, i) < Offset(start, j)
    decreases j
  {
    if i < j - 1 {
      OffsetGap(start, i, j - 1);
    }
  }

  ghost predicate HoldsTool(base: Registry, reg: Registry, n: Node<Ref>, tool: Node<Ref>, offset: nat) {
    && tool == NewTool(n, offset)
    && (2 * offset in reg.arrays && reg.arrays[2 * offset] == AUTO_CHOICES)
    && forall r :: r in RefsOf(n) ==> offset + r in reg.arrays && reg.arrays[offset + r] == At(base.arrays, r)
  }

  ghost predicate HoldsTools(base: Registry, reg: Registry, usable: seq<Node<Ref>>) {
    && |reg.nodes| == |base.nodes| + |usable| && reg.nodes[..|base.nodes|] == base.nodes
    && reg.next == Offset(base.next, |usable|) && Bounded(reg.arrays, reg.next)
    && (forall r :: r in base.arrays ==> r in reg.arrays && reg.arrays[r] == base.arrays[r])
    && reg.credentials == base.credentials
    && forall j :: 0 <= j < |usable| ==>
         HoldsTool(base, reg, usable[j], reg.nodes[|base.nodes| + j], Offset(base.next, j))
  }

  function ExtendedArrays(arrays: Arrays, next: Ref, refs: set<Ref>): Arrays {
    arrays + MovedArrays(arrays, refs, next) + map[2 * next := AUTO_CHOICES]
  }

  /** New arrays lie above all old ones, so nothing that was there changes. */
  lemma ExtendedAt(arrays: Arrays, next: Ref, refs: set<Ref>, f: Ref)
    requires Bounded(arrays, next) && refs <= arrays.Keys
    ensures f in ExtendedArrays(arrays, next, refs) ==> f <= 2 * next
    ensures f in arrays ==>
      f in ExtendedArrays(arrays, next, refs) && ExtendedArrays(arrays, next, refs)[f] == arrays[f]
    ensures f in refs ==> next + f in ExtendedArrays(arrays, next, refs)
    ensures f in refs ==> ExtendedArrays(arrays, next, refs)[next + f] == At(arrays, f)
  {
    var moved := MovedArrays(arrays, refs, next);
    if f in moved {
      var r :| r in refs && f == next + r;
      assert r in arrays;
    }
    if f in refs {
      assert f in arrays && f < next;
      MovedArraysAt(arrays, refs, next, f);
    }
  }

  lemma WithToolExtends(reg: Registry, n: Node<Ref>)
    requires Bounded(reg.arrays, reg.next) && Grounded(n, reg.arrays)
    ensures var arrays' := WithTool(reg, n).arrays;
            && Bounded(arrays', 2 * reg.next + 1)
            && (forall r :: r in reg.arrays ==> r in arrays' && arrays'[r] == reg.arrays[r])
            && 2 * reg.next in arrays' && arrays'[2 * reg.next] == AUTO_CHOICES
            && (forall r :: r in RefsOf(n) ==> reg.next + r in arrays' && arrays'[reg.next + r] == At(reg.arrays, r))
  {
    var arrays' := ExtendedArrays(reg.arrays, reg.next, RefsOf(n));
    assert WithTool(reg, n).arrays == arrays';
    forall f: Ref ensures f in arrays' ==> f <= 2 * reg.next {
      ExtendedAt(reg.arrays, reg.next, RefsOf(n), f);
    }
    forall r | r in reg.arrays ensures r in arrays' && arrays'[r] == reg.arrays[r] {
      ExtendedAt(reg.arrays, reg.next, RefsOf(n), r);
    }
    forall r | r in RefsOf(n) ensures reg.next + r in arrays' && arrays'[reg.next + r] == At(reg.arrays, r) {
      ExtendedAt(reg.arrays, reg.next, RefsOf(n), r);
    }
  }

  lemma StillHolds(base: Registry, before: Registry, n: Node<Ref>, u: Node<Ref>, tool: Node<Ref>, offset: nat)
    requires Bounded(before.arrays, before.next) && Grounded(n, before.arrays)
    requires HoldsTool(base, before, u, tool, offset)
    ensures HoldsTool(base, WithTool(before, n), u, tool, offset)
  {
    WithToolExtends(before, n);
  }

  lemma HoldsNew(base: Registry, before: Registry, n: Node<Ref>)
    requires Bounded(before.arrays, before.next) && Grounded(n, base.arrays)
    requires forall r :: r in base.arrays ==> r in before.arrays && before.arrays[r] == base.arrays[r]
    ensures HoldsTool(base, WithTool(before, n), n, NewTool(n, before.next), before.next)
  {
    WithToolExtends(before, n);
    forall r | r in RefsOf(n) ensures At(before.arrays, r) == At(base.arrays, r) {
      assert r in base.arrays;
    }
  }

  lemma {:induction false} ToolsAreHeld(base: Registry, usable: seq<Node<Ref>>)
    requires Bounded(base.arrays, base.next)
    requires forall j :: 0 <= j < |usable| ==> Grounded(usable[j], base.arrays)
    ensures HoldsTools(base, WithTools(base, usable), usable)
    decreases |usable|
  {
    if usable == [] {
    } else {
      var m := |usable| - 1;
      var before, n := WithTools(base, usable[..m]), usable[m];
      ToolsAreHeld(base, usable[..m]);
      assert Grounded(n, base.arrays);
      WithToolExtends(before, n);
      var reg := WithTool(before, n);
      forall j | 0 <= j < |usable|
        ensures HoldsTool(base, reg, usable[j], reg.nodes[|base.nodes| + j], Offset(base.next, j))
      {
        if j < m {
          assert usable[..m][j] == usable[j] && reg.nodes[|base.nodes| + j] == before.nodes[|base.nodes| + j];
          StillHolds(base, before, n, usable[j], before.nodes[|base.nodes| + j], Offset(base.next, j));
        } else {
          HoldsNew(base, before, n);
        }
      }
    }
  }
}
