/** Rebuilding the registry again and again from the same loaders. */
module NodeRebuildAgain {
  import opened Options
  import opened NodeDescriptions
  import opened NodeInjection
  import opened NodeRegistry
  import opened NodeRebuild

  function LoaderTargets(loaders: seq<Loader>): set<Ref> {
    Targets(BaseNodes(loaders), Credentials(loaders))
  }

  // ---------- completion ----------

  lemma OwnTargetsOfUsable(loaders: seq<Loader>, n: Node<Ref>)
    requires n in BaseNodes(loaders)
    ensures OwnTargets(n, Credentials(loaders)) <= LoaderTargets(loaders)
  {
    var base := BaseNodes(loaders);
    var i :| 0 <= i < |base| && base[i] == n;
  }

  /** Making the tools neither adds nor removes a reason to throw. */
  lemma TooledThrowsFor(base: Registry, tooled: Registry)
    requires Prepared(base, tooled, Usable(base.nodes))
    requires Injectable(tooled.arrays, tooled.nodes, base.credentials)
    ensures Injectable(base.arrays, base.nodes, base.credentials)
  {
    forall r | r in Targets(base.nodes, base.credentials) ensures At(base.arrays, r) != [] {
      var i :| 0 <= i < |base.nodes| && r in OwnTargets(base.nodes[i], base.credentials);
      OwnNamesAreRefs(base.nodes[i]);
      assert Grounded(base.nodes[i], base.arrays) && r in base.arrays;
      BaseTargets(base, tooled, Usable(base.nodes), r);
    }
    forall i | 0 <= i < |base.nodes| && Qualifies(base.nodes[i], base.credentials)
      ensures base.nodes[i].properties.Some?
    {
      assert tooled.nodes[i] == base.nodes[i];
    }
  }

  lemma TooledThrowsOnlyFor(base: Registry, tooled: Registry)
    requires Prepared(base, tooled, Usable(base.nodes))
    requires Injectable(base.arrays, base.nodes, base.credentials)
    ensures Injectable(tooled.arrays, tooled.nodes, base.credentials)
  {
    forall f | f in Targets(tooled.nodes, base.credentials) ensures At(tooled.arrays, f) != [] {
      TargetIsFilled(base, tooled, f);
    }
    forall i | 0 <= i < |tooled.nodes| && Qualifies(tooled.nodes[i], base.credentials)
      ensures tooled.nodes[i].properties.Some?
    {
      QualifyingHasProperties(base, tooled, i);
    }
  }

  /** A rebuild comes to its end exactly if no qualifying node of the loaders lacks parameters or
      has a resource or operation parameter with an empty options array. */
  lemma RebuildCompletesExactlyWhen(arrays: Arrays, next: Ref, loaders: seq<Loader>)
    requires Ready(arrays, next, loaders)
    ensures Rebuilt(arrays, next, loaders).1 <==> Injectable(arrays, BaseNodes(loaders), Credentials(loaders))
  {
    Prepares(arrays, next, loaders);
    RebuildInjects(arrays, next, loaders);
    var base, tooled := Collected(arrays, next, loaders), Tooled(arrays, next, loaders);
    if Injectable(arrays, base.nodes, base.credentials) {
      TooledThrowsOnlyFor(base, tooled);
    }
    if Injectable(tooled.arrays, tooled.nodes, base.credentials) {
      TooledThrowsFor(base, tooled);
    }
  }

  lemma TargetIsFilled(base: Registry, tooled: Registry, f: Ref)
    requires Prepared(base, tooled, Usable(base.nodes))
    requires NoneEmpty(base.arrays, Targets(base.nodes, base.credentials))
    requires f in Targets(tooled.nodes, base.credentials)
    ensures At(tooled.arrays, f) != []
  {
    var i :| 0 <= i < |tooled.nodes| && f in OwnTargets(tooled.nodes[i], base.credentials);
    if i < |base.nodes| {
      BaseTargetIsFilled(base, tooled, Usable(base.nodes), i, f);
    } else {
      OwnTargetsAreFilled(base, Usable(base.nodes), i - |base.nodes|);
      ToolTargetIsFilled(base, tooled, Usable(base.nodes), i - |base.nodes|, f);
    }
  }

  lemma OwnTargetsAreFilled(base: Registry, usable: seq<Node<Ref>>, j: nat)
    requires usable == Usable(base.nodes) && j < |usable|
    requires NoneEmpty(base.arrays, Targets(base.nodes, base.credentials))
    ensures NoneEmpty(base.arrays, OwnTargets(usable[j], base.credentials))
  {
    OwnTargetsAreTargets(base, usable[j]);
  }

  lemma BaseTargetIsFilled(base: Registry, tooled: Registry, usable: seq<Node<Ref>>, i: nat, f: Ref)
    requires Prepared(base, tooled, usable) && i < |base.nodes|
    requires NoneEmpty(base.arrays, Targets(base.nodes, base.credentials))
    requires f in OwnTargets(tooled.nodes[i], base.credentials)
    ensures At(tooled.arrays, f) != []
  {
    assert tooled.nodes[i] == base.nodes[i] && Grounded(base.nodes[i], base.arrays);
    OwnNamesAreRefs(base.nodes[i]);
    assert f in Targets(base.nodes, base.credentials) && f in base.arrays;
  }

  lemma ToolTargetIsFilled(base: Registry, tooled: Registry, usable: seq<Node<Ref>>, j: nat, f: Ref)
    requires Prepared(base, tooled, usable) && j < |usable|
    requires NoneEmpty(base.arrays, OwnTargets(usable[j], base.credentials))
    requires f in OwnTargets(tooled.nodes[|base.nodes| + j], base.credentials)
    ensures At(tooled.arrays, f) != []
  {
    var offset := Offset(base.next, j);
    CopiesAreHeld(base, tooled, usable, j);
    CopiedTargetIsFilled(usable[j], offset, base.credentials, base.arrays, tooled.arrays, f);
  }

  lemma CopiesAreHeld(base: Registry, tooled: Registry, usable: seq<Node<Ref>>, j: nat)
    requires Prepared(base, tooled, usable) && j < |usable|
    ensures var (u, offset) := (usable[j], Offset(base.next, j));
            && tooled.nodes[|base.nodes| + j] == NewTool(u, offset)
            && forall r :: r in RefsOf(u) ==>
                 r < offset && offset + r in tooled.arrays && tooled.arrays[offset + r] == At(base.arrays, r)
  {
    assert HoldsTool(base, tooled, usable[j], tooled.nodes[|base.nodes| + j], Offset(base.next, j));
    assert Grounded(usable[j], base.arrays);
  }

  lemma OwnTargetsAreTargets(base: Registry, u: Node<Ref>)
    requires u in Usable(base.nodes)
    ensures OwnTargets(u, base.credentials) <= Targets(base.nodes, base.credentials)
  {
    var i :| 0 <= i < |base.nodes| && base.nodes[i] == u;
  }

  lemma CopiedTargetIsFilled(
    u: Node<Ref>, offset: nat, credentials: seq<CredentialType>, arrays: Arrays, arrays': Arrays, f: Ref)
    requires forall r :: r in RefsOf(u) ==> r < offset && offset + r in arrays' && arrays'[offset + r] == At(arrays, r)
    requires f in OwnTargets(NewTool(u, offset), credentials)
    ensures f >= offset && f - offset in OwnTargets(u, credentials)
    ensures At(arrays', f) == At(arrays, f - offset)
  {
    ToolTargets(u, offset, credentials, f);
    OwnNamesAreRefs(u);
    assert f == offset + (f - offset) && f - offset in RefsOf(u);
  }

  lemma QualifyingHasProperties(base: Registry, tooled: Registry, i: nat)
    requires Prepared(base, tooled, Usable(base.nodes))
    requires Injectable(base.arrays, base.nodes, base.credentials)
    requires i < |tooled.nodes| && Qualifies(tooled.nodes[i], base.credentials)
    ensures tooled.nodes[i].properties.Some?
  {
    if i < |base.nodes| {
      assert tooled.nodes[i] == base.nodes[i];
    } else {
      var j := i - |base.nodes|;
      var u, offset := Usable(base.nodes)[j], Offset(base.next, j);
      assert HoldsTool(base, tooled, u, tooled.nodes[|base.nodes| + j], offset);
      assert u in Usable(base.nodes);
      var k :| 0 <= k < |base.nodes| && base.nodes[k] == u;
      ToolQualifies<Ref>(Moved(u, offset), 2 * offset, base.credentials);
      assert Qualifies(base.nodes[k], base.credentials);
    }
  }

  // ---------- once more ----------

  /** The node holds, beside its own resource and operation parameters, no array into which
      another node has the option pushed. */
  ghost predicate LeaksNothing(loaders: seq<Loader>, arrays: Arrays, n: Node<Ref>) {
    forall r :: r in RefsOf(n) && r in LoaderTargets(loaders) ==>
      r in OwnTargets(n, Credentials(loaders)) || EndsWithCustom(At(arrays, r))
  }

  ghost predicate NothingLeaks(loaders: seq<Loader>, arrays: Arrays) {
    forall n :: n in Usable(BaseNodes(loaders)) ==> LeaksNothing(loaders, arrays, n)
  }

  /** The arrays of the loaders after one rebuild. */
  ghost predicate Follows(arrays: Arrays, arrays': Arrays, loaders: seq<Loader>) {
    forall r :: r in arrays ==> r in arrays' && arrays'[r] == Injected(arrays, LoaderTargets(loaders))[r]
  }

  lemma BaseShowsTheSame(loaders: seq<Loader>, arrays: Arrays, arrays': Arrays, i: nat)
    requires AllGrounded(BaseNodes(loaders), arrays) && Follows(arrays, arrays', loaders)
    requires i < |BaseNodes(loaders)|
    ensures Read(BaseNodes(loaders)[i], Injected(arrays', LoaderTargets(loaders)))
         == Read(BaseNodes(loaders)[i], Injected(arrays, LoaderTargets(loaders)))
  {
    var n := BaseNodes(loaders)[i];
    assert Grounded(n, arrays);
    SameRead(n, Injected(arrays', LoaderTargets(loaders)), Injected(arrays, LoaderTargets(loaders)));
  }

  lemma UsableIsGrounded(loaders: seq<Loader>, arrays: Arrays, n: Node<Ref>)
    requires AllGrounded(BaseNodes(loaders), arrays) && n in Usable(BaseNodes(loaders))
    ensures Grounded(n, arrays)
  {
    var i :| 0 <= i < |BaseNodes(loaders)| && BaseNodes(loaders)[i] == n;
  }

  /** What the copy of one array has become after a rebuild in between. */
  lemma CopySeesExactlyWhen(loaders: seq<Loader>, arrays: Arrays, arrays': Arrays, n: Node<Ref>, r: Ref)
    requires Follows(arrays, arrays', loaders) && n in BaseNodes(loaders)
    requires r in arrays
    ensures At(Injected(arrays', OwnTargets(n, Credentials(loaders))), r)
         == At(Injected(arrays, OwnTargets(n, Credentials(loaders))), r)
       <==> (r in LoaderTargets(loaders) ==> r in OwnTargets(n, Credentials(loaders)) || EndsWithCustom(At(arrays, r)))
  {
    OwnTargetsOfUsable(loaders, n);
    assert |arrays[r] + [CUSTOM_API_CALL]| == |arrays[r]| + 1;
  }

  lemma ToolShowsTheSameExactlyWhen(loaders: seq<Loader>, arrays: Arrays, arrays': Arrays, n: Node<Ref>)
    requires AllGrounded(BaseNodes(loaders), arrays) && Follows(arrays, arrays', loaders)
    requires n in Usable(BaseNodes(loaders))
    ensures ShownTool(n, arrays', Credentials(loaders)) == ShownTool(n, arrays, Credentials(loaders))
       <==> LeaksNothing(loaders, arrays, n)
  {
    var own := OwnTargets(n, Credentials(loaders));
    var a, a' := Injected(arrays, own), Injected(arrays', own);
    UsableIsGrounded(loaders, arrays, n);
    forall r | r in RefsOf(n)
      ensures At(a', r) == At(a, r) <==> (r in LoaderTargets(loaders) ==> r in own || EndsWithCustom(At(arrays, r)))
    {
      CopySeesExactlyWhen(loaders, arrays, arrays', n, r);
    }
    if LeaksNothing(loaders, arrays, n) {
      SameRead(n, a', a);
    } else {
      var r :| r in RefsOf(n) && At(a', r) != At(a, r);
      DifferentTools(n, a', a, r);
    }
  }

  lemma DifferentTools(n: Node<Ref>, a: Arrays, b: Arrays, r: Ref)
    requires r in RefsOf(n) && At(a, r) != At(b, r)
    ensures ToolOf(Read(n, a), AUTO_CHOICES) != ToolOf(Read(n, b), AUTO_CHOICES)
  {
    var own := n.properties.value;
    var k :| 0 <= k < |own| && own[k].options.Some? && own[k].options.value == r;
    var ra, rb := ReadProperties(own, a), ReadProperties(own, b);
    assert ra[k] != rb[k];
    SamePrefix(ra, rb, n.description);
    var prefix := ToolPrefix(ra, n.description, AUTO_CHOICES);
    assert (prefix + ra)[|prefix| + k] != (prefix + rb)[|prefix| + k];
  }

  lemma SamePrefix(a: seq<Property<seq<Choice>>>, b: seq<Property<seq<Choice>>>, description: string)
    requires |a| == |b| && forall i :: 0 <= i < |a| ==> a[i].name == b[i].name
    ensures ToolPrefix(a, description, AUTO_CHOICES) == ToolPrefix(b, description, AUTO_CHOICES)
  {
    forall name ensures HasProperty(a, name) <==> HasProperty(b, name) {
      if i :| 0 <= i < |a| && a[i].name == name { assert b[i].name == name; }
      if i :| 0 <= i < |b| && b[i].name == name { assert a[i].name == name; }
    }
  }

  lemma BaseNodesShowTheSame(loaders: seq<Loader>, arrays: Arrays, arrays': Arrays)
    requires AllGrounded(BaseNodes(loaders), arrays) && Follows(arrays, arrays', loaders)
    ensures ReadAll(BaseNodes(loaders), Injected(arrays', LoaderTargets(loaders)))
         == ReadAll(BaseNodes(loaders), Injected(arrays, LoaderTargets(loaders)))
  {
    forall i | 0 <= i < |BaseNodes(loaders)|
      ensures Read(BaseNodes(loaders)[i], Injected(arrays', LoaderTargets(loaders)))
           == Read(BaseNodes(loaders)[i], Injected(arrays, LoaderTargets(loaders)))
    {
      BaseShowsTheSame(loaders, arrays, arrays', i);
    }
  }

  lemma ToolsShowTheSameExactlyWhen(loaders: seq<Loader>, arrays: Arrays, arrays': Arrays)
    requires AllGrounded(BaseNodes(loaders), arrays) && Follows(arrays, arrays', loaders)
    ensures ShownTools(Usable(BaseNodes(loaders)), arrays', Credentials(loaders))
         == ShownTools(Usable(BaseNodes(loaders)), arrays, Credentials(loaders))
       <==> NothingLeaks(loaders, arrays)
  {
    var usable, credentials := Usable(BaseNodes(loaders)), Credentials(loaders);
    forall n | n in usable
      ensures ShownTool(n, arrays', credentials) == ShownTool(n, arrays, credentials)
         <==> LeaksNothing(loaders, arrays, n)
    {
      ToolShowsTheSameExactlyWhen(loaders, arrays, arrays', n);
    }
    SameToolsExactlyWhen(usable, arrays, arrays', credentials);
  }

  lemma SameToolsExactlyWhen(
    usable: seq<Node<Ref>>, arrays: Arrays, arrays': Arrays, credentials: seq<CredentialType>)
    ensures ShownTools(usable, arrays', credentials) == ShownTools(usable, arrays, credentials)
       <==> forall n :: n in usable ==> ShownTool(n, arrays', credentials) == ShownTool(n, arrays, credentials)
  {
    var t, t' := ShownTools(usable, arrays, credentials), ShownTools(usable, arrays', credentials);
    if t' == t {
      forall n | n in usable ensures ShownTool(n, arrays', credentials) == ShownTool(n, arrays, credentials) {
        var j :| 0 <= j < |usable| && usable[j] == n;
        assert t'[j] == t[j];
      }
    } else {
      var j :| 0 <= j < |usable| && t'[j] != t[j];
      assert usable[j] in usable;
    }
  }

  lemma ShowsTheSameExactlyWhen(loaders: seq<Loader>, arrays: Arrays, arrays': Arrays)
    requires AllGrounded(BaseNodes(loaders), arrays) && Follows(arrays, arrays', loaders)
    ensures Shown(loaders, arrays') == Shown(loaders, arrays) <==> NothingLeaks(loaders, arrays)
  {
    BaseNodesShowTheSame(loaders, arrays, arrays');
    ToolsShowTheSameExactlyWhen(loaders, arrays, arrays');
    var usable := Usable(BaseNodes(loaders));
    var base := ReadAll(BaseNodes(loaders), Injected(arrays, LoaderTargets(loaders)));
    var t, t' := ShownTools(usable, arrays, Credentials(loaders)), ShownTools(usable, arrays', Credentials(loaders));
    assert (base + t)[|base|..] == t && (base + t')[|base|..] == t';
  }

  // ---------- the tables that hold no arrays ----------

  /** Two registries agree on the tables that hold no arrays. */
  ghost predicate SameTables(a: Registry, b: Registry) {
    && a.credentials == b.credentials
    && a.knownNodes == b.knownNodes && a.knownCredentials == b.knownCredentials
    && a.loadedNodes == b.loadedNodes && a.loadedCredentials == b.loadedCredentials
  }

  lemma ToolKeepsSameTables(a: Registry, b: Registry, n: Node<Ref>)
    requires SameTables(a, b)
    ensures SameTables(WithTool(a, n), WithTool(b, n))
  {
    assert NewTool(n, a.next).name == NewTool(n, b.next).name;
  }

  lemma {:induction false} TablesIgnoreArrays(base: Registry, base': Registry, usable: seq<Node<Ref>>)
    requires SameTables(base, base')
    ensures SameTables(WithTools(base, usable), WithTools(base', usable))
    decreases |usable|
  {
    if usable == [] {
    } else {
      var front, n := usable[..|usable| - 1], usable[|usable| - 1];
      TablesIgnoreArrays(base, base', front);
      ToolKeepsSameTables(WithTools(base, front), WithTools(base', front), n);
    }
  }

  /** What a registry shows to its readers. */
  ghost predicate SameView(a: Registry, b: Registry) {
    ReadAll(a.nodes, a.arrays) == ReadAll(b.nodes, b.arrays) && SameTables(a, b)
  }

  /** Rebuilding a second time comes to its end and shows the same as the first time if and only
      if no array of a tool's node is shared with a node that has the option pushed into it. */
  lemma RebuildingTwiceIsOnceExactlyWhen(arrays: Arrays, next: Ref, loaders: seq<Loader>)
    requires Ready(arrays, next, loaders) && Rebuilt(arrays, next, loaders).1
    ensures var first := Rebuilt(arrays, next, loaders).0;
            && Rebuilt(first.arrays, first.next, loaders).1
            && (SameView(Rebuilt(first.arrays, first.next, loaders).0, first) <==> NothingLeaks(loaders, arrays))
  {
    var first := Rebuilt(arrays, next, loaders).0;
    RebuildShows(arrays, next, loaders);
    RebuildLeaves(arrays, next, loaders);
    RebuildCompletesExactlyWhen(arrays, next, loaders);
    RebuildCompletesExactlyWhen(first.arrays, first.next, loaders);
    StillInjectable(loaders, arrays, first.arrays);
    RebuildShows(first.arrays, first.next, loaders);
    ShowsTheSameExactlyWhen(loaders, arrays, first.arrays);
    CollectedIgnoresArrays(arrays, next, loaders);
    CollectedIgnoresArrays(first.arrays, first.next, loaders);
    var base, again := Collected(arrays, next, loaders), Collected(first.arrays, first.next, loaders);
    TablesIgnoreArrays(base, again, Usable(base.nodes));
  }

  lemma StillInjectable(loaders: seq<Loader>, arrays: Arrays, arrays': Arrays)
    requires AllGrounded(BaseNodes(loaders), arrays) && Follows(arrays, arrays', loaders)
    requires Injectable(arrays, BaseNodes(loaders), Credentials(loaders))
    ensures Injectable(arrays', BaseNodes(loaders), Credentials(loaders))
  {
    forall r | r in LoaderTargets(loaders) ensures At(arrays', r) != [] {
      assert At(arrays, r) != [];
      assert r in arrays;
    }
  }

  // ---------- any number of times ----------

  function Iterate<T>(f: T -> T, x: T, k: nat): T {
    if k == 0 then x else f(Iterate(f, x, k - 1))
  }

  lemma {:induction false} IterateKeeps<T>(f: T -> T, inv: T -> bool, x: T, k: nat)
    requires inv(x) && forall y :: inv(y) ==> inv(f(y))
    ensures inv(Iterate(f, x, k))
  {
    if k == 0 {
    } else {
      IterateKeeps(f, inv, x, k - 1);
    }
  }

  /** One more rebuild. */
  function RebuiltFrom(before: Registry, loaders: seq<Loader>): Registry {
    Rebuilt(before.arrays, before.next, loaders).0
  }

  function RebuildOf(loaders: seq<Loader>): Registry -> Registry {
    before => RebuiltFrom(before, loaders)
  }

  /** The registry after `k + 1` rebuilds. */
  function RebuiltTimes(arrays: Arrays, next: Ref, loaders: seq<Loader>, k: nat): Registry {
    Iterate(RebuildOf(loaders), Rebuilt(arrays, next, loaders).0, k)
  }

  /** What one rebuild leaves behind, as the next one finds it. */
  ghost predicate Leaves(arrays: Arrays, reg: Registry, loaders: seq<Loader>) {
    && Ready(reg.arrays, reg.next, loaders)
    && Injectable(reg.arrays, BaseNodes(loaders), Credentials(loaders))
    && Follows(arrays, reg.arrays, loaders)
    && NothingLeaks(loaders, reg.arrays)
  }

  lemma OneRebuildLeaves(arrays: Arrays, next: Ref, loaders: seq<Loader>)
    requires Ready(arrays, next, loaders) && Injectable(arrays, BaseNodes(loaders), Credentials(loaders))
    ensures Leaves(arrays, Rebuilt(arrays, next, loaders).0, loaders)
  {
    RebuildCompletesExactlyWhen(arrays, next, loaders);
    RebuildLeaves(arrays, next, loaders);
    StillInjectable(loaders, arrays, Rebuilt(arrays, next, loaders).0.arrays);
    LeftArraysDoNotLeak(loaders, arrays, Rebuilt(arrays, next, loaders).0.arrays);
  }

  lemma LeavesAgain(arrays: Arrays, before: Registry, loaders: seq<Loader>)
    requires Leaves(arrays, before, loaders)
    ensures Leaves(arrays, RebuiltFrom(before, loaders), loaders)
  {
    OneRebuildLeaves(before.arrays, before.next, loaders);
    FollowsTwice(arrays, before.arrays, RebuiltFrom(before, loaders).arrays, loaders);
  }

  lemma InjectedAgain(a: Arrays, b: Arrays, targets: set<Ref>, r: Ref)
    requires r in a && r in b && b[r] == Injected(a, targets)[r]
    ensures Injected(b, targets)[r] == Injected(a, targets)[r]
  {
  }

  lemma FollowsTwice(a: Arrays, b: Arrays, c: Arrays, loaders: seq<Loader>)
    requires Follows(a, b, loaders) && Follows(b, c, loaders)
    ensures Follows(a, c, loaders)
  {
    forall r | r in a ensures r in c && c[r] == Injected(a, LoaderTargets(loaders))[r] {
      InjectedAgain(a, b, LoaderTargets(loaders), r);
    }
  }

  /** After any number of rebuilds each array that a qualifying node of the loaders reaches has its
      original options followed by the option, once, and every other array of the loaders is
      as it was; the next rebuild comes to its end, and nothing is left to leak. */
  lemma OptionIsPushedOnce(arrays: Arrays, next: Ref, loaders: seq<Loader>, k: nat)
    requires Ready(arrays, next, loaders) && Injectable(arrays, BaseNodes(loaders), Credentials(loaders))
    ensures Leaves(arrays, RebuiltTimes(arrays, next, loaders, k), loaders)
  {
    OneRebuildLeaves(arrays, next, loaders);
    LeavesIterated(arrays, Rebuilt(arrays, next, loaders).0, loaders, k);
  }

  lemma LeavesIterated(arrays: Arrays, first: Registry, loaders: seq<Loader>, k: nat)
    requires Leaves(arrays, first, loaders)
    ensures Leaves(arrays, Iterate(RebuildOf(loaders), first, k), loaders)
  {
    var inv := reg => Leaves(arrays, reg, loaders);
    forall reg | inv(reg) ensures inv(RebuildOf(loaders)(reg)) {
      LeavesAgain(arrays, reg, loaders);
    }
    IterateKeeps(RebuildOf(loaders), inv, first, k);
  }

  lemma LeftArraysDoNotLeak(loaders: seq<Loader>, arrays: Arrays, arrays': Arrays)
    requires AllGrounded(BaseNodes(loaders), arrays) && Follows(arrays, arrays', loaders)
    ensures NothingLeaks(loaders, arrays')
  {
    forall n, r | n in Usable(BaseNodes(loaders)) && r in RefsOf(n) && r in LoaderTargets(loaders)
      ensures EndsWithCustom(At(arrays', r))
    {
      UsableIsGrounded(loaders, arrays, n);
    }
  }

  lemma StableStep(arrays: Arrays, before: Registry, loaders: seq<Loader>)
    requires Leaves(arrays, before, loaders)
    ensures var first := RebuiltFrom(before, loaders); SameView(RebuiltFrom(first, loaders), first)
  {
    RebuildCompletesExactlyWhen(before.arrays, before.next, loaders);
    RebuildingTwiceIsOnceExactlyWhen(before.arrays, before.next, loaders);
  }

  /** From the second rebuild on nothing changes any more, shared arrays or not, as long as the
      credentials stay as they are. */
  lemma StableFromTheSecondRebuild(arrays: Arrays, next: Ref, loaders: seq<Loader>, k: nat)
    requires Ready(arrays, next, loaders) && Injectable(arrays, BaseNodes(loaders), Credentials(loaders))
    requires k >= 1
    ensures SameView(RebuiltTimes(arrays, next, loaders, k + 1), RebuiltTimes(arrays, next, loaders, k))
  {
    OneRebuildLeaves(arrays, next, loaders);
    StableIterated(arrays, Rebuilt(arrays, next, loaders).0, loaders, k);
  }

  lemma StableIterated(arrays: Arrays, first: Registry, loaders: seq<Loader>, k: nat)
    requires Leaves(arrays, first, loaders) && k >= 1
    ensures SameView(Iterate(RebuildOf(loaders), first, k + 1), Iterate(RebuildOf(loaders), first, k))
  {
    LeavesIterated(arrays, first, loaders, k - 1);
    StableStep(arrays, Iterate(RebuildOf(loaders), first, k - 1), loaders);
  }

  // ---------- a shared array that leaks ----------

  /** A qualifying node whose resource parameter holds array 0. */
  function Sharing(): Node<Ref> {
    Node("a", "", "", Single(1), None, Some(["c"]), None, [], [], None,
         Some([Property("resource", "options", Some(0), Own(""))]))
  }

  /** A node to make a tool of, whose parameter with another name holds array 0 too. */
  function SharingUsable(): Node<Ref> {
    Node("b", "", "", Single(1), None, None, Some(true), [], [], None,
         Some([Property("items", "options", Some(0), Own(""))]))
  }

  /** Any loader, with these two nodes and a credential type that authenticates. */
  function SharingLoader(l: Loader): Loader {
    l.(nodes := [Sharing(), SharingUsable()], credentials := [CredentialType("c", true, None, None, "")])
  }

  lemma OneLoader(l: Loader)
    ensures BaseNodes([l]) == NodesOf(l) && Credentials([l]) == CredentialsOf(l)
  {
    var loaders := [l];
    assert loaders[..|loaders| - 1] == [];
    var before, after := Collected(map[], 0, []), Collected(map[], 0, loaders);
    assert after.nodes == before.nodes + NodesOf(l) && before.nodes == [];
    assert after.credentials == before.credentials + CredentialsOf(l) && before.credentials == [];
  }

  /** The two nodes as the registry holds them. */
  lemma SharingLoaderGives(l: Loader)
    ensures GiveSharing([SharingLoader(l)])
  {
    var sharing := SharingLoader(l);
    OneLoader(sharing);
    assert NodesOf(sharing)[0] == Sharing().(name := NodesOf(sharing)[0].name);
    assert NodesOf(sharing)[1] == SharingUsable().(name := NodesOf(sharing)[1].name);
    SharingQualifies(NodesOf(sharing)[0], CredentialsOf(sharing));
  }

  lemma SharingQualifies(n: Node<Ref>, credentials: seq<CredentialType>)
    requires n == Sharing().(name := n.name)
    requires |credentials| == 1 && credentials[0].name == "c" && credentials[0].authenticates
    ensures OwnTargets(n, credentials) == {0}
  {
    assert n.credentials.value[0] == "c" && FindCredential(credentials, "c") == Some(credentials[0]);
    assert SupportsProxyAuth(n, credentials);
    var own := n.properties.value;
    assert IsTarget(own[0]) && own[0].options.value in PropertyTargets(own);
  }

  lemma LeakShows(arrays: Arrays, next: Ref, loaders: seq<Loader>)
    requires Ready(arrays, next, loaders) && Injectable(arrays, BaseNodes(loaders), Credentials(loaders))
    requires !NothingLeaks(loaders, arrays)
    ensures Rebuilt(arrays, next, loaders).1
    ensures !SameView(RebuiltTimes(arrays, next, loaders, 1), RebuiltTimes(arrays, next, loaders, 0))
  {
    RebuildCompletesExactlyWhen(arrays, next, loaders);
    RebuildingTwiceIsOnceExactlyWhen(arrays, next, loaders);
    var f, first := RebuildOf(loaders), Rebuilt(arrays, next, loaders).0;
    assert Iterate(f, first, 0) == first && Iterate(f, first, 1) == f(first);
  }

  /** The loaders give these two nodes, and only the first one qualifies. */
  ghost predicate GiveSharing(loaders: seq<Loader>) {
    var (base, credentials) := (BaseNodes(loaders), Credentials(loaders));
    && |base| == 2
    && base[0] == Sharing().(name := base[0].name) && base[1] == SharingUsable().(name := base[1].name)
    && OwnTargets(base[0], credentials) == {0} && OwnTargets(base[1], credentials) == {}
  }

  lemma SharingRefs(loaders: seq<Loader>)
    requires GiveSharing(loaders)
    ensures RefsOf(BaseNodes(loaders)[0]) <= {0} && RefsOf(BaseNodes(loaders)[1]) == {0}
    ensures LoaderTargets(loaders) == {0}
  {
    var base := BaseNodes(loaders);
    assert base[1].properties.value[0].options == Some(0) && 0 in RefsOf(base[1]);
    assert 0 in OwnTargets(base[0], Credentials(loaders));
  }

  lemma SharingIsReady(loaders: seq<Loader>, arrays: Arrays)
    requires GiveSharing(loaders) && arrays.Keys == {0} && arrays[0] == [Choice("x", "x")]
    ensures Ready(arrays, 1, loaders)
  {
    SharingRefs(loaders);
  }

  lemma SharingIsInjectable(loaders: seq<Loader>, arrays: Arrays)
    requires GiveSharing(loaders) && arrays.Keys == {0} && arrays[0] == [Choice("x", "x")]
    ensures Injectable(arrays, BaseNodes(loaders), Credentials(loaders))
  {
    SharingRefs(loaders);
  }

  lemma SharingLeaks(loaders: seq<Loader>, arrays: Arrays)
    requires GiveSharing(loaders) && arrays.Keys == {0} && arrays[0] == [Choice("x", "x")]
    ensures !NothingLeaks(loaders, arrays)
  {
    SharingRefs(loaders);
    var u := BaseNodes(loaders)[1];
    assert |"x"| == 1 && |CUSTOM_API_CALL_NAME| == 15;
    assert u in Usable(BaseNodes(loaders)) && !LeaksNothing(loaders, arrays, u);
  }

  /** The option is pushed for the one and shows in the tool of the other, from the second rebuild on. */
  lemma SharedArrayLeaks(loaders: seq<Loader>, arrays: Arrays)
    requires GiveSharing(loaders) && arrays.Keys == {0} && arrays[0] == [Choice("x", "x")]
    ensures Ready(arrays, 1, loaders) && Rebuilt(arrays, 1, loaders).1
    ensures !NothingLeaks(loaders, arrays)
    ensures !SameView(RebuiltTimes(arrays, 1, loaders, 1), RebuiltTimes(arrays, 1, loaders, 0))
  {
    SharingIsReady(loaders, arrays);
    SharingIsInjectable(loaders, arrays);
    SharingLeaks(loaders, arrays);
    LeakShows(arrays, 1, loaders);
  }
}
