/** The names under which a rebuild shows what the loaders hold, and where. */
module NodeNames {
  import opened Options
  import opened NodeDescriptions
  import opened NodeInjection
  import opened NodeRegistry
  import opened NodeTools

  // ---------- maps laid over each other ----------

  function Overlaid<V>(ms: seq<map<string, V>>): map<string, V> {
    if ms == [] then map[] else Overlaid(ms[..|ms| - 1]) + ms[|ms| - 1]
  }

  ghost predicate LastHas<V>(ms: seq<map<string, V>>, i: nat, k: string) {
    i < |ms| && k in ms[i] && forall j :: i < j < |ms| ==> k !in ms[j]
  }

  /** A key is there if one of the maps has it, with the value of the last one that does. */
  lemma {:induction false} OverlaidHas<V>(ms: seq<map<string, V>>, k: string)
    ensures k in Overlaid(ms) <==> exists i :: 0 <= i < |ms| && k in ms[i]
    ensures forall i: nat :: LastHas(ms, i, k) ==> Overlaid(ms)[k] == ms[i][k]
    decreases |ms|
  {
    if ms == [] {
    } else {
      var n := |ms| - 1;
      var front := ms[..n];
      OverlaidHas(front, k);
      assert forall i :: 0 <= i < n ==> front[i] == ms[i];
      if i :| 0 <= i < |ms| && k in ms[i] {
        assert i == n || k in front[i];
      }
      forall i: nat | LastHas(ms, i, k) ensures Overlaid(ms)[k] == ms[i][k] {
        if i < n {
          assert LastHas(front, i, k);
        }
      }
    }
  }

  lemma OverlaidSnoc<V>(ms: seq<map<string, V>>, m: map<string, V>)
    ensures Overlaid(ms + [m]) == Overlaid(ms) + m
  {
    assert (ms + [m])[..|ms|] == ms;
  }

  // ---------- nodes ----------

  /** Where the nodes of the i-th loader start. */
  function StartOf(loaders: seq<Loader>, i: nat): nat
    requires i <= |loaders|
  {
    if i == 0 then 0 else StartOf(loaders, i - 1) + |loaders[i - 1].nodes|
  }

  lemma {:induction false} StartOfFront(loaders: seq<Loader>, i: nat, n: nat)
    requires i <= n <= |loaders|
    ensures StartOf(loaders[..n], i) == StartOf(loaders, i)
  {
    if i == 0 {
    } else {
      StartOfFront(loaders, i - 1, n);
    }
  }

  /** The j-th node of the i-th loader stands in its place, as the loader gives it but for its name, which
      the name of the package and a dot precede. */
  ghost predicate IsNamed(loaders: seq<Loader>, nodes: seq<Node<Ref>>, i: nat, j: nat)
    requires i < |loaders| && j < |loaders[i].nodes|
  {
    var (l, at) := (loaders[i], StartOf(loaders, i) + j);
    at < |nodes| && nodes[at] == l.nodes[j].(name := l.packageName + "." + l.nodes[j].name)
  }

  ghost predicate AllNamed(loaders: seq<Loader>, nodes: seq<Node<Ref>>) {
    forall i, j :: 0 <= i < |loaders| && 0 <= j < |loaders[i].nodes| ==> IsNamed(loaders, nodes, i, j)
  }

  lemma {:induction false} CollectedAreNamed(arrays: Arrays, next: Ref, loaders: seq<Loader>)
    ensures AllNamed(loaders, Collected(arrays, next, loaders).nodes)
    ensures |Collected(arrays, next, loaders).nodes| == StartOf(loaders, |loaders|)
    decreases |loaders|
  {
    if loaders == [] {
    } else {
      var front := loaders[..|loaders| - 1];
      CollectedAreNamed(arrays, next, front);
      NamedStep(loaders, Collected(arrays, next, front).nodes);
    }
  }

  lemma NamedStep(loaders: seq<Loader>, before: seq<Node<Ref>>)
    requires loaders != []
    requires var front := loaders[..|loaders| - 1]; AllNamed(front, before) && |before| == StartOf(front, |front|)
    ensures var nodes := before + NodesOf(loaders[|loaders| - 1]);
            AllNamed(loaders, nodes) && |nodes| == StartOf(loaders, |loaders|)
  {
    var n := |loaders| - 1;
    var front, nodes := loaders[..n], before + NodesOf(loaders[n]);
    StartOfFront(loaders, n, n);
    forall i, j | 0 <= i < |loaders| && 0 <= j < |loaders[i].nodes| ensures IsNamed(loaders, nodes, i, j) {
      if i < n {
        assert IsNamed(front, before, i, j);
        StartOfFront(loaders, i, n);
      }
    }
  }

  // ---------- tables by qualified names ----------

  /** The loader gives an entry of that name, its own name after the package and a dot. */
  ghost predicate Gives(l: Loader, names: set<string>, k: string) {
    exists t :: t in names && k == l.packageName + "." + t
  }

  /** A table holds what the loaders give under qualified names, a later loader's entry replacing an earlier one's. */
  ghost predicate HoldsQualified<V>(
    loaders: seq<Loader>, given: seq<map<string, V>>, table: map<string, V>, k: string)
    requires |given| == |loaders|
  {
    && (k in table <==> exists i :: 0 <= i < |loaders| && Gives(loaders[i], given[i].Keys, k))
    && forall i: nat, t | GivesLast(loaders, given, i, t, k) :: k in table && table[k] == given[i][t]
  }

  /** The i-th loader gives `k`, as the qualified name of `t`, and no later one does. */
  ghost predicate GivesLast<V>(loaders: seq<Loader>, given: seq<map<string, V>>, i: nat, t: string, k: string)
    requires |given| == |loaders|
  {
    && i < |loaders| && t in given[i] && k == loaders[i].packageName + "." + t
    && forall j :: i < j < |loaders| ==> !Gives(loaders[j], given[j].Keys, k)
  }

  function AllQualified<V>(loaders: seq<Loader>, given: seq<map<string, V>>): (ms: seq<map<string, V>>)
    requires |given| == |loaders|
    ensures |ms| == |loaders|
    ensures forall i :: 0 <= i < |ms| ==> ms[i] == QualifiedKeys(loaders[i], given[i])
  {
    seq(|loaders|, i requires 0 <= i < |loaders| => QualifiedKeys(loaders[i], given[i]))
  }

  lemma QualifiedHolds<V>(loaders: seq<Loader>, given: seq<map<string, V>>, k: string)
    requires |given| == |loaders|
    ensures HoldsQualified(loaders, given, Overlaid(AllQualified(loaders, given)), k)
  {
    var ms := AllQualified(loaders, given);
    OverlaidHas(ms, k);
    forall i | 0 <= i < |ms| ensures k in ms[i] <==> Gives(loaders[i], given[i].Keys, k) {
      QualifiedOf(loaders[i], given[i], k);
    }
    forall i: nat, t | GivesLast(loaders, given, i, t, k)
      ensures k in Overlaid(ms) && Overlaid(ms)[k] == given[i][t]
    {
      QualifiedKeysHold(loaders[i], given[i], t);
      assert k == Qualified(loaders[i], t) && LastHas(ms, i, k);
    }
  }

  lemma QualifiedOf<V>(l: Loader, m: map<string, V>, k: string)
    ensures k in QualifiedKeys(l, m) <==> Gives(l, m.Keys, k)
  {
    if t :| t in m.Keys && k == l.packageName + "." + t {
      QualifiedKeysHold(l, m, t);
      assert k == Qualified(l, t);
    }
    if k in QualifiedKeys(l, m) {
      QualifiedKeysHold(l, m, "");
      var u :| u in m && k == Qualified(l, u);
      assert u in m.Keys;
    }
  }

  lemma QualifiedStep<V>(loaders: seq<Loader>, given: seq<map<string, V>>)
    requires loaders != [] && |given| == |loaders|
    ensures var n := |loaders| - 1;
            Overlaid(AllQualified(loaders, given))
            == Overlaid(AllQualified(loaders[..n], given[..n])) + QualifiedKeys(loaders[n], given[n])
  {
    var n := |loaders| - 1;
    var ms := AllQualified(loaders, given);
    assert ms[..n] == AllQualified(loaders[..n], given[..n]);
    assert Overlaid(ms) == Overlaid(ms[..n]) + ms[n];
  }

  // ---------- what the loaders give ----------

  function LoadedNodesGiven(loaders: seq<Loader>): (given: seq<map<string, string>>)
    ensures |given| == |loaders|
    ensures forall i :: 0 <= i < |given| ==> given[i] == loaders[i].loadedNodes
  {
    seq(|loaders|, i requires 0 <= i < |loaders| => loaders[i].loadedNodes)
  }

  function LoadedCredentialsGiven(loaders: seq<Loader>): (given: seq<map<string, string>>)
    ensures |given| == |loaders|
    ensures forall i :: 0 <= i < |given| ==> given[i] == loaders[i].loadedCredentials
  {
    seq(|loaders|, i requires 0 <= i < |loaders| => loaders[i].loadedCredentials)
  }

  /** The records of the nodes, their files located in the directory of the loader. */
  function KnownNodesGiven(loaders: seq<Loader>): (given: seq<map<string, Option<KnownNode>>>)
    ensures |given| == |loaders|
    ensures forall i :: 0 <= i < |given| ==> given[i].Keys == loaders[i].knownNodes.Keys
    ensures forall i, t :: 0 <= i < |given| && t in given[i] ==>
              var n := loaders[i].knownNodes[t];
              given[i][t] == Some(KnownNode(n.className, loaders[i].directory + "/" + n.sourcePath))
  {
    seq(|loaders|, i requires 0 <= i < |loaders| =>
      map t | t in loaders[i].knownNodes ::
        var n := loaders[i].knownNodes[t];
        Some(KnownNode(n.className, loaders[i].directory + "/" + n.sourcePath)))
  }

  /** A credential is recorded with its file located, its `extends` list as it is and, from a package, the names of
      the nodes that support it qualified. */
  ghost predicate IsRecorded(l: Loader, t: string, c: KnownCredential)
    requires t in l.knownCredentials
  {
    var given := l.knownCredentials[t];
    && c.className == given.className && c.sourcePath == l.directory + "/" + given.sourcePath
    && c.parents == given.parents
    && IsQualifiedList(l, given.supportedNodes, c.supportedNodes)
  }

  ghost predicate IsQualifiedList(l: Loader, names: Option<seq<string>>, qualified: Option<seq<string>>) {
    if l.isPackage && names.Some? then
      && qualified.Some? && |qualified.value| == |names.value|
      && forall i :: 0 <= i < |names.value| ==> qualified.value[i] == l.packageName + "." + names.value[i]
    else qualified.None?
  }

  function KnownCredentialsGiven(loaders: seq<Loader>): (given: seq<map<string, KnownCredential>>)
    ensures |given| == |loaders|
    ensures forall i :: 0 <= i < |given| ==> given[i] == KnownCredentialsOf(loaders[i])
  {
    seq(|loaders|, i requires 0 <= i < |loaders| => KnownCredentialsOf(loaders[i]))
  }

  lemma GivenIsRecorded(l: Loader, t: string)
    ensures t in KnownCredentialsOf(l) <==> t in l.knownCredentials
    ensures t in l.knownCredentials ==> IsRecorded(l, t, KnownCredentialsOf(l)[t])
  {
  }

  // ---------- the tables of the registry ----------

  lemma {:induction false} CollectedLoadedNodes(arrays: Arrays, next: Ref, loaders: seq<Loader>)
    ensures Collected(arrays, next, loaders).loadedNodes
         == Overlaid(AllQualified(loaders, LoadedNodesGiven(loaders)))
    decreases |loaders|
  {
    if loaders == [] {
    } else {
      CollectedLoadedNodes(arrays, next, loaders[..|loaders| - 1]);
      LoadedNodesStep(loaders);
    }
  }

  lemma LoadedNodesStep(loaders: seq<Loader>)
    requires loaders != []
    ensures var front, l := loaders[..|loaders| - 1], loaders[|loaders| - 1];
            Overlaid(AllQualified(loaders, LoadedNodesGiven(loaders)))
            == Overlaid(AllQualified(front, LoadedNodesGiven(front))) + QualifiedKeys(l, l.loadedNodes)
  {
    var n := |loaders| - 1;
    assert LoadedNodesGiven(loaders)[..n] == LoadedNodesGiven(loaders[..n]);
    QualifiedStep(loaders, LoadedNodesGiven(loaders));
  }

  lemma {:induction false} CollectedLoadedCredentials(arrays: Arrays, next: Ref, loaders: seq<Loader>)
    ensures Collected(arrays, next, loaders).loadedCredentials == Overlaid(LoadedCredentialsGiven(loaders))
    decreases |loaders|
  {
    if loaders == [] {
    } else {
      CollectedLoadedCredentials(arrays, next, loaders[..|loaders| - 1]);
      LoadedCredentialsStep(loaders);
    }
  }

  lemma LoadedCredentialsStep(loaders: seq<Loader>)
    requires loaders != []
    ensures var front, l := loaders[..|loaders| - 1], loaders[|loaders| - 1];
            Overlaid(LoadedCredentialsGiven(loaders)) == Overlaid(LoadedCredentialsGiven(front)) + l.loadedCredentials
  {
    var n := |loaders| - 1;
    assert LoadedCredentialsGiven(loaders)[..n] == LoadedCredentialsGiven(loaders[..n]);
  }

  lemma {:induction false} CollectedKnownNodes(arrays: Arrays, next: Ref, loaders: seq<Loader>)
    ensures Collected(arrays, next, loaders).knownNodes == Overlaid(AllQualified(loaders, KnownNodesGiven(loaders)))
    decreases |loaders|
  {
    if loaders == [] {
    } else {
      CollectedKnownNodes(arrays, next, loaders[..|loaders| - 1]);
      KnownNodesStep(loaders);
    }
  }

  lemma KnownNodesStep(loaders: seq<Loader>)
    requires loaders != []
    ensures var front, l := loaders[..|loaders| - 1], loaders[|loaders| - 1];
            Overlaid(AllQualified(loaders, KnownNodesGiven(loaders)))
            == Overlaid(AllQualified(front, KnownNodesGiven(front))) + KnownNodesOf(l)
  {
    var n := |loaders| - 1;
    KnownNodesFront(loaders, n);
    QualifiedStep(loaders, KnownNodesGiven(loaders));
  }

  lemma {:induction false} CollectedKnownCredentials(arrays: Arrays, next: Ref, loaders: seq<Loader>)
    ensures Collected(arrays, next, loaders).knownCredentials == Overlaid(KnownCredentialsGiven(loaders))
    decreases |loaders|
  {
    if loaders == [] {
    } else {
      CollectedKnownCredentials(arrays, next, loaders[..|loaders| - 1]);
      KnownCredentialsStep(loaders);
    }
  }

  lemma KnownCredentialsStep(loaders: seq<Loader>)
    requires loaders != []
    ensures var front, l := loaders[..|loaders| - 1], loaders[|loaders| - 1];
            Overlaid(KnownCredentialsGiven(loaders))
            == Overlaid(KnownCredentialsGiven(front)) + KnownCredentialsOf(l)
  {
    var n := |loaders| - 1;
    assert KnownCredentialsGiven(loaders)[..n] == KnownCredentialsGiven(loaders[..n]);
  }

  lemma KnownNodesFront(loaders: seq<Loader>, n: nat)
    requires n < |loaders|
    ensures KnownNodesGiven(loaders)[..n] == KnownNodesGiven(loaders[..n])
    ensures QualifiedKeys(loaders[n], KnownNodesGiven(loaders)[n]) == KnownNodesOf(loaders[n])
  {
    var front, l := loaders[..n], loaders[n];
    forall i | 0 <= i < n ensures KnownNodesGiven(loaders)[i] == KnownNodesGiven(front)[i] {
      assert front[i] == loaders[i];
    }
    var located := map t | t in l.knownNodes ::
      Some(KnownNode(l.knownNodes[t].className, Joined(l.directory, l.knownNodes[t].sourcePath)));
    assert KnownNodesGiven(loaders)[n] == located;
  }

  // ---------- credential types ----------

  function CredentialStart(loaders: seq<Loader>, i: nat): nat
    requires i <= |loaders|
  {
    if i == 0 then 0 else CredentialStart(loaders, i - 1) + |loaders[i - 1].credentials|
  }

  lemma {:induction false} CredentialStartOfFront(loaders: seq<Loader>, i: nat, n: nat)
    requires i <= n <= |loaders|
    ensures CredentialStart(loaders[..n], i) == CredentialStart(loaders, i)
  {
    if i == 0 {
    } else {
      CredentialStartOfFront(loaders, i - 1, n);
    }
  }

  /** The j-th credential type of the i-th loader stands in its place, as the loader gives it but for the nodes
      that support it, named as above. */
  ghost predicate IsListed(loaders: seq<Loader>, credentials: seq<CredentialType>, i: nat, j: nat)
    requires i < |loaders| && j < |loaders[i].credentials|
  {
    var (l, at) := (loaders[i], CredentialStart(loaders, i) + j);
    && at < |credentials|
    && credentials[at] == l.credentials[j].(supportedNodes := credentials[at].supportedNodes)
    && IsQualifiedList(l, l.credentials[j].supportedNodes, credentials[at].supportedNodes)
  }

  ghost predicate AllListed(loaders: seq<Loader>, credentials: seq<CredentialType>) {
    forall i, j :: 0 <= i < |loaders| && 0 <= j < |loaders[i].credentials| ==> IsListed(loaders, credentials, i, j)
  }

  lemma {:induction false} CollectedAreListed(arrays: Arrays, next: Ref, loaders: seq<Loader>)
    ensures AllListed(loaders, Collected(arrays, next, loaders).credentials)
    ensures |Collected(arrays, next, loaders).credentials| == CredentialStart(loaders, |loaders|)
    decreases |loaders|
  {
    if loaders == [] {
    } else {
      var front := loaders[..|loaders| - 1];
      CollectedAreListed(arrays, next, front);
      ListedStep(loaders, Collected(arrays, next, front).credentials);
    }
  }

  lemma ListedStep(loaders: seq<Loader>, before: seq<CredentialType>)
    requires loaders != []
    requires var front := loaders[..|loaders| - 1];
             AllListed(front, before) && |before| == CredentialStart(front, |front|)
    ensures var credentials := before + CredentialsOf(loaders[|loaders| - 1]);
            AllListed(loaders, credentials) && |credentials| == CredentialStart(loaders, |loaders|)
  {
    var n := |loaders| - 1;
    var front, credentials := loaders[..n], before + CredentialsOf(loaders[n]);
    CredentialStartOfFront(loaders, n, n);
    forall i, j | 0 <= i < |loaders| && 0 <= j < |loaders[i].credentials|
      ensures IsListed(loaders, credentials, i, j)
    {
      if i < n {
        assert IsListed(front, before, i, j);
        CredentialStartOfFront(loaders, i, n);
      }
    }
  }

  // ---------- what the tools leave of it ----------

  /** The name of a tool made from one of the nodes. */
  ghost predicate IsToolName(nodes: seq<Node<Ref>>, k: string) {
    exists n :: n in nodes && n.usableAsTool == Some(true)
      && k == if n.properties.None? then n.name else n.name + "Tool"
  }

  /** A record of a credential, with more supported nodes at most. */
  ghost predicate Extends(c: KnownCredential, c': KnownCredential) {
    && c' == c.(supportedNodes := c'.supportedNodes)
    && (c.supportedNodes.None? ==> c'.supportedNodes.None?)
    && (c.supportedNodes.Some? ==> c'.supportedNodes.Some? && c.supportedNodes.value <= c'.supportedNodes.value)
  }

  /** Making tools appends to the nodes and to supported nodes, records tools, and leaves the rest. */
  ghost predicate ToolsLeave(base: Registry, reg: Registry) {
    && base.nodes <= reg.nodes && reg.credentials == base.credentials
    && reg.loadedNodes == base.loadedNodes && reg.loadedCredentials == base.loadedCredentials
    && reg.knownCredentials.Keys == base.knownCredentials.Keys
    && (forall k :: k in base.knownCredentials ==> Extends(base.knownCredentials[k], reg.knownCredentials[k]))
  }

  lemma {:induction false} WithToolsLeaves(base: Registry, usable: seq<Node<Ref>>)
    ensures ToolsLeave(base, WithTools(base, usable))
    decreases |usable|
  {
    if usable == [] {
    } else {
      WithToolsLeaves(base, usable[..|usable| - 1]);
    }
  }

  /** A record under a name that no tool has stays. */
  lemma {:induction false} OtherRecordsStay(base: Registry, usable: seq<Node<Ref>>, k: string)
    requires forall n :: n in usable ==> k != ToolName(n)
    ensures k in WithTools(base, usable).knownNodes <==> k in base.knownNodes
    ensures k in base.knownNodes ==> WithTools(base, usable).knownNodes[k] == base.knownNodes[k]
    decreases |usable|
  {
    if usable == [] {
    } else {
      var front, n := usable[..|usable| - 1], usable[|usable| - 1];
      assert forall m :: m in front ==> m in usable;
      OtherRecordsStay(base, front, k);
      assert n in usable;
      ToolNameIs(n, WithTools(base, front).next);
    }
  }

  lemma NoToolName(nodes: seq<Node<Ref>>, k: string)
    requires !IsToolName(nodes, k)
    ensures forall n :: n in Usable(nodes) ==> k != ToolName(n)
  {
    forall n | n in Usable(nodes) ensures k != ToolName(n) {
      assert n in nodes;
    }
  }

  /** A rebuild, completed or not, has gathered what the loaders hold: under these names, in these places. */
  ghost predicate Gathers(loaders: seq<Loader>, reg: Registry) {
    && AllNamed(loaders, reg.nodes) && AllListed(loaders, reg.credentials)
    && StartOf(loaders, |loaders|) <= |reg.nodes| && |reg.credentials| == CredentialStart(loaders, |loaders|)
    && forall k :: GathersKey(loaders, reg, k)
  }

  /** The four tables at one key. */
  ghost predicate GathersKey(loaders: seq<Loader>, reg: Registry, k: string)
    requires StartOf(loaders, |loaders|) <= |reg.nodes|
  {
    && HoldsQualified(loaders, LoadedNodesGiven(loaders), reg.loadedNodes, k)
    && (k in reg.loadedCredentials <==> exists i :: 0 <= i < |loaders| && k in loaders[i].loadedCredentials)
    && (forall i: nat | LastHas(LoadedCredentialsGiven(loaders), i, k) ::
          k in reg.loadedCredentials && reg.loadedCredentials[k] == loaders[i].loadedCredentials[k])
    && (!IsToolName(reg.nodes[..StartOf(loaders, |loaders|)], k) ==>
          HoldsQualified(loaders, KnownNodesGiven(loaders), reg.knownNodes, k))
    && (k in reg.knownCredentials <==> exists i :: 0 <= i < |loaders| && k in loaders[i].knownCredentials)
    && (forall i: nat | LastKnows(loaders, i, k) ::
          k in reg.knownCredentials
          && exists c :: IsRecorded(loaders[i], k, c) && Extends(c, reg.knownCredentials[k]))
  }

  ghost predicate LastKnows(loaders: seq<Loader>, i: nat, k: string) {
    && i < |loaders| && k in loaders[i].knownCredentials
    && forall j :: i < j < |loaders| ==> k !in loaders[j].knownCredentials
  }

  lemma RebuildGathers(arrays: Arrays, next: Ref, loaders: seq<Loader>)
    ensures Gathers(loaders, Rebuilt(arrays, next, loaders).0)
  {
    var base := Collected(arrays, next, loaders);
    CollectedAreNamed(arrays, next, loaders);
    CollectedAreListed(arrays, next, loaders);
    WithToolsLeaves(base, Usable(base.nodes));
    ToolsGather(arrays, next, loaders, base, Tooled(arrays, next, loaders));
    SameGathered(loaders, Tooled(arrays, next, loaders), Rebuilt(arrays, next, loaders).0);
  }

  lemma SameGathered(loaders: seq<Loader>, a: Registry, b: Registry)
    requires Gathers(loaders, a) && b == a.(arrays := b.arrays)
    ensures Gathers(loaders, b)
  {
    forall k ensures GathersKey(loaders, b, k) {
      assert GathersKey(loaders, a, k);
    }
  }

  lemma ToolsGather(arrays: Arrays, next: Ref, loaders: seq<Loader>, base: Registry, reg: Registry)
    requires base == Collected(arrays, next, loaders) && reg == WithTools(base, Usable(base.nodes))
    requires AllNamed(loaders, base.nodes) && |base.nodes| == StartOf(loaders, |loaders|)
    requires AllListed(loaders, base.credentials) && |base.credentials| == CredentialStart(loaders, |loaders|)
    requires ToolsLeave(base, reg)
    ensures Gathers(loaders, reg)
  {
    StayNamed(loaders, base.nodes, reg.nodes);
    AllKeysGather(arrays, next, loaders, base, reg);
  }

  lemma StayNamed(loaders: seq<Loader>, nodes: seq<Node<Ref>>, nodes': seq<Node<Ref>>)
    requires AllNamed(loaders, nodes) && nodes <= nodes'
    ensures AllNamed(loaders, nodes')
  {
    forall i, j | 0 <= i < |loaders| && 0 <= j < |loaders[i].nodes| ensures IsNamed(loaders, nodes', i, j) {
      assert IsNamed(loaders, nodes, i, j);
    }
  }

  lemma AllKeysGather(arrays: Arrays, next: Ref, loaders: seq<Loader>, base: Registry, reg: Registry)
    requires base == Collected(arrays, next, loaders) && reg == WithTools(base, Usable(base.nodes))
    requires |base.nodes| == StartOf(loaders, |loaders|) && ToolsLeave(base, reg)
    ensures forall k :: GathersKey(loaders, reg, k)
  {
    forall k ensures GathersKey(loaders, reg, k) {
      KeyGathers(arrays, next, loaders, base, reg, k);
    }
  }

  lemma KeyGathers(arrays: Arrays, next: Ref, loaders: seq<Loader>, base: Registry, reg: Registry, k: string)
    requires base == Collected(arrays, next, loaders) && reg == WithTools(base, Usable(base.nodes))
    requires |base.nodes| == StartOf(loaders, |loaders|) && ToolsLeave(base, reg)
    ensures GathersKey(loaders, reg, k)
  {
    LoadedNodeGathers(arrays, next, loaders, k);
    LoadedCredentialGathers(arrays, next, loaders, k);
    BaseKnownNodeGathers(arrays, next, loaders, k);
    assert reg.nodes[..|base.nodes|] == base.nodes;
    KnownNodeGathers(loaders, base, reg.nodes[..|base.nodes|], k);
    KnownCredentialGathers(arrays, next, loaders, base, reg, k);
  }

  lemma LoadedNodeGathers(arrays: Arrays, next: Ref, loaders: seq<Loader>, k: string)
    ensures HoldsQualified(loaders, LoadedNodesGiven(loaders), Collected(arrays, next, loaders).loadedNodes, k)
  {
    CollectedLoadedNodes(arrays, next, loaders);
    QualifiedHolds(loaders, LoadedNodesGiven(loaders), k);
  }

  lemma LoadedCredentialGathers(arrays: Arrays, next: Ref, loaders: seq<Loader>, k: string)
    ensures var table := Collected(arrays, next, loaders).loadedCredentials;
            && (k in table <==> exists i :: 0 <= i < |loaders| && k in loaders[i].loadedCredentials)
            && forall i: nat | LastHas(LoadedCredentialsGiven(loaders), i, k) ::
                 k in table && table[k] == loaders[i].loadedCredentials[k]
  {
    CollectedLoadedCredentials(arrays, next, loaders);
    LoadedCredentialsOverlaid(loaders, k);
  }

  lemma LoadedCredentialsOverlaid(loaders: seq<Loader>, k: string)
    ensures var table := Overlaid(LoadedCredentialsGiven(loaders));
            && (k in table <==> exists i :: 0 <= i < |loaders| && k in loaders[i].loadedCredentials)
            && forall i: nat | LastHas(LoadedCredentialsGiven(loaders), i, k) ::
                 k in table && table[k] == loaders[i].loadedCredentials[k]
  {
    OverlaidHas(LoadedCredentialsGiven(loaders), k);
  }

  lemma BaseKnownNodeGathers(arrays: Arrays, next: Ref, loaders: seq<Loader>, k: string)
    ensures HoldsQualified(loaders, KnownNodesGiven(loaders), Collected(arrays, next, loaders).knownNodes, k)
  {
    CollectedKnownNodes(arrays, next, loaders);
    QualifiedHolds(loaders, KnownNodesGiven(loaders), k);
  }

  lemma KnownNodeGathers(loaders: seq<Loader>, base: Registry, nodes: seq<Node<Ref>>, k: string)
    requires nodes == base.nodes
    requires HoldsQualified(loaders, KnownNodesGiven(loaders), base.knownNodes, k)
    ensures !IsToolName(nodes, k) ==>
              HoldsQualified(loaders, KnownNodesGiven(loaders), WithTools(base, Usable(base.nodes)).knownNodes, k)
  {
    if !IsToolName(base.nodes, k) {
      RecordStays(base, k);
      SameAtKey(loaders, KnownNodesGiven(loaders), base.knownNodes,
                WithTools(base, Usable(base.nodes)).knownNodes, k);
    }
  }

  lemma RecordStays(base: Registry, k: string)
    requires !IsToolName(base.nodes, k)
    ensures var table := WithTools(base, Usable(base.nodes)).knownNodes;
            (k in table <==> k in base.knownNodes) && (k in base.knownNodes ==> table[k] == base.knownNodes[k])
  {
    NoToolName(base.nodes, k);
    OtherRecordsStay(base, Usable(base.nodes), k);
  }

  lemma SameAtKey<V>(
    loaders: seq<Loader>, given: seq<map<string, V>>, table: map<string, V>, table': map<string, V>, k: string)
    requires |given| == |loaders| && HoldsQualified(loaders, given, table, k)
    requires (k in table' <==> k in table) && (k in table ==> table'[k] == table[k])
    ensures HoldsQualified(loaders, given, table', k)
  {
  }

  lemma KnownCredentialGathers(
    arrays: Arrays, next: Ref, loaders: seq<Loader>, base: Registry, reg: Registry, k: string)
    requires base == Collected(arrays, next, loaders) && ToolsLeave(base, reg)
    ensures k in reg.knownCredentials <==> exists i :: 0 <= i < |loaders| && k in loaders[i].knownCredentials
    ensures forall i: nat | LastKnows(loaders, i, k) ::
              k in reg.knownCredentials
              && exists c :: IsRecorded(loaders[i], k, c) && Extends(c, reg.knownCredentials[k])
  {
    var given := KnownCredentialsGiven(loaders);
    CollectedKnownCredentials(arrays, next, loaders);
    OverlaidHas(given, k);
    forall i | 0 <= i < |loaders|
      ensures k in given[i] <==> k in loaders[i].knownCredentials
      ensures k in given[i] ==> IsRecorded(loaders[i], k, given[i][k])
    {
      GivenIsRecorded(loaders[i], k);
    }
    forall i: nat | LastKnows(loaders, i, k)
      ensures k in reg.knownCredentials
      ensures exists c :: IsRecorded(loaders[i], k, c) && Extends(c, reg.knownCredentials[k])
    {
      assert LastHas(given, i, k);
      assert IsRecorded(loaders[i], k, base.knownCredentials[k]);
    }
  }
}
