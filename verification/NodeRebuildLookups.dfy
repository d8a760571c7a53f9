/** Rebuilding after lookups of parent types. The `extends` array of a credential class that was
    loaded eagerly is the one that lookups append to, so a rebuild may find a node to support
    the option that did not support it before. */
module NodeRebuildLookups {
  import opened ExtendsGraph
  import opened NodeDescriptions
  import opened NodeInjection
  import opened NodeRegistry
  import opened NodeRebuild
  import opened NodeRebuildAgain
  import opened Options

  const OAUTH := {"oAuth2Api", "googleOAuth2Api", "oAuth1Api"}

  // ---------- credentials after lookups ----------

  /** A type whose array is live shows the list as lookups have left it. */
  function Refreshed(c: CredentialType, table: Table, shared: set<Name>): CredentialType {
    if c.name in shared && c.name in table && c.parents.Some? then c.(parents := Some(table[c.name])) else c
  }

  function AllRefreshed(credentials: seq<CredentialType>, table: Table, shared: set<Name>)
    : (refreshed: seq<CredentialType>)
    ensures |refreshed| == |credentials|
  {
    seq(|credentials|, i requires 0 <= i < |credentials| => Refreshed(credentials[i], table, shared))
  }

  function RefreshedLoader(l: Loader, table: Table, shared: set<Name>): Loader {
    l.(credentials := AllRefreshed(l.credentials, table, shared))
  }

  function RefreshedLoaders(loaders: seq<Loader>, table: Table, shared: set<Name>): (refreshed: seq<Loader>)
    ensures |refreshed| == |loaders|
  {
    seq(|loaders|, i requires 0 <= i < |loaders| => RefreshedLoader(loaders[i], table, shared))
  }

  /** At the start a live array is the list of its type in the table. */
  ghost predicate Agree(credentials: seq<CredentialType>, initial: Table, shared: set<Name>) {
    forall c :: c in credentials && c.name in shared && c.name in initial && c.parents.Some? ==>
      c.parents.value == initial[c.name]
  }

  lemma {:induction false} RefreshedCollect(loaders: seq<Loader>, table: Table, shared: set<Name>)
    ensures BaseNodes(RefreshedLoaders(loaders, table, shared)) == BaseNodes(loaders)
    ensures Credentials(RefreshedLoaders(loaders, table, shared)) == AllRefreshed(Credentials(loaders), table, shared)
    decreases |loaders|
  {
    var refreshed := RefreshedLoaders(loaders, table, shared);
    if loaders == [] {
      assert refreshed == [];
    } else {
      var n := |loaders| - 1;
      assert refreshed[..n] == RefreshedLoaders(loaders[..n], table, shared);
      RefreshedCollect(loaders[..n], table, shared);
      RefreshedLoaderGives(loaders[n], table, shared);
      AllRefreshedOfConcat(Credentials(loaders[..n]), CredentialsOf(loaders[n]), table, shared);
    }
  }

  lemma RefreshedLoaderGives(l: Loader, table: Table, shared: set<Name>)
    ensures NodesOf(RefreshedLoader(l, table, shared)) == NodesOf(l)
    ensures CredentialsOf(RefreshedLoader(l, table, shared)) == AllRefreshed(CredentialsOf(l), table, shared)
  {
    assert NodesOf(RefreshedLoader(l, table, shared)) == NodesOf(l);
    var live := RefreshedLoader(l, table, shared);
    forall i | 0 <= i < |l.credentials|
      ensures CredentialsOf(live)[i] == AllRefreshed(CredentialsOf(l), table, shared)[i]
    {
      assert live.credentials[i] == Refreshed(l.credentials[i], table, shared);
      NamesQualifyAlike(l, live, l.credentials[i].supportedNodes);
    }
  }

  lemma NamesQualifyAlike(a: Loader, b: Loader, names: Option<seq<string>>)
    requires a.packageName == b.packageName && a.isPackage == b.isPackage
    ensures QualifiedNames(a, names) == QualifiedNames(b, names)
  {
    if a.isPackage && names.Some? {
      assert QualifiedNames(a, names).value == QualifiedNames(b, names).value;
    }
  }

  lemma AllRefreshedOfConcat(a: seq<CredentialType>, b: seq<CredentialType>, table: Table, shared: set<Name>)
    ensures AllRefreshed(a + b, table, shared) == AllRefreshed(a, table, shared) + AllRefreshed(b, table, shared)
  {
    assert AllRefreshed(a + b, table, shared) == AllRefreshed(a, table, shared) + AllRefreshed(b, table, shared);
  }

  lemma {:induction false} FindRefreshed(
    credentials: seq<CredentialType>, table: Table, shared: set<Name>, name: string)
    ensures FindCredential(AllRefreshed(credentials, table, shared), name)
         == (var found := FindCredential(credentials, name);
             if found.Some? then Some(Refreshed(found.value, table, shared)) else None)
    ensures var found := FindCredential(credentials, name);
            found.Some? ==> found.value in credentials && found.value.name == name
    decreases |credentials|
  {
    if credentials == [] {
    } else {
      assert AllRefreshed(credentials, table, shared)[1..] == AllRefreshed(credentials[1..], table, shared);
      FindRefreshed(credentials[1..], table, shared, name);
    }
  }

  // ---------- which nodes come to qualify ----------

  /** An authorization type that a live list may come to name. */
  ghost predicate ExtendsOAuth(c: CredentialType, initial: Table, shared: set<Name>) {
    && c.name in shared && c.name in initial && c.parents.Some?
    && exists a :: a in OAUTH && Ancestor(initial, c.name, a)
  }

  /** Lookups make a type authenticate only by an ancestor, and a lookup of the type does. */
  lemma AuthenticatesAfterLookups(
    c: CredentialType, initial: Table, rank: Name -> nat, shared: set<Name>, calls: seq<Name>)
    requires Ranked(initial, rank)
    requires c.name in shared && c.name in initial && c.parents.Some? ==> c.parents.value == initial[c.name]
    ensures var after := Refreshed(c, GrowAll(initial, rank, calls), shared);
            && (MayAuthenticate(c) ==> MayAuthenticate(after))
            && (MayAuthenticate(after) ==> MayAuthenticate(c) || ExtendsOAuth(c, initial, shared))
            && (calls == [c.name] && ExtendsOAuth(c, initial, shared) ==> MayAuthenticate(after))
  {
    var table := GrowAll(initial, rank, calls);
    GrowAllKeepsSettled(initial, initial, rank, calls);
    if c.name in shared && c.name in initial && c.parents.Some? {
      assert SettledAt(initial, table, rank, c.name);
      forall a | a in table[c.name] ensures Ancestor(initial, c.name, a) {
        SettledEntriesAreAncestors(initial, table, rank, c.name, a);
      }
      assert forall a :: a in initial[c.name] ==> a in table[c.name];
      if a :| a in c.parents.value && a in OAUTH {
        assert a in table[c.name];
      }
      if calls == [c.name] {
        LookupIsListed(initial, rank, c.name);
      }
    }
  }

  lemma LookupIsListed(initial: Table, rank: Name -> nat, t: Name)
    requires Ranked(initial, rank)
    ensures forall a :: Ancestor(initial, t, a) ==> a in Parents(GrowAll(initial, rank, [t]), t)
  {
    assert GrowAll(initial, rank, []) == initial;
    LookupIgnoresHistory(initial, rank, [], t);
    assert [t][1..] == [] && GrowAll(initial, rank, [t]) == GrowAll(Grow(initial, rank, t), rank, [t][1..]);
  }

  /** A node that does not support the option, but uses a type that may come to authenticate. */
  ghost predicate MayComeToQualify(
    n: Node<Ref>, credentials: seq<CredentialType>, initial: Table, shared: set<Name>)
  {
    && IsLatest(n) && n.credentials.Some? && !SupportsProxyAuth(n, credentials)
    && exists name :: name in n.credentials.value && UsesOAuth(credentials, name, initial, shared)
  }

  ghost predicate UsesOAuth(credentials: seq<CredentialType>, name: string, initial: Table, shared: set<Name>) {
    var found := FindCredential(credentials, name);
    found.Some? && ExtendsOAuth(found.value, initial, shared)
  }

  ghost predicate Authenticates(credentials: seq<CredentialType>, name: string) {
    FindCredential(credentials, name).Some? && MayAuthenticate(FindCredential(credentials, name).value)
  }

  lemma NameAuthenticatesAfterLookups(
    credentials: seq<CredentialType>, initial: Table, rank: Name -> nat, shared: set<Name>,
    calls: seq<Name>, name: string)
    requires Ranked(initial, rank) && Agree(credentials, initial, shared)
    ensures var after := AllRefreshed(credentials, GrowAll(initial, rank, calls), shared);
            && (Authenticates(credentials, name) ==> Authenticates(after, name))
            && (Authenticates(after, name) ==>
                  Authenticates(credentials, name) || UsesOAuth(credentials, name, initial, shared))
            && (calls == [name] && UsesOAuth(credentials, name, initial, shared) ==> Authenticates(after, name))
  {
    FindRefreshed(credentials, GrowAll(initial, rank, calls), shared, name);
    var found := FindCredential(credentials, name);
    if found.Some? {
      AuthenticatesAfterLookups(found.value, initial, rank, shared, calls);
    }
  }

  lemma SupportsByName(n: Node<Ref>, credentials: seq<CredentialType>)
    ensures SupportsProxyAuth(n, credentials) <==>
      n.credentials.Some? && exists name :: name in n.credentials.value && Authenticates(credentials, name)
  {
    if n.credentials.Some? {
      if name :| name in n.credentials.value && Authenticates(credentials, name) {
        assert FindCredential(credentials, name).Some?;
      }
    }
  }

  lemma QualifiesAfterLookups(
    n: Node<Ref>, credentials: seq<CredentialType>, initial: Table, rank: Name -> nat, shared: set<Name>,
    calls: seq<Name>)
    requires Ranked(initial, rank) && Agree(credentials, initial, shared)
    ensures var after := AllRefreshed(credentials, GrowAll(initial, rank, calls), shared);
            && (Qualifies(n, credentials) ==> Qualifies(n, after))
            && (Qualifies(n, after) ==> Qualifies(n, credentials) || MayComeToQualify(n, credentials, initial, shared))
  {
    var after := AllRefreshed(credentials, GrowAll(initial, rank, calls), shared);
    SupportsByName(n, credentials);
    SupportsByName(n, after);
    if n.credentials.Some? {
      forall name | name in n.credentials.value
        ensures Authenticates(credentials, name) ==> Authenticates(after, name)
        ensures Authenticates(after, name) ==>
          Authenticates(credentials, name) || UsesOAuth(credentials, name, initial, shared)
      {
        NameAuthenticatesAfterLookups(credentials, initial, rank, shared, calls, name);
      }
    }
  }

  /** A node comes to qualify after some lookups if and only if it does not qualify, is of the latest
      version and uses a live type that has one of the three authorization types as an ancestor. */
  lemma ComesToQualifyExactlyWhen(
    n: Node<Ref>, credentials: seq<CredentialType>, initial: Table, rank: Name -> nat, shared: set<Name>)
    requires Ranked(initial, rank) && Agree(credentials, initial, shared)
    ensures (exists calls :: ComesToQualify(n, credentials, initial, rank, shared, calls))
       <==> MayComeToQualify(n, credentials, initial, shared)
  {
    if MayComeToQualify(n, credentials, initial, shared) {
      var name :| name in n.credentials.value && UsesOAuth(credentials, name, initial, shared);
      NameAuthenticatesAfterLookups(credentials, initial, rank, shared, [name], name);
      SupportsByName(n, AllRefreshed(credentials, GrowAll(initial, rank, [name]), shared));
      assert ComesToQualify(n, credentials, initial, rank, shared, [name]);
    }
    if calls :| ComesToQualify(n, credentials, initial, rank, shared, calls) {
      QualifiesAfterLookups(n, credentials, initial, rank, shared, calls);
    }
  }

  ghost predicate ComesToQualify(
    n: Node<Ref>, credentials: seq<CredentialType>, initial: Table, rank: Name -> nat, shared: set<Name>,
    calls: seq<Name>)
    requires Ranked(initial, rank)
  {
    !Qualifies(n, credentials) && Qualifies(n, AllRefreshed(credentials, GrowAll(initial, rank, calls), shared))
  }

  // ---------- what a rebuild after lookups shows ----------

  /** The option, pushed into the arrays of a node that comes to qualify, shows nowhere new: each has
      it already, or another node has it pushed, and no tool is made of the node. */
  ghost predicate ShowsNowhereNew(
    loaders: seq<Loader>, arrays: Arrays, initial: Table, shared: set<Name>, n: Node<Ref>)
  {
    MayComeToQualify(n, Credentials(loaders), initial, shared) ==>
      forall r :: r in OwnNames(n) ==>
        EndsWithCustom(At(arrays, r)) || (r in LoaderTargets(loaders) && !IsUsable(n))
  }

  ghost predicate NothingComesLate(loaders: seq<Loader>, arrays: Arrays, initial: Table, shared: set<Name>) {
    forall n :: n in BaseNodes(loaders) ==> ShowsNowhereNew(loaders, arrays, initial, shared, n)
  }

  lemma OwnTargetsAfterLookups(
    loaders: seq<Loader>, initial: Table, rank: Name -> nat, shared: set<Name>, calls: seq<Name>, n: Node<Ref>)
    requires Ranked(initial, rank) && Agree(Credentials(loaders), initial, shared)
    ensures var before := Credentials(loaders);
            var after := AllRefreshed(before, GrowAll(initial, rank, calls), shared);
            && OwnTargets(n, before) <= OwnTargets(n, after) <= OwnNames(n)
            && (OwnTargets(n, after) != OwnTargets(n, before) ==>
                  OwnTargets(n, before) == {} && MayComeToQualify(n, before, initial, shared))
  {
    QualifiesAfterLookups(n, Credentials(loaders), initial, rank, shared, calls);
  }

  lemma TargetsAfterLookups(
    loaders: seq<Loader>, arrays: Arrays, initial: Table, rank: Name -> nat, shared: set<Name>,
    calls: seq<Name>, r: Ref)
    requires Ranked(initial, rank) && Agree(Credentials(loaders), initial, shared)
    requires NothingComesLate(loaders, arrays, initial, shared)
    ensures var before := Credentials(loaders);
            var after := AllRefreshed(before, GrowAll(initial, rank, calls), shared);
            && (r in Targets(BaseNodes(loaders), before) ==> r in Targets(BaseNodes(loaders), after))
            && (r in Targets(BaseNodes(loaders), after) ==>
                  r in Targets(BaseNodes(loaders), before) || EndsWithCustom(At(arrays, r)))
  {
    var base, before := BaseNodes(loaders), Credentials(loaders);
    var after := AllRefreshed(before, GrowAll(initial, rank, calls), shared);
    if r in Targets(base, before) {
      var i :| 0 <= i < |base| && r in OwnTargets(base[i], before);
      OwnTargetsAfterLookups(loaders, initial, rank, shared, calls, base[i]);
      assert r in OwnTargets(base[i], after);
    }
    if r in Targets(base, after) {
      var i :| 0 <= i < |base| && r in OwnTargets(base[i], after);
      OwnTargetsAfterLookups(loaders, initial, rank, shared, calls, base[i]);
      assert ShowsNowhereNew(loaders, arrays, initial, shared, base[i]);
    }
  }

  lemma NothingNewShows(
    loaders: seq<Loader>, arrays: Arrays, initial: Table, rank: Name -> nat, shared: set<Name>, calls: seq<Name>)
    requires Ranked(initial, rank) && Agree(Credentials(loaders), initial, shared)
    requires NothingComesLate(loaders, arrays, initial, shared)
    ensures var after := AllRefreshed(Credentials(loaders), GrowAll(initial, rank, calls), shared);
            ShownWith(BaseNodes(loaders), arrays, after) == ShownWith(BaseNodes(loaders), arrays, Credentials(loaders))
  {
    var base, before := BaseNodes(loaders), Credentials(loaders);
    var after := AllRefreshed(before, GrowAll(initial, rank, calls), shared);
    forall r ensures SameInjection(arrays, Targets(base, after), Targets(base, before), r) {
      TargetsAfterLookups(loaders, arrays, initial, rank, shared, calls, r);
    }
    SameArrays(arrays, Targets(base, after), Targets(base, before));
    forall u | u in Usable(base) ensures ShownTool(u, arrays, after) == ShownTool(u, arrays, before) {
      NothingNewInTool(loaders, arrays, initial, rank, shared, calls, u);
    }
    SameToolsWith(Usable(base), arrays, before, after);
  }

  ghost predicate SameInjection(arrays: Arrays, a: set<Ref>, b: set<Ref>, r: Ref) {
    (r in a <==> r in b) || EndsWithCustom(At(arrays, r))
  }

  lemma SameArrays(arrays: Arrays, a: set<Ref>, b: set<Ref>)
    requires forall r :: SameInjection(arrays, a, b, r)
    ensures Injected(arrays, a) == Injected(arrays, b)
  {
    forall r | r in arrays ensures Injected(arrays, a)[r] == Injected(arrays, b)[r] {
      assert SameInjection(arrays, a, b, r);
    }
  }

  lemma NothingNewInTool(
    loaders: seq<Loader>, arrays: Arrays, initial: Table, rank: Name -> nat, shared: set<Name>, calls: seq<Name>,
    u: Node<Ref>)
    requires Ranked(initial, rank) && Agree(Credentials(loaders), initial, shared)
    requires NothingComesLate(loaders, arrays, initial, shared) && u in Usable(BaseNodes(loaders))
    ensures var after := AllRefreshed(Credentials(loaders), GrowAll(initial, rank, calls), shared);
            ShownTool(u, arrays, after) == ShownTool(u, arrays, Credentials(loaders))
  {
    var before := Credentials(loaders);
    var after := AllRefreshed(before, GrowAll(initial, rank, calls), shared);
    OwnTargetsAfterLookups(loaders, initial, rank, shared, calls, u);
    assert ShowsNowhereNew(loaders, arrays, initial, shared, u);
    SameArrays(arrays, OwnTargets(u, after), OwnTargets(u, before));
  }

  lemma SameToolsWith(
    usable: seq<Node<Ref>>, arrays: Arrays, before: seq<CredentialType>, after: seq<CredentialType>)
    requires forall u :: u in usable ==> ShownTool(u, arrays, after) == ShownTool(u, arrays, before)
    ensures ShownTools(usable, arrays, after) == ShownTools(usable, arrays, before)
  {
    var t, t' := ShownTools(usable, arrays, before), ShownTools(usable, arrays, after);
    forall j | 0 <= j < |usable| ensures t'[j] == t[j] {
      assert usable[j] in usable;
    }
  }

  /** An array of a node that comes to qualify gets the option after one lookup, where it was without. */
  lemma OptionShowsLate(
    loaders: seq<Loader>, arrays: Arrays, initial: Table, rank: Name -> nat, shared: set<Name>, n: Node<Ref>)
    returns (calls: seq<Name>)
    requires Ranked(initial, rank) && Agree(Credentials(loaders), initial, shared)
    requires AllGrounded(BaseNodes(loaders), arrays) && n in BaseNodes(loaders)
    requires !ShowsNowhereNew(loaders, arrays, initial, shared, n)
    ensures var after := AllRefreshed(Credentials(loaders), GrowAll(initial, rank, calls), shared);
            ShownWith(BaseNodes(loaders), arrays, after) != ShownWith(BaseNodes(loaders), arrays, Credentials(loaders))
  {
    var base, before := BaseNodes(loaders), Credentials(loaders);
    var r :| r in OwnNames(n) && !EndsWithCustom(At(arrays, r)) && !(r in LoaderTargets(loaders) && !IsUsable(n));
    ComesToQualifyExactlyWhen(n, before, initial, rank, shared);
    calls :| ComesToQualify(n, before, initial, rank, shared, calls);
    var after := AllRefreshed(before, GrowAll(initial, rank, calls), shared);
    assert r in OwnTargets(n, after) && OwnTargets(n, before) == {};
    var i :| 0 <= i < |base| && base[i] == n;
    OwnNamesAreRefs(n);
    assert Grounded(n, arrays) && r in arrays;
    assert |arrays[r] + [CUSTOM_API_CALL]| == |arrays[r]| + 1;
    if r in Targets(base, before) {
      assert n in Usable(base);
      DifferentTools(n, Injected(arrays, OwnTargets(n, after)), Injected(arrays, OwnTargets(n, before)), r);
      DifferentToolsShow(base, arrays, before, after, n);
    } else {
      assert r in Targets(base, after);
      DifferentBaseShows(base, arrays, before, after, i, r);
    }
  }

  lemma DifferentToolsShow(
    base: seq<Node<Ref>>, arrays: Arrays, before: seq<CredentialType>, after: seq<CredentialType>, n: Node<Ref>)
    requires n in Usable(base) && ShownTool(n, arrays, after) != ShownTool(n, arrays, before)
    ensures ShownWith(base, arrays, after) != ShownWith(base, arrays, before)
  {
    var usable := Usable(base);
    var j :| 0 <= j < |usable| && usable[j] == n;
    DifferentTails(ReadAll(base, Injected(arrays, Targets(base, after))), ShownTools(usable, arrays, after),
                   ReadAll(base, Injected(arrays, Targets(base, before))), ShownTools(usable, arrays, before), j);
  }

  lemma DifferentTails<T>(a: seq<T>, c: seq<T>, b: seq<T>, d: seq<T>, j: nat)
    requires |a| == |b| && j < |c| && j < |d| && c[j] != d[j]
    ensures a + c != b + d
  {
    assert (a + c)[|a| + j] == c[j] && (b + d)[|b| + j] == d[j];
  }

  lemma DifferentBaseShows(
    base: seq<Node<Ref>>, arrays: Arrays, before: seq<CredentialType>, after: seq<CredentialType>, i: nat, r: Ref)
    requires i < |base| && r in OwnNames(base[i])
    requires At(Injected(arrays, Targets(base, after)), r) != At(Injected(arrays, Targets(base, before)), r)
    ensures ShownWith(base, arrays, after) != ShownWith(base, arrays, before)
  {
    var a, b := Injected(arrays, Targets(base, after)), Injected(arrays, Targets(base, before));
    var own := base[i].properties.value;
    var k :| 0 <= k < |own| && IsTarget(own[k]) && own[k].options.value == r;
    assert ReadProperties(own, a)[k] != ReadProperties(own, b)[k];
    assert ShownWith(base, arrays, after)[i] == Read(base[i], a);
    assert ShownWith(base, arrays, before)[i] == Read(base[i], b);
  }

  /** What a rebuild after the lookups shows, if it completes. */
  ghost function ShownAfter(
    arrays: Arrays, loaders: seq<Loader>, initial: Table, rank: Name -> nat, shared: set<Name>, calls: seq<Name>)
    : seq<Node<seq<Choice>>>
    requires Ranked(initial, rank)
  {
    Shown(RefreshedLoaders(loaders, GrowAll(initial, rank, calls), shared), arrays)
  }

  /** A rebuild shows the same nodes after any lookups as before them if and only if the option of
      every node that may come to qualify shows nowhere new. */
  lemma LookupsShowNothingNewExactlyWhen(
    loaders: seq<Loader>, arrays: Arrays, initial: Table, rank: Name -> nat, shared: set<Name>)
    requires Ranked(initial, rank) && Agree(Credentials(loaders), initial, shared)
    requires AllGrounded(BaseNodes(loaders), arrays)
    ensures (forall calls: seq<Name> ::
              ShownAfter(arrays, loaders, initial, rank, shared, calls) == Shown(loaders, arrays))
        <==> NothingComesLate(loaders, arrays, initial, shared)
  {
    forall calls: seq<Name>
      ensures ShownAfter(arrays, loaders, initial, rank, shared, calls)
           == ShownWith(BaseNodes(loaders), arrays,
                        AllRefreshed(Credentials(loaders), GrowAll(initial, rank, calls), shared))
    {
      RefreshedCollect(loaders, GrowAll(initial, rank, calls), shared);
    }
    if NothingComesLate(loaders, arrays, initial, shared) {
      forall calls: seq<Name>
        ensures ShownAfter(arrays, loaders, initial, rank, shared, calls) == Shown(loaders, arrays)
      {
        NothingNewShows(loaders, arrays, initial, rank, shared, calls);
      }
    } else {
      var n :| n in BaseNodes(loaders) && !ShowsNowhereNew(loaders, arrays, initial, shared, n);
      var calls := OptionShowsLate(loaders, arrays, initial, rank, shared, n);
    }
  }

  // ---------- whether a rebuild after lookups completes ----------

  /** A node that comes to qualify would not make the injection throw. */
  ghost predicate LateIsInjectable(
    loaders: seq<Loader>, arrays: Arrays, initial: Table, shared: set<Name>, n: Node<Ref>)
  {
    MayComeToQualify(n, Credentials(loaders), initial, shared) ==>
      n.properties.Some? && NoneEmpty(arrays, OwnNames(n))
  }

  ghost predicate AllLateAreInjectable(loaders: seq<Loader>, arrays: Arrays, initial: Table, shared: set<Name>) {
    forall n :: n in BaseNodes(loaders) ==> LateIsInjectable(loaders, arrays, initial, shared, n)
  }

  lemma InjectableAfterLookups(
    loaders: seq<Loader>, arrays: Arrays, initial: Table, rank: Name -> nat, shared: set<Name>, calls: seq<Name>)
    requires Ranked(initial, rank) && Agree(Credentials(loaders), initial, shared)
    requires Injectable(arrays, BaseNodes(loaders), Credentials(loaders))
    requires AllLateAreInjectable(loaders, arrays, initial, shared)
    ensures Injectable(arrays, BaseNodes(loaders),
                       AllRefreshed(Credentials(loaders), GrowAll(initial, rank, calls), shared))
  {
    var base, before := BaseNodes(loaders), Credentials(loaders);
    var after := AllRefreshed(before, GrowAll(initial, rank, calls), shared);
    forall i | 0 <= i < |base|
      ensures NoneEmpty(arrays, OwnTargets(base[i], after))
      ensures Qualifies(base[i], after) ==> base[i].properties.Some?
    {
      NodeInjectableAfterLookups(loaders, arrays, initial, rank, shared, calls, i);
    }
  }

  lemma NodeInjectableAfterLookups(
    loaders: seq<Loader>, arrays: Arrays, initial: Table, rank: Name -> nat, shared: set<Name>, calls: seq<Name>,
    i: nat)
    requires Ranked(initial, rank) && Agree(Credentials(loaders), initial, shared) && i < |BaseNodes(loaders)|
    requires Injectable(arrays, BaseNodes(loaders), Credentials(loaders))
    requires AllLateAreInjectable(loaders, arrays, initial, shared)
    ensures var n := BaseNodes(loaders)[i];
            var after := AllRefreshed(Credentials(loaders), GrowAll(initial, rank, calls), shared);
            NoneEmpty(arrays, OwnTargets(n, after)) && (Qualifies(n, after) ==> n.properties.Some?)
  {
    var n, before := BaseNodes(loaders)[i], Credentials(loaders);
    QualifiesAfterLookups(n, before, initial, rank, shared, calls);
    assert LateIsInjectable(loaders, arrays, initial, shared, n);
    forall r | r in OwnTargets(n, before) ensures At(arrays, r) != [] {
      assert r in Targets(BaseNodes(loaders), before);
    }
  }

  lemma LateThrows(
    loaders: seq<Loader>, arrays: Arrays, initial: Table, rank: Name -> nat, shared: set<Name>, n: Node<Ref>)
    returns (calls: seq<Name>)
    requires Ranked(initial, rank) && Agree(Credentials(loaders), initial, shared)
    requires n in BaseNodes(loaders) && !LateIsInjectable(loaders, arrays, initial, shared, n)
    ensures !Injectable(arrays, BaseNodes(loaders),
                        AllRefreshed(Credentials(loaders), GrowAll(initial, rank, calls), shared))
  {
    var base, before := BaseNodes(loaders), Credentials(loaders);
    ComesToQualifyExactlyWhen(n, before, initial, rank, shared);
    calls :| ComesToQualify(n, before, initial, rank, shared, calls);
    var after := AllRefreshed(before, GrowAll(initial, rank, calls), shared);
    var i :| 0 <= i < |base| && base[i] == n;
    assert Qualifies(base[i], after);
    if n.properties.Some? {
      var r :| r in OwnNames(n) && At(arrays, r) == [];
      assert r in OwnTargets(base[i], after) && r in Targets(base, after);
    }
  }

  /** A rebuild completes after any lookups if and only if no node that may come to qualify lacks
      parameters or has a resource or operation parameter with an empty options array. */
  lemma RebuildAfterLookupsCompletesExactlyWhen(
    arrays: Arrays, next: Ref, loaders: seq<Loader>, initial: Table, rank: Name -> nat, shared: set<Name>)
    requires Ranked(initial, rank) && Agree(Credentials(loaders), initial, shared)
    requires Ready(arrays, next, loaders) && Rebuilt(arrays, next, loaders).1
    ensures (forall calls: seq<Name> :: CompletesAfter(arrays, next, loaders, initial, rank, shared, calls))
        <==> AllLateAreInjectable(loaders, arrays, initial, shared)
  {
    RebuildCompletesExactlyWhen(arrays, next, loaders);
    forall calls: seq<Name>
      ensures CompletesAfter(arrays, next, loaders, initial, rank, shared, calls)
         <==> Injectable(arrays, BaseNodes(loaders),
                         AllRefreshed(Credentials(loaders), GrowAll(initial, rank, calls), shared))
    {
      CompletesExactlyWhen(arrays, next, loaders, initial, rank, shared, calls);
    }
    if AllLateAreInjectable(loaders, arrays, initial, shared) {
      forall calls: seq<Name> ensures CompletesAfter(arrays, next, loaders, initial, rank, shared, calls) {
        InjectableAfterLookups(loaders, arrays, initial, rank, shared, calls);
      }
    } else {
      var n :| n in BaseNodes(loaders) && !LateIsInjectable(loaders, arrays, initial, shared, n);
      var calls := LateThrows(loaders, arrays, initial, rank, shared, n);
      assert !CompletesAfter(arrays, next, loaders, initial, rank, shared, calls);
    }
  }

  ghost predicate CompletesAfter(
    arrays: Arrays, next: Ref, loaders: seq<Loader>, initial: Table, rank: Name -> nat, shared: set<Name>,
    calls: seq<Name>)
    requires Ranked(initial, rank)
  {
    Rebuilt(arrays, next, RefreshedLoaders(loaders, GrowAll(initial, rank, calls), shared)).1
  }

  lemma CompletesExactlyWhen(
    arrays: Arrays, next: Ref, loaders: seq<Loader>, initial: Table, rank: Name -> nat, shared: set<Name>,
    calls: seq<Name>)
    requires Ranked(initial, rank) && Ready(arrays, next, loaders)
    ensures CompletesAfter(arrays, next, loaders, initial, rank, shared, calls)
       <==> Injectable(arrays, BaseNodes(loaders),
                       AllRefreshed(Credentials(loaders), GrowAll(initial, rank, calls), shared))
  {
    RefreshedCollect(loaders, GrowAll(initial, rank, calls), shared);
    RebuildCompletesExactlyWhen(arrays, next, RefreshedLoaders(loaders, GrowAll(initial, rank, calls), shared));
  }

  // ---------- rebuilding again after lookups ----------

  /** Rebuilding again after these lookups completes, and shows the same nodes as the first rebuild. */
  ghost predicate SameAfter(
    arrays: Arrays, next: Ref, loaders: seq<Loader>, initial: Table, rank: Name -> nat, shared: set<Name>,
    calls: seq<Name>)
    requires Ranked(initial, rank)
  {
    var first := Rebuilt(arrays, next, loaders).0;
    && CompletesAfter(first.arrays, first.next, loaders, initial, rank, shared, calls)
    && ShownAfter(first.arrays, loaders, initial, rank, shared, calls) == Shown(loaders, arrays)
  }

  /** That is what it means for the registries. */
  lemma SameAfterIs(
    arrays: Arrays, next: Ref, loaders: seq<Loader>, initial: Table, rank: Name -> nat, shared: set<Name>,
    calls: seq<Name>)
    requires Ranked(initial, rank) && Ready(arrays, next, loaders) && Rebuilt(arrays, next, loaders).1
    ensures var first := Rebuilt(arrays, next, loaders).0;
            var live := RefreshedLoaders(loaders, GrowAll(initial, rank, calls), shared);
            var (second, completed) := Rebuilt(first.arrays, first.next, live);
            SameAfter(arrays, next, loaders, initial, rank, shared, calls)
            <==> completed && ReadAll(second.nodes, second.arrays) == ReadAll(first.nodes, first.arrays)
  {
    var first := Rebuilt(arrays, next, loaders).0;
    RebuildShows(arrays, next, loaders);
    RebuildLeaves(arrays, next, loaders);
    ShowsIfItCompletes(first.arrays, first.next, loaders, initial, rank, shared, calls);
  }

  lemma ShowsIfItCompletes(
    arrays: Arrays, next: Ref, loaders: seq<Loader>, initial: Table, rank: Name -> nat, shared: set<Name>,
    calls: seq<Name>)
    requires Ranked(initial, rank) && Ready(arrays, next, loaders)
    ensures var (second, completed) :=
              Rebuilt(arrays, next, RefreshedLoaders(loaders, GrowAll(initial, rank, calls), shared));
            && completed == CompletesAfter(arrays, next, loaders, initial, rank, shared, calls)
            && (completed ==> ReadAll(second.nodes, second.arrays)
                              == ShownAfter(arrays, loaders, initial, rank, shared, calls))
  {
    var live := RefreshedLoaders(loaders, GrowAll(initial, rank, calls), shared);
    RefreshedCollect(loaders, GrowAll(initial, rank, calls), shared);
    if Rebuilt(arrays, next, live).1 {
      RebuildShows(arrays, next, live);
    }
  }

  lemma NoLookupsChangeNothing(
    arrays: Arrays, loaders: seq<Loader>, initial: Table, rank: Name -> nat, shared: set<Name>)
    requires Ranked(initial, rank) && Agree(Credentials(loaders), initial, shared)
    ensures ShownAfter(arrays, loaders, initial, rank, shared, []) == Shown(loaders, arrays)
  {
    var credentials := Credentials(loaders);
    assert GrowAll(initial, rank, []) == initial;
    RefreshedCollect(loaders, initial, shared);
    forall i | 0 <= i < |credentials|
      ensures AllRefreshed(credentials, initial, shared)[i] == credentials[i]
    {
      assert credentials[i] in credentials;
    }
    assert AllRefreshed(credentials, initial, shared) == credentials;
  }

  /** Rebuilding, looking up any parent types and rebuilding again completes and shows the same nodes as
      rebuilding once, for all lookups, if and only if nothing leaks through a shared array, and the nodes
      that may come to qualify make nothing throw and show nothing new. */
  lemma RebuildingAfterLookupsIsOnceExactlyWhen(
    arrays: Arrays, next: Ref, loaders: seq<Loader>, initial: Table, rank: Name -> nat, shared: set<Name>)
    requires Ranked(initial, rank) && Agree(Credentials(loaders), initial, shared)
    requires Ready(arrays, next, loaders) && Rebuilt(arrays, next, loaders).1
    ensures var left := Rebuilt(arrays, next, loaders).0.arrays;
            (forall calls: seq<Name> :: SameAfter(arrays, next, loaders, initial, rank, shared, calls))
            <==> && NothingLeaks(loaders, arrays)
                 && NothingComesLate(loaders, left, initial, shared)
                 && AllLateAreInjectable(loaders, left, initial, shared)
  {
    var first := Rebuilt(arrays, next, loaders).0;
    FirstLeavesReady(arrays, next, loaders);
    RebuildAfterLookupsCompletesExactlyWhen(first.arrays, first.next, loaders, initial, rank, shared);
    LookupsShowNothingNewExactlyWhen(loaders, first.arrays, initial, rank, shared);
    ShowsTheSameExactlyWhen(loaders, arrays, first.arrays);
    NoLookupsChangeNothing(first.arrays, loaders, initial, rank, shared);
    if forall calls: seq<Name> :: SameAfter(arrays, next, loaders, initial, rank, shared, calls) {
      assert SameAfter(arrays, next, loaders, initial, rank, shared, []);
      SameAfterAll(arrays, next, loaders, initial, rank, shared);
    }
  }

  lemma FirstLeavesReady(arrays: Arrays, next: Ref, loaders: seq<Loader>)
    requires Ready(arrays, next, loaders) && Rebuilt(arrays, next, loaders).1
    ensures var first := Rebuilt(arrays, next, loaders).0;
            && Ready(first.arrays, first.next, loaders) && Rebuilt(first.arrays, first.next, loaders).1
            && Follows(arrays, first.arrays, loaders)
  {
    var first := Rebuilt(arrays, next, loaders).0;
    RebuildCompletesExactlyWhen(arrays, next, loaders);
    RebuildLeaves(arrays, next, loaders);
    StillInjectable(loaders, arrays, first.arrays);
    RebuildCompletesExactlyWhen(first.arrays, first.next, loaders);
  }

  lemma SameAfterAll(
    arrays: Arrays, next: Ref, loaders: seq<Loader>, initial: Table, rank: Name -> nat, shared: set<Name>)
    requires Ranked(initial, rank)
    requires forall calls: seq<Name> :: SameAfter(arrays, next, loaders, initial, rank, shared, calls)
    ensures var first := Rebuilt(arrays, next, loaders).0;
            forall calls: seq<Name> ::
              && CompletesAfter(first.arrays, first.next, loaders, initial, rank, shared, calls)
              && ShownAfter(first.arrays, loaders, initial, rank, shared, calls) == Shown(loaders, arrays)
  {
    var first := Rebuilt(arrays, next, loaders).0;
    forall calls: seq<Name>
      ensures CompletesAfter(first.arrays, first.next, loaders, initial, rank, shared, calls)
      ensures ShownAfter(first.arrays, loaders, initial, rank, shared, calls) == Shown(loaders, arrays)
    {
      assert SameAfter(arrays, next, loaders, initial, rank, shared, calls);
    }
  }
}
