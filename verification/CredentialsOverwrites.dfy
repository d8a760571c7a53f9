/** The service that keeps the credential overwrites and applies them to credential data. */
module CredentialsOverwritesModel {
  import opened Options
  import opened ExtendsGraph
  import opened OverwriteResolution
  import opened OverwriteChains
  import opened OverwriteOrders
  import opened CredentialTypesModel

  /** Null, undefined and the empty string count as no data. */
  predicate IsBlank(data: Entries, k: string) {
    k !in data || data[k] in {Null, Undefined, Text("")}
  }

  /** `data` with every blank overwritten key filled. */
  function Filled(overwrites: Entries, data: Entries): Entries {
    map k | k in data.Keys + overwrites.Keys ::
      if k in overwrites && IsBlank(data, k) then overwrites[k] else data[k]
  }

  /** Filling twice is filling once, even where an overwrite is itself blank. */
  lemma FilledTwice(overwrites: Entries, data: Entries)
    ensures Filled(overwrites, Filled(overwrites, data)) == Filled(overwrites, data)
  {
    var once := Filled(overwrites, data);
    forall k | k in once ensures Filled(overwrites, once)[k] == once[k] {
      if k in overwrites && IsBlank(once, k) {
        assert once[k] == overwrites[k];
      }
    }
  }

  /** The blank keys are filled one by one, in any order. */
  method Fill(overwrites: Entries, data: Entries) returns (result: Entries)
    ensures result == Filled(overwrites, data)
    ensures result.Keys == data.Keys + overwrites.Keys
    ensures forall k :: k in data && data[k] != Null && data[k] != Undefined && data[k] != Text("") ==>
              result[k] == data[k]
    ensures forall k :: k in overwrites && k in data && (data[k] == Null || data[k] == Undefined || data[k] == Text(""))
              ==> result[k] == overwrites[k]
    ensures forall k :: k in overwrites && k !in data ==> result[k] == overwrites[k]
    ensures forall k :: k in data && k !in overwrites ==> result[k] == data[k]
  {
    result := data;
    var keys := overwrites.Keys;
    while keys != {}
      invariant keys <= overwrites.Keys
      invariant result.Keys == data.Keys + (overwrites.Keys - keys)
      invariant forall k :: k in result ==>
        result[k] == if k in overwrites && k !in keys && IsBlank(data, k) then overwrites[k] else data[k]
      decreases keys
    {
      var k :| k in keys;
      if IsBlank(result, k) {
        result := result[k := overwrites[k]];
      }
      keys := keys - {k};
    }
  }

  /** The entries of the types that have some, assigned from the last type to the first. */
  method MergeBackwards(data: Overwrites, types: seq<Name>) returns (merged: Entries)
    ensures merged == MergeNearestFirst(data, types)
  {
    merged := map[];
    var i := |types|;
    while i > 0
      invariant 0 <= i <= |types|
      invariant merged == MergeNearestFirst(data, types[i..])
    {
      i := i - 1;
      assert types[i..][1..] == types[i + 1..];
      if types[i] in data {
        merged := merged + data[types[i]];
      }
    }
    assert types[0..] == types;
  }

  lemma DedupOfOrder(table: Table, rank: Name -> nat, t: Name)
    requires Ranked(table, rank)
    ensures Dedup(Order(table, rank, t)) == Order(table, rank, t)
  {
    OrderListsTheAncestors(table, rank, t);
    DedupOfDistinct(Order(table, rank, t));
  }

  /** What a lookup returns after the data was set to `raw`, for every graph and on a chain. */
  lemma LookupFacts(
    initial: Table, d: Declarations, rank: Name -> nat, raw: Overwrites, order: seq<Name>, t: Name)
    requires Declares(initial, d, rank) && Enumerates(order, raw)
    ensures var merged := Lookup(Resolved(d, rank, raw, order), initial, rank, t);
            && (forall k :: k in merged <==> exists y :: SelfOrAncestor(initial, t, y) && k in EntriesOf(raw, y))
            && Submap(EntriesOf(raw, t), merged)
            && AllComeFrom(d.lists, raw, t, merged)
            && (ChainAbove(initial, t) && ReadsChainAbove(initial, d, t) ==>
                  merged == RootMerge(initial, rank, raw, t))
  {
    StoredIsSound(d, rank, raw, order);
    SettledHasSameAncestors(initial, d.lists, rank);
    SettledIncludes(initial, d.lists, rank);
    LookupTakesTheNearest(initial, d, rank, raw, Resolved(d, rank, raw, order), t);
    LookupHasTheKeysOfAllAncestors(initial, d, rank, raw, Resolved(d, rank, raw, order), t);
    if ChainAbove(initial, t) && ReadsChainAbove(initial, d, t) {
      LookupAfterSetting(initial, d, rank, raw, order, t);
    }
  }

  class CredentialsOverwrites {
    const credentialTypes: CredentialTypes
    var overwriteData: Overwrites
    var resolvedTypes: seq<Name>

    /** The data last set, the order its types were visited in, and the lists read meanwhile. */
    ghost var raw: Overwrites
    ghost var order: seq<Name>
    ghost var read: Declarations

    ghost predicate Valid()
      reads this, credentialTypes
    {
      && credentialTypes.Valid()
      && Declares(credentialTypes.declared, read, credentialTypes.rank)
      && Enumerates(order, raw)
      && overwriteData == Resolved(read, credentialTypes.rank, raw, order)
    }

    constructor (types: CredentialTypes, data: Overwrites)
      requires types.Valid()
      ensures Valid() && credentialTypes == types
      ensures raw == data && read == types.Declarations()
    {
      credentialTypes := types;
      new;
      SetData(data);
    }

    /** Resolves one type; only the memo changes. */
    method GetOverwrites(t: Name) returns (found: Option<Entries>)
      requires Ranked(credentialTypes.ClassLists(), credentialTypes.rank)
      modifies this`resolvedTypes
      ensures (resolvedTypes, found)
           == Resolve(credentialTypes.Declarations(), credentialTypes.rank, overwriteData, old(resolvedTypes), t)
      decreases credentialTypes.rank(t)
    {
      ghost var d, rank, memo := credentialTypes.Declarations(), credentialTypes.rank, resolvedTypes;
      if t in resolvedTypes {
        return if t in overwriteData then Some(overwriteData[t]) else None;
      }
      if !credentialTypes.Recognizes(t) {
        return None;
      }
      var lists := credentialTypes.ClassLists();
      if t !in lists {
        resolvedTypes := resolvedTypes + [t];
        return if t in overwriteData then Some(overwriteData[t]) else None;
      }
      var overwrites: Entries := map[];
      for i := 0 to |lists[t]|
        invariant ResolveEach(d, rank, rank(t), overwriteData, resolvedTypes, lists[t][i..], overwrites)
               == ResolveEach(d, rank, rank(t), overwriteData, memo, lists[t], map[])
      {
        var inherited := GetOverwrites(lists[t][i]);
        overwrites := Assign(overwrites, inherited);
        assert lists[t][i..][1..] == lists[t][i + 1..];
      }
      if t in overwriteData {
        overwrites := overwrites + overwriteData[t];
      }
      resolvedTypes := resolvedTypes + [t];
      found := Some(overwrites);
    }

    /** Replaces the data and resolves each of its types, in some order. */
    method SetData(data: Overwrites)
      requires credentialTypes.Valid()
      modifies this
      ensures Valid()
      ensures raw == data && read == credentialTypes.Declarations()
    {
      resolvedTypes := [];
      overwriteData := data;
      raw, read, order := data, credentialTypes.Declarations(), [];
      credentialTypes.ClassListsAreDeclared();
      ghost var rank := credentialTypes.rank;
      var pending := data.Keys;
      while pending != {}
        invariant read == credentialTypes.Declarations() && raw == data
        invariant Declares(credentialTypes.declared, read, rank)
        invariant pending <= data.Keys && Distinct(order)
        invariant forall t :: t in order <==> t in data && t !in pending
        invariant (resolvedTypes, overwriteData) == ResolveAll(read, rank, data, [], order)
        decreases pending
      {
        var t :| t in pending;
        ResolveAllSnoc(read, rank, data, [], order, t);
        var overwrites := GetOverwrites(t);
        if overwrites.Some? && |overwrites.value| > 0 {
          overwriteData := overwriteData[t := overwrites.value];
        }
        order, pending := order + [t], pending - {t};
      }
    }

    /** Merges the stored overwrites of `name` and its ancestors, the nearest last. */
    method Get(name: Name) returns (merged: Entries)
      requires Valid()
      modifies credentialTypes`known
      ensures Valid()
      ensures merged == Lookup(overwriteData, credentialTypes.declared, credentialTypes.rank, name)
      ensures credentialTypes.known == Grow(old(credentialTypes.known), credentialTypes.rank, name)
      ensures forall k :: k in merged <==>
                exists y :: SelfOrAncestor(credentialTypes.declared, name, y) && k in EntriesOf(raw, y)
      ensures Submap(EntriesOf(raw, name), merged)
      ensures AllComeFrom(read.lists, raw, name, merged)
      ensures ChainAbove(credentialTypes.declared, name) && ReadsChainAbove(credentialTypes.declared, read, name) ==>
                merged == RootMerge(credentialTypes.declared, credentialTypes.rank, raw, name)
    {
      var parents := credentialTypes.GetParentTypes(name);
      merged := MergeBackwards(overwriteData, [name] + parents);
      DedupOfOrder(credentialTypes.declared, credentialTypes.rank, name);
      MergeIgnoresRepetition(overwriteData, name, parents, Order(credentialTypes.declared, credentialTypes.rank, name));
      LookupFacts(credentialTypes.declared, read, credentialTypes.rank, raw, order, name);
    }

    /** Fills blank entries of the data; the data given and the stored overwrites stay as they are. */
    method ApplyOverwrite(t: Name, data: Entries) returns (result: Entries)
      requires Valid()
      modifies credentialTypes`known
      ensures Valid()
      ensures var overwrites := Lookup(overwriteData, credentialTypes.declared, credentialTypes.rank, t);
              && result == Filled(overwrites, data)
              && result.Keys == data.Keys + overwrites.Keys
              && (forall k :: k in data && data[k] != Null && data[k] != Undefined && data[k] != Text("") ==>
                    result[k] == data[k])
              && (forall k :: k in overwrites && (k !in data || data[k] in {Null, Undefined, Text("")}) ==>
                    result[k] == overwrites[k])
    {
      var overwrites := Get(t);
      result := Fill(overwrites, data);
    }

    function GetAll(): Overwrites
      reads this
    {
      overwriteData
    }
  }

  // ---------- a run of the service ----------

  /** Three classes in a row, `c` extends `p` extends `g`, none extended by another one but so, all loaded
      eagerly and not looked up yet. */
  ghost predicate EagerChain(types: CredentialTypes, c: Name, p: Name, g: Name)
    reads types
  {
    && types.Valid() && types.known == types.declared && c in types.shared
    && c != p && c != g && p != g && g in types.recognizedTypes
    && types.declared == map[c := [p], p := [g]]
  }

  /** A lookup of a type with one parent, whose own lookup changes nothing, appends the list of the parent. */
  lemma GrownFromOne(table: Table, rank: Name -> nat, t: Name, p: Name)
    requires Ranked(table, rank) && t in table && table[t] == [p] && Grow(table, rank, p) == table
    ensures Grow(table, rank, t) == Push(table, t, p)
  {
    assert p in table[t] && [p][1..] == [];
    PushKeepsRanked(table, rank, t, p);
    assert GrowEach(table, rank, t, [p]) == GrowEach(Push(table, t, p), rank, t, []);
  }

  /** One lookup of `c` makes its list name the grandparent last. */
  lemma GrownEagerly(table: Table, rank: Name -> nat, c: Name, p: Name, g: Name)
    requires Ranked(table, rank) && c != p && c != g && p != g && table == map[c := [p], p := [g]]
    ensures Grow(table, rank, c) == map[c := [p, g], p := [g]]
  {
    assert [g] + [] == [g] && [p] + [g] == [p, g];
    assert Grow(table, rank, g) == table && Push(table, p, g) == table;
    GrownFromOne(table, rank, p, g);
    GrownFromOne(table, rank, c, p);
    assert Push(table, c, p) == map[c := [p, g], p := [g]];
  }

  /** With these lists read, `c` is looked up with what the last entry of its own has. */
  lemma LastOfTheChain(
    initial: Table, d: Declarations, rank: Name -> nat, data: Overwrites, order: seq<Name>,
    c: Name, p: Name, g: Name, q: Name, k: string)
    requires Declares(initial, d, rank) && Enumerates(order, data) && c != p && c != g
    requires d.lists.Keys == {c, p} && d.lists[p] == [g] && q in d.recognized
    requires (d.lists[c] == [p] && q == p) || (d.lists[c] == [p, g] && q == g)
    requires c in data && q in data && k !in data[c] && k in data[q]
    ensures var found := Lookup(Resolved(d, rank, data, order), initial, rank, c);
            k in found && found[k] == data[q][k]
  {
    UnextendedTakesTheLast(initial, d, rank, data, order, c, k);
  }

  /** Set, look up, set again: the first lookup finds the value of the parent, the second one, of the same
      data, that of the grandparent. */
  method SetLookUpSet(types: CredentialTypes, data: Overwrites, c: Name, p: Name, g: Name, k: string)
    returns (first: Entries, second: Entries)
    requires EagerChain(types, c, p, g)
    requires c in data && p in data && g in data && k !in data[c] && k in data[p] && k in data[g]
    modifies types`known
    ensures k in first && first[k] == data[p][k]
    ensures k in second && second[k] == data[g][k]
  {
    ghost var initial, rank := types.declared, types.rank;
    var service := new CredentialsOverwrites(types, data);
    types.SharedListsAreLive();
    LastOfTheChain(initial, service.read, rank, data, service.order, c, p, g, p, k);
    first := service.Get(c);
    GrownEagerly(initial, rank, c, p, g);
    second := SetAndLookUp(service, data, c, p, g, k);
  }

  /** Set and looked up when the list of `c` has grown. */
  method SetAndLookUp(service: CredentialsOverwrites, data: Overwrites, c: Name, p: Name, g: Name, k: string)
    returns (found: Entries)
    requires service.Valid() && c in service.credentialTypes.shared && g in service.credentialTypes.recognizedTypes
    requires c != p && c != g && p != g && service.credentialTypes.declared == map[c := [p], p := [g]]
    requires service.credentialTypes.known == map[c := [p, g], p := [g]]
    requires c in data && g in data && k !in data[c] && k in data[g]
    modifies service, service.credentialTypes`known
    ensures k in found && found[k] == data[g][k]
  {
    ghost var types := service.credentialTypes;
    service.SetData(data);
    types.SharedListsAreLive();
    LastOfTheChain(types.declared, service.read, types.rank, data, service.order, c, p, g, g, k);
    found := service.Get(c);
  }

  /** Such a run: the same data, and another value. */
  method ChildParentGrandparent() returns (first: Value, second: Value)
    ensures first == Text("p") && second == Text("g")
  {
    ghost var rank := t => if t == "c" then 2 else if t == "p" then 1 else 0;
    var declared := map["c" := ["p"], "p" := ["g"]];
    var types := new CredentialTypes({"c", "p", "g"}, declared, {"c", "p", "g"}, rank);
    var data: Overwrites :=
      map["c" := map["x" := Text("c")], "p" := map["k" := Text("p")], "g" := map["k" := Text("g")]];
    var before, after := SetLookUpSet(types, data, "c", "p", "g", "k");
    first, second := before["k"], after["k"];
  }

  lemma GrownNamesBoth(initial: Table, table: Table, rank: Name -> nat, t: Name, p: Name, q: Name)
    requires Ranked(initial, rank) && Settled(initial, table, rank)
    requires p in Parents(initial, t) && q in Parents(initial, p)
    ensures t in initial && p != q
    ensures p in Parents(Grow(table, rank, t), t) && q in Parents(Grow(table, rank, t), t)
  {
    var grown := Parents(Grow(table, rank, t), t);
    GrowKeepsSettled(initial, table, rank, t);
    OrderListsTheAncestors(initial, rank, t);
    AncestorViaParent(initial, p, q, q);
    AncestorViaParent(initial, t, p, p);
    AncestorViaParent(initial, t, p, q);
    assert p in Dedup(grown) && q in Dedup(grown);
    AncestorRank(initial, rank, p, q);
  }

  /** After one lookup of a shared type with a parent and a grandparent, setting data reads a list that
      names two types for it. */
  method LookUpThenSet(service: CredentialsOverwrites, data: Overwrites, t: Name, p: Name, q: Name)
    requires service.Valid() && t in service.credentialTypes.shared
    requires p in Parents(service.credentialTypes.declared, t) && q in Parents(service.credentialTypes.declared, p)
    requires p in service.credentialTypes.recognizedTypes && q in service.credentialTypes.recognizedTypes
    modifies service, service.credentialTypes`known
    ensures service.Valid() && service.raw == data
    ensures !OneRecognizedParent(service.read, t)
  {
    var types := service.credentialTypes;
    GrownNamesBoth(types.declared, types.known, types.rank, t, p, q);
    var _ := service.Get(t);
    service.SetData(data);
    types.SharedListsAreLive();
    assert p in Parents(service.read.lists, t) && q in Parents(service.read.lists, t);
  }
}
