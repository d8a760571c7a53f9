/** Credential types that extend at most one parent: a lookup returns the merge
    from the root ancestor down to the type, whatever the visiting order and
    however often the data is set again, exactly when no list that the resolution
    reads has grown to a second recognised type. */
module OverwriteChains {
  import opened Options
  import opened ExtendsGraph
  import opened OverwriteResolution

  ghost predicate OneParent(table: Table, t: Name) {
    forall p, q :: p in Parents(table, t) && q in Parents(table, t) ==> p == q
  }

  /** `t` and each of its ancestors extend at most one parent. */
  ghost predicate ChainAbove(table: Table, t: Name) {
    forall x :: SelfOrAncestor(table, t, x) ==> OneParent(table, x)
  }

  ghost predicate OneRecognizedParent(d: Declarations, x: Name) {
    forall p, q :: p in Parents(d.lists, x) && q in Parents(d.lists, x) && p in d.recognized && q in d.recognized
      ==> p == q
  }

  /** No list read while resolving `t` names two recognised types. */
  ghost predicate ReadsChainAbove(initial: Table, d: Declarations, t: Name) {
    forall x :: SelfOrAncestor(initial, t, x) ==> OneRecognizedParent(d, x)
  }

  /** The raw overwrites merged from the root ancestor down to `t`. */
  ghost function RootMerge(initial: Table, rank: Name -> nat, raw: Overwrites, t: Name): Entries
    requires Ranked(initial, rank)
    decreases rank(t), 1
  {
    AboveMerge(initial, rank, raw, t) + EntriesOf(raw, t)
  }

  ghost function AboveMerge(initial: Table, rank: Name -> nat, raw: Overwrites, t: Name): Entries
    requires Ranked(initial, rank)
    decreases rank(t), 0
  {
    if Parents(initial, t) == [] then map[]
    else
      assert Parents(initial, t)[0] in Parents(initial, t);
      RootMerge(initial, rank, raw, Parents(initial, t)[0])
  }

  lemma ChainStepsUp(initial: Table, d: Declarations, t: Name, p: Name)
    requires p in Parents(initial, t)
    ensures ChainAbove(initial, t) ==> ChainAbove(initial, p)
    ensures ReadsChainAbove(initial, d, t) ==> ReadsChainAbove(initial, d, p)
  {
    forall x | SelfOrAncestor(initial, p, x) ensures SelfOrAncestor(initial, t, x) {
      AncestorViaParent(initial, t, p, x);
    }
  }

  // ---------- the order on a chain ----------

  lemma {:induction false} DedupOfConstant(s: seq<Name>, p: Name)
    requires s != [] && forall x :: x in s ==> x == p
    ensures Dedup(s) == [p]
  {
    var front, x := s[..|s| - 1], s[|s| - 1];
    assert x in s;
    if front == [] {
    } else {
      assert forall y :: y in front ==> y in s;
      DedupOfConstant(front, p);
      assert front[0] in front;
    }
  }

  lemma OrderOnChain(initial: Table, rank: Name -> nat, t: Name)
    requires Ranked(initial, rank) && OneParent(initial, t)
    ensures Parents(initial, t) == [] ==> Order(initial, rank, t) == []
    ensures Parents(initial, t) != [] ==>
      Order(initial, rank, t) == [Parents(initial, t)[0]] + Order(initial, rank, Parents(initial, t)[0])
  {
    var list := Parents(initial, t);
    if list == [] {
      assert list + OrderOfAll(initial, rank, rank(t), list) == [];
    } else {
      var p := list[0];
      assert p in list;
      var o, more := Order(initial, rank, p), OrderOfAll(initial, rank, rank(t), list[1..]);
      assert forall x :: x in list[1..] ==> x in list;
      SameParentAgain(initial, rank, rank(t), list[1..], p);
      DedupOfConstant(list, p);
      DedupOfParentFirst(list, p, o, more);
      OrderListsTheAncestors(initial, rank, p);
      if p in o {
        AncestorRank(initial, rank, p, p);
      }
      DedupOfDistinct([p] + o);
    }
  }

  /** A parent listed again adds no ancestor. */
  lemma SameParentAgain(initial: Table, rank: Name -> nat, bound: nat, list: seq<Name>, p: Name)
    requires Ranked(initial, rank) && forall x :: x in list ==> x == p && rank(x) < bound
    ensures forall a :: a in OrderOfAll(initial, rank, bound, list) ==> a in Order(initial, rank, p)
  {
    forall a | a in OrderOfAll(initial, rank, bound, list) ensures a in Order(initial, rank, p) {
      InOrderOfAll(initial, rank, bound, list, a);
    }
  }

  lemma DedupOfParentFirst(list: seq<Name>, p: Name, o: seq<Name>, more: seq<Name>)
    requires Dedup(list) == [p] && forall a :: a in more ==> a in o
    ensures Dedup(list + (o + more)) == Dedup([p] + o)
  {
    DedupOfConstant([p], p);
    DedupLeft(list, [p], o + more);
    ConcatAssociates([p], o, more);
    DedupAbsorbs([p] + o, more);
  }

  // ---------- the sandwich ----------

  /** Every entry stored for a type whose ancestors form a chain agrees with the full merge. */
  ghost predicate Agrees(initial: Table, d: Declarations, rank: Name -> nat, raw: Overwrites, data: Overwrites)
    requires Ranked(initial, rank)
  {
    forall x :: x in data && ChainAbove(initial, x) && ReadsChainAbove(initial, d, x) ==>
      Submap(data[x], RootMerge(initial, rank, raw, x))
  }

  /** The declarations that the resolution reads: the initial lists, or what lookups made of them. */
  ghost predicate Declares(initial: Table, d: Declarations, rank: Name -> nat) {
    && Ranked(initial, rank)
    && Settled(initial, d.lists, rank)
    && initial.Keys <= d.recognized
  }

  /** On a chain, a list read by the resolution names at most one recognised type, the parent. */
  lemma RecognizedEntryIsTheParent(initial: Table, d: Declarations, rank: Name -> nat, t: Name, p: Name)
    requires Declares(initial, d, rank)
    requires OneParent(initial, t) && OneRecognizedParent(d, t)
    requires p in Parents(d.lists, t) && p in d.recognized
    ensures Parents(initial, t) != [] && p == Parents(initial, t)[0]
  {
    assert SettledAt(initial, d.lists, rank, t);
    if d.lists[t] != initial[t] && p !in initial[t] {
      assert p in d.lists[t][|initial[t]|..];
      var q :| q in Parents(initial, t) && Ancestor(initial, q, p);
      var _ := AncestorUnfolds(initial, q, p);
    }
    assert initial[t][0] in Parents(initial, t);
  }

  lemma {:induction false} ResolveAgrees(
    initial: Table, d: Declarations, rank: Name -> nat, raw: Overwrites, data: Overwrites, memo: seq<Name>, t: Name)
    requires Declares(initial, d, rank)
    requires KeepsRaw(raw, data) && Agrees(initial, d, rank, raw, data)
    requires forall x :: x in memo ==> x in d.recognized
    requires ChainAbove(initial, t) && ReadsChainAbove(initial, d, t)
    ensures var (memo', found) := Resolve(d, rank, data, memo, t);
            && (forall x :: x in memo' ==> x in d.recognized)
            && (found.Some? ==> t in d.recognized && Submap(found.value, RootMerge(initial, rank, raw, t)))
    decreases rank(t), |Parents(d.lists, t)| + 1
  {
    if t !in memo && t in d.recognized && t in d.lists {
      ResolveEachAgrees(initial, d, rank, t, raw, data, memo, d.lists[t], map[]);
      if t in data {
        assert Submap(raw[t], data[t]);
      }
    }
  }

  lemma {:induction false} ResolveEachAgrees(
    initial: Table, d: Declarations, rank: Name -> nat, t: Name, raw: Overwrites, data: Overwrites,
    memo: seq<Name>, list: seq<Name>, merged: Entries)
    requires Declares(initial, d, rank)
    requires KeepsRaw(raw, data) && Agrees(initial, d, rank, raw, data)
    requires forall x :: x in memo ==> x in d.recognized
    requires ChainAbove(initial, t) && ReadsChainAbove(initial, d, t)
    requires forall p :: p in list ==> p in Parents(d.lists, t) && rank(p) < rank(t)
    requires Submap(merged, AboveMerge(initial, rank, raw, t))
    ensures var (memo', merged') := ResolveEach(d, rank, rank(t), data, memo, list, merged);
            && (forall x :: x in memo' ==> x in d.recognized)
            && Submap(merged', AboveMerge(initial, rank, raw, t))
    decreases rank(t), |list|
  {
    if list == [] {
    } else {
      var p := list[0];
      var (memo', found) := Resolve(d, rank, data, memo, p);
      SelfReads(initial, d, t);
      if p in d.recognized {
        RecognizedEntryIsTheParent(initial, d, rank, t, p);
        ChainStepsUp(initial, d, t, p);
        ResolveAgrees(initial, d, rank, raw, data, memo, p);
      }
      ResolveEachAgrees(initial, d, rank, t, raw, data, memo', list[1..], Assign(merged, found));
    }
  }

  lemma SelfReads(initial: Table, d: Declarations, t: Name)
    ensures ChainAbove(initial, t) ==> OneParent(initial, t)
    ensures ReadsChainAbove(initial, d, t) ==> OneRecognizedParent(d, t)
  {
    assert SelfOrAncestor(initial, t, t);
  }

  /** The sandwich: after each step every stored value keeps its raw entries and agrees with the merge. */
  lemma {:induction false} ResolveAllAgrees(
    initial: Table, d: Declarations, rank: Name -> nat, raw: Overwrites, data: Overwrites,
    memo: seq<Name>, order: seq<Name>)
    requires Declares(initial, d, rank)
    requires Sound(d.lists, raw, data) && Agrees(initial, d, rank, raw, data)
    requires forall x :: x in memo ==> x in d.recognized
    requires forall x :: x in order ==> x in raw
    ensures var data' := ResolveAll(d, rank, data, memo, order).1;
            Sound(d.lists, raw, data') && Agrees(initial, d, rank, raw, data')
    decreases |order|
  {
    if order == [] {
    } else {
      var t := order[0];
      var (memo', found) := Resolve(d, rank, data, memo, t);
      MemoStaysRecognized(d, rank, data, memo, t);
      ResolveIsSound(d, rank, raw, data, memo, t);
      if ChainAbove(initial, t) && ReadsChainAbove(initial, d, t) {
        ResolveAgrees(initial, d, rank, raw, data, memo, t);
      }
      StoreKeepsSound(d.lists, raw, data, t, found);
      StoreKeepsAgreement(initial, d, rank, raw, data, t, found);
      ResolveAllAgrees(initial, d, rank, raw, Store(data, t, found), memo', order[1..]);
    }
  }

  lemma StoreKeepsAgreement(
    initial: Table, d: Declarations, rank: Name -> nat, raw: Overwrites, data: Overwrites,
    t: Name, found: Option<Entries>)
    requires Ranked(initial, rank)
    requires Agrees(initial, d, rank, raw, data)
    requires found.Some? && ChainAbove(initial, t) && ReadsChainAbove(initial, d, t) ==>
      Submap(found.value, RootMerge(initial, rank, raw, t))
    ensures Agrees(initial, d, rank, raw, Store(data, t, found))
  {
  }

  lemma {:induction false} MemoStaysRecognized(
    d: Declarations, rank: Name -> nat, data: Overwrites, memo: seq<Name>, t: Name)
    requires Ranked(d.lists, rank)
    requires forall x :: x in memo ==> x in d.recognized
    ensures forall x :: x in Resolve(d, rank, data, memo, t).0 ==> x in d.recognized
    decreases rank(t), |Parents(d.lists, t)| + 1
  {
    if t !in memo && t in d.recognized && t in d.lists {
      MemoStaysRecognizedEach(d, rank, rank(t), data, memo, d.lists[t], map[]);
    }
  }

  lemma {:induction false} MemoStaysRecognizedEach(
    d: Declarations, rank: Name -> nat, bound: nat, data: Overwrites, memo: seq<Name>, list: seq<Name>, merged: Entries)
    requires Ranked(d.lists, rank)
    requires forall p :: p in list ==> rank(p) < bound
    requires forall x :: x in memo ==> x in d.recognized
    ensures forall x :: x in ResolveEach(d, rank, bound, data, memo, list, merged).0 ==> x in d.recognized
    decreases bound, |list|
  {
    if list == [] {
    } else {
      MemoStaysRecognized(d, rank, data, memo, list[0]);
      var (memo', found) := Resolve(d, rank, data, memo, list[0]);
      MemoStaysRecognizedEach(d, rank, bound, data, memo', list[1..], Assign(merged, found));
    }
  }

  lemma {:induction false} RawAgrees(initial: Table, d: Declarations, rank: Name -> nat, raw: Overwrites)
    requires Ranked(initial, rank)
    ensures Agrees(initial, d, rank, raw, raw)
  {
  }

  // ---------- the lookup on a chain ----------

  lemma LookupUnfolds(data: Overwrites, initial: Table, rank: Name -> nat, t: Name)
    requires Ranked(initial, rank) && OneParent(initial, t)
    ensures Parents(initial, t) == [] ==> Lookup(data, initial, rank, t) == EntriesOf(data, t)
    ensures Parents(initial, t) != [] ==>
      Lookup(data, initial, rank, t) == Lookup(data, initial, rank, Parents(initial, t)[0]) + EntriesOf(data, t)
  {
    OrderOnChain(initial, rank, t);
    var order := Order(initial, rank, t);
    assert ([t] + order)[1..] == order;
    assert Lookup(data, initial, rank, t) == MergeNearestFirst(data, order) + EntriesOf(data, t);
    if Parents(initial, t) == [] {
      assert MergeNearestFirst(data, order) == map[];
      assert map[] + EntriesOf(data, t) == EntriesOf(data, t);
    }
  }

  /** Between the raw entries and the full merge, the lookup cannot tell the stored tables apart. */
  lemma {:induction false} SandwichedLookup(
    initial: Table, d: Declarations, rank: Name -> nat, raw: Overwrites, data: Overwrites, t: Name)
    requires Ranked(initial, rank)
    requires KeepsRaw(raw, data) && Agrees(initial, d, rank, raw, data)
    requires ChainAbove(initial, t) && ReadsChainAbove(initial, d, t)
    ensures Lookup(data, initial, rank, t) == RootMerge(initial, rank, raw, t)
    decreases rank(t)
  {
    SelfReads(initial, d, t);
    LookupUnfolds(data, initial, rank, t);
    if Parents(initial, t) != [] {
      var p := Parents(initial, t)[0];
      assert p in Parents(initial, t);
      ChainStepsUp(initial, d, t, p);
      SandwichedLookup(initial, d, rank, raw, data, p);
    }
    if t in data {
      SandwichedSum(AboveMerge(initial, rank, raw, t), raw[t], data[t]);
    }
  }

  lemma SandwichedSum(above: Entries, own: Entries, stored: Entries)
    requires Submap(own, stored) && Submap(stored, above + own)
    ensures above + stored == above + own
  {
  }

  /** After the data is set, in any visiting order, a lookup on a chain returns the root-to-`t` merge. */
  lemma LookupAfterSetting(
    initial: Table, d: Declarations, rank: Name -> nat, raw: Overwrites, order: seq<Name>, t: Name)
    requires Declares(initial, d, rank) && Enumerates(order, raw)
    requires ChainAbove(initial, t) && ReadsChainAbove(initial, d, t)
    ensures Lookup(Resolved(d, rank, raw, order), initial, rank, t) == RootMerge(initial, rank, raw, t)
  {
    RawIsSound(d.lists, raw);
    RawAgrees(initial, d, rank, raw);
    ResolveAllAgrees(initial, d, rank, raw, raw, [], order);
    SandwichedLookup(initial, d, rank, raw, Resolved(d, rank, raw, order), t);
  }

  /** Setting the data again to what is already stored, a mix of raw and merged entries, in any
      other order, changes no lookup on a chain, even if lookups made between the two settings
      have grown the lists that the second one reads. */
  lemma LookupAfterSettingAgain(
    initial: Table, d: Declarations, d': Declarations, rank: Name -> nat, raw: Overwrites,
    order: seq<Name>, again: seq<Name>, t: Name)
    requires Declares(initial, d, rank) && Declares(initial, d', rank)
    requires Enumerates(order, raw) && Enumerates(again, Resolved(d, rank, raw, order))
    requires ChainAbove(initial, t) && ReadsChainAbove(initial, d, t) && ReadsChainAbove(initial, d', t)
    ensures var stored := Resolved(d, rank, raw, order);
            Lookup(Resolved(d', rank, stored, again), initial, rank, t) == Lookup(stored, initial, rank, t)
  {
    var stored := Resolved(d, rank, raw, order);
    RawIsSound(d.lists, raw);
    RawAgrees(initial, d, rank, raw);
    ResolveAllAgrees(initial, d, rank, raw, raw, [], order);
    LookupAfterSetting(initial, d', rank, stored, again, t);
    SandwichedLookup(initial, d, rank, raw, stored, t);
    SandwichedMerge(initial, d, rank, raw, stored, t);
  }

  lemma {:induction false} SandwichedMerge(
    initial: Table, d: Declarations, rank: Name -> nat, raw: Overwrites, data: Overwrites, t: Name)
    requires Ranked(initial, rank)
    requires KeepsRaw(raw, data) && Agrees(initial, d, rank, raw, data)
    requires ChainAbove(initial, t) && ReadsChainAbove(initial, d, t)
    ensures RootMerge(initial, rank, data, t) == RootMerge(initial, rank, raw, t)
    decreases rank(t)
  {
    if Parents(initial, t) != [] {
      var p := Parents(initial, t)[0];
      assert p in Parents(initial, t);
      ChainStepsUp(initial, d, t, p);
      SandwichedMerge(initial, d, rank, raw, data, p);
    }
    if t in data {
      SandwichedSum(AboveMerge(initial, rank, raw, t), raw[t], data[t]);
    }
  }

  // ---------- exactly when: lists shared with the lookups ----------

  const FAR := Text("from farther up")
  const NEAR := Text("from nearer by")

  /** Data under which a list that grew from `[p]` to include the recognised ancestor
      `q` lets `q` override `p`: the type itself is listed with no entries of its own. */
  function Exposing(x: Name, p: Name, q: Name): Overwrites {
    map[x := map[], p := map["k" := NEAR], q := map["k" := FAR]]
  }

  /** An ancestor of `p` contributes the key only with the value of `q`, and `q` contributes it. */
  lemma AncestorContributes(
    initial: Table, d: Declarations, rank: Name -> nat, x: Name, p: Name, q: Name, memo: seq<Name>, y: Name)
    requires Declares(initial, d, rank)
    requires Ancestor(initial, p, q) && rank(p) < rank(x) && q in d.recognized
    requires rank(y) < rank(x) && Ancestor(initial, p, y)
    ensures var found := Resolve(d, rank, Exposing(x, p, q), memo, y).1;
            && (y == q ==> found.Some? && "k" in found.value)
            && (found.Some? && "k" in found.value ==> found.value["k"] == FAR)
  {
    var raw := Exposing(x, p, q);
    var found := Resolve(d, rank, raw, memo, y).1;
    RawIsSound(d.lists, raw);
    ResolveIsSound(d, rank, raw, raw, memo, y);
    AncestorRank(initial, rank, p, q);
    if found.Some? && "k" in found.value {
      ContributedByQ(initial, d, rank, x, p, q, y, found.value["k"]);
    }
  }

  lemma ContributedByQ(
    initial: Table, d: Declarations, rank: Name -> nat, x: Name, p: Name, q: Name, y: Name, v: Value)
    requires Declares(initial, d, rank)
    requires rank(p) < rank(x) && Ancestor(initial, p, y)
    requires ComesFrom(d.lists, Exposing(x, p, q), y, "k", v)
    ensures v == FAR
  {
    var raw := Exposing(x, p, q);
    var z := NearestIsAncestor(d.lists, raw, y, "k", v);
    SettledHasSameAncestors(initial, d.lists, rank);
    if z != y {
      AncestorTransitive(initial, rank, p, y, z);
    }
    AncestorRank(initial, rank, p, z);
    assert z == q;
  }

  /** Once the lists read beyond the original parent include `q`, the value of `q` is assigned last. */
  lemma {:induction false} GrownPartOverrides(
    initial: Table, d: Declarations, rank: Name -> nat, x: Name, p: Name, q: Name,
    memo: seq<Name>, list: seq<Name>, merged: Entries)
    requires Declares(initial, d, rank)
    requires Ancestor(initial, p, q) && rank(p) < rank(x) && q in d.recognized
    requires forall y :: y in list ==> rank(y) < rank(x) && Ancestor(initial, p, y)
    requires q in list || Find(merged, "k") == Some(FAR)
    ensures var raw := Exposing(x, p, q);
            Find(ResolveEach(d, rank, rank(x), raw, memo, list, merged).1, "k") == Some(FAR)
    decreases |list|
  {
    if list == [] {
    } else {
      var (memo', found) := Resolve(d, rank, Exposing(x, p, q), memo, list[0]);
      AncestorContributes(initial, d, rank, x, p, q, memo, list[0]);
      GrownPartOverrides(initial, d, rank, x, p, q, memo', list[1..], Assign(merged, found));
    }
  }

  lemma {:induction false} ResolveEachOfConcat(
    d: Declarations, rank: Name -> nat, bound: nat, data: Overwrites,
    memo: seq<Name>, a: seq<Name>, b: seq<Name>, merged: Entries)
    requires Ranked(d.lists, rank)
    requires forall p :: p in a + b ==> rank(p) < bound
    ensures (forall p :: p in a ==> rank(p) < bound) && (forall p :: p in b ==> rank(p) < bound)
    ensures ResolveEach(d, rank, bound, data, memo, a + b, merged)
         == (var (memo', merged') := ResolveEach(d, rank, bound, data, memo, a, merged);
             ResolveEach(d, rank, bound, data, memo', b, merged'))
    decreases |a|
  {
    assert forall p :: p in b ==> p in a + b;
    assert forall p :: p in a ==> p in a + b;
    if a == [] {
      assert a + b == b;
    } else {
      assert (a + b)[1..] == a[1..] + b;
      var (memo', found) := Resolve(d, rank, data, memo, a[0]);
      ResolveEachOfConcat(d, rank, bound, data, memo', a[1..], b, Assign(merged, found));
    }
  }

  lemma {:induction false} UnvisitedStays(
    d: Declarations, rank: Name -> nat, data: Overwrites, memo: seq<Name>, order: seq<Name>, x: Name)
    requires Ranked(d.lists, rank)
    requires x !in order && x in data
    ensures var data' := ResolveAll(d, rank, data, memo, order).1; x in data' && data'[x] == data[x]
    decreases |order|
  {
    if order == [] {
    } else {
      var (memo', found) := Resolve(d, rank, data, memo, order[0]);
      UnvisitedStays(d, rank, Store(data, order[0], found), memo', order[1..], x);
    }
  }

  /** The list read for `x` starts with its parent and goes on to a recognised ancestor of the parent. */
  lemma GrownList(initial: Table, d: Declarations, rank: Name -> nat, x: Name)
    returns (p: Name, q: Name, grown: seq<Name>)
    requires Declares(initial, d, rank)
    requires OneParent(initial, x) && !OneRecognizedParent(d, x)
    ensures x in initial && p in initial[x] && x in d.lists && d.lists[x] == initial[x] + grown
    ensures q in grown && q in d.recognized && Parents(initial, x)[0] == p
    ensures forall y :: y in grown ==> Ancestor(initial, p, y)
  {
    var a, b :| a in Parents(d.lists, x) && b in Parents(d.lists, x)
             && a in d.recognized && b in d.recognized && a != b;
    assert SettledAt(initial, d.lists, rank, x);
    grown := d.lists[x][|initial[x]|..];
    InOneOfTheParts(d.lists[x], initial[x], grown);
    assert forall y :: y in initial[x] ==> y in Parents(initial, x);
    q := if a in initial[x] then b else a;
    assert q in grown;
    assert AboveAParent(initial, x, q);
    p := initial[x][0];
    assert p in initial[x];
  }

  lemma InOneOfTheParts(list: seq<Name>, front: seq<Name>, back: seq<Name>)
    requires front <= list && back == list[|front|..]
    ensures forall y :: y in list ==> y in front || y in back
    ensures list == front + back
  {
  }

  lemma {:induction false} ExposedAlongTheChain(
    initial: Table, rank: Name -> nat, data: Overwrites, x: Name, p: Name, q: Name, t: Name)
    requires Ranked(initial, rank) && ChainAbove(initial, t) && SelfOrAncestor(initial, t, x)
    requires Parents(initial, x) != [] && Parents(initial, x)[0] == p && rank(q) < rank(p) < rank(x)
    requires data.Keys == {x, p, q} && Find(data[x], "k") == Some(FAR)
    ensures Find(Lookup(data, initial, rank, t), "k") == Some(FAR)
    ensures Find(RootMerge(initial, rank, Exposing(x, p, q), t), "k") == Some(NEAR)
    decreases rank(t)
  {
    var d := Declarations({}, map[]);
    SelfReads(initial, d, t);
    LookupUnfolds(data, initial, rank, t);
    if t == x {
      var raw := Exposing(x, p, q);
      assert RootMerge(initial, rank, raw, p) == AboveMerge(initial, rank, raw, p) + raw[p];
      assert RootMerge(initial, rank, raw, x) == AboveMerge(initial, rank, raw, x) + raw[x];
    } else {
      var u := AncestorUnfolds(initial, t, x);
      assert Parents(initial, t)[0] in Parents(initial, t);
      ChainStepsUp(initial, d, t, u);
      ExposedAlongTheChain(initial, rank, data, x, p, q, u);
      AncestorRank(initial, rank, t, x);
    }
  }

  lemma GrownListExposes(initial: Table, d: Declarations, rank: Name -> nat, t: Name)
    returns (raw: Overwrites, order: seq<Name>)
    requires Declares(initial, d, rank)
    requires ChainAbove(initial, t) && !ReadsChainAbove(initial, d, t)
    ensures Enumerates(order, raw)
    ensures Lookup(Resolved(d, rank, raw, order), initial, rank, t) != RootMerge(initial, rank, raw, t)
  {
    var x :| SelfOrAncestor(initial, t, x) && !OneRecognizedParent(d, x);
    var p, q, grown := GrownList(initial, d, rank, x);
    AncestorRank(initial, rank, p, q);
    raw, order := Exposing(x, p, q), [x] + [p, q];
    ExposingIsEnumerated(x, p, q);
    ShadowedAfterSetting(initial, d, rank, x, p, q, grown);
    ExposedAlongTheChain(initial, rank, Resolved(d, rank, raw, order), x, p, q, t);
  }

  lemma ExposingIsEnumerated(x: Name, p: Name, q: Name)
    requires x != p && x != q && p != q
    ensures Enumerates([x] + [p, q], Exposing(x, p, q))
  {
  }

  lemma ShadowedAfterSetting(
    initial: Table, d: Declarations, rank: Name -> nat, x: Name, p: Name, q: Name, grown: seq<Name>)
    requires Declares(initial, d, rank)
    requires x in initial && p in initial[x] && x in d.lists && d.lists[x] == initial[x] + grown
    requires q in grown && q in d.recognized && forall y :: y in grown ==> Ancestor(initial, p, y)
    requires rank(q) < rank(p) < rank(x)
    ensures Ranked(d.lists, rank)
    ensures var data := Resolved(d, rank, Exposing(x, p, q), [x] + [p, q]);
            data.Keys == {x, p, q} && Find(data[x], "k") == Some(FAR)
  {
    var found := GrownListShadows(initial, d, rank, x, p, q, grown);
    FirstVisitIsKept(d, rank, Exposing(x, p, q), x, [p, q]);
    ExposingKeys(d, rank, Exposing(x, p, q), [x] + [p, q]);
  }

  lemma FirstVisitIsKept(d: Declarations, rank: Name -> nat, raw: Overwrites, x: Name, later: seq<Name>)
    requires Ranked(d.lists, rank)
    requires x in raw && x !in later
    ensures var data := Resolved(d, rank, raw, [x] + later);
            x in data && data[x] == Store(raw, x, Resolve(d, rank, raw, [], x).1)[x]
  {
    var (memo, found) := Resolve(d, rank, raw, [], x);
    assert ([x] + later)[1..] == later;
    UnvisitedStays(d, rank, Store(raw, x, found), memo, later, x);
  }

  lemma ExposingKeys(d: Declarations, rank: Name -> nat, raw: Overwrites, order: seq<Name>)
    requires Ranked(d.lists, rank)
    requires forall t :: t in order ==> t in raw
    ensures Resolved(d, rank, raw, order).Keys == raw.Keys
  {
    RawIsSound(d.lists, raw);
    ResolveAllIsSound(d, rank, raw, raw, [], order);
  }

  /** The first visit stores the value of `q` for `x`. */
  lemma GrownListShadows(
    initial: Table, d: Declarations, rank: Name -> nat, x: Name, p: Name, q: Name, grown: seq<Name>)
    returns (found: Option<Entries>)
    requires Declares(initial, d, rank)
    requires x in initial && p in initial[x] && x in d.lists && d.lists[x] == initial[x] + grown
    requires q in grown && q in d.recognized && forall y :: y in grown ==> Ancestor(initial, p, y)
    ensures found == Resolve(d, rank, Exposing(x, p, q), [], x).1
    ensures found.Some? && |found.value| > 0 && Find(found.value, "k") == Some(FAR)
  {
    var raw := Exposing(x, p, q);
    ResolveEachOfConcat(d, rank, rank(x), raw, [], initial[x], grown, map[]);
    var (memo, merged) := ResolveEach(d, rank, rank(x), raw, [], initial[x], map[]);
    AncestorRank(initial, rank, p, q);
    GrownPartOverrides(initial, d, rank, x, p, q, memo, grown, merged);
    found := Resolve(d, rank, raw, [], x).1;
    assert Stored(raw, x) == Some(map[]);
    assert "k" in found.value;
  }

  /** For a type whose ancestors form a chain, a lookup returns the root-to-`t` merge for
      every data and every visiting order if and only if no list read on the way names two
      recognised types. */
  lemma LookupIsTheMergeExactlyWhen(initial: Table, d: Declarations, rank: Name -> nat, t: Name)
    requires Declares(initial, d, rank)
    requires ChainAbove(initial, t)
    ensures (forall raw: Overwrites, order: seq<Name> :: Enumerates(order, raw) ==>
              Lookup(Resolved(d, rank, raw, order), initial, rank, t) == RootMerge(initial, rank, raw, t))
        <==> ReadsChainAbove(initial, d, t)
  {
    if ReadsChainAbove(initial, d, t) {
      forall raw: Overwrites, order: seq<Name> | Enumerates(order, raw)
        ensures Lookup(Resolved(d, rank, raw, order), initial, rank, t) == RootMerge(initial, rank, raw, t)
      {
        LookupAfterSetting(initial, d, rank, raw, order, t);
      }
    } else {
      var raw, order := GrownListExposes(initial, d, rank, t);
    }
  }

  /** One lookup is enough to break a shared list: the class list of `t` then names its grandparent too. */
  lemma OneLookupGrowsASharedList(
    initial: Table, recognized: set<Name>, rank: Name -> nat, t: Name, p: Name, q: Name)
    requires Ranked(initial, rank)
    requires p in Parents(initial, t) && q in Parents(initial, p)
    requires p in recognized && q in recognized
    ensures !OneRecognizedParent(Declarations(recognized, Grow(initial, rank, t)), t)
  {
    AncestorViaParent(initial, p, q, q);
    AncestorViaParent(initial, t, p, q);
    AncestorViaParent(initial, t, p, p);
    assert GrowAll(initial, rank, []) == initial;
    LookupIgnoresHistory(initial, rank, [], t);
    var grown := Parents(Grow(initial, rank, t), t);
    assert p in grown && q in grown;
    AncestorRank(initial, rank, p, q);
  }
}
