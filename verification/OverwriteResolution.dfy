/** Credential overwrites: the memoised resolution that fills the table of
    overwrites, and the lookup that merges it along the ancestors.

    The memo marks a type as resolved before its merged value is stored, and a
    type that is resolved but absent from the data is read back as absent. The
    stored table therefore depends on the order in which the types are visited;
    the results below say what a lookup returns for every order. */
module OverwriteResolution {
  import opened Options
  import opened ExtendsGraph

  datatype Value = Null | Undefined | Text(text: string) | Json(json: string)

  type Entries = map<string, Value>
  type Overwrites = map<Name, Entries>

  /** The class level of the credential types: which are recognised, and what they extend. */
  datatype Declarations = Declarations(recognized: set<Name>, lists: Table)

  function EntriesOf(data: Overwrites, t: Name): Entries {
    if t in data then data[t] else map[]
  }

  ghost predicate Submap(a: Entries, b: Entries) {
    forall k :: k in a ==> k in b && b[k] == a[k]
  }

  // ---------- resolution ----------

  function Stored(data: Overwrites, t: Name): Option<Entries> {
    if t in data then Some(data[t]) else None
  }

  function Assign(target: Entries, source: Option<Entries>): Entries {
    if source.Some? then target + source.value else target
  }

  /** Resolves the overwrites of `t`: the new memo and the value found. */
  ghost function Resolve(d: Declarations, rank: Name -> nat, data: Overwrites, memo: seq<Name>, t: Name)
    : (seq<Name>, Option<Entries>)
    requires Ranked(d.lists, rank)
    decreases rank(t), |Parents(d.lists, t)| + 1
  {
    if t in memo then (memo, Stored(data, t))
    else if t !in d.recognized then (memo, None)
    else if t !in d.lists then (memo + [t], Stored(data, t))
    else
      var (memo', merged) := ResolveEach(d, rank, rank(t), data, memo, d.lists[t], map[]);
      (memo' + [t], Some(Assign(merged, Stored(data, t))))
  }

  ghost function ResolveEach(d: Declarations, rank: Name -> nat, bound: nat, data: Overwrites,
                             memo: seq<Name>, list: seq<Name>, merged: Entries): (seq<Name>, Entries)
    requires Ranked(d.lists, rank)
    requires forall p :: p in list ==> rank(p) < bound
    decreases bound, |list|
  {
    if list == [] then (memo, merged)
    else
      var (memo', found) := Resolve(d, rank, data, memo, list[0]);
      ResolveEach(d, rank, bound, data, memo', list[1..], Assign(merged, found))
  }

  /** Visits the types of `order` and stores each non-empty result. */
  ghost function ResolveAll(d: Declarations, rank: Name -> nat, data: Overwrites, memo: seq<Name>, order: seq<Name>)
    : (seq<Name>, Overwrites)
    requires Ranked(d.lists, rank)
    decreases |order|
  {
    if order == [] then (memo, data)
    else
      var (memo', found) := Resolve(d, rank, data, memo, order[0]);
      ResolveAll(d, rank, Store(data, order[0], found), memo', order[1..])
  }

  lemma {:induction false} ResolveAllSnoc(
    d: Declarations, rank: Name -> nat, data: Overwrites, memo: seq<Name>, order: seq<Name>, t: Name)
    requires Ranked(d.lists, rank)
    ensures ResolveAll(d, rank, data, memo, order + [t])
         == (var (memo', data') := ResolveAll(d, rank, data, memo, order);
             var (memo'', found) := Resolve(d, rank, data', memo', t);
             (memo'', Store(data', t, found)))
    decreases |order|
  {
    if order == [] {
      assert (order + [t])[1..] == [];
    } else {
      assert (order + [t])[1..] == order[1..] + [t];
      var (memo', found) := Resolve(d, rank, data, memo, order[0]);
      ResolveAllSnoc(d, rank, Store(data, order[0], found), memo', order[1..], t);
    }
  }

  function Store(data: Overwrites, t: Name, found: Option<Entries>): Overwrites {
    if found.Some? && |found.value| > 0 then data[t := found.value] else data
  }

  /** The stored table after the data is set to `raw`, its types visited in `order`. */
  ghost function Resolved(d: Declarations, rank: Name -> nat, raw: Overwrites, order: seq<Name>): Overwrites
    requires Ranked(d.lists, rank)
  {
    ResolveAll(d, rank, raw, [], order).1
  }

  ghost predicate Enumerates(order: seq<Name>, raw: Overwrites) {
    Distinct(order) && forall t :: t in order <==> t in raw
  }

  // ---------- lookup ----------

  /** The last type is assigned first, so the first type wins. */
  function MergeNearestFirst(data: Overwrites, list: seq<Name>): Entries {
    if list == [] then map[]
    else MergeNearestFirst(data, list[1..]) + EntriesOf(data, list[0])
  }

  function FirstMatch(data: Overwrites, list: seq<Name>, k: string): Option<Value> {
    if list == [] then None
    else if k in EntriesOf(data, list[0]) then Some(EntriesOf(data, list[0])[k])
    else FirstMatch(data, list[1..], k)
  }

  function Find(e: Entries, k: string): Option<Value> {
    if k in e then Some(e[k]) else None
  }

  /** The fold from the far end finds, for each key, the first type of the list that has it. */
  lemma {:induction false} MergeIsFirstMatch(data: Overwrites, list: seq<Name>, k: string)
    ensures Find(MergeNearestFirst(data, list), k) == FirstMatch(data, list, k)
  {
    if list == [] {
    } else {
      MergeIsFirstMatch(data, list[1..], k);
    }
  }

  lemma {:induction false} FirstMatchOfConcat(data: Overwrites, a: seq<Name>, b: seq<Name>, k: string)
    ensures FirstMatch(data, a + b, k)
         == if FirstMatch(data, a, k).Some? then FirstMatch(data, a, k) else FirstMatch(data, b, k)
  {
    if a == [] {
      assert a + b == b;
    } else {
      assert (a + b)[1..] == a[1..] + b;
      FirstMatchOfConcat(data, a[1..], b, k);
    }
  }

  lemma {:induction false} FirstMatchNone(data: Overwrites, list: seq<Name>, k: string)
    ensures FirstMatch(data, list, k).None? <==> forall x :: x in list ==> k !in EntriesOf(data, x)
    ensures FirstMatch(data, list, k).Some? ==>
      exists x :: x in list && k in EntriesOf(data, x) && FirstMatch(data, list, k).value == EntriesOf(data, x)[k]
  {
    if list == [] {
    } else {
      FirstMatchNone(data, list[1..], k);
      assert forall x :: x in list <==> x == list[0] || x in list[1..];
    }
  }

  lemma {:induction false} FirstMatchOfDedup(data: Overwrites, list: seq<Name>, k: string)
    ensures FirstMatch(data, list, k) == FirstMatch(data, Dedup(list), k)
  {
    if list == [] {
    } else {
      var front, x := list[..|list| - 1], list[|list| - 1];
      assert list == front + [x];
      FirstMatchOfDedup(data, front, k);
      FirstMatchOfConcat(data, front, [x], k);
      FirstMatchOfConcat(data, Dedup(front), [x], k);
      FirstMatchNone(data, front, k);
    }
  }

  /** Repetitions further down the list change nothing: only first occurrences count. */
  lemma MergeIgnoresRepetition(data: Overwrites, t: Name, a: seq<Name>, b: seq<Name>)
    requires Dedup(a) == Dedup(b)
    ensures MergeNearestFirst(data, [t] + a) == MergeNearestFirst(data, [t] + b)
  {
    var ma, mb := MergeNearestFirst(data, [t] + a), MergeNearestFirst(data, [t] + b);
    forall k ensures Find(ma, k) == Find(mb, k) {
      MergeIsFirstMatch(data, [t] + a, k);
      MergeIsFirstMatch(data, [t] + b, k);
      FirstMatchOfConcat(data, [t], a, k);
      FirstMatchOfConcat(data, [t], b, k);
      FirstMatchOfDedup(data, a, k);
      FirstMatchOfDedup(data, b, k);
    }
    EqualByFind(ma, mb);
  }

  lemma EqualByFind(a: Entries, b: Entries)
    requires forall k :: Find(a, k) == Find(b, k)
    ensures a == b
  {
    forall k ensures k in a <==> k in b { assert Find(a, k) == Find(b, k); }
    forall k | k in a ensures a[k] == b[k] { assert Find(a, k) == Find(b, k); }
  }

  /** The lookup of `t`: its own entries, then those of its ancestors. */
  ghost function Lookup(data: Overwrites, initial: Table, rank: Name -> nat, t: Name): Entries
    requires Ranked(initial, rank)
  {
    MergeNearestFirst(data, [t] + Order(initial, rank, t))
  }

  // ---------- every graph: keys, provenance, own entries ----------

  ghost predicate KeepsRaw(raw: Overwrites, data: Overwrites) {
    && data.Keys == raw.Keys
    && forall t :: t in raw ==> Submap(raw[t], data[t])
  }

  /** A path on which the last type has `k` of its own, and no type before it does. */
  ghost predicate IsNearest(lists: Table, raw: Overwrites, t: Name, k: string, path: seq<Name>) {
    && path != [] && path[0] == t && IsPath(lists, path)
    && k in EntriesOf(raw, path[|path| - 1])
    && forall i :: 0 <= i < |path| - 1 ==> k !in EntriesOf(raw, path[i])
  }

  /** `v` is what a nearest type above `t`, or `t` itself, has for `k`. */
  ghost predicate ComesFrom(lists: Table, raw: Overwrites, t: Name, k: string, v: Value) {
    exists path :: IsNearest(lists, raw, t, k, path) && EntriesOf(raw, path[|path| - 1])[k] == v
  }

  ghost predicate AllComeFrom(lists: Table, raw: Overwrites, t: Name, e: Entries) {
    forall k :: k in e ==> ComesFrom(lists, raw, t, k, e[k])
  }

  /** The same for what `t` inherits, its own keys left aside. */
  ghost predicate InheritedComeFrom(lists: Table, raw: Overwrites, t: Name, e: Entries) {
    forall k :: k in e && k !in EntriesOf(raw, t) ==> ComesFrom(lists, raw, t, k, e[k])
  }

  lemma OwnIsNearest(lists: Table, raw: Overwrites, t: Name, k: string)
    requires k in EntriesOf(raw, t)
    ensures ComesFrom(lists, raw, t, k, EntriesOf(raw, t)[k])
  {
    assert IsNearest(lists, raw, t, k, [t]);
  }

  lemma NearestViaParent(lists: Table, raw: Overwrites, t: Name, p: Name, k: string, v: Value)
    requires p in Parents(lists, t) && k !in EntriesOf(raw, t)
    requires ComesFrom(lists, raw, p, k, v)
    ensures ComesFrom(lists, raw, t, k, v)
  {
    var path :| IsNearest(lists, raw, p, k, path) && EntriesOf(raw, path[|path| - 1])[k] == v;
    var longer := [t] + path;
    PathFromBelow(lists, t, path);
    assert IsNearest(lists, raw, t, k, longer);
  }

  lemma NearestIsAncestor(lists: Table, raw: Overwrites, t: Name, k: string, v: Value) returns (y: Name)
    requires ComesFrom(lists, raw, t, k, v)
    ensures SelfOrAncestor(lists, t, y) && k in EntriesOf(raw, y) && EntriesOf(raw, y)[k] == v
  {
    var path :| IsNearest(lists, raw, t, k, path) && EntriesOf(raw, path[|path| - 1])[k] == v;
    y := path[|path| - 1];
    assert |path| >= 2 ==> IsPathBetween(lists, t, y, path);
  }

  /** Every stored value keeps the raw entries of its type and takes each other one from a nearest ancestor. */
  ghost predicate Sound(lists: Table, raw: Overwrites, data: Overwrites) {
    && KeepsRaw(raw, data)
    && forall t :: t in data ==> AllComeFrom(lists, raw, t, data[t])
  }

  lemma ComesFromParent(lists: Table, raw: Overwrites, t: Name, p: Name, e: Entries)
    requires p in Parents(lists, t)
    requires AllComeFrom(lists, raw, p, e)
    ensures InheritedComeFrom(lists, raw, t, e)
  {
    forall k | k in e && k !in EntriesOf(raw, t) ensures ComesFrom(lists, raw, t, k, e[k]) {
      NearestViaParent(lists, raw, t, p, k, e[k]);
    }
  }

  /** Whatever the memo holds, including types resolved but not yet stored. */
  lemma {:induction false} ResolveIsSound(
    d: Declarations, rank: Name -> nat, raw: Overwrites, data: Overwrites, memo: seq<Name>, t: Name)
    requires Ranked(d.lists, rank)
    requires Sound(d.lists, raw, data)
    ensures var found := Resolve(d, rank, data, memo, t).1;
            found.Some? ==> Submap(EntriesOf(raw, t), found.value) && AllComeFrom(d.lists, raw, t, found.value)
    decreases rank(t), |Parents(d.lists, t)| + 1
  {
    if t !in memo && t in d.recognized && t in d.lists {
      ResolveEachIsSound(d, rank, t, raw, data, memo, d.lists[t], map[]);
    }
  }

  lemma {:induction false} ResolveEachIsSound(
    d: Declarations, rank: Name -> nat, t: Name, raw: Overwrites, data: Overwrites,
    memo: seq<Name>, list: seq<Name>, merged: Entries)
    requires Ranked(d.lists, rank)
    requires Sound(d.lists, raw, data)
    requires forall p :: p in list ==> p in Parents(d.lists, t) && rank(p) < rank(t)
    requires InheritedComeFrom(d.lists, raw, t, merged)
    ensures InheritedComeFrom(d.lists, raw, t, ResolveEach(d, rank, rank(t), data, memo, list, merged).1)
    decreases rank(t), |list|
  {
    if list == [] {
    } else {
      var p := list[0];
      assert p in Parents(d.lists, t);
      ResolveIsSound(d, rank, raw, data, memo, p);
      var (memo', found) := Resolve(d, rank, data, memo, p);
      if found.Some? {
        ComesFromParent(d.lists, raw, t, p, found.value);
      }
      ResolveEachIsSound(d, rank, t, raw, data, memo', list[1..], Assign(merged, found));
    }
  }

  lemma {:induction false} ResolveAllIsSound(
    d: Declarations, rank: Name -> nat, raw: Overwrites, data: Overwrites, memo: seq<Name>, order: seq<Name>)
    requires Ranked(d.lists, rank)
    requires Sound(d.lists, raw, data)
    requires forall t :: t in order ==> t in raw
    ensures Sound(d.lists, raw, ResolveAll(d, rank, data, memo, order).1)
    decreases |order|
  {
    if order == [] {
    } else {
      ResolveIsSound(d, rank, raw, data, memo, order[0]);
      var (memo', found) := Resolve(d, rank, data, memo, order[0]);
      StoreKeepsSound(d.lists, raw, data, order[0], found);
      ResolveAllIsSound(d, rank, raw, Store(data, order[0], found), memo', order[1..]);
    }
  }

  lemma StoreKeepsSound(lists: Table, raw: Overwrites, data: Overwrites, t: Name, found: Option<Entries>)
    requires Sound(lists, raw, data) && t in raw
    requires found.Some? ==> Submap(EntriesOf(raw, t), found.value) && AllComeFrom(lists, raw, t, found.value)
    ensures Sound(lists, raw, Store(data, t, found))
  {
  }

  lemma RawIsSound(lists: Table, raw: Overwrites)
    ensures Sound(lists, raw, raw)
  {
    forall t | t in raw ensures AllComeFrom(lists, raw, t, raw[t]) {
      forall k | k in raw[t] ensures ComesFrom(lists, raw, t, k, raw[t][k]) {
        OwnIsNearest(lists, raw, t, k);
      }
    }
  }

  /** The declared lists may have grown, but only by ancestors. */
  ghost predicate SameAncestors(initial: Table, lists: Table) {
    forall t, a :: Ancestor(lists, t, a) ==> Ancestor(initial, t, a)
  }

  lemma SettledHasSameAncestors(initial: Table, lists: Table, rank: Name -> nat)
    requires Ranked(initial, rank) && Settled(initial, lists, rank)
    ensures SameAncestors(initial, lists)
  {
    forall x, p | x in lists && p in lists[x] ensures Ancestor(initial, x, p) {
      SettledEntriesAreAncestors(initial, lists, rank, x, p);
    }
    forall t, a | Ancestor(lists, t, a) ensures Ancestor(initial, t, a) {
      AncestorsFromLists(initial, lists, rank, t, a);
    }
  }

  /** For every acyclic graph and every visiting order, a lookup of `t` has exactly the
      raw keys of `t` and its ancestors, and the raw entries of `t` itself win. */
  lemma LookupHasTheKeysOfAllAncestors(
    initial: Table, d: Declarations, rank: Name -> nat, raw: Overwrites, data: Overwrites, t: Name)
    requires Ranked(initial, rank) && Ranked(d.lists, rank) && SameAncestors(initial, d.lists)
    requires Sound(d.lists, raw, data)
    ensures forall k :: k in Lookup(data, initial, rank, t)
              <==> exists y :: SelfOrAncestor(initial, t, y) && k in EntriesOf(raw, y)
    ensures Submap(EntriesOf(raw, t), Lookup(data, initial, rank, t))
  {
    var list := [t] + Order(initial, rank, t);
    OrderListsTheAncestors(initial, rank, t);
    assert forall x :: x in list <==> SelfOrAncestor(initial, t, x);
    forall k
      ensures k in Lookup(data, initial, rank, t)
        <==> exists y :: SelfOrAncestor(initial, t, y) && k in EntriesOf(raw, y)
      ensures k in EntriesOf(raw, t) ==> Find(Lookup(data, initial, rank, t), k) == Some(EntriesOf(raw, t)[k])
    {
      MergeIsFirstMatch(data, list, k);
      FirstMatchNone(data, list, k);
      if k in Lookup(data, initial, rank, t) {
        var x :| x in list && k in EntriesOf(data, x);
        assert ComesFrom(d.lists, raw, x, k, data[x][k]);
        var y := NearestIsAncestor(d.lists, raw, x, k, data[x][k]);
        if y != x {
          AncestorTransitive(initial, rank, t, x, y);
        }
      }
      if y :| SelfOrAncestor(initial, t, y) && k in EntriesOf(raw, y) {
        assert Submap(raw[y], data[y]);
        assert k in EntriesOf(data, y);
      }
    }
    forall k | k in EntriesOf(raw, t)
      ensures k in Lookup(data, initial, rank, t) && Lookup(data, initial, rank, t)[k] == EntriesOf(raw, t)[k]
    {
      assert Find(Lookup(data, initial, rank, t), k) == Some(EntriesOf(raw, t)[k]);
    }
  }

  // ---------- every graph: the nearest ancestors ----------

  ghost predicate Includes(initial: Table, lists: Table) {
    forall t, p :: p in Parents(initial, t) ==> p in Parents(lists, t)
  }

  lemma SettledIncludes(initial: Table, lists: Table, rank: Name -> nat)
    requires Ranked(initial, rank) && Settled(initial, lists, rank)
    ensures Includes(initial, lists)
  {
    forall t, p | p in Parents(initial, t) ensures p in Parents(lists, t) {
      assert SettledAt(initial, lists, rank, t);
    }
  }

  lemma StoredIsSound(d: Declarations, rank: Name -> nat, raw: Overwrites, order: seq<Name>)
    requires Ranked(d.lists, rank) && forall t :: t in order ==> t in raw
    ensures Sound(d.lists, raw, Resolved(d, rank, raw, order))
  {
    RawIsSound(d.lists, raw);
    ResolveAllIsSound(d, rank, raw, raw, [], order);
  }

  /** What the forward list finds first comes from a nearest type that has the key. */
  lemma {:induction false} FirstMatchIsNearest(table: Table, rank: Name -> nat, data: Overwrites, t: Name, k: string)
    requires Ranked(table, rank)
    ensures var found := FirstMatch(data, [t] + Order(table, rank, t), k);
            found.Some? ==> ComesFrom(table, data, t, k, found.value)
    decreases rank(t), |Parents(table, t)| + 1
  {
    var list := Parents(table, t);
    var above := OrderOfAll(table, rank, rank(t), list);
    FirstMatchOfConcat(data, [t], Order(table, rank, t), k);
    FirstMatchNone(data, [t], k);
    if k in EntriesOf(data, t) {
      OwnIsNearest(table, data, t, k);
    } else {
      FirstMatchOfDedup(data, list + above, k);
      FirstMatchOfConcat(data, list, above, k);
      FirstMatchNone(data, list, k);
      var found := FirstMatch(data, list, k);
      if found.Some? {
        var p :| p in list && k in EntriesOf(data, p) && found.value == EntriesOf(data, p)[k];
        OwnIsNearest(table, data, p, k);
        NearestViaParent(table, data, t, p, k, found.value);
      } else if FirstMatch(data, above, k).Some? {
        var p := FirstMatchAboveIsNearest(table, rank, data, rank(t), list, k);
        NearestViaParent(table, data, t, p, k, FirstMatch(data, above, k).value);
      }
    }
  }

  lemma {:induction false} FirstMatchAboveIsNearest(
    table: Table, rank: Name -> nat, data: Overwrites, bound: nat, list: seq<Name>, k: string) returns (p: Name)
    requires Ranked(table, rank)
    requires forall x :: x in list ==> rank(x) < bound && k !in EntriesOf(data, x)
    requires FirstMatch(data, OrderOfAll(table, rank, bound, list), k).Some?
    ensures p in list
    ensures ComesFrom(table, data, p, k, FirstMatch(data, OrderOfAll(table, rank, bound, list), k).value)
    decreases bound, |list|
  {
    p := list[0];
    var order := Order(table, rank, p);
    FirstMatchOfConcat(data, order, OrderOfAll(table, rank, bound, list[1..]), k);
    if FirstMatch(data, order, k).Some? {
      FirstMatchOfConcat(data, [p], order, k);
      FirstMatchNone(data, [p], k);
      FirstMatchIsNearest(table, rank, data, p, k);
    } else {
      p := FirstMatchAboveIsNearest(table, rank, data, bound, list[1..], k);
    }
  }

  lemma {:induction false} NearestAlong(lists: Table, raw: Overwrites, path: seq<Name>, k: string, v: Value)
    requires path != [] && IsPath(lists, path)
    requires forall i :: 0 <= i < |path| - 1 ==> k !in EntriesOf(raw, path[i])
    requires ComesFrom(lists, raw, path[|path| - 1], k, v)
    ensures ComesFrom(lists, raw, path[0], k, v)
    decreases |path|
  {
    if |path| == 1 {
    } else {
      var rest := path[1..];
      PathFromAbove(lists, path);
      NearestAlong(lists, raw, rest, k, v);
      NearestViaParent(lists, raw, path[0], path[1], k, v);
    }
  }

  /** A nearest stored value was itself taken from a nearest raw one. */
  lemma NearestOfNearest(
    initial: Table, lists: Table, raw: Overwrites, data: Overwrites, t: Name, k: string, v: Value)
    requires Includes(initial, lists) && Sound(lists, raw, data)
    requires ComesFrom(initial, data, t, k, v)
    ensures ComesFrom(lists, raw, t, k, v)
  {
    var path :| IsNearest(initial, data, t, k, path) && EntriesOf(data, path[|path| - 1])[k] == v;
    var x := path[|path| - 1];
    assert x in data && AllComeFrom(lists, raw, x, data[x]);
    forall i | 0 < i < |path| ensures IsStep(lists, path, i) {
      assert IsStep(initial, path, i);
    }
    forall i | 0 <= i < |path| - 1 ensures k !in EntriesOf(raw, path[i]) {
      RawIsKept(raw, data, path[i], k);
    }
    NearestAlong(lists, raw, path, k, v);
  }

  lemma RawIsKept(raw: Overwrites, data: Overwrites, x: Name, k: string)
    requires KeepsRaw(raw, data) && k !in EntriesOf(data, x)
    ensures k !in EntriesOf(raw, x)
  {
  }

  /** For every acyclic graph and every visiting order, each entry that a lookup returns is the raw
      entry of a nearest type that has the key: nothing farther up overrides it along its path. */
  lemma LookupTakesTheNearest(
    initial: Table, d: Declarations, rank: Name -> nat, raw: Overwrites, data: Overwrites, t: Name)
    requires Ranked(initial, rank) && Includes(initial, d.lists)
    requires Sound(d.lists, raw, data)
    ensures AllComeFrom(d.lists, raw, t, Lookup(data, initial, rank, t))
  {
    var found := Lookup(data, initial, rank, t);
    forall k | k in found ensures ComesFrom(d.lists, raw, t, k, found[k]) {
      MergeIsFirstMatch(data, [t] + Order(initial, rank, t), k);
      FirstMatchIsNearest(initial, rank, data, t, k);
      NearestOfNearest(initial, d.lists, raw, data, t, k, found[k]);
    }
  }
}
