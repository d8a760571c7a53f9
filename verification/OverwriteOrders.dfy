/** What a lookup owes to the order in which the resolution visits the types.

    The nearest types that have a key decide its value as long as they agree. Where
    they do not, the lookup of a type that others extend depends on the order,
    exactly when its ancestors do not form a chain. */
module OverwriteOrders {
  import opened Options
  import opened ExtendsGraph
  import opened OverwriteResolution
  import opened OverwriteChains

  // ---------- what no order changes ----------

  /** The nearest types that have `k` all have the same value. */
  ghost predicate NearestAgree(lists: Table, raw: Overwrites, t: Name, k: string) {
    forall v, w :: ComesFrom(lists, raw, t, k, v) && ComesFrom(lists, raw, t, k, w) ==> v == w
  }

  /** In every acyclic graph, where the nearest types agree on a key every visiting order gives
      the lookup their value. */
  lemma LookupIsTheNearest(
    initial: Table, d: Declarations, rank: Name -> nat, raw: Overwrites, order: seq<Name>, t: Name, k: string)
    requires Declares(initial, d, rank) && Enumerates(order, raw)
    requires NearestAgree(d.lists, raw, t, k)
    ensures var found := Find(Lookup(Resolved(d, rank, raw, order), initial, rank, t), k);
            && (found.Some? ==> ComesFrom(d.lists, raw, t, k, found.value))
            && forall v :: ComesFrom(d.lists, raw, t, k, v) ==> found == Some(v)
  {
    var data := Resolved(d, rank, raw, order);
    StoredIsSound(d, rank, raw, order);
    SettledIncludes(initial, d.lists, rank);
    SettledHasSameAncestors(initial, d.lists, rank);
    LookupTakesTheNearest(initial, d, rank, raw, data, t);
    LookupHasTheKeysOfAllAncestors(initial, d, rank, raw, data, t);
    forall v | ComesFrom(d.lists, raw, t, k, v) ensures Find(Lookup(data, initial, rank, t), k) == Some(v) {
      var y := NearestIsAncestor(d.lists, raw, t, k, v);
      assert SelfOrAncestor(initial, t, y);
      assert ComesFrom(d.lists, raw, t, k, Lookup(data, initial, rank, t)[k]);
    }
  }

  /** `y` has `k`, and lies on every path from `t` to a type that has it. */
  ghost predicate Guards(lists: Table, raw: Overwrites, t: Name, y: Name, k: string) {
    && SelfOrAncestor(lists, t, y) && k in EntriesOf(raw, y)
    && forall path :: IsPath(lists, path) && path != [] && path[0] == t && k in EntriesOf(raw, path[|path| - 1])
         ==> y in path
  }

  /** The value of such a type is looked up after every visiting order: `t` itself if it has the
      key, or the only ancestor that has it, or one behind which all others are. */
  lemma GuardIsLookedUp(
    initial: Table, d: Declarations, rank: Name -> nat, raw: Overwrites, order: seq<Name>,
    t: Name, y: Name, k: string)
    requires Declares(initial, d, rank) && Enumerates(order, raw)
    requires Guards(d.lists, raw, t, y, k)
    ensures Find(Lookup(Resolved(d, rank, raw, order), initial, rank, t), k) == Some(EntriesOf(raw, y)[k])
  {
    forall v | ComesFrom(d.lists, raw, t, k, v) ensures v == EntriesOf(raw, y)[k] {
      var path :| IsNearest(d.lists, raw, t, k, path) && EntriesOf(raw, path[|path| - 1])[k] == v;
      assert y in path;
    }
    var data := Resolved(d, rank, raw, order);
    StoredIsSound(d, rank, raw, order);
    SettledHasSameAncestors(initial, d.lists, rank);
    LookupHasTheKeysOfAllAncestors(initial, d, rank, raw, data, t);
    assert SelfOrAncestor(initial, t, y) && k in Lookup(data, initial, rank, t);
    LookupIsTheNearest(initial, d, rank, raw, order, t, k);
  }

  // ---------- exactly when: types that others extend ----------

  lemma ResolveEachOfOne(d: Declarations, rank: Name -> nat, bound: nat, data: Overwrites,
                         memo: seq<Name>, p: Name, merged: Entries)
    requires Ranked(d.lists, rank) && rank(p) < bound
    ensures ResolveEach(d, rank, bound, data, memo, [p], merged)
         == (Resolve(d, rank, data, memo, p).0, Assign(merged, Resolve(d, rank, data, memo, p).1))
  {
    assert [p][1..] == [];
  }

  lemma TwoVisits(d: Declarations, rank: Name -> nat, raw: Overwrites, x: Name, y: Name, later: seq<Name>)
    requires Ranked(d.lists, rank)
    requires x in raw && y in raw && x != y && x !in later && y !in later
    ensures var (memo, found) := Resolve(d, rank, raw, [], x);
            var first := Store(raw, x, found);
            var second := Store(first, y, Resolve(d, rank, first, memo, y).1);
            var data := Resolved(d, rank, raw, [x] + ([y] + later));
            x in data && y in data && data[x] == second[x] && data[y] == second[y]
  {
    var (memo, found) := Resolve(d, rank, raw, [], x);
    var first := Store(raw, x, found);
    var (memo', found') := Resolve(d, rank, first, memo, y);
    var second := Store(first, y, found');
    assert ([x] + ([y] + later))[1..] == [y] + later;
    assert ([y] + later)[1..] == later;
    assert ResolveAll(d, rank, first, memo, [y] + later) == ResolveAll(d, rank, second, memo', later);
    UnvisitedStays(d, rank, second, memo', later, x);
    UnvisitedStays(d, rank, second, memo', later, y);
  }

  /** A list with several types does not begin and end with the same one. */
  ghost predicate EndsDiffer(lists: Table, x: Name) {
    var list := Parents(lists, x);
    !OneParent(lists, x) ==> list != [] && list[0] != list[|list| - 1]
  }

  /** Nor does it end with an unrecognised one. */
  ghost predicate EndsRecognized(d: Declarations, x: Name) {
    var list := Parents(d.lists, x);
    !OneParent(d.lists, x) && list != [] ==> list[|list| - 1] in d.recognized
  }

  lemma HeadsAgree(initial: Table, d: Declarations, rank: Name -> nat, x: Name)
    requires Declares(initial, d, rank) && Parents(d.lists, x) != []
    ensures Parents(initial, x) != [] && Parents(initial, x)[0] == Parents(d.lists, x)[0]
  {
    assert SettledAt(initial, d.lists, rank, x);
    var grown := d.lists[x][|initial[x]|..];
    if grown != [] {
      assert grown[0] in grown;
    }
  }

  /** A list that no lookup has grown does not, if it names each type once; neither does a list that
      lookups have grown from a single parent. */
  lemma EndsDifferWhen(initial: Table, d: Declarations, rank: Name -> nat, x: Name)
    requires Declares(initial, d, rank)
    requires Distinct(Parents(d.lists, x)) || OneParent(initial, x)
    ensures EndsDiffer(d.lists, x)
  {
    var list := Parents(d.lists, x);
    assert SettledAt(initial, d.lists, rank, x);
    if OneParent(initial, x) && list != Parents(initial, x) {
      HeadsAgree(initial, d, rank, x);
      var p, q := list[0], list[|list| - 1];
      assert q in list[|initial[x]|..] && p in initial[x];
      var p' :| p' in Parents(initial, x) && Ancestor(initial, p', q);
      AncestorRank(initial, rank, p, q);
    }
  }

  /** The key that both ends of the list of `x` have, and data that lists `t` and a child of it
      without entries of their own. */
  function EndsData(c: Name, t: Name, p: Name, q: Name): Overwrites {
    map[c := map[], t := map[], p := map["k" := NEAR], q := map["k" := FAR]]
  }

  lemma ResolveFindsOwn(
    d: Declarations, rank: Name -> nat, raw: Overwrites, data: Overwrites, memo: seq<Name>, q: Name, k: string)
    requires Ranked(d.lists, rank) && Sound(d.lists, raw, data)
    requires q in d.recognized && k in EntriesOf(raw, q)
    ensures var found := Resolve(d, rank, data, memo, q).1;
            found.Some? && Find(found.value, k) == Some(EntriesOf(raw, q)[k])
  {
    ResolveIsSound(d, rank, raw, data, memo, q);
    assert q in data;
  }

  /** The last entry of a list is assigned last. */
  lemma LastIsAssigned(
    d: Declarations, rank: Name -> nat, data: Overwrites, bound: nat, memo: seq<Name>, list: seq<Name>)
    requires Ranked(d.lists, rank) && list != [] && forall p :: p in list ==> rank(p) < bound
    ensures var n := |list| - 1;
            var (memo', merged) := ResolveEach(d, rank, bound, data, memo, list[..n], map[]);
            ResolveEach(d, rank, bound, data, memo, list, map[]).1
            == Assign(merged, Resolve(d, rank, data, memo', list[n]).1)
  {
    var n := |list| - 1;
    assert list == list[..n] + [list[n]];
    ResolveEachOfConcat(d, rank, bound, data, memo, list[..n], [list[n]], map[]);
    var (memo', merged) := ResolveEach(d, rank, bound, data, memo, list[..n], map[]);
    ResolveEachOfOne(d, rank, bound, data, memo', list[n], merged);
  }

  lemma LastEntryWins(
    d: Declarations, rank: Name -> nat, data: Overwrites, bound: nat, memo: seq<Name>, list: seq<Name>,
    k: string, v: Value)
    requires Ranked(d.lists, rank) && list != [] && forall p :: p in list ==> rank(p) < bound
    requires AlwaysFinds(d, rank, data, list[|list| - 1], k, v)
    ensures Find(ResolveEach(d, rank, bound, data, memo, list, map[]).1, k) == Some(v)
  {
    LastIsAssigned(d, rank, data, bound, memo, list);
    var memo' := ResolveEach(d, rank, bound, data, memo, list[..|list| - 1], map[]).0;
    assert FindsFrom(d, rank, data, memo', list[|list| - 1], k, v);
  }

  /** Whatever is marked, the resolution of the type has the value for the key. */
  ghost predicate AlwaysFinds(
    d: Declarations, rank: Name -> nat, data: Overwrites, q: Name, k: string, v: Value)
    requires Ranked(d.lists, rank)
  {
    forall memo: seq<Name> :: FindsFrom(d, rank, data, memo, q, k, v)
  }

  ghost predicate FindsFrom(
    d: Declarations, rank: Name -> nat, data: Overwrites, memo: seq<Name>, q: Name, k: string, v: Value)
    requires Ranked(d.lists, rank)
  {
    var found := Resolve(d, rank, data, memo, q).1;
    found.Some? && Find(found.value, k) == Some(v)
  }

  lemma SoundFindsOwn(
    d: Declarations, rank: Name -> nat, raw: Overwrites, data: Overwrites, q: Name, k: string)
    requires Ranked(d.lists, rank) && Sound(d.lists, raw, data)
    requires q in d.recognized && k in EntriesOf(raw, q)
    ensures AlwaysFinds(d, rank, data, q, k, EntriesOf(raw, q)[k])
  {
    forall memo: seq<Name> ensures FindsFrom(d, rank, data, memo, q, k, EntriesOf(raw, q)[k]) {
      ResolveFindsOwn(d, rank, raw, data, memo, q, k);
    }
  }

  lemma RawFindsOwn(d: Declarations, rank: Name -> nat, raw: Overwrites, q: Name, k: string)
    requires Ranked(d.lists, rank) && q in d.recognized && k in EntriesOf(raw, q)
    ensures AlwaysFinds(d, rank, raw, q, k, EntriesOf(raw, q)[k])
  {
    RawIsSound(d.lists, raw);
    SoundFindsOwn(d, rank, raw, raw, q, k);
  }

  /** Entries resolved already and without data add nothing. */
  lemma {:induction false} RepeatsAddNothing(
    d: Declarations, rank: Name -> nat, data: Overwrites, bound: nat, memo: seq<Name>, list: seq<Name>, merged: Entries)
    requires Ranked(d.lists, rank) && forall p :: p in list ==> rank(p) < bound
    requires forall p :: p in list ==> p in memo && p !in data
    ensures ResolveEach(d, rank, bound, data, memo, list, merged) == (memo, merged)
    decreases |list|
  {
    if list == [] {
    } else {
      RepeatsAddNothing(d, rank, data, bound, memo, list[1..], merged);
    }
  }

  lemma OwnEntryWins(data: Overwrites, table: Table, rank: Name -> nat, t: Name, k: string)
    requires Ranked(table, rank) && k in EntriesOf(data, t)
    ensures Find(Lookup(data, table, rank, t), k) == Some(EntriesOf(data, t)[k])
  {
    MergeIsFirstMatch(data, [t] + Order(table, rank, t), k);
  }

  lemma FirstParentIsFound(data: Overwrites, table: Table, rank: Name -> nat, t: Name, k: string)
    requires Ranked(table, rank) && k !in EntriesOf(data, t)
    requires Parents(table, t) != [] && k in EntriesOf(data, Parents(table, t)[0])
    ensures Find(Lookup(data, table, rank, t), k) == Some(EntriesOf(data, Parents(table, t)[0])[k])
  {
    var list := Parents(table, t);
    var all := list + OrderOfAll(table, rank, rank(t), list);
    MergeIsFirstMatch(data, [t] + Order(table, rank, t), k);
    assert ([t] + Order(table, rank, t))[1..] == Order(table, rank, t);
    FirstMatchOfDedup(data, all, k);
    assert all[0] == list[0];
  }

  /** The way up from a type, along lists that name one type only. */
  ghost predicate IsClimb(lists: Table, path: seq<Name>) {
    path != [] && forall i :: 0 <= i < |path| - 1 ==> StepsUp(lists, path, i)
  }

  ghost predicate StepsUp(lists: Table, path: seq<Name>, i: nat)
    requires i < |path| - 1
  {
    OneParent(lists, path[i]) && Parents(lists, path[i]) != [] && path[i + 1] == Parents(lists, path[i])[0]
  }

  /** It goes on to the first list that names several. */
  ghost predicate IsClimbToBranch(lists: Table, path: seq<Name>) {
    IsClimb(lists, path) && !OneParent(lists, path[|path| - 1])
  }

  /** No list read for `t` or an ancestor names two types. */
  ghost predicate ReadsChain(initial: Table, lists: Table, t: Name) {
    forall x :: SelfOrAncestor(initial, t, x) ==> OneParent(lists, x)
  }

  /** The lists of several types at or above `t` end with another, recognised type than they begin with. */
  ghost predicate EndWell(initial: Table, d: Declarations, t: Name) {
    forall x :: SelfOrAncestor(initial, t, x) ==> EndsDiffer(d.lists, x) && EndsRecognized(d, x)
  }

  lemma EndWellAbove(initial: Table, d: Declarations, t: Name, u: Name)
    requires EndWell(initial, d, t) && u in Parents(initial, t)
    ensures EndWell(initial, d, u)
  {
    forall x | SelfOrAncestor(initial, u, x) ensures SelfOrAncestor(initial, t, x) {
      AncestorViaParent(initial, t, u, x);
    }
  }

  /** A way up to the first list that names several types, whose last one is recognised and not the first. */
  ghost predicate IsWayToBranch(d: Declarations, path: seq<Name>) {
    && IsClimbToBranch(d.lists, path) && EndsDiffer(d.lists, path[|path| - 1])
    && LastOf(d.lists, path) in d.recognized
  }

  lemma {:induction false} ClosestBranch(initial: Table, d: Declarations, rank: Name -> nat, t: Name)
    returns (path: seq<Name>)
    requires Declares(initial, d, rank) && !ReadsChain(initial, d.lists, t) && EndWell(initial, d, t)
    ensures IsWayToBranch(d, path) && path[0] == t
    decreases rank(t)
  {
    if !OneParent(d.lists, t) {
      path := [t];
      BranchHere(initial, d, t);
    } else {
      var u := BranchIsAbove(initial, d, rank, t);
      EndWellAbove(initial, d, t, u);
      var above := ClosestBranch(initial, d, rank, u);
      path := [t] + above;
      WayFromBelow(d, t, above);
    }
  }

  lemma BranchHere(initial: Table, d: Declarations, t: Name)
    requires EndWell(initial, d, t) && !OneParent(d.lists, t)
    ensures IsWayToBranch(d, [t])
  {
    ListEndsWell(initial, d, t);
  }

  lemma WayFromBelow(d: Declarations, t: Name, above: seq<Name>)
    requires IsWayToBranch(d, above) && OneParent(d.lists, t) && above[0] in Parents(d.lists, t)
    ensures IsWayToBranch(d, [t] + above)
  {
    ClimbFromBelow(d.lists, t, above);
    assert ([t] + above)[|above|] == above[|above| - 1];
  }

  lemma ListEndsWell(initial: Table, d: Declarations, t: Name)
    requires EndWell(initial, d, t)
    ensures EndsDiffer(d.lists, t) && EndsRecognized(d, t)
  {
    assert SelfOrAncestor(initial, t, t);
  }

  lemma BranchIsAbove(initial: Table, d: Declarations, rank: Name -> nat, t: Name) returns (u: Name)
    requires Declares(initial, d, rank) && !ReadsChain(initial, d.lists, t) && OneParent(d.lists, t)
    ensures u in Parents(initial, t) && u in Parents(d.lists, t) && rank(u) < rank(t)
    ensures !ReadsChain(initial, d.lists, u)
  {
    var x :| SelfOrAncestor(initial, t, x) && !OneParent(d.lists, x);
    u := AncestorUnfolds(initial, t, x);
    SettledIncludes(initial, d.lists, rank);
  }

  lemma ClimbFromBelow(lists: Table, t: Name, above: seq<Name>)
    requires IsClimbToBranch(lists, above) && OneParent(lists, t) && above[0] in Parents(lists, t)
    ensures IsClimbToBranch(lists, [t] + above)
  {
    var path := [t] + above;
    forall i | 0 <= i < |path| - 1 ensures StepsUp(lists, path, i) {
      if i == 0 {
        assert Parents(lists, t)[0] in Parents(lists, t);
      } else {
        assert StepsUp(lists, above, i - 1);
      }
    }
  }

  lemma StepUpTheClimb(lists: Table, path: seq<Name>)
    requires IsClimb(lists, path) && |path| > 1
    ensures IsClimb(lists, path[1..]) && forall p :: p in Parents(lists, path[0]) ==> p == path[1]
    ensures Parents(lists, path[0]) != [] && OneParent(lists, path[0])
  {
    var above := path[1..];
    forall i | 0 <= i < |above| - 1 ensures StepsUp(lists, above, i) {
      assert StepsUp(lists, path, i + 1);
    }
    assert StepsUp(lists, path, 0) && path[1] in Parents(lists, path[0]);
  }

  lemma ClimbFromAbove(lists: Table, path: seq<Name>)
    requires IsClimbToBranch(lists, path) && |path| > 1
    ensures IsClimbToBranch(lists, path[1..]) && path[1..][|path| - 2] == path[|path| - 1]
    ensures Parents(lists, path[0]) != [] && OneParent(lists, path[0])
    ensures forall p :: p in Parents(lists, path[0]) ==> p == path[1]
  {
    StepUpTheClimb(lists, path);
  }

  lemma {:induction false} ClimbDescends(lists: Table, rank: Name -> nat, path: seq<Name>, i: nat, j: nat)
    requires Ranked(lists, rank) && IsClimb(lists, path) && i < j < |path|
    ensures rank(path[j]) < rank(path[i])
    decreases j
  {
    assert StepsUp(lists, path, j - 1) && path[j] in Parents(lists, path[j - 1]);
    if i == j - 1 {
    } else {
      ClimbDescends(lists, rank, path, i, j - 1);
    }
  }

  /** The ends of the list that the climb leads to. */
  ghost function FirstOf(lists: Table, path: seq<Name>): Name
    requires path != [] && EndsDiffer(lists, path[|path| - 1]) && !OneParent(lists, path[|path| - 1])
  {
    Parents(lists, path[|path| - 1])[0]
  }

  ghost function LastOf(lists: Table, path: seq<Name>): Name
    requires path != [] && EndsDiffer(lists, path[|path| - 1]) && !OneParent(lists, path[|path| - 1])
  {
    var list := Parents(lists, path[|path| - 1]);
    list[|list| - 1]
  }

  /** The last entry of the branch has the key, and nothing on the way to it does. */
  ghost predicate IsClear(lists: Table, raw: Overwrites, path: seq<Name>, k: string) {
    && IsClimbToBranch(lists, path) && EndsDiffer(lists, path[|path| - 1])
    && k in EntriesOf(raw, LastOf(lists, path)) && k !in EntriesOf(raw, path[0])
    && forall i :: 0 < i < |path| ==> path[i] !in raw
  }

  lemma ClearFromAbove(lists: Table, raw: Overwrites, path: seq<Name>, k: string)
    requires IsClear(lists, raw, path, k) && |path| > 1
    ensures IsClear(lists, raw, path[1..], k) && LastOf(lists, path[1..]) == LastOf(lists, path)
  {
    var above := path[1..];
    ClimbFromAbove(lists, path);
    assert above[|above| - 1] == path[|path| - 1] && above[0] == path[1] && path[1] !in raw;
    forall i | 0 < i < |above| ensures above[i] !in raw {
      assert above[i] == path[i + 1];
    }
  }

  /** Resolved afresh, the start of the climb inherits what the last entry of the branch has. */
  lemma {:induction false} ClimbFindsTheLast(
    initial: Table, d: Declarations, rank: Name -> nat, raw: Overwrites, path: seq<Name>, k: string)
    requires Declares(initial, d, rank) && IsClear(d.lists, raw, path, k) && LastOf(d.lists, path) in d.recognized
    ensures var (memo, found) := Resolve(d, rank, raw, [], path[0]);
            && path[0] in memo && found.Some?
            && Find(found.value, k) == Some(EntriesOf(raw, LastOf(d.lists, path))[k])
    decreases |path|
  {
    if |path| == 1 {
      BranchFindsTheLast(initial, d, rank, raw, path, k);
    } else {
      ClearFromAbove(d.lists, raw, path, k);
      ClimbFindsTheLast(initial, d, rank, raw, path[1..], k);
      ClimbFromAbove(d.lists, path);
      OneParentHandsDown(initial, d, rank, raw, path[0], path[1], k);
    }
  }

  lemma BranchFindsTheLast(
    initial: Table, d: Declarations, rank: Name -> nat, raw: Overwrites, path: seq<Name>, k: string)
    requires Declares(initial, d, rank) && IsClimbToBranch(d.lists, path) && |path| == 1
    requires EndsDiffer(d.lists, path[0]) && LastOf(d.lists, path) in d.recognized
    requires k in EntriesOf(raw, LastOf(d.lists, path))
    requires k !in EntriesOf(raw, path[0])
    ensures var (memo, found) := Resolve(d, rank, raw, [], path[0]);
            && path[0] in memo && found.Some?
            && Find(found.value, k) == Some(EntriesOf(raw, LastOf(d.lists, path))[k])
  {
    var t := path[0];
    var list := Parents(d.lists, t);
    assert list[|list| - 1] in list;
    var q := list[|list| - 1];
    RawFindsOwn(d, rank, raw, q, k);
    LastEntryWins(d, rank, raw, rank(t), [], list, k, EntriesOf(raw, q)[k]);
  }

  lemma OneParentHandsDown(
    initial: Table, d: Declarations, rank: Name -> nat, raw: Overwrites, t: Name, u: Name, k: string)
    requires Declares(initial, d, rank) && Parents(d.lists, t) != []
    requires forall p :: p in Parents(d.lists, t) ==> p == u
    requires k !in EntriesOf(raw, t) && u !in raw
    requires var (memo, found) := Resolve(d, rank, raw, [], u); u in memo && found.Some? && k in found.value
    ensures var (memo, found) := Resolve(d, rank, raw, [], t);
            && t in memo && found.Some?
            && Find(found.value, k) == Find(Resolve(d, rank, raw, [], u).1.value, k)
  {
    var list := Parents(d.lists, t);
    var (memo, found) := Resolve(d, rank, raw, [], u);
    assert list[0] in list && forall p :: p in list[1..] ==> p in list;
    RepeatsAddNothing(d, rank, raw, rank(t), memo, list[1..], Assign(map[], found));
    assert ResolveEach(d, rank, rank(t), raw, [], list, map[]) == (memo, Assign(map[], found));
  }

  /** Where nothing is stored on the way, the lookup finds what the first entry of the branch has. */
  lemma {:induction false} ClimbMatchesTheFirst(
    initial: Table, d: Declarations, rank: Name -> nat, data: Overwrites, path: seq<Name>, k: string)
    requires Declares(initial, d, rank) && IsClimbToBranch(d.lists, path)
    requires EndsDiffer(d.lists, path[|path| - 1]) && k in EntriesOf(data, FirstOf(d.lists, path))
    requires forall i :: 0 <= i < |path| ==> k !in EntriesOf(data, path[i])
    ensures Find(Lookup(data, initial, rank, path[0]), k) == Some(EntriesOf(data, FirstOf(d.lists, path))[k])
    decreases |path|
  {
    if |path| == 1 {
      HeadsAgree(initial, d, rank, path[0]);
      FirstParentIsFound(data, initial, rank, path[0], k);
    } else {
      var above := path[1..];
      ClimbFromAbove(d.lists, path);
      assert above[|above| - 1] == path[|path| - 1];
      ClimbMatchesTheFirst(initial, d, rank, data, above, k);
      LookupOfParent(initial, d, rank, data, path[0], path[1], k);
    }
  }

  lemma LookupOfParent(
    initial: Table, d: Declarations, rank: Name -> nat, data: Overwrites, t: Name, u: Name, k: string)
    requires Declares(initial, d, rank) && Parents(d.lists, t) != [] && k !in EntriesOf(data, t)
    requires forall p :: p in Parents(d.lists, t) ==> p == u
    ensures Find(Lookup(data, initial, rank, t), k) == Find(Lookup(data, initial, rank, u), k)
  {
    HeadsAgree(initial, d, rank, t);
    SettledIncludes(initial, d.lists, rank);
    assert OneParent(initial, t) && Parents(d.lists, t)[0] in Parents(d.lists, t);
    LookupUnfolds(data, initial, rank, t);
  }

  /** Every recognised type that a resolution comes upon is marked. */
  lemma {:induction false} ResolveMarks(
    d: Declarations, rank: Name -> nat, data: Overwrites, memo: seq<Name>, t: Name, x: Name)
    requires Ranked(d.lists, rank) && x in d.recognized
    requires x in memo || x == t || (t !in memo && t in d.recognized && x in Parents(d.lists, t))
    ensures x in Resolve(d, rank, data, memo, t).0
    decreases rank(t), |Parents(d.lists, t)| + 1
  {
    if t !in memo && t in d.recognized && t in d.lists && x != t {
      ResolveEachMarks(d, rank, rank(t), data, memo, d.lists[t], map[], x);
    }
  }

  lemma {:induction false} ResolveEachMarks(
    d: Declarations, rank: Name -> nat, bound: nat, data: Overwrites,
    memo: seq<Name>, list: seq<Name>, merged: Entries, x: Name)
    requires Ranked(d.lists, rank) && x in d.recognized
    requires forall p :: p in list ==> rank(p) < bound
    requires x in memo || x in list
    ensures x in ResolveEach(d, rank, bound, data, memo, list, merged).0
    decreases bound, |list|
  {
    if list == [] {
    } else {
      var (memo', found) := Resolve(d, rank, data, memo, list[0]);
      if x in memo || x == list[0] {
        ResolveMarks(d, rank, data, memo, list[0], x);
      }
      ResolveEachMarks(d, rank, bound, data, memo', list[1..], Assign(merged, found), x);
    }
  }

  /** Visited first, `t` stores the value of the last entry of the branch above it. */
  lemma VisitedFirst(
    initial: Table, d: Declarations, rank: Name -> nat, raw: Overwrites, path: seq<Name>, later: seq<Name>)
    requires Declares(initial, d, rank) && IsClimbToBranch(d.lists, path)
    requires EndsDiffer(d.lists, path[|path| - 1]) && LastOf(d.lists, path) in d.recognized
    requires "k" in EntriesOf(raw, LastOf(d.lists, path))
    requires path[0] in raw && raw[path[0]] == map[] && path[0] !in later
    requires forall i :: 0 < i < |path| ==> path[i] !in raw
    ensures Find(Lookup(Resolved(d, rank, raw, [path[0]] + later), initial, rank, path[0]), "k")
         == Some(EntriesOf(raw, LastOf(d.lists, path))["k"])
  {
    ClimbFindsTheLast(initial, d, rank, raw, path, "k");
    var found := Resolve(d, rank, raw, [], path[0]).1;
    assert "k" in found.value;
    FirstVisitIsKept(d, rank, raw, path[0], later);
    OwnEntryWins(Resolved(d, rank, raw, [path[0]] + later), initial, rank, path[0], "k");
  }

  /** Below a type that is resolved already and has no data, nothing is inherited. */
  lemma {:induction false} ClimbFindsNothing(
    d: Declarations, rank: Name -> nat, data: Overwrites, memo: seq<Name>, path: seq<Name>, j: nat)
    requires Ranked(d.lists, rank) && IsClimb(d.lists, path) && j < |path|
    requires path[j] in memo && path[j] in d.recognized
    requires forall i :: 0 <= i <= j ==> EntriesOf(data, path[i]) == map[]
    ensures var found := Resolve(d, rank, data, memo, path[0]).1; found.Some? ==> found.value == map[]
    decreases j, 1, 0
  {
    var t := path[0];
    if j > 0 && t !in memo && t in d.recognized && t in d.lists {
      StepUpTheClimb(d.lists, path);
      assert forall i :: 0 <= i <= j - 1 ==> path[1..][i] == path[i + 1];
      RepeatsFindNothing(d, rank, rank(t), data, memo, d.lists[t], path[1..], j - 1);
    }
  }

  lemma {:induction false} RepeatsFindNothing(
    d: Declarations, rank: Name -> nat, bound: nat, data: Overwrites, memo: seq<Name>, list: seq<Name>,
    path: seq<Name>, j: nat)
    requires Ranked(d.lists, rank) && IsClimb(d.lists, path) && j < |path|
    requires path[j] in memo && path[j] in d.recognized
    requires forall i :: 0 <= i <= j ==> EntriesOf(data, path[i]) == map[]
    requires forall p :: p in list ==> p == path[0] && rank(p) < bound
    ensures ResolveEach(d, rank, bound, data, memo, list, map[]).1 == map[]
    decreases j + 1, 0, |list|
  {
    if list == [] {
    } else {
      var (memo', found) := Resolve(d, rank, data, memo, list[0]);
      assert list[0] in list;
      ClimbFindsNothing(d, rank, data, memo, path, j);
      ResolveMarks(d, rank, data, memo, list[0], path[j]);
      assert Assign(map[], found) == map[] && forall p :: p in list[1..] ==> p in list;
      RepeatsFindNothing(d, rank, bound, data, memo', list[1..], path, j);
    }
  }

  /** Another type `c` extends the j-th type of the climb, so that visiting it first marks that type. */
  ghost predicate Shares(d: Declarations, path: seq<Name>, j: nat, c: Name) {
    && j < |path| && path[j] in Parents(d.lists, c) && path[j] in d.recognized
    && c in d.recognized && c !in path
  }

  /** Visited after such a type, the start of the climb finds it resolved already and stays raw. */
  lemma VisitedAfterAnother(
    d: Declarations, rank: Name -> nat, raw: Overwrites, path: seq<Name>, j: nat, c: Name, later: seq<Name>)
    requires Ranked(d.lists, rank) && IsClimb(d.lists, path) && Shares(d, path, j, c)
    requires c in raw && path[0] in raw && raw[path[0]] == map[] && c !in later && path[0] !in later
    requires forall i :: 0 < i < |path| ==> path[i] !in raw
    ensures var data := Resolved(d, rank, raw, [c] + ([path[0]] + later));
            path[0] in data && data[path[0]] == map[]
  {
    var (memo, found) := Resolve(d, rank, raw, [], c);
    var first := Store(raw, c, found);
    ResolveMarks(d, rank, raw, [], c, path[j]);
    forall i | 0 <= i <= j ensures EntriesOf(first, path[i]) == map[] {
      assert path[i] in path;
    }
    ClimbFindsNothing(d, rank, first, memo, path, j);
    TwoVisits(d, rank, raw, c, path[0], later);
  }

  lemma StoredAfterAnother(
    d: Declarations, rank: Name -> nat, raw: Overwrites, path: seq<Name>, j: nat, c: Name, later: seq<Name>, p: Name)
    requires Ranked(d.lists, rank) && IsClimb(d.lists, path) && Shares(d, path, j, c)
    requires "k" in EntriesOf(raw, p)
    requires c in raw && path[0] in raw && raw[path[0]] == map[] && c !in later && path[0] !in later
    requires forall i :: 0 < i < |path| ==> path[i] !in raw
    requires forall x :: x in later ==> x in raw
    ensures var data := Resolved(d, rank, raw, [c] + ([path[0]] + later));
            && (forall i :: 0 <= i < |path| ==> "k" !in EntriesOf(data, path[i]))
            && Find(EntriesOf(data, p), "k") == Find(EntriesOf(raw, p), "k")
  {
    var order := [c] + ([path[0]] + later);
    StoredIsSound(d, rank, raw, order);
    VisitedAfterAnother(d, rank, raw, path, j, c, later);
    OnlyRawIsKept(raw, Resolved(d, rank, raw, order), path, p, "k");
  }

  lemma VisitedAfterAnotherFindsTheFirst(
    initial: Table, d: Declarations, rank: Name -> nat, raw: Overwrites, path: seq<Name>, j: nat, c: Name,
    later: seq<Name>)
    requires Declares(initial, d, rank) && IsClimbToBranch(d.lists, path) && Shares(d, path, j, c)
    requires EndsDiffer(d.lists, path[|path| - 1]) && "k" in EntriesOf(raw, FirstOf(d.lists, path))
    requires c in raw && path[0] in raw && raw[path[0]] == map[] && c !in later && path[0] !in later
    requires forall i :: 0 < i < |path| ==> path[i] !in raw
    requires forall x :: x in later ==> x in raw
    ensures Find(Lookup(Resolved(d, rank, raw, [c] + ([path[0]] + later)), initial, rank, path[0]), "k")
         == Some(EntriesOf(raw, FirstOf(d.lists, path))["k"])
  {
    StoredAfterAnother(d, rank, raw, path, j, c, later, FirstOf(d.lists, path));
    ClimbMatchesTheFirst(initial, d, rank, Resolved(d, rank, raw, [c] + ([path[0]] + later)), path, "k");
  }

  lemma OnlyRawIsKept(raw: Overwrites, data: Overwrites, path: seq<Name>, p: Name, k: string)
    requires KeepsRaw(raw, data) && path != [] && path[0] in data && data[path[0]] == map[]
    requires k in EntriesOf(raw, p) && forall i :: 0 < i < |path| ==> path[i] !in raw
    ensures forall i :: 0 <= i < |path| ==> k !in EntriesOf(data, path[i])
    ensures Find(EntriesOf(data, p), k) == Find(EntriesOf(raw, p), k)
  {
    assert Submap(raw[p], data[p]);
  }

  /** Two climbs from one type go the same way, and none goes beyond a list that names several. */
  lemma {:induction false} ClimbsAgree(lists: Table, way: seq<Name>, path: seq<Name>, i: nat)
    requires IsClimb(lists, way) && IsClimbToBranch(lists, path) && way[0] == path[0] && i < |way|
    ensures i < |path| && way[i] == path[i]
  {
    if i == 0 {
    } else {
      ClimbsAgree(lists, way, path, i - 1);
      assert StepsUp(lists, way, i - 1);
      assert i < |path| ==> StepsUp(lists, path, i - 1);
    }
  }

  /** With several types in a list above it, the lookup of a type depends on the order if another type
      extends it, or extends one that it comes to along single parents: visited first it gets the value
      of the last entry of that list, after the other type that of the first. */
  lemma LookupDependsOnOrder(initial: Table, d: Declarations, rank: Name -> nat, way: seq<Name>, c: Name)
    returns (raw: Overwrites, order: seq<Name>, order': seq<Name>)
    requires Declares(initial, d, rank) && IsClimb(d.lists, way) && Shares(d, way, |way| - 1, c)
    requires EndWell(initial, d, way[0])
    requires !ReadsChain(initial, d.lists, way[0])
    ensures Enumerates(order, raw) && Enumerates(order', raw)
    ensures Find(Lookup(Resolved(d, rank, raw, order), initial, rank, way[0]), "k") == Some(FAR)
    ensures Find(Lookup(Resolved(d, rank, raw, order'), initial, rank, way[0]), "k") == Some(NEAR)
  {
    var path := SharedBranch(initial, d, rank, way, c);
    raw, order, order' := LookupDependsOnOrderAlong(initial, d, rank, path, |way| - 1, c);
  }

  lemma SharedBranch(initial: Table, d: Declarations, rank: Name -> nat, way: seq<Name>, c: Name)
    returns (path: seq<Name>)
    requires Declares(initial, d, rank) && IsClimb(d.lists, way) && Shares(d, way, |way| - 1, c)
    requires EndWell(initial, d, way[0])
    requires !ReadsChain(initial, d.lists, way[0])
    ensures IsClimbToBranch(d.lists, path) && path[0] == way[0] && Shares(d, path, |way| - 1, c)
    ensures EndsDiffer(d.lists, path[|path| - 1]) && LastOf(d.lists, path) in d.recognized
  {
    path := ClosestBranch(initial, d, rank, way[0]);
    SharesOnPath(d, rank, way, path, c);
  }

  lemma SharesOnPath(d: Declarations, rank: Name -> nat, way: seq<Name>, path: seq<Name>, c: Name)
    requires Ranked(d.lists, rank) && IsClimb(d.lists, way) && IsClimbToBranch(d.lists, path) && way[0] == path[0]
    requires Shares(d, way, |way| - 1, c)
    ensures Shares(d, path, |way| - 1, c)
  {
    var j := |way| - 1;
    ClimbsAgree(d.lists, way, path, j);
    assert rank(path[j]) < rank(c);
    forall i | 0 <= i < |path| ensures path[i] != c {
      if i <= j {
        ClimbsAgree(d.lists, way, path, i);
        assert way[i] in way;
      } else {
        ClimbDescends(d.lists, rank, path, j, i);
      }
    }
  }

  lemma LookupDependsOnOrderAlong(
    initial: Table, d: Declarations, rank: Name -> nat, path: seq<Name>, j: nat, c: Name)
    returns (raw: Overwrites, order: seq<Name>, order': seq<Name>)
    requires Declares(initial, d, rank) && IsClimbToBranch(d.lists, path) && Shares(d, path, j, c)
    requires EndsDiffer(d.lists, path[|path| - 1]) && LastOf(d.lists, path) in d.recognized
    ensures Enumerates(order, raw) && Enumerates(order', raw)
    ensures Find(Lookup(Resolved(d, rank, raw, order), initial, rank, path[0]), "k") == Some(FAR)
    ensures Find(Lookup(Resolved(d, rank, raw, order'), initial, rank, path[0]), "k") == Some(NEAR)
  {
    var t, p, q := path[0], FirstOf(d.lists, path), LastOf(d.lists, path);
    EndsAreApart(d.lists, rank, path, j, c);
    raw, order, order' := EndsData(c, t, p, q), [t] + [c, p, q], [c] + ([t] + [p, q]);
    EndsAreEnumerated(c, t, p, q);
    EndsAreExposed(initial, d, rank, path, j, c, p, q);
  }

  lemma EndsAreApart(lists: Table, rank: Name -> nat, path: seq<Name>, j: nat, c: Name)
    requires Ranked(lists, rank) && IsClimbToBranch(lists, path) && EndsDiffer(lists, path[|path| - 1])
    requires j < |path| && path[j] in Parents(lists, c) && c !in path
    ensures var p, q := FirstOf(lists, path), LastOf(lists, path);
            && FourDistinct(c, path[0], p, q)
            && forall i :: 0 < i < |path| ==> path[i] !in EndsData(c, path[0], p, q)
  {
    ClimbStaysApart(lists, rank, path);
    assert rank(path[j]) < rank(c);
    assert forall i :: 0 <= i < |path| ==> path[i] in path;
  }

  lemma EndsAreExposed(
    initial: Table, d: Declarations, rank: Name -> nat, path: seq<Name>, j: nat, c: Name, p: Name, q: Name)
    requires Declares(initial, d, rank) && IsClimbToBranch(d.lists, path) && Shares(d, path, j, c)
    requires EndsDiffer(d.lists, path[|path| - 1]) && p == FirstOf(d.lists, path) && q == LastOf(d.lists, path)
    requires q in d.recognized && FourDistinct(c, path[0], p, q)
    requires forall i :: 0 < i < |path| ==> path[i] !in EndsData(c, path[0], p, q)
    ensures var (raw, t) := (EndsData(c, path[0], p, q), path[0]);
            && Find(Lookup(Resolved(d, rank, raw, [t] + [c, p, q]), initial, rank, t), "k") == Some(FAR)
            && Find(Lookup(Resolved(d, rank, raw, [c] + ([t] + [p, q])), initial, rank, t), "k") == Some(NEAR)
  {
    var raw := EndsData(c, path[0], p, q);
    EndsHave(c, path[0], p, q);
    VisitedFirst(initial, d, rank, raw, path, [c, p, q]);
    VisitedAfterAnotherFindsTheFirst(initial, d, rank, raw, path, j, c, [p, q]);
  }

  lemma EndsHave(c: Name, t: Name, p: Name, q: Name)
    requires FourDistinct(c, t, p, q)
    ensures var raw := EndsData(c, t, p, q);
            && raw.Keys == {c, t, p, q} && raw[t] == map[]
            && Find(EntriesOf(raw, p), "k") == Some(NEAR) && Find(EntriesOf(raw, q), "k") == Some(FAR)
  {
  }

  /** The climb goes down in rank, and the branch lies below its end. */
  lemma ClimbStaysApart(lists: Table, rank: Name -> nat, path: seq<Name>)
    requires Ranked(lists, rank) && IsClimbToBranch(lists, path) && EndsDiffer(lists, path[|path| - 1])
    ensures forall i :: 0 < i < |path| ==> rank(path[i]) < rank(path[0])
    ensures forall i :: 0 <= i < |path| ==>
      rank(FirstOf(lists, path)) < rank(path[i]) && rank(LastOf(lists, path)) < rank(path[i])
  {
    var x := path[|path| - 1];
    assert FirstOf(lists, path) in Parents(lists, x) && LastOf(lists, path) in Parents(lists, x);
    forall i | 0 <= i < |path| ensures rank(x) <= rank(path[i]) && (i > 0 ==> rank(path[i]) < rank(path[0])) {
      if i < |path| - 1 {
        ClimbDescends(lists, rank, path, i, |path| - 1);
      }
      if i > 0 {
        ClimbDescends(lists, rank, path, 0, i);
      }
    }
  }

  lemma EndsAreEnumerated(c: Name, t: Name, p: Name, q: Name)
    requires FourDistinct(c, t, p, q)
    ensures Enumerates([t] + [c, p, q], EndsData(c, t, p, q))
    ensures Enumerates([c] + ([t] + [p, q]), EndsData(c, t, p, q))
  {
  }

  /** For a type that another one extends, or that comes along single parents to one that another
      extends, all visiting orders give the same lookup of all data if and only if no list read for it
      or an ancestor names two types. */
  lemma OrderIsIrrelevantExactlyWhen(initial: Table, d: Declarations, rank: Name -> nat, way: seq<Name>, c: Name)
    requires Declares(initial, d, rank) && IsClimb(d.lists, way) && Shares(d, way, |way| - 1, c)
    requires EndWell(initial, d, way[0])
    ensures (forall raw: Overwrites, order: seq<Name>, order': seq<Name> ::
              Enumerates(order, raw) && Enumerates(order', raw) ==>
              Lookup(Resolved(d, rank, raw, order), initial, rank, way[0])
              == Lookup(Resolved(d, rank, raw, order'), initial, rank, way[0]))
        <==> ReadsChain(initial, d.lists, way[0])
  {
    var t := way[0];
    if ReadsChain(initial, d.lists, t) {
      ReadsChainIsChain(initial, d, rank, t);
      forall raw: Overwrites, order: seq<Name>, order': seq<Name> |
        Enumerates(order, raw) && Enumerates(order', raw)
        ensures Lookup(Resolved(d, rank, raw, order), initial, rank, t)
             == Lookup(Resolved(d, rank, raw, order'), initial, rank, t)
      {
        LookupAfterSetting(initial, d, rank, raw, order, t);
        LookupAfterSetting(initial, d, rank, raw, order', t);
      }
    } else {
      var raw, order, order' := LookupDependsOnOrder(initial, d, rank, way, c);
    }
  }

  lemma ReadsChainIsChain(initial: Table, d: Declarations, rank: Name -> nat, t: Name)
    requires Declares(initial, d, rank) && ReadsChain(initial, d.lists, t)
    ensures ChainAbove(initial, t) && ReadsChainAbove(initial, d, t)
  {
    SettledIncludes(initial, d.lists, rank);
  }

  // ---------- types that no other one extends ----------

  /** A resolution marks only what it starts from and what lists name. */
  lemma {:induction false} UnlistedIsNotMarked(
    d: Declarations, rank: Name -> nat, data: Overwrites, memo: seq<Name>, t: Name, x: Name)
    requires Ranked(d.lists, rank) && x !in memo && x != t && forall y :: x !in Parents(d.lists, y)
    ensures x !in Resolve(d, rank, data, memo, t).0
    decreases rank(t), |Parents(d.lists, t)| + 1
  {
    if t !in memo && t in d.recognized && t in d.lists {
      assert x !in Parents(d.lists, t);
      UnlistedIsNotMarkedEach(d, rank, rank(t), data, memo, d.lists[t], map[], x);
    }
  }

  lemma {:induction false} UnlistedIsNotMarkedEach(
    d: Declarations, rank: Name -> nat, bound: nat, data: Overwrites, memo: seq<Name>, list: seq<Name>,
    merged: Entries, x: Name)
    requires Ranked(d.lists, rank) && x !in memo && x !in list && forall y :: x !in Parents(d.lists, y)
    requires forall p :: p in list ==> rank(p) < bound
    ensures x !in ResolveEach(d, rank, bound, data, memo, list, merged).0
    decreases bound, |list|
  {
    if list == [] {
    } else {
      var (memo', found) := Resolve(d, rank, data, memo, list[0]);
      UnlistedIsNotMarked(d, rank, data, memo, list[0], x);
      UnlistedIsNotMarkedEach(d, rank, bound, data, memo', list[1..], Assign(merged, found), x);
    }
  }

  /** Visited unmarked, the type stores what the last entry of its list has, if it has nothing itself. */
  lemma UnmarkedTakesTheLast(
    d: Declarations, rank: Name -> nat, data: Overwrites, memo: seq<Name>, t: Name, k: string, v: Value)
    requires Ranked(d.lists, rank) && t !in memo && t in d.recognized && t in d.lists && d.lists[t] != []
    requires k !in EntriesOf(data, t) && AlwaysFinds(d, rank, data, d.lists[t][|d.lists[t]| - 1], k, v)
    ensures var found := Resolve(d, rank, data, memo, t).1; found.Some? && Find(found.value, k) == Some(v)
  {
    LastEntryWins(d, rank, data, rank(t), memo, d.lists[t], k, v);
  }

  lemma VisitedTakesTheLast(
    d: Declarations, rank: Name -> nat, data: Overwrites, memo: seq<Name>, order: seq<Name>, t: Name, k: string,
    v: Value)
    requires Ranked(d.lists, rank) && t !in memo && t in d.recognized && t in d.lists && d.lists[t] != []
    requires k !in EntriesOf(data, t) && AlwaysFinds(d, rank, data, d.lists[t][|d.lists[t]| - 1], k, v)
    requires order != [] && order[0] == t && Distinct(order)
    ensures Find(EntriesOf(ResolveAll(d, rank, data, memo, order).1, t), k) == Some(v)
  {
    var (memo', found) := Resolve(d, rank, data, memo, t);
    UnmarkedTakesTheLast(d, rank, data, memo, t, k, v);
    assert k in found.value;
    assert t !in order[1..];
    UnvisitedStays(d, rank, Store(data, t, found), memo', order[1..], t);
  }

  /** Until it is visited, an unlisted type stays unmarked and raw; after that its value stays. */
  lemma {:induction false} UnlistedTakesTheLast(
    d: Declarations, rank: Name -> nat, raw: Overwrites, data: Overwrites, memo: seq<Name>, order: seq<Name>,
    t: Name, k: string)
    requires Ranked(d.lists, rank) && Sound(d.lists, raw, data) && Distinct(order)
    requires t in order && forall x :: x in order ==> x in raw
    requires t !in memo && t in d.recognized && t in d.lists && d.lists[t] != []
    requires (forall y :: t !in Parents(d.lists, y)) && t in data && k !in data[t]
    requires var q := d.lists[t][|d.lists[t]| - 1]; q in d.recognized && k in EntriesOf(raw, q)
    ensures var q := d.lists[t][|d.lists[t]| - 1];
            Find(EntriesOf(ResolveAll(d, rank, data, memo, order).1, t), k) == Some(EntriesOf(raw, q)[k])
    decreases |order|
  {
    var (memo', found) := Resolve(d, rank, data, memo, order[0]);
    var data' := Store(data, order[0], found);
    ResolveIsSound(d, rank, raw, data, memo, order[0]);
    StoreKeepsSound(d.lists, raw, data, order[0], found);
    if order[0] == t {
      var q := d.lists[t][|d.lists[t]| - 1];
      SoundFindsOwn(d, rank, raw, data, q, k);
      VisitedTakesTheLast(d, rank, data, memo, order, t, k, EntriesOf(raw, q)[k]);
    } else {
      UnlistedIsNotMarked(d, rank, data, memo, order[0], t);
      UnlistedTakesTheLast(d, rank, raw, data', memo', order[1..], t, k);
    }
  }

  /** A type that no list names and that has nothing for a key itself is looked up, after every visiting
      order, with what the last entry of its own list has. */
  lemma UnextendedTakesTheLast(
    initial: Table, d: Declarations, rank: Name -> nat, raw: Overwrites, order: seq<Name>, t: Name, k: string)
    requires Declares(initial, d, rank) && Enumerates(order, raw)
    requires t in d.lists && d.lists[t] != [] && forall y :: t !in Parents(d.lists, y)
    requires t in raw && k !in raw[t]
    requires var q := d.lists[t][|d.lists[t]| - 1]; q in d.recognized && k in EntriesOf(raw, q)
    ensures var q := d.lists[t][|d.lists[t]| - 1];
            Find(Lookup(Resolved(d, rank, raw, order), initial, rank, t), k) == Some(EntriesOf(raw, q)[k])
  {
    RawIsSound(d.lists, raw);
    UnlistedTakesTheLast(d, rank, raw, raw, [], order, t, k);
    OwnEntryWins(Resolved(d, rank, raw, order), initial, rank, t, k);
  }

  // ---------- setting the data again ----------

  /** Whatever lists the second setting reads: an entry that the first one stored for the type itself
      stays what the lookup returns. */
  lemma StoredEntriesStay(
    initial: Table, d: Declarations, rank: Name -> nat, stored: Overwrites, again: seq<Name>, t: Name, k: string)
    requires Declares(initial, d, rank) && Enumerates(again, stored) && k in EntriesOf(stored, t)
    ensures Find(Lookup(Resolved(d, rank, stored, again), initial, rank, t), k)
         == Find(Lookup(stored, initial, rank, t), k)
  {
    StoredIsSound(d, rank, stored, again);
    var data := Resolved(d, rank, stored, again);
    assert Submap(stored[t], data[t]);
    OwnEntryWins(stored, initial, rank, t, k);
    OwnEntryWins(data, initial, rank, t, k);
  }

  /** A first setting left the type raw, because one that extends it was visited before, and the
      second one reads a list of two types above it: the last of them overrides the first. */
  lemma SettingAgainChanges(
    initial: Table, d: Declarations, d': Declarations, rank: Name -> nat, t: Name, c: Name)
    returns (raw: Overwrites, order: seq<Name>, again: seq<Name>)
    requires Declares(initial, d, rank) && Declares(initial, d', rank) && Shares(d, [t], 0, c)
    requires EndWell(initial, d', t)
    requires !ReadsChain(initial, d'.lists, t)
    ensures Enumerates(order, raw) && Enumerates(again, Resolved(d, rank, raw, order))
    ensures var stored := Resolved(d, rank, raw, order);
            && Find(Lookup(stored, initial, rank, t), "k") == Some(NEAR)
            && Find(Lookup(Resolved(d', rank, stored, again), initial, rank, t), "k") == Some(FAR)
  {
    var path := ClosestBranch(initial, d', rank, t);
    raw, order, again := SettingAgainChangesAlong(initial, d, d', rank, path, c);
  }

  lemma SettingAgainChangesAlong(
    initial: Table, d: Declarations, d': Declarations, rank: Name -> nat, path: seq<Name>, c: Name)
    returns (raw: Overwrites, order: seq<Name>, again: seq<Name>)
    requires Declares(initial, d', rank) && Ranked(d.lists, rank)
    requires path != [] && Shares(d, [path[0]], 0, c) && IsClimbToBranch(d'.lists, path)
    requires EndsDiffer(d'.lists, path[|path| - 1]) && LastOf(d'.lists, path) in d'.recognized
    ensures Enumerates(order, raw) && Enumerates(again, Resolved(d, rank, raw, order))
    ensures var stored := Resolved(d, rank, raw, order);
            && Find(Lookup(stored, initial, rank, path[0]), "k") == Some(NEAR)
            && Find(Lookup(Resolved(d', rank, stored, again), initial, rank, path[0]), "k") == Some(FAR)
  {
    var t, p, q := path[0], FirstOf(d'.lists, path), LastOf(d'.lists, path);
    raw, order, again := EndsData(c, t, p, q), [c] + ([t] + [p, q]), [t] + [c, p, q];
    ChildStaysApart(d, d', rank, path, c);
    EndsAreEnumerated(c, t, p, q);
    EndsHave(c, t, p, q);
    LeftRaw(d, rank, path, c, p, q);
    StillEnumerated(again, raw, Resolved(d, rank, raw, order));
    SecondSettingChanges(initial, d', rank, Resolved(d, rank, raw, order), path, c, p, q);
  }

  lemma StillEnumerated(order: seq<Name>, raw: Overwrites, stored: Overwrites)
    requires Enumerates(order, raw) && stored.Keys == raw.Keys
    ensures Enumerates(order, stored)
  {
  }

  lemma SecondSettingChanges(
    initial: Table, d: Declarations, rank: Name -> nat, stored: Overwrites, path: seq<Name>, c: Name, p: Name, q: Name)
    requires Declares(initial, d, rank) && IsClimbToBranch(d.lists, path) && EndsDiffer(d.lists, path[|path| - 1])
    requires p == FirstOf(d.lists, path) && q == LastOf(d.lists, path) && q in d.recognized
    requires FourDistinct(c, path[0], p, q) && stored.Keys == {c, path[0], p, q} && stored[path[0]] == map[]
    requires forall i :: 0 < i < |path| ==> path[i] !in stored
    requires Find(EntriesOf(stored, p), "k") == Some(NEAR) && Find(EntriesOf(stored, q), "k") == Some(FAR)
    ensures Find(Lookup(stored, initial, rank, path[0]), "k") == Some(NEAR)
    ensures Find(Lookup(Resolved(d, rank, stored, [path[0]] + [c, p, q]), initial, rank, path[0]), "k") == Some(FAR)
  {
    ClimbMatchesTheFirst(initial, d, rank, stored, path, "k");
    VisitedFirst(initial, d, rank, stored, path, [c, p, q]);
  }

  lemma ChildStaysApart(d: Declarations, d': Declarations, rank: Name -> nat, path: seq<Name>, c: Name)
    requires Ranked(d.lists, rank) && Ranked(d'.lists, rank)
    requires IsClimbToBranch(d'.lists, path) && EndsDiffer(d'.lists, path[|path| - 1])
    requires path[0] in Parents(d.lists, c)
    ensures var p, q := FirstOf(d'.lists, path), LastOf(d'.lists, path);
            && FourDistinct(c, path[0], p, q)
            && forall i :: 0 < i < |path| ==> path[i] !in EndsData(c, path[0], p, q)
  {
    ClimbStaysApart(d'.lists, rank, path);
    assert rank(path[0]) < rank(c);
  }

  /** What the first setting stores. */
  lemma LeftRaw(d: Declarations, rank: Name -> nat, path: seq<Name>, c: Name, p: Name, q: Name)
    requires Ranked(d.lists, rank) && path != [] && Shares(d, [path[0]], 0, c) && FourDistinct(c, path[0], p, q)
    requires forall i :: 0 < i < |path| ==> path[i] !in EndsData(c, path[0], p, q)
    ensures var stored := Resolved(d, rank, EndsData(c, path[0], p, q), [c] + ([path[0]] + [p, q]));
            && stored.Keys == {c, path[0], p, q} && stored[path[0]] == map[]
            && (forall i :: 0 <= i < |path| ==> "k" !in EntriesOf(stored, path[i]))
            && Find(EntriesOf(stored, p), "k") == Some(NEAR) && Find(EntriesOf(stored, q), "k") == Some(FAR)
  {
    EndsHave(c, path[0], p, q);
    StoredOfEnds(d, rank, EndsData(c, path[0], p, q), c, path[0], p, q);
    OnlyRawIsKept(EndsData(c, path[0], p, q),
                  Resolved(d, rank, EndsData(c, path[0], p, q), [c] + ([path[0]] + [p, q])), path, p, "k");
  }

  lemma StoredOfEnds(d: Declarations, rank: Name -> nat, raw: Overwrites, c: Name, t: Name, p: Name, q: Name)
    requires Ranked(d.lists, rank) && Shares(d, [t], 0, c) && FourDistinct(c, t, p, q)
    requires raw.Keys == {c, t, p, q} && raw[t] == map[]
    requires Find(EntriesOf(raw, p), "k") == Some(NEAR) && Find(EntriesOf(raw, q), "k") == Some(FAR)
    ensures var stored := Resolved(d, rank, raw, [c] + ([t] + [p, q]));
            && KeepsRaw(raw, stored) && stored[t] == map[]
            && Find(EntriesOf(stored, p), "k") == Some(NEAR) && Find(EntriesOf(stored, q), "k") == Some(FAR)
  {
    EndsAreListed(raw, c, t, p, q);
    StoredKeepsRaw(d, rank, raw, [c] + ([t] + [p, q]));
    VisitedAfterChild(d, rank, raw, t, c, [p, q]);
    KeptEnds(raw, Resolved(d, rank, raw, [c] + ([t] + [p, q])), p, q);
  }

  lemma EndsAreListed(raw: Overwrites, c: Name, t: Name, p: Name, q: Name)
    requires raw.Keys == {c, t, p, q}
    ensures forall x :: x in [c] + ([t] + [p, q]) ==> x in raw
  {
  }

  lemma KeptEnds(raw: Overwrites, stored: Overwrites, p: Name, q: Name)
    requires KeepsRaw(raw, stored)
    requires Find(EntriesOf(raw, p), "k") == Some(NEAR) && Find(EntriesOf(raw, q), "k") == Some(FAR)
    ensures Find(EntriesOf(stored, p), "k") == Some(NEAR) && Find(EntriesOf(stored, q), "k") == Some(FAR)
  {
    KeptValue(raw, stored, p, "k");
    KeptValue(raw, stored, q, "k");
  }

  lemma StoredKeepsRaw(d: Declarations, rank: Name -> nat, raw: Overwrites, order: seq<Name>)
    requires Ranked(d.lists, rank) && forall t :: t in order ==> t in raw
    ensures KeepsRaw(raw, Resolved(d, rank, raw, order))
  {
    StoredIsSound(d, rank, raw, order);
  }

  lemma KeptValue(raw: Overwrites, data: Overwrites, x: Name, k: string)
    requires KeepsRaw(raw, data) && k in EntriesOf(raw, x)
    ensures Find(EntriesOf(data, x), k) == Find(EntriesOf(raw, x), k)
  {
    assert Submap(raw[x], data[x]);
  }

  lemma VisitedAfterChild(
    d: Declarations, rank: Name -> nat, raw: Overwrites, t: Name, c: Name, later: seq<Name>)
    requires Ranked(d.lists, rank) && Shares(d, [t], 0, c)
    requires c in raw && t in raw && raw[t] == map[] && c !in later && t !in later
    ensures var data := Resolved(d, rank, raw, [c] + ([t] + later)); t in data && data[t] == map[]
  {
    VisitedAfterAnother(d, rank, raw, [t], 0, c, later);
  }

  /** For a type that another one extends, setting the data again changes no lookup, of any data and in
      any orders, if and only if no list read by the second setting for it or an ancestor names two types. */
  lemma SettingAgainIsHarmlessExactlyWhen(
    initial: Table, d: Declarations, d': Declarations, rank: Name -> nat, t: Name, c: Name)
    requires Declares(initial, d, rank) && Declares(initial, d', rank) && Shares(d, [t], 0, c)
    requires ReadsChain(initial, d.lists, t)
    requires EndWell(initial, d', t)
    ensures (forall raw: Overwrites, order: seq<Name>, again: seq<Name> ::
              Enumerates(order, raw) && Enumerates(again, Resolved(d, rank, raw, order)) ==>
              Lookup(Resolved(d', rank, Resolved(d, rank, raw, order), again), initial, rank, t)
              == Lookup(Resolved(d, rank, raw, order), initial, rank, t))
        <==> ReadsChain(initial, d'.lists, t)
  {
    if ReadsChain(initial, d'.lists, t) {
      ReadsChainIsChain(initial, d, rank, t);
      ReadsChainIsChain(initial, d', rank, t);
      forall raw: Overwrites, order: seq<Name>, again: seq<Name> |
        Enumerates(order, raw) && Enumerates(again, Resolved(d, rank, raw, order))
        ensures Lookup(Resolved(d', rank, Resolved(d, rank, raw, order), again), initial, rank, t)
             == Lookup(Resolved(d, rank, raw, order), initial, rank, t)
      {
        LookupAfterSettingAgain(initial, d, d', rank, raw, order, again, t);
      }
    } else {
      var raw, order, again := SettingAgainChanges(initial, d, d', rank, t, c);
    }
  }

  // ---------- the stored table depends on the order even on chains ----------

  ghost predicate FourDistinct(a: Name, b: Name, c: Name, d: Name) {
    a != b && a != c && a != d && b != c && b != d && c != d
  }

  /** Two types below a parent that has no data, and data for the root above it. */
  function SiblingTypes(a: Name, b: Name, mid: Name, root: Name): Declarations {
    Declarations({a, b, mid, root}, map[a := [mid], b := [mid], mid := [root]])
  }

  function SiblingData(a: Name, b: Name, root: Name): Overwrites {
    map[a := map[], b := map[], root := map["k" := NEAR]]
  }

  ghost function ThreeLevels(mid: Name, root: Name): Name -> nat {
    t => if t == root then 0 else if t == mid then 1 else 2
  }

  /** The first sibling visited resolves the parent and inherits through it. */
  lemma FirstSibling(a: Name, b: Name, mid: Name, root: Name)
    requires FourDistinct(a, b, mid, root)
    ensures Ranked(SiblingTypes(a, b, mid, root).lists, ThreeLevels(mid, root))
    ensures Resolve(SiblingTypes(a, b, mid, root), ThreeLevels(mid, root), SiblingData(a, b, root), [], a)
         == ([root, mid, a], Some(map["k" := NEAR]))
  {
    var d, rank, data := SiblingTypes(a, b, mid, root), ThreeLevels(mid, root), SiblingData(a, b, root);
    var inherited: Entries := map["k" := NEAR];
    assert map[] + inherited == inherited && inherited + map[] == inherited;
    assert Resolve(d, rank, data, [], root) == ([] + [root], Some(inherited));
    assert [] + [root] == [root] && [root] + [mid] == [root, mid] && [root, mid] + [a] == [root, mid, a];
    ResolveEachOfOne(d, rank, rank(mid), data, [], root, map[]);
    assert Resolve(d, rank, data, [], mid) == ([root, mid], Some(inherited));
    ResolveEachOfOne(d, rank, rank(a), data, [], mid, map[]);
  }

  /** For the second sibling the parent is resolved but was never stored: nothing is inherited. */
  lemma SecondSibling(a: Name, b: Name, mid: Name, root: Name, data: Overwrites)
    requires FourDistinct(a, b, mid, root)
    requires b in data && data[b] == map[] && mid !in data
    ensures Ranked(SiblingTypes(a, b, mid, root).lists, ThreeLevels(mid, root))
    ensures Resolve(SiblingTypes(a, b, mid, root), ThreeLevels(mid, root), data, [root, mid, a], b).1 == Some(map[])
  {
    var d, rank, memo := SiblingTypes(a, b, mid, root), ThreeLevels(mid, root), [root, mid, a];
    assert Resolve(d, rank, data, memo, mid) == (memo, None);
    ResolveEachOfOne(d, rank, rank(b), data, memo, mid, map[]);
  }

  lemma SiblingsStored(a: Name, b: Name, mid: Name, root: Name)
    requires FourDistinct(a, b, mid, root)
    ensures Ranked(SiblingTypes(a, b, mid, root).lists, ThreeLevels(mid, root))
    ensures var data := Resolved(SiblingTypes(a, b, mid, root), ThreeLevels(mid, root), SiblingData(a, b, root),
                                 [a] + ([b] + [root]));
            a in data && b in data && "k" in data[a] && data[b] == map[]
  {
    var raw, found := SiblingData(a, b, root), Some(map["k" := NEAR]);
    FirstSibling(a, b, mid, root);
    assert "k" in found.value;
    SecondSibling(a, b, mid, root, Store(raw, a, found));
    TwoVisits(SiblingTypes(a, b, mid, root), ThreeLevels(mid, root), raw, a, b, [root]);
  }

  /** The same data stored in two visiting orders: the tables differ, though no lookup does. */
  lemma StoredTableDependsOnOrder(a: Name, b: Name, mid: Name, root: Name)
    requires FourDistinct(a, b, mid, root)
    ensures var d, rank, raw := SiblingTypes(a, b, mid, root), ThreeLevels(mid, root), SiblingData(a, b, root);
            && Ranked(d.lists, rank)
            && Resolved(d, rank, raw, [a] + ([b] + [root])) != Resolved(d, rank, raw, [b] + ([a] + [root]))
  {
    SiblingsStored(a, b, mid, root);
    SiblingsStored(b, a, mid, root);
    SiblingsSwap(a, b, mid, root);
  }

  lemma SiblingsSwap(a: Name, b: Name, mid: Name, root: Name)
    requires FourDistinct(a, b, mid, root)
    ensures SiblingTypes(a, b, mid, root) == SiblingTypes(b, a, mid, root)
    ensures SiblingData(a, b, root) == SiblingData(b, a, root)
  {
    assert SiblingTypes(a, b, mid, root).lists == SiblingTypes(b, a, mid, root).lists;
  }
}
