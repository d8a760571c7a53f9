/** The `extends` relation between credential types, and what the lookup of
    parent types computes on it.

    A table maps a type to its `extends` list. The lookup appends to the lists
    it reads, so a table has a history; `Order` is the part of a list that the
    history cannot change. */
module ExtendsGraph {

  type Name = string
  type Table = map<Name, seq<Name>>

  function Parents(table: Table, t: Name): seq<Name> {
    if t in table then table[t] else []
  }

  /** `rank` witnesses that no type extends itself, directly or not. */
  ghost predicate Ranked(table: Table, rank: Name -> nat) {
    forall t, p :: t in table && p in table[t] ==> rank(p) < rank(t)
  }

  // ---------- ancestors, defined by paths ----------

  ghost predicate IsPath(table: Table, path: seq<Name>) {
    forall i :: 0 < i < |path| ==> IsStep(table, path, i)
  }

  ghost predicate IsStep(table: Table, path: seq<Name>, i: nat)
    requires 0 < i < |path|
  {
    path[i] in Parents(table, path[i - 1])
  }

  ghost predicate IsPathBetween(table: Table, t: Name, a: Name, path: seq<Name>) {
    |path| >= 2 && path[0] == t && path[|path| - 1] == a && IsPath(table, path)
  }

  ghost predicate Ancestor(table: Table, t: Name, a: Name) {
    exists path :: IsPathBetween(table, t, a, path)
  }

  ghost predicate SelfOrAncestor(table: Table, t: Name, a: Name) {
    a == t || Ancestor(table, t, a)
  }

  /** A path goes on above a step. */
  lemma PathFromBelow(table: Table, t: Name, path: seq<Name>)
    requires IsPath(table, path) && path != [] && path[0] in Parents(table, t)
    ensures IsPath(table, [t] + path)
  {
    var longer := [t] + path;
    forall i | 0 < i < |longer| ensures IsStep(table, longer, i) {
      assert i > 1 ==> IsStep(table, path, i - 1);
    }
  }

  lemma PathFromAbove(table: Table, path: seq<Name>)
    requires IsPath(table, path) && |path| > 1
    ensures IsPath(table, path[1..]) && path[1] in Parents(table, path[0])
  {
    var rest := path[1..];
    forall i | 0 < i < |rest| ensures IsStep(table, rest, i) {
      assert IsStep(table, path, i + 1);
    }
    assert IsStep(table, path, 1);
  }

  /** One step up, then any number of steps. */
  lemma AncestorViaParent(table: Table, t: Name, p: Name, a: Name)
    requires p in Parents(table, t)
    requires SelfOrAncestor(table, p, a)
    ensures Ancestor(table, t, a)
  {
    if a == p {
      PathFromBelow(table, t, [p]);
      assert IsPathBetween(table, t, a, [t] + [p]);
    } else {
      var path :| IsPathBetween(table, p, a, path);
      PathFromBelow(table, t, path);
      assert IsPathBetween(table, t, a, [t] + path);
    }
  }

  lemma AncestorUnfolds(table: Table, t: Name, a: Name) returns (p: Name)
    requires Ancestor(table, t, a)
    ensures p in Parents(table, t) && SelfOrAncestor(table, p, a)
  {
    var path :| IsPathBetween(table, t, a, path);
    p := path[1];
    PathFromAbove(table, path);
    if |path| > 2 {
      assert IsPathBetween(table, p, a, path[1..]);
    }
  }

  lemma {:induction false} AncestorRank(table: Table, rank: Name -> nat, t: Name, a: Name)
    requires Ranked(table, rank)
    requires Ancestor(table, t, a)
    ensures rank(a) < rank(t)
    decreases rank(t)
  {
    var p := AncestorUnfolds(table, t, a);
    if a != p {
      AncestorRank(table, rank, p, a);
    }
  }

  lemma {:induction false} AncestorTransitive(table: Table, rank: Name -> nat, t: Name, a: Name, b: Name)
    requires Ranked(table, rank)
    requires SelfOrAncestor(table, t, a) && Ancestor(table, a, b)
    ensures Ancestor(table, t, b)
    decreases rank(t)
  {
    if a != t {
      var p := AncestorUnfolds(table, t, a);
      AncestorTransitive(table, rank, p, a, b);
      AncestorViaParent(table, t, p, b);
    }
  }

  /** A table whose entries are all ancestors in another table has no further ancestors. */
  lemma {:induction false} AncestorsFromLists(table: Table, wider: Table, rank: Name -> nat, t: Name, a: Name)
    requires Ranked(table, rank) && Ranked(wider, rank)
    requires forall x, p :: x in wider && p in wider[x] ==> Ancestor(table, x, p)
    requires Ancestor(wider, t, a)
    ensures Ancestor(table, t, a)
    decreases rank(t)
  {
    var p := AncestorUnfolds(wider, t, a);
    assert Ancestor(table, t, p);
    if a != p {
      AncestorsFromLists(table, wider, rank, p, a);
      AncestorTransitive(table, rank, t, p, a);
    }
  }

  // ---------- first occurrences ----------

  /** The first occurrences in `s`, in their order. */
  function Dedup(s: seq<Name>): (d: seq<Name>)
    ensures forall x :: x in d <==> x in s
  {
    if s == [] then []
    else
      var front, x := s[..|s| - 1], s[|s| - 1];
      assert s == front + [x];
      if x in front then Dedup(front) else Dedup(front) + [x]
  }

  ghost predicate Distinct(s: seq<Name>) {
    forall i, j :: 0 <= i < j < |s| ==> s[i] != s[j]
  }

  lemma {:induction false} DedupDistinct(s: seq<Name>)
    ensures Distinct(Dedup(s))
  {
    if s == [] {
    } else {
      var d := Dedup(s[..|s| - 1]);
      DedupDistinct(s[..|s| - 1]);
      assert forall i :: 0 <= i < |d| ==> d[i] in d;
    }
  }

  lemma DedupSnoc(s: seq<Name>, x: Name)
    ensures Dedup(s + [x]) == if x in s then Dedup(s) else Dedup(s) + [x]
  {
    assert (s + [x])[..|s|] == s;
  }

  lemma {:induction false} DedupRight(a: seq<Name>, b: seq<Name>)
    ensures Dedup(a + b) == Dedup(a + Dedup(b))
  {
    if b == [] {
    } else {
      var front, x := b[..|b| - 1], b[|b| - 1];
      assert a + b == (a + front) + [x];
      DedupRight(a, front);
      DedupSnoc(a + front, x);
      if x !in front {
        assert Dedup(b) == Dedup(front) + [x];
        assert a + Dedup(b) == (a + Dedup(front)) + [x];
        DedupSnoc(a + Dedup(front), x);
      }
    }
  }

  lemma {:induction false} DedupLeft(a: seq<Name>, a': seq<Name>, b: seq<Name>)
    requires Dedup(a) == Dedup(a')
    ensures Dedup(a + b) == Dedup(a' + b)
  {
    if b == [] {
      assert a + b == a && a' + b == a';
    } else {
      var front, x := b[..|b| - 1], b[|b| - 1];
      assert a + b == (a + front) + [x] && a' + b == (a' + front) + [x];
      DedupLeft(a, a', front);
      DedupSnoc(a + front, x);
      DedupSnoc(a' + front, x);
      assert x in a <==> x in Dedup(a);
      assert x in a' <==> x in Dedup(a');
    }
  }

  lemma {:induction false} DedupAbsorbs(a: seq<Name>, b: seq<Name>)
    requires forall x :: x in b ==> x in a
    ensures Dedup(a + b) == Dedup(a)
  {
    if b == [] {
      assert a + b == a;
    } else {
      var front, x := b[..|b| - 1], b[|b| - 1];
      assert a + b == (a + front) + [x];
      DedupAbsorbs(a, front);
      DedupSnoc(a + front, x);
      assert x in b;
    }
  }

  lemma {:induction false} DedupOfDistinct(s: seq<Name>)
    requires Distinct(s)
    ensures Dedup(s) == s
  {
    if s == [] {
    } else {
      DedupOfDistinct(s[..|s| - 1]);
      assert s == s[..|s| - 1] + [s[|s| - 1]];
    }
  }

  // ---------- the order of the ancestors ----------

  /** The ancestors of `t`: its own list, then those of each entry in turn, first occurrences only. */
  ghost function Order(table: Table, rank: Name -> nat, t: Name): seq<Name>
    requires Ranked(table, rank)
    decreases rank(t), |Parents(table, t)| + 1
  {
    var list := Parents(table, t);
    Dedup(list + OrderOfAll(table, rank, rank(t), list))
  }

  ghost function OrderOfAll(table: Table, rank: Name -> nat, bound: nat, list: seq<Name>): seq<Name>
    requires Ranked(table, rank)
    requires forall x :: x in list ==> rank(x) < bound
    decreases bound, |list|
  {
    if list == [] then []
    else Order(table, rank, list[0]) + OrderOfAll(table, rank, bound, list[1..])
  }

  lemma {:induction false} InOrderOfAll(table: Table, rank: Name -> nat, bound: nat, list: seq<Name>, a: Name)
    requires Ranked(table, rank)
    requires forall x :: x in list ==> rank(x) < bound
    ensures a in OrderOfAll(table, rank, bound, list) <==> exists x :: x in list && a in Order(table, rank, x)
    decreases |list|
  {
    if list == [] {
    } else {
      InOrderOfAll(table, rank, bound, list[1..], a);
      if x :| x in list && a in Order(table, rank, x) {
        assert x == list[0] || x in list[1..];
      }
    }
  }

  /** The order lists exactly the transitive ancestors, each once. */
  lemma {:induction false} OrderListsTheAncestors(table: Table, rank: Name -> nat, t: Name)
    requires Ranked(table, rank)
    ensures forall a :: a in Order(table, rank, t) <==> Ancestor(table, t, a)
    ensures Distinct(Order(table, rank, t))
    decreases rank(t)
  {
    var list := Parents(table, t);
    DedupDistinct(list + OrderOfAll(table, rank, rank(t), list));
    forall a ensures a in Order(table, rank, t) <==> Ancestor(table, t, a) {
      InOrderOfAll(table, rank, rank(t), list, a);
      forall x | x in list ensures a in Order(table, rank, x) <==> Ancestor(table, x, a) {
        OrderListsTheAncestors(table, rank, x);
      }
      if a in Order(table, rank, t) {
        if a in list {
          AncestorViaParent(table, t, a, a);
        } else {
          var x :| x in list && a in Order(table, rank, x);
          AncestorViaParent(table, t, x, a);
        }
      }
      if Ancestor(table, t, a) {
        var p := AncestorUnfolds(table, t, a);
      }
    }
  }

  // ---------- one lookup, as a change of the table ----------

  /** The table after looking up the parent types of `t`: for each entry that the
      list of `t` held at the start, the entry is looked up in turn and its list is
      appended to the list of `t`. */
  ghost function Grow(table: Table, rank: Name -> nat, t: Name): (table': Table)
    requires Ranked(table, rank)
    ensures Ranked(table', rank)
    ensures table'.Keys == table.Keys
    ensures forall x :: x in table && x != t && rank(x) >= rank(t) ==> table'[x] == table[x]
    ensures forall x :: x in table ==> table[x] <= table'[x]
    decreases rank(t), |Parents(table, t)| + 1
  {
    if t !in table then table else GrowEach(table, rank, t, table[t])
  }

  ghost function GrowEach(table: Table, rank: Name -> nat, t: Name, rest: seq<Name>): (table': Table)
    requires Ranked(table, rank)
    requires t in table
    requires forall x :: x in rest ==> rank(x) < rank(t)
    ensures Ranked(table', rank)
    ensures table'.Keys == table.Keys
    ensures forall x :: x in table && x != t && rank(x) >= rank(t) ==> table'[x] == table[x]
    ensures forall x :: x in table ==> table[x] <= table'[x]
    decreases rank(t), |rest|
  {
    if rest == [] then table
    else
      var looked := Grow(table, rank, rest[0]);
      PushKeepsRanked(looked, rank, t, rest[0]);
      GrowEach(Push(looked, t, rest[0]), rank, t, rest[1..])
  }

  /** Appends the list of `p` to the list of `t`. */
  ghost function Push(table: Table, t: Name, p: Name): (table': Table)
    requires t in table
    ensures table'.Keys == table.Keys
    ensures forall x :: x in table && x != t ==> table'[x] == table[x]
    ensures table'[t] == table[t] + Parents(table, p)
  {
    table[t := table[t] + Parents(table, p)]
  }

  lemma PushKeepsRanked(table: Table, rank: Name -> nat, t: Name, p: Name)
    requires Ranked(table, rank) && t in table && rank(p) < rank(t)
    ensures Ranked(Push(table, t, p), rank)
  {
    forall x, q | x in table && q in Push(table, t, p)[x] ensures rank(q) < rank(x) {
      if x == t && q !in table[t] {
        assert q in Parents(table, p);
      }
    }
  }

  ghost predicate AboveAParent(table: Table, x: Name, a: Name) {
    exists p :: p in Parents(table, x) && Ancestor(table, p, a)
  }

  ghost predicate AllAboveAParent(table: Table, x: Name, list: seq<Name>) {
    forall a :: a in list ==> AboveAParent(table, x, a)
  }

  /** What any history leaves of a list: it is untouched, or it starts with the
      original, holds beyond it only ancestors of the original parents, and its
      first occurrences are the order of the original table. */
  ghost predicate SettledAt(initial: Table, table: Table, rank: Name -> nat, x: Name)
    requires Ranked(initial, rank)
  {
    x in initial && x in table ==>
      || table[x] == initial[x]
      || (&& initial[x] <= table[x]
          && AllAboveAParent(initial, x, table[x][|initial[x]|..])
          && Dedup(table[x]) == Order(initial, rank, x))
  }

  ghost predicate SettledBelow(initial: Table, table: Table, rank: Name -> nat, bound: nat)
    requires Ranked(initial, rank)
  {
    forall x :: x in initial && rank(x) < bound ==> SettledAt(initial, table, rank, x)
  }

  ghost predicate Settled(initial: Table, table: Table, rank: Name -> nat)
    requires Ranked(initial, rank)
  {
    && table.Keys == initial.Keys
    && Ranked(table, rank)
    && forall x :: x in initial ==> SettledAt(initial, table, rank, x)
  }

  lemma SettledEntriesAreAncestors(initial: Table, table: Table, rank: Name -> nat, x: Name, p: Name)
    requires Ranked(initial, rank)
    requires x in table && x in initial && SettledAt(initial, table, rank, x)
    requires p in table[x]
    ensures Ancestor(initial, x, p)
  {
    if table[x] == initial[x] {
      AncestorViaParent(initial, x, p, p);
    } else {
      assert p in Dedup(table[x]);
      OrderListsTheAncestors(initial, rank, x);
    }
  }

  lemma ConcatAssociates(a: seq<Name>, b: seq<Name>, c: seq<Name>)
    ensures (a + b) + c == a + (b + c)
  {
  }

  /** A repetition inside an appended list leaves no trace behind it. */
  lemma AppendedOrder(a: seq<Name>, more: seq<Name>, order: seq<Name>, tail: seq<Name>)
    requires Dedup(more) == order
    ensures Dedup((a + more) + tail) == Dedup(a + (order + tail))
  {
    DedupRight(a, more);
    DedupLeft(a + more, a + order, tail);
    ConcatAssociates(a, order, tail);
  }

  /** Appending the lists of `rest` to the list of `t` adds, up to repetition,
      exactly the orders of the entries in `rest`. */
  lemma {:induction false} GrowEachSettles(
    initial: Table, table: Table, rank: Name -> nat, t: Name, rest: seq<Name>)
    requires Ranked(initial, rank) && Ranked(table, rank)
    requires table.Keys == initial.Keys
    requires t in table
    requires forall x :: x in rest ==> rank(x) < rank(t)
    requires SettledBelow(initial, table, rank, rank(t))
    requires initial[t] <= table[t] && AllAboveAParent(initial, t, table[t][|initial[t]|..])
    requires forall x :: x in rest ==> x in initial[t] || AboveAParent(initial, t, x)
    ensures SettledBelow(initial, GrowEach(table, rank, t, rest), rank, rank(t))
    ensures var list := GrowEach(table, rank, t, rest)[t];
            initial[t] <= list && AllAboveAParent(initial, t, list[|initial[t]|..])
    ensures Dedup(GrowEach(table, rank, t, rest)[t])
         == Dedup(table[t] + OrderOfAll(initial, rank, rank(t), rest))
    decreases rank(t), |rest|
  {
    if rest == [] {
      assert table[t] + OrderOfAll(initial, rank, rank(t), rest) == table[t];
    } else {
      var next := PushEntries(initial, table, rank, t, rest[0]);
      GrowEachSettles(initial, next, rank, t, rest[1..]);
      AppendedOrder(table[t], Parents(Grow(table, rank, rest[0]), rest[0]), Order(initial, rank, rest[0]),
                    OrderOfAll(initial, rank, rank(t), rest[1..]));
    }
  }

  /** One entry of the list of `t`: it is looked up and its list appended. */
  lemma {:induction false} PushEntries(
    initial: Table, table: Table, rank: Name -> nat, t: Name, head: Name) returns (next: Table)
    requires Ranked(initial, rank) && Ranked(table, rank)
    requires table.Keys == initial.Keys
    requires t in table && rank(head) < rank(t)
    requires SettledBelow(initial, table, rank, rank(t))
    requires initial[t] <= table[t] && AllAboveAParent(initial, t, table[t][|initial[t]|..])
    requires head in initial[t] || AboveAParent(initial, t, head)
    ensures next == Push(Grow(table, rank, head), t, head) && Ranked(next, rank)
    ensures SettledBelow(initial, next, rank, rank(t))
    ensures var more := Parents(Grow(table, rank, head), head);
            Dedup(more) == Order(initial, rank, head) && next[t] == table[t] + more
    ensures initial[t] <= next[t] && AllAboveAParent(initial, t, next[t][|initial[t]|..])
    decreases rank(head), |Parents(table, head)| + 3
  {
    var looked := Grow(table, rank, head);
    next := Push(looked, t, head);
    PushKeepsRanked(looked, rank, t, head);
    GrowKeepsSettledBelow(initial, table, rank, t, head);
    PushKeepsSettledBelow(initial, looked, rank, t, head);
    PushedAreAbove(initial, rank, t, head, table[t], Parents(looked, head));
  }

  lemma PushKeepsSettledBelow(initial: Table, table: Table, rank: Name -> nat, t: Name, head: Name)
    requires Ranked(initial, rank) && t in table
    requires SettledBelow(initial, table, rank, rank(t))
    ensures SettledBelow(initial, Push(table, t, head), rank, rank(t))
  {
    forall x | x in initial && rank(x) < rank(t) ensures SettledAt(initial, Push(table, t, head), rank, x) {
      assert SettledAt(initial, table, rank, x);
    }
  }

  lemma PushedAreAbove(
    initial: Table, rank: Name -> nat, t: Name, head: Name, list: seq<Name>, more: seq<Name>)
    requires Ranked(initial, rank) && t in initial
    requires head in initial[t] || AboveAParent(initial, t, head)
    requires initial[t] <= list && AllAboveAParent(initial, t, list[|initial[t]|..])
    requires Dedup(more) == Order(initial, rank, head)
    ensures initial[t] <= list + more && AllAboveAParent(initial, t, (list + more)[|initial[t]|..])
  {
    forall a | a in more ensures AboveAParent(initial, t, a) {
      assert a in Dedup(more);
      EntriesAbove(initial, rank, t, head, a);
    }
    assert (list + more)[|initial[t]|..] == list[|initial[t]|..] + more;
  }

  lemma EntriesAbove(initial: Table, rank: Name -> nat, t: Name, head: Name, a: Name)
    requires Ranked(initial, rank)
    requires t in initial && (head in initial[t] || AboveAParent(initial, t, head))
    requires a in Order(initial, rank, head)
    ensures AboveAParent(initial, t, a)
  {
    OrderListsTheAncestors(initial, rank, head);
    if head !in initial[t] {
      var p :| p in Parents(initial, t) && Ancestor(initial, p, head);
      AncestorTransitive(initial, rank, p, head, a);
    }
  }

  /** Looking up a lower type settles or leaves every list below `t`, and leaves that of `t`. */
  lemma {:induction false} GrowKeepsSettledBelow(
    initial: Table, table: Table, rank: Name -> nat, t: Name, head: Name)
    requires Ranked(initial, rank) && Ranked(table, rank)
    requires table.Keys == initial.Keys
    requires t in table && rank(head) < rank(t)
    requires SettledBelow(initial, table, rank, rank(t))
    ensures SettledBelow(initial, Grow(table, rank, head), rank, rank(t))
    ensures Dedup(Parents(Grow(table, rank, head), head)) == Order(initial, rank, head)
    decreases rank(head), |Parents(table, head)| + 2
  {
    GrowSettles(initial, table, rank, head);
    var looked := Grow(table, rank, head);
    forall x | x in initial && rank(x) < rank(t) ensures SettledAt(initial, looked, rank, x) {
      if x != head && rank(x) >= rank(head) {
        assert SettledAt(initial, table, rank, x);
      }
    }
  }

  lemma {:induction false} GrowSettles(initial: Table, table: Table, rank: Name -> nat, t: Name)
    requires Ranked(initial, rank) && Ranked(table, rank)
    requires table.Keys == initial.Keys
    requires SettledBelow(initial, table, rank, rank(t))
    requires t in initial ==> SettledAt(initial, table, rank, t)
    ensures var table' := Grow(table, rank, t);
            && SettledBelow(initial, table', rank, rank(t))
            && (t in initial ==> SettledAt(initial, table', rank, t))
            && Dedup(Parents(table', t)) == Order(initial, rank, t)
    decreases rank(t), |Parents(table, t)| + 1
  {
    if t in table {
      var list := table[t];
      assert forall x :: x in list ==> x in initial[t] || x in list[|initial[t]|..];
      GrowEachSettles(initial, table, rank, t, list);
      var all := OrderOfAll(initial, rank, rank(t), list);
      if list != initial[t] {
        OrderListsTheAncestors(initial, rank, t);
        forall a | a in all ensures a in list {
          InOrderOfAll(initial, rank, rank(t), list, a);
          var x :| x in list && a in Order(initial, rank, x);
          OrderListsTheAncestors(initial, rank, x);
          assert x in Dedup(list);
          AncestorTransitive(initial, rank, t, x, a);
          assert a in Dedup(list);
        }
        DedupAbsorbs(list, all);
      }
    }
  }

  // ---------- any history of lookups ----------

  ghost function GrowAll(table: Table, rank: Name -> nat, calls: seq<Name>): (table': Table)
    requires Ranked(table, rank)
    ensures Ranked(table', rank) && table'.Keys == table.Keys
  {
    if calls == [] then table else GrowAll(Grow(table, rank, calls[0]), rank, calls[1..])
  }

  lemma GrowKeepsSettled(initial: Table, table: Table, rank: Name -> nat, t: Name)
    requires Ranked(initial, rank)
    requires Settled(initial, table, rank)
    ensures Settled(initial, Grow(table, rank, t), rank)
    ensures Dedup(Parents(Grow(table, rank, t), t)) == Order(initial, rank, t)
  {
    GrowSettles(initial, table, rank, t);
    var table' := Grow(table, rank, t);
    forall x | x in initial ensures SettledAt(initial, table', rank, x) {
      if x != t && rank(x) >= rank(t) {
        assert table'[x] == table[x];
      }
    }
  }

  lemma {:induction false} GrowAllKeepsSettled(initial: Table, table: Table, rank: Name -> nat, calls: seq<Name>)
    requires Ranked(initial, rank)
    requires Settled(initial, table, rank)
    ensures Settled(initial, GrowAll(table, rank, calls), rank)
    decreases |calls|
  {
    if calls == [] {
    } else {
      GrowKeepsSettled(initial, table, rank, calls[0]);
      GrowAllKeepsSettled(initial, Grow(table, rank, calls[0]), rank, calls[1..]);
    }
  }

  /** After any lookups of any types, a lookup of `t` returns exactly the transitive
      ancestors of `t` in the original table, and the order of their first occurrences
      depends on the original table alone. */
  lemma LookupIgnoresHistory(initial: Table, rank: Name -> nat, calls: seq<Name>, t: Name)
    requires Ranked(initial, rank)
    ensures var returned := Parents(Grow(GrowAll(initial, rank, calls), rank, t), t);
            && Dedup(returned) == Order(initial, rank, t)
            && forall a :: a in returned <==> Ancestor(initial, t, a)
  {
    GrowAllKeepsSettled(initial, initial, rank, calls);
    GrowKeepsSettled(initial, GrowAll(initial, rank, calls), rank, t);
    OrderListsTheAncestors(initial, rank, t);
    var returned := Parents(Grow(GrowAll(initial, rank, calls), rank, t), t);
    assert forall a :: a in returned <==> a in Dedup(returned);
  }
}
