/** The registry of credential types, whose lookup of parent types appends to the
    very lists it reads. */
module CredentialTypesModel {
  import opened ExtendsGraph
  import opened OverwriteResolution
  import opened OverwriteChains

  class CredentialTypes {
    /** Types that are known or loaded. */
    const recognizedTypes: set<Name>
    /** The `extends` lists as the credential classes declare them. */
    const declared: Table
    /** Types whose class list and known list are one array, as for classes loaded eagerly. */
    const shared: set<Name>
    /** The known `extends` lists, live. */
    var known: Table

    ghost const rank: Name -> nat

    ghost predicate Valid()
      reads this
    {
      && Ranked(declared, rank)
      && declared.Keys <= recognizedTypes
      && Settled(declared, known, rank)
    }

    constructor (recognizedTypes: set<Name>, declared: Table, shared: set<Name>, ghost rank: Name -> nat)
      requires Ranked(declared, rank) && declared.Keys <= recognizedTypes
      ensures Valid()
      ensures this.recognizedTypes == recognizedTypes && this.declared == declared
      ensures this.shared == shared && this.rank == rank && known == declared
    {
      this.recognizedTypes, this.declared, this.shared, this.rank := recognizedTypes, declared, shared, rank;
      known := declared;
    }

    predicate Recognizes(t: Name) {
      t in recognizedTypes
    }

    /** The lists at class level: a shared one is the live list. */
    function ClassLists(): Table
      reads this
    {
      map t | t in declared :: if t in shared && t in known then known[t] else declared[t]
    }

    function Declarations(): Declarations
      reads this
    {
      OverwriteResolution.Declarations.Declarations(recognizedTypes, ClassLists())
    }

    /** What the service reads at class level: for a class whose array is shared the list that the lookups
        grow, and for any other the list as declared; the types recognised are those known or loaded. */
    lemma SharedListsAreLive()
      requires Valid()
      ensures Declarations().recognized == recognizedTypes && Declarations().lists.Keys == declared.Keys
      ensures forall t :: t in declared && t in shared ==> t in known && Declarations().lists[t] == known[t]
      ensures forall t :: t in declared && t !in shared ==> Declarations().lists[t] == declared[t]
    {
    }

    /** Of either kind they are the declared lists or what lookups made of them. */
    lemma ClassListsAreDeclared()
      requires Valid()
      ensures Declares(declared, Declarations(), rank)
    {
      forall x | x in declared ensures SettledAt(declared, ClassLists(), rank, x) {
        assert SettledAt(declared, known, rank, x);
      }
    }

    /** Only the list of `typeName` and of its ancestors may change, by appending. */
    method GetParentTypes(typeName: Name) returns (parents: seq<Name>)
      requires Ranked(known, rank)
      modifies this`known
      ensures Ranked(known, rank)
      ensures known == Grow(old(known), rank, typeName)
      ensures parents == Parents(known, typeName)
      ensures old(Valid()) ==>
        && Valid()
        && Dedup(parents) == Order(declared, rank, typeName)
        && forall a :: a in parents <==> Ancestor(declared, typeName, a)
      decreases rank(typeName)
    {
      ghost var before := known;
      if typeName !in known {
        parents := [];
      } else {
        // The entries visited are those present at the start.
        var visited := known[typeName];
        for i := 0 to |visited|
          invariant Ranked(known, rank) && typeName in known && visited <= known[typeName]
          invariant GrowEach(known, rank, typeName, visited[i..])
                 == GrowEach(before, rank, typeName, visited)
        {
          assert known[typeName][i] == visited[i] && visited[i] in before[typeName];
          PushKeepsRanked(Grow(known, rank, visited[i]), rank, typeName, visited[i]);
          var more := GetParentTypes(known[typeName][i]);
          known := known[typeName := known[typeName] + more];
          assert visited[i..][1..] == visited[i + 1..];
        }
        parents := known[typeName];
      }
      if Ranked(declared, rank) && Settled(declared, before, rank) {
        GrowKeepsSettled(declared, before, rank, typeName);
        OrderListsTheAncestors(declared, rank, typeName);
        assert forall a :: a in parents <==> a in Dedup(parents);
      }
    }
  }
}
