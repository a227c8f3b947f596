/**
 * The barn's animal records as the game store hands them to the barn interior:
 * a keyed collection of records, each with an id, a kind, an experience value
 * and a state string.
 */
module Animals {
  import opened Wrappers

  /** The kinds of animal that live in a barn (chickens live in the hen house). */
  datatype AnimalType = Cow | Sheep

  /** The name the store uses for a kind. */
  function TypeName(t: AnimalType): string {
    match t
    case Cow => "Cow"
    case Sheep => "Sheep"
  }

  /** Position of a kind in the closed enumeration, in the order of the names. */
  function TypeRank(t: AnimalType): nat {
    match t
    case Cow => 0
    case Sheep => 1
  }

  /** Strict lexicographic order of two strings, character by character. */
  predicate NameBefore(a: string, b: string) {
    if a == [] then b != []
    else if b == [] then false
    else if a[0] != b[0] then a[0] < b[0]
    else NameBefore(a[1..], b[1..])
  }

  lemma {:induction false} NameBeforeIrreflexive(a: string)
    ensures !NameBefore(a, a)
  {
    if a != [] {
      NameBeforeIrreflexive(a[1..]);
    }
  }

  /** The sign of `a.localeCompare(b)` on two kind names, as the kinds' ranks. */
  function CompareTypes(a: AnimalType, b: AnimalType): int {
    TypeRank(a) - TypeRank(b)
  }

  /**
   * Comparing kinds by rank agrees with comparing their names: negative
   * exactly when the first name sorts first, positive exactly when the
   * second does, zero exactly on the same kind.
   */
  lemma CompareTypesFollowsNames(a: AnimalType, b: AnimalType)
    ensures CompareTypes(a, b) < 0 <==> NameBefore(TypeName(a), TypeName(b))
    ensures CompareTypes(a, b) > 0 <==> NameBefore(TypeName(b), TypeName(a))
    ensures CompareTypes(a, b) == 0 <==> a == b
  {
    NameBeforeIrreflexive(TypeName(a));
  }

  /**
   * One animal record. The fields the barn interior reads are modelled; the
   * record's other fields would travel with it unchanged in the same way.
   */
  datatype Animal = Animal(id: string, animalType: AnimalType, experience: int, state: string)

  predicate IsSick(a: Animal) {
    a.state == "sick"
  }

  /** The number of records whose state is "sick". */
  function SickCount(herd: seq<Animal>): (n: nat)
    ensures n <= |herd|
    ensures n == 0 <==> forall k :: 0 <= k < |herd| ==> !IsSick(herd[k])
    ensures n == |herd| <==> forall k :: 0 <= k < |herd| ==> IsSick(herd[k])
  {
    if herd == [] then 0
    else
      var rest := SickCount(herd[1..]);
      assert forall k :: 1 <= k < |herd| ==> herd[k] == herd[1..][k - 1];
      (if IsSick(herd[0]) then 1 else 0) + rest
  }

  /** The ids of the records, in collection order. */
  function Ids(herd: seq<Animal>): seq<string> {
    seq(|herd|, i requires 0 <= i < |herd| => herd[i].id)
  }

  predicate Distinct<T(==)>(s: seq<T>) {
    forall i, j :: 0 <= i < j < |s| ==> s[i] != s[j]
  }

  /** Keys of a record collection are unique, and each record's id is its key. */
  predicate WellKeyed(herd: seq<Animal>) {
    Distinct(Ids(herd))
  }

  lemma IdsCons(a: Animal, herd: seq<Animal>)
    ensures Ids([a] + herd) == [a.id] + Ids(herd)
  {
  }

  /**
   * `animals[id]`: the record stored under `id`, or `undefined` when the
   * collection holds none.
   */
  function Lookup(herd: seq<Animal>, id: string): (r: Option<Animal>)
    ensures r.Some? ==> r.value in herd && r.value.id == id
    ensures r.None? <==> id !in Ids(herd)
  {
    if herd == [] then None
    else
      assert herd == [herd[0]] + herd[1..];
      IdsCons(herd[0], herd[1..]);
      if herd[0].id == id then Some(herd[0]) else Lookup(herd[1..], id)
  }

  /** In a well-keyed collection, looking up a record's id finds that record. */
  lemma {:induction false} LookupFindsRecord(herd: seq<Animal>, a: Animal)
    requires WellKeyed(herd)
    requires a in herd
    ensures Lookup(herd, a.id) == Some(a)
  {
    assert herd == [herd[0]] + herd[1..];
    IdsCons(herd[0], herd[1..]);
    if herd[0] != a {
      assert a in herd[1..];
      var k :| 0 <= k < |herd[1..]| && herd[1..][k] == a;
      assert Ids(herd)[k + 1] == a.id && Ids(herd)[0] == herd[0].id;
      assert herd[0].id != a.id;
      assert WellKeyed(herd[1..]) by {
        forall i, j | 0 <= i < j < |herd[1..]|
          ensures Ids(herd[1..])[i] != Ids(herd[1..])[j]
        {
          assert Ids(herd)[i + 1] != Ids(herd)[j + 1];
        }
      }
      LookupFindsRecord(herd[1..], a);
    }
  }
}
