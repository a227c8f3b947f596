/**
 * The order in which the barn shows its animals: by kind, then by experience
 * from most to least, ties keeping the order of the record collection.
 * The engine's sort is stable, so the result is determined by the comparator;
 * SortAnimals computes it by stable insertion.
 */
module AnimalOrder {
  import opened Animals

  /**
   * The comparator handed to the sort: on the same kind the experience
   * difference, most experienced first; otherwise the kind names compared.
   * A result <= 0 lets `a` stay in front of `b`.
   */
  function Compare(a: Animal, b: Animal): (r: int)
    ensures r == 0 <==> SameKey(a, b)
    ensures a.animalType == b.animalType ==> (r < 0 <==> a.experience > b.experience)
    ensures a.animalType != b.animalType ==> (r < 0 <==> TypeRank(a.animalType) < TypeRank(b.animalType))
  {
    if a.animalType == b.animalType then b.experience - a.experience
    else CompareTypes(a.animalType, b.animalType)
  }

  predicate Precedes(a: Animal, b: Animal) {
    Compare(a, b) <= 0
  }

  /** Two records the comparator cannot tell apart. */
  predicate SameKey(a: Animal, b: Animal) {
    a.animalType == b.animalType && a.experience == b.experience
  }

  /**
   * The comparator is consistent, as a sort needs: it is antisymmetric in
   * sign, zero exactly on records with the same kind and experience, total
   * and transitive.
   */
  lemma ComparatorConsistent(a: Animal, b: Animal, c: Animal)
    ensures Compare(a, b) < 0 <==> Compare(b, a) > 0
    ensures Compare(a, b) == 0 <==> SameKey(a, b)
    ensures Precedes(a, b) || Precedes(b, a)
    ensures Precedes(a, b) && Precedes(b, c) ==> Precedes(a, c)
  {
  }

  /** The comparator orders kinds first and experience (descending) second. */
  lemma PrecedesMeaning(a: Animal, b: Animal)
    ensures Precedes(a, b) <==>
      TypeRank(a.animalType) < TypeRank(b.animalType) ||
      (a.animalType == b.animalType && a.experience >= b.experience)
  {
  }

  predicate Sorted(s: seq<Animal>) {
    forall i, j :: 0 <= i < j < |s| ==> Precedes(s[i], s[j])
  }

  /** The records of `s` that tie with `k` under the comparator, in the order of `s`. */
  function Ties(s: seq<Animal>, k: Animal): seq<Animal> {
    if s == [] then []
    else TieOf(s[0], k) + Ties(s[1..], k)
  }

  /** `a` alone when it ties with `k`, nothing otherwise. */
  function TieOf(a: Animal, k: Animal): seq<Animal> {
    if SameKey(a, k) then [a] else []
  }

  /** A sort is stable when every group of tied records keeps its order. */
  ghost predicate StableFor(input: seq<Animal>, output: seq<Animal>) {
    forall k :: Ties(output, k) == Ties(input, k)
  }

  lemma {:induction false} TiesMember(s: seq<Animal>, k: Animal, x: Animal)
    ensures x in Ties(s, k) <==> x in s && SameKey(x, k)
  {
    if s != [] {
      TiesMember(s[1..], k, x);
      assert s == [s[0]] + s[1..];
    }
  }

  lemma TiesCons(a: Animal, s: seq<Animal>, k: Animal)
    ensures Ties([a] + s, k) == TieOf(a, k) + Ties(s, k)
  {
    assert ([a] + s)[1..] == s;
  }

  /** A record that may precede every record of a sorted sequence can go in front of it. */
  lemma SortedCons(y: Animal, rest: seq<Animal>)
    requires Sorted(rest)
    requires forall j :: 0 <= j < |rest| ==> Precedes(y, rest[j])
    ensures Sorted([y] + rest)
  {
    forall i, j | 0 <= i < j < |[y] + rest| ensures Precedes(([y] + rest)[i], ([y] + rest)[j]) {
      assert ([y] + rest)[j] == rest[j - 1];
      if i > 0 {
        assert ([y] + rest)[i] == rest[i - 1];
      }
    }
  }

  /** Whatever may precede the head of a sorted sequence may precede all of it. */
  lemma PrecedesSorted(x: Animal, s: seq<Animal>)
    requires Sorted(s) && s != [] && Precedes(x, s[0])
    ensures forall j :: 0 <= j < |s| ==> Precedes(x, s[j])
  {
    forall j | 0 <= j < |s| ensures Precedes(x, s[j]) {
      ComparatorConsistent(x, s[0], s[j]);
    }
  }

  /**
   * Places `x` in front of the first record of `s` it may precede: past the
   * records that strictly come before it, ahead of any it ties with.
   */
  function Insert(x: Animal, s: seq<Animal>): (r: seq<Animal>)
    ensures |r| == |s| + 1
    ensures multiset(r) == multiset(s) + multiset{x}
    ensures Sorted(s) ==> Sorted(r)
  {
    if s == [] then [x]
    else if Precedes(x, s[0]) then
      FrontKeepsSorted(x, s);
      [x] + s
    else
      assert s == [s[0]] + s[1..];
      var rest := Insert(x, s[1..]);
      BehindKeepsSorted(x, s, rest);
      [s[0]] + rest
  }

  /** Putting `x` in front of a sorted sequence whose head it may precede keeps it sorted. */
  lemma FrontKeepsSorted(x: Animal, s: seq<Animal>)
    requires s != [] && Precedes(x, s[0])
    ensures Sorted(s) ==> Sorted([x] + s)
  {
    if Sorted(s) {
      PrecedesSorted(x, s);
      SortedCons(x, s);
    }
  }

  /**
   * When `x` may not precede the head of a sorted sequence, the head stays in
   * front of the sorted insertion of `x` into the rest.
   */
  lemma BehindKeepsSorted(x: Animal, s: seq<Animal>, rest: seq<Animal>)
    requires s != [] && !Precedes(x, s[0])
    requires multiset(rest) == multiset(s[1..]) + multiset{x}
    requires Sorted(s[1..]) ==> Sorted(rest)
    ensures Sorted(s) ==> Sorted([s[0]] + rest)
  {
    if Sorted(s) {
      assert Sorted(s[1..]);
      forall j | 0 <= j < |rest| ensures Precedes(s[0], rest[j]) {
        assert rest[j] in multiset(s[1..]) + multiset{x};
        if rest[j] != x {
          assert rest[j] in s[1..];
        } else {
          ComparatorConsistent(x, s[0], x);
        }
      }
      SortedCons(s[0], rest);
    }
  }

  /** Stable insertion sort of the records with the comparator above. */
  function SortAnimals(s: seq<Animal>): (r: seq<Animal>)
    ensures |r| == |s|
    ensures multiset(r) == multiset(s)
    ensures Sorted(r)
  {
    if s == [] then []
    else
      assert s == [s[0]] + s[1..];
      Insert(s[0], SortAnimals(s[1..]))
  }

  /** Two records that do not tie with each other can trade places in front of any group. */
  lemma TiesSwap(a: Animal, b: Animal, t: seq<Animal>, k: Animal)
    requires !SameKey(a, b)
    ensures TieOf(b, k) + (TieOf(a, k) + t) == TieOf(a, k) + (TieOf(b, k) + t)
  {
  }

  /** Inserting keeps every group of ties in order, with `x` at its front. */
  lemma {:induction false} InsertTies(x: Animal, s: seq<Animal>, k: Animal)
    ensures Ties(Insert(x, s), k) == Ties([x] + s, k)
  {
    if s != [] && !Precedes(x, s[0]) {
      var rest := Insert(x, s[1..]);
      assert Insert(x, s) == [s[0]] + rest;
      ComparatorConsistent(x, s[0], x);
      calc {
        Ties(Insert(x, s), k);
      == { TiesCons(s[0], rest, k); }
        TieOf(s[0], k) + Ties(rest, k);
      == { InsertTies(x, s[1..], k); TiesCons(x, s[1..], k); }
        TieOf(s[0], k) + (TieOf(x, k) + Ties(s[1..], k));
      == { TiesSwap(x, s[0], Ties(s[1..], k), k); }
        TieOf(x, k) + (TieOf(s[0], k) + Ties(s[1..], k));
      == { assert s == [s[0]] + s[1..]; TiesCons(s[0], s[1..], k); }
        TieOf(x, k) + Ties(s, k);
      == { TiesCons(x, s, k); }
        Ties([x] + s, k);
      }
    }
  }

  /** The sort is stable. */
  lemma {:induction false} SortStable(s: seq<Animal>)
    ensures StableFor(s, SortAnimals(s))
  {
    forall k ensures Ties(SortAnimals(s), k) == Ties(s, k) {
      SortStableAt(s, k);
    }
  }

  lemma {:induction false} SortStableAt(s: seq<Animal>, k: Animal)
    ensures Ties(SortAnimals(s), k) == Ties(s, k)
  {
    if s != [] {
      SortStableAt(s[1..], k);
      InsertTies(s[0], SortAnimals(s[1..]), k);
      TiesCons(s[0], SortAnimals(s[1..]), k);
      assert s == [s[0]] + s[1..];
      TiesCons(s[0], s[1..], k);
    }
  }

  lemma TiesOfFirst(s: seq<Animal>)
    requires s != []
    ensures Ties(s, s[0]) != []
  {
  }

  /**
   * Two sorted sequences whose groups of ties agree are the same sequence:
   * the comparator together with stability fixes the result, whichever
   * stable algorithm produces it.
   */
  lemma {:induction false} StableSortUnique(t: seq<Animal>, u: seq<Animal>)
    requires Sorted(t) && Sorted(u)
    requires forall k :: Ties(t, k) == Ties(u, k)
    ensures t == u
    decreases |t| + |u|
  {
    if t == [] || u == [] {
      // A nonempty side would have a nonempty group of ties with its first record.
      if t != [] {
        TiesOfFirst(t);
      } else if u != [] {
        TiesOfFirst(u);
      }
    } else {
      var a, b := t[0], u[0];
      // b is somewhere in t, so a precedes b; and symmetrically.
      TiesMember(u, b, b);
      TiesMember(t, b, b);
      assert Ties(t, b) == Ties(u, b);
      assert Precedes(a, b) by {
        var i :| 0 <= i < |t| && t[i] == b;
        if i > 0 {
          assert Precedes(t[0], t[i]);
        } else {
          ComparatorConsistent(a, a, a);
        }
      }
      TiesMember(t, a, a);
      TiesMember(u, a, a);
      assert Ties(t, a) == Ties(u, a);
      assert Precedes(b, a) by {
        var i :| 0 <= i < |u| && u[i] == a;
        if i > 0 {
          assert Precedes(u[0], u[i]);
        } else {
          ComparatorConsistent(b, b, b);
        }
      }
      ComparatorConsistent(a, b, a);
      assert SameKey(a, b);
      assert t == [a] + t[1..] && u == [b] + u[1..];
      TiesCons(a, t[1..], a);
      TiesCons(b, u[1..], a);
      assert Ties(t, a)[0] == a && Ties(u, a)[0] == b;
      forall k ensures Ties(t[1..], k) == Ties(u[1..], k) {
        TiesCons(a, t[1..], k);
        TiesCons(b, u[1..], k);
        var pre := TieOf(a, k);
        assert Ties(t, k) == pre + Ties(t[1..], k);
        assert Ties(u, k) == pre + Ties(u[1..], k);
        assert Ties(t[1..], k) == Ties(t, k)[|pre|..];
        assert Ties(u[1..], k) == Ties(u, k)[|pre|..];
      }
      StableSortUnique(t[1..], u[1..]);
    }
  }

  /**
   * Any sorted, stable arrangement of the records, such as the one the
   * engine's stable sort returns, is the one SortAnimals computes.
   */
  lemma SortIsTheStableSort(s: seq<Animal>, t: seq<Animal>)
    requires Sorted(t)
    requires StableFor(s, t)
    ensures t == SortAnimals(s)
  {
    SortStable(s);
    StableSortUnique(t, SortAnimals(s));
  }

  /**
   * The sorted records group by kind: kinds appear in the order of their
   * names, all records of one kind are contiguous, and within a kind the
   * experience never increases.
   */
  lemma {:induction false} SortedGroupsByType(s: seq<Animal>)
    ensures forall i, j :: 0 <= i < j < |SortAnimals(s)| ==>
      TypeRank(SortAnimals(s)[i].animalType) <= TypeRank(SortAnimals(s)[j].animalType)
    ensures forall i, j, m ::
      (0 <= i < j < m < |SortAnimals(s)| &&
       SortAnimals(s)[i].animalType == SortAnimals(s)[m].animalType) ==>
      SortAnimals(s)[j].animalType == SortAnimals(s)[i].animalType
    ensures forall i, j ::
      (0 <= i < j < |SortAnimals(s)| &&
       SortAnimals(s)[i].animalType == SortAnimals(s)[j].animalType) ==>
      SortAnimals(s)[i].experience >= SortAnimals(s)[j].experience
  {
    var r := SortAnimals(s);
    forall i, j | 0 <= i < j < |r| ensures TypeRank(r[i].animalType) <= TypeRank(r[j].animalType) {
      PrecedesMeaning(r[i], r[j]);
    }
    forall i, j, m | 0 <= i < j < m < |r| && r[i].animalType == r[m].animalType
      ensures r[j].animalType == r[i].animalType
    {
      PrecedesMeaning(r[i], r[j]);
      PrecedesMeaning(r[j], r[m]);
    }
  }

  /** `sortedAnimalIds`: the ids of the records in sorted order. */
  function SortedAnimalIds(herd: seq<Animal>): (ids: seq<string>)
    ensures |ids| == |herd|
  {
    Ids(SortAnimals(herd))
  }

  lemma {:induction false} InsertIds(x: Animal, s: seq<Animal>)
    ensures multiset(Ids(Insert(x, s))) == multiset(Ids(s)) + multiset{x.id}
  {
    if s != [] {
      assert s == [s[0]] + s[1..];
      IdsCons(s[0], s[1..]);
      if Precedes(x, s[0]) {
        IdsCons(x, s);
      } else {
        InsertIds(x, s[1..]);
        IdsCons(s[0], Insert(x, s[1..]));
      }
    }
  }

  /** The sorted ids are a permutation of the collection's keys. */
  lemma {:induction false} SortedIdsPermutation(herd: seq<Animal>)
    ensures multiset(SortedAnimalIds(herd)) == multiset(Ids(herd))
  {
    if herd != [] {
      SortedIdsPermutation(herd[1..]);
      InsertIds(herd[0], SortAnimals(herd[1..]));
      assert herd == [herd[0]] + herd[1..];
      IdsCons(herd[0], herd[1..]);
    }
  }

  lemma RepeatCounts<T>(s: seq<T>, i: nat, j: nat)
    requires i < j < |s| && s[i] == s[j]
    ensures multiset(s)[s[i]] >= 2
  {
    assert s == s[..j] + s[j..];
    assert s[i] in multiset(s[..j]);
    assert s[j] in multiset(s[j..]);
  }

  lemma {:induction false} DistinctCounts<T>(s: seq<T>)
    ensures Distinct(s) <==> forall x :: multiset(s)[x] <= 1
  {
    if forall x :: multiset(s)[x] <= 1 {
      forall i, j | 0 <= i < j < |s| ensures s[i] != s[j] {
        if s[i] == s[j] {
          RepeatCounts(s, i, j);
        }
      }
    }
    if Distinct(s) && s != [] {
      assert s == [s[0]] + s[1..];
      assert s[0] !in s[1..];
      assert Distinct(s[1..]) by {
        forall i, j | 0 <= i < j < |s[1..]| ensures s[1..][i] != s[1..][j] {
          assert s[i + 1] != s[j + 1];
        }
      }
      DistinctCounts(s[1..]);
    }
  }

  /**
   * In a well-keyed collection every key appears in the sorted ids exactly
   * once, and nothing else appears.
   */
  lemma SortedIdsExactlyOnce(herd: seq<Animal>)
    requires WellKeyed(herd)
    ensures forall id :: multiset(SortedAnimalIds(herd))[id] == (if id in Ids(herd) then 1 else 0)
    ensures Distinct(SortedAnimalIds(herd))
  {
    SortedIdsPermutation(herd);
    DistinctCounts(Ids(herd));
    DistinctCounts(SortedAnimalIds(herd));
  }
}
