/**
 * `organizedAnimals`: the sorted animals packed row by row onto the barn
 * floor. Every animal gets a cell of the Cow's size, whatever its kind; rows
 * are a Cow's height plus half a grid unit apart; the floor's height is never
 * consulted.
 */
module BarnLayout {
  import opened Wrappers
  import opened Animals
  import opened AnimalOrder

  /** Width and height of a sprite, in grid units. */
  datatype Size = Size(width: int, height: int)

  /** The gap left between two rows, in grid units. */
  const VerticalGap: real := 0.5

  /**
   * One entry of the layout: the animal record spread into a new object that
   * also has `coordinates` (the top-left of its cell). `record` is None when
   * the id has no record in the collection, and the entry then holds the
   * coordinates alone.
   */
  datatype Placed = Placed(record: Option<Animal>, x: int, y: real)

  /** The floor is at least one Cow wide, and the Cow has a positive size. */
  predicate Fits(cow: Size, floorWidth: int) {
    cow.width > 0 && cow.height > 0 && floorWidth >= cow.width
  }

  /** `maxAnimalsPerRow`: the number of whole cells that fit across the floor. */
  function PerRow(floorWidth: int, cellWidth: int): (n: int)
    requires cellWidth > 0
    ensures cellWidth <= floorWidth ==> n >= 1
    ensures 0 <= floorWidth < cellWidth ==> n == 0
  {
    DivCases(floorWidth, cellWidth);
    floorWidth / cellWidth
  }

  /** Flooring a quotient by a positive divisor: 0 below the divisor, at least 1 from it on. */
  lemma DivCases(a: int, p: int)
    requires p > 0
    ensures p <= a ==> a / p >= 1
    ensures 0 <= a < p ==> a / p == 0
  {
    if p <= a {
      DivBounds(a, p);
    }
  }

  /** On a floor at least one cell wide, at least one cell fits, and PerRow is the most that fit. */
  lemma PerRowFits(floorWidth: int, cellWidth: int)
    requires 0 < cellWidth <= floorWidth
    ensures PerRow(floorWidth, cellWidth) >= 1
    ensures PerRow(floorWidth, cellWidth) * cellWidth <= floorWidth
    ensures floorWidth < (PerRow(floorWidth, cellWidth) + 1) * cellWidth
  {
    DivBounds(floorWidth, cellWidth);
  }

  /** The distance from one row's top to the next. */
  function RowPitch(cow: Size): real {
    cow.height as real + VerticalGap
  }

  /** The left edge of cell i, in column i % perRow. */
  function CellX(i: int, perRow: int, width: int): int
    requires perRow >= 1
  {
    (i % perRow) * width
  }

  /** The top edge of cell i, in row i / perRow. */
  function CellY(i: int, perRow: int, cow: Size): real
    requires perRow >= 1
  {
    (i / perRow) as real * RowPitch(cow)
  }

  /** The layout of `ids`, looking each id up in `herd`; entry i takes cell i. */
  function OrganizeAnimals(ids: seq<string>, herd: seq<Animal>, floorWidth: int, cow: Size): (layout: seq<Placed>)
    requires Fits(cow, floorWidth)
    ensures |layout| == |ids|
  {
    PerRowFits(floorWidth, cow.width);
    var perRow := PerRow(floorWidth, cow.width);
    seq(|ids|, i requires 0 <= i < |ids| =>
      Placed(Lookup(herd, ids[i]), CellX(i, perRow, cow.width), CellY(i, perRow, cow)))
  }

  lemma MulLeq(a: int, b: int, c: int)
    requires a <= b && c >= 0
    ensures a * c <= b * c
  {
  }

  lemma MulLeqReal(a: real, b: real, c: real)
    requires a <= b && c >= 0.0
    ensures a * c <= b * c
  {
  }

  /** Integer division by a positive divisor rounds down, as `Math.floor` of the quotient does. */
  lemma DivBounds(a: int, p: int)
    requires a >= 0 && p >= 1
    ensures (a / p) * p <= a < (a / p + 1) * p
    ensures a >= p ==> a / p >= 1
  {
  }

  /** Of two indices in row-major order, the earlier is on an earlier row, or on the same row further left. */
  lemma RowMajorOrder(i: int, j: int, p: int)
    requires 0 <= i < j && p >= 1
    ensures i / p < j / p || (i / p == j / p && i % p < j % p)
  {
    DivBounds(i, p);
    DivBounds(j, p);
    if j / p < i / p {
      MulLeq(j / p + 1, i / p, p);
    }
  }

  /** With p cells of width w fitting the floor, every cell lies across the floor. */
  lemma CellWithinRow(i: int, p: int, w: int, floorWidth: int)
    requires p >= 1 && w > 0 && p * w <= floorWidth
    ensures 0 <= CellX(i, p, w) && CellX(i, p, w) + w <= floorWidth
  {
    var c := i % p;
    MulLeq(c + 1, p, w);
    MulLeq(0, c, w);
  }

  /** Cells of non-negative indices start at or below the floor's top. */
  lemma CellBelowTop(i: nat, p: int, cow: Size)
    requires p >= 1 && cow.height >= 0
    ensures CellY(i, p, cow) >= 0.0
  {
    MulLeqReal(0.0, (i / p) as real, RowPitch(cow));
  }

  /** A later cell is further right on the same row, or at least one row pitch lower. */
  lemma CellsInReadingOrder(i: int, j: int, p: int, cow: Size)
    requires 0 <= i < j && p >= 1 && cow.width > 0 && cow.height >= 0
    ensures (CellY(i, p, cow) == CellY(j, p, cow) && CellX(i, p, cow.width) + cow.width <= CellX(j, p, cow.width)) ||
      CellY(i, p, cow) + RowPitch(cow) <= CellY(j, p, cow)
  {
    RowMajorOrder(i, j, p);
    if i / p == j / p {
      MulLeq(i % p + 1, j % p, cow.width);
    } else {
      MulLeqReal((i / p + 1) as real, (j / p) as real, RowPitch(cow));
    }
  }

  /** Cell p * n starts row n, which lies at least n grid units down. */
  lemma RowStartCell(p: int, n: nat, cow: Size)
    requires p >= 1 && cow.height > 0
    ensures (p * n) / p == n
    ensures CellY(p * n, p, cow) >= n as real
  {
    var i := p * n;
    assert i / p == n by {
      DivBounds(i, p);
      if i / p < n {
        MulLeq(i / p + 1, n, p);
      } else if i / p > n {
        MulLeq(n + 1, i / p, p);
      }
    }
    MulLeqReal(1.0, RowPitch(cow), n as real);
  }

  /**
   * Every entry's cell lies across the floor: it starts at or right of the
   * floor's left edge, at or below its top, and ends at or left of its right
   * edge.
   */
  lemma {:induction false} LayoutWithinFloor(ids: seq<string>, herd: seq<Animal>, floorWidth: int, cow: Size)
    requires Fits(cow, floorWidth)
    ensures forall e :: e in OrganizeAnimals(ids, herd, floorWidth, cow) ==>
      0 <= e.x && e.x + cow.width <= floorWidth && 0.0 <= e.y
  {
    var layout := OrganizeAnimals(ids, herd, floorWidth, cow);
    var perRow := PerRow(floorWidth, cow.width);
    PerRowFits(floorWidth, cow.width);
    forall e | e in layout ensures 0 <= e.x && e.x + cow.width <= floorWidth && 0.0 <= e.y {
      var i :| 0 <= i < |layout| && layout[i] == e;
      CellWithinRow(i, perRow, cow.width, floorWidth);
      CellBelowTop(i, perRow, cow);
    }
  }

  /**
   * Entries are in reading order and their cells do not overlap: a later
   * entry is either further right on the same row, at least one cell on, or
   * on a lower row, at least one row pitch down.
   */
  lemma LayoutReadingOrder(ids: seq<string>, herd: seq<Animal>, floorWidth: int, cow: Size, i: nat, j: nat)
    requires Fits(cow, floorWidth)
    requires i < j < |ids|
    ensures var layout := OrganizeAnimals(ids, herd, floorWidth, cow);
      (layout[i].y == layout[j].y && layout[i].x + cow.width <= layout[j].x) ||
      layout[i].y + RowPitch(cow) <= layout[j].y
  {
    PerRowFits(floorWidth, cow.width);
    CellsInReadingOrder(i, j, PerRow(floorWidth, cow.width), cow);
  }

  /** One entry of the layout of the sorted ids carries the record sorted to that place. */
  lemma LayoutRecordAt(herd: seq<Animal>, floorWidth: int, cow: Size, i: nat)
    requires WellKeyed(herd)
    requires Fits(cow, floorWidth)
    requires i < |herd|
    ensures OrganizeAnimals(SortedAnimalIds(herd), herd, floorWidth, cow)[i].record == Some(SortAnimals(herd)[i])
  {
    var sorted := SortAnimals(herd);
    assert sorted[i] in multiset(herd);
    LookupFindsRecord(herd, sorted[i]);
  }

  /** No two entries share coordinates. */
  lemma LayoutInjective(ids: seq<string>, herd: seq<Animal>, floorWidth: int, cow: Size, i: nat, j: nat)
    requires Fits(cow, floorWidth)
    requires i < |ids| && j < |ids| && i != j
    ensures var layout := OrganizeAnimals(ids, herd, floorWidth, cow);
      (layout[i].x, layout[i].y) != (layout[j].x, layout[j].y)
  {
    if i < j {
      LayoutReadingOrder(ids, herd, floorWidth, cow, i, j);
    } else {
      LayoutReadingOrder(ids, herd, floorWidth, cow, j, i);
    }
  }

  /**
   * The layout of the sorted ids has one entry per sorted record, in sorted
   * order, and each entry carries that record unchanged.
   */
  lemma LayoutRecords(herd: seq<Animal>, floorWidth: int, cow: Size)
    requires WellKeyed(herd)
    requires Fits(cow, floorWidth)
    ensures var layout := OrganizeAnimals(SortedAnimalIds(herd), herd, floorWidth, cow);
      |layout| == |herd| &&
      forall i :: 0 <= i < |layout| ==> layout[i].record == Some(SortAnimals(herd)[i])
  {
    var sorted := SortAnimals(herd);
    forall i | 0 <= i < |sorted| ensures Lookup(herd, sorted[i].id) == Some(sorted[i]) {
      assert sorted[i] in multiset(herd);
      LookupFindsRecord(herd, sorted[i]);
    }
  }

  /**
   * Rows are not limited by the floor's height: however tall the floor, a
   * herd with enough animals has an entry whose cell starts at or below the
   * floor's bottom edge.
   */
  lemma FloorHeightNotEnforced(ids: seq<string>, herd: seq<Animal>, floorWidth: int, cow: Size, floorHeight: nat)
    requires Fits(cow, floorWidth)
    requires |ids| > PerRow(floorWidth, cow.width) * floorHeight
    ensures OrganizeAnimals(ids, herd, floorWidth, cow)[PerRow(floorWidth, cow.width) * floorHeight].y >= floorHeight as real
  {
    PerRowFits(floorWidth, cow.width);
    RowStartCell(PerRow(floorWidth, cow.width), floorHeight, cow);
  }

  /** The herd of the two-row scenario below, in collection order. */
  const Cow10 := Animal("c10", Cow, 10, "idle")
  const Cow30 := Animal("c30", Cow, 30, "idle")
  const Cow20 := Animal("c20", Cow, 20, "idle")
  const Sheep5 := Animal("s5", Sheep, 5, "idle")
  const ScenarioHerd := [Cow10, Cow30, Cow20, Sheep5]

  lemma ScenarioTailOrder()
    ensures SortAnimals([Cow20, Sheep5]) == [Cow20, Sheep5]
  {
    assert SortAnimals([Sheep5]) == [Sheep5];
    assert SortAnimals([Cow20, Sheep5]) == Insert(Cow20, SortAnimals([Sheep5]));
  }

  lemma ScenarioTailOrder3()
    ensures SortAnimals([Cow30, Cow20, Sheep5]) == [Cow30, Cow20, Sheep5]
  {
    ScenarioTailOrder();
    assert SortAnimals([Cow30, Cow20, Sheep5]) == Insert(Cow30, SortAnimals([Cow20, Sheep5]));
  }

  lemma ScenarioInsert1()
    ensures Insert(Cow10, [Sheep5]) == [Cow10, Sheep5]
  {
  }

  lemma ScenarioInsert2()
    ensures Insert(Cow10, [Cow20, Sheep5]) == [Cow20, Cow10, Sheep5]
  {
    ScenarioInsert1();
  }

  lemma ScenarioInsert()
    ensures Insert(Cow10, [Cow30, Cow20, Sheep5]) == [Cow30, Cow20, Cow10, Sheep5]
  {
    var s := [Cow30, Cow20, Sheep5];
    assert s[1..] == [Cow20, Sheep5];
    assert !Precedes(Cow10, s[0]);
    ScenarioInsert2();
    assert Insert(Cow10, s) == [Cow30] + [Cow20, Cow10, Sheep5];
  }

  /** Cows first, most experienced first, then the sheep. */
  lemma ScenarioOrder()
    ensures SortAnimals(ScenarioHerd) == [Cow30, Cow20, Cow10, Sheep5]
  {
    ScenarioTailOrder3();
    ScenarioInsert();
    assert ScenarioHerd[1..] == [Cow30, Cow20, Sheep5];
  }

  lemma ScenarioPerRow(w: int)
    requires w > 0
    ensures PerRow(2 * w, w) == 2
  {
    PerRowFits(2 * w, w);
    var n := PerRow(2 * w, w);
    if n < 2 {
      MulLeq(n + 1, 2, w);
    } else if n > 2 {
      MulLeq(3, n, w);
    }
  }

  lemma ScenarioWellKeyed()
    ensures WellKeyed(ScenarioHerd)
  {
    var ids := Ids(ScenarioHerd);
    assert ids[0] == "c10" && ids[1] == "c30" && ids[2] == "c20" && ids[3] == "s5";
  }

  lemma ScenarioRecords(w: int, h: int)
    requires w > 0 && h > 0
    ensures var layout := OrganizeAnimals(SortedAnimalIds(ScenarioHerd), ScenarioHerd, 2 * w, Size(w, h));
      |layout| == 4 &&
      layout[0].record == Some(Cow30) && layout[1].record == Some(Cow20) &&
      layout[2].record == Some(Cow10) && layout[3].record == Some(Sheep5)
  {
    ScenarioWellKeyed();
    ScenarioOrder();
    LayoutRecordAt(ScenarioHerd, 2 * w, Size(w, h), 0);
    LayoutRecordAt(ScenarioHerd, 2 * w, Size(w, h), 1);
    LayoutRecordAt(ScenarioHerd, 2 * w, Size(w, h), 2);
    LayoutRecordAt(ScenarioHerd, 2 * w, Size(w, h), 3);
  }

  lemma ScenarioCoordinates(ids: seq<string>, herd: seq<Animal>, w: int, h: int)
    requires w > 0 && h > 0 && |ids| == 4
    ensures var layout := OrganizeAnimals(ids, herd, 2 * w, Size(w, h));
      |layout| == 4 &&
      layout[0].x == 0 && layout[0].y == 0.0 && layout[1].x == w && layout[1].y == 0.0 &&
      layout[2].x == 0 && layout[2].y == h as real + 0.5 && layout[3].x == w && layout[3].y == h as real + 0.5
  {
    ScenarioPerRow(w);
  }

  /**
   * Three cows with experience 10, 30 and 20 and a sheep with 5, on a floor
   * two Cow cells wide, fill two rows of two in sorted order.
   */
  lemma TwoRowScenario(w: int, h: int)
    requires w > 0 && h > 0
    ensures OrganizeAnimals(SortedAnimalIds(ScenarioHerd), ScenarioHerd, 2 * w, Size(w, h)) == [
        Placed(Some(Cow30), 0, 0.0), Placed(Some(Cow20), w, 0.0),
        Placed(Some(Cow10), 0, h as real + 0.5), Placed(Some(Sheep5), w, h as real + 0.5)]
  {
    ScenarioRecords(w, h);
    ScenarioCoordinates(SortedAnimalIds(ScenarioHerd), ScenarioHerd, w, h);
    FourEntries(OrganizeAnimals(SortedAnimalIds(ScenarioHerd), ScenarioHerd, 2 * w, Size(w, h)), w, h);
  }

  lemma FourEntries(layout: seq<Placed>, w: int, h: int)
    requires |layout| == 4
    requires layout[0].record == Some(Cow30) && layout[1].record == Some(Cow20)
    requires layout[2].record == Some(Cow10) && layout[3].record == Some(Sheep5)
    requires layout[0].x == 0 && layout[0].y == 0.0 && layout[1].x == w && layout[1].y == 0.0
    requires layout[2].x == 0 && layout[2].y == h as real + 0.5 && layout[3].x == w && layout[3].y == h as real + 0.5
    ensures layout == [
        Placed(Some(Cow30), 0, 0.0), Placed(Some(Cow20), w, 0.0),
        Placed(Some(Cow10), 0, h as real + 0.5), Placed(Some(Sheep5), w, h as real + 0.5)]
  {
  }
}
