/**
 * The barn interior component: its UI state (the guide and upgrade modals,
 * the active deal and the animal selected for it), its two memoised values
 * (the sorted ids and the floor layout) with their dependency keys, and the
 * handlers that change them.
 */
module Barn {
  import opened Wrappers
  import opened Animals
  import opened AnimalOrder
  import opened BarnLayout

  /** The highest barn level. */
  const MaxLevel: int := 3

  /** `nextLevel`: the level an upgrade leads to, never beyond the highest. */
  function NextLevel(level: int): (next: int)
    ensures next <= MaxLevel
    ensures next > level <==> level < MaxLevel
    ensures level < MaxLevel ==> next == level + 1
    ensures level >= MaxLevel ==> next == MaxLevel
  {
    if level + 1 <= MaxLevel then level + 1 else MaxLevel
  }

  /** An animal bounty (a trade offer); its contents belong to the game store. */
  datatype Bounty = Bounty(id: string)

  /** The dependency key of the layout memo. */
  datatype LayoutKey = LayoutKey(count: nat, sickCount: nat, floorWidth: int)

  function LayoutKeyOf(herd: seq<Animal>, floorWidth: int): (k: LayoutKey)
    ensures k.count == |herd| && k.floorWidth == floorWidth
    ensures k.sickCount == SickCount(herd) && k.sickCount <= k.count
  {
    LayoutKey(|herd|, SickCount(herd), floorWidth)
  }

  /** Two snapshots of the collection that differ at most in experience values. */
  predicate OnlyExperienceChanged(before: seq<Animal>, after: seq<Animal>) {
    |before| == |after| &&
    forall i :: 0 <= i < |before| ==> after[i] == before[i].(experience := after[i].experience)
  }

  /** Gaining experience changes neither the count nor the sick count, so neither memo key. */
  lemma {:induction false} ExperienceKeepsKeys(before: seq<Animal>, after: seq<Animal>, floorWidth: int)
    requires OnlyExperienceChanged(before, after)
    ensures |after| == |before|
    ensures LayoutKeyOf(after, floorWidth) == LayoutKeyOf(before, floorWidth)
  {
    if before != [] {
      assert OnlyExperienceChanged(before[1..], after[1..]) by {
        forall i | 0 <= i < |before[1..]|
          ensures after[1..][i] == before[1..][i].(experience := after[1..][i].experience)
        {
          assert after[i + 1] == before[i + 1].(experience := after[i + 1].experience);
        }
      }
      ExperienceKeepsKeys(before[1..], after[1..], floorWidth);
      assert IsSick(after[0]) == IsSick(before[0]);
    }
  }

  /** The class names and the `disabled` prop an entry is drawn with. */
  datatype EntryFlags = EntryFlags(dimmed: bool, pointer: bool, clickThrough: bool, disabled: bool)

  /**
   * Under a deal, an entry the deal accepts shows the pointer cursor; any
   * other is dimmed and lets clicks through; every entry is disabled.
   * Without a deal no flag is set.
   */
  function Flags(deal: Option<Bounty>, entry: Placed, isValidDeal: (Placed, Bounty) -> bool): (f: EntryFlags)
    ensures deal.None? ==> f == EntryFlags(false, false, false, false)
    ensures deal.Some? ==> f.disabled && (f.pointer <==> isValidDeal(entry, deal.value))
    ensures f.dimmed <==> deal.Some? && !f.pointer
    ensures f.clickThrough == f.dimmed
  {
    var isValid := deal.Some? && isValidDeal(entry, deal.value);
    EntryFlags(deal.Some? && !isValid, deal.Some? && isValid, deal.Some? && !isValid, deal.Some?)
  }

  /** The click handler of an entry: the value of `selected` after the click. */
  function AfterClick(deal: Option<Bounty>, selected: Option<Placed>, entry: Placed,
                      isValidDeal: (Placed, Bounty) -> bool): (r: Option<Placed>)
    ensures deal.Some? && isValidDeal(entry, deal.value) ==> r == Some(entry)
    ensures deal.None? ==> r == selected
    ensures deal.Some? && !isValidDeal(entry, deal.value) ==> r == selected
  {
    match deal
    case None => selected
    case Some(d) => if !isValidDeal(entry, d) then selected else Some(entry)
  }

  /**
   * A click selects an entry exactly when the entry is drawn with the pointer
   * cursor; a dimmed entry's click changes nothing.
   */
  lemma ClickSelectsIffPointer(deal: Option<Bounty>, selected: Option<Placed>, entry: Placed,
                               isValidDeal: (Placed, Bounty) -> bool)
    requires selected != Some(entry)
    ensures AfterClick(deal, selected, entry, isValidDeal) == Some(entry) <==> Flags(deal, entry, isValidDeal).pointer
    ensures Flags(deal, entry, isValidDeal).dimmed ==> AfterClick(deal, selected, entry, isValidDeal) == selected
  {
  }

  class BarnInside {
    /** The Cow's size, the cell every animal is packed into. */
    const cow: Size
    /** The store's validity test of an animal for a deal. */
    const isValidDeal: (Placed, Bounty) -> bool

    var showModal: bool
    var showUpgradeModal: bool
    var selected: Option<Placed>
    var deal: Option<Bounty>

    /** Memo of `sortedAnimalIds`, keyed on the number of animals. */
    var sortKey: nat
    var sortedIds: seq<string>
    /** The snapshot of the collection the memo was last computed from. */
    ghost var sortedFrom: seq<Animal>

    /** Memo of `organizedAnimals`, keyed on count, sick count and floor width. */
    var layoutKey: LayoutKey
    var layout: seq<Placed>
    ghost var layoutFrom: seq<Animal>

    /**
     * The deal dialog never opens without a deal, the guide never shows over
     * a deal, and each memo holds the value computed for its key: the sorted
     * ids of a snapshot with `sortKey` animals, and the layout of exactly
     * those ids for the floor width in `layoutKey`.
     */
    ghost predicate Valid()
      reads this
    {
      && Fits(cow, layoutKey.floorWidth)
      && (selected.Some? ==> deal.Some?)
      && (showModal ==> deal.None?)
      && |sortedFrom| == sortKey
      && sortedIds == SortedAnimalIds(sortedFrom)
      && layoutKey == LayoutKeyOf(layoutFrom, layoutKey.floorWidth)
      && layoutKey.count == sortKey
      && layout == OrganizeAnimals(sortedIds, layoutFrom, layoutKey.floorWidth, cow)
    }

    /** The first render: both memos computed, no deal, the guide shown unless already read. */
    constructor (herd: seq<Animal>, floorWidth: int, cow: Size, isValidDeal: (Placed, Bounty) -> bool,
                 hasReadGuide: bool)
      requires Fits(cow, floorWidth)
      ensures Valid()
      ensures this.cow == cow && this.isValidDeal == isValidDeal
      ensures showModal == !hasReadGuide && !showUpgradeModal
      ensures selected == None && deal == None
      ensures sortKey == |herd| && sortedIds == SortedAnimalIds(herd)
      ensures layoutKey == LayoutKeyOf(herd, floorWidth)
      ensures layout == OrganizeAnimals(SortedAnimalIds(herd), herd, floorWidth, cow)
      ensures sortedFrom == herd && layoutFrom == herd
    {
      this.cow := cow;
      this.isValidDeal := isValidDeal;
      showModal := !hasReadGuide;
      showUpgradeModal := false;
      selected := None;
      deal := None;
      sortKey := |herd|;
      sortedIds := SortedAnimalIds(herd);
      sortedFrom := herd;
      layoutKey := LayoutKeyOf(herd, floorWidth);
      layout := OrganizeAnimals(SortedAnimalIds(herd), herd, floorWidth, cow);
      layoutFrom := herd;
    }

    /**
     * A render with a new snapshot of the collection and the floor width of
     * the current level: each memo is recomputed exactly when its key
     * differs from the stored one, the layout from the ids as they stand
     * after the first memo.
     */
    method Render(herd: seq<Animal>, floorWidth: int)
      requires Valid()
      requires Fits(cow, floorWidth)
      modifies this
      ensures Valid()
      ensures sortKey == |herd| && layoutKey == LayoutKeyOf(herd, floorWidth)
      ensures sortedIds == if |herd| != old(sortKey) then SortedAnimalIds(herd) else old(sortedIds)
      ensures layout == if LayoutKeyOf(herd, floorWidth) != old(layoutKey)
        then OrganizeAnimals(sortedIds, herd, floorWidth, cow) else old(layout)
      ensures showModal == old(showModal) && showUpgradeModal == old(showUpgradeModal)
      ensures selected == old(selected) && deal == old(deal)
      ensures sortedFrom == if |herd| != old(sortKey) then herd else old(sortedFrom)
      ensures layoutFrom == if LayoutKeyOf(herd, floorWidth) != old(layoutKey) then herd else old(layoutFrom)
    {
      if |herd| != sortKey {
        sortedIds := SortedAnimalIds(herd);
        sortKey := |herd|;
        sortedFrom := herd;
      }
      var key := LayoutKeyOf(herd, floorWidth);
      if key != layoutKey {
        layout := OrganizeAnimals(sortedIds, herd, floorWidth, cow);
        layoutKey := key;
        layoutFrom := herd;
      }
    }

    /** A click on an entry of the layout (the per-animal click handler). */
    method Click(entry: Placed)
      requires Valid()
      requires entry in layout
      modifies this`selected
      ensures Valid()
      ensures selected == AfterClick(deal, old(selected), entry, isValidDeal)
    {
      match deal
      case None =>
      case Some(d) =>
        if isValidDeal(entry, d) {
          selected := Some(entry);
        }
    }

    /** The guide modal's `onExchanging`: the guide closes and the chosen deal becomes active. */
    method StartExchange(d: Bounty)
      requires Valid()
      modifies this`showModal, this`deal
      ensures Valid()
      ensures !showModal && deal == Some(d)
    {
      showModal := false;
      deal := Some(d);
    }

    /** The guide modal's `onClose` and `onHide`. */
    method CloseGuide()
      requires Valid()
      modifies this`showModal
      ensures Valid() && !showModal
    {
      showModal := false;
    }

    /** The shop disc, drawn only while no deal is active, opens the guide. */
    method OpenGuide()
      requires Valid()
      requires deal.None?
      modifies this`showModal
      ensures Valid() && showModal
    {
      showModal := true;
    }

    /** The upgrade disc, drawn only while no deal is active, opens the upgrade modal. */
    method OpenUpgrade()
      requires Valid()
      requires deal.None?
      modifies this`showUpgradeModal
      ensures Valid() && showUpgradeModal
    {
      showUpgradeModal := true;
    }

    /** The upgrade modal's `onClose`. */
    method CloseUpgrade()
      requires Valid()
      modifies this`showUpgradeModal
      ensures Valid() && !showUpgradeModal
    {
      showUpgradeModal := false;
    }

    /** The deal dialog's `onClose` (and its modal's `onHide`): the selection is dropped, the deal stays. */
    method CloseDealDialog()
      requires Valid()
      modifies this`selected
      ensures Valid()
      ensures selected == None
    {
      selected := None;
    }

    /** The deal dialog's `onSold`: both the deal and the selection are cleared. */
    method Sold()
      requires Valid()
      modifies this`deal, this`selected
      ensures Valid()
      ensures deal == None && selected == None
    {
      deal := None;
      selected := None;
    }

    /**
     * The exchange HUD's `onClose` clears the deal. The HUD lies under the
     * deal dialog's modal backdrop, so it is reachable only while no animal
     * is selected.
     */
    method CloseExchange()
      requires Valid()
      requires selected.None?
      modifies this`deal
      ensures Valid()
      ensures deal == None
    {
      deal := None;
    }
  }

  /**
   * When animals only gain experience, a render keeps both memos as they
   * were: the barn shows the old layout, with the old records.
   */
  method RenderAfterExperienceGain(barn: BarnInside, before: seq<Animal>, after: seq<Animal>, floorWidth: int)
    requires barn.Valid() && Fits(barn.cow, floorWidth)
    requires barn.sortKey == |before| && barn.layoutKey == LayoutKeyOf(before, floorWidth)
    requires OnlyExperienceChanged(before, after)
    modifies barn
    ensures barn.Valid()
    ensures barn.sortedIds == old(barn.sortedIds) && barn.layout == old(barn.layout)
  {
    ExperienceKeepsKeys(before, after, floorWidth);
    barn.Render(after, floorWidth);
  }

  /**
   * Whatever snapshots the memos were computed from, the cached layout has
   * one entry per cached id, in the same order, every cell inside the floor
   * width it was computed for, and no two cells at the same coordinates.
   */
  lemma CachedLayoutSound(barn: BarnInside)
    requires barn.Valid()
    ensures |barn.layout| == |barn.sortedIds| == barn.sortKey
    ensures forall i :: 0 <= i < |barn.layout| && barn.layout[i].record.Some? ==>
      barn.layout[i].record.value.id == barn.sortedIds[i]
    ensures forall e :: e in barn.layout ==>
      0 <= e.x && e.x + barn.cow.width <= barn.layoutKey.floorWidth && 0.0 <= e.y
    ensures forall i, j :: 0 <= i < j < |barn.layout| ==>
      (barn.layout[i].x, barn.layout[i].y) != (barn.layout[j].x, barn.layout[j].y)
  {
    LayoutWithinFloor(barn.sortedIds, barn.layoutFrom, barn.layoutKey.floorWidth, barn.cow);
    forall i, j | 0 <= i < j < |barn.layout|
      ensures (barn.layout[i].x, barn.layout[i].y) != (barn.layout[j].x, barn.layout[j].y)
    {
      LayoutInjective(barn.sortedIds, barn.layoutFrom, barn.layoutKey.floorWidth, barn.cow, i, j);
    }
  }

  /**
   * When the cached ids are the sorted ids of the collection now in the
   * store and the cached layout was built from them and that collection, the
   * barn shows every animal once, in sorted order, with its current record.
   */
  lemma FreshLayoutShowsSortedHerd(barn: BarnInside, herd: seq<Animal>)
    requires barn.Valid()
    requires barn.sortedIds == SortedAnimalIds(herd)
    requires barn.layout == OrganizeAnimals(barn.sortedIds, herd, barn.layoutKey.floorWidth, barn.cow)
    requires WellKeyed(herd)
    ensures |barn.layout| == |herd|
    ensures forall i :: 0 <= i < |barn.layout| ==> barn.layout[i].record == Some(SortAnimals(herd)[i])
  {
    LayoutRecords(herd, barn.layoutKey.floorWidth, barn.cow);
  }

  /** One animal record before, and a different one after, a single store update. */
  const BeforeSwap: seq<Animal> := [Animal("a", Cow, 10, "idle")]
  const AfterSwap: seq<Animal> := [Animal("b", Sheep, 0, "sick")]

  /**
   * The sort memo is keyed on the count alone: an update that removes one
   * animal and adds another keeps the count, so the memo keeps an id that
   * is gone. If the sick count changes in the same update, the layout is
   * rebuilt from that id and gets an entry with no record.
   */
  lemma CountKeyMissesSwap(floorWidth: int, cow: Size)
    requires Fits(cow, floorWidth)
    ensures |AfterSwap| == |BeforeSwap|
    ensures SortedAnimalIds(BeforeSwap) == ["a"] && "a" !in Ids(AfterSwap)
    ensures LayoutKeyOf(AfterSwap, floorWidth) != LayoutKeyOf(BeforeSwap, floorWidth)
    ensures OrganizeAnimals(SortedAnimalIds(BeforeSwap), AfterSwap, floorWidth, cow)[0].record == None
  {
    assert SortAnimals(BeforeSwap) == BeforeSwap;
    assert Ids(AfterSwap) == ["b"];
  }

  /** The same swap seen through the component: a first render, then the update. */
  method SwapInOneUpdate(floorWidth: int, cow: Size, isValidDeal: (Placed, Bounty) -> bool)
    returns (barn: BarnInside)
    requires Fits(cow, floorWidth)
    ensures barn.Valid()
    ensures barn.sortedIds == ["a"] && "a" !in Ids(AfterSwap)
    ensures |barn.layout| == 1 && barn.layout[0].record == None
  {
    barn := new BarnInside(BeforeSwap, floorWidth, cow, isValidDeal, true);
    CountKeyMissesSwap(floorWidth, cow);
    barn.Render(AfterSwap, floorWidth);
  }
}
