# Barn interior: animal order, floor layout, memo policy and deal selection

A Dafny model of the logic in the barn interior component of a farming game
(`src/features/barn/BarnInside.tsx`). The component reads the barn's animal
records from the game store and does four things:

- It sorts the records by kind, then by experience from most to least. Ties keep
  the order of the record collection, because the engine's sort is stable.
- It packs the sorted animals row by row onto the barn floor. Every animal gets a
  cell of the Cow's size, and rows are half a grid unit apart.
- It memoises both results. The sorted ids are keyed on the number of animals.
  The layout is keyed on the number of animals, the number of sick animals and
  the floor width.
- It keeps UI state: the guide and upgrade modals, the active deal (a trade offer)
  and the animal selected for it. The per-animal click handler changes `selected`.

Files, one module each:

- `wrappers.dfy`: `Option`, standing for a value that may be `undefined`.
- `animals.dfy` (`Animals`): kinds, records, the sick count, id lookup.
- `animal_order.dfy` (`AnimalOrder`): the comparator, a stable insertion sort, and
  the proof that it is the only sorted, stable arrangement. Any stable sort the
  engine uses therefore gives the same result.
- `barn_layout.dfy` (`BarnLayout`): the grid packing and its geometry.
- `barn_inside.dfy` (`Barn`): the component as a class. It holds the UI state and
  both memos, and its methods are the render and the event handlers.

The record collection is a `seq<Animal>` in the order of its keys (the order
`Object.keys` gives). `WellKeyed` says the keys are unique and each record's id is
its key. Floor width and the Cow's size are integers in grid units. Row offsets are
`real`, so that the 0.5 gap is exact.

The layout memo keeps the records it was built from. So when animals only gain
experience, a render shows the old layout with the old records
(`RenderAfterExperienceGain`). The sort memo is keyed on the count alone. A single
store update that removes one animal and adds another therefore keeps ids that are
gone (`CountKeyMissesSwap`, `SwapInOneUpdate`). For this reason a layout entry holds
`Option<Animal>`: spreading the `undefined` of a missing key leaves only the
coordinates. The component then throws while rendering such an entry: it
destructures the sprite size of `animal.type`, which is `undefined`
(`BarnInside.tsx:209`). So the two members show an update after which the
barn interior crashes.

On a floor narrower than one Cow, the column count is 0 (`PerRow`), and the code
does not guard this case. Clamping the count to at least 1 would avoid it. The
layout model requires a floor at least one Cow wide (`Fits`). Kinds are compared
with `localeCompare`. For the two barn kinds this is the order of their names,
which `CompareTypesFollowsNames` states against a character-by-character order.

## Model

| member | source | states |
|---|---|---|
| Animals.CompareTypesFollowsNames | src/features/barn/BarnInside.tsx:95 | the kind comparison is negative exactly when the first kind's name sorts first, positive exactly when the second's does, and zero exactly on the same kind |
| Animals.SickCount | src/features/barn/BarnInside.tsx:121 | the sick count is at most the count; it is zero exactly when no record is sick, and equals the count exactly when all are |
| Animals.Lookup | src/features/barn/BarnInside.tsx:107 | `animals[id]` is a record of the collection with that id, and is missing exactly when no record has that id |
| Animals.LookupFindsRecord | src/features/barn/BarnInside.tsx:90-91 | in a well-keyed collection, looking up a record's id gives back that record |
| AnimalOrder.Compare | src/features/barn/BarnInside.tsx:92-96 | the comparator is zero exactly on records with the same kind and experience; on the same kind it is negative exactly when the first has more experience; across kinds it is negative exactly when the first kind comes first |
| AnimalOrder.ComparatorConsistent | src/features/barn/BarnInside.tsx:92-96 | the comparator is antisymmetric in sign, zero exactly on the same kind and experience, total and transitive |
| AnimalOrder.PrecedesMeaning | src/features/barn/BarnInside.tsx:92-96 | a record may precede another exactly when its kind comes earlier, or the kind is the same and its experience is at least as high |
| AnimalOrder.Insert | src/features/barn/BarnInside.tsx:92-96 | inserting adds exactly one record and keeps a sorted sequence sorted |
| AnimalOrder.SortAnimals | src/features/barn/BarnInside.tsx:88-97 | the sorted records are a permutation of the input and are sorted by the comparator |
| AnimalOrder.InsertTies | src/features/barn/BarnInside.tsx:92-96 | insertion puts the new record in front of the records it ties with and keeps their order |
| AnimalOrder.SortStable | src/features/barn/BarnInside.tsx:92-96 | the sort is stable: every group of records with the same kind and experience keeps its input order |
| AnimalOrder.StableSortUnique | src/features/barn/BarnInside.tsx:92-96 | two sorted sequences with the same groups of ties are equal |
| AnimalOrder.SortIsTheStableSort | src/features/barn/BarnInside.tsx:88-97 | any sorted, stable arrangement of the records equals the one the model computes |
| AnimalOrder.SortedGroupsByType | src/features/barn/BarnInside.tsx:86-96 | kinds appear in ascending order, each kind's records are contiguous, and experience never increases within a kind |
| AnimalOrder.SortedAnimalIds | src/features/barn/BarnInside.tsx:88-97 | `sortedAnimalIds` holds one id per record; the two rows below state which ids and how often |
| AnimalOrder.SortedIdsPermutation | src/features/barn/BarnInside.tsx:88-97 | the sorted ids are a permutation of the collection's keys |
| AnimalOrder.SortedIdsExactlyOnce | src/features/barn/BarnInside.tsx:88-97 | in a well-keyed collection, every key appears in the sorted ids exactly once and nothing else appears |
| BarnLayout.PerRow | src/features/barn/BarnInside.tsx:103 | `maxAnimalsPerRow` is at least 1 on a floor at least one Cow wide, and 0 on a narrower floor, a case the code does not guard |
| BarnLayout.PerRowFits | src/features/barn/BarnInside.tsx:103 | on a floor at least one Cow wide, `maxAnimalsPerRow` is at least 1 and is the largest count of Cow widths that fits in the floor width |
| BarnLayout.OrganizeAnimals | src/features/barn/BarnInside.tsx:102-118 | the layout has one entry per sorted id |
| BarnLayout.CellWithinRow | src/features/barn/BarnInside.tsx:110-114 | `CellX`, the column `index % maxAnimalsPerRow` times the Cow's width, starts at or right of 0 and the cell ends at or before the floor width |
| BarnLayout.CellBelowTop | src/features/barn/BarnInside.tsx:109-115 | `CellY`, the row `Math.floor(index / maxAnimalsPerRow)` times the Cow's height plus the gap, is never negative |
| BarnLayout.CellsInReadingOrder | src/features/barn/BarnInside.tsx:109-115 | of two cells, the later index is on the same row at least one cell to the right, or at least one row pitch lower |
| BarnLayout.RowStartCell | src/features/barn/BarnInside.tsx:109-115 | cell `maxAnimalsPerRow * n` is in row n, and that row is at least n grid units down |
| BarnLayout.LayoutWithinFloor | src/features/barn/BarnInside.tsx:103-115 | every cell starts at x >= 0 and y >= 0 and ends at or before the floor width |
| BarnLayout.LayoutReadingOrder | src/features/barn/BarnInside.tsx:108-116 | a later entry is on the same row at least one cell to the right, or at least one row pitch lower, so cells never overlap |
| BarnLayout.LayoutInjective | src/features/barn/BarnInside.tsx:108-116 | distinct indices get distinct (x, y) coordinates |
| BarnLayout.LayoutRecords | src/features/barn/BarnInside.tsx:106-117 | the layout of the sorted ids has one entry per animal, in sorted order, each carrying its record unchanged |
| BarnLayout.FloorHeightNotEnforced | src/features/barn/BarnInside.tsx:104-115 | however tall the floor, enough animals put a cell at or below its bottom edge |
| BarnLayout.TwoRowScenario | src/features/barn/BarnInside.tsx:86-118 | cows with experience 10, 30, 20 and a sheep with 5, on a floor two cells wide, land at (0,0), (w,0), (0,h+0.5), (w,h+0.5) in the order 30, 20, 10, sheep |
| Barn.NextLevel | src/features/barn/BarnInside.tsx:77 | `Math.min(level + 1, 3)`: one more than the level below 3, exactly 3 at or above 3, so never beyond 3, and higher than the level exactly when the level is below 3 |
| Barn.LayoutKeyOf | src/features/barn/BarnInside.tsx:119-123 | the layout memo's dependency array holds the count, the number of sick records (`SickCount`, so at most the count) and the floor width |
| Barn.ExperienceKeepsKeys | src/features/barn/BarnInside.tsx:119-123 | gaining experience changes neither the count nor the sick count, so neither memo key |
| Barn.Flags | src/features/barn/BarnInside.tsx:206-236 | under a deal every entry is disabled, a valid one shows the pointer cursor, and an invalid one is dimmed and lets clicks through; without a deal no flag is set |
| Barn.AfterClick | src/features/barn/BarnInside.tsx:227-234 | with a deal, a click selects the entry if the deal accepts it; otherwise, and without a deal, `selected` is unchanged |
| Barn.ClickSelectsIffPointer | src/features/barn/BarnInside.tsx:206-234 | a click selects an entry exactly when that entry shows the pointer cursor; a click on a dimmed entry changes nothing |
| Barn.BarnInside.constructor | src/features/barn/BarnInside.tsx:59-62 | the first render computes both memos from the collection; no deal, nothing selected, the upgrade modal closed, the guide shown unless it was read |
| Barn.BarnInside.Render | src/features/barn/BarnInside.tsx:88-123 | each memo is recomputed, from the new collection, exactly when its key changed, the layout from the ids after the first memo; otherwise it keeps its value and the collection it came from; the UI state is unchanged and the memo invariant holds |
| Barn.BarnInside.Click | src/features/barn/BarnInside.tsx:227-234 | `selected` becomes what `AfterClick` gives, and a selection never exists without a deal |
| Barn.BarnInside.StartExchange | src/features/barn/BarnInside.tsx:132-135 | `onExchanging` closes the guide and makes the deal active |
| Barn.BarnInside.CloseGuide | src/features/barn/BarnInside.tsx:128-131 | the guide's close and hide close it |
| Barn.BarnInside.OpenGuide | src/features/barn/BarnInside.tsx:243-253 | the shop disc, present only without a deal, opens the guide |
| Barn.BarnInside.OpenUpgrade | src/features/barn/BarnInside.tsx:254-262 | the upgrade disc, present only without a deal, opens the upgrade modal |
| Barn.BarnInside.CloseUpgrade | src/features/barn/BarnInside.tsx:139-145 | the upgrade modal's close closes it |
| Barn.BarnInside.CloseDealDialog | src/features/barn/BarnInside.tsx:147-151 | the deal dialog's close and hide clear `selected` and keep the deal |
| Barn.BarnInside.Sold | src/features/barn/BarnInside.tsx:152-155 | `onSold` leaves both `deal` and `selected` empty |
| Barn.BarnInside.CloseExchange | src/features/barn/BarnInside.tsx:279-285 | the exchange HUD's close clears the deal |
| Barn.RenderAfterExperienceGain | src/features/barn/BarnInside.tsx:119-123 | after animals only gain experience, a render leaves the cached ids and layout exactly as they were |
| Barn.CachedLayoutSound | src/features/barn/BarnInside.tsx:102-123 | the cached layout has one entry per cached id, in order, every cell inside the floor width it was built for, and no two cells at the same coordinates |
| Barn.FreshLayoutShowsSortedHerd | src/features/barn/BarnInside.tsx:88-118 | when the cached ids are the sorted ids of the current collection and the layout was built from them and that collection (as after the first render, or after a render that changed the count), the barn shows every animal once, in sorted order, with its current record |
| Barn.CountKeyMissesSwap | src/features/barn/BarnInside.tsx:86-98 | an update that swaps one animal for another keeps the count, so the cached ids name an animal that is gone, and a rebuilt layout gets an entry with no record |
| Barn.SwapInOneUpdate | src/features/barn/BarnInside.tsx:86-123 | through the component, such a swap leaves the cached id of the removed animal and a layout entry without a record |

## Left out

- Rendering: JSX, class-name strings, pixel styles, the background per biome, the barn image and its opacity, the feeder, the HUD switch, and the exit button's navigation. This is presentation. The validity flags and the click handler are modelled.
- The collectible components (`HumanBanner`, `SplendorFlag`, `FarmerBear`, `ToxicTuft`). Each is static markup in a detail popover, with no behaviour to state.
- React and store plumbing: `useSelector`, `useContext`, `useLayoutEffect`, scrolling into view, `useNavigate`, translations. Memoisation is modelled only as the explicit key-compare caches in `Barn.BarnInside`.
- `isValidDeal` is defined outside this file. It is a function parameter fixed at construction and not interpreted.
- `ANIMAL_HOUSE_BOUNDS`, the `ANIMALS` sizes and `hasReadGuide` are defined outside this file. They are parameters: the floor width, the Cow's `Size`, and a boolean. The floor's x, y and height only position the floor when it is drawn.
- The locale rules of `localeCompare`. Kinds are a closed enumeration, ordered by their names.
- Chickens: the barn holds only cows and sheep, so `AnimalType` has those two kinds. The component-per-kind lookup of rendering is not modelled.
- Records carry only the fields the component reads (id, kind, experience, state). Other fields would be copied into layout entries in the same way.
- A floor narrower than one Cow. The division by zero there gives `Infinity`/`NaN` in the source. `Fits` is a precondition of the layout and of `Render`.
- Floating-point arithmetic. Experience and coordinates are exact integers and reals.
- Barn.BarnInside.CloseExchange: requires that nothing is selected. The handler itself does not check this. The HUD sits under the deal dialog's modal backdrop, which takes clicks while an animal is selected. With this precondition the invariant "no deal dialog without a deal" holds.
- Barn.BarnInside.OpenGuide and Barn.BarnInside.OpenUpgrade: require that no deal is active, because their discs are drawn only then. The handlers themselves do not check it.
