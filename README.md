# Handsontable core logic in Dafny

This project models five pieces of sequential logic from the Handsontable repository and proves properties about them:

- **Selection border** (`SelectionBorder`, walkontable's `Border`). `appear` clips a `[row1, column1, row2, column2]` corner rectangle to the rendered rows and columns. It measures a box from the first and last cells, in left-to-right or right-to-left mode, and can take it from the header cells instead when whole rows or columns are selected. It then applies the 1px border adjustments, places the four strips, and decides whether and where the fill-handle corner shows. On mobile browsers it also places the selection handles. `disappear` hides all of it. Every DOM measurement is an input (a `TableView` value), and style properties are integers of CSS pixels.
- **Column freeze** (`ColumnFreeze.ManualColumnFreeze`). This is the plugin's frozen-column counter, its record of base positions, its two flags, and its visual-to-physical columns mapper. It covers freezing, unfreezing, resynchronising the mapper, the `modifyCol`/`unmodifyCol` translations, and the guard against moves into or out of the frozen area. The mapper is modelled as `ArrayMapping.ArrayMapper`, with the behaviour the mixin's unit tests assert.
- **Filter multiple select** (`MultipleSelect`). Items are `{value, checked}` objects. The model covers the value list built from them, the all-selected test, the search filter, the select-all and clear-all loops, and `valueToItems`/`itemsToValue`.
- **Vue 3 wrapper helpers** (`VueHelpers`). This part covers `rewriteSettings`, `filterPassedProps` with its unassigned sentinel, and `prepareSettings` with its override order, exclusion list and change detection. It also covers `findVNodeByType` and `getHotColumnComponents`.
- **Global meta and docs redirects** (`GlobalMetaLayer`, `NginxRedirects`). These are the global meta layer with its `fixedColumnsLeft` to `fixedColumnsStart` alias, and the documentation build's slash de-duplication and nginx `rewrite` rule.

JavaScript values that the code inspects are modelled as `JsValues.JsValue`. This covers `undefined`, `null`, the unassigned `Symbol`, booleans, numbers, strings, arrays, and objects with their own and inherited properties. Truthiness follows the language.

## Model

| member | source | states |
|---|---|---|
| SelectionBorder.FirstSourceIn | handsontable/src/3rdparty/walkontable/src/border.js:378-387 | the first rendered source index in the range, at the earliest position holding one; none exactly when no rendered index is in range |
| SelectionBorder.LastSourceIn | handsontable/src/3rdparty/walkontable/src/border.js:389-396 | the last rendered source index in the range, with no later position in range; none exactly when no rendered index is in range |
| SelectionBorder.ScanFirst | handsontable/src/3rdparty/walkontable/src/border.js:378-387 | the forward scan with early break finds exactly `FirstSourceIn` |
| SelectionBorder.ScanLast | handsontable/src/3rdparty/walkontable/src/border.js:389-396 | the backward scan with early break finds exactly `LastSourceIn` |
| SelectionBorder.ClipToRendered | handsontable/src/3rdparty/walkontable/src/border.js:376-421 | nothing is left, so the border disappears, exactly when no rendered row or no rendered column lies in the range |
| SelectionBorder.ClipInsideRange | handsontable/src/3rdparty/walkontable/src/border.js:376-416 | the clipped rows and columns lie within the corners, and the first rendered row (column) is rendered no later than the last |
| SelectionBorder.FirstBeforeLast | handsontable/src/3rdparty/walkontable/src/border.js:378-396 | when a first in-range index exists, a last one exists at the same or a later rendered position |
| SelectionBorder.ScansFindEnds | handsontable/src/3rdparty/walkontable/src/border.js:376-396 | both scans stop at the ends of the rendered indexes exactly when the range holds both ends |
| SelectionBorder.EntireColumnSelectedIff | handsontable/src/3rdparty/walkontable/src/border.js:591-594 | `isEntireColumnSelected` holds for the clipped rows exactly when the requested rows take in the first and the last rendered row |
| SelectionBorder.EntireRowSelectedIff | handsontable/src/3rdparty/walkontable/src/border.js:604-607 | `isEntireRowSelected` holds for the clipped columns exactly when the requested columns take in the first and the last rendered column |
| SelectionBorder.RtlInlineIgnoresWindow | handsontable/src/3rdparty/walkontable/src/border.js:437-443 | right to left, the inline start and width do not depend on the window's inner width, though the source measures through it |
| SelectionBorder.CellInline | handsontable/src/3rdparty/walkontable/src/border.js:437-447 | the inline start is the gap from the table's start edge to the first cell's start edge less one, in both reading directions (right to left, from the table's right edge to the cell's right edge); the span then ends on the last cell's far edge (its right edge left to right, its left edge right to left), and a single cell spans its outer width |
| SelectionBorder.DimensionsFromHeader | handsontable/src/3rdparty/walkontable/src/border.js:620-672 | a result exactly when the root has the selection class and both headers exist at level `columnHeaders.length - headerIndex`; it is the start header, `startPos - containerPos - 1`, and `endPos + endSize - startPos` (along `top` for rows, `left` for columns) |
| SelectionBorder.Measured | handsontable/src/3rdparty/walkontable/src/border.js:423-476 | cell-based box (top, inline start, width, height) unless the range covers the first to last rendered rows (columns) and the headers answer, in which case the header values replace it; the anchor for border widths is the last header used, else the first cell |
| SelectionBorder.Inset | handsontable/src/3rdparty/walkontable/src/border.js:478-487 | with a border the position moves in by one and the size becomes `size - 1` or 0, never negative, keeping the far edge when the size is positive; without one nothing changes |
| SelectionBorder.Placed | handsontable/src/3rdparty/walkontable/src/border.js:478-487 | after both adjustments the box's far edges are where they were measured, and its near edges moved in by at most one pixel |
| SelectionBorder.WithStrips | handsontable/src/3rdparty/walkontable/src/border.js:489-511 | the top and start strips sit at the box's corner; the bottom strip is `height - floor(width/2)` lower and the end strip `width - floor(width/2)` further along and one pixel taller; all four show, corner and handles untouched |
| SelectionBorder.IsPartRange | handsontable/src/3rdparty/walkontable/src/border.js:291-301 | true exactly when an area range exists and the cell is not its `to` corner |
| SelectionBorder.CornerAfter | handsontable/src/3rdparty/walkontable/src/border.js:513-576 | the corner is hidden exactly on mobile, with a falsy `cornerVisible` or when the checked cell is part of a range; shown, it sits 4px before the box's far corner, 6px on the side clamped at the last column or row, and loses that side's border |
| SelectionBorder.CornerBottomBorderStaysZero | handsontable/src/3rdparty/walkontable/src/border.js:525-573 | `appear` never restores a corner bottom border once it was set to 0 |
| SelectionBorder.HandlesAfter | handsontable/src/3rdparty/walkontable/src/border.js:311-356 | handles at 11px before the box and at its far corner, the top hit area 30px before the box on both axes, the bottom hit area 10px before the far corner on both axes; a `cornerVisible` of `true` throws after the positions are written, leaving every display and raise flag as it was; otherwise the top pair shows iff the callback answers true, the bottom pair also needs the cell not to be part of a range, and the top pair is raised on the fixed row or column |
| SelectionBorder.Hidden | handsontable/src/3rdparty/walkontable/src/border.js:743-754 | all four strips and the corner are hidden, on mobile the top and bottom handles too, the hit areas never |
| SelectionBorder.Appeared | handsontable/src/3rdparty/walkontable/src/border.js:363-581 | `appear` disappears exactly when nothing of the range is rendered; otherwise the strips show at the placed box, the corner shows iff its rule allows, the handles change only on mobile and a type error only comes from `cornerVisible === true` there |
| SelectionBorder.Border.constructor | handsontable/src/3rdparty/walkontable/src/border.js:28-63 | a new border has the mouse up, is enabled, has everything hidden and a 6px corner |
| SelectionBorder.Border.OnMouseDown | handsontable/src/3rdparty/walkontable/src/border.js:87-89 | sets the mouse-down flag, nothing else |
| SelectionBorder.Border.OnMouseUp | handsontable/src/3rdparty/walkontable/src/border.js:96-98 | clears the mouse-down flag, nothing else |
| SelectionBorder.Border.Disappear | handsontable/src/3rdparty/walkontable/src/border.js:743-754 | the styles become `Hidden` of the old ones |
| SelectionBorder.Border.Appear | handsontable/src/3rdparty/walkontable/src/border.js:363-581 | nothing changes on a disabled border; otherwise the styles and outcome are those of `Appeared` on the old styles |
| ArrayMapping.Identity | test/unit/mixins/arrayMapper.spec.js:7 | `createMap(n)` holds `0..n-1` at positions `0..n-1` |
| ArrayMapping.MaxBounds | test/unit/mixins/arrayMapper.spec.js:5-18 | the maximum bounds every entry and is reached by one, unless the map is empty |
| ArrayMapping.ValueAt | test/unit/mixins/arrayMapper.spec.js:11-17 | the entry at an in-range position, none outside |
| ArrayMapping.IndexOf | test/unit/mixins/arrayMapper.spec.js:84-101 | the first position holding a value, none when absent |
| ArrayMapping.LookupsInverse | test/unit/mixins/arrayMapper.spec.js:84-101 | on a mapping without duplicates, index-of-value undoes value-at-index |
| ArrayMapping.InsertedEntry | test/unit/mixins/arrayMapper.spec.js:5-18 | after insertion, positions before `at` keep their entry, the next `count` hold `max + 1`, `max + 2`, …, and later positions hold the old entry `count` places earlier |
| ArrayMapping.Inserted | test/unit/mixins/arrayMapper.spec.js:5-18 | `insertItems` grows the map by `count`; the content of each position is stated by `InsertedEntry` |
| ArrayMapping.Removed | test/unit/mixins/arrayMapper.spec.js:22-39 | the removed items are the spliced slice, nothing past the end |
| ArrayMapping.Remaining | test/unit/mixins/arrayMapper.spec.js:22-39 | removed and remaining together have the map's length |
| ArrayMapping.RemainingEntry | test/unit/mixins/arrayMapper.spec.js:22-39 | after removal, positions before `at` keep their entry and later positions hold the entry just past the removed block |
| ArrayMapping.RemovedAt | test/unit/mixins/arrayMapper.spec.js:22-39 | removing a set of positions keeps only existing entries and never grows the map |
| ArrayMapping.RemovedAtSurvivors | test/unit/mixins/arrayMapper.spec.js:22-39 | an entry survives exactly when it sits at some position not listed for removal |
| ArrayMapping.RemovedAtInOrder | test/unit/mixins/arrayMapper.spec.js:22-39 | the surviving entries keep their order |
| ArrayMapping.Swapped | test/unit/mixins/arrayMapper.spec.js:70-101 | swapping keeps the length and the multiset of entries |
| ArrayMapping.SwappedPlaces | test/unit/mixins/arrayMapper.spec.js:70-82 | swapping two positions exchanges their entries and leaves every other position alone |
| ArrayMapping.Shifted | test/unit/mixins/arrayMapper.spec.js:56-68 | `shiftItems(p, n)` grows the map by `n` |
| ArrayMapping.ShiftedEntry | test/unit/mixins/arrayMapper.spec.js:56-68 | after a shift, old entries at or above `p` are raised by `n`, and positions `p … p+n-1` hold `p … p+n-1` |
| ArrayMapping.Unshifted | test/unit/mixins/arrayMapper.spec.js:42-54 | `unshiftItems(p, n)` shrinks the map by the removed count |
| ArrayMapping.IdentityIsMapping | test/unit/mixins/arrayMapper.spec.js:7 | a fresh map has distinct non-negative entries |
| ArrayMapping.InsertedIsMapping | test/unit/mixins/arrayMapper.spec.js:5-18 | inserting keeps entries distinct and non-negative |
| ArrayMapping.SpliceFacts | test/unit/mixins/arrayMapper.spec.js:22-39 | removed and remaining parts are mappings and share no entry |
| ArrayMapping.RemovedAtIsMapping | test/unit/mixins/arrayMapper.spec.js:22-39 | removing positions keeps a mapping |
| ArrayMapping.SwappedIsMapping | test/unit/mixins/arrayMapper.spec.js:70-101 | swapping keeps a mapping |
| ArrayMapping.ShiftedIsMapping | test/unit/mixins/arrayMapper.spec.js:56-68 | shifting keeps a mapping |
| ArrayMapping.UnshiftedIsMapping | test/unit/mixins/arrayMapper.spec.js:42-54 | unshifting keeps a mapping |
| ArrayMapping.CountBetweenSplit | test/unit/mixins/arrayMapper.spec.js:42-54 | removed values counted in an interval split at a surviving value |
| ArrayMapping.CountBetweenBound | test/unit/mixins/arrayMapper.spec.js:42-54 | distinct removed values strictly between `lo` and `hi` number at most `hi - lo - 1` |
| ArrayMapping.CountBelowStep | test/unit/mixins/arrayMapper.spec.js:42-54 | removed values below `hi` are those below `lo` plus those between |
| ArrayMapping.NothingBelowZero | test/unit/mixins/arrayMapper.spec.js:42-54 | no non-negative removed value is below -1 |
| ArrayMapping.KeepAtMost | src/plugins/manualColumnFreeze/manualColumnFreeze.js:208-218 | exactly the entries not above the limit survive |
| ArrayMapping.KeepAtMostInOrder | src/plugins/manualColumnFreeze/manualColumnFreeze.js:208-218 | the surviving entries keep their order |
| ArrayMapping.RemovedAtOverLimit | src/plugins/manualColumnFreeze/manualColumnFreeze.js:208-218 | removing the positions whose entries exceed the limit equals keeping the entries at most the limit |
| ArrayMapping.MaxIs | test/unit/mixins/arrayMapper.spec.js:5-18 | the maximum is any entry no smaller than all others |
| ArrayMapping.InsertItemsScenario | test/unit/mixins/arrayMapper.spec.js:5-18 | insert 1 at 3 gives length 11 with 10 at 3; then 5 at 6 gives length 16 with 11..15 at 6..10 |
| ArrayMapping.RemoveItemsScenario | test/unit/mixins/arrayMapper.spec.js:22-39 | removing at 4 returns `[4]`, length 9; then 3 at 1 returns 1, 2, 3 and not 0, length 6 |
| ArrayMapping.ShiftItemsScenario | test/unit/mixins/arrayMapper.spec.js:56-68 | shifting 1 then 3 gives lengths 11 and 14 |
| ArrayMapping.UnshiftItemsScenario | test/unit/mixins/arrayMapper.spec.js:42-54 | unshifting 1 then 3 gives lengths 9 and 6 |
| ArrayMapping.SwapScenario | test/unit/mixins/arrayMapper.spec.js:70-82 | swaps (8,0), (3,1), (5,2) give the prefix 8, 3, 5 and keep the length |
| ArrayMapping.SwapForwardScenario | test/unit/mixins/arrayMapper.spec.js:84-95 | swaps (5,0), (8,1) move 5 and 8 to the front |
| ArrayMapping.SwapBackScenario | test/unit/mixins/arrayMapper.spec.js:96-101 | by-reference swaps (1,8), (0,5) restore positions 0, 1, 5 and 8 |
| ArrayMapping.ArrayMapper.constructor | test/unit/mixins/arrayMapper.spec.js:104-114 | a new mapper holds an empty map |
| ArrayMapping.ArrayMapper.CreateMap | test/unit/mixins/arrayMapper.spec.js:7 | the map becomes the identity of the given length |
| ArrayMapping.ArrayMapper.GetValueByIndex | src/plugins/manualColumnFreeze/manualColumnFreeze.js:255 | the entry at the index, none out of range |
| ArrayMapping.ArrayMapper.GetIndexByValue | src/plugins/manualColumnFreeze/manualColumnFreeze.js:270 | a position holding the value, none exactly when the value is absent |
| ArrayMapping.ArrayMapper.InsertItems | test/unit/mixins/arrayMapper.spec.js:5-18 | the map becomes `Inserted` of the old one and stays a mapping |
| ArrayMapping.ArrayMapper.RemoveItems | test/unit/mixins/arrayMapper.spec.js:22-39 | returns `Removed`, keeps `Remaining`, stays a mapping |
| ArrayMapping.ArrayMapper.RemoveItemsAt | src/plugins/manualColumnFreeze/manualColumnFreeze.js:218 | the listed positions are removed and the map stays a mapping |
| ArrayMapping.ArrayMapper.ShiftItems | test/unit/mixins/arrayMapper.spec.js:56-68 | the map becomes `Shifted` of the old one and stays a mapping |
| ArrayMapping.ArrayMapper.UnshiftItems | test/unit/mixins/arrayMapper.spec.js:42-54 | the map becomes `Unshifted` of the old one and stays a mapping |
| ArrayMapping.ArrayMapper.SwapIndexes | test/unit/mixins/arrayMapper.spec.js:70-101 | the map becomes `Swapped` of the old one and stays a mapping |
| ArrayMapping.ArrayMapper.ClearMap | test/unit/mixins/arrayMapper.spec.js:104-114 | the map becomes empty |
| ColumnFreeze.ManualColumnFreeze.constructor | src/plugins/manualColumnFreeze/manualColumnFreeze.js:19-38 | no base positions, both flags false, an empty fresh mapper |
| ColumnFreeze.ManualColumnFreeze.DisablePlugin | src/plugins/manualColumnFreeze/manualColumnFreeze.js:69-78 | both flags reset and the mapper cleared; counter and base positions untouched |
| ColumnFreeze.ManualColumnFreeze.FreezeColumn | src/plugins/manualColumnFreeze/manualColumnFreeze.js:95-116 | marks first use; when all columns are fixed or the column is already fixed nothing else changes; otherwise records the base position, increments the counter by one, sets `moveByFreeze` and swaps the column into the last fixed position |
| ColumnFreeze.ManualColumnFreeze.GetBestColumnReturnPosition | src/plugins/manualColumnFreeze/manualColumnFreeze.js:163-189 | the column's base position is consumed; the result is the position before the first mapped value not below the target (a recorded base, else the column's own mapping), or divergence when the scan runs past the map |
| ColumnFreeze.ManualColumnFreeze.UnfreezeColumn | src/plugins/manualColumnFreeze/manualColumnFreeze.js:123-155 | marks first use; a column outside the fixed area changes nothing else and yields no scan result (the source returns nothing on every path; the result only exposes the scan's outcome); otherwise the counter drops by one, the base position is consumed, `moveByFreeze` is set and the column is swapped by reference to its return position |
| ColumnFreeze.ManualColumnFreeze.UpdateColumnsMapper | src/plugins/manualColumnFreeze/manualColumnFreeze.js:196-220 | an empty mapper gets the identity of `countCols` (or `startCols`), a shorter one gets fresh columns appended, a longer one keeps exactly the entries up to `countCols - 1` |
| ColumnFreeze.ManualColumnFreeze.OnModifyCol | src/plugins/manualColumnFreeze/manualColumnFreeze.js:252-260 | the mapped column, or the input when the request comes from the plugin itself or the mapper has no entry |
| ColumnFreeze.ManualColumnFreeze.OnUnmodifyCol | src/plugins/manualColumnFreeze/manualColumnFreeze.js:269-273 | the position holding the column, or the input when none does |
| ColumnFreeze.ManualColumnFreeze.ModifyThenUnmodify | src/plugins/manualColumnFreeze/manualColumnFreeze.js:252-273 | unmodifying a modified in-range column gives it back |
| ColumnFreeze.ManualColumnFreeze.UnmodifyThenModify | src/plugins/manualColumnFreeze/manualColumnFreeze.js:252-273 | modifying an unmodified mapped column gives it back |
| ColumnFreeze.ManualColumnFreeze.AnyInFrozenArea | src/plugins/manualColumnFreeze/manualColumnFreeze.js:289-296 | true exactly when some moved column lies in the frozen area |
| ColumnFreeze.ManualColumnFreeze.OnBeforeColumnMove | src/plugins/manualColumnFreeze/manualColumnFreeze.js:282-306 | the move is refused exactly after first use, when not caused by a freeze, and when the target or a moved column is in the frozen area; `moveByFreeze` is cleared |
| ColumnFreeze.BasePosition | src/plugins/manualColumnFreeze/manualColumnFreeze.js:169-178 | the recorded base position of the column, none when unrecorded |
| ColumnFreeze.ReturnStart | src/plugins/manualColumnFreeze/manualColumnFreeze.js:141-152 | with more than one fixed column left and a return column from 1, or one left and a return column of 0, the target lies past the fixed columns (for the latter, at them when the column is unmapped); with none left and no return column it is not negative; otherwise it is the position after the return column |
| ColumnFreeze.FreezeIncreasesFixed | src/plugins/manualColumnFreeze/test/manualColumnFreeze.e2e.js:16-25 | freezing column 4 of 10 gives one fixed column |
| ColumnFreeze.FreezeMovesColumn | src/plugins/manualColumnFreeze/test/manualColumnFreeze.e2e.js:27-38 | freezing column 5 of 10 puts 5 at position 0 |
| ColumnFreeze.UnfreezeDecreasesFixed | src/plugins/manualColumnFreeze/test/manualColumnFreeze.e2e.js:42-52 | unfreezing the only fixed column gives zero fixed columns |
| ColumnFreeze.UnfreezeLeavesFixedArea | src/plugins/manualColumnFreeze/test/manualColumnFreeze.e2e.js:54-69 | unfreezing column 0 of 3 fixed leaves two fixed and moves column 0 out of the fixed area |
| MultipleSelect.Item.constructor | handsontable/src/plugins/filters/ui/multipleSelect.js:350-360 | an item holds its value and checked flag |
| MultipleSelect.ItemsBox.constructor | handsontable/src/plugins/filters/ui/multipleSelect.js:171-189 | the box holds the given source data |
| MultipleSelect.ItemsBox.LoadData | handsontable/src/plugins/filters/ui/multipleSelect.js:91-97 | the box's source data becomes the given rows |
| MultipleSelect.CheckedValues | handsontable/src/plugins/filters/ui/multipleSelect.js:350-360 | the values of checked items, never more than the items |
| MultipleSelect.Values | handsontable/src/plugins/filters/ui/multipleSelect.js:350-360 | every item's value, in order |
| MultipleSelect.CheckedValuesAll | handsontable/src/plugins/filters/ui/multipleSelect.js:140-142 | as many values as items exactly when every item is checked, and then all values in order |
| MultipleSelect.CheckedValuesNone | handsontable/src/plugins/filters/ui/multipleSelect.js:350-360 | no checked item gives no value |
| MultipleSelect.CheckedValuesFromChecked | handsontable/src/plugins/filters/ui/multipleSelect.js:350-360 | the j-th value comes from a checked item at position j or later |
| MultipleSelect.ItemsToValue | handsontable/src/plugins/filters/ui/multipleSelect.js:350-360 | the loop collects exactly `CheckedValues` |
| MultipleSelect.ValueToItems | handsontable/src/plugins/filters/ui/multipleSelect.js:334-342 | the same items, each checked exactly when the assertion holds of its value |
| MultipleSelect.Matching | handsontable/src/plugins/filters/ui/multipleSelect.js:261-264 | kept items are items whose lowercased text contains the query, and every such item is kept |
| MultipleSelect.MatchingEmptyQuery | handsontable/src/plugins/filters/ui/multipleSelect.js:259-264 | the empty query keeps every item |
| MultipleSelect.MatchingIsSubsequence | handsontable/src/plugins/filters/ui/multipleSelect.js:261-264 | the kept items are in their original order |
| MultipleSelect.Filtered | handsontable/src/plugins/filters/ui/multipleSelect.js:255-266 | what `onInput` loads equals filtering by the lowercased query; the empty-query shortcut gives the same rows |
| MultipleSelect.MarkAll | handsontable/src/plugins/filters/ui/multipleSelect.js:292-322 | every row gets the flag and one change per row, in row order |
| MultipleSelect.MultipleSelectUI.constructor | handsontable/src/plugins/filters/ui/multipleSelect.js:29-74 | no items and no items box yet |
| MultipleSelect.MultipleSelectUI.SetItems | handsontable/src/plugins/filters/ui/multipleSelect.js:91-97 | items replaced wholesale and loaded into the box when there is one |
| MultipleSelect.MultipleSelectUI.GetItems | handsontable/src/plugins/filters/ui/multipleSelect.js:122-124 | the items, in order |
| MultipleSelect.MultipleSelectUI.GetValue | handsontable/src/plugins/filters/ui/multipleSelect.js:131-133 | the values of the checked items, in order |
| MultipleSelect.MultipleSelectUI.IsSelectedAllValues | handsontable/src/plugins/filters/ui/multipleSelect.js:140-142 | true exactly when every item is checked |
| MultipleSelect.MultipleSelectUI.OnInput | handsontable/src/plugins/filters/ui/multipleSelect.js:255-266 | the box shows exactly the items whose lowercased text contains the lowercased query, in order |
| MultipleSelect.MultipleSelectUI.OnSelectAllClick | handsontable/src/plugins/filters/ui/multipleSelect.js:292-303 | every source row checked, one change per row |
| MultipleSelect.MultipleSelectUI.OnClearAllClick | handsontable/src/plugins/filters/ui/multipleSelect.js:311-322 | every source row unchecked, one change per row |
| MultipleSelect.MultipleSelectUI.Destroy | handsontable/src/plugins/filters/ui/multipleSelect.js:233-247 | items and box are dropped |
| MultipleSelect.SelectAllSelectsEverything | handsontable/src/plugins/filters/ui/multipleSelect.js:292-303 | after select-all over all items, the value is every item's value |
| VueHelpers.OwnProps | wrappers/vue3/src/helpers.js:29-35 | an object's own properties |
| VueHelpers.CopiedOver | wrappers/vue3/src/helpers.js:29-35 | the keys kept are exactly those the filter accepts, with their values, over the initial map |
| VueHelpers.CopyOwnWhere | wrappers/vue3/src/helpers.js:29-35 | the key loop computes exactly `CopiedOver` |
| VueHelpers.Rewritten | wrappers/vue3/src/helpers.js:17-40 | an object becomes a plain object with the same own properties, an array keeps its elements, anything else is returned as is |
| VueHelpers.RewrittenIdempotent | wrappers/vue3/src/helpers.js:17-40 | rewriting twice equals rewriting once and keeps the own properties |
| VueHelpers.RewriteSettings | wrappers/vue3/src/helpers.js:17-40 | the loops compute exactly `Rewritten` |
| VueHelpers.PassedProps | wrappers/vue3/src/helpers.js:108-124 | never the unassigned sentinel; a key appears iff it is an assigned settings-prop key or an assigned top-level key other than `settings`; top-level values win |
| VueHelpers.FilterPassedProps | wrappers/vue3/src/helpers.js:108-124 | the loops compute exactly `PassedProps` |
| VueHelpers.PreparedSettings | wrappers/vue3/src/helpers.js:133-156 | never an undefined value, and every value differs from the current setting (or is `data`) |
| VueHelpers.PreparedSettingsKeys | wrappers/vue3/src/helpers.js:133-156 | a key is kept iff a defined, changed value comes from the settings prop or from an additional prop outside the exclusion list; `id`, `settings` and `wrapperRendererCacheSize` come only from the settings prop |
| VueHelpers.UnassignedSettingsProp | wrappers/vue3/src/helpers.js:134-154 | with the sentinel as `settings` prop, exactly the changed passed props outside the exclusion list remain, with their values |
| VueHelpers.DataAlwaysPassed | wrappers/vue3/src/helpers.js:141-151 | a defined `data` prop is always kept |
| VueHelpers.Changed | wrappers/vue3/src/helpers.js:140-141 | an undefined value is never taken; for `data` or without current settings every defined value is taken; against a truthy non-object the value is compared with `undefined` |
| VueHelpers.PrepareSettings | wrappers/vue3/src/helpers.js:133-156 | the loops compute exactly `PreparedSettings` |
| VueHelpers.FindVNodeByType | wrappers/vue3/src/helpers.js:165-176 | the first slot carrying the attribute, none exactly when no slot does |
| VueHelpers.HasAttr | wrappers/vue3/src/helpers.js:169 | the truthiness chain holds exactly when `props` and `props.attrs` are objects and the attribute is defined |
| VueHelpers.HotColumnComponents | wrappers/vue3/src/helpers.js:184-187 | exactly the `HotColumn` children are kept |
| VueHelpers.HotColumnComponentsInOrder | wrappers/vue3/src/helpers.js:184-187 | the `HotColumn` children come back in their order among the children |
| VueHelpers.IsHotColumn | wrappers/vue3/src/helpers.js:185 | a child counts exactly when its type is an object named `HotColumn` |
| VueHelpers.HotColumnComponentsNone | wrappers/vue3/src/helpers.js:184-187 | with no `HotColumn` child nothing is returned |
| VueHelpers.HotColumnComponentsAll | wrappers/vue3/src/helpers.js:184-187 | with only `HotColumn` children, all of them are returned unchanged and in order |
| GlobalMetaLayer.PropertyBag.constructor | handsontable/src/dataMap/metaManager/metaLayers/globalMeta.js:52-56 | a bag holding the given properties |
| GlobalMetaLayer.TableMetaClass.constructor | handsontable/src/dataMap/metaManager/metaLayers/globalMeta.js:11-13 | a fresh class with an empty, fresh prototype |
| GlobalMetaLayer.Extended | handsontable/src/dataMap/metaManager/metaLayers/globalMeta.js:86-87 | source keys overwrite, other target keys remain |
| GlobalMetaLayer.WithStartAlias | handsontable/src/dataMap/metaManager/metaLayers/globalMeta.js:83-85 | only `fixedColumnsStart` may change, and it is truthy when `fixedColumnsLeft` is |
| GlobalMetaLayer.StartAliasChanges | handsontable/src/dataMap/metaManager/metaLayers/globalMeta.js:83-85 | the settings change exactly when `fixedColumnsLeft` is truthy and `fixedColumnsStart` is falsy |
| GlobalMetaLayer.StartAliasStable | handsontable/src/dataMap/metaManager/metaLayers/globalMeta.js:83 | a truthy `fixedColumnsStart` is never overwritten, and the alias is idempotent |
| GlobalMetaLayer.GlobalMeta.constructor | handsontable/src/dataMap/metaManager/metaLayers/globalMeta.js:40-57 | the meta is the fresh class's prototype, holding the schema with `instance` set to the table |
| GlobalMetaLayer.GlobalMeta.GetMetaConstructor | handsontable/src/dataMap/metaManager/metaLayers/globalMeta.js:64-66 | the stored class |
| GlobalMetaLayer.GlobalMeta.GetMeta | handsontable/src/dataMap/metaManager/metaLayers/globalMeta.js:73-75 | the stored meta, the class's prototype |
| GlobalMetaLayer.GlobalMeta.UpdateMeta | handsontable/src/dataMap/metaManager/metaLayers/globalMeta.js:82-88 | the caller's settings gain the alias; the meta is extended by them and then by the expanded type settings |
| GlobalMetaLayer.UpdatedMetaValues | handsontable/src/dataMap/metaManager/metaLayers/globalMeta.js:86-87 | after the update a key holds the expanded value if any, else the settings value, else the old meta value |
| NginxRedirects.DedupeSlashes | docs/.vuepress/plugins/generate-nginx-redirects/index.js:14-16 | never longer, and a non-empty path stays non-empty |
| NginxRedirects.DedupeKeepsEnds | docs/.vuepress/plugins/generate-nginx-redirects/index.js:14-16 | the first and the last character survive |
| NginxRedirects.DedupeDrop | docs/.vuepress/plugins/generate-nginx-redirects/index.js:14-16 | a slash followed by a slash is dropped |
| NginxRedirects.DedupeKeep | docs/.vuepress/plugins/generate-nginx-redirects/index.js:14-16 | any other leading character is kept in front of the rest's result |
| NginxRedirects.DedupeHasNoDoubleSlash | docs/.vuepress/plugins/generate-nginx-redirects/index.js:14-16 | the result never contains `//` |
| NginxRedirects.DedupeKeepsNonSlashes | docs/.vuepress/plugins/generate-nginx-redirects/index.js:14-16 | the non-slash characters are kept, in order |
| NginxRedirects.DedupeFixesClean | docs/.vuepress/plugins/generate-nginx-redirects/index.js:14-16 | a string without `//` is unchanged |
| NginxRedirects.DedupeIdempotent | docs/.vuepress/plugins/generate-nginx-redirects/index.js:14-16 | de-duplicating twice equals once |
| NginxRedirects.DedupeRun | docs/.vuepress/plugins/generate-nginx-redirects/index.js:14-16 | any run of slashes becomes one slash |
| NginxRedirects.DedupeConcat | docs/.vuepress/plugins/generate-nginx-redirects/index.js:14-16 | de-duplication distributes over a concatenation not joining two slashes |
| NginxRedirects.VersionedPath | docs/.vuepress/plugins/generate-nginx-redirects/index.js:46-47 | the path redirected from and the path redirected to both start and end with `/` |
| NginxRedirects.RedirectRule | docs/.vuepress/plugins/generate-nginx-redirects/index.js:45-50 | a rule exactly when the latest version is set, equals the current one and the page has a permalink |
| NginxRedirects.ExtendPageData | docs/.vuepress/plugins/generate-nginx-redirects/index.js:40-53 | an error is logged exactly when a version is missing; a line is appended exactly when there is a rule |
| NginxRedirects.RuleShape | docs/.vuepress/plugins/generate-nginx-redirects/index.js:45-53 | the appended line is `rewrite ^<from>?$ <to> permanent;` on a new line, both paths free of `//` |

## Left out

- The array-mapper mixin behind `ColumnsMapper` is not part of this model; only its unit tests are. `swapIndexes` is taken to exchange the two entries, with by-reference arguments resolved as values first, and this choice satisfies every asserted scenario. Its documentation describes a move (remove, then reinsert), but under a move the asserted prefix 8, 3, 5 does not come out.
- The base plugin class is not part of this model. The plugin's name (`ColumnFreeze.PluginName`), which the `modifyCol` hook compares against, is taken to be `"manualColumnFreeze"`.
- ColumnFreeze.UnfreezeLeavesFixedArea: the end-to-end test expecting positions 0..2 to read 1, 2, 0 after unfreezing column 0 of 3 is not reproduced. With the exchange swap the map becomes 3, 1, 2, 0 (column 0 leaves the fixed area), so only that weaker fact is stated.
- ColumnFreeze.ManualColumnFreeze.GetBestColumnReturnPosition: when the scan walks past the end of the map, the source's loop never ends; the model returns a `Diverges` outcome there instead of running forever.
- JavaScript's `null < x` and `null + null` in the return-position scan are modelled as 0 through `NumOr0`.
- `frozenColumnsBasePositions`, an array indexed by column position in the source, is a map here; reading a missing entry gives `undefined` in both.
- Every DOM measurement in the selection border is an integer: fractional offsets, `parseInt` truncation of fractional style values, and border widths below 1px are not modelled.
- The `onModifyGetCellCoords` hook result is taken to be either absent or an array whose third and fourth entries (indices 2 and 3) are read; an array with fewer than four entries is not modelled.
- Border element creation and styling (`createBorders`, `createMultipleSelectorHandles`, `changeBorderStyle`, `toggleHiddenClass`), the border constructor without settings, listener registration, `onMouseEnter` and `destroy` are DOM plumbing. SelectionBorder.Border.constructor starts the style positions at 0 where the source leaves them unset.
- `getTrimmingContainer`, `isMobileBrowser`, `getComputedStyle`, `offset`, `outerWidth`/`outerHeight` and `innerWidth`/`innerHeight` are inputs, not models.
- MultipleSelect's `build`, `reset`, `update`, `registerHooks`, `setLocale`/`getLocale` and `onInputKeyDown` are UI and event plumbing. `toLocaleLowerCase` is a parameter `lower`, and `String(value)` is a parameter `text`.
- `createArrayAssertion` is a predicate parameter of `valueToItems`. The items box's `setSourceDataAtCell` batch is returned as the list of changes rather than sent to a nested table.
- Vue's `propFactory`, `createVueComponent` and `preventInternalEditWatch` are framework glue. `simpleEqual` (`JSON.stringify` comparison) is a parameter, and a `settings` prop that is an array or string is treated as having no own properties.
- `expandMetaType` and `metaSchemaFactory` are parameters of the global meta layer, and `extend` is modelled as a map overwrite of own properties.
- The redirect plugin's file writes, its header line and its logger are reduced to the lines appended and whether an error is logged.
