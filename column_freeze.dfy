/**
 * The manual column freeze plugin: moving a column into the fixed (frozen)
 * prefix of the table and back, through the plugin's own visual → physical
 * column map.
 */
module ColumnFreeze {
  import opened Wrappers
  import opened ArrayMapping

  /**
   * The plugin's registered name; the `modifyCol` hook ignores calls made on
   * its behalf. The base plugin class that sets it is not part of this model,
   * so the exact string is taken to be the plugin's key.
   */
  const PluginName: string := "manualColumnFreeze"

  /** JavaScript's `null` used as a number (in `<`, `<=` and `+`) is 0. */
  function NumOr0(v: Option<int>): int {
    match v
    case Some(x) => x
    case None => 0
  }

  /** What `getBestColumnReturnPosition` comes to: a position, or a scan that never ends. */
  datatype ReturnScan = Position(pos: int) | Diverges

  class ManualColumnFreeze {
    /** `settings.fixedColumnsLeft`: the number of frozen leading columns. */
    var fixedColumnsLeft: int
    /** `frozenColumnsBasePositions`: for a frozen slot, the visual column it was frozen from. */
    var frozenColumnsBasePositions: map<int, int>
    /** Private flag: the next column move is the one a freeze or unfreeze asked for. */
    var moveByFreeze: bool
    /** Private flag: freeze or unfreeze has been used at least once. */
    var afterFirstUse: bool
    /** `columnsMapper`: visual column → physical column. */
    const columnsMapper: ArrayMapper

    ghost predicate Valid()
      reads this, columnsMapper
    {
      columnsMapper.Valid()
    }

    constructor (fixedColumnsLeft: int)
      ensures Valid() && fresh(columnsMapper)
      ensures this.fixedColumnsLeft == fixedColumnsLeft
      ensures frozenColumnsBasePositions == map[] && columnsMapper.arrayMap == []
      ensures !moveByFreeze && !afterFirstUse
    {
      this.fixedColumnsLeft := fixedColumnsLeft;
      frozenColumnsBasePositions := map[];
      moveByFreeze, afterFirstUse := false, false;
      columnsMapper := new ArrayMapper();
    }

    /** `disablePlugin`: both flags off and the map emptied. */
    method DisablePlugin()
      requires Valid()
      modifies this, columnsMapper
      ensures Valid()
      ensures !afterFirstUse && !moveByFreeze && columnsMapper.arrayMap == []
      ensures fixedColumnsLeft == old(fixedColumnsLeft)
      ensures frozenColumnsBasePositions == old(frozenColumnsBasePositions)
    {
      afterFirstUse := false;
      moveByFreeze := false;
      columnsMapper.ClearMap();
    }

    /**
     * `freezeColumn(column)`: unless every column is already fixed or `column` is
     * inside the fixed prefix, remember where the column came from, grow the
     * prefix by one and swap the column into its last slot.
     */
    method FreezeColumn(column: int, countCols: int)
      requires Valid()
      modifies this, columnsMapper
      ensures Valid() && afterFirstUse
      ensures var skipped := old(fixedColumnsLeft) == countCols || column <= old(fixedColumnsLeft) - 1;
        if skipped then
          && fixedColumnsLeft == old(fixedColumnsLeft)
          && frozenColumnsBasePositions == old(frozenColumnsBasePositions)
          && moveByFreeze == old(moveByFreeze)
          && columnsMapper.arrayMap == old(columnsMapper.arrayMap)
        else
          && fixedColumnsLeft == old(fixedColumnsLeft) + 1
          && frozenColumnsBasePositions == old(frozenColumnsBasePositions)[old(fixedColumnsLeft) := column]
          && moveByFreeze
          && columnsMapper.arrayMap == Swapped(old(columnsMapper.arrayMap), column, fixedColumnsLeft - 1, false)
          && (0 <= old(fixedColumnsLeft) && column < |old(columnsMapper.arrayMap)| ==>
                columnsMapper.arrayMap[old(fixedColumnsLeft)] == old(columnsMapper.arrayMap)[column])
    {
      if !afterFirstUse {
        afterFirstUse := true;
      }
      if fixedColumnsLeft == countCols || column <= fixedColumnsLeft - 1 {
        return;
      }
      moveByFreeze := true;
      frozenColumnsBasePositions := frozenColumnsBasePositions[fixedColumnsLeft := column];
      fixedColumnsLeft := fixedColumnsLeft + 1;
      var start := fixedColumnsLeft - 1;
      ghost var before := columnsMapper.arrayMap;
      columnsMapper.SwapIndexes(column, start);
      if 0 <= start && column < |before| {
        SwappedPlaces(before, column, start);
      }
    }

    /**
     * `getBestColumnReturnPosition(column)`: scan the map from the first unfixed
     * position for the first entry that reaches the column's original index and
     * answer the position before it. A column frozen by this plugin consumes its
     * remembered base position and compares strictly; the answer is then the
     * entry found, minus one.
     *
     * A missing entry reads as `null`, which compares as 0; so when the scan runs
     * past the end of the map while 0 still passes the test, the source loops
     * forever: that is `Diverges`.
     */
    method GetBestColumnReturnPosition(column: int) returns (r: ReturnScan)
      requires Valid() && fixedColumnsLeft >= 0
      modifies this`frozenColumnsBasePositions
      ensures frozenColumnsBasePositions == old(frozenColumnsBasePositions) - {column}
      ensures IsBestReturn(columnsMapper.arrayMap, fixedColumnsLeft, BasePosition(old(frozenColumnsBasePositions), column), column, r)
    {
      var i := fixedColumnsLeft;
      var j := columnsMapper.GetValueByIndex(i);
      ghost var m := columnsMapper.arrayMap;
      if column !in frozenColumnsBasePositions {
        var initialCol := columnsMapper.GetValueByIndex(column);
        while NumOr0(j) < NumOr0(initialCol)
          invariant fixedColumnsLeft <= i && j == ValueAt(m, i)
          invariant forall k :: fixedColumnsLeft <= k < i ==> NumOr0(ValueAt(m, k)) < NumOr0(initialCol)
          decreases |m| - i
        {
          if j.None? {
            // past the end: `j` stays null and the source never leaves the loop
            assert forall k :: fixedColumnsLeft <= k < |m| ==> ValueAt(m, k) == Some(m[k]);
            return Diverges;
          }
          i := i + 1;
          j := columnsMapper.GetValueByIndex(i);
        }
      } else {
        var initialCol := frozenColumnsBasePositions[column];
        frozenColumnsBasePositions := frozenColumnsBasePositions - {column};
        while NumOr0(j) <= initialCol
          invariant fixedColumnsLeft <= i && j == ValueAt(m, i)
          invariant forall k :: fixedColumnsLeft <= k < i ==> NumOr0(ValueAt(m, k)) <= initialCol
          decreases |m| - i
        {
          if j.None? {
            // past the end: `j` stays null and the source never leaves the loop
            assert forall k :: fixedColumnsLeft <= k < |m| ==> ValueAt(m, k) == Some(m[k]);
            return Diverges;
          }
          i := i + 1;
          j := columnsMapper.GetValueByIndex(i);
        }
        i := NumOr0(j);
      }
      return Position(i - 1);
    }

    /**
     * `unfreezeColumn(column)`: unless there is no fixed column or `column` is
     * outside the fixed prefix, shrink the prefix by one and swap the column,
     * by reference, with the one at the best return position. The source returns
     * nothing; the result here only exposes the scan's outcome to the contract:
     * `None` when the call is skipped, and on `Diverges` (where the source never
     * returns) the model stops before the swap.
     */
    method UnfreezeColumn(column: int) returns (r: Option<ReturnScan>)
      requires Valid()
      modifies this, columnsMapper
      ensures Valid() && afterFirstUse
      ensures var skipped := old(fixedColumnsLeft) <= 0 || column > old(fixedColumnsLeft) - 1;
        if skipped then
          && r == None
          && fixedColumnsLeft == old(fixedColumnsLeft)
          && frozenColumnsBasePositions == old(frozenColumnsBasePositions)
          && moveByFreeze == old(moveByFreeze)
          && columnsMapper.arrayMap == old(columnsMapper.arrayMap)
        else
          && fixedColumnsLeft == old(fixedColumnsLeft) - 1
          && frozenColumnsBasePositions == old(frozenColumnsBasePositions) - {column}
          && moveByFreeze
          && r.Some?
          && IsBestReturn(old(columnsMapper.arrayMap), fixedColumnsLeft, BasePosition(old(frozenColumnsBasePositions), column), column, r.value)
          && match r.value
             case Diverges => columnsMapper.arrayMap == old(columnsMapper.arrayMap)
             case Position(returnCol) =>
               var start := ReturnStart(old(columnsMapper.arrayMap), column, fixedColumnsLeft, returnCol);
               columnsMapper.arrayMap == Swapped(old(columnsMapper.arrayMap), column, start, true)
    {
      if !afterFirstUse {
        afterFirstUse := true;
      }
      if fixedColumnsLeft <= 0 || column > fixedColumnsLeft - 1 {
        return None;
      }
      moveByFreeze := true;
      fixedColumnsLeft := fixedColumnsLeft - 1;
      var scan := GetBestColumnReturnPosition(column);
      r := Some(scan);
      if scan.Diverges? {
        return;
      }
      var start := ReturnStart(columnsMapper.arrayMap, column, fixedColumnsLeft, scan.pos);
      columnsMapper.SwapIndexes(column, start, true);
    }

    /**
     * `updateColumnsMapper`, run after data is loaded: build the identity map on
     * first use, append fresh indexes when columns were added, and drop the
     * entries past the last column when columns were removed.
     */
    method UpdateColumnsMapper(countSourceCols: nat, startCols: nat)
      requires Valid()
      modifies columnsMapper
      ensures Valid()
      ensures var m := old(columnsMapper.arrayMap);
        columnsMapper.arrayMap ==
          if |m| == 0 then Identity(if countSourceCols != 0 then countSourceCols else startCols)
          else if |m| < countSourceCols then Inserted(m, |m|, countSourceCols - |m|)
          else if |m| > countSourceCols then KeepAtMost(m, countSourceCols - 1)
          else m
    {
      var len := |columnsMapper.arrayMap|;
      if len == 0 {
        columnsMapper.CreateMap(if countSourceCols != 0 then countSourceCols else startCols);
      } else if len < countSourceCols {
        columnsMapper.InsertItems(len, countSourceCols - len);
      } else if len > countSourceCols {
        var maxIndex := countSourceCols - 1;
        var columnsToRemove: seq<int> := [];
        var m := columnsMapper.arrayMap;
        for index := 0 to |m|
          invariant forall k :: k in columnsToRemove <==> 0 <= k < index && m[k] > maxIndex
        {
          if m[index] > maxIndex {
            columnsToRemove := columnsToRemove + [index];
          }
        }
        RemovedAtOverLimit(m, columnsToRemove, 0, maxIndex);
        columnsMapper.RemoveItemsAt(columnsToRemove);
      }
    }

    /**
     * `modifyCol` hook: visual → physical through the map, except for the
     * plugin's own calls and for columns the map does not cover.
     */
    function OnModifyCol(column: int, source: string): (r: int)
      reads this, columnsMapper
      ensures source == PluginName || !(0 <= column < |columnsMapper.arrayMap|) ==> r == column
      ensures source != PluginName && 0 <= column < |columnsMapper.arrayMap| ==> r == columnsMapper.arrayMap[column]
    {
      if source != PluginName then
        match columnsMapper.GetValueByIndex(column)
        case None => column
        case Some(physical) => physical
      else column
    }

    /** `unmodifyCol` hook: physical → visual, the column itself when the map does not hold it. */
    function OnUnmodifyCol(column: int): (r: int)
      reads this, columnsMapper
      ensures column in columnsMapper.arrayMap ==>
        0 <= r < |columnsMapper.arrayMap| && columnsMapper.arrayMap[r] == column
      ensures column !in columnsMapper.arrayMap ==> r == column
    {
      match columnsMapper.GetIndexByValue(column)
      case None => column
      case Some(visual) => visual
    }

    /** A mapped visual column survives the round trip through both hooks. */
    lemma ModifyThenUnmodify(column: int, source: string)
      requires Valid() && 0 <= column < |columnsMapper.arrayMap| && source != PluginName
      ensures OnUnmodifyCol(OnModifyCol(column, source)) == column
    {
      LookupsInverse(columnsMapper.arrayMap, column);
    }

    /** A mapped physical column survives the round trip the other way. */
    lemma UnmodifyThenModify(column: int, source: string)
      requires Valid() && column in columnsMapper.arrayMap && source != PluginName
      ensures OnModifyCol(OnUnmodifyCol(column), source) == column
    {
    }

    /** The loop of `onBeforeColumnMove`: does any moved column start inside the fixed area? */
    method AnyInFrozenArea(columns: seq<int>, frozenLen: int) returns (found: bool)
      ensures found <==> exists k :: 0 <= k < |columns| && columns[k] < frozenLen
    {
      found := false;
      for index := 0 to |columns|
        invariant !found && forall k :: 0 <= k < index ==> columns[k] >= frozenLen
      {
        if columns[index] < frozenLen {
          return true;
        }
      }
    }

    /**
     * `beforeColumnMove` hook: once freezing has been used, a move that is not
     * the plugin's own is refused (`false`) when it starts in or targets the
     * fixed area; the plugin's own move flag is consumed.
     */
    method OnBeforeColumnMove(columns: seq<int>, target: int) returns (refused: bool)
      modifies this
      ensures refused <==>
        && afterFirstUse && !old(moveByFreeze)
        && (target < fixedColumnsLeft || exists k :: 0 <= k < |columns| && columns[k] < fixedColumnsLeft)
      ensures !moveByFreeze
      ensures fixedColumnsLeft == old(fixedColumnsLeft) && afterFirstUse == old(afterFirstUse)
      ensures frozenColumnsBasePositions == old(frozenColumnsBasePositions)
    {
      refused := false;
      if afterFirstUse && !moveByFreeze {
        var frozenLen := fixedColumnsLeft;
        var disallowMoving := target < frozenLen;
        if !disallowMoving {
          disallowMoving := AnyInFrozenArea(columns, frozenLen);
        }
        if disallowMoving {
          return true;
        }
      }
      if moveByFreeze {
        moveByFreeze := false;
      }
    }
  }

  /** The remembered base position of a column, `null` when it has none. */
  function BasePosition(bases: map<int, int>, column: int): (r: Option<int>)
    ensures r.Some? <==> column in bases
    ensures r.Some? ==> r.value == bases[column]
  {
    if column in bases then Some(bases[column]) else None
  }

  /**
   * What the scan of `getBestColumnReturnPosition` answers, on map `m` from the
   * first unfixed position `start`. Without a base position, the answer is the
   * position before the first entry that reaches the column's current physical
   * index; with one, it is one less than the first entry above the base
   * position. A missing entry counts as 0; when that still passes the test past
   * the end of the map, the scan never ends.
   */
  ghost predicate IsBestReturn(m: seq<int>, start: int, base: Option<int>, column: int, r: ReturnScan) {
    match base
    case None =>
      var target := NumOr0(ValueAt(m, column));
      (match r
       case Diverges =>
         0 < target && forall k :: start <= k < |m| ==> NumOr0(ValueAt(m, k)) < target
       case Position(p) =>
         && start <= p + 1
         && (forall k :: start <= k <= p ==> NumOr0(ValueAt(m, k)) < target)
         && NumOr0(ValueAt(m, p + 1)) >= target)
    case Some(target) =>
      match r
      case Diverges =>
        0 <= target && forall k :: start <= k < |m| ==> NumOr0(ValueAt(m, k)) <= target
      case Position(p) =>
        exists q ::
          && start <= q
          && (forall k :: start <= k < q ==> NumOr0(ValueAt(m, k)) <= target)
          && NumOr0(ValueAt(m, q)) > target
          && p == NumOr0(ValueAt(m, q)) - 1
  }

  /**
   * Where `unfreezeColumn` sends the column, given the scan's answer (a `null`
   * lookup adds 0). In the three special cases the target lies outside the
   * fixed columns that remain; otherwise it is the position after the scan's.
   */
  function ReturnStart(m: seq<int>, column: int, fixedColumnsLeft: int, returnCol: int): (start: int)
    ensures fixedColumnsLeft > 1 && returnCol >= 1 ==> start > fixedColumnsLeft
    ensures IsMapping(m) && fixedColumnsLeft == 1 && returnCol == 0 ==>
      start >= fixedColumnsLeft && (0 <= column < |m| ==> start > fixedColumnsLeft)
    ensures IsMapping(m) && fixedColumnsLeft == 0 && returnCol < 0 ==> start >= fixedColumnsLeft
    ensures (!(fixedColumnsLeft > 1 && returnCol >= 1) && !(fixedColumnsLeft == 1 && returnCol == 0)
      && !(fixedColumnsLeft == 0 && returnCol < 0)) ==> start == returnCol + 1
  {
    if fixedColumnsLeft > 1 && returnCol >= 1 then returnCol + fixedColumnsLeft
    else if fixedColumnsLeft == 1 && returnCol == 0 then
      fixedColumnsLeft + (if ValueAt(m, column) == Some(0) then 1 else NumOr0(ValueAt(m, column)))
    else if fixedColumnsLeft == 0 && returnCol < 0 then
      NumOr0(ValueAt(m, column)) + NumOr0(IndexOf(m, column))
    else returnCol + 1
  }

  // ---------------------------------------------------------------------------
  // The plugin's end-to-end scenarios on a 10 × 10 table.

  /** `freezeColumn(4)` with no fixed column makes one column fixed. */
  method FreezeIncreasesFixed() returns (fixed: int)
    ensures fixed == 1
  {
    var plugin := new ManualColumnFreeze(0);
    plugin.UpdateColumnsMapper(10, 5);
    plugin.FreezeColumn(4, 10);
    fixed := plugin.fixedColumnsLeft;
  }

  /** `freezeColumn(5)` brings physical column 5 to visual position 0. */
  method FreezeMovesColumn() returns (first: Option<int>)
    ensures first == Some(5)
  {
    var plugin := new ManualColumnFreeze(0);
    plugin.UpdateColumnsMapper(10, 5);
    plugin.FreezeColumn(5, 10);
    first := plugin.columnsMapper.GetValueByIndex(0);
  }

  /** `unfreezeColumn(0)` with one fixed column leaves none. */
  method UnfreezeDecreasesFixed() returns (fixed: int)
    ensures fixed == 0
  {
    var plugin := new ManualColumnFreeze(1);
    plugin.UpdateColumnsMapper(10, 5);
    var r := plugin.UnfreezeColumn(0);
    fixed := plugin.fixedColumnsLeft;
  }

  /**
   * `unfreezeColumn(0)` with three fixed columns leaves two, and physical
   * column 0 ends up outside the fixed prefix.
   */
  method UnfreezeLeavesFixedArea() returns (fixed: int, position: Option<nat>)
    ensures fixed == 2
    ensures position.Some? && position.value >= fixed
  {
    var plugin := new ManualColumnFreeze(3);
    plugin.UpdateColumnsMapper(10, 5);
    ghost var m := plugin.columnsMapper.arrayMap;
    assert m == Identity(10);
    assert BasePosition(plugin.frozenColumnsBasePositions, 0) == None;
    assert ValueAt(m, 0) == Some(0) && ValueAt(m, 2) == Some(2);
    var r := plugin.UnfreezeColumn(0);
    assert IsBestReturn(m, 2, None, 0, r.value);
    assert r == Some(Position(1));
    LookupsInverse(m, 0);
    LookupsInverse(m, 3);
    assert SwapTargets(m, 0, 3, true) == Some((0, 3));
    var m2 := plugin.columnsMapper.arrayMap;
    assert m2[3] == 0;
    LookupsInverse(m2, 3);
    fixed := plugin.fixedColumnsLeft;
    position := plugin.columnsMapper.GetIndexByValue(0);
  }
}
