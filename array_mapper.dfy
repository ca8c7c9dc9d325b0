/**
 * The array-mapper mixin behind the column-freeze plugin's `ColumnsMapper`: a
 * list whose position is the visual index and whose entry is the physical index.
 *
 * The mixin's own source is not part of this model. Its operations are given the
 * concrete behaviour below, which meets every scenario of the mixin's unit
 * tests (proved as lemmas at the end of this module).
 */
module ArrayMapping {
  import opened Wrappers
  import opened Sequences

  /** No physical index appears twice. */
  ghost predicate Distinct(s: seq<int>) {
    forall i, j :: 0 <= i < j < |s| ==> s[i] != s[j]
  }

  /** A well-formed map: distinct, non-negative physical indexes. */
  ghost predicate IsMapping(s: seq<int>) {
    Distinct(s) && forall i :: 0 <= i < |s| ==> s[i] >= 0
  }

  /** `createMap(n)`: the identity map `0, 1, …, n-1`. */
  function Identity(n: nat): (r: seq<int>)
    ensures |r| == n && forall i :: 0 <= i < n ==> r[i] == i
  {
    seq(n, i => i)
  }

  /** The largest entry; -1 for the empty map, so that the next fresh index is 0. */
  function Max(s: seq<int>): int
  {
    if s == [] then -1
    else if |s| == 1 then s[0]
    else
      var m := Max(s[1..]);
      if s[0] > m then s[0] else m
  }

  /** The maximum bounds every entry and is reached by one, unless the map is empty. */
  lemma {:induction false} MaxBounds(s: seq<int>)
    ensures forall i :: 0 <= i < |s| ==> s[i] <= Max(s)
    ensures s != [] ==> exists i :: 0 <= i < |s| && s[i] == Max(s)
    decreases |s|
  {
    if |s| == 1 {
      assert s[0] == Max(s);
    } else if |s| > 1 {
      var t := s[1..];
      MaxBounds(t);
      var k :| 0 <= k < |t| && t[k] == Max(t);
      assert s[k + 1] == Max(t);
      if s[0] > Max(t) {
        assert s[0] == Max(s);
      } else {
        assert s[k + 1] == Max(s);
      }
      forall i | 1 <= i < |s| ensures s[i] <= Max(s) {
        assert s[i] == t[i - 1];
      }
    }
  }

  /** `getValueByIndex`: the entry at a position, `null` outside the map. */
  function ValueAt(s: seq<int>, i: int): (r: Option<int>)
    ensures r.Some? <==> 0 <= i < |s|
    ensures r.Some? ==> r.value == s[i]
  {
    if 0 <= i < |s| then Some(s[i]) else None
  }

  /** `getIndexByValue` (`indexOf`): the first position holding `v`, `null` when there is none. */
  function IndexOf(s: seq<int>, v: int): (r: Option<nat>)
    ensures r.Some? ==> r.value < |s| && s[r.value] == v && forall j :: 0 <= j < r.value ==> s[j] != v
    ensures r.None? ==> forall j :: 0 <= j < |s| ==> s[j] != v
  {
    if s == [] then None
    else if s[0] == v then Some(0)
    else
      match IndexOf(s[1..], v)
      case Some(k) => Some(k + 1)
      case None => None
  }

  /** In a map without duplicates the two lookups are inverse to each other. */
  lemma LookupsInverse(s: seq<int>, i: int)
    requires Distinct(s) && 0 <= i < |s|
    ensures IndexOf(s, s[i]) == Some(i)
    ensures ValueAt(s, i).Some? && IndexOf(s, ValueAt(s, i).value) == Some(i)
  {
  }

  /**
   * `insertItems(at, count)`: `count` fresh indexes, each one above the current
   * maximum and consecutive, placed from position `at` on.
   */
  function Inserted(s: seq<int>, at: nat, count: nat): (r: seq<int>)
    requires at <= |s|
    ensures |r| == |s| + count
  {
    s[..at] + FreshRun(s, count) + s[at..]
  }

  /** The `count` consecutive indexes that follow the current maximum. */
  function FreshRun(s: seq<int>, count: nat): (r: seq<int>)
    ensures |r| == count && forall k :: 0 <= k < count ==> r[k] == Max(s) + 1 + k
  {
    seq(count, k => Max(s) + 1 + k)
  }

  /** Where a splice of `count` entries from `at` ends (JavaScript's `splice` clamps it to the length). */
  function SpliceEnd(s: seq<int>, at: nat, count: nat): (e: nat)
    ensures e <= |s| && (at <= |s| ==> at <= e)
  {
    if at + count <= |s| then at + count else |s|
  }

  /** `removeItems(at, count)` returns these entries … */
  function Removed(s: seq<int>, at: nat, count: nat): (r: seq<int>)
    ensures at <= |s| ==> r == s[at..SpliceEnd(s, at, count)]
    ensures at > |s| ==> r == []
  {
    if at <= |s| then s[at..SpliceEnd(s, at, count)] else []
  }

  /** … and leaves these. */
  function Remaining(s: seq<int>, at: nat, count: nat): (r: seq<int>)
    ensures |r| + |Removed(s, at, count)| == |s|
  {
    if at <= |s| then s[..at] + s[SpliceEnd(s, at, count)..] else s
  }

  /**
   * The array form of `removeItems`: drop every position listed in `positions`;
   * `base` is the position of `s[0]` in the whole map.
   */
  function RemovedAt(s: seq<int>, positions: seq<int>, base: int): (r: seq<int>)
    ensures |r| <= |s|
    ensures forall x :: x in r ==> x in s
  {
    if s == [] then []
    else if base in positions then RemovedAt(s[1..], positions, base + 1)
    else [s[0]] + RemovedAt(s[1..], positions, base + 1)
  }

  /** The entries that survive `RemovedAt` are exactly those at positions not listed. */
  lemma {:induction false} RemovedAtSurvivors(s: seq<int>, positions: seq<int>, base: int)
    ensures forall x :: x in RemovedAt(s, positions, base) <==>
      exists k :: 0 <= k < |s| && base + k !in positions && s[k] == x
    decreases |s|
  {
    if s != [] {
      var tail := s[1..];
      RemovedAtSurvivors(tail, positions, base + 1);
      var r := RemovedAt(s, positions, base);
      var rest := RemovedAt(tail, positions, base + 1);
      assert r == (if base in positions then rest else [s[0]] + rest);
      forall x
        ensures x in r <==> exists k :: 0 <= k < |s| && base + k !in positions && s[k] == x
      {
        if x in rest {
          var k :| 0 <= k < |tail| && base + 1 + k !in positions && tail[k] == x;
          assert 0 <= k + 1 < |s| && base + (k + 1) !in positions && s[k + 1] == x;
        }
        if exists k :: 0 <= k < |s| && base + k !in positions && s[k] == x {
          var k :| 0 <= k < |s| && base + k !in positions && s[k] == x;
          if k > 0 {
            assert 0 <= k - 1 < |tail| && base + 1 + (k - 1) !in positions && tail[k - 1] == x;
          }
        }
      }
    }
  }

  /** `RemovedAt` keeps the surviving entries in their order. */
  lemma {:induction false} RemovedAtInOrder(s: seq<int>, positions: seq<int>, base: int)
    ensures IsSubsequence(RemovedAt(s, positions, base), s)
    decreases |s|
  {
    if s != [] {
      RemovedAtInOrder(s[1..], positions, base + 1);
      if base !in positions {
        var r := RemovedAt(s, positions, base);
        assert r[0] == s[0] && r[1..] == RemovedAt(s[1..], positions, base + 1);
      } else {
        SubsequenceOfTail(RemovedAt(s, positions, base), s);
      }
    }
  }

  /** The two positions `swapIndexes` exchanges: positions, or with `byReference`, the positions of two values. */
  function SwapTargets(s: seq<int>, from: int, to: int, byReference: bool): Option<(nat, nat)>
  {
    var p := if byReference then IndexOf(s, from) else if 0 <= from < |s| then Some(from as nat) else None;
    var q := if byReference then IndexOf(s, to) else if 0 <= to < |s| then Some(to as nat) else None;
    if p.Some? && q.Some? then Some((p.value, q.value)) else None
  }

  /** `swapIndexes(from, to, byReference)`: exchange the two entries; nothing changes when either is missing. */
  function Swapped(s: seq<int>, from: int, to: int, byReference: bool): (r: seq<int>)
    ensures |r| == |s| && multiset(r) == multiset(s)
  {
    match SwapTargets(s, from, to, byReference)
    case Some((p, q)) =>
      assert p < |s| && q < |s|;
      s[p := s[q]][q := s[p]]
    case None => s
  }

  /** Swapping two positions exchanges their entries and leaves every other position alone. */
  lemma SwappedPlaces(s: seq<int>, from: int, to: int)
    requires 0 <= from < |s| && 0 <= to < |s|
    ensures var r := Swapped(s, from, to, false);
      && r[to] == s[from] && r[from] == s[to]
      && forall k :: 0 <= k < |s| && k != from && k != to ==> r[k] == s[k]
  {
  }

  /**
   * `shiftItems(p, n)`: every index at or above `p` moves up by `n`, and the
   * indexes `p … p+n-1` are inserted at positions `p … p+n-1`.
   */
  function Shifted(s: seq<int>, p: nat, n: nat): (r: seq<int>)
    requires p <= |s|
    ensures |r| == |s| + n
  {
    var moved := seq(|s|, k requires 0 <= k < |s| => if s[k] >= p then s[k] + n else s[k]);
    moved[..p] + seq(n, k => p + k) + moved[p..]
  }

  /** How many of `removed` lie below `v`. */
  function CountBelow(removed: seq<int>, v: int): (c: nat)
    ensures c <= |removed|
  {
    if removed == [] then 0
    else (if removed[0] < v then 1 else 0) + CountBelow(removed[1..], v)
  }

  /**
   * `unshiftItems(p, n)`: splice out `n` entries from position `p`, then lower
   * every remaining index by the number of removed indexes below it.
   */
  function Unshifted(s: seq<int>, p: nat, n: nat): (r: seq<int>)
    ensures |r| == |Remaining(s, p, n)|
  {
    var rest := Remaining(s, p, n);
    seq(|rest|, k requires 0 <= k < |rest| => rest[k] - CountBelow(Removed(s, p, n), rest[k]))
  }

  // ---------------------------------------------------------------------------
  // Every operation keeps the map well formed.

  lemma IdentityIsMapping(n: nat)
    ensures IsMapping(Identity(n))
  {
  }

  /** Where each entry of an insertion comes from: before, fresh, or after. */
  lemma InsertedEntry(s: seq<int>, at: nat, count: nat, i: nat)
    requires at <= |s| && i < |s| + count
    ensures Inserted(s, at, count)[i] ==
      if i < at then s[i] else if i < at + count then Max(s) + 1 + (i - at) else s[i - count]
  {
    var r := Inserted(s, at, count);
    var front, added, back := s[..at], FreshRun(s, count), s[at..];
    assert r == front + added + back;
    if i < at {
      assert r[i] == front[i];
    } else if i < at + count {
      assert r[i] == added[i - at];
    } else {
      assert r[i] == back[i - at - count];
    }
  }

  /** Fresh indexes lie above every existing one, so insertion keeps the entries distinct. */
  lemma InsertedIsMapping(s: seq<int>, at: nat, count: nat)
    requires IsMapping(s) && at <= |s|
    ensures IsMapping(Inserted(s, at, count))
  {
    var r := Inserted(s, at, count);
    MaxBounds(s);
    assert Max(s) >= -1;
    forall i | 0 <= i < |r|
      ensures r[i] >= 0
    {
      InsertedEntry(s, at, count, i);
    }
    forall i, j | 0 <= i < j < |r|
      ensures r[i] != r[j]
    {
      InsertedEntry(s, at, count, i);
      InsertedEntry(s, at, count, j);
    }
  }

  /** Each remaining entry, by its position in the original map. */
  lemma RemainingEntry(s: seq<int>, at: nat, count: nat, i: nat)
    requires at <= |s| && i < |Remaining(s, at, count)|
    ensures Remaining(s, at, count)[i] == if i < at then s[i] else s[i - at + SpliceEnd(s, at, count)]
  {
    var front, back := s[..at], s[SpliceEnd(s, at, count)..];
    assert Remaining(s, at, count) == front + back;
    if i < at {
      assert (front + back)[i] == front[i];
    } else {
      assert (front + back)[i] == back[i - at];
    }
  }

  /** The facts about a splice that the removal operations rely on. */
  lemma SpliceFacts(s: seq<int>, at: nat, count: nat)
    requires IsMapping(s)
    ensures IsMapping(Removed(s, at, count)) && IsMapping(Remaining(s, at, count))
    ensures forall x :: x in Remaining(s, at, count) ==> x !in Removed(s, at, count)
  {
    if at <= |s| {
      var e := SpliceEnd(s, at, count);
      var rest, gone := Remaining(s, at, count), Removed(s, at, count);
      forall i, j | 0 <= i < j < |rest| ensures rest[i] != rest[j] {
        RemainingEntry(s, at, count, i);
        RemainingEntry(s, at, count, j);
      }
      forall i | 0 <= i < |rest| ensures rest[i] >= 0 {
        RemainingEntry(s, at, count, i);
      }
      forall x | x in rest ensures x !in gone {
        var i :| 0 <= i < |rest| && rest[i] == x;
        RemainingEntry(s, at, count, i);
        forall k | 0 <= k < |gone| ensures gone[k] != x {
          assert gone[k] == s[at + k];
        }
      }
    }
  }

  /** Dropping listed positions keeps a subsequence, hence distinctness. */
  lemma {:induction false} RemovedAtIsMapping(s: seq<int>, positions: seq<int>, base: int)
    requires IsMapping(s)
    ensures IsMapping(RemovedAt(s, positions, base))
    decreases |s|
  {
    if s != [] {
      assert IsMapping(s[1..]);
      RemovedAtIsMapping(s[1..], positions, base + 1);
      if base !in positions {
        var t := RemovedAt(s[1..], positions, base + 1);
        assert s[0] !in s[1..];
        assert s[0] !in t;
        var r := [s[0]] + t;
        forall i, j | 0 <= i < j < |r| ensures r[i] != r[j] {
          if i == 0 {
            assert r[j] == t[j - 1];
            assert r[j] in t;
          } else {
            assert r[i] == t[i - 1] && r[j] == t[j - 1];
          }
        }
      }
    }
  }

  lemma SwappedIsMapping(s: seq<int>, from: int, to: int, byReference: bool)
    requires IsMapping(s)
    ensures IsMapping(Swapped(s, from, to, byReference))
  {
  }

  /** Lift an old entry over the inserted block when it is at least `p`. */
  function Lifted(v: int, p: nat, n: nat): int {
    if v >= p then v + n else v
  }

  /** Where each entry of a shift comes from: an old entry (lifted) or the new block. */
  lemma ShiftedEntry(s: seq<int>, p: nat, n: nat, i: nat)
    requires p <= |s| && i < |s| + n
    ensures Shifted(s, p, n)[i] ==
      if i < p then Lifted(s[i], p, n) else if i < p + n then i else Lifted(s[i - n], p, n)
  {
    var moved := seq(|s|, k requires 0 <= k < |s| => if s[k] >= p then s[k] + n else s[k]);
    var r := Shifted(s, p, n);
    assert r == moved[..p] + seq(n, k => p + k) + moved[p..];
    if i < p {
      assert r[i] == moved[..p][i];
    } else if p + n <= i {
      assert r[i] == moved[p..][i - p - n];
    } else {
      assert r[i] == seq(n, k => p + k)[i - p];
    }
  }

  /** Shifted indexes move above the inserted block, the others stay below it. */
  lemma ShiftedIsMapping(s: seq<int>, p: nat, n: nat)
    requires IsMapping(s) && p <= |s|
    ensures IsMapping(Shifted(s, p, n))
  {
    var r := Shifted(s, p, n);
    forall i | 0 <= i < |r|
      ensures r[i] >= 0
    {
      ShiftedEntry(s, p, n, i);
    }
    forall i, j | 0 <= i < j < |r|
      ensures r[i] != r[j]
    {
      ShiftedEntry(s, p, n, i);
      ShiftedEntry(s, p, n, j);
      if !(p <= i < p + n) && !(p <= j < p + n) {
        var a := if i < p then i else i - n;
        var b := if j < p then j else j - n;
        assert a < b && s[a] != s[b];
      }
    }
  }

  /** How many of `removed` lie strictly between `lo` and `hi`. */
  function CountBetween(removed: seq<int>, lo: int, hi: int): (c: nat)
    ensures c <= |removed|
  {
    if removed == [] then 0
    else (if lo < removed[0] < hi then 1 else 0) + CountBetween(removed[1..], lo, hi)
  }

  /** Cutting an interval at a value that is not among `removed` splits the count. */
  lemma {:induction false} CountBetweenSplit(removed: seq<int>, lo: int, mid: int, hi: int)
    requires lo < mid < hi && mid !in removed
    ensures CountBetween(removed, lo, hi) == CountBetween(removed, lo, mid) + CountBetween(removed, mid, hi)
    decreases |removed|
  {
    if removed != [] {
      assert mid !in removed[1..];
      CountBetweenSplit(removed[1..], lo, mid, hi);
    }
  }

  /** Pigeonhole: distinct integers strictly between `lo` and `hi` number at most `hi - lo - 1`. */
  lemma {:induction false} CountBetweenBound(removed: seq<int>, lo: int, hi: int)
    requires Distinct(removed) && lo < hi
    ensures CountBetween(removed, lo, hi) <= hi - lo - 1
    decreases |removed|
  {
    if removed != [] {
      var r0, tail := removed[0], removed[1..];
      assert Distinct(tail);
      if lo < r0 < hi {
        assert r0 !in tail;
        CountBetweenSplit(tail, lo, r0, hi);
        CountBetweenBound(tail, lo, r0);
        CountBetweenBound(tail, r0, hi);
      } else {
        CountBetweenBound(tail, lo, hi);
      }
    }
  }

  /** Moving the threshold up from `lo` to `hi` adds the removed indexes in between. */
  lemma {:induction false} CountBelowStep(removed: seq<int>, lo: int, hi: int)
    requires lo < hi && lo !in removed
    ensures CountBelow(removed, hi) == CountBelow(removed, lo) + CountBetween(removed, lo, hi)
    decreases |removed|
  {
    if removed != [] {
      assert lo !in removed[1..];
      CountBelowStep(removed[1..], lo, hi);
    }
  }

  /**
   * Lowering each remaining index by the number of removed indexes below it is
   * strictly monotone and stays non-negative, so `unshiftItems` keeps the map
   * well formed.
   */
  lemma UnshiftedIsMapping(s: seq<int>, p: nat, n: nat)
    requires IsMapping(s)
    ensures IsMapping(Unshifted(s, p, n))
  {
    SpliceFacts(s, p, n);
    var rest, removed := Remaining(s, p, n), Removed(s, p, n);
    var r := Unshifted(s, p, n);
    forall i | 0 <= i < |r| ensures r[i] >= 0 {
      var v := rest[i];
      assert v in rest;
      assert -1 !in removed;
      CountBelowStep(removed, -1, v);
      CountBetweenBound(removed, -1, v);
      NothingBelowZero(removed);
    }
    forall i, j | 0 <= i < |r| && 0 <= j < |r| && rest[i] < rest[j] ensures r[i] < r[j] {
      var v1, v2 := rest[i], rest[j];
      assert v1 in rest;
      CountBelowStep(removed, v1, v2);
      CountBetweenBound(removed, v1, v2);
    }
    forall i, j | 0 <= i < j < |r| ensures r[i] != r[j] {
      assert rest[i] != rest[j];
    }
  }

  lemma {:induction false} NothingBelowZero(removed: seq<int>)
    requires forall i :: 0 <= i < |removed| ==> removed[i] >= 0
    ensures CountBelow(removed, -1) == 0
    decreases |removed|
  {
    if removed != [] {
      NothingBelowZero(removed[1..]);
    }
  }

  /** The entries that do not exceed `maxIndex`, in order. */
  function KeepAtMost(s: seq<int>, maxIndex: int): (r: seq<int>)
    ensures forall x :: x in r <==> x in s && x <= maxIndex
  {
    if s == [] then []
    else if s[0] <= maxIndex then [s[0]] + KeepAtMost(s[1..], maxIndex)
    else KeepAtMost(s[1..], maxIndex)
  }

  /** `KeepAtMost` keeps the surviving entries in their order. */
  lemma {:induction false} KeepAtMostInOrder(s: seq<int>, maxIndex: int)
    ensures IsSubsequence(KeepAtMost(s, maxIndex), s)
    decreases |s|
  {
    if s != [] {
      KeepAtMostInOrder(s[1..], maxIndex);
      var r := KeepAtMost(s, maxIndex);
      if s[0] <= maxIndex {
        assert r[0] == s[0] && r[1..] == KeepAtMost(s[1..], maxIndex);
      } else {
        assert r != [] ==> r[0] in r && r[0] != s[0];
      }
    }
  }

  /**
   * Removing exactly the positions whose entry exceeds `maxIndex` keeps the
   * other entries, in order.
   */
  lemma {:induction false} RemovedAtOverLimit(s: seq<int>, positions: seq<int>, base: int, maxIndex: int)
    requires forall k :: base <= k < base + |s| ==> (k in positions <==> s[k - base] > maxIndex)
    ensures RemovedAt(s, positions, base) == KeepAtMost(s, maxIndex)
    decreases |s|
  {
    if s != [] {
      assert base in positions <==> s[0] > maxIndex;
      forall k | base + 1 <= k < base + 1 + |s[1..]|
        ensures k in positions <==> s[1..][k - (base + 1)] > maxIndex
      {
        assert s[1..][k - (base + 1)] == s[k - base];
      }
      RemovedAtOverLimit(s[1..], positions, base + 1, maxIndex);
    }
  }

  // ---------------------------------------------------------------------------
  // The scenarios of the mixin's unit tests, on the map 0 … 9.

  lemma MaxIs(s: seq<int>, i: nat)
    requires i < |s| && forall j :: 0 <= j < |s| ==> s[j] <= s[i]
    ensures Max(s) == s[i]
  {
    MaxBounds(s);
  }

  /** `insertItems(3)` adds 10 at position 3; `insertItems(6, 5)` then adds 11 … 15 at positions 6 … 10. */
  lemma InsertItemsScenario()
    ensures var m1 := Inserted(Identity(10), 3, 1);
      && |m1| == 11 && m1[3] == 10
      && var m2 := Inserted(m1, 6, 5);
      && |m2| == 16 && m2[6] == 11 && m2[10] == 15
  {
    var m0 := Identity(10);
    MaxIs(m0, 9);
    var m1 := Inserted(m0, 3, 1);
    InsertedEntry(m0, 3, 1, 3);
    forall j | 0 <= j < |m1| ensures m1[j] <= m1[3] {
      InsertedEntry(m0, 3, 1, j);
    }
    MaxIs(m1, 3);
    InsertedEntry(m1, 6, 5, 6);
    InsertedEntry(m1, 6, 5, 10);
  }

  /** `removeItems(4)` returns `[4]`; `removeItems(1, 3)` then returns 1, 2 and 3 but not 0. */
  lemma RemoveItemsScenario()
    ensures var m0 := Identity(10);
      && Removed(m0, 4, 1) == [4] && |Remaining(m0, 4, 1)| == 9
      && var m1 := Remaining(m0, 4, 1);
      && |Remaining(m1, 1, 3)| == 6
      && var gone := Removed(m1, 1, 3);
      && |gone| == 3 && 1 in gone && 2 in gone && 3 in gone && 0 !in gone
  {
    var m0 := Identity(10);
    var m1 := Remaining(m0, 4, 1);
    assert m1 == m0[..4] + m0[5..];
    assert m1[1] == 1 && m1[2] == 2 && m1[3] == 3;
    var gone := Removed(m1, 1, 3);
    assert gone == m1[1..4];
    assert gone[0] == 1 && gone[1] == 2 && gone[2] == 3;
  }

  /** `shiftItems(8)` grows the map to 11 entries, `shiftItems(1, 3)` then to 14. */
  lemma ShiftItemsScenario()
    ensures |Shifted(Identity(10), 8, 1)| == 11
    ensures |Shifted(Shifted(Identity(10), 8, 1), 1, 3)| == 14
  {
  }

  /** `unshiftItems(8)` shrinks the map to 9 entries, `unshiftItems(1, 3)` then to 6. */
  lemma UnshiftItemsScenario()
    ensures |Unshifted(Identity(10), 8, 1)| == 9
    ensures |Unshifted(Unshifted(Identity(10), 8, 1), 1, 3)| == 6
  {
  }

  /** `swapIndexes(8, 0)`, `(3, 1)`, `(5, 2)` keep ten entries and begin the map with 8, 3, 5. */
  lemma SwapScenario()
    ensures var m := Swapped(Swapped(Swapped(Identity(10), 8, 0, false), 3, 1, false), 5, 2, false);
      |m| == 10 && m[0] == 8 && m[1] == 3 && m[2] == 5
  {
  }

  /** `swapIndexes(5, 0)` then `(8, 1)` on 0 … 9 puts 5 and 8 in front, 0 at position 5 and 1 at position 8. */
  lemma SwapForwardScenario()
    ensures var m := Swapped(Swapped(Identity(10), 5, 0, false), 8, 1, false);
      && IsMapping(m) && |m| == 10
      && m[0] == 5 && m[1] == 8 && m[5] == 0 && m[8] == 1
  {
    var m0 := Identity(10);
    IdentityIsMapping(10);
    var m1 := Swapped(m0, 5, 0, false);
    assert SwapTargets(m0, 5, 0, false) == Some((5, 0));
    assert m1[0] == 5 && m1[5] == 0 && m1[1] == 1 && m1[8] == 8;
    SwappedIsMapping(m0, 5, 0, false);
    assert SwapTargets(m1, 8, 1, false) == Some((8, 1));
    SwappedIsMapping(m1, 8, 1, false);
  }

  /**
   * Swapping back by reference, `(1, 8, true)` then `(0, 5, true)`, puts 0, 1, 5
   * and 8 back at their own positions.
   */
  lemma SwapBackScenario(m: seq<int>)
    requires IsMapping(m) && |m| == 10 && m[0] == 5 && m[1] == 8 && m[5] == 0 && m[8] == 1
    ensures var back := Swapped(Swapped(m, 1, 8, true), 0, 5, true);
      |back| == 10 && back[0] == 0 && back[1] == 1 && back[5] == 5 && back[8] == 8
  {
    LookupsInverse(m, 8);
    LookupsInverse(m, 1);
    assert SwapTargets(m, 1, 8, true) == Some((8, 1));
    var m2 := Swapped(m, 1, 8, true);
    assert m2[8] == 8 && m2[1] == 1 && m2[0] == 5 && m2[5] == 0;
    SwappedIsMapping(m, 1, 8, true);
    LookupsInverse(m2, 5);
    LookupsInverse(m2, 0);
    assert SwapTargets(m2, 0, 5, true) == Some((5, 0));
  }

  // ---------------------------------------------------------------------------

  /** The mixin's state: `_arrayMap`, whose position is the visual index and whose entry is the physical index. */
  class ArrayMapper {
    var arrayMap: seq<int>

    ghost predicate Valid()
      reads this
    {
      IsMapping(arrayMap)
    }

    constructor ()
      ensures Valid() && arrayMap == []
    {
      arrayMap := [];
    }

    /** `createMap(length)`: start over with the identity map. */
    method CreateMap(length: nat)
      modifies this
      ensures Valid() && arrayMap == Identity(length)
    {
      arrayMap := Identity(length);
      IdentityIsMapping(length);
    }

    /** `getValueByIndex`: the physical index at a visual position, `null` outside the map. */
    function GetValueByIndex(index: int): (r: Option<int>)
      reads this
      ensures r.Some? <==> 0 <= index < |arrayMap|
      ensures r.Some? ==> r.value == arrayMap[index]
    {
      ValueAt(arrayMap, index)
    }

    /** `getIndexByValue`: the visual position of a physical index, `null` when it is not mapped. */
    function GetIndexByValue(value: int): (r: Option<nat>)
      reads this
      ensures r.Some? ==> r.value < |arrayMap| && arrayMap[r.value] == value
      ensures r.None? <==> value !in arrayMap
    {
      IndexOf(arrayMap, value)
    }

    method InsertItems(at: nat, count: nat := 1)
      requires Valid() && at <= |arrayMap|
      modifies this
      ensures Valid() && arrayMap == Inserted(old(arrayMap), at, count)
    {
      InsertedIsMapping(arrayMap, at, count);
      arrayMap := Inserted(arrayMap, at, count);
    }

    method RemoveItems(at: nat, count: nat := 1) returns (removed: seq<int>)
      requires Valid()
      modifies this
      ensures Valid()
      ensures removed == Removed(old(arrayMap), at, count)
      ensures arrayMap == Remaining(old(arrayMap), at, count)
    {
      SpliceFacts(arrayMap, at, count);
      removed := Removed(arrayMap, at, count);
      arrayMap := Remaining(arrayMap, at, count);
    }

    /** The array form of `removeItems`: drop every listed position. */
    method RemoveItemsAt(positions: seq<int>)
      requires Valid()
      modifies this
      ensures Valid() && arrayMap == RemovedAt(old(arrayMap), positions, 0)
    {
      RemovedAtIsMapping(arrayMap, positions, 0);
      arrayMap := RemovedAt(arrayMap, positions, 0);
    }

    method ShiftItems(p: nat, n: nat := 1)
      requires Valid() && p <= |arrayMap|
      modifies this
      ensures Valid() && arrayMap == Shifted(old(arrayMap), p, n)
    {
      ShiftedIsMapping(arrayMap, p, n);
      arrayMap := Shifted(arrayMap, p, n);
    }

    method UnshiftItems(p: nat, n: nat := 1)
      requires Valid()
      modifies this
      ensures Valid() && arrayMap == Unshifted(old(arrayMap), p, n)
    {
      UnshiftedIsMapping(arrayMap, p, n);
      arrayMap := Unshifted(arrayMap, p, n);
    }

    method SwapIndexes(from: int, to: int, byReference: bool := false)
      requires Valid()
      modifies this
      ensures Valid() && arrayMap == Swapped(old(arrayMap), from, to, byReference)
    {
      SwappedIsMapping(arrayMap, from, to, byReference);
      arrayMap := Swapped(arrayMap, from, to, byReference);
    }

    /** `clearMap`: the map becomes empty. */
    method ClearMap()
      modifies this
      ensures Valid() && arrayMap == []
    {
      arrayMap := [];
    }
  }
}
