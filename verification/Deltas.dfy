/**
 Cumulative upload deltas: the bounded dirty-interval list of
 `support/buffers.rs` and the range selection of `virgl.rs` that turns a delta
 into the byte ranges patched onto a physical buffer.
 */
module Deltas {
  import opened Common

  const MAX_INTERVALS: nat := 128
  const ALIGN: nat := 4

  datatype Range = Range(start: nat, end: nat)

  /** Changes since `previousRevision`; see `Dirty` for what the intervals mean. */
  datatype BufferUpdate = BufferUpdate(previousRevision: nat, range: Range, intervals: Option<seq<Range>>)

  function Down(n: nat): (r: nat)
    ensures r <= n < r + ALIGN && r % ALIGN == 0
  {
    n / ALIGN * ALIGN
  }

  function Up(n: nat): (r: nat)
    ensures n <= r < n + ALIGN && r % ALIGN == 0
  {
    (n + ALIGN - 1) / ALIGN * ALIGN
  }

  function Aligned(r: Range): Option<Range> {
    if r.start < r.end && r.end + ALIGN - 1 <= MAX_WORD then Some(Range(Down(r.start), Up(r.end))) else None
  }

  /** Nonempty aligned ranges in ascending order with a gap between neighbours. */
  ghost predicate Separated(ranges: seq<Range>) {
    && |ranges| <= MAX_INTERVALS
    && (forall k :: 0 <= k < |ranges| ==>
      ranges[k].start < ranges[k].end && ranges[k].start % ALIGN == 0 && ranges[k].end % ALIGN == 0)
    && (forall j, k :: 0 <= j < k < |ranges| ==> ranges[j].end < ranges[k].start)
  }

  ghost predicate Inside(ranges: seq<Range>, i: nat) {
    exists k :: 0 <= k < |ranges| && ranges[k].start <= i < ranges[k].end
  }

  /**
   The bytes a delta declares changed: its intervals, its envelope when a
   planner tracked none, and everything once tracking overflowed.
   */
  ghost predicate Dirty(update: BufferUpdate, i: nat) {
    match update.intervals
    case None => update.range.start <= i < update.range.end
    case Some(ranges) => ranges == [] || Inside(ranges, i)
  }

  /** A delta lies inside the logical buffer and its intervals span its envelope. */
  ghost predicate WellFormed(update: BufferUpdate, length: nat) {
    && update.range.start < update.range.end <= length
    && match update.intervals
       case None => true
       case Some(ranges) => ranges == [] || Spans(ranges, update.range)
  }

  ghost predicate Spans(ranges: seq<Range>, envelope: Range) {
    && ranges != [] && Separated(ranges)
    && ranges[0].start == Down(envelope.start)
    && ranges[|ranges| - 1].end == Up(envelope.end)
  }

  /** Bytes that may really differ: the envelope bounds them even where intervals were rounded. */
  ghost predicate Changed(update: BufferUpdate, i: nat) {
    update.range.start <= i < update.range.end && Dirty(update, i)
  }

  /** Everywhere else the later contents repeat the earlier ones. */
  ghost predicate Covers(update: BufferUpdate, before: seq<byte>, after: seq<byte>) {
    forall i: nat :: i < |after| && !Changed(update, i) ==> i < |before| && before[i] == after[i]
  }

  /** No room is left for `[start, end)`: 128 ranges, none of which meets or touches it. */
  ghost predicate Crowded(ranges: seq<Range>, start: nat, end: nat) {
    |ranges| == 128 && forall k :: 0 <= k < |ranges| ==> ranges[k].end < start || end < ranges[k].start
  }

  /** A range that is empty or whose rounding up leaves the platform's word. */
  predicate Unaligned(range: Range) { range.start >= range.end || range.end + 3 > 0xFFFF_FFFF_FFFF_FFFF }

  /** The first index from `k` on whose range ends at or after `at`. */
  function EndedBefore(ranges: seq<Range>, at: nat, k: nat): (r: nat)
    requires k <= |ranges|
    ensures k <= r <= |ranges|
    ensures forall j :: k <= j < r ==> ranges[j].end < at
    ensures r < |ranges| ==> at <= ranges[r].end
    decreases |ranges| - k
  {
    if k == |ranges| || at <= ranges[k].end then k else EndedBefore(ranges, at, k + 1)
  }

  /** The first index from `k` on whose range starts after `at`. */
  function StartedBy(ranges: seq<Range>, at: nat, k: nat): (r: nat)
    requires k <= |ranges|
    ensures k <= r <= |ranges|
    ensures forall j :: k <= j < r ==> ranges[j].start <= at
    ensures r < |ranges| ==> at < ranges[r].start
    decreases |ranges| - k
  {
    if k == |ranges| || at < ranges[k].start then k else StartedBy(ranges, at, k + 1)
  }

  /** `BufferIntervals::include`; the empty list is the sticky full-repair marker. */
  function Include(ranges: seq<Range>, range: Range): seq<Range> {
    if ranges == [] then []
    else match Aligned(range)
      case None => []
      case Some(r) =>
        var first := EndedBefore(ranges, r.start, 0);
        var last := StartedBy(ranges, r.end, first);
        if first < last then ranges[..first] + [Joined(ranges, r, first, last)] + ranges[last..]
        else if |ranges| == MAX_INTERVALS then []
        else ranges[..first] + [r] + ranges[first..]
  }

  function Joined(ranges: seq<Range>, r: Range, first: nat, last: nat): Range
    requires first < last <= |ranges|
  {
    Range(Min(r.start, ranges[first].start), Max(r.end, ranges[last - 1].end))
  }

  /** Only ranges `[first, last)` touch `r`. */
  ghost predicate Touching(ranges: seq<Range>, r: Range, first: nat, last: nat) {
    && first <= last <= |ranges|
    && (forall k :: 0 <= k < first ==> ranges[k].end < r.start)
    && (forall k :: first <= k < last ==> r.start <= ranges[k].end && ranges[k].start <= r.end)
    && (forall k :: last <= k < |ranges| ==> r.end < ranges[k].start)
  }

  lemma SearchTouching(ranges: seq<Range>, r: Range, first: nat, last: nat)
    requires Separated(ranges) && r.start < r.end
    requires first == EndedBefore(ranges, r.start, 0) && last == StartedBy(ranges, r.end, first)
    ensures Touching(ranges, r, first, last)
  {
    forall k | first <= k < last ensures r.start <= ranges[k].end {
      assert k == first || ranges[first].end < ranges[k].start;
    }
    forall k | last <= k < |ranges| ensures r.end < ranges[k].start {
      assert k == last || ranges[last].end < ranges[k].start;
    }
  }

  /** A range replaces the run it touches and stays apart from the rest. */
  lemma ReplacedSeparated(ranges: seq<Range>, m: Range, first: nat, last: nat)
    requires Separated(ranges) && first <= last <= |ranges|
    requires m.start < m.end && m.start % ALIGN == 0 && m.end % ALIGN == 0
    requires forall k :: 0 <= k < first ==> ranges[k].end < m.start
    requires forall k :: last <= k < |ranges| ==> m.end < ranges[k].start
    requires first < last || |ranges| < MAX_INTERVALS
    ensures Separated(ranges[..first] + [m] + ranges[last..])
  {
    var c := ranges[..first] + [m] + ranges[last..];
    forall k | 0 <= k < |c|
      ensures c[k] == if k < first then ranges[k] else if k == first then m else ranges[last + k - first - 1]
    {
    }
    forall j, k | 0 <= j < k < |c| ensures c[j].end < c[k].start {
    }
  }

  /** The joined range holds exactly the touched ranges and the new one. */
  lemma JoinedInside(ranges: seq<Range>, r: Range, first: nat, last: nat, i: nat)
    requires Separated(ranges) && r.start < r.end && first < last && Touching(ranges, r, first, last)
    ensures var m := Joined(ranges, r, first, last);
      m.start <= i < m.end <==> Inside(ranges[first..last], i) || r.start <= i < r.end
  {
    var m, run := Joined(ranges, r, first, last), ranges[first..last];
    assert run[0] == ranges[first] && run[|run| - 1] == ranges[last - 1];
    if Inside(run, i) {
      var k :| 0 <= k < |run| && run[k].start <= i < run[k].end;
      assert k == 0 || run[0].end < run[k].start;
      assert k == |run| - 1 || run[k].end < run[|run| - 1].start;
    }
  }

  lemma InsideConcat(a: seq<Range>, b: seq<Range>, i: nat)
    ensures Inside(a + b, i) <==> Inside(a, i) || Inside(b, i)
  {
    if Inside(a, i) {
      var k :| 0 <= k < |a| && a[k].start <= i < a[k].end;
      assert (a + b)[k] == a[k];
    }
    if Inside(b, i) {
      var k :| 0 <= k < |b| && b[k].start <= i < b[k].end;
      assert (a + b)[|a| + k] == b[k];
    }
  }

  /** `after` is `before` with the bytes of `[start, end)` added and its ends moved out to them. */
  ghost predicate Added(before: seq<Range>, after: seq<Range>, start: nat, end: nat)
    requires before != []
  {
    && after != [] && Separated(after)
    && after[0].start == Min(before[0].start, start)
    && after[|after| - 1].end == Max(before[|before| - 1].end, end)
    && forall i: nat :: Inside(after, i) <==> Inside(before, i) || start <= i < end
  }

  /**
   Including a range gives up exactly when it cannot be aligned or the list is
   full; otherwise it adds exactly the range's aligned bytes, keeps the list
   separated and moves its two ends to the aligned envelope.
   */
  lemma IncludeExact(ranges: seq<Range>, range: Range)
    requires Separated(ranges) && ranges != []
    ensures Include(ranges, range) == []
      <==> Unaligned(range) || Crowded(ranges, Down(range.start), Up(range.end))
    ensures Include(ranges, range) == []
      || Added(ranges, Include(ranges, range), Down(range.start), Up(range.end))
  {
    if Aligned(range).Some? {
      var r := Aligned(range).value;
      var first := EndedBefore(ranges, r.start, 0);
      var last := StartedBy(ranges, r.end, first);
      SearchTouching(ranges, r, first, last);
      if first < last || |ranges| < MAX_INTERVALS {
        IncludeTouching(ranges, r, first, last);
        assert ranges[first..] == ranges[last..] || first < last;
      }
    }
  }

  lemma IncludeTouching(ranges: seq<Range>, r: Range, first: nat, last: nat)
    requires Separated(ranges) && ranges != [] && Touching(ranges, r, first, last)
    requires r.start < r.end && r.start % ALIGN == 0 && r.end % ALIGN == 0
    requires first < last || |ranges| < MAX_INTERVALS
    ensures var m := if first < last then Joined(ranges, r, first, last) else r;
      Added(ranges, ranges[..first] + [m] + ranges[last..], r.start, r.end)
  {
    var m := if first < last then Joined(ranges, r, first, last) else r;
    JoinEnds(ranges, r, first, last);
    ReplacedSeparated(ranges, m, first, last);
    forall i: nat
      ensures Inside(ranges[..first] + [m] + ranges[last..], i) <==> Inside(ranges, i) || r.start <= i < r.end
    {
      IncludeInside(ranges, r, first, last, i);
    }
  }

  lemma IncludeInside(ranges: seq<Range>, r: Range, first: nat, last: nat, i: nat)
    requires Separated(ranges) && r.start < r.end && Touching(ranges, r, first, last)
    ensures var m := if first < last then Joined(ranges, r, first, last) else r;
      Inside(ranges[..first] + [m] + ranges[last..], i) <==> Inside(ranges, i) || r.start <= i < r.end
  {
    var m := if first < last then Joined(ranges, r, first, last) else r;
    var a, run, z := ranges[..first], ranges[first..last], ranges[last..];
    assert ranges == a + run + z;
    InsideConcat(a + run, z, i);
    InsideConcat(a, run, i);
    InsideConcat(a + [m], z, i);
    InsideConcat(a, [m], i);
    InsideOne(m, i);
    if first < last {
      JoinedInside(ranges, r, first, last, i);
    }
  }

  lemma InsideOne(r: Range, i: nat)
    ensures Inside([r], i) <==> r.start <= i < r.end
  {
    assert [r][0] == r;
  }

  lemma JoinEnds(ranges: seq<Range>, r: Range, first: nat, last: nat)
    requires Separated(ranges) && ranges != [] && r.start < r.end && Touching(ranges, r, first, last)
    ensures var m := if first < last then Joined(ranges, r, first, last) else r;
      && (forall k :: 0 <= k < first ==> ranges[k].end < m.start)
      && (forall k :: last <= k < |ranges| ==> m.end < ranges[k].start)
      && (first == 0 ==> m.start == Min(ranges[0].start, r.start))
      && (first > 0 ==> ranges[0].start < r.start)
      && (last == |ranges| ==> m.end == Max(ranges[|ranges| - 1].end, r.end))
      && (last < |ranges| ==> r.end < ranges[|ranges| - 1].end)
  {
    if first > 0 {
      assert ranges[0].start < ranges[0].end < r.start;
    }
    if last < |ranges| {
      assert r.end < ranges[|ranges| - 1].start;
    }
  }

  /** `BufferUpdate::sparse`. */
  function SparseUpdate(previousRevision: nat, range: Range): BufferUpdate {
    BufferUpdate(previousRevision, range,
      Some(match Aligned(range) case None => [] case Some(r) => [r]))
  }

  function Hull(a: Range, b: Range): Range { Range(Min(a.start, b.start), Max(a.end, b.end)) }

  /** `BufferUpdate::include_range`. */
  function IncludeRange(update: BufferUpdate, range: Range): BufferUpdate {
    BufferUpdate(update.previousRevision, Hull(update.range, range),
      match update.intervals case None => None case Some(ranges) => Some(Include(ranges, range)))
  }

  function IncludeAll(ranges: seq<Range>, more: seq<Range>): seq<Range>
    decreases more
  {
    if more == [] then ranges else IncludeAll(Include(ranges, more[0]), more[1..])
  }

  /** `BufferUpdate::merge_previous`. */
  function MergePrevious(update: BufferUpdate, previous: BufferUpdate): BufferUpdate {
    BufferUpdate(previous.previousRevision, Hull(update.range, previous.range),
      if previous.intervals == Some([]) then Some([])
      else match update.intervals
        case None => None
        case Some(ranges) =>
          Some(match previous.intervals
            case Some(earlier) => IncludeAll(ranges, earlier)
            case None => Include(ranges, previous.range)))
  }

  lemma SparseWellFormed(previousRevision: nat, range: Range, length: nat)
    requires range.start < range.end <= length
    ensures WellFormed(SparseUpdate(previousRevision, range), length)
    ensures forall i: nat :: range.start <= i < range.end ==> Changed(SparseUpdate(previousRevision, range), i)
  {
    var update := SparseUpdate(previousRevision, range);
    if Aligned(range).Some? {
      assert update.intervals.value == [Range(Down(range.start), Up(range.end))];
      forall i: nat | range.start <= i < range.end ensures Changed(update, i) {
        assert update.intervals.value[0].start <= i < update.intervals.value[0].end;
      }
    }
  }

  lemma IncludeRangeKeeps(update: BufferUpdate, range: Range, length: nat)
    requires range.start < range.end <= length && WellFormed(update, length)
    ensures WellFormed(IncludeRange(update, range), length)
    ensures forall i: nat :: Changed(update, i) || range.start <= i < range.end ==>
      Changed(IncludeRange(update, range), i)
  {
    if update.intervals.Some? && update.intervals.value != [] {
      IncludeExact(update.intervals.value, range);
      Rounding(update.range, range);
    }
  }

  /** Rounding commutes with taking the hull of two ranges. */
  lemma Rounding(a: Range, b: Range)
    ensures Down(Hull(a, b).start) == Min(Down(a.start), Down(b.start))
    ensures Up(Hull(a, b).end) == Max(Up(a.end), Up(b.end))
  {
  }

  lemma {:induction false} IncludeAllExact(ranges: seq<Range>, more: seq<Range>)
    requires Separated(ranges) && ranges != []
    requires Separated(more) && more != []
    decreases more
    ensures IncludeAll(ranges, more) == []
      || AddedAll(ranges, IncludeAll(ranges, more), more)
  {
    var next := Include(ranges, more[0]);
    IncludeOne(ranges, more[0]);
    if next == [] {
      IncludeAllEmpty(more[1..]);
    } else if |more| > 1 {
      TailSeparated(more);
      IncludeAllExact(next, more[1..]);
      if IncludeAll(next, more[1..]) != [] {
        AddedTrans(ranges, next, IncludeAll(next, more[1..]), more);
      }
    } else {
      assert more == [more[0]] && more[1..] == [];
      assert IncludeAll(ranges, more) == next;
      forall i: nat ensures Inside(more, i) <==> more[0].start <= i < more[0].end { InsideOne(more[0], i); }
    }
  }

  lemma TailSeparated(ranges: seq<Range>)
    requires Separated(ranges) && |ranges| > 1
    ensures Separated(ranges[1..]) && ranges[1..] != []
  {
  }

  /** An aligned range is added as it is. */
  lemma IncludeOne(ranges: seq<Range>, r: Range)
    requires Separated(ranges) && ranges != []
    requires r.start < r.end && r.start % ALIGN == 0 && r.end % ALIGN == 0
    ensures Include(ranges, r) == [] || Added(ranges, Include(ranges, r), r.start, r.end)
  {
    assert Down(r.start) == r.start && Up(r.end) == r.end;
    IncludeExact(ranges, r);
  }

  /** `Added` for a whole list. */
  ghost predicate AddedAll(before: seq<Range>, after: seq<Range>, more: seq<Range>)
    requires before != [] && more != []
  {
    && after != [] && Separated(after)
    && after[0].start == Min(before[0].start, more[0].start)
    && after[|after| - 1].end == Max(before[|before| - 1].end, more[|more| - 1].end)
    && forall i: nat :: Inside(after, i) <==> Inside(before, i) || Inside(more, i)
  }

  lemma AddedTrans(before: seq<Range>, middle: seq<Range>, after: seq<Range>, more: seq<Range>)
    requires before != [] && Separated(more) && |more| > 1
    requires Added(before, middle, more[0].start, more[0].end)
    requires AddedAll(middle, after, more[1..])
    ensures AddedAll(before, after, more)
  {
    var rest := more[1..];
    assert rest[0] == more[1] && rest[|rest| - 1] == more[|more| - 1];
    assert more[0].end < more[1].start && more[0].end < more[|more| - 1].start;
    forall i: nat
      ensures Inside(after, i) <==> Inside(before, i) || Inside(more, i)
    {
      assert more == [more[0]] + rest;
      InsideConcat([more[0]], rest, i);
      InsideOne(more[0], i);
    }
  }

  /** Full repair is sticky. */
  lemma {:induction false} IncludeAllEmpty(more: seq<Range>)
    ensures IncludeAll([], more) == []
  {
    if more != [] {
      IncludeAllEmpty(more[1..]);
    }
  }

  /** Merging a delta into its successor declares both sets of changes. */
  lemma MergeKeeps(update: BufferUpdate, previous: BufferUpdate, length: nat)
    requires WellFormed(update, length) && WellFormed(previous, length)
    ensures WellFormed(MergePrevious(update, previous), length)
    ensures forall i: nat :: Changed(update, i) || Changed(previous, i) ==> Changed(MergePrevious(update, previous), i)
  {
    Rounding(update.range, previous.range);
    if update.intervals.Some? && previous.intervals != Some([]) {
      if update.intervals.value == [] {
        if previous.intervals.Some? {
          IncludeAllEmpty(previous.intervals.value);
        }
      } else if previous.intervals.Some? {
        assert previous.intervals.value != [];
        IncludeAllExact(update.intervals.value, previous.intervals.value);
      } else {
        IncludeExact(update.intervals.value, previous.range);
      }
    }
  }

  /** A merged delta leads from the older base straight to the newest contents. */
  lemma MergeCovers(update: BufferUpdate, previous: BufferUpdate, a: seq<byte>, b: seq<byte>, c: seq<byte>)
    requires WellFormed(update, |c|) && WellFormed(previous, |c|)
    requires Covers(previous, a, b) && Covers(update, b, c)
    ensures Covers(MergePrevious(update, previous), a, c)
  {
    MergeKeeps(update, previous, |c|);
  }
}
