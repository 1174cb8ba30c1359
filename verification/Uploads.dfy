/**
 Physical buffers and the preparation step of `virgl.rs`: which byte ranges a
 delta selects, and what the GPU copy holds after they are written.
 */
module Uploads {
  import opened Common
  import opened Deltas

  datatype HandleError = InvalidParameter

  /** The envelope to upload: a delta counts only on its exact physical base. */
  function UploadRange(uploaded: Option<nat>, revision: nat, length: nat, update: Option<BufferUpdate>)
    : Result<Range, HandleError>
  {
    match update
    case None => Ok(Range(0, length))
    case Some(u) =>
      if u.range.start >= u.range.end || u.range.end > length then Err(InvalidParameter)
      else if uploaded != Some(u.previousRevision) || u.previousRevision >= revision then Ok(Range(0, length))
      else if u.range.end + ALIGN - 1 > MAX_WORD then Err(InvalidParameter)
      else Ok(Range(Down(u.range.start), Min(Up(u.range.end), length)))
  }

  /** The disjoint ranges to upload, or the single envelope. */
  function UploadRanges(uploaded: Option<nat>, revision: nat, length: nat, update: Option<BufferUpdate>)
    : Result<seq<Range>, HandleError>
  {
    match UploadRange(uploaded, revision, length, update)
    case Err(e) => Err(e)
    case Ok(envelope) =>
      if || update.None? || uploaded != Some(update.value.previousRevision)
         || update.value.previousRevision >= revision || update.value.intervals.None?
      then Ok([envelope])
      else
        var ranges := update.value.intervals.value;
        if ranges == [] then Ok([Range(0, length)])
        else if IntervalsRejected(ranges, envelope, length) then Err(InvalidParameter)
        else Ok(ranges)
  }

  predicate IntervalsRejected(ranges: seq<Range>, envelope: Range, length: nat)
    requires ranges != []
  {
    || |ranges| > MAX_INTERVALS
    || ranges[0].start != envelope.start
    || ranges[|ranges| - 1].end != envelope.end
    || (exists k :: 0 <= k < |ranges| && (
         || ranges[k].start >= ranges[k].end || ranges[k].end > length
         || ranges[k].start % ALIGN != 0 || ranges[k].end % ALIGN != 0))
    || (exists k :: 0 <= k < |ranges| - 1 && ranges[k].end >= ranges[k + 1].start)
  }

  /** Every delta a planner builds passes the preparation checks. */
  lemma PlannedDeltaAccepted(uploaded: Option<nat>, revision: nat, length: nat, update: Option<BufferUpdate>)
    requires length % ALIGN == 0 && length <= 0xFFFF_FFFF
    requires update.Some? ==> WellFormed(update.value, length)
    ensures UploadRanges(uploaded, revision, length, update).Ok?
    ensures var ranges := UploadRanges(uploaded, revision, length, update).value;
      (forall k :: 0 <= k < |ranges| ==> ranges[k].start <= ranges[k].end <= length)
    ensures var ranges := UploadRanges(uploaded, revision, length, update).value;
      forall i: nat :: i < length
        && (update.None? || uploaded != Some(update.value.previousRevision)
            || update.value.previousRevision >= revision || Changed(update.value, i))
        ==> Inside(ranges, i)
  {
    InsideAll(Range(0, length));
    if update.Some? {
      var u := update.value;
      assert Up(u.range.end) <= length by { RoundedWithin(u.range.end, length); }
      InsideAll(Range(Down(u.range.start), Min(Up(u.range.end), length)));
      if u.intervals.Some? && u.intervals.value != [] {
        var ranges := u.intervals.value;
        forall k | 0 <= k < |ranges| ensures ranges[k].end <= length {
          assert k == |ranges| - 1 || ranges[k].end < ranges[|ranges| - 1].start;
        }
      }
    }
  }

  lemma RoundedWithin(end: nat, length: nat)
    requires end <= length && length % ALIGN == 0
    ensures Up(end) <= length
  {
  }

  lemma InsideAll(r: Range)
    ensures forall i: nat :: r.start <= i < r.end ==> Inside([r], i)
  {
    forall i: nat | r.start <= i < r.end ensures Inside([r], i) { InsideOne(r, i); }
  }

  /**
   The GPU copy of one logical buffer and the revision it is recorded to hold.
   Cells nothing was written to since the storage was made are undefined.
   */
  datatype Physical = Physical(cells: seq<Option<byte>>, uploadedRevision: Option<nat>)

  function FreshCells(size: nat): (r: seq<Option<byte>>)
    ensures |r| == size
  {
    seq(size, _ => None)
  }

  ghost predicate Holds(cells: seq<Option<byte>>, contents: seq<byte>) {
    |contents| <= |cells| && forall i :: 0 <= i < |contents| ==> cells[i] == Some(contents[i])
  }

  /** `data` written at `at`, as far as the storage reaches. */
  function Landed(cells: seq<Option<byte>>, at: nat, data: seq<byte>): (r: seq<Option<byte>>)
    ensures |r| == |cells|
    ensures forall i :: 0 <= i < |r| ==> r[i] == if at <= i < at + |data| then Some(data[i - at]) else cells[i]
  {
    seq(|cells|, (i: int) requires 0 <= i < |cells| => if at <= i < at + |data| then Some(data[i - at]) else cells[i])
  }

  /** `source` written over `cells` inside `ranges`. */
  ghost function Patched(cells: seq<Option<byte>>, source: seq<byte>, ranges: seq<Range>): (r: seq<Option<byte>>)
    ensures |r| == |cells|
  {
    seq(|cells|, (i: int) requires 0 <= i < |cells| =>
      if i < |source| && Inside(ranges, i) then Some(source[i]) else cells[i])
  }

  /** The preparation step as a function of the physical buffer. */
  ghost function Prepared(buffer: Physical, revision: nat, source: seq<byte>, update: Option<BufferUpdate>)
    : Result<Physical, HandleError>
  {
    if buffer.uploadedRevision == Some(revision) then Ok(buffer)
    else match UploadRanges(buffer.uploadedRevision, revision, |source|, update)
      case Err(e) => Err(e)
      case Ok(ranges) => Ok(Physical(Patched(buffer.cells, source, ranges), Some(revision)))
  }

  /**
   On a delta whose base contents are known, preparation leaves the GPU copy
   equal to the source: patched when it holds the base, repaired otherwise.
   */
  lemma PreparedHolds(
    buffer: Physical, revision: nat, source: seq<byte>, update: Option<BufferUpdate>, base: seq<byte>)
    requires |source| % ALIGN == 0 && |source| <= 0xFFFF_FFFF && |source| <= |buffer.cells|
    requires update.Some? ==> WellFormed(update.value, |source|) && Covers(update.value, base, source)
    requires update.Some? && buffer.uploadedRevision == Some(update.value.previousRevision) ==>
      Holds(buffer.cells, base)
    requires buffer.uploadedRevision != Some(revision)
    ensures var r := Prepared(buffer, revision, source, update);
      r.Ok? && r.value.uploadedRevision == Some(revision) && |r.value.cells| == |buffer.cells|
      && Holds(r.value.cells, source)
  {
    PlannedDeltaAccepted(buffer.uploadedRevision, revision, |source|, update);
  }

  /**
   Preparation skips a buffer recorded at the requested revision number. Where
   the cells are as the delta's base demands, it leaves the contents in every
   physical state exactly when the recorded number differs from the requested.
   */
  lemma RepairExactly(
    uploaded: Option<nat>, revision: nat, source: seq<byte>, update: Option<BufferUpdate>, base: seq<byte>, size: nat)
    requires 0 < |source| <= size && |source| % ALIGN == 0 && |source| <= 0xFFFF_FFFF
    requires update.Some? ==> WellFormed(update.value, |source|) && Covers(update.value, base, source)
    requires update.Some? ==> update.value.previousRevision < revision
    ensures uploaded != Some(revision)
      <==> forall cells: seq<Option<byte>> ::
        |cells| == size
        && (update.Some? && uploaded == Some(update.value.previousRevision) ==> Holds(cells, base))
        ==> Repairs(Physical(cells, uploaded), revision, source, update)
  {
    if uploaded == Some(revision) {
      var stale := FreshCells(size);
      assert stale[0] != Some(source[0]);
      assert Prepared(Physical(stale, uploaded), revision, source, update) == Ok(Physical(stale, uploaded));
    } else {
      forall cells: seq<Option<byte>> |
        |cells| == size
        && (update.Some? && uploaded == Some(update.value.previousRevision) ==> Holds(cells, base))
        ensures Repairs(Physical(cells, uploaded), revision, source, update)
      {
        PreparedHolds(Physical(cells, uploaded), revision, source, update, base);
      }
    }
  }

  /** Preparation succeeds and leaves the contents in the cells. */
  ghost predicate Repairs(buffer: Physical, revision: nat, source: seq<byte>, update: Option<BufferUpdate>) {
    var r := Prepared(buffer, revision, source, update);
    r.Ok? && Holds(r.value.cells, source)
  }

  /**
   The synchronous path keeps what a failed attempt prepared. A retry with other
   contents plans the same revision number, so its preparation is skipped.
   */
  lemma SynchronousRepairSkipped()
    ensures var delta := Some(SparseUpdate(0, Range(0, 8)));
      var failed := Prepared(Physical(FreshCells(8), None), 1, [1, 1, 1, 1, 1, 1, 1, 1], delta);
      failed.Ok? && var retried := Prepared(failed.value, 1, [2, 2, 2, 2, 2, 2, 2, 2], delta);
        && retried == failed && retried.value.uploadedRevision == Some(1)
        && !Holds(retried.value.cells, [2, 2, 2, 2, 2, 2, 2, 2])
  {
    var delta := SparseUpdate(0, Range(0, 8));
    SparseWellFormed(0, Range(0, 8), 8);
    PreparedHolds(Physical(FreshCells(8), None), 1, [1, 1, 1, 1, 1, 1, 1, 1], Some(delta), []);
    var failed := Prepared(Physical(FreshCells(8), None), 1, [1, 1, 1, 1, 1, 1, 1, 1], Some(delta)).value;
    assert failed.cells[0] == Some([1, 1, 1, 1, 1, 1, 1, 1][0]);
    assert [2 as byte, 2, 2, 2, 2, 2, 2, 2][0] == 2;
  }

  /**
   One stream further the recorded revision equals the next delta's base, which
   the cells never held: only the delta is patched, and the rest stays stale.
   */
  lemma StaleBaseKept()
    ensures var cells := Landed(FreshCells(8), 0, [1, 1, 1, 1, 1, 1, 1, 1]);
      var next := [2, 2, 2, 2, 3, 3, 3, 3];
      var delta := SparseUpdate(1, Range(4, 8));
      && WellFormed(delta, 8) && Covers(delta, [2, 2, 2, 2, 2, 2, 2, 2], next)
      && Prepared(Physical(cells, Some(1)), 2, next, Some(delta)).Ok?
      && !Repairs(Physical(cells, Some(1)), 2, next, Some(delta))
  {
    var cells := Landed(FreshCells(8), 0, [1, 1, 1, 1, 1, 1, 1, 1]);
    var next: seq<byte> := [2, 2, 2, 2, 3, 3, 3, 3];
    var delta := SparseUpdate(1, Range(4, 8));
    SparseWellFormed(1, Range(4, 8), 8);
    PlannedDeltaAccepted(Some(1), 2, 8, Some(delta));
    assert UploadRanges(Some(1), 2, 8, Some(delta)) == Ok([Range(4, 8)]);
    InsideOne(Range(4, 8), 0);
    assert cells[0] == Some([1 as byte, 1, 1, 1, 1, 1, 1, 1][0]) && next[0] == 2;
    assert Prepared(Physical(cells, Some(1)), 2, next, Some(delta)).value.cells[0] == cells[0];
  }

  /** One mapped buffer; preparation writes packets of at most `maxPayload` bytes. */
  class IrBuffer {
    var cells: seq<Option<byte>>
    var uploadedRevision: Option<nat>

    function State(): Physical
      reads this
    {
      Physical(cells, uploadedRevision)
    }

    constructor (size: nat)
      ensures State() == Physical(FreshCells(size), None)
    {
      cells := FreshCells(size);
      uploadedRevision := None;
    }

    method Prepare(revision: nat, source: seq<byte>, update: Option<BufferUpdate>, maxPayload: nat)
      returns (result: Result<(), HandleError>)
      requires 0 < maxPayload && |source| <= |cells|
      requires update.Some? ==> WellFormed(update.value, |source|)
      requires |source| % ALIGN == 0 && |source| <= 0xFFFF_FFFF
      modifies this
      ensures result.Ok? && Prepared(old(State()), revision, source, update) == Ok(State())
    {
      if uploadedRevision == Some(revision) {
        return Ok(());
      }
      PlannedDeltaAccepted(uploadedRevision, revision, |source|, update);
      var ranges := UploadRanges(uploadedRevision, revision, |source|, update).value;
      uploadedRevision := None;
      var k := 0;
      while k < |ranges|
        invariant 0 <= k <= |ranges|
        invariant cells == Patched(old(cells), source, ranges[..k])
      {
        WriteRange(source, ranges[k], maxPayload);
        PatchedSnoc(old(cells), source, ranges[..k], ranges[k]);
        assert ranges[..k + 1] == ranges[..k] + [ranges[k]];
        k := k + 1;
      }
      assert ranges[..k] == ranges;
      uploadedRevision := Some(revision);
      return Ok(());
    }

    /** One dirty range, cut into packets. */
    method WriteRange(source: seq<byte>, range: Range, maxPayload: nat)
      requires 0 < maxPayload && range.start <= range.end <= |source| <= |cells|
      modifies this`cells
      ensures cells == Patched(old(cells), source, [range])
    {
      var offset := range.start;
      while offset < range.end
        invariant range.start <= offset <= range.end
        invariant cells == Landed(old(cells), range.start, source[range.start..offset])
      {
        var end := Min(offset + maxPayload, range.end);
        cells := Landed(cells, offset, source[offset..end]);
        offset := end;
      }
      forall i: nat ensures Inside([range], i) <==> range.start <= i < range.end { InsideOne(range, i); }
    }
  }

  /** Patching range by range patches their union. */
  lemma PatchedSnoc(cells: seq<Option<byte>>, source: seq<byte>, ranges: seq<Range>, range: Range)
    ensures Patched(Patched(cells, source, ranges), source, [range]) == Patched(cells, source, ranges + [range])
  {
    forall i: nat ensures Inside(ranges + [range], i) <==> Inside(ranges, i) || Inside([range], i) {
      InsideConcat(ranges, [range], i);
    }
  }
}
