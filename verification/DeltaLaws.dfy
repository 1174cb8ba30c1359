/**
 What deltas declare and what an upload sends, byte for byte: no byte is left
 out, and while the interval list has room none is added beyond rounding to
 four bytes.
 */
module DeltaLaws {
  import opened Common
  import opened Deltas
  import opened Uploads
  import opened BufferPlan
  import Ranges
  import S = Submissions

  predicate InWords(range: Range, i: nat) { range.start / 4 * 4 <= i < (range.end + 3) / 4 * 4 }

  /** The bytes a delta marks, in whole words of four bytes. */
  ghost predicate Marked(update: BufferUpdate, i: nat) {
    match update.intervals
    case None => InWords(update.range, i)
    case Some(ranges) => ranges == [] || Inside(ranges, i)
  }

  ghost predicate GaveUp(update: BufferUpdate) { update.intervals == Some([]) }

  lemma Rounded(n: nat)
    ensures Down(n) == n / 4 * 4 && Up(n) == (n + 3) / 4 * 4
  {
  }

  lemma Words(range: Range, i: nat)
    ensures InWords(range, i) <==> Down(range.start) <= i < Up(range.end)
  {
    Rounded(range.start);
    Rounded(range.end);
  }

  /** A new delta marks the words of its range. */
  lemma SparseMarks(revision: nat, range: Range, i: nat)
    requires range.start < range.end
    ensures GaveUp(SparseUpdate(revision, range)) <==> Unaligned(range)
    ensures !GaveUp(SparseUpdate(revision, range)) ==>
      (Marked(SparseUpdate(revision, range), i) <==> InWords(range, i))
  {
    Words(range, i);
    InsideOne(Range(Down(range.start), Up(range.end)), i);
  }

  /** Extending a delta marks the words of the range and nothing else, until the list is full. */
  lemma ExtendMarks(update: BufferUpdate, range: Range, length: nat, i: nat)
    requires WellFormed(update, length) && range.start < range.end <= length
    requires update.intervals.Some?
    ensures GaveUp(IncludeRange(update, range)) <==>
      || GaveUp(update) || Unaligned(range)
      || Crowded(update.intervals.value, range.start / 4 * 4, (range.end + 3) / 4 * 4)
    ensures !GaveUp(IncludeRange(update, range)) ==>
      (Marked(IncludeRange(update, range), i) <==> Marked(update, i) || InWords(range, i))
  {
    Words(range, i);
    if !GaveUp(update) {
      IncludeExact(update.intervals.value, range);
    }
  }

  /** Including the ranges of `more` one after another, some step finds no room. */
  ghost predicate Stops(ranges: seq<Range>, more: seq<Range>) {
    exists j :: 0 <= j < |more| && StopsAt(IncludeAll(ranges, more[..j]), more[j])
  }

  ghost predicate StopsAt(ranges: seq<Range>, range: Range) {
    Unaligned(range) || Crowded(ranges, range.start / 4 * 4, (range.end + 3) / 4 * 4)
  }

  lemma {:induction false} IncludeAllSplit(ranges: seq<Range>, more: seq<Range>)
    requires more != []
    ensures IncludeAll(ranges, more)
      == Include(IncludeAll(ranges, more[..|more| - 1]), more[|more| - 1])
    decreases more
  {
    var rest, n := more[1..], |more| - 1;
    if n == 0 {
      assert rest == [];
      assert IncludeAll(Include(ranges, more[0]), rest) == Include(ranges, more[0]);
      assert more[..n] == [];
    } else {
      IncludeAllSplit(Include(ranges, more[0]), rest);
      assert more[..n][1..] == rest[..n - 1];
      assert more[..n][0] == more[0] && rest[n - 1] == more[n];
    }
  }

  lemma {:induction false} IncludeAllStops(ranges: seq<Range>, more: seq<Range>)
    requires Separated(ranges) && ranges != [] && Separated(more)
    ensures IncludeAll(ranges, more) == [] <==> Stops(ranges, more)
    ensures IncludeAll(ranges, more) != [] ==> Separated(IncludeAll(ranges, more))
    decreases |more|
  {
    if more != [] {
      var n := |more| - 1;
      FrontSeparated(more);
      IncludeAllStops(ranges, more[..n]);
      IncludeAllSplit(ranges, more);
      StopsSplit(ranges, more);
      var reached := IncludeAll(ranges, more[..n]);
      if reached != [] {
        StopsOne(reached, more[n]);
      }
    }
  }

  lemma FrontSeparated(ranges: seq<Range>)
    requires Separated(ranges) && ranges != []
    ensures Separated(ranges[..|ranges| - 1])
  {
  }

  lemma StopsOne(ranges: seq<Range>, r: Range)
    requires Separated(ranges) && ranges != []
    ensures Include(ranges, r) == [] <==> StopsAt(ranges, r)
    ensures Include(ranges, r) != [] ==> Separated(Include(ranges, r))
  {
    Rounded(r.start);
    Rounded(r.end);
    IncludeExact(ranges, r);
  }

  lemma StopsSplit(ranges: seq<Range>, more: seq<Range>)
    requires more != []
    ensures Stops(ranges, more)
       <==> Stops(ranges, more[..|more| - 1]) || StopsAt(IncludeAll(ranges, more[..|more| - 1]), more[|more| - 1])
  {
    var n := |more| - 1;
    forall j | 0 <= j < n ensures more[..n][..j] == more[..j] {
    }
    if Stops(ranges, more[..n]) {
      var j :| 0 <= j < n && StopsAt(IncludeAll(ranges, more[..n][..j]), more[..n][j]);
      assert StopsAt(IncludeAll(ranges, more[..j]), more[j]);
    }
    if Stops(ranges, more) {
      var j :| 0 <= j <= n && StopsAt(IncludeAll(ranges, more[..j]), more[j]);
      assert j < n ==> StopsAt(IncludeAll(ranges, more[..n][..j]), more[..n][j]);
    }
  }

  /**
   A merged delta leads from the older base over the hull of both ranges. Once
   it tracks words it marks those of both deltas and no other, and it gives up
   only with one of them or for want of room.
   */
  lemma MergeMarks(update: BufferUpdate, previous: BufferUpdate, length: nat, i: nat)
    requires WellFormed(update, length) && WellFormed(previous, length) && update.intervals.Some?
    ensures var merged := MergePrevious(update, previous);
      && merged.previousRevision == previous.previousRevision
      && merged.range.start == Min(update.range.start, previous.range.start)
      && merged.range.end == Max(update.range.end, previous.range.end)
      && (!GaveUp(merged) ==> (Marked(merged, i) <==> Marked(update, i) || Marked(previous, i)))
      && (GaveUp(merged) <==>
            || GaveUp(update) || GaveUp(previous)
            || match previous.intervals
               case Some(earlier) => Stops(update.intervals.value, earlier)
               case None => StopsAt(update.intervals.value, previous.range))
  {
    if GaveUp(update) {
      if previous.intervals.Some? {
        IncludeAllEmpty(previous.intervals.value);
      }
    } else if !GaveUp(previous) {
      var ranges := update.intervals.value;
      match previous.intervals {
        case Some(earlier) =>
          IncludeAllStops(ranges, earlier);
          IncludeAllExact(ranges, earlier);
        case None =>
          Words(previous.range, i);
          IncludeExact(ranges, previous.range);
      }
    }
  }

  /**
   An upload sends exactly the marked words inside the buffer when the copy
   holds the delta's base, and the whole buffer in every other case.
   */
  lemma SendsExactly(uploaded: Option<nat>, revision: nat, length: nat, update: Option<BufferUpdate>, i: nat)
    requires length % 4 == 0 && length <= 0xFFFF_FFFF
    requires update.Some? ==> WellFormed(update.value, length)
    ensures var ranges := UploadRanges(uploaded, revision, length, update);
      && ranges.Ok?
      && (Inside(ranges.value, i) <==>
            i < length
            && (update.Some? && uploaded == Some(update.value.previousRevision)
                && update.value.previousRevision < revision
                ==> Marked(update.value, i)))
  {
    PlannedDeltaAccepted(uploaded, revision, length, update);
    InsideOne(Range(0, length), i);
    if update.Some? {
      var u := update.value;
      var envelope := Range(Down(u.range.start), Min(Up(u.range.end), length));
      RoundedWithin(u.range.end, length);
      InsideOne(envelope, i);
      Words(u.range, i);
    }
  }

  /** At most 128 nonempty ranges of whole words, apart from each other, from one end of the envelope to the other. */
  ghost predicate Sendable(ranges: seq<Range>, envelope: Range, length: nat) {
    && 0 < |ranges| <= 128
    && ranges[0].start == envelope.start / 4 * 4
    && ranges[|ranges| - 1].end == Min((envelope.end + 3) / 4 * 4, length)
    && (forall k :: 0 <= k < |ranges| ==>
          ranges[k].start < ranges[k].end <= length && ranges[k].start % 4 == 0 && ranges[k].end % 4 == 0)
    && forall j, k :: 0 <= j < k < |ranges| ==> ranges[j].end < ranges[k].start
  }

  /**
   A delta, whoever made it, is refused exactly when its range is empty or
   outside the buffer, or when it is about to be used and its end overflows or
   its intervals cannot be sent as they are.
   */
  lemma RefusesExactly(uploaded: Option<nat>, revision: nat, length: nat, u: BufferUpdate)
    ensures UploadRanges(uploaded, revision, length, Some(u)).Err?
      <==> || u.range.start >= u.range.end || u.range.end > length
           || (uploaded == Some(u.previousRevision) && u.previousRevision < revision
               && (|| u.range.end + 3 > 0xFFFF_FFFF_FFFF_FFFF
                   || (u.intervals.Some? && !GaveUp(u) && !Sendable(u.intervals.value, u.range, length))))
  {
    Rounded(u.range.start);
    Rounded(u.range.end);
    if u.intervals.Some? && !GaveUp(u) {
      var ranges := u.intervals.value;
      if UploadRanges(uploaded, revision, length, Some(u)).Ok? {
        NeighboursApart(ranges);
      }
    }
  }

  /** Nonempty ranges whose neighbours are apart are all apart. */
  lemma NeighboursApart(ranges: seq<Range>)
    ensures (&& (forall k :: 0 <= k < |ranges| ==> ranges[k].start < ranges[k].end)
             && (forall k :: 0 <= k < |ranges| - 1 ==> ranges[k].end < ranges[k + 1].start)) ==>
      forall j, k :: 0 <= j < k < |ranges| ==> ranges[j].end < ranges[k].start
  {
    if (forall k :: 0 <= k < |ranges| ==> ranges[k].start < ranges[k].end)
      && (forall k :: 0 <= k < |ranges| - 1 ==> ranges[k].end < ranges[k + 1].start) {
      forall j, k | 0 <= j < k < |ranges| ensures ranges[j].end < ranges[k].start {
        ApartFrom(ranges, j, k);
      }
    }
  }

  lemma {:induction false} ApartFrom(ranges: seq<Range>, j: nat, k: nat)
    requires j < k < |ranges|
    requires forall i :: 0 <= i < |ranges| ==> ranges[i].start < ranges[i].end
    requires forall i :: 0 <= i < |ranges| - 1 ==> ranges[i].end < ranges[i + 1].start
    ensures ranges[j].end < ranges[k].start
    decreases k - j
  {
    if j + 1 < k {
      ApartFrom(ranges, j, k - 1);
      assert ranges[k - 1].end < ranges[k - 1 + 1].start;
    }
  }

  // -------------------------------------------------------- the plan's deltas

  /** One write extends its buffer's pending delta by the words that really change. */
  lemma WriteMarks(shadows: seq<BufferShadow>, plan: Plan, slot: nat, end: nat, r: Range, ranges: seq<Ranges.Segment>,
    i: nat)
    requires Built(shadows, plan) && slot < |shadows| && r.start < r.end <= end
    ensures var after := WrittenUpdate(shadows[slot], plan, slot, end, r, ranges).upload;
      match Lookup(plan.updates, slot)
      case None =>
        && after.previousRevision == shadows[slot].revision
        && (!GaveUp(after) ==> (Marked(after, i) <==> InWords(r, i)))
      case Some(update) =>
        && after.previousRevision == update.upload.previousRevision
        && (!GaveUp(after) && update.upload.intervals.Some? ==>
              (Marked(after, i) <==> Marked(update.upload, i) || InWords(r, i)))
  {
    match Lookup(plan.updates, slot) {
      case None => SparseMarks(shadows[slot].revision, r, i);
      case Some(update) =>
        if update.upload.intervals.Some? {
          assert UpdateBuilt(shadows[slot], plan, update);
          var length := Max(update.length, end);
          LongerWellFormed(update.upload, update.length, length);
          ExtendMarks(update.upload, r, length, i);
        }
    }
  }

  /**
   What an event leaves of the delta retained for a slot: acceptance without a
   preparation extends it and keeps its base, the revision at which it began;
   preparation, compute output and release drop it; nothing else touches it.
   */
  lemma BaseKept(floats: S.Floats, state: S.Resources, histories: seq<S.History>, event: S.Event, s: nat)
    requires S.Sound(floats, state, histories) && S.Enabled(floats, state, event) && s < |state.shadows|
    ensures var before, after := state.shadows[s], S.Step(state, event).shadows[s];
      if event.Accept? && s in state.attempt.value.prepared then after.upload.None?
      else if event.Accept? && Lookup(state.attempt.value.plan.updates, s).Some? then
        && after.upload.Some?
        && after.upload.value.previousRevision
             == if before.upload.Some? then before.upload.value.previousRevision else before.revision
      else if (event.Compute? && s in event.outputs) || (event.Release? && event.slot == s) then after.upload.None?
      else after.upload == before.upload
  {
    assert S.SlotSound(floats, state.shadows[s], state.canonical[s], histories[s]);
    if event.Accept? && Lookup(state.attempt.value.plan.updates, s).Some? {
      assert UpdateBuilt(state.shadows[s], state.attempt.value.plan,
          Lookup(state.attempt.value.plan.updates, s).value);
    }
  }

  // ------------------------------------------------------ failed preparation

  /** The buffer cannot be sent: empty, not in whole words, or too long for its storage or the packet format. */
  predicate Unsendable(view: seq<byte>, cells: nat) {
    |view| == 0 || |view| % 4 != 0 || |view| > cells || cells > 0xFFFF_FFFF
  }

  /**
   In every reachable state a preparation fails its attempt exactly when the
   buffer cannot be sent: no delta a run retains or plans is ever refused.
   */
  lemma PrepareFailsExactly(floats: S.Floats, start: S.Resources, events: seq<S.Event>, s: nat)
    requires S.Initial(start) && S.Runs(floats, start, events, |events|)
    requires S.Ready(S.Final(start, events), S.Prepare(s))
    requires s !in S.Final(start, events).attempt.value.prepared
    ensures var state := S.Final(start, events);
      var view := View(state.shadows[s], state.attempt.value.plan, s);
      && (S.Step(state, S.Prepare(s)).attempt.None? <==> Unsendable(view, |state.physical[s].cells|))
      && (S.Effect(state, S.Prepare(s)) == S.Fail <==> Unsendable(view, |state.physical[s].cells|))
  {
    var state := S.Final(start, events);
    S.RunSound(floats, start, events, |events|);
    PrepareFails(floats, state, S.RecordedRun(start, events, |events|), s);
  }

  lemma PrepareFails(floats: S.Floats, state: S.Resources, histories: seq<S.History>, s: nat)
    requires S.Sound(floats, state, histories) && S.Ready(state, S.Prepare(s))
    requires s !in state.attempt.value.prepared
    ensures var view := View(state.shadows[s], state.attempt.value.plan, s);
      && (S.Step(state, S.Prepare(s)).attempt.None? <==> Unsendable(view, |state.physical[s].cells|))
      && (S.Effect(state, S.Prepare(s)) == S.Fail <==> Unsendable(view, |state.physical[s].cells|))
  {
    var plan, shadow, physical := state.attempt.value.plan, state.shadows[s], state.physical[s];
    var length, upload := Length(shadow, plan, s), S.UploadForSlot(shadow, plan, s);
    S.PendingDelta(floats, state, histories, plan, s);
    if !Unsendable(View(shadow, plan, s), |physical.cells|) {
      PlannedDeltaAccepted(physical.uploadedRevision, S.PendingRevision(shadow, plan, s), length, upload);
      assert S.SlotRanges(shadow, physical, plan, s).Ok?;
    }
    assert S.SlotRanges(shadow, physical, plan, s).Err? <==> Unsendable(View(shadow, plan, s), |physical.cells|);
  }
}
