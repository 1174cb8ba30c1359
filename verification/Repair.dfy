/**
 What the device holds over whole runs of attempts. A recorded revision stands
 for the accepted contents of that revision, except after one pattern: a failed
 synchronous attempt prepared the slot at the next revision number, and that
 number was then given to other contents.
 */
module Repair {
  import opened Common
  import opened Deltas
  import opened Uploads
  import opened BufferPlan
  import opened Submissions

  /** The cells of a slot once every staged packet has run. */
  function Device(state: Resources, s: nat): seq<Option<byte>>
    requires state.Parallel() && s < |state.shadows|
  {
    var cells := state.physical[s].cells;
    match state.attempt case None => cells case Some(a) => AllLanded(cells, a.staged, s)
  }

  /**
   What a caller remembers about one slot: the contents last prepared at a
   revision number no accepted stream has used yet, now and when the attempt
   in progress began.
   */
  datatype Left = Left(now: Option<seq<byte>>, kept: Option<seq<byte>>)

  function LeftSlot(state: Resources, left: Left, e: Event, s: nat): Left
    requires state.Parallel() && Ready(state, e) && s < |state.shadows|
  {
    match e
    case Begin(_, _) => Left(left.now, left.now)
    case Prepare(_) => if Starts(state, e, s) then left.(now := None) else left
    case Complete =>
      var plan := state.attempt.value.plan;
      if !Completes(state, e, s) then left
      else if Lookup(plan.updates, s).Some? then left.(now := Some(View(state.shadows[s], plan, s)))
      else left.(now := None)
    case Fail => if state.attempt.value.snapshot.Some? then left.(now := left.kept) else left
    case Release(slot, _) => if slot == s then Left(None, None) else left
    case _ => if Accepted(state, e, s).Some? then left.(now := None) else left
  }

  function LeftAfter(state: Resources, lefts: seq<Left>, event: Event): (after: seq<Left>)
    requires state.Parallel() && |state.shadows| == |lefts|
    ensures |after| == |lefts|
  {
    if !Ready(state, event) then lefts
    else
      seq(|lefts|, (s: int) requires 0 <= s < |lefts| => LeftSlot(state, lefts[s], Effect(state, event), s))
  }

  /** What is left after the first `k` events of a run. */
  function LeftRun(start: Resources, events: seq<Event>, k: nat): (lefts: seq<Left>)
    requires start.Parallel() && k <= |events|
    ensures |lefts| == |start.shadows|
  {
    if k == 0 then seq(|start.shadows|, _ => Left(None, None))
    else LeftAfter(StateAfter(start, events, k - 1), LeftRun(start, events, k - 1), events[k - 1])
  }

  /**
   The event gives a revision number at which contents were left to contents
   that differ: in a byte left, or in bytes beyond them that the device lacks.
   */
  ghost predicate Reuses(state: Resources, left: Left, event: Event, s: nat)
    requires state.Parallel() && s < |state.shadows|
  {
    && Ready(state, event) && left.now.Some?
    && var contents := Accepted(state, event, s);
       contents.Some? && Differs(left.now.value, Device(state, s), contents.value)
  }

  ghost predicate Differs(left: seq<byte>, cells: seq<Option<byte>>, contents: seq<byte>) {
    if |contents| <= |left| then contents != left[..|contents|]
    else left != contents[..|left|] || !Holds(cells, contents)
  }

  ghost predicate Conflicts(state: Resources, lefts: seq<Left>, event: Event)
    requires state.Parallel() && |state.shadows| == |lefts|
  {
    exists s :: 0 <= s < |lefts| && Reuses(state, lefts[s], event, s)
  }

  /** Cells, the revision recorded for them, and what that revision means. */
  ghost predicate Known(cells: seq<Option<byte>>, uploaded: Option<nat>, history: History, left: Option<seq<byte>>) {
    && (uploaded.Some? ==> uploaded.value <= |history|)
    && (uploaded.Some? && uploaded.value < |history| ==> Holds(cells, history[uploaded.value]))
    && (left.Some? <==> uploaded == Some(|history|))
    && (left.Some? ==> Holds(cells, left.value))
  }

  /** The preparation under way will leave the pending contents once its remaining ranges are sent. */
  ghost predicate Sending(state: Resources, s: nat)
    requires state.Parallel() && s < |state.shadows|
  {
    state.attempt.Some? && state.attempt.value.current.Some? && state.attempt.value.current.value.slot == s ==>
      && s !in state.attempt.value.prepared && state.physical[s].uploadedRevision == None
      && var view := View(state.shadows[s], state.attempt.value.plan, s);
         Holds(Patched(Device(state, s), view, state.attempt.value.current.value.remaining), view)
  }

  ghost predicate PreparedAt(state: Resources, s: nat)
    requires state.Parallel() && s < |state.shadows|
  {
    state.attempt.Some? && s in state.attempt.value.prepared ==>
      state.physical[s].uploadedRevision
        == Some(PendingRevision(state.shadows[s], state.attempt.value.plan, s))
  }

  /** What a failure of a tracked attempt would go back to. */
  ghost predicate Restorable(state: Resources, history: History, left: Left, s: nat)
    requires state.Parallel() && s < |state.shadows|
  {
    state.attempt.Some? && state.attempt.value.snapshot.Some? ==>
      Known(state.physical[s].cells, state.attempt.value.snapshot.value[s], history, left.kept)
  }

  ghost predicate SlotGrounded(state: Resources, history: History, left: Left, s: nat)
    requires state.Parallel() && s < |state.shadows|
  {
    && Known(Device(state, s), state.physical[s].uploadedRevision, history, left.now)
    && Restorable(state, history, left, s) && Sending(state, s) && PreparedAt(state, s)
    && (state.attempt.Some? && state.attempt.value.snapshot.None? ==> state.attempt.value.staged == [])
  }

  ghost predicate Grounded(state: Resources, histories: seq<History>, lefts: seq<Left>) {
    && state.Parallel() && |state.shadows| == |histories| == |lefts|
    && forall s :: 0 <= s < |state.shadows| ==> SlotGrounded(state, histories[s], lefts[s], s)
  }

  /** Where the device holds what was left, the contents differ exactly when it does not hold them. */
  lemma DiffersDecided(left: seq<byte>, cells: seq<Option<byte>>, contents: seq<byte>)
    requires Holds(cells, left)
    ensures Differs(left, cells, contents) <==> !Holds(cells, contents)
  {
    if |contents| <= |left| {
      if Holds(cells, contents) {
        forall i | 0 <= i < |contents| ensures contents[i] == left[i] {
          assert cells[i] == Some(contents[i]) && cells[i] == Some(left[i]);
        }
        assert contents == left[..|contents|];
      }
    } else if Holds(cells, contents) {
      forall i | 0 <= i < |left| ensures contents[i] == left[i] {
        assert cells[i] == Some(contents[i]) && cells[i] == Some(left[i]);
      }
      assert left == contents[..|left|];
    }
  }

  /** The bytes still to send shrink by exactly the piece sent. */
  lemma PieceInside(remaining: seq<Range>, end: nat, i: nat)
    requires remaining != [] && remaining[0].start < end <= remaining[0].end
    ensures Inside(remaining, i) <==> remaining[0].start <= i < end || Inside(AfterSend(remaining, end), i)
  {
    var first, rest := remaining[0], remaining[1..];
    assert remaining == [first] + rest;
    InsideConcat([first], rest, i);
    InsideOne(first, i);
    InsideConcat([Range(end, first.end)], rest, i);
    InsideOne(Range(end, first.end), i);
  }

  lemma PieceHolds(cells: seq<Option<byte>>, view: seq<byte>, remaining: seq<Range>, end: nat)
    requires remaining != [] && remaining[0].start < end <= remaining[0].end
    requires Holds(Patched(cells, view, remaining), view)
    ensures var start := remaining[0].start;
      Holds(Patched(Landed(cells, start, Slice(view, start, end - start)), view, AfterSend(remaining, end)), view)
  {
    var start := remaining[0].start;
    var after := Landed(cells, start, Slice(view, start, end - start));
    var patched := Patched(after, view, AfterSend(remaining, end));
    forall i | 0 <= i < |view| ensures patched[i] == Some(view[i]) {
      PieceInside(remaining, end, i);
      assert Patched(cells, view, remaining)[i] == Some(view[i]);
    }
  }

  lemma StagedDevice(cells: seq<Option<byte>>, staged: seq<Packet>, packet: Packet, s: nat)
    ensures AllLanded(cells, staged + [packet], s)
      == if packet.slot == s then Landed(AllLanded(cells, staged, s), packet.at, packet.data)
         else AllLanded(cells, staged, s)
  {
    assert (staged + [packet])[..|staged|] == staged;
  }

  /** A preparation starts from known cells, so patching its ranges gives the pending contents. */
  lemma RangesSuffice(
    floats: Floats, state: Resources, histories: seq<History>, left: Option<seq<byte>>, plan: Plan, s: nat,
    cells: seq<Option<byte>>)
    requires Sound(floats, state, histories) && Built(state.shadows, plan) && s < |state.shadows|
    requires Known(cells, state.physical[s].uploadedRevision, histories[s], left)
    requires |cells| == |state.physical[s].cells|
    requires state.physical[s].uploadedRevision != Some(PendingRevision(state.shadows[s], plan, s))
    requires SlotRanges(state.shadows[s], state.physical[s], plan, s).Ok?
    ensures var view := View(state.shadows[s], plan, s);
      Holds(Patched(cells, view, SlotRanges(state.shadows[s], state.physical[s], plan, s).value), view)
  {
    var shadow, uploaded := state.shadows[s], state.physical[s].uploadedRevision;
    var revision, view := PendingRevision(shadow, plan, s), View(shadow, plan, s);
    var upload := UploadForSlot(shadow, plan, s);
    PendingDelta(floats, state, histories, plan, s);
    PendingSlot(state.shadows, plan, s);
    SoundHistory(floats, state, histories, s);
    PreparedHolds(Physical(cells, uploaded), revision, view, upload,
      if upload.Some? then histories[s][upload.value.previousRevision] else []);
  }

  /** A step of the machine in a grounded, sound state, seen at slot `s`. */
  ghost predicate Stepping(
    floats: Floats, state: Resources, histories: seq<History>, lefts: seq<Left>, event: Event, s: nat)
  {
    && Sound(floats, state, histories) && Grounded(state, histories, lefts)
    && Enabled(floats, state, event) && s < |state.shadows|
  }

  ghost predicate Landing(state: Resources, histories: seq<History>, lefts: seq<Left>, event: Event, s: nat)
    requires state.Parallel() && |state.shadows| == |histories| == |lefts| && s < |state.shadows|
  {
    SlotGrounded(Step(state, event), Recorded(state, histories, event)[s], LeftAfter(state, lefts, event)[s], s)
  }

  lemma BeginGrounded(
    floats: Floats, state: Resources, histories: seq<History>, lefts: seq<Left>, event: Event, s: nat)
    requires Stepping(floats, state, histories, lefts, event, s) && event.Begin?
    ensures Landing(state, histories, lefts, event, s)
  {
    assert SlotGrounded(state, histories[s], lefts[s], s);
    assert Device(Step(state, event), s) == Device(state, s);
  }

  lemma PrepareGrounded(
    floats: Floats, state: Resources, histories: seq<History>, lefts: seq<Left>, event: Event, s: nat)
    requires Stepping(floats, state, histories, lefts, event, s) && event.Prepare? && Effect(state, event) == event
    ensures Landing(state, histories, lefts, event, s)
  {
    assert SlotGrounded(state, histories[s], lefts[s], s);
    var after, plan := Step(state, event), state.attempt.value.plan;
    assert Device(after, s) == Device(state, s);
    assert after.shadows == state.shadows;
    if Starts(state, event, s) {
      RangesSuffice(floats, state, histories, lefts[s].now, plan, s, Device(state, s));
    }
  }

  lemma SendGrounded(
    floats: Floats, state: Resources, histories: seq<History>, lefts: seq<Left>, event: Event, s: nat)
    requires Stepping(floats, state, histories, lefts, event, s) && event.Send?
    ensures Landing(state, histories, lefts, event, s)
  {
    assert SlotGrounded(state, histories[s], lefts[s], s);
    var after, a, packet := Step(state, event), state.attempt.value, NextPacket(state, event.end);
    assert after.shadows == state.shadows;
    StagedDevice(state.physical[s].cells, a.staged, packet, s);
    assert Device(after, s)
      == if packet.slot == s then Landed(Device(state, s), packet.at, packet.data) else Device(state, s);
    if packet.slot == s {
      PieceHolds(Device(state, s), View(state.shadows[s], a.plan, s), a.current.value.remaining, event.end);
    }
  }

  /** With nothing left to send, patching changes nothing. */
  lemma NothingRemains(cells: seq<Option<byte>>, view: seq<byte>)
    ensures Patched(cells, view, []) == cells
  {
  }

  lemma CompleteGrounded(
    floats: Floats, state: Resources, histories: seq<History>, lefts: seq<Left>, event: Event, s: nat)
    requires Stepping(floats, state, histories, lefts, event, s) && event.Complete?
    ensures Landing(state, histories, lefts, event, s)
  {
    assert SlotGrounded(state, histories[s], lefts[s], s);
    var after, a := Step(state, event), state.attempt.value;
    assert after.shadows == state.shadows;
    assert Device(after, s) == Device(state, s);
    PendingSlot(state.shadows, a.plan, s);
    SoundHistory(floats, state, histories, s);
    NothingRemains(Device(state, s), View(state.shadows[s], a.plan, s));
  }

  lemma FailGrounded(
    floats: Floats, state: Resources, histories: seq<History>, lefts: seq<Left>, event: Event, s: nat)
    requires Stepping(floats, state, histories, lefts, event, s) && Effect(state, event).Fail?
    ensures Landing(state, histories, lefts, event, s)
  {
    assert SlotGrounded(state, histories[s], lefts[s], s);
    var after := Step(state, event);
    assert Device(after, s) == state.physical[s].cells;
  }

  lemma AcceptGrounded(
    floats: Floats, state: Resources, histories: seq<History>, lefts: seq<Left>, event: Event, s: nat)
    requires Stepping(floats, state, histories, lefts, event, s) && (event.Accept? || event.Compute?)
    requires !Conflicts(state, lefts, event)
    ensures Landing(state, histories, lefts, event, s)
  {
    assert SlotGrounded(state, histories[s], lefts[s], s);
    assert !Reuses(state, lefts[s], event, s);
    var after := Step(state, event);
    assert Device(after, s) == Device(state, s);
    SoundHistory(floats, state, histories, s);
    var contents := Accepted(state, event, s);
    if contents.Some? && lefts[s].now.Some? {
      DiffersDecided(lefts[s].now.value, Device(state, s), contents.value);
    }
  }

  lemma ReleaseGrounded(
    floats: Floats, state: Resources, histories: seq<History>, lefts: seq<Left>, event: Event, s: nat)
    requires Stepping(floats, state, histories, lefts, event, s) && event.Release?
    ensures Landing(state, histories, lefts, event, s)
  {
    assert SlotGrounded(state, histories[s], lefts[s], s);
  }

  lemma SlotStep(
    floats: Floats, state: Resources, histories: seq<History>, lefts: seq<Left>, event: Event, s: nat)
    requires Stepping(floats, state, histories, lefts, event, s) && !Conflicts(state, lefts, event)
    ensures Landing(state, histories, lefts, event, s)
  {
    if Effect(state, event).Fail? {
      FailGrounded(floats, state, histories, lefts, event, s);
    } else {
      match event {
        case Begin(_, _) => BeginGrounded(floats, state, histories, lefts, event, s);
        case Prepare(_) => PrepareGrounded(floats, state, histories, lefts, event, s);
        case Send(_) => SendGrounded(floats, state, histories, lefts, event, s);
        case Complete => CompleteGrounded(floats, state, histories, lefts, event, s);
        case Release(_, _) => ReleaseGrounded(floats, state, histories, lefts, event, s);
        case _ => AcceptGrounded(floats, state, histories, lefts, event, s);
      }
    }
  }

  /** Without a conflict every event keeps the device what the records say. */
  lemma StepGrounded(
    floats: Floats, state: Resources, histories: seq<History>, lefts: seq<Left>, event: Event)
    requires Sound(floats, state, histories) && Grounded(state, histories, lefts) && Enabled(floats, state, event)
    requires !Conflicts(state, lefts, event)
    ensures Grounded(Step(state, event), Recorded(state, histories, event), LeftAfter(state, lefts, event))
  {
    var after, recorded, next := Step(state, event), Recorded(state, histories, event), LeftAfter(state, lefts, event);
    forall s | 0 <= s < |after.shadows| ensures SlotGrounded(after, recorded[s], next[s], s) {
      SlotStep(floats, state, histories, lefts, event, s);
    }
  }

  /** Every recorded accepted revision stands for what was accepted at it. */
  ghost predicate Faithful(state: Resources, histories: seq<History>) {
    && state.Parallel() && |state.shadows| == |histories|
    && forall s :: 0 <= s < |state.shadows| ==> SlotFaithful(state, histories[s], s)
  }

  ghost predicate SlotFaithful(state: Resources, history: History, s: nat)
    requires state.Parallel() && s < |state.shadows|
  {
    var uploaded := state.physical[s].uploadedRevision;
    uploaded.Some? && uploaded.value < |history| ==> Holds(Device(state, s), history[uploaded.value])
  }

  lemma GroundedFaithful(state: Resources, histories: seq<History>, lefts: seq<Left>)
    requires Grounded(state, histories, lefts)
    ensures Faithful(state, histories)
  {
    forall s | 0 <= s < |state.shadows| ensures SlotFaithful(state, histories[s], s) {
      assert SlotGrounded(state, histories[s], lefts[s], s);
    }
  }

  /** A conflict leaves the slot recorded at a revision whose contents it does not hold. */
  lemma ConflictUnfaithful(
    floats: Floats, state: Resources, histories: seq<History>, lefts: seq<Left>, event: Event)
    requires Sound(floats, state, histories) && Grounded(state, histories, lefts) && Enabled(floats, state, event)
    requires Conflicts(state, lefts, event)
    ensures !Faithful(Step(state, event), Recorded(state, histories, event))
  {
    var s :| 0 <= s < |lefts| && Reuses(state, lefts[s], event, s);
    assert SlotGrounded(state, histories[s], lefts[s], s);
    var after, history := Step(state, event), Recorded(state, histories, event)[s];
    assert Device(after, s) == Device(state, s);
    SoundHistory(floats, state, histories, s);
    DiffersDecided(lefts[s].now.value, Device(state, s), Accepted(state, event, s).value);
    assert !SlotFaithful(after, history, s);
  }

  /** Event `k` of the run gives reused contents to a revision number left behind. */
  ghost predicate ConflictAt(start: Resources, events: seq<Event>, k: nat)
    requires start.Parallel() && k < |events|
  {
    Conflicts(StateAfter(start, events, k), LeftRun(start, events, k), events[k])
  }

  /** As long as nothing conflicts, every state of a run is grounded. */
  lemma {:induction false} RunGrounded(floats: Floats, start: Resources, events: seq<Event>, k: nat)
    requires k <= |events| && Initial(start) && Runs(floats, start, events, k)
    requires forall j :: 0 <= j < k ==> !ConflictAt(start, events, j)
    ensures Grounded(StateAfter(start, events, k), RecordedRun(start, events, k), LeftRun(start, events, k))
  {
    if k > 0 {
      RunGrounded(floats, start, events, k - 1);
      RunSound(floats, start, events, k - 1);
      assert !ConflictAt(start, events, k - 1);
      StepGrounded(floats, StateAfter(start, events, k - 1), RecordedRun(start, events, k - 1),
        LeftRun(start, events, k - 1), events[k - 1]);
    }
  }

  ghost predicate FaithfulAt(start: Resources, events: seq<Event>, k: nat)
    requires start.Parallel() && k <= |events|
  {
    Faithful(StateAfter(start, events, k), RecordedRun(start, events, k))
  }

  /** The first of the conflicts of a run. */
  lemma {:induction false} FirstConflict(start: Resources, events: seq<Event>, k: nat) returns (first: nat)
    requires start.Parallel() && k < |events| && ConflictAt(start, events, k)
    ensures first <= k && ConflictAt(start, events, first)
    ensures forall j :: 0 <= j < first ==> !ConflictAt(start, events, j)
  {
    if j: nat :| j < k && ConflictAt(start, events, j) {
      first := FirstConflict(start, events, j);
    } else {
      first := k;
    }
  }

  /**
   Over every run of synchronous and tracked attempts, compute publications and
   releases, every recorded revision stands for its accepted contents in all
   states exactly when no event gives a left revision number to other contents.
   */
  lemma FaithfulExactly(floats: Floats, start: Resources, events: seq<Event>)
    requires Initial(start) && Runs(floats, start, events, |events|)
    ensures (forall k :: 0 <= k <= |events| ==> FaithfulAt(start, events, k))
      <==> (forall k :: 0 <= k < |events| ==> !ConflictAt(start, events, k))
  {
    if k: nat :| k < |events| && ConflictAt(start, events, k) {
      var first := FirstConflict(start, events, k);
      ConflictShows(floats, start, events, first);
      assert !FaithfulAt(start, events, first + 1);
    } else {
      forall k | 0 <= k <= |events| ensures FaithfulAt(start, events, k) {
        RunsPrefix(floats, start, events, k, |events|);
        RunGrounded(floats, start, events, k);
        GroundedFaithful(StateAfter(start, events, k), RecordedRun(start, events, k), LeftRun(start, events, k));
      }
    }
  }

  lemma ConflictShows(floats: Floats, start: Resources, events: seq<Event>, k: nat)
    requires k < |events| && Initial(start) && Runs(floats, start, events, |events|)
    requires ConflictAt(start, events, k) && forall j :: 0 <= j < k ==> !ConflictAt(start, events, j)
    ensures !FaithfulAt(start, events, k + 1)
  {
    RunsPrefix(floats, start, events, k + 1, |events|);
    RunsPrefix(floats, start, events, k, |events|);
    RunGrounded(floats, start, events, k);
    RunSound(floats, start, events, k);
    ConflictUnfaithful(floats, StateAfter(start, events, k), RecordedRun(start, events, k),
      LeftRun(start, events, k), events[k]);
  }

  /**
   On acceptance the delta of every prepared slot is dropped and its recorded
   revision is the accepted one; the device holds the accepted bytes exactly
   when nothing left was reused. Every other slot keeps its merged delta.
   */
  lemma AcceptedBuffersUploaded(
    floats: Floats, start: Resources, events: seq<Event>, k: nat, s: nat)
    requires k < |events| && Initial(start) && Runs(floats, start, events, k + 1) && s < |start.shadows|
    requires forall j :: 0 <= j < k ==> !ConflictAt(start, events, j)
    requires events[k].Accept?
    ensures var state, after := StateAfter(start, events, k), StateAfter(start, events, k + 1);
      if s in state.attempt.value.prepared then
        && after.shadows[s].upload == None
        && after.physical[s].uploadedRevision == Some(after.shadows[s].revision)
        && (Holds(after.physical[s].cells, Contents(after.shadows[s]))
            <==> !Reuses(state, LeftRun(start, events, k)[s], events[k], s))
      else
        after.shadows[s].upload == UploadForSlot(state.shadows[s], state.attempt.value.plan, s)
  {
    RunsPrefix(floats, start, events, k, k + 1);
    RunGrounded(floats, start, events, k);
    RunSound(floats, start, events, k);
    AcceptedSlot(floats, StateAfter(start, events, k), RecordedRun(start, events, k), LeftRun(start, events, k),
      events[k], s);
  }

  lemma AcceptedSlot(
    floats: Floats, state: Resources, histories: seq<History>, lefts: seq<Left>, event: Event, s: nat)
    requires Stepping(floats, state, histories, lefts, event, s) && event.Accept?
    ensures var after := Step(state, event);
      if s in state.attempt.value.prepared then
        && after.shadows[s].upload == None
        && after.physical[s].uploadedRevision == Some(after.shadows[s].revision)
        && (Holds(after.physical[s].cells, Contents(after.shadows[s])) <==> !Reuses(state, lefts[s], event, s))
      else
        after.shadows[s].upload == UploadForSlot(state.shadows[s], state.attempt.value.plan, s)
  {
    assert SlotGrounded(state, histories[s], lefts[s], s);
    PendingSlot(state.shadows, state.attempt.value.plan, s);
    SoundHistory(floats, state, histories, s);
    if s in state.attempt.value.prepared && lefts[s].now.Some? {
      DiffersDecided(lefts[s].now.value, Device(state, s), View(state.shadows[s], state.attempt.value.plan, s));
    }
  }

  /** In a run of tracked attempts only the one in progress has anything to leave. */
  ghost predicate NothingLeft(state: Resources, lefts: seq<Left>) {
    && state.Parallel() && |state.shadows| == |lefts|
    && (state.attempt.Some? ==> state.attempt.value.snapshot.Some?)
    && forall s :: 0 <= s < |lefts| ==> OwnContents(state, lefts[s], s)
  }

  ghost predicate OwnContents(state: Resources, left: Left, s: nat)
    requires state.Parallel() && s < |state.shadows|
  {
    match state.attempt
    case None => left.now == None
    case Some(a) =>
      && left.kept == None
      && (left.now.Some? ==>
           Lookup(a.plan.updates, s).Some? && left.now.value == View(state.shadows[s], a.plan, s))
  }

  lemma NothingLeftStep(state: Resources, lefts: seq<Left>, event: Event)
    requires NothingLeft(state, lefts) && Ready(state, event) && (event.Begin? ==> event.tracked)
    ensures NothingLeft(Step(state, event), LeftAfter(state, lefts, event)) && !Conflicts(state, lefts, event)
  {
    var after, next := Step(state, event), LeftAfter(state, lefts, event);
    forall s | 0 <= s < |lefts| ensures OwnContents(after, next[s], s) && !Reuses(state, lefts[s], event, s) {
      assert OwnContents(state, lefts[s], s);
    }
  }

  /** Tracked attempts never conflict, whatever fails. */
  lemma {:induction false} TrackedNeverConflicts(floats: Floats, start: Resources, events: seq<Event>, k: nat)
    requires k <= |events| && Initial(start) && Runs(floats, start, events, k)
    requires forall j :: 0 <= j < k && events[j].Begin? ==> events[j].tracked
    ensures NothingLeft(StateAfter(start, events, k), LeftRun(start, events, k))
    ensures forall j :: 0 <= j < k ==> !ConflictAt(start, events, j)
  {
    if k > 0 {
      TrackedNeverConflicts(floats, start, events, k - 1);
      NothingLeftStep(StateAfter(start, events, k - 1), LeftRun(start, events, k - 1), events[k - 1]);
    }
  }

  /** Event `j` completes the preparation of contents `c` of slot `s` in a synchronous attempt. */
  ghost predicate PreparesAt(start: Resources, events: seq<Event>, j: nat, s: nat, c: seq<byte>)
    requires start.Parallel() && j < |events| && s < |start.shadows|
  {
    var state := StateAfter(start, events, j);
    && Ready(state, events[j]) && Completes(state, events[j], s) && state.attempt.value.snapshot.None?
    && Lookup(state.attempt.value.plan.updates, s).Some? && View(state.shadows[s], state.attempt.value.plan, s) == c
  }

  ghost predicate AcceptsAt(start: Resources, events: seq<Event>, i: nat, s: nat)
    requires start.Parallel() && i < |events| && s < |start.shadows|
  {
    var state := StateAfter(start, events, i);
    Ready(state, events[i]) && Accepted(state, events[i], s).Some?
  }

  /** A synchronous attempt prepared `c`, and no contents of the slot were accepted since. */
  ghost predicate PreparedUnaccepted(start: Resources, events: seq<Event>, k: nat, s: nat, c: seq<byte>)
    requires start.Parallel() && k <= |events| && s < |start.shadows|
  {
    k > 0
    && (PreparesAt(start, events, k - 1, s, c)
        || (PreparedUnaccepted(start, events, k - 1, s, c) && !AcceptsAt(start, events, k - 1, s)))
  }

  /** Where the contents left behind come from, in and out of attempts. */
  ghost predicate Traced(start: Resources, events: seq<Event>, k: nat, s: nat)
    requires start.Parallel() && k <= |events| && s < |start.shadows|
  {
    var attempt, left := StateAfter(start, events, k).attempt, LeftRun(start, events, k)[s];
    if attempt.None? || attempt.value.snapshot.None? then
      left.now.Some? ==> PreparedUnaccepted(start, events, k, s, left.now.value)
    else
      && (left.kept.Some? ==> PreparedUnaccepted(start, events, k, s, left.kept.value))
      && (left.now.Some? ==> Lookup(attempt.value.plan.updates, s).Some? || left.now == left.kept)
  }

  /** How one event changes what is left of a slot. */
  lemma LeftChange(state: Resources, left: Left, event: Event, s: nat)
    requires state.Parallel() && Ready(state, event) && s < |state.shadows|
    requires state.attempt.Some? && state.attempt.value.snapshot.Some? && left.now.Some? ==>
      Lookup(state.attempt.value.plan.updates, s).Some? || left.now == left.kept
    ensures var after, next := Step(state, event).attempt, LeftSlot(state, left, Effect(state, event), s);
      var tracked := state.attempt.Some? && state.attempt.value.snapshot.Some?;
      && (Accepted(state, event, s).Some? ==> next.now.None? && after.None?)
      && (after.None? && next.now.Some? ==> next.now == if tracked then left.kept else left.now)
      && (after.Some? && after.value.snapshot.None? && next.now.Some? && next.now != left.now ==>
           Completes(state, event, s) && !tracked && Lookup(state.attempt.value.plan.updates, s).Some?
           && next.now.value == View(state.shadows[s], state.attempt.value.plan, s))
      && (after.Some? && after.value.snapshot.Some? ==>
           && next.kept == (if state.attempt.None? then left.now else left.kept)
           && (next.now.Some? ==> Lookup(after.value.plan.updates, s).Some? || next.now == next.kept))
  {
  }

  lemma TracedStep(start: Resources, events: seq<Event>, k: nat, s: nat)
    requires start.Parallel() && k < |events| && s < |start.shadows| && Traced(start, events, k, s)
    requires Ready(StateAfter(start, events, k), events[k])
    ensures Traced(start, events, k + 1, s)
  {
    var state, left := StateAfter(start, events, k), LeftRun(start, events, k)[s];
    assert LeftRun(start, events, k + 1)[s] == LeftSlot(state, left, Effect(state, events[k]), s);
    LeftChange(state, left, events[k], s);
    if Accepted(state, events[k], s).None? {
      assert !AcceptsAt(start, events, k, s);
      if Completes(state, events[k], s) && state.attempt.value.snapshot.None?
        && Lookup(state.attempt.value.plan.updates, s).Some?
      {
        assert PreparesAt(start, events, k, s, View(state.shadows[s], state.attempt.value.plan, s));
      }
    }
  }

  /**
   Between attempts, contents are left only by a synchronous attempt that
   prepared them and failed: nothing of the slot was accepted since.
   */
  lemma {:induction false} LeftByFailure(floats: Floats, start: Resources, events: seq<Event>, k: nat, s: nat)
    requires k <= |events| && Initial(start) && Runs(floats, start, events, k) && s < |start.shadows|
    ensures Traced(start, events, k, s)
    ensures StateAfter(start, events, k).attempt.None? && LeftRun(start, events, k)[s].now.Some? ==>
      PreparedUnaccepted(start, events, k, s, LeftRun(start, events, k)[s].now.value)
  {
    if k > 0 {
      LeftByFailure(floats, start, events, k - 1, s);
      TracedStep(start, events, k - 1, s);
    }
  }
}
