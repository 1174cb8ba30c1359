/**
 The multi-submission state machine over accepted shadows, physical buffers and
 canonical-validation tags. An attempt is taken step by step: snapshot, the
 preparation of one slot after another packet by packet, then acceptance or
 failure. Tracked attempts stage their packets and restore the snapshot on
 failure; synchronous ones change the device at once and restore nothing.
 */
module Submissions {
  import opened Common
  import opened Deltas
  import opened Uploads
  import opened BufferPlan

  /** Whether four bytes encode a finite float, and one in [0, 1]; left uninterpreted. */
  datatype Floats = Floats(finite: seq<byte> -> bool, unit: seq<byte> -> bool)

  /** `validate_canonical_record` on a 40-byte record. */
  predicate ValidRecord(floats: Floats, record: seq<byte>)
    requires |record| == 40
  {
    && (forall k :: k in [0, 4, 8, 12, 32, 36] ==> floats.finite(record[k..k + 4]))
    && (forall k :: k in [16, 20, 24, 28] ==> floats.finite(record[k..k + 4]) && floats.unit(record[k..k + 4]))
  }

  /** Every record of the buffer is valid. */
  ghost predicate Canonical(floats: Floats, bytes: seq<byte>) {
    && |bytes| > 0 && |bytes| % 40 == 0
    && forall k: nat :: k < |bytes| / 40 ==> ValidRecord(floats, bytes[k * 40..k * 40 + 40])
  }

  /** An upload packet: `data` for the bytes of one slot from `at`. */
  datatype Packet = Packet(slot: nat, at: nat, data: seq<byte>)

  /** A preparation under way and the ranges it has still to send. */
  datatype Preparing = Preparing(slot: nat, remaining: seq<Range>)

  /** One attempt; a tracked one holds the snapshot of the recorded revisions. */
  datatype Attempt = Attempt(
    plan: Plan, snapshot: Option<seq<Option<nat>>>, staged: seq<Packet>, prepared: set<nat>,
    current: Option<Preparing>)

  datatype Resources = Resources(
    shadows: seq<BufferShadow>, physical: seq<Physical>, canonical: seq<Option<nat>>, attempt: Option<Attempt>)
  {
    predicate Parallel() {
      && |shadows| == |physical| == |canonical|
      && (attempt.Some? && attempt.value.snapshot.Some? ==> |attempt.value.snapshot.value| == |shadows|)
    }
  }

  datatype Event =
    | Begin(plan: Plan, tracked: bool)
    | Prepare(slot: nat)
    | Send(end: nat)
    | Complete
    | Fail
    | Accept(validations: set<(nat, nat)>)
    | Compute(outputs: map<nat, seq<byte>>)
    | Release(slot: nat, size: nat)

  function PendingRevision(shadow: BufferShadow, plan: Plan, slot: nat): nat {
    match Lookup(plan.updates, slot) case None => shadow.revision case Some(u) => u.revision
  }

  /** `upload_for_slot`. */
  function UploadForSlot(shadow: BufferShadow, plan: Plan, slot: nat): Option<BufferUpdate> {
    match Lookup(plan.updates, slot)
    case Some(u) => Some(MergedUpload(shadow, u.upload))
    case None => shadow.upload
  }

  /** The ranges a preparation sends: none for a slot recorded at the pending revision. */
  function SlotRanges(shadow: BufferShadow, physical: Physical, plan: Plan, s: nat): Result<seq<Range>, HandleError> {
    var length, revision := Length(shadow, plan, s), PendingRevision(shadow, plan, s);
    if length == 0 || length % ALIGN != 0 || length > |physical.cells| || |physical.cells| > 0xFFFF_FFFF
    then Err(InvalidParameter)
    else if physical.uploadedRevision == Some(revision) then Ok([])
    else UploadRanges(physical.uploadedRevision, revision, length, UploadForSlot(shadow, plan, s))
  }

  /** The events the program can take in a state. */
  predicate Ready(state: Resources, event: Event) {
    var n := |state.shadows|;
    match event
    case Begin(_, _) => state.attempt.None?
    case Prepare(slot) => state.attempt.Some? && state.attempt.value.current.None? && slot < n
    case Send(end) =>
      && state.attempt.Some? && state.attempt.value.current.Some?
      && var p := state.attempt.value.current.value;
         p.slot < n && p.remaining != [] && p.remaining[0].start < end <= p.remaining[0].end
    case Complete =>
      && state.attempt.Some? && state.attempt.value.current.Some?
      && state.attempt.value.current.value.slot < n && state.attempt.value.current.value.remaining == []
    case Fail => state.attempt.Some?
    case Accept(_) => state.attempt.Some? && state.attempt.value.current.None?
    case Compute(outputs) => state.attempt.None? && forall s :: s in outputs ==> s < n
    case Release(slot, _) => state.attempt.None? && slot < n
  }

  /** A preparation that returns an error fails its attempt. */
  function Effect(state: Resources, event: Event): (e: Event)
    requires state.Parallel() && Ready(state, event)
    ensures Ready(state, e)
  {
    if event.Prepare? && event.slot !in state.attempt.value.prepared
      && SlotRanges(state.shadows[event.slot], state.physical[event.slot], state.attempt.value.plan, event.slot).Err?
    then Fail
    else event
  }

  /** The packet that carries the next bytes of the preparation under way. */
  function NextPacket(state: Resources, end: nat): Packet
    requires state.Parallel() && Ready(state, Send(end))
  {
    var p := state.attempt.value.current.value;
    var view := View(state.shadows[p.slot], state.attempt.value.plan, p.slot);
    Packet(p.slot, p.remaining[0].start, Slice(view, p.remaining[0].start, end - p.remaining[0].start))
  }

  function AfterSend(remaining: seq<Range>, end: nat): seq<Range>
    requires remaining != []
  {
    if end == remaining[0].end then remaining[1..] else [Range(end, remaining[0].end)] + remaining[1..]
  }

  /** Packets executed in order, as one slot sees them. */
  function AllLanded(cells: seq<Option<byte>>, staged: seq<Packet>, s: nat): (r: seq<Option<byte>>)
    ensures |r| == |cells|
  {
    if staged == [] then cells
    else
      var before, last := AllLanded(cells, staged[..|staged| - 1], s), staged[|staged| - 1];
      if last.slot == s then Landed(before, last.at, last.data) else before
  }

  /** Whether the preparation of slot `s` starts with this event. */
  predicate Starts(state: Resources, e: Event, s: nat)
    requires state.Parallel() && Ready(state, e) && s < |state.shadows|
  {
    && e.Prepare? && e.slot == s && s !in state.attempt.value.prepared
    && state.physical[s].uploadedRevision != Some(PendingRevision(state.shadows[s], state.attempt.value.plan, s))
  }

  /** Whether the preparation of slot `s` ends with this event. */
  predicate Completes(state: Resources, e: Event, s: nat)
    requires state.Parallel() && Ready(state, e) && s < |state.shadows|
  {
    e.Complete? && state.attempt.value.current.value.slot == s
  }

  function NextShadow(state: Resources, e: Event, s: nat): BufferShadow
    requires state.Parallel() && Ready(state, e) && s < |state.shadows|
  {
    var shadow := state.shadows[s];
    match e
    case Accept(_) => AcceptedShadow(shadow, state.attempt.value.plan, s in state.attempt.value.prepared, s)
    case Compute(outputs) =>
      if s in outputs then BufferShadow(Some(outputs[s]), shadow.revision + 1, None) else shadow
    case Release(slot, _) => if s == slot then BufferShadow(None, 0, None) else shadow
    case _ => shadow
  }

  /** Pending contents at their revision, with the merged delta unless the slot was prepared. */
  function AcceptedShadow(shadow: BufferShadow, plan: Plan, prepared: bool, s: nat): BufferShadow {
    match Lookup(plan.updates, s)
    case None => if prepared then shadow.(upload := None) else shadow
    case Some(u) =>
      BufferShadow(Some(View(shadow, plan, s)), u.revision,
        if prepared then None else Some(MergedUpload(shadow, u.upload)))
  }

  function NextTag(state: Resources, e: Event, s: nat): Option<nat>
    requires state.Parallel() && Ready(state, e) && s < |state.shadows|
  {
    var tag := state.canonical[s];
    match e
    case Accept(validations) =>
      var revision := PendingRevision(state.shadows[s], state.attempt.value.plan, s);
      if (s, revision) in validations then Some(revision) else tag
    case Compute(outputs) => if s in outputs then None else tag
    case Release(slot, _) => if s == slot then None else tag
    case _ => tag
  }

  function NextPhysical(state: Resources, e: Event, s: nat): Physical
    requires state.Parallel() && Ready(state, e) && s < |state.shadows|
  {
    var physical := state.physical[s];
    match e
    case Prepare(slot) => if Starts(state, e, s) then physical.(uploadedRevision := None) else physical
    case Send(end) =>
      var packet := NextPacket(state, end);
      if state.attempt.value.snapshot.None? && packet.slot == s
      then physical.(cells := Landed(physical.cells, packet.at, packet.data))
      else physical
    case Complete =>
      if Completes(state, e, s)
      then physical.(uploadedRevision := Some(PendingRevision(state.shadows[s], state.attempt.value.plan, s)))
      else physical
    case Fail =>
      if state.attempt.value.snapshot.Some?
      then physical.(uploadedRevision := state.attempt.value.snapshot.value[s])
      else physical
    case Accept(_) => physical.(cells := AllLanded(physical.cells, state.attempt.value.staged, s))
    case Release(slot, size) => if s == slot then Physical(FreshCells(size), None) else physical
    case _ => physical
  }

  function NextAttempt(state: Resources, e: Event): Option<Attempt>
    requires state.Parallel() && Ready(state, e)
  {
    match e
    case Begin(plan, tracked) =>
      var recorded := seq(|state.physical|, (s: int) requires 0 <= s < |state.physical| =>
        state.physical[s].uploadedRevision);
      Some(Attempt(plan, if tracked then Some(recorded) else None, [], {}, None))
    case Prepare(slot) =>
      var attempt := state.attempt.value;
      if !Starts(state, e, slot) then Some(attempt.(prepared := attempt.prepared + {slot}))
      else
        var ranges := SlotRanges(state.shadows[slot], state.physical[slot], attempt.plan, slot);
        if ranges.Err? then None else Some(attempt.(current := Some(Preparing(slot, ranges.value))))
    case Send(end) =>
      var attempt := state.attempt.value;
      var p := attempt.current.value;
      Some(attempt.(
        staged := if attempt.snapshot.Some? then attempt.staged + [NextPacket(state, end)] else attempt.staged,
        current := Some(p.(remaining := AfterSend(p.remaining, end)))))
    case Complete =>
      var attempt := state.attempt.value;
      Some(attempt.(prepared := attempt.prepared + {attempt.current.value.slot}, current := None))
    case Fail => None
    case Accept(_) => None
    case Compute(_) => state.attempt
    case Release(_, _) => state.attempt
  }

  /** One step; an event the program cannot take changes nothing. */
  function Step(state: Resources, event: Event): (after: Resources)
    requires state.Parallel()
    ensures after.Parallel() && |after.shadows| == |state.shadows|
  {
    if !Ready(state, event) then state
    else
      var e, n := Effect(state, event), |state.shadows|;
      Resources(
        seq(n, (s: int) requires 0 <= s < n => NextShadow(state, e, s)),
        seq(n, (s: int) requires 0 <= s < n => NextPhysical(state, e, s)),
        seq(n, (s: int) requires 0 <= s < n => NextTag(state, e, s)),
        NextAttempt(state, e))
  }

  /** A pending validation was made on the contents its plan now shows. */
  ghost predicate ValidationSound(floats: Floats, shadows: seq<BufferShadow>, plan: Plan, slot: nat, revision: nat) {
    slot < |shadows| && revision == PendingRevision(shadows[slot], plan, slot)
    && Canonical(floats, View(shadows[slot], plan, slot))
  }

  /** What callers hand to an event: built plans, validations made, outputs of the buffer's size. */
  ghost predicate Enabled(floats: Floats, state: Resources, event: Event) {
    && state.Parallel() && Ready(state, event)
    && match event
       case Begin(plan, _) => Built(state.shadows, plan)
       case Accept(validations) =>
         forall v :: v in validations ==> ValidationSound(floats, state.shadows, state.attempt.value.plan, v.0, v.1)
       case Compute(outputs) =>
         forall s :: s in outputs ==>
           |outputs[s]| == |state.physical[s].cells| <= MAX_WORD && state.shadows[s].revision < MAX_WORD
       case _ => true
  }

  /** The first `k` events of a run. */
  function StateAfter(start: Resources, events: seq<Event>, k: nat): (state: Resources)
    requires start.Parallel() && k <= |events|
    ensures state.Parallel() && |state.shadows| == |start.shadows|
  {
    if k == 0 then start else Step(StateAfter(start, events, k - 1), events[k - 1])
  }

  function Final(start: Resources, events: seq<Event>): Resources
    requires start.Parallel()
  {
    StateAfter(start, events, |events|)
  }

  /** Each of the first `k` events is enabled where it happens. */
  ghost predicate Runs(floats: Floats, start: Resources, events: seq<Event>, k: nat)
    requires k <= |events|
  {
    && start.Parallel()
    && (k > 0 ==>
      Runs(floats, start, events, k - 1) && Enabled(floats, StateAfter(start, events, k - 1), events[k - 1]))
  }

  lemma {:induction false} RunsPrefix(floats: Floats, start: Resources, events: seq<Event>, j: nat, k: nat)
    requires j <= k <= |events| && Runs(floats, start, events, k)
    ensures Runs(floats, start, events, j)
    decreases k
  {
    if j < k {
      RunsPrefix(floats, start, events, j, k - 1);
    }
  }

  /** The contents accepted for one slot since its release, by revision. */
  type History = seq<seq<byte>>

  /** The contents an event makes the next accepted revision of a slot, if it does. */
  function Accepted(state: Resources, e: Event, s: nat): Option<seq<byte>>
    requires state.Parallel() && Ready(state, e) && s < |state.shadows|
  {
    match e
    case Accept(_) =>
      var plan := state.attempt.value.plan;
      if Lookup(plan.updates, s).Some? then Some(View(state.shadows[s], plan, s)) else None
    case Compute(outputs) => if s in outputs then Some(outputs[s]) else None
    case _ => None
  }

  function RecordedSlot(state: Resources, history: History, e: Event, s: nat): History
    requires state.Parallel() && Ready(state, e) && s < |state.shadows|
  {
    if e.Release? && e.slot == s then [[]]
    else match Accepted(state, e, s) case None => history case Some(contents) => history + [contents]
  }

  /** The histories after an event. */
  function Recorded(state: Resources, histories: seq<History>, event: Event): (after: seq<History>)
    requires state.Parallel() && |state.shadows| == |histories|
    ensures |after| == |histories|
  {
    if !Ready(state, event) then histories
    else
      seq(|histories|, (s: int) requires 0 <= s < |histories| =>
        RecordedSlot(state, histories[s], Effect(state, event), s))
  }

  /** The histories after the first `k` events of a run. */
  function RecordedRun(start: Resources, events: seq<Event>, k: nat): (histories: seq<History>)
    requires start.Parallel() && k <= |events|
    ensures |histories| == |start.shadows|
  {
    if k == 0 then seq(|start.shadows|, _ => [[]])
    else Recorded(StateAfter(start, events, k - 1), RecordedRun(start, events, k - 1), events[k - 1])
  }

  ghost predicate Initial(state: Resources) {
    && state.Parallel() && state.attempt.None?
    && forall s :: 0 <= s < |state.shadows| ==>
         state.shadows[s] == BufferShadow(None, 0, None) && state.canonical[s] == None
         && state.physical[s].uploadedRevision == None
  }

  /** A delta from an earlier accepted revision to the current contents. */
  ghost predicate DeltaSound(upload: BufferUpdate, revision: nat, contents: seq<byte>, history: History) {
    && upload.previousRevision < revision && upload.previousRevision < |history|
    && WellFormed(upload, |contents|)
    && Covers(upload, history[upload.previousRevision], contents)
  }

  /** What every run keeps for the accepted state of one slot. */
  ghost predicate SlotSound(floats: Floats, shadow: BufferShadow, tag: Option<nat>, history: History) {
    && |Contents(shadow)| <= MAX_WORD && shadow.revision <= MAX_WORD
    && |history| == shadow.revision + 1 && history[shadow.revision] == Contents(shadow)
    && (shadow.upload.Some? ==> DeltaSound(shadow.upload.value, shadow.revision, Contents(shadow), history))
    && (tag.Some? ==> tag.value < |history| && Canonical(floats, history[tag.value]))
  }

  ghost predicate Sound(floats: Floats, state: Resources, histories: seq<History>) {
    && state.Parallel() && |state.shadows| == |histories|
    && (forall s :: 0 <= s < |state.shadows| ==>
         SlotSound(floats, state.shadows[s], state.canonical[s], histories[s]))
    && (state.attempt.Some? ==> Built(state.shadows, state.attempt.value.plan))
  }

  /** The delta handed to the uploader leads from an accepted base to the pending contents. */
  lemma PendingDelta(floats: Floats, state: Resources, histories: seq<History>, plan: Plan, s: nat)
    requires Sound(floats, state, histories) && Built(state.shadows, plan) && s < |state.shadows|
    ensures var upload := UploadForSlot(state.shadows[s], plan, s);
      upload.Some? ==>
      && upload.value.previousRevision < PendingRevision(state.shadows[s], plan, s)
      && upload.value.previousRevision < |histories[s]|
      && WellFormed(upload.value, Length(state.shadows[s], plan, s))
      && Covers(upload.value, histories[s][upload.value.previousRevision], View(state.shadows[s], plan, s))
  {
    var shadow := state.shadows[s];
    assert SlotSound(floats, shadow, state.canonical[s], histories[s]);
    var view := View(shadow, plan, s);
    match Lookup(plan.updates, s) {
      case None =>
        assert view == Contents(shadow);
      case Some(u) =>
        assert UpdateBuilt(shadow, plan, u);
        if MergedUpload(shadow, u.upload) != u.upload {
          var earlier := shadow.upload.value;
          LongerWellFormed(earlier, |Contents(shadow)|, |view|);
          MergeKeeps(u.upload, earlier, |view|);
          MergeCovers(u.upload, earlier, histories[s][earlier.previousRevision], Contents(shadow), view);
        }
    }
  }

  /** A slot a plan leaves alone shows its accepted contents; one it writes gets the next revision. */
  lemma PendingSlot(shadows: seq<BufferShadow>, plan: Plan, s: nat)
    requires Built(shadows, plan) && s < |shadows|
    ensures Lookup(plan.updates, s).None? ==>
      View(shadows[s], plan, s) == Contents(shadows[s]) && PendingRevision(shadows[s], plan, s) == shadows[s].revision
    ensures Lookup(plan.updates, s).Some? ==>
      PendingRevision(shadows[s], plan, s) == shadows[s].revision + 1 <= MAX_WORD
      && |View(shadows[s], plan, s)| <= MAX_WORD
  {
    if Lookup(plan.updates, s).Some? {
      assert UpdateBuilt(shadows[s], plan, Lookup(plan.updates, s).value);
    } else {
      assert View(shadows[s], plan, s) == Contents(shadows[s]);
    }
  }

  /** Acceptance is the publication of the plan, with the deltas of prepared slots dropped. */
  lemma AcceptPublishes(state: Resources, e: Event, s: nat)
    requires state.Parallel() && Ready(state, e) && e.Accept? && s < |state.shadows|
    ensures var published := Published(state.shadows, state.attempt.value.plan)[s];
      Step(state, e).shadows[s]
        == if s in state.attempt.value.prepared then published.(upload := None) else published
  {
  }

  lemma AcceptedSound(floats: Floats, state: Resources, histories: seq<History>, e: Event, s: nat)
    requires Sound(floats, state, histories) && Enabled(floats, state, e) && e.Accept? && s < |state.shadows|
    ensures SlotSound(floats, NextShadow(state, e, s), NextTag(state, e, s), RecordedSlot(state, histories[s], e, s))
  {
    var shadow, plan := state.shadows[s], state.attempt.value.plan;
    assert SlotSound(floats, shadow, state.canonical[s], histories[s]);
    PendingSlot(state.shadows, plan, s);
    PendingDelta(floats, state, histories, plan, s);
    var revision := PendingRevision(shadow, plan, s);
    if (s, revision) in e.validations {
      assert ValidationSound(floats, state.shadows, plan, s, revision);
    }
  }

  /** Every event keeps deltas, tags and the recorded history sound. */
  lemma StepSound(floats: Floats, state: Resources, histories: seq<History>, event: Event)
    requires Sound(floats, state, histories) && Enabled(floats, state, event)
    ensures Sound(floats, Step(state, event), Recorded(state, histories, event))
  {
    var after, recorded := Step(state, event), Recorded(state, histories, event);
    forall s | 0 <= s < |state.shadows| ensures SlotSound(floats, after.shadows[s], after.canonical[s], recorded[s]) {
      assert SlotSound(floats, state.shadows[s], state.canonical[s], histories[s]);
      if event.Accept? {
        AcceptedSound(floats, state, histories, event, s);
      }
    }
    if after.attempt.Some? {
      assert after.shadows == state.shadows;
    }
  }

  /** What holds at the start and survives every enabled event holds all along a run. */
  lemma {:induction false} RunInduction(
    floats: Floats, start: Resources, events: seq<Event>, k: nat, holds: (Resources, seq<History>) -> bool)
    requires k <= |events| && Runs(floats, start, events, k)
    requires holds(start, RecordedRun(start, events, 0))
    requires forall state: Resources, histories: seq<History>, event {:trigger Recorded(state, histories, event)} ::
      Enabled(floats, state, event) && |histories| == |state.shadows| && holds(state, histories) ==>
      holds(Step(state, event), Recorded(state, histories, event))
    ensures holds(StateAfter(start, events, k), RecordedRun(start, events, k))
  {
    if k > 0 {
      RunInduction(floats, start, events, k - 1, holds);
      var state, histories := StateAfter(start, events, k - 1), RecordedRun(start, events, k - 1);
      assert holds(Step(state, events[k - 1]), Recorded(state, histories, events[k - 1]));
    }
  }

  /**
   In every state of every run each slot is sound for the history the run
   recorded.
   */
  lemma RunSound(floats: Floats, start: Resources, events: seq<Event>, k: nat)
    requires k <= |events| && Initial(start) && Runs(floats, start, events, k)
    ensures Sound(floats, StateAfter(start, events, k), RecordedRun(start, events, k))
  {
    var holds := (state, histories) => Sound(floats, state, histories);
    forall state: Resources, histories: seq<History>, event |
      Enabled(floats, state, event) && |histories| == |state.shadows| && holds(state, histories)
      ensures holds(Step(state, event), Recorded(state, histories, event))
    {
      StepSound(floats, state, histories, event);
    }
    RunInduction(floats, start, events, k, holds);
  }

  lemma SlotHistory(floats: Floats, start: Resources, events: seq<Event>, k: nat, s: nat)
    requires k <= |events| && Initial(start) && Runs(floats, start, events, k) && s < |start.shadows|
    ensures var shadow, history := StateAfter(start, events, k).shadows[s], RecordedRun(start, events, k)[s];
      |history| == shadow.revision + 1 && history[shadow.revision] == Contents(shadow)
  {
    RunSound(floats, start, events, k);
    SoundHistory(floats, StateAfter(start, events, k), RecordedRun(start, events, k), s);
  }

  lemma SoundHistory(floats: Floats, state: Resources, histories: seq<History>, s: nat)
    requires Sound(floats, state, histories) && s < |state.shadows|
    ensures |histories[s]| == state.shadows[s].revision + 1
    ensures histories[s][state.shadows[s].revision] == Contents(state.shadows[s])
  {
    assert SlotSound(floats, state.shadows[s], state.canonical[s], histories[s]);
  }

  /** Only a release forgets; every other event adds at most one entry. */
  lemma HistoryGrows(state: Resources, histories: seq<History>, event: Event, s: nat, r: nat)
    requires state.Parallel() && |histories| == |state.shadows| && s < |histories|
    requires !(event.Release? && event.slot == s)
    ensures var before, after := histories[s], Recorded(state, histories, event)[s];
      |before| <= |after| <= |before| + 1 && (r < |before| ==> after[r] == before[r])
  {
  }

  lemma {:induction false} HistoryKept(start: Resources, events: seq<Event>, j: nat, k: nat, s: nat, r: nat)
    requires start.Parallel() && j <= k <= |events| && s < |start.shadows|
    requires forall i :: j <= i < k ==> !(events[i].Release? && events[i].slot == s)
    requires r < |RecordedRun(start, events, j)[s]|
    ensures r < |RecordedRun(start, events, k)[s]|
    ensures RecordedRun(start, events, k)[s][r] == RecordedRun(start, events, j)[s][r]
    decreases k
  {
    if j < k {
      HistoryKept(start, events, j, k - 1, s, r);
      HistoryGrows(StateAfter(start, events, k - 1), RecordedRun(start, events, k - 1), events[k - 1], s, r);
    }
  }

  /**
   The recorded history is what was accepted: entry `r` of a slot is what the
   slot held in every earlier state at revision `r`, unless released since.
   */
  lemma HistoryIsAccepted(floats: Floats, start: Resources, events: seq<Event>, j: nat, k: nat, s: nat)
    requires j <= k <= |events| && Initial(start) && Runs(floats, start, events, k) && s < |start.shadows|
    requires forall i :: j <= i < k ==> !(events[i].Release? && events[i].slot == s)
    ensures var earlier := StateAfter(start, events, j).shadows[s];
      var history := RecordedRun(start, events, k)[s];
      earlier.revision < |history| && history[earlier.revision] == Contents(earlier)
  {
    RunsPrefix(floats, start, events, j, k);
    SlotHistory(floats, start, events, j, s);
    HistoryKept(start, events, j, k, s, StateAfter(start, events, j).shadows[s].revision);
  }

  /** Every entry of the history was the slot's accepted contents in some state of the run. */
  lemma {:induction false} HistoryReached(
    floats: Floats, start: Resources, events: seq<Event>, k: nat, s: nat, r: nat) returns (j: nat)
    requires k <= |events| && Initial(start) && Runs(floats, start, events, k) && s < |start.shadows|
    requires r < |RecordedRun(start, events, k)[s]|
    ensures j <= k && forall i :: j <= i < k ==> !(events[i].Release? && events[i].slot == s)
    ensures StateAfter(start, events, j).shadows[s].revision == r
    ensures Contents(StateAfter(start, events, j).shadows[s]) == RecordedRun(start, events, k)[s][r]
    decreases k
  {
    SlotHistory(floats, start, events, k, s);
    if r == StateAfter(start, events, k).shadows[s].revision {
      j := k;
    } else {
      EarlierEntry(floats, start, events, k, s, r);
      j := HistoryReached(floats, start, events, k - 1, s, r);
    }
  }

  /** An entry before the last was there one event earlier. */
  lemma EarlierEntry(floats: Floats, start: Resources, events: seq<Event>, k: nat, s: nat, r: nat)
    requires k <= |events| && Runs(floats, start, events, k) && s < |start.shadows|
    requires r + 1 < |RecordedRun(start, events, k)[s]|
    ensures k > 0 && !(events[k - 1].Release? && events[k - 1].slot == s)
    ensures r < |RecordedRun(start, events, k - 1)[s]|
    ensures RecordedRun(start, events, k - 1)[s][r] == RecordedRun(start, events, k)[s][r]
  {
    if k > 0 {
      NotReleased(StateAfter(start, events, k - 1), RecordedRun(start, events, k - 1), events[k - 1], s);
      HistoryGrows(StateAfter(start, events, k - 1), RecordedRun(start, events, k - 1), events[k - 1], s, r);
    }
  }

  lemma NotReleased(state: Resources, histories: seq<History>, event: Event, s: nat)
    requires state.Parallel() && |histories| == |state.shadows| && s < |histories| && Ready(state, event)
    requires |Recorded(state, histories, event)[s]| > 1
    ensures !(event.Release? && event.slot == s)
  {
    assert Recorded(state, histories, event)[s] == RecordedSlot(state, histories[s], Effect(state, event), s);
  }

  /**
   After any run the retained delta is exactly enough: on a copy holding what
   was accepted at its base revision, patching only its bytes gives the
   accepted contents.
   */
  lemma PatchRestores(
    floats: Floats, start: Resources, events: seq<Event>, s: nat, ranges: seq<Range>, cells: seq<Option<byte>>)
    requires Initial(start) && Runs(floats, start, events, |events|) && s < |start.shadows|
    requires Final(start, events).shadows[s].upload.Some?
    requires var shadow := Final(start, events).shadows[s];
      forall i: nat :: i < |Contents(shadow)| && Changed(shadow.upload.value, i) ==> Inside(ranges, i)
    ensures var shadow := Final(start, events).shadows[s];
      var history := RecordedRun(start, events, |events|)[s];
      && shadow.upload.value.previousRevision < shadow.revision < |history|
      && (|Contents(shadow)| <= |cells| && Holds(cells, history[shadow.upload.value.previousRevision]) ==>
           Holds(Patched(cells, Contents(shadow), ranges), Contents(shadow)))
  {
    RunSound(floats, start, events, |events|);
    var state := Final(start, events);
    assert SlotSound(floats, state.shadows[s], state.canonical[s], RecordedRun(start, events, |events|)[s]);
  }

  /**
   In a reachable state a tag never runs ahead of the accepted revision, and a
   tag at the current revision proves every record of the current contents.
   */
  lemma TagsProveRecords(floats: Floats, start: Resources, events: seq<Event>, s: nat)
    requires Initial(start) && Runs(floats, start, events, |events|) && s < |start.shadows|
    requires Final(start, events).canonical[s].Some?
    ensures var state := Final(start, events);
      && state.canonical[s].value <= state.shadows[s].revision
      && (state.canonical[s].value == state.shadows[s].revision ==> Canonical(floats, Contents(state.shadows[s])))
  {
    RunSound(floats, start, events, |events|);
    var state := Final(start, events);
    assert SlotSound(floats, state.shadows[s], state.canonical[s], RecordedRun(start, events, |events|)[s]);
  }

  /** The events of one attempt after its start, except acceptance. */
  predicate Attempting(event: Event) { event.Prepare? || event.Send? || event.Complete? || event.Fail? }

  /** What an unaccepted attempt leaves of the state it began in. */
  ghost predicate Undecided(start: Resources, state: Resources, tracked: bool) {
    && start.Parallel() && state.Parallel() && start.attempt.None?
    && state.shadows == start.shadows && state.canonical == start.canonical
    && (state.attempt.Some? ==> state.attempt.value.snapshot.Some? == tracked)
    && (tracked ==> forall s :: 0 <= s < |start.shadows| ==> state.physical[s].cells == start.physical[s].cells)
    && (tracked && state.attempt.Some? ==> forall s :: 0 <= s < |start.shadows| ==>
         state.attempt.value.snapshot.value[s] == start.physical[s].uploadedRevision)
    && (tracked && state.attempt.None? ==> state == start)
  }

  lemma UndecidedStep(start: Resources, state: Resources, tracked: bool, event: Event)
    requires Undecided(start, state, tracked) && state.attempt.Some?
    requires Ready(state, event) && Attempting(event)
    ensures Undecided(start, Step(state, event), tracked)
  {
    var after := Step(state, event);
    assert after.shadows == state.shadows && after.canonical == state.canonical;
    if after.attempt.None? && tracked {
      assert Effect(state, event).Fail?;
      forall s | 0 <= s < |start.shadows| ensures after.physical[s] == start.physical[s] {
      }
      assert after.physical == start.physical;
    }
  }

  lemma BeginUndecided(start: Resources, plan: Plan, tracked: bool)
    requires start.Parallel() && start.attempt.None?
    ensures Undecided(start, Step(start, Begin(plan, tracked)), tracked)
  {
    var after := Step(start, Begin(plan, tracked));
    assert after.shadows == start.shadows && after.canonical == start.canonical;
  }

  /**
   An attempt that is not accepted, wherever it stops, gives back the shadows
   with their bytes, revisions and deltas, and the tags; a tracked one gives
   back the whole state, device bytes and recorded revisions included.
   */
  lemma {:induction false} UnacceptedRestores(
    start: Resources, plan: Plan, tracked: bool, events: seq<Event>, k: nat)
    requires start.Parallel() && start.attempt.None? && 0 < k <= |events|
    requires events[0] == Begin(plan, tracked)
    requires forall i :: 0 < i < k ==> Attempting(events[i]) && Ready(StateAfter(start, events, i), events[i])
    ensures Undecided(start, StateAfter(start, events, k), tracked)
  {
    if k == 1 {
      BeginUndecided(start, plan, tracked);
      assert StateAfter(start, events, 0) == start;
    } else {
      UnacceptedRestores(start, plan, tracked, events, k - 1);
      UndecidedStep(start, StateAfter(start, events, k - 1), tracked, events[k - 1]);
    }
  }
}
