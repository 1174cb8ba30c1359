/**
 Two runs of synchronous attempts on one buffer. In the first a retry with other
 contents reuses the revision number of a failed attempt and its upload is
 skipped; in the second the next stream then patches only its own delta.
 */
module StaleRuns {
  import opened Common
  import opened Ranges
  import opened Deltas
  import opened Uploads
  import opened BufferPlan
  import opened Submissions
  import opened Repair

  /** One buffer and its attempt. */
  function One(shadow: BufferShadow, cells: seq<Option<byte>>, uploaded: Option<nat>, attempt: Option<Attempt>)
    : Resources
  {
    Resources([shadow], [Physical(cells, uploaded)], [None], attempt)
  }

  function Synchronous(plan: Plan, prepared: set<nat>, current: Option<Preparing>): Option<Attempt> {
    Some(Attempt(plan, None, [], prepared, current))
  }

  ghost predicate Reaches(floats: Floats, start: Resources, events: seq<Event>, k: nat, state: Resources) {
    k <= |events| && Runs(floats, start, events, k) && StateAfter(start, events, k) == state
  }

  lemma Extend(
    floats: Floats, start: Resources, events: seq<Event>, k: nat, state: Resources, event: Event, after: Resources)
    requires Reaches(floats, start, events, k, state) && k < |events| && events[k] == event
    requires Enabled(floats, state, event) && Step(state, event) == after
    ensures Reaches(floats, start, events, k + 1, after)
  {
  }

  lemma BeginOne(shadow: BufferShadow, cells: seq<Option<byte>>, uploaded: Option<nat>, plan: Plan)
    ensures Step(One(shadow, cells, uploaded, None), Begin(plan, false))
      == One(shadow, cells, uploaded, Synchronous(plan, {}, None))
  {
    var after := Step(One(shadow, cells, uploaded, None), Begin(plan, false));
    assert after.shadows == [shadow] && after.physical == [Physical(cells, uploaded)] && after.canonical == [None];
  }

  /** A slot recorded at the pending revision is taken as prepared. */
  lemma SkipOne(shadow: BufferShadow, cells: seq<Option<byte>>, plan: Plan)
    requires SlotRanges(shadow, Physical(cells, Some(PendingRevision(shadow, plan, 0))), plan, 0).Ok?
    ensures var uploaded := Some(PendingRevision(shadow, plan, 0));
      Step(One(shadow, cells, uploaded, Synchronous(plan, {}, None)), Prepare(0))
        == One(shadow, cells, uploaded, Synchronous(plan, {0}, None))
  {
    var uploaded := Some(PendingRevision(shadow, plan, 0));
    var state := One(shadow, cells, uploaded, Synchronous(plan, {}, None));
    var after := Step(state, Prepare(0));
    assert !Starts(state, Prepare(0), 0) && {0} == {} + {0 as nat};
    assert after.shadows == [shadow] && after.physical == [Physical(cells, uploaded)] && after.canonical == [None];
  }

  lemma StartOne(shadow: BufferShadow, cells: seq<Option<byte>>, uploaded: Option<nat>, plan: Plan, ranges: seq<Range>)
    requires uploaded != Some(PendingRevision(shadow, plan, 0))
    requires SlotRanges(shadow, Physical(cells, uploaded), plan, 0) == Ok(ranges)
    ensures Step(One(shadow, cells, uploaded, Synchronous(plan, {}, None)), Prepare(0))
      == One(shadow, cells, None, Synchronous(plan, {}, Some(Preparing(0, ranges))))
  {
    var state := One(shadow, cells, uploaded, Synchronous(plan, {}, None));
    var after := Step(state, Prepare(0));
    assert Starts(state, Prepare(0), 0);
    assert after.shadows == [shadow] && after.physical == [Physical(cells, None)] && after.canonical == [None];
  }

  lemma SendOne(shadow: BufferShadow, cells: seq<Option<byte>>, plan: Plan, range: Range)
    requires range.start < range.end
    ensures var data := Slice(View(shadow, plan, 0), range.start, range.end - range.start);
      Step(One(shadow, cells, None, Synchronous(plan, {}, Some(Preparing(0, [range])))), Send(range.end))
        == One(shadow, Landed(cells, range.start, data), None, Synchronous(plan, {}, Some(Preparing(0, []))))
  {
    var state := One(shadow, cells, None, Synchronous(plan, {}, Some(Preparing(0, [range]))));
    var after := Step(state, Send(range.end));
    var packet := NextPacket(state, range.end);
    assert after.shadows == [shadow] && after.canonical == [None];
    assert after.physical == [Physical(Landed(cells, range.start, packet.data), None)];
    assert AfterSend([range], range.end) == [];
  }

  lemma CompleteOne(shadow: BufferShadow, cells: seq<Option<byte>>, plan: Plan)
    ensures var uploaded := Some(PendingRevision(shadow, plan, 0));
      Step(One(shadow, cells, None, Synchronous(plan, {}, Some(Preparing(0, [])))), Complete)
        == One(shadow, cells, uploaded, Synchronous(plan, {0}, None))
  {
    var uploaded := Some(PendingRevision(shadow, plan, 0));
    var after := Step(One(shadow, cells, None, Synchronous(plan, {}, Some(Preparing(0, [])))), Complete);
    assert {0} == {} + {0 as nat};
    assert after.shadows == [shadow] && after.physical == [Physical(cells, uploaded)] && after.canonical == [None];
  }

  lemma FailOne(shadow: BufferShadow, cells: seq<Option<byte>>, uploaded: Option<nat>, plan: Plan)
    ensures Step(One(shadow, cells, uploaded, Synchronous(plan, {0}, None)), Fail)
      == One(shadow, cells, uploaded, None)
  {
    var after := Step(One(shadow, cells, uploaded, Synchronous(plan, {0}, None)), Fail);
    assert after.shadows == [shadow] && after.physical == [Physical(cells, uploaded)] && after.canonical == [None];
  }

  lemma AcceptOne(shadow: BufferShadow, cells: seq<Option<byte>>, uploaded: Option<nat>, plan: Plan)
    requires Lookup(plan.updates, 0).Some?
    ensures Step(One(shadow, cells, uploaded, Synchronous(plan, {0}, None)), Accept({}))
      == One(BufferShadow(Some(View(shadow, plan, 0)), PendingRevision(shadow, plan, 0), None), cells, uploaded, None)
  {
    var after := Step(One(shadow, cells, uploaded, Synchronous(plan, {0}, None)), Accept({}));
    assert after.shadows == [BufferShadow(Some(View(shadow, plan, 0)), PendingRevision(shadow, plan, 0), None)];
    assert after.physical == [Physical(cells, uploaded)] && after.canonical == [None];
  }

  /** A stream that writes the buffer in one go. */
  ghost predicate Writes(shadow: BufferShadow, plan: Plan, view: seq<byte>, delta: BufferUpdate) {
    && Built([shadow], plan) && Lookup(plan.updates, 0).Some?
    && View(shadow, plan, 0) == view && |view| == 8
    && PendingRevision(shadow, plan, 0) == shadow.revision + 1
    && UploadForSlot(shadow, plan, 0) == Some(delta)
  }

  /** The plan of a stream that writes `data` at `start` once. */
  function OneWrite(shadow: BufferShadow, start: nat, data: seq<byte>): Plan {
    Written(shadow, Plan([], []), 0, start, data, Range(start, start + |data|), [Segment(start, start + |data|, 0)])
  }

  lemma OneWriteBuilt(shadow: BufferShadow, start: nat, data: seq<byte>)
    requires shadow.upload.None? && shadow.revision < MAX_WORD && start + |data| == 8 && data != []
    requires start <= |Contents(shadow)| <= 8
    requires start < |Contents(shadow)| ==> Contents(shadow)[start] != data[0]
    requires |Contents(shadow)| == 8 ==> Contents(shadow)[7] != data[|data| - 1]
    ensures Writes(shadow, OneWrite(shadow, start, data), Overwrite(Contents(shadow), start, data),
      SparseUpdate(shadow.revision, Range(start, 8)))
  {
    var empty, range, ranges := Plan([], []), Range(start, 8), [Segment(start, 8, 0)];
    assert View(shadow, empty, 0) == Contents(shadow);
    assert Taken([], ranges, start, 8, 0) by {
      assert ranges[1..] == [];
    }
    assert Writing([shadow], empty, 0, start, data, range, ranges);
    WrittenBuilt([shadow], empty, 0, start, data, range, ranges);
    WrittenView([shadow], empty, 0, start, data, range, ranges);
    PutLookup(empty.updates, WrittenUpdate(shadow, empty, 0, 8, range, ranges));
  }

  /** Two events start a preparation over one range. */
  lemma StartedRun(
    floats: Floats, start: Resources, events: seq<Event>, k: nat, shadow: BufferShadow, cells: seq<Option<byte>>,
    uploaded: Option<nat>, plan: Plan, range: Range)
    requires Reaches(floats, start, events, k, One(shadow, cells, uploaded, None)) && k + 2 <= |events|
    requires events[k] == Begin(plan, false) && events[k + 1] == Prepare(0)
    requires Built([shadow], plan) && uploaded != Some(PendingRevision(shadow, plan, 0))
    requires SlotRanges(shadow, Physical(cells, uploaded), plan, 0) == Ok([range])
    ensures Reaches(floats, start, events, k + 2,
      One(shadow, cells, None, Synchronous(plan, {}, Some(Preparing(0, [range])))))
  {
    var a := One(shadow, cells, uploaded, Synchronous(plan, {}, None));
    BeginOne(shadow, cells, uploaded, plan);
    Extend(floats, start, events, k, One(shadow, cells, uploaded, None), Begin(plan, false), a);
    StartOne(shadow, cells, uploaded, plan, [range]);
    Extend(floats, start, events, k + 1, a, Prepare(0),
      One(shadow, cells, None, Synchronous(plan, {}, Some(Preparing(0, [range])))));
  }

  /** Two more send the range and complete it. */
  lemma CompletedRun(
    floats: Floats, start: Resources, events: seq<Event>, k: nat, shadow: BufferShadow, cells: seq<Option<byte>>,
    plan: Plan, range: Range)
    requires k + 2 <= |events| && range.start < range.end
    requires Reaches(floats, start, events, k,
      One(shadow, cells, None, Synchronous(plan, {}, Some(Preparing(0, [range])))))
    requires events[k] == Send(range.end) && events[k + 1] == Complete
    ensures var data := Slice(View(shadow, plan, 0), range.start, range.end - range.start);
      Reaches(floats, start, events, k + 2,
        One(shadow, Landed(cells, range.start, data), Some(PendingRevision(shadow, plan, 0)),
          Synchronous(plan, {0}, None)))
  {
    var data := Slice(View(shadow, plan, 0), range.start, range.end - range.start);
    var c := One(shadow, Landed(cells, range.start, data), None, Synchronous(plan, {}, Some(Preparing(0, []))));
    SendOne(shadow, cells, plan, range);
    Extend(floats, start, events, k, One(shadow, cells, None, Synchronous(plan, {}, Some(Preparing(0, [range])))),
      Send(range.end), c);
    CompleteOne(shadow, Landed(cells, range.start, data), plan);
    Extend(floats, start, events, k + 1, c, Complete,
      One(shadow, Landed(cells, range.start, data), Some(PendingRevision(shadow, plan, 0)),
        Synchronous(plan, {0}, None)));
  }

  function Eight(v: byte): (r: seq<byte>)
    ensures |r| == 8 && forall i :: 0 <= i < 8 ==> r[i] == v
  {
    seq(8, _ => v)
  }

  /**
   Contents `v` written to a fresh buffer fail after their preparation, contents
   `w` are accepted, then `x` is written to the second half.
   */
  ghost predicate Story(start: Resources, events: seq<Event>, blank: BufferShadow, v: byte, w: byte, x: byte) {
    && v != w && w != x && blank == BufferShadow(None, 0, None) && start == One(blank, FreshCells(8), None, None)
    && |events| == 13
    && events[0] == Begin(OneWrite(blank, 0, Eight(v)), false) && events[1] == Prepare(0) && events[2] == Send(8)
    && events[3] == Complete && events[4] == Fail
    && events[5] == Begin(OneWrite(blank, 0, Eight(w)), false) && events[6] == Prepare(0) && events[7] == Accept({})
    && events[8] == Begin(OneWrite(Retried(w), 4, Eight(x)[4..]), false) && events[9] == Prepare(0)
    && events[10] == Send(8) && events[11] == Complete && events[12] == Accept({})
  }

  /** The shadow once the retry was accepted, and once the next stream was. */
  function Retried(w: byte): BufferShadow { BufferShadow(Some(Eight(w)), 1, None) }

  function Continued(w: byte, x: byte): BufferShadow { BufferShadow(Some(Eight(w)[..4] + Eight(x)[4..]), 2, None) }

  lemma WholeRange(blank: BufferShadow, v: byte)
    requires blank == BufferShadow(None, 0, None)
    ensures var plan := OneWrite(blank, 0, Eight(v));
      && Writes(blank, plan, Eight(v), SparseUpdate(0, Range(0, 8)))
      && SlotRanges(blank, Physical(FreshCells(8), None), plan, 0) == Ok([Range(0, 8)])
  {
    OneWriteBuilt(blank, 0, Eight(v));
    assert Overwrite([], 0, Eight(v)) == Eight(v);
  }

  /** The first attempt leaves its contents recorded at revision 1, which nothing accepted. */
  lemma FailedRun(
    floats: Floats, start: Resources, events: seq<Event>, blank: BufferShadow, v: byte, w: byte, x: byte)
    requires Story(start, events, blank, v, w, x)
    ensures Reaches(floats, start, events, 5, One(blank, Landed(FreshCells(8), 0, Eight(v)), Some(1), None))
  {
    var plan, range, cells := OneWrite(blank, 0, Eight(v)), Range(0, 8), Landed(FreshCells(8), 0, Eight(v));
    WholeRange(blank, v);
    assert Slice(Eight(v), 0, 8) == Eight(v);
    StartedRun(floats, start, events, 0, blank, FreshCells(8), None, plan, range);
    CompletedRun(floats, start, events, 2, blank, FreshCells(8), plan, range);
    FailOne(blank, cells, Some(1), plan);
    Extend(floats, start, events, 4, One(blank, cells, Some(1), Synchronous(plan, {0}, None)), Fail,
      One(blank, cells, Some(1), None));
  }

  /** The retry is accepted at the same number without an upload: the device keeps the failed contents. */
  lemma RetriedRun(
    floats: Floats, start: Resources, events: seq<Event>, blank: BufferShadow, v: byte, w: byte, x: byte)
    requires Story(start, events, blank, v, w, x)
    ensures Reaches(floats, start, events, 8, One(Retried(w), Landed(FreshCells(8), 0, Eight(v)), Some(1), None))
  {
    var plan, cells := OneWrite(blank, 0, Eight(w)), Landed(FreshCells(8), 0, Eight(v));
    WholeRange(blank, w);
    FailedRun(floats, start, events, blank, v, w, x);
    BeginOne(blank, cells, Some(1), plan);
    var a := One(blank, cells, Some(1), Synchronous(plan, {}, None));
    var b := One(blank, cells, Some(1), Synchronous(plan, {0}, None));
    Extend(floats, start, events, 5, One(blank, cells, Some(1), None), Begin(plan, false), a);
    SkipOne(blank, cells, plan);
    Extend(floats, start, events, 6, a, Prepare(0), b);
    AcceptOne(blank, cells, Some(1), plan);
    Extend(floats, start, events, 7, b, Accept({}), One(Retried(w), cells, Some(1), None));
  }

  /**
   One stream further the recorded revision is the base of the next delta, so
   only that delta is patched: the first half keeps the failed contents.
   */
  lemma ContinuedRun(
    floats: Floats, start: Resources, events: seq<Event>, blank: BufferShadow, v: byte, w: byte, x: byte)
    requires Story(start, events, blank, v, w, x)
    ensures Reaches(floats, start, events, 13,
      One(Continued(w, x), Landed(Landed(FreshCells(8), 0, Eight(v)), 4, Eight(x)[4..]), Some(2), None))
  {
    var half, shadow, cells := Eight(x)[4..], Retried(w), Landed(FreshCells(8), 0, Eight(v));
    var plan, last := OneWrite(shadow, 4, half), Landed(cells, 4, half);
    OneWriteBuilt(shadow, 4, half);
    assert Overwrite(Eight(w), 4, half) == Eight(w)[..4] + half;
    assert Slice(Eight(w)[..4] + half, 4, 4) == half;
    RetriedRun(floats, start, events, blank, v, w, x);
    StartedRun(floats, start, events, 8, shadow, cells, Some(1), plan, Range(4, 8));
    CompletedRun(floats, start, events, 10, shadow, cells, plan, Range(4, 8));
    AcceptOne(shadow, last, Some(2), plan);
    Extend(floats, start, events, 12, One(shadow, last, Some(2), Synchronous(plan, {0}, None)), Accept({}),
      One(Continued(w, x), last, Some(2), None));
  }

  /** Both runs end with a recorded revision whose accepted contents the device does not hold. */
  lemma BothStale(
    floats: Floats, start: Resources, events: seq<Event>, blank: BufferShadow, v: byte, w: byte, x: byte)
    requires Story(start, events, blank, v, w, x)
    ensures Initial(start) && Runs(floats, start, events, 13)
    ensures !FaithfulAt(start, events, 8) && !FaithfulAt(start, events, 13)
  {
    RetriedRun(floats, start, events, blank, v, w, x);
    StaleFirst(floats, start, events, 8, Retried(w), Landed(FreshCells(8), 0, Eight(v)), w);
    ContinuedRun(floats, start, events, blank, v, w, x);
    StaleFirst(floats, start, events, 13, Continued(w, x),
      Landed(Landed(FreshCells(8), 0, Eight(v)), 4, Eight(x)[4..]), w);
  }

  lemma StaleFirst(
    floats: Floats, start: Resources, events: seq<Event>, k: nat, shadow: BufferShadow, cells: seq<Option<byte>>,
    w: byte)
    requires k <= |events| && Initial(start)
    requires Reaches(floats, start, events, k, One(shadow, cells, Some(shadow.revision), None))
    requires |Contents(shadow)| == 8 && |cells| == 8 && Contents(shadow)[0] == w && cells[0] != Some(w)
    ensures !FaithfulAt(start, events, k)
  {
    SlotHistory(floats, start, events, k, 0);
    assert !SlotFaithful(StateAfter(start, events, k), RecordedRun(start, events, k)[0], 0);
  }
}
