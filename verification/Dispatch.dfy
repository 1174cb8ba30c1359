/**
 Asynchronous submission: producers admit streams under a short mutex, one
 worker moves them to a private scheduler, submits their chunks natively and
 resolves their signals. Each action below is one critical section, one native
 call or one private worker step, so a run is any interleaving of them.

 The state keeps, as history, every accepted stream and the outcome of its
 signal; stream `i` is the `i`-th one accepted.
 */
module Dispatch {
  import opened Common

  const MAX_SUBMISSIONS: nat := 16
  const MAX_PENDING_BYTES: nat := 67108864
  const MAX_STREAM_BYTES: nat := 536870912
  const MAX_IN_FLIGHT: nat := 16

  datatype Chunk = Chunk(size: nat, arena: Option<nat>)
  datatype Stream = Stream(bytes: nat, chunks: seq<Chunk>)
  datatype Outcome = Succeeded | Failed

  /** A stream owned by the scheduler: chunks submitted so far and the receipts not yet seen retired. */
  datatype Job = Job(id: nat, next: nat, receipts: seq<nat>)

  /** One native submission; `retired` once the device is done with it. */
  datatype Native = Native(stream: nat, chunk: nat, arena: Option<nat>, retired: bool)

  /** A `wait_idle` call: what had been accepted, which signal it waits for, its answer. */
  datatype Waiter = Waiter(accepted: nat, target: Option<nat>, answer: Option<bool>)

  datatype Pc =
    | Consuming | Transferring | Polling | Retiring | Submitting(ready: bool) | Checking | Sleeping
    | SchedulerFailing | WorkerFailing | Draining | Exiting | Gone

  datatype State = State(
    streams: seq<Stream>, outcomes: seq<Option<Outcome>>, published: seq<Option<Outcome>>,
    pending: seq<nat>, count: int, bytes: int, last: Option<nat>, failure: bool, closing: bool,
    jobs: seq<Job>, jobBytes: int, schedulerFailed: bool, taken: seq<nat>, announce: Option<nat>, pc: Pc,
    natives: seq<Native>, arenas: map<nat, nat>, waiters: seq<Waiter>)

  datatype Admission = Accepted | Busy | TooLarge | Refused
  datatype SubmitResult = Submitted | NativeBusy | Rejected | Uncertain

  datatype Action =
    | Enqueue(chunks: seq<Chunk>) | Close | Snapshot | Return(waiter: nat) | Retire(native: nat)
    | Consume(ok: bool) | Transfer | Observe(job: nat, receipt: nat) | PollError | PollEnd
    | Complete | CompleteEnd | Ready(ok: bool) | Submit(result: SubmitResult) | SubmitEnd
    | Check(progressed: bool) | Sleep(ok: bool) | Publish | FailOne | TakePending | Exit

  function Initial(): State {
    State([], [], [], [], 0, 0, None, false, false, [], 0, false, [], None, Consuming, [], map[], [])
  }

  function Sizes(chunks: seq<Chunk>): nat {
    if chunks == [] then 0 else Sizes(chunks[..|chunks| - 1]) + chunks[|chunks| - 1].size
  }

  /** Total bytes of streams `[lo, hi)`. */
  function Total(streams: seq<Stream>, lo: nat, hi: nat): (r: nat)
    requires hi <= |streams|
  {
    if hi <= lo then 0 else Total(streams, lo, hi - 1) + streams[hi - 1].bytes
  }

  /** Chunks of all streams before stream `i`. */
  function Start(streams: seq<Stream>, i: nat): nat
    requires i <= |streams|
  {
    if i == 0 then 0 else Start(streams, i - 1) + |streams[i - 1].chunks|
  }

  function InFlight(jobs: seq<Job>): nat {
    if jobs == [] then 0 else InFlight(jobs[..|jobs| - 1]) + |jobs[|jobs| - 1].receipts|
  }

  // ------------------------------------------------------------------ actions

  /** The admission rule, checked under the mutex. */
  function Admit(s: State, bytes: nat): Admission {
    if bytes > MAX_STREAM_BYTES then TooLarge
    else if s.failure then Refused
    else if s.count == MAX_SUBMISSIONS
         || (s.count != 0 && (bytes > MAX_PENDING_BYTES || Min(s.bytes + bytes, MAX_WORD) > MAX_PENDING_BYTES))
    then Busy
    else Accepted
  }

  function EnqueueStep(s: State, chunks: seq<Chunk>): State {
    var bytes := Sizes(chunks);
    if Admit(s, bytes) != Accepted then s
    else
      s.(streams := s.streams + [Stream(bytes, chunks)], outcomes := s.outcomes + [None],
         published := s.published + [None], pending := s.pending + [|s.streams|],
         count := s.count + 1, bytes := s.bytes + bytes, last := Some(|s.streams|))
  }

  /** `finish_signal`, its first half: everything accounted under the mutex. */
  function Account(s: State, id: nat, outcome: Outcome): State {
    if id >= |s.streams| || id >= |s.outcomes| then s
    else
      s.(outcomes := s.outcomes[id := Some(outcome)], count := s.count - 1, bytes := s.bytes - s.streams[id].bytes,
         failure := s.failure || outcome == Failed, last := if s.count == 1 then None else s.last, announce := Some(id))
  }

  /** The scheduler's own admission rule. */
  predicate Transferable(s: State, bytes: nat) {
    && !s.schedulerFailed && bytes <= MAX_STREAM_BYTES && |s.jobs| < MAX_SUBMISSIONS
    && (s.jobs == [] || (bytes <= MAX_PENDING_BYTES && Min(s.jobBytes + bytes, MAX_WORD) <= MAX_PENDING_BYTES))
  }

  function TransferStep(s: State): State {
    if s.pending == [] then s.(pc := Polling)
    else
      var id := s.pending[0];
      var bytes := if id < |s.streams| then s.streams[id].bytes else 0;
      if Transferable(s, bytes) then
        s.(pending := s.pending[1..], jobs := s.jobs + [Job(id, 0, [])], jobBytes := s.jobBytes + bytes)
      else Account(s.(pending := s.pending[1..], pc := WorkerFailing), id, Failed)
  }

  /** The first job with a chunk left to submit. */
  function Cursor(s: State, j: nat): (r: nat)
    requires j <= |s.jobs|
    ensures j <= r <= |s.jobs|
    ensures forall k :: j <= k < r && s.jobs[k].id < |s.streams| ==> |s.streams[s.jobs[k].id].chunks| <= s.jobs[k].next
    ensures r < |s.jobs| ==> s.jobs[r].id < |s.streams| && s.jobs[r].next < |s.streams[s.jobs[r].id].chunks|
    decreases |s.jobs| - j
  {
    if j == |s.jobs| then j
    else if s.jobs[j].id < |s.streams| && s.jobs[j].next < |s.streams[s.jobs[j].id].chunks| then j
    else Cursor(s, j + 1)
  }

  function Remove<T>(s: seq<T>, k: nat): seq<T>
    requires k < |s|
  {
    s[..k] + s[k + 1..]
  }

  predicate FrontComplete(s: State) {
    s.jobs != [] && s.jobs[0].id < |s.streams| && s.jobs[0].next == |s.streams[s.jobs[0].id].chunks|
    && s.jobs[0].receipts == []
  }

  predicate ArenaClear(s: State, arena: Option<nat>) {
    arena.Some? && arena.value in s.arenas && s.arenas[arena.value] < |s.natives| ==>
      s.natives[s.arenas[arena.value]].retired
  }

  function NextChunk(s: State): Chunk
    requires Cursor(s, 0) < |s.jobs|
  {
    var job := s.jobs[Cursor(s, 0)];
    s.streams[job.id].chunks[job.next]
  }

  function SubmitStep(s: State, result: SubmitResult): State
    requires Cursor(s, 0) < |s.jobs|
  {
    var j := Cursor(s, 0);
    var job, chunk := s.jobs[j], NextChunk(s);
    var native := Native(job.id, job.next, chunk.arena, false);
    match result
    case NativeBusy => s.(pc := Checking)
    case Rejected => s.(pc := SchedulerFailing, schedulerFailed := true)
    case Uncertain => s.(natives := s.natives + [native], pc := SchedulerFailing, schedulerFailed := true)
    case Submitted =>
      s.(natives := s.natives + [native],
         jobs := s.jobs[j := job.(next := job.next + 1, receipts := job.receipts + [|s.natives|])],
         arenas := if chunk.arena.Some? then s.arenas[chunk.arena.value := |s.natives|] else s.arenas,
         pc := Submitting(false))
  }

  predicate Worker(a: Action) {
    !a.Enqueue? && !a.Close? && !a.Snapshot? && !a.Return? && !a.Retire?
  }

  /** A signal accounted for is published before the worker does anything else. */
  predicate Enabled(s: State, a: Action) {
    && (Worker(a) ==> (a.Publish? <==> s.announce.Some?))
    && match a
       case Enqueue(_) => !s.closing
       case Close => !s.closing
       case Snapshot => !s.closing
       case Return(w) => w < |s.waiters| && s.waiters[w].answer.None? && s.waiters[w].target.Some?
                         && s.waiters[w].target.value < |s.published| && s.published[s.waiters[w].target.value].Some?
       case Retire(k) => k < |s.natives|
       case Consume(_) => s.pc.Consuming?
       case Transfer => s.pc.Transferring?
       case Observe(j, r) => s.pc.Polling? && j < |s.jobs| && r < |s.jobs[j].receipts|
                             && s.jobs[j].receipts[r] < |s.natives| && s.natives[s.jobs[j].receipts[r]].retired
       case PollError => s.pc.Polling? && InFlight(s.jobs) > 0
       case PollEnd => s.pc.Polling?
       case Complete => s.pc.Retiring? && FrontComplete(s)
       case CompleteEnd => s.pc.Retiring? && !FrontComplete(s)
       case Ready(_) => s.pc == Submitting(false) && Cursor(s, 0) < |s.jobs| && InFlight(s.jobs) < MAX_IN_FLIGHT
       case Submit(_) => s.pc == Submitting(true) && Cursor(s, 0) < |s.jobs|
       case SubmitEnd => s.pc == Submitting(false) && (Cursor(s, 0) == |s.jobs| || InFlight(s.jobs) >= MAX_IN_FLIGHT)
       case Check(_) => s.pc.Checking?
       case Sleep(_) => s.pc.Sleeping?
       case Publish => true
       case FailOne => (s.pc.SchedulerFailing? || s.pc.Draining?)
       case TakePending => s.pc.WorkerFailing?
       case Exit => s.pc.Exiting?
  }

  /** Resolve the next signal of a failing worker, or move on when none is left. */
  function FailStep(s: State): State {
    if s.jobs != [] then Account(s.(jobs := s.jobs[1..]), s.jobs[0].id, Failed)
    else if s.pc.SchedulerFailing? then s.(jobBytes := 0, pc := WorkerFailing)
    else if s.taken != [] then Account(s.(taken := s.taken[1..]), s.taken[0], Failed)
    else s.(pc := Exiting)
  }

  /** Steps that only move the worker, possibly into failure. */
  predicate Moving(a: Action) {
    || a.Consume? || a.PollError? || a.PollEnd? || a.CompleteEnd? || a.Ready? || a.SubmitEnd? || a.Check?
    || a.Sleep? || a.Exit?
  }

  function NextPc(s: State, a: Action): Pc
    requires Enabled(s, a) && Moving(a)
  {
    match a
    case Consume(ok) => if ok then Transferring else WorkerFailing
    case PollError => SchedulerFailing
    case PollEnd => Retiring
    case CompleteEnd => Submitting(false)
    case Ready(ok) =>
      if !ok then SchedulerFailing
      else if ArenaClear(s, NextChunk(s).arena) then Submitting(true)
      else Checking
    case SubmitEnd => Checking
    case Check(progressed) =>
      if s.jobs == [] && s.closing && s.count == 0 then Exiting else if progressed then Consuming else Sleeping
    case Sleep(ok) => if ok then Consuming else WorkerFailing
    case Exit => if s.jobs != [] || s.count != 0 then WorkerFailing else Gone
  }

  function MoveStep(s: State, a: Action): State
    requires Enabled(s, a) && Moving(a)
  {
    s.(pc := NextPc(s, a), schedulerFailed := s.schedulerFailed || a.PollError? || (a.Ready? && !a.ok))
  }

  function ReturnStep(s: State, w: nat): State
    requires Enabled(s, Return(w))
  {
    var answer := s.published[s.waiters[w].target.value] == Some(Succeeded);
    s.(waiters := s.waiters[w := s.waiters[w].(answer := Some(answer))])
  }

  function SnapshotStep(s: State): State {
    s.(waiters := s.waiters + [Waiter(|s.streams|, if s.failure then None else s.last,
                                      if s.failure then Some(false) else if s.last.None? then Some(true) else None)])
  }

  function PublishStep(s: State): State
    requires s.announce.Some?
  {
    if s.announce.value < |s.published| && s.announce.value < |s.outcomes| then
      s.(published := s.published[s.announce.value := s.outcomes[s.announce.value]], announce := None)
    else s.(announce := None)
  }

  function Step(s: State, a: Action): State
    requires Enabled(s, a)
  {
    if Moving(a) then MoveStep(s, a)
    else
      match a
      case Enqueue(chunks) => EnqueueStep(s, chunks)
      case Close => s.(closing := true)
      case Snapshot => SnapshotStep(s)
      case Return(w) => ReturnStep(s, w)
      case Retire(k) => s.(natives := s.natives[k := s.natives[k].(retired := true)])
      case Transfer => TransferStep(s)
      case Observe(j, r) => s.(jobs := s.jobs[j := s.jobs[j].(receipts := Remove(s.jobs[j].receipts, r))])
      case Complete =>
        Account(s.(jobs := s.jobs[1..], jobBytes := s.jobBytes - s.streams[s.jobs[0].id].bytes),
          s.jobs[0].id, Succeeded)
      case Submit(result) => SubmitStep(s, result)
      case Publish => PublishStep(s)
      case FailOne => FailStep(s)
      case TakePending =>
        s.(failure := true, schedulerFailed := true, taken := s.pending, pending := [], pc := Draining)
      case _ => s
  }
}
