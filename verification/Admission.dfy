/**
 Accounting of asynchronous submission: the queue order, the admission bounds,
 the outcomes and the published signals that every step keeps.
 */
module Admission {
  import opened Common
  import opened Dispatch

  /** The oldest stream whose signal is still unresolved. */
  function Head(s: State): int { |s.streams| - s.count }

  predicate Failing(pc: Pc) { pc.SchedulerFailing? || pc.WorkerFailing? || pc.Draining? || pc.Exiting? || pc.Gone? }

  /** Everything unresolved sits, in order of acceptance, in the scheduler, the taken queue or the inbox. */
  ghost predicate Queued(s: State) {
    && |s.outcomes| == |s.streams| && 0 <= s.count == |s.jobs| + |s.taken| + |s.pending| <= |s.streams|
    && (forall k :: 0 <= k < |s.jobs| ==> s.jobs[k].id == Head(s) + k)
    && (forall k :: 0 <= k < |s.taken| ==> s.taken[k] == Head(s) + |s.jobs| + k)
    && (forall k :: 0 <= k < |s.pending| ==> s.pending[k] == Head(s) + |s.jobs| + |s.taken| + k)
    && (forall i :: 0 <= i < |s.streams| ==> (s.outcomes[i].None? <==> Head(s) <= i))
    && (s.taken != [] ==> s.pc.Draining?) && (s.pc.Draining? ==> s.failure && s.pending == [])
  }

  /** Bytes are exactly those of unresolved streams, and large streams run alone. */
  ghost predicate Bounded(s: State) {
    && (forall i :: 0 <= i < |s.streams| ==> s.streams[i].bytes <= MAX_STREAM_BYTES)
    && 0 <= s.count <= |s.streams| && |s.jobs| <= s.count
    && s.bytes == Total(s.streams, Head(s), |s.streams|)
    && (!s.schedulerFailed ==> s.jobBytes == Total(s.streams, Head(s), Head(s) + |s.jobs|))
    && s.count <= MAX_SUBMISSIONS && (s.bytes <= MAX_PENDING_BYTES || s.count == 1)
  }

  /** Success is a prefix of the accepted streams; failure is remembered and ends the worker. */
  ghost predicate Resolved(s: State) {
    && |s.outcomes| == |s.streams|
    && s.last == (if s.count == 0 then None else Some(|s.streams| - 1))
    && (forall i, j :: 0 <= i < j < |s.streams| && s.outcomes[j] == Some(Succeeded) ==>
      s.outcomes[i] == Some(Succeeded))
    && (!s.failure ==> forall i :: 0 <= i < |s.streams| && s.outcomes[i].Some? ==> s.outcomes[i] == Some(Succeeded))
    && (s.failure ==> s.schedulerFailed)
    && (s.schedulerFailed ==> Failing(s.pc)) && (s.pc.SchedulerFailing? || s.pc.Draining? ==> s.schedulerFailed)
    && (s.pc.Exiting? || s.pc.Gone? ==> (s.failure || s.closing) && s.count == 0)
  }

  /** A signal shows its outcome, except the one being announced. */
  ghost predicate Announced(s: State) {
    && |s.published| == |s.outcomes|
    && (s.announce.Some? ==> s.announce.value < |s.outcomes| && s.outcomes[s.announce.value].Some?)
    && forall i :: 0 <= i < |s.published| ==>
         s.published[i] == if s.announce == Some(i) then None else s.outcomes[i]
  }

  /** A waiter told yes saw every stream accepted before it succeed. */
  ghost predicate Answered(s: State) {
    |s.outcomes| == |s.streams| && forall w :: 0 <= w < |s.waiters| ==>
      var waiter := s.waiters[w];
      && waiter.accepted <= |s.streams|
      && (waiter.target.Some? ==> waiter.accepted == waiter.target.value + 1)
      && (waiter.answer == Some(true) ==> forall i :: 0 <= i < waiter.accepted ==> s.outcomes[i] == Some(Succeeded))
  }

  // ------------------------------------------------------------------- totals

  lemma {:induction false} TotalSplit(streams: seq<Stream>, lo: nat, middle: nat, hi: nat)
    requires lo <= middle <= hi <= |streams|
    ensures Total(streams, lo, hi) == Total(streams, lo, middle) + Total(streams, middle, hi)
  {
    if middle < hi {
      TotalSplit(streams, lo, middle, hi - 1);
    }
  }

  lemma {:induction false} TotalAppend(streams: seq<Stream>, stream: Stream, lo: nat, hi: nat)
    requires hi <= |streams|
    ensures Total(streams + [stream], lo, hi) == Total(streams, lo, hi)
  {
    if lo < hi {
      TotalAppend(streams, stream, lo, hi - 1);
    }
  }

  lemma TotalFront(streams: seq<Stream>, lo: nat, hi: nat)
    requires lo < hi <= |streams|
    ensures Total(streams, lo, hi) == streams[lo].bytes + Total(streams, lo + 1, hi)
  {
    TotalSplit(streams, lo, lo + 1, hi);
    assert Total(streams, lo, lo) == 0;
    assert Total(streams, lo, lo + 1) == Total(streams, lo, lo) + streams[lo].bytes;
  }

  // ---------------------------------------------------------------- safety

  /** A stream admitted globally is always accepted by the scheduler. */
  lemma TransferAccepted(s: State)
    requires Queued(s) && Bounded(s) && Resolved(s) && s.pc.Transferring? && s.pending != []
    ensures s.pending[0] == Head(s) + |s.jobs| < |s.streams|
    ensures Transferable(s, s.streams[s.pending[0]].bytes)
  {
    var id := s.pending[0];
    TotalSplit(s.streams, Head(s), id, |s.streams|);
    TotalFront(s.streams, id, |s.streams|);
    assert Head(s) + |s.jobs| == id;
  }

  /** Steps that neither admit, move, resolve nor announce a stream. */
  predicate Quiet(s: State, a: Action) {
    match a
    case Enqueue(chunks) => Admit(s, Sizes(chunks)) != Accepted
    case Transfer => s.pending == []
    case Complete => false
    case Publish => false
    case FailOne => s.jobs == [] && (s.pc.SchedulerFailing? || s.taken == [])
    case TakePending => false
    case _ => true
  }

  /** What a quiet step may change: the worker's position and its receipts. */
  ghost predicate Unmoved(s: State, t: State) {
    && t.streams == s.streams && t.outcomes == s.outcomes && t.published == s.published && t.pending == s.pending
    && t.count == s.count && t.bytes == s.bytes && t.last == s.last && t.failure == s.failure && t.taken == s.taken
    && t.announce == s.announce && (s.closing ==> t.closing)
    && |t.jobs| == |s.jobs| && (forall k :: 0 <= k < |t.jobs| ==> t.jobs[k].id == s.jobs[k].id)
    && (t.schedulerFailed || t.jobBytes == s.jobBytes) && (s.schedulerFailed ==> t.schedulerFailed)
    && (t.schedulerFailed ==> Failing(t.pc)) && (t.pc.SchedulerFailing? || t.pc.Draining? ==> t.schedulerFailed)
    && (t.pc.Draining? <==> s.pc.Draining? && t.pc == s.pc) && (s.taken != [] ==> t.pc == s.pc)
    && (t.pc.Exiting? || t.pc.Gone? ==> (t.failure || t.closing) && t.count == 0)
  }

  /** Where the worker may stand, given what has failed. */
  predicate Placed(s: State) {
    && (s.schedulerFailed ==> Failing(s.pc)) && (s.pc.SchedulerFailing? || s.pc.Draining? ==> s.schedulerFailed)
    && (s.pc.Exiting? || s.pc.Gone? ==> (s.failure || s.closing) && s.count == 0)
    && (s.taken != [] ==> s.pc.Draining?) && (s.pc.Draining? ==> s.failure && s.pending == [])
    && s.count == |s.jobs| + |s.taken| + |s.pending|
  }

  lemma CorePlaced(s: State)
    requires Queued(s) && Resolved(s)
    ensures Placed(s)
  {
  }

  lemma QuietUnmoved(s: State, a: Action)
    requires Placed(s) && Enabled(s, a) && Quiet(s, a)
    ensures Unmoved(s, Step(s, a))
  {
    match a {
      case Submit(result) => SubmitUnmoved(s, result);
      case Observe(_, _) =>
      case Enqueue(_) =>
      case FailOne =>
      case Transfer =>
      case _ =>
        if Moving(a) {
          MovingUnmoved(s, a);
        }
    }
  }

  lemma SubmitUnmoved(s: State, result: SubmitResult)
    requires Placed(s) && Enabled(s, Submit(result))
    ensures Unmoved(s, Step(s, Submit(result)))
  {
  }

  lemma MovingUnmoved(s: State, a: Action)
    requires Placed(s) && Enabled(s, a) && Moving(a)
    ensures Unmoved(s, Step(s, a))
  {
  }

  lemma UnmovedResolved(s: State, t: State)
    requires Resolved(s) && Unmoved(s, t)
    ensures Resolved(t)
  {
  }

  /** The form every resolving step has: the head of the queue is accounted for. */
  ghost predicate Resolves(s: State, rest: State, outcome: Outcome) {
    && 0 < s.count <= |s.streams|
    && rest == s.(jobs := rest.jobs, jobBytes := rest.jobBytes, taken := rest.taken)
    && (if s.jobs != [] then rest.jobs == s.jobs[1..] && rest.taken == s.taken
        else rest.jobs == [] && s.taken != [] && rest.taken == s.taken[1..])
    && (!s.schedulerFailed ==> s.jobs != [] && rest.jobBytes == s.jobBytes - s.streams[Head(s)].bytes)
    && (outcome == Succeeded ==> !s.schedulerFailed) && (outcome == Failed ==> s.schedulerFailed)
  }

  lemma AccountQueued(s: State, rest: State, outcome: Outcome)
    requires Queued(s) && Resolves(s, rest, outcome)
    ensures Queued(Account(rest, Head(s), outcome))
  {
  }

  lemma AccountBounded(s: State, rest: State, outcome: Outcome)
    requires Bounded(s) && |s.outcomes| == |s.streams| && Resolves(s, rest, outcome)
    ensures Bounded(Account(rest, Head(s), outcome))
  {
    TotalFront(s.streams, Head(s), |s.streams|);
    if !s.schedulerFailed {
      TotalFront(s.streams, Head(s), Head(s) + |s.jobs|);
    }
  }

  lemma AccountResolved(s: State, rest: State, outcome: Outcome)
    requires Queued(s) && Resolved(s) && Resolves(s, rest, outcome)
    ensures Resolved(Account(rest, Head(s), outcome))
  {
  }

  lemma AccountAnnounced(s: State, rest: State, outcome: Outcome)
    requires Queued(s) && Announced(s) && s.announce.None? && Resolves(s, rest, outcome)
    ensures Announced(Account(rest, Head(s), outcome))
  {
  }

  lemma EnqueueQueued(s: State, chunks: seq<Chunk>)
    requires Queued(s) && Admit(s, Sizes(chunks)) == Accepted
    ensures Queued(EnqueueStep(s, chunks))
  {
  }

  lemma EnqueueBounded(s: State, chunks: seq<Chunk>)
    requires Bounded(s) && |s.outcomes| == |s.streams| && Admit(s, Sizes(chunks)) == Accepted
    ensures Bounded(EnqueueStep(s, chunks))
  {
    var stream := Stream(Sizes(chunks), chunks);
    TotalAppend(s.streams, stream, Head(s), |s.streams|);
    TotalAppend(s.streams, stream, Head(s), Head(s) + |s.jobs|);
    EmptyTotal(s.streams);
  }

  lemma EmptyTotal(streams: seq<Stream>)
    ensures Total(streams, |streams|, |streams|) == 0
  {
  }

  lemma EnqueueResolved(s: State, chunks: seq<Chunk>)
    requires Queued(s) && Resolved(s) && Admit(s, Sizes(chunks)) == Accepted && !s.closing
    ensures Resolved(EnqueueStep(s, chunks))
  {
  }

  lemma EnqueueAnnounced(s: State, chunks: seq<Chunk>)
    requires Announced(s) && |s.outcomes| == |s.streams|
    ensures Announced(EnqueueStep(s, chunks))
  {
  }

  lemma TransferQueued(s: State)
    requires Queued(s) && s.pending != [] && s.pc.Transferring?
    requires s.pending[0] < |s.streams| && Transferable(s, s.streams[s.pending[0]].bytes)
    ensures Queued(TransferStep(s))
  {
  }

  lemma TransferBounded(s: State)
    requires Bounded(s) && s.pending != [] && s.pending[0] == Head(s) + |s.jobs| < |s.streams|
    requires |s.jobs| < s.count && Transferable(s, s.streams[s.pending[0]].bytes)
    ensures Bounded(TransferStep(s))
  {
  }

  /** Accounting, admission bounds, outcomes and signals, together. */
  ghost predicate Core(s: State) { Queued(s) && Bounded(s) && Resolved(s) && Announced(s) }

  lemma ResolvingStep(s: State, rest: State, outcome: Outcome)
    requires Core(s) && s.announce.None? && Resolves(s, rest, outcome)
    ensures Core(Account(rest, Head(s), outcome))
  {
    AccountQueued(s, rest, outcome);
    AccountBounded(s, rest, outcome);
    AccountResolved(s, rest, outcome);
    AccountAnnounced(s, rest, outcome);
  }

  lemma EnqueueCore(s: State, chunks: seq<Chunk>)
    requires Core(s) && !s.closing && Admit(s, Sizes(chunks)) == Accepted
    ensures Core(EnqueueStep(s, chunks))
  {
    EnqueueQueued(s, chunks);
    EnqueueBounded(s, chunks);
    EnqueueResolved(s, chunks);
    EnqueueAnnounced(s, chunks);
  }

  lemma TransferCore(s: State)
    requires Core(s) && s.pending != [] && s.pc.Transferring?
    ensures Core(TransferStep(s))
  {
    TransferAccepted(s);
    TransferQueued(s);
    TransferBounded(s);
  }

  lemma QuietCore(s: State, a: Action)
    requires Core(s) && Enabled(s, a) && Quiet(s, a)
    ensures Core(Step(s, a))
  {
    CorePlaced(s);
    QuietUnmoved(s, a);
    UnmovedResolved(s, Step(s, a));
  }

  lemma TakeCore(s: State)
    requires Core(s) && Enabled(s, TakePending)
    ensures Core(Step(s, TakePending))
  {
  }

  lemma PublishCore(s: State)
    requires Core(s) && Enabled(s, Publish)
    ensures Core(Step(s, Publish))
  {
  }

  lemma HeadJob(s: State)
    requires Queued(s) && s.jobs != []
    ensures 0 < s.count <= |s.streams| && s.jobs[0].id == Head(s)
  {
  }

  lemma CompleteCore(s: State)
    requires Core(s) && Enabled(s, Complete)
    ensures Core(Step(s, Complete))
  {
    HeadJob(s);
    CorePlaced(s);
    CompleteResolves(s);
    ResolvingStep(s, Popped(s), Succeeded);
  }

  function Popped(s: State): State
    requires s.jobs != [] && s.jobs[0].id < |s.streams|
  {
    s.(jobs := s.jobs[1..], jobBytes := s.jobBytes - s.streams[s.jobs[0].id].bytes)
  }

  lemma CompleteResolves(s: State)
    requires Placed(s) && Enabled(s, Complete) && 0 < s.count <= |s.streams| && s.jobs[0].id == Head(s)
    ensures Resolves(s, Popped(s), Succeeded) && Step(s, Complete) == Account(Popped(s), Head(s), Succeeded)
  {
  }

  /** The failing worker resolves the oldest job, then the oldest taken stream. */
  function Dropped(s: State): State {
    if s.jobs != [] then s.(jobs := s.jobs[1..]) else if s.taken != [] then s.(taken := s.taken[1..]) else s
  }

  lemma FailResolves(s: State)
    requires Placed(s) && Enabled(s, FailOne) && !Quiet(s, FailOne) && 0 < s.count <= |s.streams|
    requires if s.jobs != [] then s.jobs[0].id == Head(s) else s.taken != [] && s.taken[0] == Head(s)
    ensures Resolves(s, Dropped(s), Failed) && Step(s, FailOne) == Account(Dropped(s), Head(s), Failed)
  {
  }

  lemma HeadTaken(s: State)
    requires Queued(s) && s.jobs == [] && s.taken != []
    ensures 0 < s.count <= |s.streams| && s.taken[0] == Head(s)
  {
  }

  lemma FailCore(s: State)
    requires Core(s) && Enabled(s, FailOne) && !Quiet(s, FailOne)
    ensures Core(Step(s, FailOne))
  {
    if s.jobs != [] {
      HeadJob(s);
    } else {
      HeadTaken(s);
    }
    CorePlaced(s);
    FailResolves(s);
    ResolvingStep(s, Dropped(s), Failed);
  }

  /** Every step of every interleaving keeps the core invariant. */
  lemma CoreStep(s: State, a: Action)
    requires Core(s) && Enabled(s, a)
    ensures Core(Step(s, a))
  {
    if Quiet(s, a) {
      QuietCore(s, a);
    } else {
      match a {
        case Enqueue(chunks) => EnqueueCore(s, chunks);
        case Transfer => TransferCore(s);
        case Complete => CompleteCore(s);
        case FailOne => FailCore(s);
        case TakePending => TakeCore(s);
        case Publish => PublishCore(s);
      }
    }
  }

  /** What every kind of step leaves alone. */
  lemma MoveKeeps(s: State, a: Action)
    requires Enabled(s, a) && Moving(a)
    ensures Step(s, a) == s.(pc := Step(s, a).pc, schedulerFailed := Step(s, a).schedulerFailed)
    ensures s.schedulerFailed ==> Step(s, a).schedulerFailed
    ensures Step(s, a).pc == Submitting(true) ==> a.Ready?
  {
  }

  predicate Producing(a: Action) { a.Enqueue? || a.Close? || a.Snapshot? || a.Return? }

  lemma ProducersKeep(s: State, a: Action)
    requires Enabled(s, a) && Producing(a)
    ensures var t := Step(s, a);
      && t.jobs == s.jobs && t.pc == s.pc && t.schedulerFailed == s.schedulerFailed && t.natives == s.natives
      && t.arenas == s.arenas && t.announce == s.announce && t.failure == s.failure
      && (s.failure || !a.Enqueue? ==> t.streams == s.streams)
  {
  }

  predicate Resolving(a: Action) { a.Complete? || a.FailOne? || a.TakePending? || a.Transfer? }

  ghost predicate KeptByResolving(s: State, t: State) {
    && t.natives == s.natives && t.arenas == s.arenas && t.streams == s.streams
    && (s.schedulerFailed ==> t.schedulerFailed) && (s.failure ==> t.failure)
    && t.pc != Submitting(true) && !t.pc.Gone?
  }

  lemma FailKeeps(s: State)
    requires Enabled(s, FailOne)
    ensures KeptByResolving(s, FailStep(s))
  {
  }

  lemma TransferKeeps(s: State)
    requires s.pc.Transferring?
    ensures KeptByResolving(s, TransferStep(s))
  {
  }

  lemma ResolversKeep(s: State, a: Action)
    requires Enabled(s, a) && Resolving(a)
    ensures KeptByResolving(s, Step(s, a))
  {
    match a {
      case Complete =>
      case FailOne => FailKeeps(s);
      case TakePending =>
      case Transfer => TransferKeeps(s);
    }
  }

  lemma PublishKeeps(s: State)
    requires Enabled(s, Publish)
    ensures Step(s, Publish) == s.(published := Step(s, Publish).published, announce := None)
  {
  }

  // -------------------------------------------------- exactly once, and waiting

  /** No outcome ever changes: each accepted signal is resolved at most once. */
  lemma ResolvedOnce(s: State, a: Action)
    requires Core(s) && Enabled(s, a)
    ensures |s.streams| <= |Step(s, a).streams| && |Step(s, a).outcomes| == |Step(s, a).streams|
    ensures forall i :: 0 <= i < |s.streams| && s.outcomes[i].Some? ==> Step(s, a).outcomes[i] == s.outcomes[i]
  {
    if Quiet(s, a) {
      CorePlaced(s);
      QuietUnmoved(s, a);
    } else {
      match a {
        case Transfer => TransferAccepted(s);
        case Complete =>
          HeadJob(s);
          CorePlaced(s);
          CompleteResolves(s);
        case FailOne =>
          if s.jobs != [] {
            HeadJob(s);
          }
        case _ =>
      }
    }
  }

  lemma SnapshotAnswered(s: State)
    requires Core(s) && Answered(s) && Enabled(s, Snapshot)
    ensures Answered(Step(s, Snapshot))
  {
  }

  lemma ReturnAnswered(s: State, w: nat)
    requires Core(s) && Answered(s) && Enabled(s, Return(w))
    ensures Answered(Step(s, Return(w)))
  {
  }

  lemma KeptAnswered(s: State, t: State)
    requires Answered(s) && t.waiters == s.waiters && |s.streams| <= |t.streams| == |t.outcomes|
    requires forall i :: 0 <= i < |s.streams| && s.outcomes[i].Some? ==> t.outcomes[i] == s.outcomes[i]
    ensures Answered(t)
  {
  }

  lemma AnsweredStep(s: State, a: Action)
    requires Core(s) && Answered(s) && Enabled(s, a)
    ensures Answered(Step(s, a))
  {
    match a {
      case Snapshot => SnapshotAnswered(s);
      case Return(w) => ReturnAnswered(s, w);
      case _ => OthersAnswered(s, a);
    }
  }

  lemma OthersAnswered(s: State, a: Action)
    requires Core(s) && Answered(s) && Enabled(s, a) && !a.Snapshot? && !a.Return?
    ensures Answered(Step(s, a))
  {
    ResolvedOnce(s, a);
    KeptAnswered(s, Step(s, a));
  }
}
