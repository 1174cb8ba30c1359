/**
 Order of native submission: the log of submissions is a prefix of the accepted
 streams laid end to end, and a stream that succeeded has wholly retired.
 */
module NativeLog {
  import opened Common
  import opened Dispatch
  import opened Admission

  function Clamp(x: int, hi: nat): nat { if x < 0 then 0 else if x > hi then hi else x }

  function Length(s: State, i: nat): nat
    requires i < |s.streams|
  {
    |s.streams[i].chunks|
  }

  /** The `k`-th native submission is the `k`-th chunk of the accepted streams laid end to end. */
  ghost predicate InOrder(s: State) {
    forall k :: 0 <= k < |s.natives| ==>
      var native := s.natives[k];
      && native.stream < |s.streams| && native.chunk < Length(s, native.stream)
      && native.arena == s.streams[native.stream].chunks[native.chunk].arena
      && Start(s.streams, native.stream) + native.chunk == k
  }

  /** Each job has submitted exactly its share of the log. */
  ghost predicate Shared(s: State) {
    && 0 <= s.count <= |s.streams| && |s.jobs| <= s.count
    && Start(s.streams, Head(s)) <= |s.natives| <= Start(s.streams, Head(s) + |s.jobs|)
    && forall j :: 0 <= j < |s.jobs| ==>
         s.jobs[j].id == Head(s) + j && s.jobs[j].next == Share(s, s.jobs[j].id)
  }

  /** How much of stream `i` the first `|natives|` chunks include. */
  function Share(s: State, i: nat): nat
    requires i < |s.streams|
  {
    Clamp(|s.natives| - Start(s.streams, i), Length(s, i))
  }

  /** A submission not yet retired is watched by its job's receipts. */
  ghost predicate Watched(s: State) {
    && 0 <= s.count <= |s.streams|
    && forall k :: 0 <= k < |s.natives| && !s.natives[k].retired ==>
         && Head(s) <= s.natives[k].stream < Head(s) + |s.jobs|
         && k in s.jobs[s.natives[k].stream - Head(s)].receipts
  }

  /** A stream that succeeded was submitted whole and every chunk of it retired. */
  ghost predicate Truthful(s: State) {
    && |s.outcomes| == |s.streams|
    && (forall k :: 0 <= k < |s.natives| && s.natives[k].stream < |s.streams| && !s.natives[k].retired ==>
          s.outcomes[s.natives[k].stream] != Some(Succeeded))
    && (forall i :: 0 <= i < |s.streams| && s.outcomes[i] == Some(Succeeded) ==>
          Start(s.streams, i) + Length(s, i) <= |s.natives|)
  }

  ghost predicate Logged(s: State) {
    InOrder(s) && Truthful(s) && (!s.schedulerFailed ==> Shared(s) && Watched(s))
  }

  lemma {:induction false} StartAppend(streams: seq<Stream>, stream: Stream, i: nat)
    requires i <= |streams|
    ensures Start(streams + [stream], i) == Start(streams, i)
  {
    if i > 0 {
      StartAppend(streams, stream, i - 1);
    }
  }

  lemma {:induction false} StartGrows(streams: seq<Stream>, i: nat, j: nat)
    requires i <= j <= |streams|
    ensures Start(streams, i) <= Start(streams, j)
    ensures i < j ==> Start(streams, i) + |streams[i].chunks| <= Start(streams, j)
    decreases j - i
  {
    if i < j {
      StartGrows(streams, i, j - 1);
    }
  }

  /** More streams at the end move no earlier chunk. */
  ghost predicate Extended(s: State, t: State) {
    && t.natives == s.natives && t.jobs == s.jobs && |s.outcomes| == |s.streams|
    && |t.streams| == |s.streams| + 1 && t.streams[..|s.streams|] == s.streams
    && t.outcomes == s.outcomes + [None] && t.count == s.count + 1 && t.schedulerFailed == s.schedulerFailed
    && forall i :: 0 <= i <= |s.streams| ==> Start(t.streams, i) == Start(s.streams, i)
  }

  lemma EnqueueExtends(s: State, chunks: seq<Chunk>)
    requires |s.outcomes| == |s.streams| && Admit(s, Sizes(chunks)) == Accepted
    ensures Extended(s, EnqueueStep(s, chunks))
  {
    forall i | 0 <= i <= |s.streams|
      ensures Start(s.streams + [Stream(Sizes(chunks), chunks)], i) == Start(s.streams, i)
    {
      StartAppend(s.streams, Stream(Sizes(chunks), chunks), i);
    }
  }

  lemma ExtendedInOrder(s: State, t: State)
    requires InOrder(s) && Extended(s, t)
    ensures InOrder(t)
  {
    forall k | 0 <= k < |t.natives|
      ensures var native := t.natives[k];
        && native.stream < |t.streams| && native.chunk < Length(t, native.stream)
        && native.arena == t.streams[native.stream].chunks[native.chunk].arena
        && Start(t.streams, native.stream) + native.chunk == k
    {
      assert t.streams[s.natives[k].stream] == s.streams[s.natives[k].stream];
    }
  }

  lemma ExtendedShared(s: State, t: State)
    requires Shared(s) && Extended(s, t)
    ensures Shared(t)
  {
    forall i | 0 <= i < |s.streams| ensures t.streams[i] == s.streams[i] {
      assert t.streams[..|s.streams|][i] == t.streams[i];
    }
  }

  lemma ExtendedWatched(s: State, t: State)
    requires Watched(s) && Extended(s, t)
    ensures Watched(t)
  {
  }

  lemma ExtendedTruthful(s: State, t: State)
    requires Truthful(s) && Extended(s, t)
    ensures Truthful(t)
  {
    forall i | 0 <= i < |s.streams| ensures t.streams[i] == s.streams[i] {
      assert t.streams[..|s.streams|][i] == t.streams[i];
    }
  }

  lemma EnqueueLogged(s: State, chunks: seq<Chunk>)
    requires Logged(s) && |s.outcomes| == |s.streams| && Admit(s, Sizes(chunks)) == Accepted
    ensures Logged(EnqueueStep(s, chunks))
  {
    var t := EnqueueStep(s, chunks);
    EnqueueExtends(s, chunks);
    ExtendedInOrder(s, t);
    ExtendedTruthful(s, t);
    if !s.schedulerFailed {
      ExtendedShared(s, t);
      ExtendedWatched(s, t);
    }
  }

  lemma TransferShared(s: State)
    requires Shared(s) && s.pending != [] && s.pending[0] == Head(s) + |s.jobs| < |s.streams|
    requires |s.jobs| < s.count && Transferable(s, s.streams[s.pending[0]].bytes)
    ensures Shared(TransferStep(s))
  {
  }

  lemma TransferWatched(s: State)
    requires Watched(s) && s.pending != [] && s.pending[0] < |s.streams|
    requires Transferable(s, s.streams[s.pending[0]].bytes)
    ensures Watched(TransferStep(s))
  {
  }

  lemma TransferLogged(s: State)
    requires Logged(s) && Core(s) && Enabled(s, Transfer) && s.pending != []
    ensures Logged(Step(s, Transfer))
  {
    TransferAccepted(s);
    if !s.schedulerFailed {
      TransferShared(s);
      TransferWatched(s);
    }
  }

  /** The chunk to submit is the one at the end of the log; nothing has passed it. */
  lemma CursorPosition(s: State)
    requires Shared(s) && Cursor(s, 0) < |s.jobs|
    ensures var j := Cursor(s, 0);
      && s.jobs[j].id == Head(s) + j
      && Start(s.streams, s.jobs[j].id) + s.jobs[j].next == |s.natives|
      && s.jobs[j].next < Length(s, s.jobs[j].id)
  {
    var j := Cursor(s, 0);
    EarlierFull(s, j);
  }

  /** Every job before an unfinished one lies wholly inside the log. */
  lemma {:induction false} EarlierFull(s: State, j: nat)
    requires Shared(s) && j < |s.jobs|
    requires forall i :: 0 <= i < j ==> Length(s, s.jobs[i].id) <= s.jobs[i].next
    ensures Start(s.streams, Head(s) + j) <= |s.natives|
  {
    if j > 0 {
      EarlierFull(s, j - 1);
      assert s.jobs[j - 1].next == Share(s, s.jobs[j - 1].id);
    }
  }

  /** One more submission changes the share of the cursor's stream only. */
  lemma ShareNext(s: State, t: State, i: nat, at: nat)
    requires i < |s.streams| && at < |s.streams| && t.streams == s.streams && |t.natives| == |s.natives| + 1
    requires Start(s.streams, at) <= |s.natives| < Start(s.streams, at) + Length(s, at)
    ensures Share(t, i) == if i == at then Share(s, i) + 1 else Share(s, i)
  {
    if i < at {
      StartGrows(s.streams, i, at);
    } else {
      StartGrows(s.streams, at, i);
    }
  }

  lemma SubmitShared(s: State)
    requires Shared(s) && !s.schedulerFailed && Enabled(s, Submit(Submitted))
    ensures Shared(Step(s, Submit(Submitted)))
  {
    CursorPosition(s);
    var at, t := s.jobs[Cursor(s, 0)].id, Step(s, Submit(Submitted));
    StartGrows(s.streams, Head(s), at);
    StartGrows(s.streams, at, Head(s) + |s.jobs|);
    forall j | 0 <= j < |t.jobs| ensures t.jobs[j].id == Head(t) + j && t.jobs[j].next == Share(t, t.jobs[j].id) {
      ShareNext(s, t, s.jobs[j].id, at);
    }
  }

  lemma SubmitWatched(s: State)
    requires Watched(s) && Enabled(s, Submit(Submitted)) && Cursor(s, 0) < |s.jobs|
    requires s.jobs[Cursor(s, 0)].id == Head(s) + Cursor(s, 0)
    ensures Watched(Step(s, Submit(Submitted)))
  {
    AppendedWatched(s, SubmitStep(s, Submitted), Cursor(s, 0));
  }

  lemma AppendedWatched(s: State, t: State, j: nat)
    requires Watched(s) && j < |s.jobs| == |t.jobs| && t.count == s.count && t.streams == s.streams
    requires |t.natives| == |s.natives| + 1 && t.natives[..|s.natives|] == s.natives
    requires t.natives[|s.natives|].stream == Head(s) + j && |s.natives| in t.jobs[j].receipts
    requires forall i :: 0 <= i < |s.jobs| ==> forall k :: k in s.jobs[i].receipts ==> k in t.jobs[i].receipts
    ensures Watched(t)
  {
    forall k | 0 <= k < |s.natives| ensures t.natives[k] == s.natives[k] {
      assert t.natives[..|s.natives|][k] == t.natives[k];
    }
  }

  /** Also when acceptance is uncertain, what may have been submitted is the next chunk. */
  lemma SubmitInOrder(s: State, result: SubmitResult)
    requires InOrder(s) && Shared(s) && Enabled(s, Submit(result))
    ensures InOrder(Step(s, Submit(result)))
  {
    CursorPosition(s);
    var t := SubmitStep(s, result);
    if t.natives != s.natives {
      AppendedInOrder(s, t);
    }
  }

  lemma AppendedInOrder(s: State, t: State)
    requires InOrder(s) && t.streams == s.streams && |t.natives| == |s.natives| + 1
      && t.natives[..|s.natives|] == s.natives
    requires var native := t.natives[|s.natives|];
      && native.stream < |s.streams| && native.chunk < Length(s, native.stream)
      && native.arena == s.streams[native.stream].chunks[native.chunk].arena
      && Start(s.streams, native.stream) + native.chunk == |s.natives|
    ensures InOrder(t)
  {
    forall k | 0 <= k < |s.natives| ensures t.natives[k] == s.natives[k] {
      assert t.natives[..|s.natives|][k] == t.natives[k];
    }
  }

  lemma SubmitTruthful(s: State, result: SubmitResult)
    requires Truthful(s) && Enabled(s, Submit(result)) && Cursor(s, 0) < |s.jobs|
    requires s.jobs[Cursor(s, 0)].id < |s.streams| && s.outcomes[s.jobs[Cursor(s, 0)].id].None?
    ensures Truthful(Step(s, Submit(result)))
  {
  }

  lemma SubmitLogged(s: State, result: SubmitResult)
    requires Logged(s) && Queued(s) && !s.schedulerFailed && Enabled(s, Submit(result))
    ensures Logged(Step(s, Submit(result)))
  {
    SubmitInOrder(s, result);
    UnresolvedJob(s, Cursor(s, 0));
    SubmitTruthful(s, result);
    match result {
      case Submitted =>
        SubmitShared(s);
        SubmitWatched(s);
      case NativeBusy => SameLogged(s, Step(s, Submit(result)));
      case _ =>
    }
  }

  lemma UnresolvedJob(s: State, j: nat)
    requires Queued(s) && j < |s.jobs|
    ensures s.jobs[j].id == Head(s) + j < |s.streams| && s.outcomes[s.jobs[j].id].None?
  {
  }

  lemma CompleteShared(s: State)
    requires Shared(s) && FrontComplete(s) && 0 < s.count && |s.outcomes| == |s.streams|
    ensures Shared(Account(Popped(s), Head(s), Succeeded))
    ensures Start(s.streams, Head(s)) + Length(s, Head(s)) <= |s.natives|
  {
    var t := Account(Popped(s), Head(s), Succeeded);
    forall j | 0 <= j < |t.jobs| ensures t.jobs[j] == s.jobs[j + 1] {
    }
  }

  lemma CompleteWatched(s: State)
    requires Watched(s) && FrontComplete(s) && s.jobs[0].id == Head(s) && 0 < s.count && |s.outcomes| == |s.streams|
    ensures Watched(Account(Popped(s), Head(s), Succeeded))
    ensures forall k :: 0 <= k < |s.natives| && s.natives[k].stream == Head(s) ==> s.natives[k].retired
  {
    var t := Account(Popped(s), Head(s), Succeeded);
    forall j | 0 <= j < |t.jobs| ensures t.jobs[j] == s.jobs[j + 1] {
    }
  }

  lemma CompleteLogged(s: State)
    requires Logged(s) && Core(s) && Enabled(s, Complete)
    ensures Logged(Step(s, Complete))
  {
    HeadJob(s);
    CorePlaced(s);
    CompleteResolves(s);
    CompleteShared(s);
    CompleteWatched(s);
    CompleteTruthful(s);
  }

  lemma CompleteTruthful(s: State)
    requires InOrder(s) && Truthful(s) && s.jobs != [] && s.jobs[0].id == Head(s) && 0 < s.count <= |s.streams|
    requires Start(s.streams, Head(s)) + Length(s, Head(s)) <= |s.natives|
    requires forall k :: 0 <= k < |s.natives| && s.natives[k].stream == Head(s) ==> s.natives[k].retired
    ensures InOrder(Account(Popped(s), Head(s), Succeeded)) && Truthful(Account(Popped(s), Head(s), Succeeded))
  {
  }

  lemma ObserveWatched(s: State, j: nat, r: nat)
    requires Watched(s) && Enabled(s, Observe(j, r))
    ensures Watched(Step(s, Observe(j, r)))
  {
    var receipts := s.jobs[j].receipts;
    assert forall k :: k in receipts && k != receipts[r] ==> k in Remove(receipts, r);
  }

  lemma ObserveShared(s: State, j: nat, r: nat)
    requires Shared(s) && Enabled(s, Observe(j, r))
    ensures Shared(Step(s, Observe(j, r)))
  {
  }

  lemma ObserveLogged(s: State, j: nat, r: nat)
    requires Logged(s) && Enabled(s, Observe(j, r))
    ensures Logged(Step(s, Observe(j, r)))
  {
    if !s.schedulerFailed {
      ObserveWatched(s, j, r);
      ObserveShared(s, j, r);
    }
  }

  lemma RetireLogged(s: State, k: nat)
    requires Logged(s) && k < |s.natives|
    ensures Logged(s.(natives := s.natives[k := s.natives[k].(retired := true)]))
  {
    var t := s.(natives := s.natives[k := s.natives[k].(retired := true)]);
    RetireInOrder(s, t);
    RetireTruthful(s, t);
    RetireShared(s, t);
    RetireWatched(s, t);
  }

  lemma RetireTruthful(s: State, t: State)
    requires t == s.(natives := t.natives) && |t.natives| == |s.natives|
    requires forall l :: 0 <= l < |t.natives| ==>
      t.natives[l].stream == s.natives[l].stream && (s.natives[l].retired ==> t.natives[l].retired)
    ensures Truthful(s) ==> Truthful(t)
  {
  }

  lemma RetireWatched(s: State, t: State)
    requires t == s.(natives := t.natives) && |t.natives| == |s.natives|
    requires forall l :: 0 <= l < |t.natives| ==>
      t.natives[l].stream == s.natives[l].stream && (s.natives[l].retired ==> t.natives[l].retired)
    ensures Watched(s) ==> Watched(t)
  {
  }

  lemma RetireInOrder(s: State, t: State)
    requires t == s.(natives := t.natives) && |t.natives| == |s.natives|
    requires forall l :: 0 <= l < |t.natives| ==> t.natives[l] == s.natives[l].(retired := t.natives[l].retired)
    ensures InOrder(s) ==> InOrder(t)
  {
  }

  lemma RetireShared(s: State, t: State)
    requires t == s.(natives := t.natives) && |t.natives| == |s.natives|
    ensures Shared(s) ==> Shared(t)
  {
    forall i | 0 <= i < |s.streams| ensures Share(t, i) == Share(s, i) {
    }
  }

  lemma FailLogged(s: State)
    requires Logged(s) && Queued(s) && s.schedulerFailed && Enabled(s, FailOne)
    ensures Logged(Step(s, FailOne))
  {
    FailedLogged(s, FailStep(s));
  }

  lemma FailedLogged(s: State, t: State)
    requires InOrder(s) && Truthful(s) && t.streams == s.streams && t.natives == s.natives && t.schedulerFailed
    requires |t.outcomes| == |s.outcomes|
    requires forall i :: 0 <= i < |s.outcomes| && t.outcomes[i] == Some(Succeeded) ==> s.outcomes[i] == Some(Succeeded)
    ensures Logged(t)
  {
  }

  /** Steps that leave streams, jobs and the log alone. */
  lemma SameLogged(s: State, t: State)
    requires Logged(s) && t.streams == s.streams && t.outcomes == s.outcomes && t.natives == s.natives
    requires t.jobs == s.jobs && t.count == s.count && (s.schedulerFailed ==> t.schedulerFailed)
    ensures Logged(t)
  {
  }

  predicate KeepsLog(s: State, a: Action) {
    match a
    case Enqueue(chunks) => Admit(s, Sizes(chunks)) != Accepted
    case Transfer => s.pending == []
    case Retire(_) => false
    case Observe(_, _) => false
    case Complete => false
    case Submit(_) => false
    case FailOne => false
    case _ => true
  }

  lemma KeepsLogged(s: State, a: Action)
    requires Logged(s) && Enabled(s, a) && KeepsLog(s, a)
    ensures Logged(Step(s, a))
  {
    LogKept(s, a);
    SameLogged(s, Step(s, a));
  }

  lemma LogKept(s: State, a: Action)
    requires Enabled(s, a) && KeepsLog(s, a)
    ensures var t := Step(s, a);
      && t.streams == s.streams && t.outcomes == s.outcomes && t.natives == s.natives
      && t.jobs == s.jobs && t.count == s.count && (s.schedulerFailed ==> t.schedulerFailed)
  {
    if !Moving(a) {
      match a {
        case Transfer =>
        case Publish =>
        case TakePending =>
        case _ =>
      }
    }
  }

  lemma NativesLogged(s: State, a: Action)
    requires Queued(s) && Logged(s) && Enabled(s, a) && Placed(s) && (a.Retire? || a.Observe? || a.Submit?)
    ensures Logged(Step(s, a))
  {
    match a {
      case Retire(k) => RetireLogged(s, k);
      case Observe(j, r) => ObserveLogged(s, j, r);
      case Submit(result) => SubmitLogged(s, result);
    }
  }

  lemma ChangesLogged(s: State, a: Action)
    requires Core(s) && Logged(s) && Enabled(s, a) && !KeepsLog(s, a) && Placed(s)
    requires !a.Retire? && !a.Observe? && !a.Submit?
    ensures Logged(Step(s, a))
  {
    match a {
      case Enqueue(chunks) => EnqueueLogged(s, chunks);
      case Transfer => TransferLogged(s);
      case Complete => CompleteLogged(s);
      case FailOne => FailLogged(s);
    }
  }

  /** The log invariant survives every step. */
  lemma LoggedStep(s: State, a: Action)
    requires Core(s) && Logged(s) && Enabled(s, a)
    ensures Logged(Step(s, a))
  {
    if KeepsLog(s, a) {
      KeepsLogged(s, a);
    } else {
      CorePlaced(s);
      if a.Retire? || a.Observe? || a.Submit? {
        NativesLogged(s, a);
      } else {
        ChangesLogged(s, a);
      }
    }
  }
}
