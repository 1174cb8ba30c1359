/**
 What must happen on every run, in numbers and in terms of the streams accepted
 and resolved so far: which offers are admitted, when the worker submits, and
 what a failure or a negative idle answer stands for.
 */
module DispatchLaws {
  import opened Common
  import opened Dispatch
  import opened Admission
  import opened NativeLog
  import opened Arenas
  import opened DispatchRuns

  /** There is room for a stream: it comes alone, or with at most 15 others and 64 MiB in all. */
  ghost predicate Room(t: State, bytes: nat)
    requires |t.outcomes| == |t.streams|
  {
    || Unresolved(t, |t.streams|) == 0
    || (Unresolved(t, |t.streams|) < 16 && UnresolvedBytes(t, |t.streams|) + bytes <= 67108864)
  }

  /** The admission rule of a reachable state, written out. */
  lemma AdmitsExactly(actions: seq<Action>, t: State, bytes: nat)
    requires Runs(Initial(), actions, t)
    ensures |t.outcomes| == |t.streams|
    ensures Admit(t, bytes)
      == if bytes > 536870912 then TooLarge else if t.failure then Refused else if Room(t, bytes) then Accepted
        else Busy
  {
    AdmissionAccounting(actions, t);
  }

  /** An offer adds exactly its stream when there is room for it, and changes nothing otherwise. */
  lemma EnqueueExactly(actions: seq<Action>, t: State, chunks: seq<Chunk>)
    requires Runs(Initial(), actions, t) && Enabled(t, Enqueue(chunks))
    ensures |t.outcomes| == |t.streams|
    ensures var after, bytes := Step(t, Enqueue(chunks)), Sizes(chunks);
      if bytes <= 536870912 && !t.failure && Room(t, bytes) then
        && after.streams == t.streams + [Stream(bytes, chunks)] && after.outcomes == t.outcomes + [None]
        && after.pending == t.pending + [|t.streams|]
      else after == t
  {
    AdmitsExactly(actions, t, Sizes(chunks));
  }

  /** A failed stream, or the worker giving up, and nothing else, counts as failure. */
  ghost predicate SomeFailed(s: State) {
    exists i :: 0 <= i < |s.outcomes| && s.outcomes[i] == Some(Failed)
  }

  lemma FailureStep(s: State, a: Action)
    requires Safe(s) && Enabled(s, a) && Step(s, a).failure
    ensures s.failure || a.TakePending? || SomeFailed(Step(s, a))
  {
    if !s.failure && !a.TakePending? {
      if Moving(a) {
        MoveKeeps(s, a);
      } else if Producing(a) {
        ProducersKeep(s, a);
      } else if a.Publish? {
        PublishKeeps(s);
      } else {
        FailureMarked(s, a);
      }
    }
  }

  lemma FailureMarked(s: State, a: Action)
    requires Safe(s) && Enabled(s, a) && Step(s, a).failure && !s.failure && !a.TakePending?
    requires !Moving(a) && !Producing(a) && !a.Publish?
    ensures SomeFailed(Step(s, a))
  {
    match a {
      case Transfer => TransferMarks(s);
      case FailOne => FailMarks(s);
      case Submit(result) => SubmitKeepsFailure(s, result);
      case _ =>
    }
  }

  lemma AccountMarks(s: State, id: nat)
    requires id < |s.outcomes| == |s.streams|
    ensures SomeFailed(Account(s, id, Failed))
  {
    assert Account(s, id, Failed).outcomes[id] == Some(Failed);
  }

  lemma TransferMarks(s: State)
    requires Queued(s) && TransferStep(s).failure && !s.failure
    ensures SomeFailed(TransferStep(s))
  {
    if s.pending != [] {
      AccountMarks(s.(pending := s.pending[1..], pc := WorkerFailing), s.pending[0]);
    }
  }

  lemma FailMarks(s: State)
    requires Queued(s) && FailStep(s).failure && !s.failure
    ensures SomeFailed(FailStep(s))
  {
    if s.jobs != [] {
      AccountMarks(s.(jobs := s.jobs[1..]), s.jobs[0].id);
    }
  }

  lemma SubmitKeepsFailure(s: State, result: SubmitResult)
    requires Cursor(s, 0) < |s.jobs|
    ensures SubmitStep(s, result).failure == s.failure
  {
  }

  lemma {:induction false} FailureRun(s: State, actions: seq<Action>, t: State)
    requires Safe(s) && Runs(s, actions, t) && t.failure
    ensures s.failure || TakePending in actions || SomeFailed(t)
    decreases |actions|
  {
    if actions != [] {
      var next := Step(s, actions[0]);
      SafeStep(s, actions[0]);
      FailureRun(next, actions[1..], t);
      if next.failure {
        FailureStep(s, actions[0]);
        if i :| 0 <= i < |next.outcomes| && next.outcomes[i] == Some(Failed) {
          OutcomesStay(next, actions[1..], t);
          assert t.outcomes[i] == Some(Failed);
        }
      }
    }
  }

  lemma {:induction false} TakingFails(s: State, actions: seq<Action>, t: State)
    requires Runs(s, actions, t) && TakePending in actions
    ensures t.failure
    decreases |actions|
  {
    if actions[0] == TakePending {
      NothingAfterFailure(Step(s, actions[0]), actions[1..], t);
    } else {
      assert TakePending in actions[1..];
      TakingFails(Step(s, actions[0]), actions[1..], t);
    }
  }

  /** Failure is recorded exactly when a stream failed or the worker gave up its inbox. */
  lemma FailureExactly(actions: seq<Action>, t: State)
    requires Runs(Initial(), actions, t)
    ensures t.failure <==> SomeFailed(t) || TakePending in actions
  {
    InitialSafe();
    Reachable(actions, t);
    if t.failure {
      FailureRun(Initial(), actions, t);
    }
    if TakePending in actions {
      TakingFails(Initial(), actions, t);
    }
  }

  // ------------------------------------------------------------- submission

  /** All chunks of the streams handed to the scheduler are in the native log. */
  ghost predicate AllSubmitted(t: State) {
    |t.pending| <= |t.streams| && |t.natives| == Start(t.streams, |t.streams| - |t.pending|)
  }

  lemma CursorExactly(s: State)
    requires Queued(s) && Shared(s) && s.taken == []
    ensures Cursor(s, 0) == |s.jobs| <==> AllSubmitted(s)
  {
    var n := Head(s) + |s.jobs|;
    if Cursor(s, 0) < |s.jobs| {
      CursorPosition(s);
      StartGrows(s.streams, s.jobs[Cursor(s, 0)].id, n);
    } else {
      LastFull(s);
    }
  }

  lemma LastFull(s: State)
    requires Queued(s) && Shared(s) && Cursor(s, 0) == |s.jobs|
    ensures |s.natives| == Start(s.streams, Head(s) + |s.jobs|)
  {
    if s.jobs != [] {
      var j := |s.jobs| - 1;
      EarlierFull(s, j);
      assert s.jobs[j].next == Share(s, s.jobs[j].id) && Length(s, s.jobs[j].id) <= s.jobs[j].next;
    }
  }

  /**
   The worker goes on submitting exactly while a chunk of an accepted stream is
   left and fewer than 16 receipts are watched.
   */
  lemma SubmitsExactly(actions: seq<Action>, t: State, ok: bool)
    requires Runs(Initial(), actions, t) && t.pc == Submitting(false) && t.announce.None?
    ensures Enabled(t, Ready(ok)) <==> !AllSubmitted(t) && InFlight(t.jobs) < 16
    ensures Enabled(t, SubmitEnd) <==> !Enabled(t, Ready(ok))
  {
    Reachable(actions, t);
    Working(t);
    SubmitsState(t, ok);
  }

  /** While the worker has not failed its scheduler's share of the log is exact. */
  lemma Working(t: State)
    requires Core(t) && Logged(t) && !Failing(t.pc)
    ensures Queued(t) && !t.schedulerFailed && Shared(t) && t.taken == []
  {
  }

  lemma SubmitsState(t: State, ok: bool)
    requires Queued(t) && Shared(t) && t.taken == [] && t.pc == Submitting(false) && t.announce.None?
    ensures Enabled(t, Ready(ok)) <==> !AllSubmitted(t) && InFlight(t.jobs) < 16
    ensures Enabled(t, SubmitEnd) <==> !Enabled(t, Ready(ok))
  {
    CursorExactly(t);
  }

  /** A ready chunk is submitted exactly when every earlier submission from its arena has retired. */
  lemma ReadyExactly(actions: seq<Action>, t: State)
    requires Runs(Initial(), actions, t) && Enabled(t, Ready(true))
    ensures Step(t, Ready(true)).pc
      == if forall k :: 0 <= k < |t.natives| && t.natives[k].arena.Some? && t.natives[k].arena == NextChunk(t).arena ==>
              t.natives[k].retired
         then Submitting(true) else Checking
  {
    Reachable(actions, t);
    Working(t);
    NamedRun(Initial(), actions, t);
    ReadyState(t);
  }

  /** What the worker remembers of an arena is a submission that used it. */
  ghost predicate ArenasNamed(s: State) {
    forall a :: a in s.arenas ==> s.arenas[a] < |s.natives| && s.natives[s.arenas[a]].arena == Some(a)
  }

  lemma NamedStep(s: State, a: Action)
    requires ArenasNamed(s) && Enabled(s, a)
    ensures ArenasNamed(Step(s, a))
  {
    if Moving(a) {
      MoveKeeps(s, a);
    } else if Producing(a) {
      ProducersKeep(s, a);
    } else if Resolving(a) {
      ResolversKeep(s, a);
    } else if a.Publish? {
      PublishKeeps(s);
    } else if a.Submit? {
      SubmitNamed(s, a.result);
    }
  }

  lemma SubmitNamed(s: State, result: SubmitResult)
    requires ArenasNamed(s) && Cursor(s, 0) < |s.jobs|
    ensures ArenasNamed(SubmitStep(s, result))
  {
  }

  lemma {:induction false} NamedRun(s: State, actions: seq<Action>, t: State)
    requires ArenasNamed(s) && Runs(s, actions, t)
    ensures ArenasNamed(t)
    decreases |actions|
  {
    if actions != [] {
      NamedStep(s, actions[0]);
      NamedRun(Step(s, actions[0]), actions[1..], t);
    }
  }

  lemma ReadyState(t: State)
    requires Exclusive(t) && ArenasNamed(t) && !t.schedulerFailed && Enabled(t, Ready(true))
    ensures NextPc(t, Ready(true))
      == if forall k :: 0 <= k < |t.natives| && t.natives[k].arena.Some? && t.natives[k].arena == NextChunk(t).arena ==>
              t.natives[k].retired
         then Submitting(true) else Checking
    ensures Step(t, Ready(true)).pc == NextPc(t, Ready(true))
  {
  }

  /**
   The worker resolves a stream as succeeded exactly when it is the oldest
   unresolved one, all its chunks are in the log and no receipt of it is watched.
   */
  lemma CompletesExactly(actions: seq<Action>, t: State)
    requires Runs(Initial(), actions, t) && t.pc == Retiring && t.announce.None?
    ensures Enabled(t, Complete)
      <==> t.jobs != [] && 0 <= Head(t) < |t.streams| && Start(t.streams, Head(t) + 1) <= |t.natives|
           && t.jobs[0].receipts == []
    ensures t.jobs != [] ==> t.jobs[0].id == Head(t)
    ensures Enabled(t, CompleteEnd) <==> !Enabled(t, Complete)
  {
    Reachable(actions, t);
    Working(t);
    CompletesState(t);
  }

  lemma CompletesState(t: State)
    requires Queued(t) && Shared(t) && t.pc == Retiring && t.announce.None?
    ensures Enabled(t, Complete)
      <==> t.jobs != [] && 0 <= Head(t) < |t.streams| && Start(t.streams, Head(t) + 1) <= |t.natives|
           && t.jobs[0].receipts == []
    ensures t.jobs != [] ==> t.jobs[0].id == Head(t)
    ensures Enabled(t, CompleteEnd) <==> !Enabled(t, Complete)
  {
    if t.jobs != [] {
      assert t.jobs[0].next == Share(t, t.jobs[0].id);
      assert Start(t.streams, Head(t) + 1) == Start(t.streams, Head(t)) + |t.streams[Head(t)].chunks|;
    }
  }

  /** Until the worker is gone it always has a step to take. */
  lemma NeverStuck(actions: seq<Action>, t: State) returns (a: Action)
    requires Runs(Initial(), actions, t) && !t.pc.Gone?
    ensures Worker(a) && Enabled(t, a)
  {
    Reachable(actions, t);
    if t.announce.Some? {
      return Publish;
    }
    match t.pc {
      case Consuming => a := Consume(true);
      case Transferring => a := Transfer;
      case Polling => a := PollEnd;
      case Retiring => a := if FrontComplete(t) then Complete else CompleteEnd;
      case Submitting(ready) =>
        if ready {
          a := Submit(Submitted);
        } else {
          a := if Cursor(t, 0) < |t.jobs| && InFlight(t.jobs) < MAX_IN_FLIGHT then Ready(true) else SubmitEnd;
        }
      case Checking => a := Check(true);
      case Sleeping => a := Sleep(true);
      case SchedulerFailing => a := FailOne;
      case WorkerFailing => a := TakePending;
      case Draining => a := FailOne;
      case Exiting => a := Exit;
    }
  }

  // ---------------------------------------------------------------- waiting

  ghost predicate NoMeansFailure(s: State) {
    (exists w :: 0 <= w < |s.waiters| && s.waiters[w].answer == Some(false)) ==> s.failure
  }

  lemma NoStep(s: State, a: Action)
    requires Safe(s) && NoMeansFailure(s) && Enabled(s, a)
    ensures NoMeansFailure(Step(s, a))
  {
    match a {
      case Snapshot => SnapshotNo(s);
      case Return(v) => ReturnNo(s, v);
      case _ =>
        WaitersKept(s, a);
        if s.failure {
          FailureStays(s, a);
        }
    }
  }

  lemma SnapshotNo(s: State)
    requires NoMeansFailure(s)
    ensures NoMeansFailure(SnapshotStep(s))
  {
    var t := SnapshotStep(s);
    if w :| 0 <= w < |t.waiters| && t.waiters[w].answer == Some(false) {
      assert w < |s.waiters| ==> s.waiters[w].answer == Some(false);
    }
  }

  lemma ReturnNo(s: State, v: nat)
    requires NoMeansFailure(s) && Announced(s) && Resolved(s) && Enabled(s, Return(v))
    ensures NoMeansFailure(ReturnStep(s, v))
  {
    var t := ReturnStep(s, v);
    var target := s.waiters[v].target.value;
    assert s.published[target] == s.outcomes[target];
    if w :| 0 <= w < |t.waiters| && t.waiters[w].answer == Some(false) {
      assert w != v ==> s.waiters[w].answer == Some(false);
    }
  }

  lemma WaitersKept(s: State, a: Action)
    requires Enabled(s, a) && !a.Snapshot? && !a.Return?
    ensures Step(s, a).waiters == s.waiters
  {
    if Moving(a) {
      MoveKeeps(s, a);
    } else {
      match a {
        case Enqueue(chunks) => assert Step(s, a) == EnqueueStep(s, chunks);
        case Transfer => assert Step(s, a) == TransferStep(s);
        case Submit(result) => assert Step(s, a) == SubmitStep(s, result);
        case FailOne => assert Step(s, a) == FailStep(s);
        case Publish => assert Step(s, a) == PublishStep(s);
        case _ =>
      }
    }
  }

  lemma {:induction false} NoRun(s: State, actions: seq<Action>, t: State)
    requires Safe(s) && NoMeansFailure(s) && Runs(s, actions, t)
    ensures NoMeansFailure(t)
    decreases |actions|
  {
    if actions != [] {
      NoStep(s, actions[0]);
      SafeStep(s, actions[0]);
      NoRun(Step(s, actions[0]), actions[1..], t);
    }
  }

  /** A `wait_idle` answered no only after a failure. */
  lemma WaitIdleNo(actions: seq<Action>, t: State, w: nat)
    requires Runs(Initial(), actions, t) && w < |t.waiters| && t.waiters[w].answer == Some(false)
    ensures SomeFailed(t) || TakePending in actions
  {
    InitialSafe();
    NoRun(Initial(), actions, t);
    FailureExactly(actions, t);
  }

  /** A waiter without an answer has a stream to wait for. */
  ghost predicate OpenWaits(s: State) {
    forall w :: 0 <= w < |s.waiters| && s.waiters[w].answer.None? ==> s.waiters[w].target.Some?
  }

  lemma OpenStep(s: State, a: Action)
    requires OpenWaits(s) && Enabled(s, a)
    ensures OpenWaits(Step(s, a))
  {
    match a {
      case Snapshot => assert Step(s, a) == SnapshotStep(s);
      case Return(w) => assert Step(s, a) == ReturnStep(s, w);
      case _ => WaitersKept(s, a);
    }
  }

  lemma {:induction false} OpenRun(s: State, actions: seq<Action>, t: State)
    requires OpenWaits(s) && Runs(s, actions, t)
    ensures OpenWaits(t)
    decreases |actions|
  {
    if actions != [] {
      OpenStep(s, actions[0]);
      OpenRun(Step(s, actions[0]), actions[1..], t);
    }
  }

  /**
   Asking for idleness changes nothing else. It is refused after a failure and
   granted when every accepted stream is resolved; otherwise the newest stream
   is waited for.
   */
  lemma IdleAsked(actions: seq<Action>, t: State)
    requires Runs(Initial(), actions, t) && Enabled(t, Snapshot)
    ensures |t.outcomes| == |t.streams|
    ensures var asked := Step(t, Snapshot).waiters;
      && |asked| == |t.waiters| + 1 && asked[..|t.waiters|] == t.waiters
      && Step(t, Snapshot) == t.(waiters := asked)
      && asked[|t.waiters|].accepted == |t.streams|
      && asked[|t.waiters|].answer
           == (if t.failure then Some(false) else if Unresolved(t, |t.streams|) == 0 then Some(true) else None)
      && (asked[|t.waiters|].answer.None? ==> asked[|t.waiters|].target == Some(|t.streams| - 1))
  {
    AdmissionAccounting(actions, t);
    Reachable(actions, t);
    IdleState(t);
  }

  lemma IdleState(t: State)
    requires Resolved(t) && Enabled(t, Snapshot)
    ensures Step(t, Snapshot) == t.(waiters := t.waiters + [Waiter(|t.streams|,
      if t.failure || t.count == 0 then None else Some(|t.streams| - 1),
      if t.failure then Some(false) else if t.count == 0 then Some(true) else None)])
  {
    assert Step(t, Snapshot) == SnapshotStep(t);
  }

  /** An open waiter returns once the signal of its stream shows, with yes exactly for success. */
  lemma IdleReturns(actions: seq<Action>, t: State, w: nat)
    requires Runs(Initial(), actions, t) && w < |t.waiters| && t.waiters[w].answer.None?
    ensures t.waiters[w].target.Some? && t.waiters[w].target.value < |t.published| == |t.outcomes|
    ensures var target := t.waiters[w].target.value;
      && (Enabled(t, Return(w)) <==> t.published[target].Some?)
      && (Enabled(t, Return(w)) ==>
            Step(t, Return(w)) == t.(waiters :=
              t.waiters[w := t.waiters[w].(answer := Some(t.outcomes[target] == Some(Succeeded)))]))
  {
    Reachable(actions, t);
    OpenRun(Initial(), actions, t);
    if Enabled(t, Return(w)) {
      assert Step(t, Return(w)) == ReturnStep(t, w);
    }
  }
}
