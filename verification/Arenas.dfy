/**
 Upload arenas are never used by two unretired submissions, and the worker
 watches a bounded number of receipts.
 */
module Arenas {
  import opened Common
  import opened Dispatch
  import opened Admission

  /** No upload arena has two unretired submissions; the arena remembers its latest one. */
  ghost predicate Exclusive(s: State) {
    && (forall k, l :: 0 <= k < l < |s.natives| ==>
          s.natives[k].arena.Some? && s.natives[k].arena == s.natives[l].arena ==> s.natives[k].retired)
    && (!s.schedulerFailed ==> forall k :: 0 <= k < |s.natives| && s.natives[k].arena.Some? && !s.natives[k].retired ==>
          s.natives[k].arena.value in s.arenas && s.arenas[s.natives[k].arena.value] == k)
    && (forall a :: a in s.arenas ==> s.arenas[a] < |s.natives|)
  }

  /** A chunk found ready stays ready until it is submitted. */
  ghost predicate Poised(s: State) {
    s.pc == Submitting(true) ==>
      && !s.schedulerFailed && InFlight(s.jobs) < MAX_IN_FLIGHT && Cursor(s, 0) < |s.jobs|
      && forall k :: 0 <= k < |s.natives| && s.natives[k].arena.Some? && s.natives[k].arena == NextChunk(s).arena ==>
           s.natives[k].retired
  }

  lemma {:induction false} InFlightUpdate(jobs: seq<Job>, j: nat, job: Job)
    requires j < |jobs|
    ensures InFlight(jobs[j := job]) == InFlight(jobs) - |jobs[j].receipts| + |job.receipts|
  {
    var after, n := jobs[j := job], |jobs| - 1;
    if j < n {
      assert after[..n] == jobs[..n][j := job];
      InFlightUpdate(jobs[..n], j, job);
    } else {
      assert after[..n] == jobs[..n];
    }
  }

  lemma {:induction false} InFlightTail(jobs: seq<Job>)
    requires jobs != []
    ensures InFlight(jobs[1..]) == InFlight(jobs) - |jobs[0].receipts|
  {
    var n := |jobs| - 1;
    if n == 0 {
      assert InFlight(jobs[..0]) == 0;
    } else {
      assert jobs[1..][..n - 1] == jobs[..n][1..];
      InFlightTail(jobs[..n]);
    }
  }

  lemma {:induction false} CursorExtended(s: State, t: State, j: nat)
    requires j <= |s.jobs| && t.jobs == s.jobs && |s.streams| <= |t.streams| && t.streams[..|s.streams|] == s.streams
    requires forall k :: 0 <= k < |s.jobs| ==> s.jobs[k].id < |s.streams|
    ensures Cursor(t, j) == Cursor(s, j)
    decreases |s.jobs| - j
  {
    if j < |s.jobs| {
      assert t.streams[s.jobs[j].id] == t.streams[..|s.streams|][s.jobs[j].id];
      CursorExtended(s, t, j + 1);
    }
  }

  lemma SubmitInFlight(s: State, result: SubmitResult)
    requires InFlight(s.jobs) < MAX_IN_FLIGHT && Enabled(s, Submit(result))
    ensures InFlight(Step(s, Submit(result)).jobs) <= MAX_IN_FLIGHT
  {
    var job := s.jobs[Cursor(s, 0)];
    InFlightUpdate(s.jobs, Cursor(s, 0), job.(next := job.next + 1, receipts := job.receipts + [|s.natives|]));
  }

  predicate KeepsJobs(a: Action) {
    !a.Transfer? && !a.Observe? && !a.Complete? && !a.FailOne? && !a.Submit?
  }

  lemma JobsKept(s: State, a: Action)
    requires Enabled(s, a) && KeepsJobs(a)
    ensures Step(s, a).jobs == s.jobs
  {
    if Moving(a) {
      MoveKeeps(s, a);
    } else if Producing(a) {
      ProducersKeep(s, a);
    } else if a.Publish? {
      PublishKeeps(s);
    }
  }

  lemma ObserveInFlight(s: State, j: nat, r: nat)
    requires Enabled(s, Observe(j, r))
    ensures InFlight(Step(s, Observe(j, r)).jobs) <= InFlight(s.jobs)
  {
    InFlightUpdate(s.jobs, j, s.jobs[j].(receipts := Remove(s.jobs[j].receipts, r)));
  }

  lemma ResolveInFlight(s: State, a: Action)
    requires Enabled(s, a) && (a.Complete? || a.FailOne?)
    ensures InFlight(Step(s, a).jobs) <= InFlight(s.jobs)
  {
    if s.jobs != [] {
      InFlightTail(s.jobs);
    }
  }

  /** The scheduler never watches more than its budget of receipts. */
  lemma InFlightStep(s: State, a: Action)
    requires InFlight(s.jobs) <= MAX_IN_FLIGHT && Poised(s) && Enabled(s, a)
    ensures InFlight(Step(s, a).jobs) <= MAX_IN_FLIGHT
  {
    match a {
      case Transfer =>
        assert s.pending != [] ==> Step(s, a).jobs == s.jobs || Step(s, a).jobs[..|s.jobs|] == s.jobs;
      case Observe(j, r) => ObserveInFlight(s, j, r);
      case Complete => ResolveInFlight(s, a);
      case FailOne => ResolveInFlight(s, a);
      case Submit(result) => SubmitInFlight(s, result);
      case _ => JobsKept(s, a);
    }
  }

  lemma SubmitExclusive(s: State, result: SubmitResult)
    requires Exclusive(s) && Poised(s) && Enabled(s, Submit(result))
    ensures Exclusive(Step(s, Submit(result)))
  {
  }

  lemma KeepsExclusive(s: State, a: Action)
    requires Exclusive(s) && Enabled(s, a) && !a.Submit? && !a.Retire?
    ensures Exclusive(Step(s, a))
  {
    NativesKept(s, a);
  }

  lemma NativesKept(s: State, a: Action)
    requires Enabled(s, a) && !a.Submit? && !a.Retire?
    ensures var t := Step(s, a);
      t.natives == s.natives && t.arenas == s.arenas && (s.schedulerFailed ==> t.schedulerFailed)
  {
    if Moving(a) {
      MoveKeeps(s, a);
    } else if Producing(a) {
      ProducersKeep(s, a);
    } else if Resolving(a) {
      ResolversKeep(s, a);
    } else if a.Publish? {
      PublishKeeps(s);
    }
  }

  lemma ExclusiveStep(s: State, a: Action)
    requires Exclusive(s) && Poised(s) && Enabled(s, a)
    ensures Exclusive(Step(s, a))
  {
    match a {
      case Submit(result) => SubmitExclusive(s, result);
      case Retire(_) =>
      case _ => KeepsExclusive(s, a);
    }
  }

  lemma ReadyPoised(s: State, ok: bool)
    requires Exclusive(s) && !s.schedulerFailed && Enabled(s, Ready(ok))
    ensures Poised(Step(s, Ready(ok)))
  {
    CursorSame(s, Step(s, Ready(ok)), 0);
  }

  lemma {:induction false} CursorSame(s: State, t: State, j: nat)
    requires j <= |s.jobs| && t.jobs == s.jobs && t.streams == s.streams
    ensures Cursor(t, j) == Cursor(s, j)
    decreases |s.jobs| - j
  {
    if j < |s.jobs| {
      CursorSame(s, t, j + 1);
    }
  }

  lemma EnqueuePoised(s: State, chunks: seq<Chunk>)
    requires Core(s) && Poised(s) && !s.schedulerFailed
    ensures Poised(EnqueueStep(s, chunks))
  {
    var t := EnqueueStep(s, chunks);
    if s.pc == Submitting(true) && t != s {
      forall k | 0 <= k < |s.jobs| ensures s.jobs[k].id < |s.streams| {
      }
      CursorExtended(s, t, 0);
      var job := s.jobs[Cursor(s, 0)];
      assert t.streams[job.id] == t.streams[..|s.streams|][job.id];
    }
  }

  lemma OtherPoised(s: State, a: Action)
    requires Poised(s) && Enabled(s, a) && !a.Ready? && !a.Enqueue?
    ensures Poised(Step(s, a))
  {
    var t := Step(s, a);
    if t.pc == Submitting(true) {
      StillPoised(s, a);
      CursorSame(s, t, 0);
    }
  }

  lemma StillPoised(s: State, a: Action)
    requires Enabled(s, a) && !a.Ready? && !a.Enqueue? && Step(s, a).pc == Submitting(true)
    ensures var t := Step(s, a);
      && t.jobs == s.jobs && t.streams == s.streams && t.schedulerFailed == s.schedulerFailed && s.pc == t.pc
      && |t.natives| == |s.natives|
      && forall k :: 0 <= k < |s.natives| ==>
           t.natives[k].arena == s.natives[k].arena && (s.natives[k].retired ==> t.natives[k].retired)
  {
    if Moving(a) {
      MoveKeeps(s, a);
    } else if Producing(a) {
      ProducersKeep(s, a);
    } else if Resolving(a) {
      ResolversKeep(s, a);
    } else if a.Publish? {
      PublishKeeps(s);
    }
  }

  lemma PoisedStep(s: State, a: Action)
    requires Core(s) && Exclusive(s) && Poised(s) && Enabled(s, a)
    ensures Poised(Step(s, a))
  {
    match a {
      case Ready(ok) =>
        CorePlaced(s);
        ReadyPoised(s, ok);
      case Enqueue(chunks) =>
        if s.pc == Submitting(true) {
          EnqueuePoised(s, chunks);
        }
      case _ => OtherPoised(s, a);
    }
  }
}
