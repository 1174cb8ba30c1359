/**
 What holds in every state reachable by any interleaving of producers, worker,
 waiters and device.
 */
module DispatchRuns {
  import opened Common
  import opened Dispatch
  import opened Admission
  import opened NativeLog
  import opened Arenas

  ghost predicate Safe(s: State) {
    && Core(s) && Answered(s) && Logged(s) && Exclusive(s) && Poised(s) && InFlight(s.jobs) <= MAX_IN_FLIGHT
    && (s.pc.Gone? ==> s.announce.None?)
  }

  lemma GoneSilent(s: State, a: Action)
    requires Enabled(s, a) && (s.pc.Gone? ==> s.announce.None?)
    ensures Step(s, a).pc.Gone? ==> Step(s, a).announce.None?
  {
    if Moving(a) {
      MoveKeeps(s, a);
    } else if Producing(a) {
      ProducersKeep(s, a);
    } else if Resolving(a) {
      ResolversKeep(s, a);
    } else if a.Publish? {
      PublishKeeps(s);
    }
  }

  lemma SafeStep(s: State, a: Action)
    requires Safe(s) && Enabled(s, a)
    ensures Safe(Step(s, a))
  {
    CoreStep(s, a);
    AnsweredStep(s, a);
    LoggedStep(s, a);
    ExclusiveStep(s, a);
    PoisedStep(s, a);
    InFlightStep(s, a);
    GoneSilent(s, a);
  }

  /** An interleaving: each action enabled where it is taken. */
  ghost predicate Runs(s: State, actions: seq<Action>, t: State)
    decreases |actions|
  {
    if actions == [] then s == t else Enabled(s, actions[0]) && Runs(Step(s, actions[0]), actions[1..], t)
  }

  lemma {:induction false} RunSafe(s: State, actions: seq<Action>, t: State)
    requires Safe(s) && Runs(s, actions, t)
    ensures Safe(t)
    decreases |actions|
  {
    if actions != [] {
      SafeStep(s, actions[0]);
      RunSafe(Step(s, actions[0]), actions[1..], t);
    }
  }

  lemma InitialSafe()
    ensures Safe(Initial())
  {
  }

  lemma Reachable(actions: seq<Action>, t: State)
    requires Runs(Initial(), actions, t)
    ensures Safe(t)
  {
    InitialSafe();
    RunSafe(Initial(), actions, t);
  }

  /** Number and total size of the accepted streams whose signal is unresolved. */
  ghost function Unresolved(s: State, n: nat): nat
    requires n <= |s.streams| && n <= |s.outcomes|
  {
    if n == 0 then 0 else Unresolved(s, n - 1) + if s.outcomes[n - 1].None? then 1 else 0
  }

  ghost function UnresolvedBytes(s: State, n: nat): nat
    requires n <= |s.streams| && n <= |s.outcomes|
  {
    if n == 0 then 0 else UnresolvedBytes(s, n - 1) + if s.outcomes[n - 1].None? then s.streams[n - 1].bytes else 0
  }

  lemma {:induction false} UnresolvedSuffix(s: State, n: nat)
    requires Queued(s) && n <= |s.streams|
    ensures Unresolved(s, n) == Max(n - Head(s), 0)
    ensures UnresolvedBytes(s, n) == Total(s.streams, Head(s), n)
  {
    if n > 0 {
      UnresolvedSuffix(s, n - 1);
    }
  }

  /**
   Admission on every run: the counters are the number and size of the
   unresolved streams, at most 16, beyond 64 MiB only for one stream alone.
   */
  lemma AdmissionAccounting(actions: seq<Action>, t: State)
    requires Runs(Initial(), actions, t)
    ensures |t.outcomes| == |t.streams|
    ensures t.count == Unresolved(t, |t.streams|) && t.bytes == UnresolvedBytes(t, |t.streams|)
    ensures t.count <= 16 && (t.bytes > 67108864 ==> t.count == 1)
    ensures forall i :: 0 <= i < |t.streams| ==> t.streams[i].bytes <= 536870912
  {
    Reachable(actions, t);
    UnresolvedSuffix(t, |t.streams|);
  }

  /** After a failure no step of anyone admits a stream, and the failure stays. */
  lemma {:induction false} NothingAfterFailure(s: State, actions: seq<Action>, t: State)
    requires s.failure && Runs(s, actions, t)
    ensures t.failure && t.streams == s.streams
    decreases |actions|
  {
    if actions != [] {
      FailureStays(s, actions[0]);
      NothingAfterFailure(Step(s, actions[0]), actions[1..], t);
    }
  }

  lemma FailureStays(s: State, a: Action)
    requires s.failure && Enabled(s, a)
    ensures Step(s, a).failure && Step(s, a).streams == s.streams
  {
    if Moving(a) {
      MoveKeeps(s, a);
    } else if Producing(a) {
      ProducersKeep(s, a);
    } else if Resolving(a) {
      ResolversKeep(s, a);
    } else if a.Publish? {
      PublishKeeps(s);
    }
  }

  /** Once the worker is gone every accepted signal has been resolved and shows its outcome. */
  lemma AllResolvedWhenGone(actions: seq<Action>, t: State)
    requires Runs(Initial(), actions, t) && t.pc.Gone?
    ensures |t.published| == |t.streams| && forall i :: 0 <= i < |t.streams| ==> t.published[i].Some?
    ensures t.failure || t.closing
  {
    Reachable(actions, t);
    GoneResolved(t);
  }

  lemma GoneResolved(t: State)
    requires Queued(t) && Resolved(t) && Announced(t) && t.pc.Gone? && t.announce.None?
    ensures |t.published| == |t.streams| && forall i :: 0 <= i < |t.streams| ==> t.published[i].Some?
    ensures t.failure || t.closing
  {
  }

  /** Outcomes never change over a run, so each signal is resolved at most once. */
  lemma {:induction false} OutcomesStay(s: State, actions: seq<Action>, t: State)
    requires Safe(s) && Runs(s, actions, t)
    ensures |s.outcomes| <= |t.outcomes|
    ensures forall i :: 0 <= i < |s.outcomes| && s.outcomes[i].Some? ==> t.outcomes[i] == s.outcomes[i]
    decreases |actions|
  {
    if actions != [] {
      ResolvedOnce(s, actions[0]);
      SafeStep(s, actions[0]);
      OutcomesStay(Step(s, actions[0]), actions[1..], t);
    }
  }

  /** A `wait_idle` answered yes: every stream accepted before its snapshot succeeded. */
  lemma WaitIdleTruthful(actions: seq<Action>, t: State, w: nat)
    requires Runs(Initial(), actions, t) && w < |t.waiters| && t.waiters[w].answer == Some(true)
    ensures t.waiters[w].accepted <= |t.streams| == |t.outcomes|
    ensures forall i :: 0 <= i < t.waiters[w].accepted ==> t.outcomes[i] == Some(Succeeded)
  {
    Reachable(actions, t);
  }

  /**
   A stream that succeeded was submitted natively, chunk by chunk, at its place
   in the concatenation of all accepted streams, and every chunk has retired.
   */
  lemma SuccessMeansRetired(actions: seq<Action>, t: State, i: nat, c: nat)
    requires Runs(Initial(), actions, t)
    requires i < |t.streams| && i < |t.outcomes| && t.outcomes[i] == Some(Succeeded) && c < |t.streams[i].chunks|
    ensures var k := Start(t.streams, i) + c;
      k < |t.natives| && t.natives[k].stream == i && t.natives[k].chunk == c && t.natives[k].retired
  {
    Reachable(actions, t);
    ChunkRetired(t, i, c);
  }

  /** A place in the concatenation belongs to one chunk only. */
  lemma PlaceUnique(streams: seq<Stream>, i: nat, c: nat, j: nat, d: nat)
    requires i < |streams| && j < |streams| && c < |streams[i].chunks| && d < |streams[j].chunks|
    requires Start(streams, i) + c == Start(streams, j) + d
    ensures i == j && c == d
  {
    if j < i {
      StartGrows(streams, j, i);
    } else if i < j {
      StartGrows(streams, i, j);
    }
  }

  lemma PlaceOf(t: State, i: nat, c: nat)
    requires InOrder(t) && i < |t.streams| && c < |t.streams[i].chunks| && Start(t.streams, i) + c < |t.natives|
    ensures var native := t.natives[Start(t.streams, i) + c]; native.stream == i && native.chunk == c
  {
    var native := t.natives[Start(t.streams, i) + c];
    PlaceUnique(t.streams, i, c, native.stream, native.chunk);
  }

  lemma ChunkRetired(t: State, i: nat, c: nat)
    requires InOrder(t) && Truthful(t)
    requires i < |t.streams| && t.outcomes[i] == Some(Succeeded) && c < |t.streams[i].chunks|
    ensures var k := Start(t.streams, i) + c;
      k < |t.natives| && t.natives[k].stream == i && t.natives[k].chunk == c && t.natives[k].retired
  {
    var k := Start(t.streams, i) + c;
    assert Start(t.streams, i) + Length(t, i) <= |t.natives|;
    PlaceOf(t, i, c);
  }

  /** Upload arenas are reused only after their last submission retired; receipts stay in budget. */
  lemma ArenasExclusive(actions: seq<Action>, t: State)
    requires Runs(Initial(), actions, t)
    ensures forall k, l ::
      (0 <= k < |t.natives| && 0 <= l < |t.natives| && k != l
       && t.natives[k].arena.Some? && t.natives[k].arena == t.natives[l].arena)
      ==> t.natives[k].retired || t.natives[l].retired
    ensures InFlight(t.jobs) <= 16
  {
    Reachable(actions, t);
  }
}
