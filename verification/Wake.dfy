/**
 The coalesced wake byte: any number of notifiers, one consumer, one flag and
 one pipe. Each action is one atomic operation, so a run is any interleaving.
 Notifiers are told apart only by where they stand, hence the counts.
 */
module Wake {
  import opened Common

  datatype Worker = Consuming | Reading | Storing | Draining | Working | Sleeping | Stopped

  /**
   `queued` jobs in the inbox; `due` notifiers that have not swapped the flag
   yet, `writing` ones that found it clear and owe a byte, and `clearing` ones
   whose write was reported failed.
   */
  datatype State = State(
    queued: nat, flag: bool, bytes: nat, due: nat, writing: nat, clearing: nat, worker: Worker)

  /** A write either lands, lands although reported failed, or is lost. */
  datatype WriteOutcome = Landed | Uncertain | Lost

  datatype Action =
    | Push | CloseNotify | Swap | Write(outcome: WriteOutcome) | Clear
    | PollPipe | Read(ok: bool) | Store | Pop | Advance(progressed: bool) | WakeUp

  function Initial(): State { State(0, false, 0, 0, 0, 0, Consuming) }

  predicate Enabled(s: State, a: Action) {
    match a
    case Push => true
    case CloseNotify => true
    case Swap => s.due > 0
    case Write(_) => s.writing > 0
    case Clear => s.clearing > 0
    case PollPipe => s.worker.Consuming?
    case Read(_) => s.worker.Reading? && s.bytes > 0
    case Store => s.worker.Storing?
    case Pop => s.worker.Draining?
    case Advance(_) => s.worker.Working?
    case WakeUp => s.worker.Sleeping?
  }

  function Step(s: State, a: Action): State
    requires Enabled(s, a)
  {
    match a
    case Push => s.(queued := s.queued + 1, due := s.due + 1)
    case CloseNotify => s.(due := s.due + 1)
    case Swap =>
      if s.flag then s.(due := s.due - 1)
      else s.(due := s.due - 1, flag := true, writing := s.writing + 1)
    case Write(outcome) =>
      s.(writing := s.writing - 1,
         bytes := if outcome.Lost? then s.bytes else s.bytes + 1,
         clearing := if outcome.Landed? then s.clearing else s.clearing + 1)
    case Clear => s.(clearing := s.clearing - 1, flag := false)
    case PollPipe => s.(worker := if s.bytes > 0 then Reading else Draining)
    case Read(ok) => if ok then s.(bytes := s.bytes - 1, worker := Storing) else s.(worker := Stopped)
    case Store => s.(flag := false, worker := Draining)
    case Pop => if s.queued > 0 then s.(queued := s.queued - 1) else s.(worker := Working)
    case Advance(progressed) => s.(worker := if progressed then Consuming else Sleeping)
    case WakeUp => s.(worker := Consuming)
  }

  ghost predicate Runs(s: State, actions: seq<Action>, t: State)
    decreases |actions|
  {
    if actions == [] then s == t else Enabled(s, actions[0]) && Runs(Step(s, actions[0]), actions[1..], t)
  }

  function Owed(s: State): nat { s.bytes + s.writing + if s.worker.Storing? then 1 else 0 }

  /** A set flag is always backed by a byte, a byte to come, or a clear to come. */
  predicate Backed(s: State) {
    (s.flag ==> Owed(s) >= 1) && (s.worker.Reading? ==> s.bytes >= 1)
  }

  /** Jobs in the inbox are either about to be drained or announced. */
  predicate Announced(s: State) {
    s.queued > 0 ==>
      s.bytes > 0 || s.due > 0 || s.writing > 0
      || s.worker.Consuming? || s.worker.Reading? || s.worker.Storing? || s.worker.Draining? || s.worker.Stopped?
  }

  /**
   The steps that leave a queued job unannounced: the loss of the only byte
   owed, or a notifier that trusts a set flag behind which nothing is owed.
   Nothing else does, and the worker must be past draining.
   */
  predicate LosesWake(s: State, a: Action) {
    && s.queued > 0 && (s.worker.Working? || s.worker.Sleeping?) && s.bytes == 0
    && ((a == Write(Lost) && s.writing == 1 && s.due == 0) || (a.Swap? && s.due == 1 && s.flag && s.writing == 0))
  }

  lemma AnnouncedExactly(s: State, a: Action)
    requires Announced(s) && Enabled(s, a)
    ensures Announced(Step(s, a)) <==> !LosesWake(s, a)
  {
  }

  /** The step that leaves a set flag with nothing behind it. */
  predicate LosesByte(s: State, a: Action) {
    a == Write(Lost) && s.flag && s.writing == 1 && s.bytes == 0 && !s.worker.Storing?
  }

  lemma BackedExactly(s: State, a: Action)
    requires Backed(s) && Enabled(s, a)
    ensures Backed(Step(s, a)) <==> !LosesByte(s, a)
  {
  }

  /** Every state of the run is announced. */
  ghost predicate StaysAnnounced(s: State, actions: seq<Action>)
    decreases |actions|
  {
    && Announced(s)
    && (actions != [] && Enabled(s, actions[0]) ==> StaysAnnounced(Step(s, actions[0]), actions[1..]))
  }

  ghost predicate NeverLoses(s: State, actions: seq<Action>)
    decreases |actions|
  {
    actions != [] && Enabled(s, actions[0]) ==>
      !LosesWake(s, actions[0]) && NeverLoses(Step(s, actions[0]), actions[1..])
  }

  /** Over every run, queued jobs stay announced exactly when no step loses the wake. */
  lemma {:induction false} RunAnnouncedExactly(s: State, actions: seq<Action>, t: State)
    requires Announced(s) && Runs(s, actions, t)
    ensures StaysAnnounced(s, actions) <==> NeverLoses(s, actions)
    decreases |actions|
  {
    if actions != [] {
      var next := Step(s, actions[0]);
      AnnouncedExactly(s, actions[0]);
      if Announced(next) {
        RunAnnouncedExactly(next, actions[1..], t);
      }
    }
  }

  ghost predicate StaysBacked(s: State, actions: seq<Action>)
    decreases |actions|
  {
    && Backed(s)
    && (actions != [] && Enabled(s, actions[0]) ==> StaysBacked(Step(s, actions[0]), actions[1..]))
  }

  ghost predicate NeverLosesByte(s: State, actions: seq<Action>)
    decreases |actions|
  {
    actions != [] && Enabled(s, actions[0]) ==>
      !LosesByte(s, actions[0]) && NeverLosesByte(Step(s, actions[0]), actions[1..])
  }

  /** Where every set flag is backed, only the loss of a byte can lose the wake. */
  lemma OnlyLossLoses(s: State, a: Action)
    requires Backed(s) && Enabled(s, a) && LosesWake(s, a)
    ensures a == Write(Lost)
  {
  }

  /** Over every run a set flag stays backed exactly when no write loses the only byte behind it. */
  lemma {:induction false} RunBackedExactly(s: State, actions: seq<Action>, t: State)
    requires Backed(s) && Runs(s, actions, t)
    ensures StaysBacked(s, actions) <==> NeverLosesByte(s, actions)
    decreases |actions|
  {
    if actions != [] {
      var next := Step(s, actions[0]);
      BackedExactly(s, actions[0]);
      if Backed(next) {
        RunBackedExactly(next, actions[1..], t);
      }
    }
  }

  lemma {:induction false} BackedRun(s: State, actions: seq<Action>, t: State)
    requires Backed(s) && Announced(s) && Runs(s, actions, t) && Write(Lost) !in actions
    ensures Backed(t) && Announced(t)
    decreases |actions|
  {
    if actions != [] {
      assert Write(Lost) !in actions[1..];
      assert actions[0] != Write(Lost);
      BackedRun(Step(s, actions[0]), actions[1..], t);
    }
  }

  /**
   No wake is lost while every write puts its byte in the pipe, reported or
   not: a worker about to sleep on a queued job will find a byte or is owed one.
   */
  lemma NoLostWake(actions: seq<Action>, t: State)
    requires Runs(Initial(), actions, t) && Write(Lost) !in actions
    ensures t.worker.Sleeping? && t.queued > 0 ==> t.bytes > 0 || t.due > 0 || t.writing > 0
  {
    BackedRun(Initial(), actions, t);
  }

  /** With certain writes the flag is exactly the one byte owed. */
  predicate Coalesced(s: State) {
    s.clearing == 0 && Owed(s) == if s.flag then 1 else 0
  }

  lemma {:induction false} CoalescedRun(s: State, actions: seq<Action>, t: State)
    requires Coalesced(s) && Runs(s, actions, t)
    requires Write(Lost) !in actions && Write(Uncertain) !in actions
    ensures Coalesced(t)
    decreases |actions|
  {
    if actions != [] {
      assert actions[0] != Write(Lost) && actions[0] != Write(Uncertain);
      assert Write(Lost) !in actions[1..] && Write(Uncertain) !in actions[1..];
      CoalescedRun(Step(s, actions[0]), actions[1..], t);
    }
  }

  /** One byte can never become two: the pipe cannot fill. */
  lemma OneByte(actions: seq<Action>, t: State)
    requires Runs(Initial(), actions, t) && Write(Lost) !in actions && Write(Uncertain) !in actions
    ensures t.bytes + t.writing <= 1
    ensures t.flag <==> t.bytes + t.writing + (if t.worker.Storing? then 1 else 0) == 1
  {
    CoalescedRun(Initial(), actions, t);
  }

  lemma RunCons(s: State, a: Action, rest: seq<Action>, t: State)
    requires Enabled(s, a) && Runs(Step(s, a), rest, t)
    ensures Runs(s, [a] + rest, t)
  {
    assert ([a] + rest)[1..] == rest;
  }

  /** A sleeping worker misses a job whose notifier's byte is lost. */
  lemma JobMissed(t: State) returns (actions: seq<Action>)
    requires t == State(1, false, 0, 0, 0, 0, Sleeping)
    ensures Runs(t.(queued := 0), actions, t) && Write(Lost) in actions
  {
    var pushed := t.(due := 1);
    var swapped := t.(flag := true, writing := 1);
    var failed := t.(flag := true, clearing := 1);
    assert Step(failed, Clear) == t && Step(swapped, Write(Lost)) == failed;
    assert Step(pushed, Swap) == swapped && Step(t.(queued := 0), Push) == pushed;
    RunCons(failed, Clear, [], t);
    RunCons(swapped, Write(Lost), [Clear] + [], t);
    RunCons(pushed, Swap, [Write(Lost)] + ([Clear] + []), t);
    RunCons(t.(queued := 0), Push, [Swap] + ([Write(Lost)] + ([Clear] + [])), t);
    actions := [Push] + ([Swap] + ([Write(Lost)] + ([Clear] + [])));
    assert actions[2] == Write(Lost);
  }

  lemma FallsAsleep(rest: seq<Action>, t: State)
    requires Runs(Initial().(worker := Sleeping), rest, t)
    ensures Runs(Initial(), [PollPipe] + ([Pop] + ([Advance(false)] + rest)), t)
  {
    RunCons(Initial().(worker := Working), Advance(false), rest, t);
    RunCons(Initial().(worker := Draining), Pop, [Advance(false)] + rest, t);
    RunCons(Initial(), PollPipe, [Pop] + ([Advance(false)] + rest), t);
  }

  /** Only the loss of a byte defeats the wake, and it does: here is such a run. */
  lemma LostWriteLosesWake() returns (actions: seq<Action>, t: State)
    ensures Runs(Initial(), actions, t) && Write(Lost) in actions
    ensures t.worker.Sleeping? && t.queued > 0 && t.bytes == 0 && t.due == 0 && t.writing == 0 && t.clearing == 0
  {
    t := State(1, false, 0, 0, 0, 0, Sleeping);
    var rest := JobMissed(t);
    FallsAsleep(rest, t);
    actions := [PollPipe] + ([Pop] + ([Advance(false)] + rest));
  }

  /** An uncertain write may leave a second byte: coalescing needs certain writes. */
  lemma UncertainWriteDoubles(s: State)
    requires Coalesced(s) && s.writing == 1 && s.worker.Sleeping?
    ensures var s1 := Step(s, Write(Uncertain));
      var s2 := Step(s1, Clear);
      var s3 := Step(s2, Push);
      var s4 := Step(s3, Swap);
      Step(s4, Write(Landed)).bytes == 2
  {
  }

  /** How far the worker is from draining its inbox, when a byte is there. */
  function Distance(worker: Worker): nat {
    match worker
    case Sleeping => 4
    case Consuming => 3
    case Reading => 2
    case Storing => 1
    case _ => 0
  }

  /** The worker's own steps; the others belong to notifiers. */
  predicate ByWorker(a: Action) {
    a.PollPipe? || a.Read? || a.Store? || a.Pop? || a.Advance? || a.WakeUp?
  }

  /** Every step of a woken worker brings it closer to draining, or stops it; no notifier holds it back. */
  lemma WokenApproaches(s: State, a: Action)
    requires Enabled(s, a) && 0 < Distance(s.worker)
    ensures ByWorker(a) ==>
      Distance(Step(s, a).worker) < Distance(s.worker) && !Step(s, a).worker.Working?
    ensures !ByWorker(a) ==> Step(s, a).worker == s.worker
  {
  }

  function Count(actions: seq<Action>, a: Action): nat {
    if actions == [] then 0 else (if actions[0] == a then 1 else 0) + Count(actions[1..], a)
  }

  /** The worker drains until the end of the run. */
  ghost predicate DrainsUntil(s: State, actions: seq<Action>)
    decreases |actions|
  {
    actions != [] ==>
      s.worker.Draining? && Enabled(s, actions[0]) && DrainsUntil(Step(s, actions[0]), actions[1..])
  }

  /**
   Along every run a draining worker leaves only with an empty inbox, and by
   then has taken every job queued before and every job pushed meanwhile.
   */
  lemma {:induction false} WokenWorkerDrains(s: State, actions: seq<Action>, t: State)
    requires Runs(s, actions, t) && DrainsUntil(s, actions)
    ensures t.worker.Draining? ==> t.queued + Count(actions, Pop) == s.queued + Count(actions, Push)
    ensures s.worker.Draining? && !t.worker.Draining? ==>
      t.worker.Working? && t.queued == 0 && Count(actions, Pop) == s.queued + Count(actions, Push) + 1
    decreases |actions|
  {
    if actions != [] {
      WokenWorkerDrains(Step(s, actions[0]), actions[1..], t);
      if actions[1..] == [] {
        assert Count(actions[1..], Pop) == 0;
      }
    }
  }
}
