/**
 The dispatcher and its wake byte together: a producer's admission notifies, the
 worker consumes the byte before it drains the inbox and polls it while asleep.
 Each joint step is a step of `Dispatch`, with the step of `Wake` it stands
 for, or a step of the byte alone.
 */
module DispatchWake {
  import opened Common
  import D = Dispatch
  import W = Wake

  datatype State = State(d: D.State, w: W.State)

  datatype Action = Act(a: D.Action) | Byte(b: W.Action)

  function Initial(): State { State(D.Initial(), W.Initial()) }

  /** What a dispatcher step does to the byte, its readers and its writers. */
  function Partner(d: D.State, a: D.Action): Option<W.Action> {
    match a
    case Enqueue(chunks) => if D.Admit(d, D.Sizes(chunks)) == D.Accepted then Some(W.Push) else None
    case Close => Some(W.CloseNotify)
    case Transfer => Some(W.Pop)
    case Check(progressed) =>
      if d.jobs == [] && d.closing && d.count == 0 then None else Some(W.Advance(progressed))
    case Sleep(ok) => if ok then Some(W.WakeUp) else None
    case _ => None
  }

  /** Steps of the byte alone: notifiers in `notify`, the worker in `consume`. */
  predicate Alone(s: State, b: W.Action) {
    && W.Enabled(s.w, b)
    && (b.Swap? || b.Write? || b.Clear? || (s.d.pc.Consuming? && (b.PollPipe? || b.Read? || b.Store?)))
  }

  /** `consume` returns once the byte was read and the flag cleared, or none was there. */
  predicate Enabled(s: State, action: Action) {
    match action
    case Byte(b) => Alone(s, b)
    case Act(a) => D.Enabled(s.d, a) && (a == D.Consume(true) ==> s.w.worker.Draining?)
  }

  function Step(s: State, action: Action): State
    requires Enabled(s, action)
  {
    match action
    case Byte(b) => s.(w := W.Step(s.w, b))
    case Act(a) =>
      var partner := Partner(s.d, a);
      State(D.Step(s.d, a),
        if partner.Some? && W.Enabled(s.w, partner.value) then W.Step(s.w, partner.value) else s.w)
  }

  ghost predicate Runs(s: State, actions: seq<Action>, t: State)
    decreases |actions|
  {
    if actions == [] then s == t else Enabled(s, actions[0]) && Runs(Step(s, actions[0]), actions[1..], t)
  }

  /** The worker has stopped taking jobs for good. */
  predicate Failing(pc: D.Pc) {
    pc.SchedulerFailing? || pc.WorkerFailing? || pc.Draining? || pc.Exiting? || pc.Gone?
  }

  /** Where the worker stands in both views. */
  predicate Together(pc: D.Pc, worker: W.Worker) {
    match pc
    case Consuming =>
      worker.Consuming? || worker.Reading? || worker.Storing? || worker.Draining? || worker.Stopped?
    case Transferring => worker.Draining?
    case Polling => worker.Working?
    case Retiring => worker.Working?
    case Submitting(_) => worker.Working?
    case Checking => worker.Working?
    case Sleeping => worker.Sleeping?
    case _ => true
  }

  /** Until the worker fails, the byte's inbox is the dispatcher's. */
  predicate Linked(s: State) {
    !Failing(s.d.pc) ==> Together(s.d.pc, s.w.worker) && s.w.queued == |s.d.pending|
  }

  /** The partner of a step of a working dispatcher can always be taken. */
  lemma PartnerReady(s: State, a: D.Action)
    requires Linked(s) && !Failing(s.d.pc) && Enabled(s, Act(a)) && Partner(s.d, a).Some?
    ensures W.Enabled(s.w, Partner(s.d, a).value)
  {
  }

  /** Failure of the worker is final. */
  lemma FailingStays(d: D.State, a: D.Action)
    requires D.Enabled(d, a) && Failing(d.pc)
    ensures Failing(D.Step(d, a).pc)
  {
    match a {
      case FailOne => assert Failing(D.FailStep(d).pc);
      case Exit => assert D.Moving(a);
      case Publish => assert D.PublishStep(d).pc == d.pc;
      case Enqueue(chunks) => assert D.EnqueueStep(d, chunks).pc == d.pc;
      case _ =>
    }
  }

  /** Every step but admission, transfer and failure leaves the inbox alone. */
  lemma PendingKept(d: D.State, a: D.Action)
    requires D.Enabled(d, a) && !a.TakePending? && !a.Enqueue? && !a.Transfer?
    ensures D.Step(d, a).pending == d.pending
  {
    match a {
      case Submit(result) => assert D.Step(d, a) == D.SubmitStep(d, result);
      case FailOne => assert D.Step(d, a) == D.FailStep(d);
      case Publish => assert D.Step(d, a) == D.PublishStep(d);
      case _ =>
    }
  }

  /** Only admission fills the inbox, only transfer and failure empty it. */
  lemma PendingStep(d: D.State, a: D.Action)
    requires D.Enabled(d, a) && !a.TakePending?
    ensures |D.Step(d, a).pending|
      == if a.Enqueue? && D.Admit(d, D.Sizes(a.chunks)) == D.Accepted then |d.pending| + 1
         else if a.Transfer? && d.pending != [] then |d.pending| - 1 else |d.pending|
  {
    match a {
      case Enqueue(chunks) => assert D.Step(d, a) == D.EnqueueStep(d, chunks);
      case Transfer => assert D.Step(d, a) == D.TransferStep(d);
      case _ => PendingKept(d, a);
    }
  }

  /** The steps a worker that has not failed makes besides moving on. */
  lemma PlaceStep(d: D.State, a: D.Action)
    requires D.Enabled(d, a) && !Failing(d.pc) && !D.Moving(a)
    ensures var next := D.Step(d, a).pc;
      || Failing(next) || next == d.pc
      || (a.Transfer? && d.pending == [] && next == D.Polling)
      || (a.Submit? && next in {D.Checking, D.Submitting(false)})
  {
    match a {
      case Enqueue(chunks) => assert D.Step(d, a) == D.EnqueueStep(d, chunks);
      case Transfer => assert D.Step(d, a) == D.TransferStep(d);
      case Submit(result) => assert D.Step(d, a) == D.SubmitStep(d, result);
      case Publish => assert D.Step(d, a) == D.PublishStep(d);
      case _ =>
    }
  }

  lemma MoveLinked(s: State, a: D.Action)
    requires Linked(s) && !Failing(s.d.pc) && Enabled(s, Act(a)) && D.Moving(a)
    ensures Linked(Step(s, Act(a)))
  {
    assert D.Step(s.d, a) == D.MoveStep(s.d, a);
    assert D.Step(s.d, a).pending == s.d.pending && D.Step(s.d, a).pc == D.NextPc(s.d, a);
  }

  lemma OtherLinked(s: State, a: D.Action)
    requires Linked(s) && !Failing(s.d.pc) && Enabled(s, Act(a)) && !D.Moving(a)
    ensures Linked(Step(s, Act(a)))
  {
    PendingStep(s.d, a);
    PlaceStep(s.d, a);
    if Partner(s.d, a).Some? {
      PartnerReady(s, a);
    }
  }

  lemma LinkedStep(s: State, action: Action)
    requires Linked(s) && Enabled(s, action)
    ensures Linked(Step(s, action))
  {
    match action {
      case Byte(_) =>
      case Act(a) =>
        if Failing(s.d.pc) {
          FailingStays(s.d, a);
        } else if D.Moving(a) {
          MoveLinked(s, a);
        } else {
          OtherLinked(s, a);
        }
    }
  }

  /** A worker that will stop to wait with jobs in the inbox finds a byte or is owed one. */
  predicate Announced(s: State) {
    Failing(s.d.pc) || W.Announced(s.w)
  }

  predicate LosesWake(s: State, action: Action) {
    action.Byte? && !Failing(s.d.pc) && W.LosesWake(s.w, action.b)
  }

  /** No step of the dispatcher loses the wake; a step of the byte does exactly as in `Wake`. */
  lemma AnnouncedExactly(s: State, action: Action)
    requires Linked(s) && Announced(s) && Enabled(s, action)
    ensures Announced(Step(s, action)) <==> !LosesWake(s, action)
  {
    match action {
      case Byte(b) =>
        if !Failing(s.d.pc) {
          W.AnnouncedExactly(s.w, b);
        }
      case Act(a) =>
        if Failing(s.d.pc) {
          FailingStays(s.d, a);
        } else if Partner(s.d, a).Some? {
          PartnerReady(s, a);
          W.AnnouncedExactly(s.w, Partner(s.d, a).value);
        }
    }
  }

  ghost predicate StaysAnnounced(s: State, actions: seq<Action>)
    decreases |actions|
  {
    && Announced(s)
    && (actions != [] && Enabled(s, actions[0]) ==> StaysAnnounced(Step(s, actions[0]), actions[1..]))
  }

  ghost predicate NeverLoses(s: State, actions: seq<Action>)
    decreases |actions|
  {
    actions != [] && Enabled(s, actions[0]) ==>
      !LosesWake(s, actions[0]) && NeverLoses(Step(s, actions[0]), actions[1..])
  }

  /**
   Over every run of producers, worker and byte, every accepted job stays
   announced to a worker that has not failed exactly when no step of the byte
   loses the wake.
   */
  lemma {:induction false} RunAnnouncedExactly(s: State, actions: seq<Action>, t: State)
    requires Linked(s) && Announced(s) && Runs(s, actions, t)
    ensures StaysAnnounced(s, actions) <==> NeverLoses(s, actions)
    decreases |actions|
  {
    if actions != [] {
      var next := Step(s, actions[0]);
      AnnouncedExactly(s, actions[0]);
      LinkedStep(s, actions[0]);
      if Announced(next) {
        RunAnnouncedExactly(next, actions[1..], t);
      }
    }
  }

  predicate Backed(s: State) { Failing(s.d.pc) || W.Backed(s.w) }

  lemma BackedStep(s: State, action: Action)
    requires Linked(s) && Backed(s) && Enabled(s, action) && action != Byte(W.Write(W.Lost))
    ensures Backed(Step(s, action))
  {
    match action {
      case Byte(b) =>
        if !Failing(s.d.pc) {
          W.BackedExactly(s.w, b);
        }
      case Act(a) =>
        if Failing(s.d.pc) {
          FailingStays(s.d, a);
        } else if Partner(s.d, a).Some? {
          PartnerReady(s, a);
          W.BackedExactly(s.w, Partner(s.d, a).value);
        }
    }
  }

  lemma {:induction false} AwakeRun(s: State, actions: seq<Action>, t: State)
    requires Linked(s) && Backed(s) && Announced(s) && Runs(s, actions, t) && Byte(W.Write(W.Lost)) !in actions
    ensures Linked(t) && Backed(t) && Announced(t)
    decreases |actions|
  {
    if actions != [] {
      var a := actions[0];
      assert a != Byte(W.Write(W.Lost)) && Byte(W.Write(W.Lost)) !in actions[1..];
      LinkedStep(s, a);
      BackedStep(s, a);
      AnnouncedExactly(s, a);
      if LosesWake(s, a) {
        W.OnlyLossLoses(s.w, a.b);
      }
      AwakeRun(Step(s, a), actions[1..], t);
    }
  }

  /**
   While every write lands, a worker asleep in the kernel over an inbox with an
   accepted job has a byte in its pipe or a notifier about to put one there.
   */
  lemma SleepingWorkerOwed(actions: seq<Action>, t: State)
    requires Runs(Initial(), actions, t) && Byte(W.Write(W.Lost)) !in actions
    ensures t.d.pc.Sleeping? && t.d.pending != [] ==> t.w.bytes > 0 || t.w.due > 0 || t.w.writing > 0
  {
    AwakeRun(Initial(), actions, t);
  }
}
