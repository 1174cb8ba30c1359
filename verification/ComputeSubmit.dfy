/**
 Submitting a compute stream: everything is checked and planned first, nothing
 is published unless all of it ran, and the cache is poisoned exactly when the
 device may have taken work that then failed.
 */
module ComputeSubmit {
  import opened Common
  import BP = BufferPlan
  import opened Compute
  import opened ComputeControl
  import opened ComputeCost
  import opened ComputeMirror
  import ComputePacket
  import opened ComputePlan

  datatype Outcome = Completed | Rejected(error: ComputeError) | Failed

  /** Planned events stay inside the staged buffers and the constant bank. */
  lemma MatchedRuns(slots: seq<nat>, buffers: seq<seq<byte>>, events: seq<Event>, effects: seq<Effect>)
    requires AllMatch(slots, buffers, events, effects)
    ensures forall k :: 0 <= k < |events| ==> EventInRange(buffers, events[k]) && ConstantsFit(events[k])
  {
    forall k | 0 <= k < |events| ensures EventInRange(buffers, events[k]) && ConstantsFit(events[k]) {
      MatchRuns(slots, buffers, events[k], effects[k]);
    }
  }

  lemma MatchRuns(slots: seq<nat>, buffers: seq<seq<byte>>, event: Event, effect: Effect)
    requires Matches(slots, buffers, event, effect)
    ensures EventInRange(buffers, event) && ConstantsFit(event)
  {
    if event.DispatchEvent? {
      forall k | 0 <= k < |event.bindings| ensures event.bindings[k].buffer < |buffers| {
        assert BindingMatches(slots, event.bindings[k], event.shader.storages[k], effect.storages[k]);
      }
      forall u | 0 <= u < |event.uniforms|
        ensures event.uniforms[u].buffer < |buffers|
          && event.uniforms[u].offset + event.uniforms[u].length <= |buffers[event.uniforms[u].buffer]|
          && event.uniforms[u].word + event.uniforms[u].length / 4 <= |event.constants|
      {
        assert UniformMatches(slots, buffers, event.uniforms[u], event.shader.uniforms[u], effect.uniforms[u]);
        UniformFits(event.shader.uniforms[u], |event.constants|);
      }
    }
  }

  lemma UniformFits(u: UniformBinding, length: nat)
    requires u.requiredSize <= u.size && UniformEnd(u) <= length
    ensures u.firstRegister * 4 + u.requiredSize / 4 <= length
  {
  }

  /** What publication makes of one resource. */
  function PublishedShadow(slots: seq<nat>, buffers: seq<seq<byte>>, shadow: BP.BufferShadow, slot: nat)
    : BP.BufferShadow
    requires |slots| == |buffers|
  {
    if slot in slots
    then BP.BufferShadow(Some(buffers[IndexIn(slots, slot)]), shadow.revision + 1, None) else shadow
  }

  /** Every command fits, no pass is left open, and the plan fits its memory. */
  ghost predicate Plannable(table: Table, shadows: seq<BP.BufferShadow>, commands: seq<Command>)
    requires |table.buffers| <= |shadows|
  {
    && StreamFits(table, shadows, commands) && !ControlAfter(table, commands).active
    && HoldStream(table, commands).bytes <= RETAIN_LIMIT
  }

  class Resources {
    var shadows: seq<BP.BufferShadow>
    var canonical: seq<Option<nat>>
    var failed: bool

    /** Preflight of every dispatch packet against the transport limit. */
    method PacketsFit(events: seq<Event>, limit: nat) returns (fit: bool)
      ensures fit <==> forall k :: 0 <= k < |events| ==> FitsTransport(events[k], limit)
    {
      var k := 0;
      while k < |events|
        invariant 0 <= k <= |events|
        invariant forall j :: 0 <= j < k ==> FitsTransport(events[j], limit)
      {
        if events[k].DispatchEvent?
           && ComputePacket.PacketBound(events[k].shader.text, |events[k].constants|, |events[k].bindings|) > limit {
          return false;
        }
        k := k + 1;
      }
      return true;
    }

    /** Every staged buffer becomes the accepted contents at its next revision, with no delta and no tag. */
    method Publish(plan: Plan)
      requires |plan.slots| == |plan.revisions| == |plan.buffers| && |canonical| == |shadows|
      requires forall i :: 0 <= i < |plan.slots| ==>
        plan.slots[i] < |shadows| && plan.revisions[i] == shadows[plan.slots[i]].revision + 1
      requires forall i, j :: 0 <= i < j < |plan.slots| ==> plan.slots[i] != plan.slots[j]
      modifies this`shadows, this`canonical
      ensures |shadows| == |canonical| == |old(shadows)|
      ensures forall s :: 0 <= s < |shadows| ==>
        shadows[s] == PublishedShadow(plan.slots, plan.buffers, old(shadows)[s], s)
        && canonical[s] == if s in plan.slots then None else old(canonical)[s]
    {
      var i := 0;
      while i < |plan.slots|
        invariant 0 <= i <= |plan.slots| && |shadows| == |canonical| == |old(shadows)|
        invariant forall s :: 0 <= s < |shadows| ==>
          shadows[s] == PublishedShadow(plan.slots[..i], plan.buffers[..i], old(shadows)[s], s)
          && canonical[s] == if s in plan.slots[..i] then None else old(canonical)[s]
      {
        var slot := plan.slots[i];
        IndexSnoc(plan.slots, i);
        shadows := shadows[slot := BP.BufferShadow(Some(plan.buffers[i]), plan.revisions[i], None)];
        canonical := canonical[slot := None];
        i := i + 1;
      }
      assert plan.slots[..i] == plan.slots && plan.buffers[..i] == plan.buffers;
    }

    method Submit(
      table: Table, commands: seq<Command>, kernel: Kernel, device: nat -> DispatchOutcome, limit: nat, usable: bool)
      returns (outcome: Outcome, ghost touched: seq<nat>, ghost events: seq<Event>, ghost executed: bool)
      requires |table.buffers| <= |shadows| == |canonical| && WellFormedTable(table)
      modifies this
      ensures |shadows| == |canonical| == |old(shadows)|
      ensures outcome.Completed? ==> !failed && Settled(
        table, kernel, commands, old(shadows), shadows, touched) && ReachedTo(events, device, |events|)
      ensures outcome.Completed? ==> forall s :: 0 <= s < |shadows| ==>
        canonical[s] == if s in touched then None else old(canonical)[s]
      ensures !outcome.Completed? ==> shadows == old(shadows) && canonical == old(canonical)
      ensures outcome.Rejected? ==> failed == old(failed)
      ensures outcome.Rejected? && executed ==> exists k :: Stopped(events, device, k, false)
      ensures outcome.Failed? ==> !old(failed) && failed && exists k :: Stopped(events, device, k, true)
      ensures old(failed) || !usable ==> outcome.Rejected?
      ensures executed <==>
        && !old(failed) && usable && Plannable(table, old(shadows), commands)
        && forall k :: 0 <= k < |events| ==> FitsTransport(events[k], limit)
      ensures outcome.Completed? <==> executed && ReachedTo(events, device, |events|)
      ensures executed ==> AllTold(table, commands, touched, events)
    {
      touched, events, executed := [], [], false;
      if failed || !usable {
        return Rejected(Device), touched, events, executed;
      }
      var plan := new Plan(table, shadows);
      var ready := Preflight(plan, table, commands, limit);
      touched, events := plan.slots, plan.events;
      if ready.Err? {
        return Rejected(ready.error), touched, events, executed;
      }
      executed := true;
      ghost var at;
      outcome, at := Run(plan, table, commands, kernel, device, limit);
    }

    /** Plan everything and measure every packet before anything is sent. */
    method Preflight(plan: Plan, table: Table, commands: seq<Command>, limit: nat)
      returns (result: Result<(), ComputeError>)
      requires plan.Valid(table, shadows) && plan.Holding() == Held([], [], 0) && plan.events == []
      modifies plan
      ensures plan.Valid(table, shadows)
      ensures result.Ok? <==>
        Plannable(table, shadows, commands) && forall k :: 0 <= k < |plan.events| ==>
          FitsTransport(plan.events[k], limit)
      ensures result.Ok? ==> AllMatch(plan.slots, plan.buffers, plan.events, Effects(table, commands))
      ensures result.Ok? ==> AllTold(table, commands, plan.slots, plan.events)
    {
      var planned := plan.Lower(table, shadows, commands);
      if planned.Err? {
        return Err(planned.error);
      }
      var fit := PacketsFit(plan.events, limit);
      return if fit then Ok(()) else Err(SubmissionTooLarge);
    }

    /** Execute a plan and publish it, or remember that accepted work failed. */
    method Run(
      plan: Plan, table: Table, commands: seq<Command>, kernel: Kernel, device: nat -> DispatchOutcome, limit: nat)
      returns (outcome: Outcome, ghost at: nat)
      requires |table.buffers| <= |shadows| == |canonical| && plan.Valid(table, shadows)
      requires AllMatch(plan.slots, plan.buffers, plan.events, Effects(table, commands))
      requires forall k :: 0 <= k < |plan.events| ==> FitsTransport(plan.events[k], limit)
      modifies this, plan
      ensures |shadows| == |canonical| == |old(shadows)| && plan.slots == old(plan.slots)
      ensures plan.events == old(plan.events)
      ensures outcome.Completed? <==> ReachedTo(plan.events, device, |plan.events|)
      ensures outcome.Completed? ==> Settled(table, kernel, commands, old(shadows), shadows, plan.slots)
      ensures outcome.Completed? ==> forall s :: 0 <= s < |shadows| ==>
        canonical[s] == if s in plan.slots then None else old(canonical)[s]
      ensures !outcome.Completed? ==> shadows == old(shadows) && canonical == old(canonical)
      ensures failed == (old(failed) || outcome.Failed?)
      ensures !outcome.Completed? ==> Stopped(plan.events, device, at, outcome.Failed?)
    {
      ghost var staged, effects := plan.buffers, Effects(table, commands);
      MatchedRuns(plan.slots, plan.buffers, plan.events, effects);
      var ok, accepted;
      ok, accepted, at := plan.Execute(kernel, device, limit);
      if !ok {
        if !accepted {
          return Rejected(Device), at;
        }
        failed := true;
        return Failed, at;
      }
      StagedAreInOrder(table, kernel, commands, shadows, plan.slots, staged, plan.events);
      Publish(plan);
      PublishedSettled(table, kernel, commands, old(shadows), plan.slots, plan.buffers, shadows);
      return Completed, at;
    }
  }

  lemma IndexSnoc(slots: seq<nat>, i: nat)
    requires i < |slots| && forall j, k :: 0 <= j < k < |slots| ==> slots[j] != slots[k]
    ensures forall s :: s in slots[..i + 1] <==> s in slots[..i] || s == slots[i]
    ensures slots[i] !in slots[..i] && IndexIn(slots[..i + 1], slots[i]) == i
    ensures forall s :: s in slots[..i] ==> IndexIn(slots[..i + 1], s) == IndexIn(slots[..i], s)
  {
    assert slots[..i + 1] == slots[..i] + [slots[i]];
    IndexAppend(slots[..i], slots[i]);
  }

  lemma {:induction false} IndexAppend(ids: seq<nat>, id: nat)
    requires id !in ids
    ensures IndexIn(ids + [id], id) == |ids|
    ensures forall s :: s in ids ==> IndexIn(ids + [id], s) == IndexIn(ids, s)
  {
    if ids != [] {
      assert (ids + [id])[1..] == ids[1..] + [id];
      IndexAppend(ids[1..], id);
    }
  }

  /**
   After success every touched resource holds, at its next revision and with no
   delta, what running the stream in order leaves; every other is untouched, and
   running in order would not have changed it.
   */
  ghost predicate Settled(
    table: Table, kernel: Kernel, commands: seq<Command>, before: seq<BP.BufferShadow>, after: seq<BP.BufferShadow>,
    touched: seq<nat>)
  {
    && |table.buffers| <= |before| == |after|
    && forall s :: 0 <= s < |after| ==>
         if s in touched then
           s < |table.buffers| && after[s]
           == BP.BufferShadow(Some(InOrder(table, kernel, InitialMemory(table, before), commands)[s]),
             before[s].revision + 1, None)
         else
           && after[s] == before[s]
           && (s < |table.buffers| ==>
                 InOrder(table, kernel, InitialMemory(table, before), commands)[s] == InitialMemory(table, before)[s])
  }

  lemma StagedAreInOrder(
    table: Table, kernel: Kernel, commands: seq<Command>, shadows: seq<BP.BufferShadow>, slots: seq<nat>,
    staged: seq<seq<byte>>, events: seq<Event>)
    requires |table.buffers| <= |shadows| && Mirrors(slots, staged, InitialMemory(table, shadows))
    requires AllMatch(slots, staged, events, Effects(table, commands))
    ensures var memory := InOrder(table, kernel, InitialMemory(table, shadows), commands);
      && Mirrors(slots, PerformAll(kernel, staged, events), memory)
      && forall s :: 0 <= s < |memory| && s !in slots ==> memory[s] == InitialMemory(table, shadows)[s]
  {
    MemoryIsEffects(table, kernel, InitialMemory(table, shadows), commands);
    AllMirrors(kernel, slots, staged, InitialMemory(table, shadows), events, Effects(table, commands));
  }

  lemma PublishedSettled(
    table: Table, kernel: Kernel, commands: seq<Command>, before: seq<BP.BufferShadow>, slots: seq<nat>,
    buffers: seq<seq<byte>>, after: seq<BP.BufferShadow>)
    requires |table.buffers| <= |before| == |after| && |slots| == |buffers|
    requires var memory := InOrder(table, kernel, InitialMemory(table, before), commands);
      && Mirrors(slots, buffers, memory)
      && forall s :: 0 <= s < |memory| && s !in slots ==> memory[s] == InitialMemory(table, before)[s]
    requires forall s :: 0 <= s < |after| ==> after[s] == PublishedShadow(slots, buffers, before[s], s)
    ensures Settled(table, kernel, commands, before, after, slots)
  {
  }
}
