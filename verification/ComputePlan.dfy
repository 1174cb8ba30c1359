/**
 The compute planner, executor and publication. A plan stages each touched
 buffer once, at its contents before the stream, and records events by plan
 index; success publishes every staged buffer at its next revision, anything
 else publishes nothing.
 */
module ComputePlan {
  import opened Common
  import BP = BufferPlan
  import opened Compute
  import opened ComputeCost
  import opened ComputeControl
  import opened ComputeLaunch
  import opened ComputeMirror
  import ComputePacket

  function Ids(pipelines: seq<(nat, Shader)>): (r: seq<nat>)
    ensures |r| == |pipelines|
  {
    seq(|pipelines|, (k: int) requires 0 <= k < |pipelines| => pipelines[k].0)
  }

  function TotalLength(buffers: seq<seq<byte>>): nat {
    if buffers == [] then 0 else TotalLength(buffers[..|buffers| - 1]) + |buffers[|buffers| - 1]|
  }

  /** Every staged slot is a buffer the planner accepts, planned for its next revision. */
  predicate AllStaged(table: Table, shadows: seq<BP.BufferShadow>, slots: seq<nat>, revisions: seq<nat>)
    requires |table.buffers| <= |shadows|
  {
    && |revisions| == |slots|
    && forall i :: 0 <= i < |slots| ==>
         Stageable(table, shadows, slots[i]) && revisions[i] == shadows[slots[i]].revision + 1 <= MAX_WORD
  }

  lemma StagedSnoc(table: Table, shadows: seq<BP.BufferShadow>, slots: seq<nat>, revisions: seq<nat>, slot: nat)
    requires |table.buffers| <= |shadows| && AllStaged(table, shadows, slots, revisions)
    requires Stageable(table, shadows, slot)
    ensures AllStaged(table, shadows, slots + [slot], revisions + [shadows[slot].revision + 1])
  {
  }

  class Plan {
    var slots: seq<nat>
    var revisions: seq<nat>
    var buffers: seq<seq<byte>>
    var events: seq<Event>
    var bytes: nat
    var pipelines: seq<(nat, Shader)>

    ghost predicate Valid(table: Table, shadows: seq<BP.BufferShadow>)
      reads this
    {
      && |table.buffers| <= |shadows| && WellFormedTable(table)
      && Mirrors(slots, buffers, InitialMemory(table, shadows))
      && AllStaged(table, shadows, slots, revisions)
      && bytes <= RETAIN_LIMIT && TotalLength(buffers) <= bytes
      && (forall k :: 0 <= k < |pipelines| ==> table.compile(pipelines[k].0) == Some(pipelines[k].1))
    }

    /** What the plan has been charged for. */
    ghost function Holding(): Held
      reads this
    {
      Held(slots, Ids(pipelines), bytes)
    }

    /** What is held after a step that succeeded. */
    ghost function Holds(ok: bool): Option<Held>
      reads this
    {
      if ok then Some(Holding()) else None
    }

    constructor (ghost table: Table, ghost shadows: seq<BP.BufferShadow>)
      requires |table.buffers| <= |shadows| && WellFormedTable(table)
      ensures Valid(table, shadows) && slots == [] && buffers == [] && events == []
      ensures Holding() == Held([], [], 0)
    {
      slots, revisions, buffers, events, bytes, pipelines := [], [], [], [], 0, [];
    }

    /** Host memory a plan may hold, checked before it is taken. */
    method Retain(size: nat) returns (result: Result<(), ComputeError>)
      modifies this`bytes
      ensures result.Ok? <==> old(bytes) + size <= RETAIN_LIMIT
      ensures bytes == if result.Ok? then old(bytes) + size else old(bytes)
      ensures result.Err? ==> result.error == SubmissionTooLarge
    {
      if bytes + size > MAX_WORD || bytes + size > RETAIN_LIMIT {
        return Err(SubmissionTooLarge);
      }
      bytes := bytes + size;
      return Ok(());
    }

    /**
     The plan index of a resource, staged at its accepted contents on first
     use. It is refused exactly when the planner accepts no such buffer or
     cannot hold it.
     */
    method Buffer(table: Table, shadows: seq<BP.BufferShadow>, slot: nat) returns (result: Result<nat, ComputeError>)
      requires Valid(table, shadows)
      modifies this`slots, this`revisions, this`buffers, this`bytes
      ensures Valid(table, shadows) && old(slots) <= slots && old(buffers) <= buffers
      ensures result.Ok? ==> result.value < |slots| && slots[result.value] == slot
      ensures result.Ok? ==> |buffers[result.value]| == table.buffers[slot].size
      ensures TakeBuffer(table, shadows, old(Holding()), slot) == Holds(result.Ok?)
    {
      var i := 0;
      while i < |slots|
        invariant 0 <= i <= |slots| && forall j :: 0 <= j < i ==> slots[j] != slot
      {
        if slots[i] == slot {
          assert buffers[i] == InitialMemory(table, shadows)[slot];
          return Ok(i);
        }
        i := i + 1;
      }
      if slot >= |table.buffers| {
        return Err(InvalidReference);
      }
      result := Stage(table, shadows, slot);
    }

    /** A buffer not staged yet: its accepted contents, zero-extended, and its next revision. */
    method Stage(table: Table, shadows: seq<BP.BufferShadow>, slot: nat) returns (result: Result<nat, ComputeError>)
      requires Valid(table, shadows) && slot < |table.buffers| && slot !in slots
      modifies this`slots, this`revisions, this`buffers, this`bytes
      ensures Valid(table, shadows) && old(slots) <= slots && old(buffers) <= buffers
      ensures result.Ok? ==> result.value < |slots| && slots[result.value] == slot
      ensures result.Ok? ==> |buffers[result.value]| == table.buffers[slot].size
      ensures result.Ok? <==>
        Stageable(table, shadows, slot) && old(bytes) + table.buffers[slot].size <= RETAIN_LIMIT
      ensures result.Ok? ==> slots == old(slots) + [slot] && bytes == old(bytes) + table.buffers[slot].size
    {
      var paid := PayBuffer(table, shadows, slot);
      if paid.Err? {
        return Err(paid.error);
      }
      var staged := StagedBytes(BP.Contents(shadows[slot]), table.buffers[slot].size);
      AddStaged(table, shadows, slot, staged);
      return Ok(|buffers| - 1);
    }

    /** A buffer the planner accepts is charged at its size. */
    method PayBuffer(table: Table, shadows: seq<BP.BufferShadow>, slot: nat) returns (result: Result<(), ComputeError>)
      requires |table.buffers| <= |shadows| && slot < |table.buffers|
      modifies this`bytes
      ensures result.Ok? <==>
        Stageable(table, shadows, slot) && old(bytes) + table.buffers[slot].size <= RETAIN_LIMIT
      ensures old(bytes) <= bytes && (old(bytes) <= RETAIN_LIMIT ==> bytes <= RETAIN_LIMIT)
      ensures result.Ok? ==> bytes == old(bytes) + table.buffers[slot].size
    {
      var size := table.buffers[slot].size;
      if size == 0 || size > MAX_BUFFER || size % 4 != 0 {
        return Err(ResourceBindings);
      }
      result := Retain(size);
      if result.Ok? && shadows[slot].revision + 1 > MAX_WORD {
        return Err(Overflow);
      }
    }

    /** The staged buffer enters the plan's lists at the same index. */
    method AddStaged(ghost table: Table, shadows: seq<BP.BufferShadow>, slot: nat, staged: seq<byte>)
      requires |table.buffers| <= |shadows| && Mirrors(slots, buffers, InitialMemory(table, shadows))
      requires AllStaged(table, shadows, slots, revisions) && Stageable(table, shadows, slot) && slot !in slots
      requires staged == Slice(BP.Contents(shadows[slot]), 0, table.buffers[slot].size)
      modifies this`slots, this`revisions, this`buffers
      ensures slots == old(slots) + [slot] && buffers == old(buffers) + [staged]
      ensures Mirrors(slots, buffers, InitialMemory(table, shadows)) && AllStaged(table, shadows, slots, revisions)
      ensures TotalLength(buffers) == TotalLength(old(buffers)) + |staged|
    {
      MirrorsSnoc(slots, buffers, InitialMemory(table, shadows), slot, staged);
      StagedSnoc(table, shadows, slots, revisions, slot);
      assert (buffers + [staged])[..|buffers|] == buffers;
      slots, revisions, buffers := slots + [slot], revisions + [shadows[slot].revision + 1], buffers + [staged];
    }

    method Range(buffer: nat, offset: nat, size: nat) returns (result: Result<(nat, nat), ComputeError>)
      requires buffer < |buffers|
      ensures result.Ok? <==> offset + size <= MAX_WORD && offset + size <= |buffers[buffer]|
      ensures result.Ok? ==> result.value == (offset, size)
      ensures result.Err? ==> result.error == if offset + size > MAX_WORD then Overflow else OutOfBounds
    {
      if offset + size > MAX_WORD {
        return Err(Overflow);
      }
      if offset + size > |buffers[buffer]| {
        return Err(OutOfBounds);
      }
      return Ok((offset, size));
    }

    /** The compiled shader, from the plan's cache or the compiler. */
    method Pipeline(table: Table, ghost shadows: seq<BP.BufferShadow>, id: nat)
      returns (result: Result<Shader, ComputeError>)
      requires Valid(table, shadows)
      modifies this`pipelines, this`bytes
      ensures Valid(table, shadows)
      ensures result.Ok? ==> table.compile(id) == Some(result.value)
      ensures TakePipeline(table, old(Holding()), id) == Holds(result.Ok?)
    {
      var k := 0;
      while k < |pipelines|
        invariant 0 <= k <= |pipelines| && forall j :: 0 <= j < k ==> pipelines[j].0 != id
      {
        if pipelines[k].0 == id {
          assert Ids(pipelines)[k] == id;
          return Ok(pipelines[k].1);
        }
        k := k + 1;
      }
      assert id !in Ids(pipelines);
      var compiled := table.compile(id);
      if compiled.None? {
        return Err(ShaderCompile);
      }
      var retained := Retain(compiled.value.text);
      if retained.Err? {
        return Err(retained.error);
      }
      assert Ids(pipelines + [(id, compiled.value)]) == Ids(pipelines) + [id];
      pipelines := pipelines + [(id, compiled.value)];
      return Ok(compiled.value);
    }

    /** The resource a shader binding names, through the bound groups and the pipeline's layout. */
    method Lookup(table: Table, control: Control, pipeline: nat, group: nat, binding: nat)
      returns (result: Result<Bound, ComputeError>)
      ensures result.Ok? ==> Resolve(table, control.groups, group, binding) == Some(result.value)
      ensures result.Ok? <==> LaidOut(table, control, pipeline, group, binding)
      ensures result.Err? ==> result.error == BindingLayoutMismatch || result.error == InvalidReference
    {
      if group >= |control.groups| || control.groups[group].None? {
        return Err(BindingLayoutMismatch);
      }
      var bound := control.groups[group].value;
      if bound >= |table.bindGroups| {
        return Err(InvalidReference);
      }
      var layouts := table.layouts(pipeline);
      if group >= |layouts| || layouts[group] != table.bindGroups[bound].layout {
        return Err(BindingLayoutMismatch);
      }
      var entries := table.bindGroups[bound].entries;
      if binding !in entries || !entries[binding].BufferResource? {
        return Err(BindingLayoutMismatch);
      }
      return Ok(Bound(entries[binding].buffer, entries[binding].offset, entries[binding].size));
    }

    method PlanStorage(
      table: Table, shadows: seq<BP.BufferShadow>, control: Control, pipeline: nat, storage: StorageBinding)
      returns (result: Result<Binding, ComputeError>, bound: Bound)
      requires Valid(table, shadows)
      modifies this`slots, this`revisions, this`buffers, this`bytes
      ensures Valid(table, shadows) && old(slots) <= slots && old(buffers) <= buffers
      ensures result.Ok? ==> Resolve(table, control.groups, storage.group, storage.binding) == Some(bound)
      ensures result.Ok? ==> BindingMatches(slots, result.value, storage, bound)
      ensures TakeStorage(table, shadows, control, pipeline, old(Holding()), storage) == Holds(result.Ok?)
    {
      bound := Bound(0, 0, 0);
      var found := Lookup(table, control, pipeline, storage.group, storage.binding);
      if found.Err? {
        return Err(found.error), bound;
      }
      bound := found.value;
      if bound.slot >= |table.buffers| {
        return Err(InvalidReference), bound;
      }
      if !table.buffers[bound.slot].storage || bound.size == 0 || bound.size > 262144
         || bound.offset % 4 != 0 || bound.size % 4 != 0 {
        return Err(InvalidUsage), bound;
      }
      var index := Buffer(table, shadows, bound.slot);
      if index.Err? {
        return Err(index.error), bound;
      }
      var range := Range(index.value, bound.offset, bound.size);
      if range.Err? {
        return Err(range.error), bound;
      }
      return Ok(Binding(storage.slot, index.value, storage.writable)), bound;
    }

    method PlanUniform(
      table: Table, shadows: seq<BP.BufferShadow>, control: Control, pipeline: nat, uniform: UniformBinding)
      returns (result: Result<Uniform, ComputeError>, bound: Bound)
      requires Valid(table, shadows)
      modifies this`slots, this`revisions, this`buffers, this`bytes
      ensures Valid(table, shadows) && old(slots) <= slots && old(buffers) <= buffers
      ensures result.Ok? ==> Resolve(table, control.groups, uniform.group, uniform.binding) == Some(bound)
      ensures result.Ok? ==> UniformMatches(slots, buffers, result.value, uniform, bound)
      ensures TakeUniform(table, shadows, control, pipeline, old(Holding()), uniform) == Holds(result.Ok?)
    {
      bound := Bound(0, 0, 0);
      var found := Lookup(table, control, pipeline, uniform.group, uniform.binding);
      if found.Err? {
        return Err(found.error), bound;
      }
      bound := found.value;
      if bound.slot >= |table.buffers| {
        return Err(InvalidReference), bound;
      }
      if !table.buffers[bound.slot].uniform || bound.size < uniform.requiredSize || bound.size > 16384
         || bound.offset % 4 != 0 {
        return Err(InvalidUsage), bound;
      }
      var index := Buffer(table, shadows, bound.slot);
      if index.Err? {
        return Err(index.error), bound;
      }
      var range := Range(index.value, bound.offset, bound.size);
      if range.Err? {
        return Err(range.error), bound;
      }
      return Ok(Uniform(index.value, range.value.0, uniform.requiredSize, uniform.firstRegister * 4)), bound;
    }

    /** Every storage binding resolved, staged and described in the bank. */
    method PlanStorages(
      table: Table, shadows: seq<BP.BufferShadow>, control: Control, pipeline: nat, storages: seq<StorageBinding>,
      bank: seq<nat>)
      returns (result: Result<seq<Binding>, ComputeError>, filled: seq<nat>, last: nat, bounds: seq<Bound>)
      requires Valid(table, shadows) && StorageWords(storages) <= |bank|
      modifies this`slots, this`revisions, this`buffers, this`bytes
      ensures Valid(table, shadows) && old(slots) <= slots && old(buffers) <= buffers
      ensures result.Ok? ==>
        && StoragesBound(table, control.groups, slots, storages, result.value, bounds)
        && filled == PutStorages(bank, storages, bounds) && last == StorageWords(storages)
      ensures TakeStorages(table, shadows, control, pipeline, old(Holding()), storages) == Holds(result.Ok?)
    {
      filled, last, bounds := bank, 0, [];
      var bindings: seq<Binding> := [];
      var k := 0;
      while k < |storages|
        invariant 0 <= k <= |storages| && Valid(table, shadows) && old(slots) <= slots && old(buffers) <= buffers
        invariant StoragesBound(table, control.groups, slots, storages[..k], bindings, bounds)
        invariant filled == PutStorages(bank, storages[..k], bounds) && last == StorageWords(storages[..k])
        invariant TakeStorages(table, shadows, control, pipeline, old(Holding()), storages[..k]) == Some(Holding())
      {
        ghost var before := slots;
        StoragesTaken(table, shadows, control, pipeline, old(Holding()), storages, k);
        var planned, bound := PlanStorage(table, shadows, control, pipeline, storages[k]);
        if planned.Err? {
          return Err(planned.error), filled, last, bounds;
        }
        StorageNext(table, control.groups, before, slots, storages, k, bindings, bounds, planned.value, bound);
        filled, last := DescribeStorage(storages, k, bank, filled, last, bounds, bound);
        bindings, bounds := bindings + [planned.value], bounds + [bound];
        k := k + 1;
      }
      assert storages[..k] == storages;
      return Ok(bindings), filled, last, bounds;
    }

    method PlanUniforms(
      table: Table, shadows: seq<BP.BufferShadow>, control: Control, pipeline: nat, uniforms: seq<UniformBinding>)
      returns (result: Result<seq<Uniform>, ComputeError>, last: nat, bounds: seq<Bound>)
      requires Valid(table, shadows)
      modifies this`slots, this`revisions, this`buffers, this`bytes
      ensures Valid(table, shadows) && old(slots) <= slots && old(buffers) <= buffers
      ensures result.Ok? ==>
        UniformsBound(table, control.groups, slots, buffers, uniforms, result.value, bounds)
        && last == UniformWords(uniforms)
      ensures TakeUniforms(table, shadows, control, pipeline, old(Holding()), uniforms) == Holds(result.Ok?)
    {
      last, bounds := 0, [];
      var planned: seq<Uniform> := [];
      var k := 0;
      while k < |uniforms|
        invariant 0 <= k <= |uniforms| && Valid(table, shadows) && old(slots) <= slots && old(buffers) <= buffers
        invariant |slots| == |buffers|
        invariant UniformsBound(table, control.groups, slots, buffers, uniforms[..k], planned, bounds)
        invariant last == UniformWords(uniforms[..k])
        invariant TakeUniforms(table, shadows, control, pipeline, old(Holding()), uniforms[..k]) == Some(Holding())
      {
        ghost var before, beforeBuffers := slots, buffers;
        UniformsTaken(table, shadows, control, pipeline, old(Holding()), uniforms, k);
        var one, bound := PlanUniform(table, shadows, control, pipeline, uniforms[k]);
        if one.Err? {
          return Err(one.error), last, bounds;
        }
        UniformNext(table, control.groups, before, beforeBuffers, slots, buffers, uniforms, k, planned, bounds,
          one.value, bound);
        last := Max(last, uniforms[k].firstRegister * 4 + CeilDiv(uniforms[k].size, 16) * 4);
        planned, bounds := planned + [one.value], bounds + [bound];
        k := k + 1;
      }
      assert uniforms[..k] == uniforms;
      return Ok(planned), last, bounds;
    }

    /** A write outside any pass. */
    method PlanWrite(table: Table, shadows: seq<BP.BufferShadow>, buffer: nat, offset: nat, data: seq<byte>)
      returns (result: Result<Event, ComputeError>)
      requires Valid(table, shadows)
      modifies this`slots, this`revisions, this`buffers, this`bytes
      ensures Valid(table, shadows) && old(slots) <= slots && old(buffers) <= buffers
      ensures result.Ok? ==> Matches(slots, buffers, result.value, Written(buffer, offset, data))
      ensures (if WriteFits(table, shadows, buffer, offset, |data|)
               then TakeBuffer(table, shadows, old(Holding()), buffer) else None) == Holds(result.Ok?)
      ensures buffer >= |table.buffers| ==> result == Err(InvalidReference)
      ensures buffer < |table.buffers| && !table.buffers[buffer].copyDst ==> result == Err(InvalidUsage)
    {
      if buffer >= |table.buffers| {
        return Err(InvalidReference);
      }
      if !table.buffers[buffer].copyDst {
        return Err(InvalidUsage);
      }
      var index := Buffer(table, shadows, buffer);
      if index.Err? {
        return Err(index.error);
      }
      var range := Range(index.value, offset, |data|);
      if range.Err? {
        return Err(range.error);
      }
      return Ok(WriteEvent(index.value, range.value.0, data));
    }

    /** A copy outside any pass; overlapping ranges of one buffer are refused. */
    method PlanCopy(
      table: Table, shadows: seq<BP.BufferShadow>, source: nat, sourceOffset: nat, destination: nat,
      destinationOffset: nat, size: nat)
      returns (result: Result<Event, ComputeError>)
      requires Valid(table, shadows)
      modifies this`slots, this`revisions, this`buffers, this`bytes
      ensures Valid(table, shadows) && old(slots) <= slots && old(buffers) <= buffers
      ensures result.Ok? ==>
        Matches(slots, buffers, result.value, Copied(source, sourceOffset, destination, destinationOffset, size))
      ensures result.Ok? && source == destination ==>
        sourceOffset >= destinationOffset + size || destinationOffset >= sourceOffset + size
      ensures TakeCopy(table, shadows, old(Holding()), source, sourceOffset, destination, destinationOffset, size)
        == Holds(result.Ok?)
    {
      if source >= |table.buffers| || destination >= |table.buffers| {
        return Err(InvalidReference);
      }
      if !table.buffers[source].copySrc || !table.buffers[destination].copyDst {
        return Err(InvalidUsage);
      }
      var from := Buffer(table, shadows, source);
      if from.Err? {
        return Err(from.error);
      }
      var to := Buffer(table, shadows, destination);
      if to.Err? {
        return Err(to.error);
      }
      SameSlot(slots, buffers, InitialMemory(table, shadows), from.value, to.value);
      result := CopyBetween(from.value, sourceOffset, to.value, destinationOffset, size);
    }

    /** The event of a copy between staged buffers, whose ranges must fit and not overlap in one buffer. */
    method CopyBetween(from: nat, sourceOffset: nat, to: nat, destinationOffset: nat, size: nat)
      returns (result: Result<Event, ComputeError>)
      requires from < |buffers| && to < |buffers| && |buffers[from]| <= MAX_WORD && |buffers[to]| <= MAX_WORD
      ensures result.Ok? <==>
        && sourceOffset + size <= |buffers[from]| && destinationOffset + size <= |buffers[to]|
        && (from == to ==> sourceOffset >= destinationOffset + size || destinationOffset >= sourceOffset + size)
      ensures result.Ok? ==> result.value == CopyEvent(from, sourceOffset, to, destinationOffset, size)
    {
      var read := Range(from, sourceOffset, size);
      if read.Err? {
        return Err(read.error);
      }
      var write := Range(to, destinationOffset, size);
      if write.Err? {
        return Err(write.error);
      }
      if from == to && sourceOffset < destinationOffset + size && destinationOffset < sourceOffset + size {
        return Err(InvalidUsage);
      }
      return Ok(CopyEvent(from, sourceOffset, to, destinationOffset, size));
    }

    /** A dispatch with everything the kernel will see but the contents of its buffers. */
    method PlanDispatch(
      table: Table, shadows: seq<BP.BufferShadow>, control: Control, ghost commands: seq<Command>, x: nat, y: nat,
      z: nat)
      returns (result: Result<Event, ComputeError>)
      requires Valid(table, shadows) && |control.pushSet| == 128 && control == ControlAfter(table, commands)
      requires control.pipeline.Some? ==> WellFormedShader(control.pipeline.value.1)
      modifies this`slots, this`revisions, this`buffers, this`bytes
      ensures Valid(table, shadows) && old(slots) <= slots && old(buffers) <= buffers
      ensures result.Ok? ==>
        var effect := EffectOf(table, control, Dispatch(x, y, z));
        effect.Some? && Matches(slots, buffers, result.value, effect.value)
      ensures result.Ok? ==> control.pipeline.Some? && PushComplete(control, control.pipeline.value.1.push)
      ensures !(0 < x <= 65535 && 0 < y <= 65535 && 0 < z <= 65535) ==> result == Err(OutOfBounds)
      ensures TakeDispatch(table, shadows, control, old(Holding()), x, y, z) == Holds(result.Ok?)
      ensures result.Ok? ==> DispatchTold(table, commands, slots, (x, y, z), result.value)
    {
      if x == 0 || x > 65535 || y == 0 || y > 65535 || z == 0 || z > 65535 {
        return Err(OutOfBounds);
      }
      if control.pipeline.None? {
        return Err(InvalidUsage);
      }
      var charged := PayDispatch(table, shadows, control.pipeline.value.1);
      if charged.Err? {
        return Err(charged.error);
      }
      result := PlanBound(table, shadows, control, (x, y, z));
      if result.Ok? {
        EventTold(table, commands, slots, buffers, (x, y, z), result.value);
      }
    }

    /** The bank, the bindings and the uniforms of a dispatch are charged before they are made. */
    method PayDispatch(table: Table, ghost shadows: seq<BP.BufferShadow>, shader: Shader)
      returns (result: Result<(), ComputeError>)
      requires Valid(table, shadows)
      modifies this`bytes
      ensures Valid(table, shadows)
      ensures Within(Charge(old(Holding()), DispatchBytes(table, shader))) == Holds(result.Ok?)
    {
      result := Retain(BankWords(shader) * 4 + |shader.storages| * table.bindingBytes
        + |shader.uniforms| * table.uniformBytes);
    }

    /** The dispatch once its record is paid for: bindings first, then push constants. */
    method PlanBound(table: Table, shadows: seq<BP.BufferShadow>, control: Control, groups: (nat, nat, nat))
      returns (result: Result<Event, ComputeError>)
      requires Valid(table, shadows) && |control.pushSet| == 128
      requires control.pipeline.Some? && WellFormedShader(control.pipeline.value.1)
      modifies this`slots, this`revisions, this`buffers, this`bytes
      ensures Valid(table, shadows) && old(slots) <= slots && old(buffers) <= buffers
      ensures result.Ok? ==>
        var effect := EffectOf(table, control, Dispatch(groups.0, groups.1, groups.2));
        effect.Some? && Matches(slots, buffers, result.value, effect.value)
      ensures result.Ok? ==> PushComplete(control, control.pipeline.value.1.push)
      ensures (if !PushComplete(control, control.pipeline.value.1.push) then None
               else TakeBindings(table, shadows, control, control.pipeline.value.0, old(Holding()),
                 control.pipeline.value.1))
        == Holds(result.Ok?)
    {
      var id, shader := control.pipeline.value.0, control.pipeline.value.1;
      var bound, bank, end, storages, uniforms :=
        PlanBindings(table, shadows, control, id, shader, seq(BankWords(shader), _ => 0));
      if bound.Err? {
        return Err(bound.error);
      }
      var pushed := PlanPush(control, shader.push, bank);
      if pushed.Err? {
        return Err(pushed.error);
      }
      var last := Max(end, if shader.push.Some? then PushEnd(shader.push.value) else 0);
      NothingTruncated(shader, pushed.value, last);
      DispatchMatches(
        table, control, slots, buffers, pushed.value, bound.value.1, bound.value.0, storages, uniforms, groups);
      return Ok(DispatchEvent(shader, pushed.value[..last], bound.value.1, bound.value.0, groups));
    }

    /** Storage bindings first, then uniforms; the last word either uses. */
    method PlanBindings(
      table: Table, shadows: seq<BP.BufferShadow>, control: Control, pipeline: nat, shader: Shader, bank: seq<nat>)
      returns (result: Result<(seq<Binding>, seq<Uniform>), ComputeError>, filled: seq<nat>, last: nat,
               storages: seq<Bound>, uniforms: seq<Bound>)
      requires Valid(table, shadows) && StorageWords(shader.storages) <= |bank|
      modifies this`slots, this`revisions, this`buffers, this`bytes
      ensures Valid(table, shadows) && old(slots) <= slots && old(buffers) <= buffers
      ensures result.Ok? ==>
        && StoragesBound(table, control.groups, slots, shader.storages, result.value.0, storages)
        && UniformsBound(table, control.groups, slots, buffers, shader.uniforms, result.value.1, uniforms)
        && filled == PutStorages(bank, shader.storages, storages)
        && last == Max(StorageWords(shader.storages), UniformWords(shader.uniforms))
      ensures TakeBindings(table, shadows, control, pipeline, old(Holding()), shader) == Holds(result.Ok?)
    {
      uniforms := [];
      var bindings;
      bindings, filled, last, storages := PlanStorages(table, shadows, control, pipeline, shader.storages, bank);
      if bindings.Err? {
        return Err(bindings.error), filled, last, storages, uniforms;
      }
      ghost var before := slots;
      var planned, end;
      planned, end, uniforms := PlanUniforms(table, shadows, control, pipeline, shader.uniforms);
      if planned.Err? {
        return Err(planned.error), filled, last, storages, uniforms;
      }
      StoragesLater(table, control.groups, before, slots, shader.storages, bindings.value, storages);
      return Ok((bindings.value, planned.value)), filled, Max(last, end), storages, uniforms;
    }

    /** One command planned: the pass state moves on and its memory effect, if any, becomes the next event. */
    method PlanCommand(
      table: Table, shadows: seq<BP.BufferShadow>, control: Control, ghost commands: seq<Command>, command: Command)
      returns (result: Result<Control, ComputeError>)
      requires Valid(table, shadows) && ControlFormed(control) && control == ControlAfter(table, commands)
      modifies this
      ensures Valid(table, shadows) && old(slots) <= slots && old(buffers) <= buffers
      ensures result.Ok? ==> result.value == ControlStep(table, control, command) && ControlFormed(result.value)
      ensures result.Ok? ==> Planned(slots, buffers, EffectOf(table, control, command), old(events), events)
      ensures result.Ok? ==> InPlace(control.active, command)
      ensures TakeCommand(table, shadows, control, old(Holding()), command) == Holds(result.Ok?)
    {
      var planned := PlanEffect(table, shadows, control, commands, command);
      if planned.Err? {
        return Err(planned.error);
      }
      FormedNext(table, control, command);
      var next := NextControl(table, control, command);
      return Ok(next);
    }

    /** What a command does to memory becomes the next event; the others are checked. */
    method PlanEffect(
      table: Table, shadows: seq<BP.BufferShadow>, control: Control, ghost commands: seq<Command>, command: Command)
      returns (result: Result<(), ComputeError>)
      requires Valid(table, shadows) && ControlFormed(control) && control == ControlAfter(table, commands)
      modifies this
      ensures Valid(table, shadows) && old(slots) <= slots && old(buffers) <= buffers
      ensures result.Ok? ==> Planned(slots, buffers, EffectOf(table, control, command), old(events), events)
      ensures result.Ok? ==> InPlace(control.active, command) && Steppable(table, command)
      ensures TakeCommand(table, shadows, control, old(Holding()), command) == Holds(result.Ok?)
    {
      var stands := Stands(control.active, command);
      if !stands {
        return Err(CommandSequence);
      }
      if command.WriteBuffer? || command.CopyBufferToBuffer? || command.Dispatch? {
        result := PlanEvent(table, shadows, control, commands, command);
      } else {
        result := CheckState(table, shadows, control, command);
      }
    }

    method PlanEvent(
      table: Table, shadows: seq<BP.BufferShadow>, control: Control, ghost commands: seq<Command>, command: Command)
      returns (result: Result<(), ComputeError>)
      requires Valid(table, shadows) && ControlFormed(control) && control == ControlAfter(table, commands)
      requires InPlace(control.active, command)
      requires command.WriteBuffer? || command.CopyBufferToBuffer? || command.Dispatch?
      modifies this
      ensures Valid(table, shadows) && old(slots) <= slots && old(buffers) <= buffers
      ensures result.Ok? ==> Planned(slots, buffers, EffectOf(table, control, command), old(events), events)
      ensures TakeCommand(table, shadows, control, old(Holding()), command) == Holds(result.Ok?)
    {
      var event := PlanMemory(table, shadows, control, commands, command);
      if event.Err? {
        return Err(event.error);
      }
      events := events + [event.value];
      return Ok(());
    }

    /** A command that touches memory becomes one event. */
    method PlanMemory(
      table: Table, shadows: seq<BP.BufferShadow>, control: Control, ghost commands: seq<Command>, command: Command)
      returns (result: Result<Event, ComputeError>)
      requires Valid(table, shadows) && ControlFormed(control) && control == ControlAfter(table, commands)
      requires command.WriteBuffer? || command.CopyBufferToBuffer? || command.Dispatch?
      modifies this`slots, this`revisions, this`buffers, this`bytes
      ensures Valid(table, shadows) && old(slots) <= slots && old(buffers) <= buffers
      ensures result.Ok? ==>
        var effect := EffectOf(table, control, command);
        effect.Some? && Matches(slots, buffers, result.value, effect.value)
      ensures InPlace(control.active, command) ==>
        TakeCommand(table, shadows, control, old(Holding()), command) == Holds(result.Ok?)
    {
      match command {
        case WriteBuffer(b, offset, data) => result := PlanWrite(table, shadows, b, offset, data);
        case CopyBufferToBuffer(s, from, d, to, size) => result := PlanCopy(table, shadows, s, from, d, to, size);
        case Dispatch(x, y, z) => result := PlanDispatch(table, shadows, control, commands, x, y, z);
      }
    }

    /** Every other command is only checked, compiling its pipeline where it names one. */
    method CheckState(table: Table, ghost shadows: seq<BP.BufferShadow>, control: Control, command: Command)
      returns (result: Result<(), ComputeError>)
      requires Valid(table, shadows)
      modifies this`pipelines, this`bytes
      ensures Valid(table, shadows)
      ensures result.Ok? && command.SetComputePipeline? ==> table.compile(command.pipeline).Some?
      ensures result.Ok? && command.SetBindGroup? ==> command.index < |control.groups|
      ensures result.Ok? && command.SetPushConstants? ==>
        command.compute && command.pushOffset % 4 == 0 && |command.pushData| % 4 == 0
        && command.pushOffset + |command.pushData| <= 128
      ensures (if command.SetComputePipeline? then TakePipeline(table, old(Holding()), command.pipeline)
               else if StateFits(table, control, command) then Some(old(Holding())) else None) == Holds(result.Ok?)
    {
      match command {
        case SetComputePipeline(p) =>
          var compiled := Pipeline(table, shadows, p);
          if compiled.Err? {
            return Err(compiled.error);
          }
        case SetBindGroup(index, _) =>
          if index >= |control.groups| {
            return Err(OutOfBounds);
          }
        case SetPushConstants(compute, at, data) =>
          if !compute || at % 4 != 0 || |data| % 4 != 0 {
            return Err(InvalidUsage);
          }
          if at + |data| > 128 {
            return Err(OutOfBounds);
          }
        case BufferBarrier(b) =>
          if b >= |table.buffers| {
            return Err(InvalidReference);
          }
        case _ =>
      }
      return Ok(());
    }

    /** The record of a command is paid for, then the command is planned. */
    method PlanNext(
      table: Table, shadows: seq<BP.BufferShadow>, control: Control, ghost commands: seq<Command>, command: Command)
      returns (result: Result<Control, ComputeError>)
      requires Valid(table, shadows) && ControlFormed(control) && control == ControlAfter(table, commands)
      modifies this
      ensures Valid(table, shadows) && old(slots) <= slots && old(buffers) <= buffers
      ensures result.Ok? ==> result.value == ControlStep(table, control, command) && ControlFormed(result.value)
      ensures result.Ok? ==> Planned(slots, buffers, EffectOf(table, control, command), old(events), events)
      ensures result.Ok? ==> InPlace(control.active, command)
      ensures TakeNext(table, shadows, control, old(Holding()), command) == Holds(result.Ok?)
    {
      var retained := Retain(table.eventBytes);
      if retained.Err? {
        return Err(retained.error);
      }
      result := PlanCommand(table, shadows, control, commands, command);
    }

    /**
     The whole stream planned: its events match the effects of running it in
     order. It is planned exactly when every command fits where it stands, no
     pass is left open and everything the plan holds fits the limit.
     */
    method Lower(table: Table, shadows: seq<BP.BufferShadow>, commands: seq<Command>)
      returns (result: Result<(), ComputeError>)
      requires Valid(table, shadows) && Holding() == Held([], [], 0) && events == []
      modifies this
      ensures Valid(table, shadows)
      ensures result.Ok? ==> AllMatch(slots, buffers, events, Effects(table, commands))
      ensures result.Ok? ==> OrderedTo(table, commands, |commands|) && !ControlAfter(table, commands).active
      ensures result.Ok? <==>
        && StreamFits(table, shadows, commands) && !ControlAfter(table, commands).active
        && HoldStream(table, commands).bytes <= RETAIN_LIMIT
      ensures result.Ok? ==> Holding() == HoldStream(table, commands)
      ensures result.Ok? ==> AllTold(table, commands, slots, events)
    {
      StreamExactly(table, shadows, commands);
      result := LowerAll(table, shadows, commands);
      if result.Ok? {
        StreamTold(table, shadows, commands, slots, buffers, events);
      }
    }

    method LowerAll(table: Table, shadows: seq<BP.BufferShadow>, commands: seq<Command>)
      returns (result: Result<(), ComputeError>)
      requires Valid(table, shadows) && Holding() == Held([], [], 0) && events == []
      modifies this
      ensures Valid(table, shadows)
      ensures result.Ok? ==> AllMatch(slots, buffers, events, Effects(table, commands))
      ensures result.Ok? ==> OrderedTo(table, commands, |commands|)
      ensures (if ControlAfter(table, commands).active then None else TakeStream(table, shadows, commands))
        == Holds(result.Ok?)
    {
      var control := InitialControl();
      var k := 0;
      while k < |commands|
        invariant 0 <= k <= |commands| && Valid(table, shadows) && ControlFormed(control)
        invariant control == ControlAfter(table, commands[..k])
        invariant AllMatch(slots, buffers, events, Effects(table, commands[..k]))
        invariant OrderedTo(table, commands, k)
        invariant TakeStream(table, shadows, commands[..k]) == Some(Holding())
      {
        StreamTaken(table, shadows, commands, k);
        ghost var before, beforeBuffers, beforeEvents := slots, buffers, events;
        var next := PlanNext(table, shadows, control, commands[..k], commands[k]);
        if next.Err? {
          return Err(next.error);
        }
        PlannedNext(table, commands, k, before, beforeBuffers, beforeEvents, slots, buffers, events);
        control := next.value;
        k := k + 1;
      }
      assert commands[..k] == commands;
      return if control.active then Err(InvalidUsage) else Ok(());
    }

    /**
     Run the events on the staged buffers; `accepted` once the device may have
     taken work. After the preflight of every packet bound, no dispatch is
     turned away for the size of its packet.
     */
    method Execute(kernel: Kernel, device: nat -> DispatchOutcome, limit: nat)
      returns (ok: bool, accepted: bool, ghost at: nat)
      requires forall k :: 0 <= k < |events| ==> EventInRange(buffers, events[k]) && ConstantsFit(events[k])
      requires forall k :: 0 <= k < |events| ==> FitsTransport(events[k], limit)
      modifies this`buffers
      ensures ok <==> ReachedTo(events, device, |events|)
      ensures ok ==>
        buffers == PerformAll(kernel, old(buffers), events) && (accepted <==> AnyDispatch(events, |events|))
      ensures !ok ==> Stopped(events, device, at, accepted)
    {
      ok, accepted, at := true, false, 0;
      var k := 0;
      while k < |events|
        invariant 0 <= k <= |events| && buffers == PerformAll(kernel, old(buffers), events[..k])
        invariant ReachedTo(events, device, k) && (accepted <==> AnyDispatch(events, k))
      {
        PerformNext(kernel, old(buffers), events, k);
        RangeLater(old(buffers), buffers, events[k]);
        var done, took, late := ExecuteOne(kernel, device(k), events[k], limit);
        if !done {
          StoppedAt(events, device, k, accepted, took);
          return false, accepted || took, k;
        }
        ReachedNext(events, device, k);
        accepted := accepted || took;
        k := k + 1;
      }
      assert events[..k] == events;
    }

    /**
     One event; `took` when the device may have accepted work, `late` when the
     finished packet turned out too large for the transport.
     */
    method ExecuteOne(kernel: Kernel, outcome: DispatchOutcome, event: Event, limit: nat)
      returns (done: bool, took: bool, late: bool)
      requires EventInRange(buffers, event) && ConstantsFit(event)
      modifies this`buffers
      ensures done <==> Succeeds(event, outcome) && !late
      ensures done ==> buffers == Perform(kernel, old(buffers), event)
      ensures took <==> event.DispatchEvent? && |event.bindings| <= 4 && !outcome.Refused? && !late
      ensures late ==> !FitsTransport(event, limit)
    {
      match event {
        case WriteEvent(b, offset, data) =>
          buffers := buffers[b := CopyInto(buffers[b], offset, data)];
        case CopyEvent(s, from, d, to, size) =>
          buffers := buffers[d := CopyInto(buffers[d], to, buffers[s][from..from + size])];
        case DispatchEvent(shader, constants, uniforms, bindings, groups) =>
          var bank := FillBank(constants, uniforms, buffers);
          if |bindings| > 4 {
            return false, false, false;
          }
          var bytes := PacketBytes(shader, bank, bindings, groups);
          if bytes > limit {
            return false, false, true;
          }
          if outcome.Refused? {
            return false, false, false;
          }
          if outcome.Lost? {
            return false, true, false;
          }
          buffers := LaunchOn(kernel, buffers, shader, bank, bindings, groups);
          return true, true, false;
      }
      return true, false, false;
    }

    /** Build the packet of a dispatch and measure it; only the length of the shader text matters. */
    method PacketBytes(shader: Shader, bank: seq<nat>, bindings: seq<Binding>, groups: (nat, nat, nat))
      returns (bytes: nat)
      ensures bytes <= ComputePacket.PacketBound(shader.text, |bank|, |bindings|)
    {
      var staged := buffers;
      var sizes := (b: nat) => if b < |staged| then |staged[b]| else 0;
      var text := seq(CeilDiv(shader.text + 1, 4), _ => 0);
      var words := ComputePacket.DispatchPacket(
        1, shader.text, text, bank, bindings, sizes, (1, 1, 1), groups);
      bytes := 4 * |words|;
    }
  }

  /** The bound reserved for the event's packet is within the transport limit. */
  predicate FitsTransport(event: Event, limit: nat) {
    event.DispatchEvent? ==>
      ComputePacket.PacketBound(event.shader.text, |event.constants|, |event.bindings|) <= limit
  }

  lemma PerformNext(kernel: Kernel, buffers: seq<seq<byte>>, events: seq<Event>, k: nat)
    requires k < |events| && EventInRange(buffers, events[k])
    ensures EventInRange(PerformAll(kernel, buffers, events[..k]), events[k])
    ensures PerformAll(kernel, buffers, events[..k + 1])
      == Perform(kernel, PerformAll(kernel, buffers, events[..k]), events[k])
  {
    assert events[..k + 1][..k] == events[..k];
    RangeLater(buffers, PerformAll(kernel, buffers, events[..k]), events[k]);
  }

  /** How the device ends a dispatch: done, refused before acceptance, or lost after it. */
  datatype DispatchOutcome = Done | Refused | Lost

  predicate Succeeds(event: Event, outcome: DispatchOutcome) {
    event.DispatchEvent? ==> |event.bindings| <= 4 && outcome.Done?
  }

  predicate ReachedTo(events: seq<Event>, device: nat -> DispatchOutcome, to: nat) {
    forall k :: 0 <= k < to && k < |events| ==> Succeeds(events[k], device(k))
  }

  predicate AnyDispatch(events: seq<Event>, to: nat) {
    exists k :: 0 <= k < to && k < |events| && events[k].DispatchEvent?
  }

  /** Execution stopped at event `k`; work was accepted earlier or by that very dispatch. */
  predicate Stopped(events: seq<Event>, device: nat -> DispatchOutcome, k: nat, accepted: bool) {
    && k < |events| && events[k].DispatchEvent? && !Succeeds(events[k], device(k)) && ReachedTo(events, device, k)
    && (accepted <==> AnyDispatch(events, k) || (|events[k].bindings| <= 4 && device(k).Lost?))
  }

  lemma StoppedAt(events: seq<Event>, device: nat -> DispatchOutcome, k: nat, accepted: bool, took: bool)
    requires k < |events| && ReachedTo(events, device, k) && !Succeeds(events[k], device(k))
    requires accepted <==> AnyDispatch(events, k)
    requires took <==> events[k].DispatchEvent? && |events[k].bindings| <= 4 && !device(k).Refused?
    ensures Stopped(events, device, k, accepted || took)
  {
  }

  lemma ReachedNext(events: seq<Event>, device: nat -> DispatchOutcome, k: nat)
    requires k < |events| && ReachedTo(events, device, k) && Succeeds(events[k], device(k))
    ensures ReachedTo(events, device, k + 1)
    ensures AnyDispatch(events, k + 1) <==> AnyDispatch(events, k) || events[k].DispatchEvent?
  {
  }

  predicate ConstantsFit(event: Event) {
    event.DispatchEvent? ==>
      forall u :: 0 <= u < |event.uniforms| ==>
        event.uniforms[u].word + event.uniforms[u].length / 4 <= |event.constants|
  }

  lemma RangeLater(before: seq<seq<byte>>, after: seq<seq<byte>>, event: Event)
    requires EventInRange(before, event) && |after| == |before|
    requires forall b :: 0 <= b < |before| ==> |after[b]| == |before[b]|
    ensures EventInRange(after, event)
  {
  }

  /** The uniform words as the staged buffers hold them when the dispatch starts. */
  method FillBank(constants: seq<nat>, uniforms: seq<Uniform>, buffers: seq<seq<byte>>) returns (bank: seq<nat>)
    requires forall k :: 0 <= k < |uniforms| ==>
      && uniforms[k].buffer < |buffers| && uniforms[k].word + uniforms[k].length / 4 <= |constants|
      && uniforms[k].offset + uniforms[k].length <= |buffers[uniforms[k].buffer]|
    ensures bank == Fill(constants, uniforms, buffers)
  {
    bank := constants;
    var k := 0;
    while k < |uniforms|
      invariant 0 <= k <= |uniforms| && bank == Fill(constants, uniforms[..k], buffers)
    {
      assert uniforms[..k + 1][..k] == uniforms[..k];
      bank := FillOne(bank, uniforms[k], buffers[uniforms[k].buffer]);
      k := k + 1;
    }
    assert uniforms[..k] == uniforms;
  }

  method FillOne(bank: seq<nat>, uniform: Uniform, bytes: seq<byte>) returns (filled: seq<nat>)
    requires uniform.word + uniform.length / 4 <= |bank| && uniform.offset + uniform.length <= |bytes|
    ensures filled == Put(bank, uniform.word, Words(bytes, uniform.offset, uniform.length))
  {
    filled := bank;
    var i := 0;
    while i < uniform.length / 4
      invariant 0 <= i <= uniform.length / 4 && |filled| == |bank|
      invariant forall j :: 0 <= j < |bank| ==>
        filled[j] == if uniform.word <= j < uniform.word + i
                     then Word(bytes, uniform.offset + 4 * (j - uniform.word)) else bank[j]
    {
      filled := filled[uniform.word + i := Word(bytes, uniform.offset + 4 * i)];
      i := i + 1;
    }
  }

  method StagedBytes(contents: seq<byte>, size: nat) returns (bytes: seq<byte>)
    ensures bytes == Slice(contents, 0, size)
  {
    var count := Min(size, |contents|);
    bytes := CopyInto(seq(size, _ => 0), 0, contents[..count]);
  }

  lemma MirrorsSnoc(slots: seq<nat>, buffers: seq<seq<byte>>, memory: seq<seq<byte>>, slot: nat, bytes: seq<byte>)
    requires Mirrors(slots, buffers, memory) && slot !in slots && slot < |memory| && memory[slot] == bytes
    ensures Mirrors(slots + [slot], buffers + [bytes], memory)
  {
  }

  /** Each resource is staged once. */
  lemma SameSlot(slots: seq<nat>, buffers: seq<seq<byte>>, memory: seq<seq<byte>>, i: nat, j: nat)
    requires Mirrors(slots, buffers, memory) && i < |slots| && j < |slots|
    ensures i == j <==> slots[i] == slots[j]
  {
  }

  /** Offset and size of one storage range in the first two words of its register. */
  method DescribeStorage(
    storages: seq<StorageBinding>, k: nat, ghost bank: seq<nat>, filled: seq<nat>, last: nat, ghost bounds: seq<Bound>,
    bound: Bound)
    returns (next: seq<nat>, end: nat)
    requires k < |storages| && |bounds| == k && StorageEnd(storages[k]) <= |bank|
    requires filled == PutStorages(bank, storages[..k], bounds) && last == StorageWords(storages[..k])
    ensures next == PutStorages(bank, storages[..k + 1], bounds + [bound]) && end == StorageWords(storages[..k + 1])
  {
    var start := storages[k].firstRegister * 4;
    assert storages[..k + 1][..k] == storages[..k] && (bounds + [bound])[..k] == bounds;
    next := filled[start := bound.offset][start + 1 := bound.size];
    assert next == Put(filled, start, [bound.offset, bound.size]);
    end := Max(last, start + 4);
  }

  /** Pass commands belong into a compute pass, transfers and barriers between passes, the rest nowhere. */
  method Stands(active: bool, command: Command) returns (ok: bool)
    ensures ok == InPlace(active, command)
  {
    match command {
      case BeginComputePass => ok := !active;
      case EndComputePass => ok := active;
      case SetComputePipeline(_) => ok := active;
      case SetBindGroup(_, _) => ok := active;
      case SetPushConstants(_, _, _) => ok := active;
      case Dispatch(_, _, _) => ok := active;
      case WriteBuffer(_, _, _) => ok := !active;
      case CopyBufferToBuffer(_, _, _, _, _) => ok := !active;
      case GlobalBarrier => ok := !active;
      case BufferBarrier(_) => ok := !active;
      case Graphics => ok := false;
    }
  }

  /** What the checks of a command leave for the pass state to rely on. */
  predicate Steppable(table: Table, command: Command) {
    && (command.SetComputePipeline? ==> table.compile(command.pipeline).Some?)
    && (command.SetBindGroup? ==> command.index < 4)
    && (command.SetPushConstants? ==> command.pushOffset + |command.pushData| <= 128)
  }

  /** The pass state after an accepted command. */
  method NextControl(table: Table, control: Control, command: Command) returns (next: Control)
    requires ControlFormed(control) && Steppable(table, command)
    ensures next == ControlStep(table, control, command)
  {
    next := control;
    match command {
      case BeginComputePass =>
        next := Control(true, None, [None, None, None, None], control.push, seq(128, _ => false));
      case EndComputePass =>
        next := next.(active := false);
      case SetComputePipeline(p) =>
        next := next.(pipeline := Some((p, table.compile(p).value)));
      case SetBindGroup(index, g) =>
        next := next.(groups := next.groups[index := Some(g)]);
      case SetPushConstants(_, at, data) =>
        var push, pushed := control.push, control.pushSet;
        for i := 0 to |data|
          invariant |push| == 128 == |pushed|
          invariant forall b :: 0 <= b < 128 ==>
            && push[b] == (if at <= b < at + i then data[b - at] else control.push[b])
            && pushed[b] == (at <= b < at + i || control.pushSet[b])
        {
          push := push[at + i := data[i]];
          pushed := pushed[at + i := true];
        }
        assert push == CopyInto(control.push, at, data);
        assert pushed == control.pushSet[..at] + seq(|data|, _ => true) + control.pushSet[at + |data|..];
        next := next.(push := push, pushSet := pushed);
      case _ =>
    }
  }

  predicate ControlFormed(c: Control) {
    && |c.push| == 128 == |c.pushSet| && |c.groups| == 4
    && (c.pipeline.Some? ==> WellFormedShader(c.pipeline.value.1))
  }

  lemma FormedNext(table: Table, c: Control, command: Command)
    requires ControlFormed(c) && WellFormedTable(table)
    ensures ControlFormed(ControlStep(table, c, command))
  {
  }

  predicate OrderedTo(table: Table, commands: seq<Command>, to: nat) {
    forall k :: 0 <= k < to && k < |commands| ==> InPlace(ControlAfter(table, commands[..k]).active, commands[k])
  }

  ghost predicate Planned(
    slots: seq<nat>, buffers: seq<seq<byte>>, effect: Option<Effect>, before: seq<Event>, after: seq<Event>)
  {
    if effect.None? then after == before
    else
      |after| == |before| + 1 && after[..|before|] == before && Matches(slots, buffers, after[|before|], effect.value)
  }

  lemma PlannedNext(
    table: Table, commands: seq<Command>, k: nat, before: seq<nat>, beforeBuffers: seq<seq<byte>>,
    beforeEvents: seq<Event>,
    slots: seq<nat>, buffers: seq<seq<byte>>, events: seq<Event>)
    requires k < |commands| && before <= slots && beforeBuffers <= buffers && |slots| == |buffers|
    requires AllMatch(before, beforeBuffers, beforeEvents, Effects(table, commands[..k]))
    requires Planned(slots, buffers, EffectOf(table, ControlAfter(table, commands[..k]), commands[k]), beforeEvents,
      events)
    ensures AllMatch(slots, buffers, events, Effects(table, commands[..k + 1]))
    ensures ControlAfter(table, commands[..k + 1])
      == ControlStep(table, ControlAfter(table, commands[..k]), commands[k])
  {
    assert commands[..k + 1][..k] == commands[..k];
    var effects := Effects(table, commands[..k]);
    forall j | 0 <= j < |beforeEvents| ensures events[j] == beforeEvents[j] {
      assert events[..|beforeEvents|][j] == events[j];
    }
    forall j | 0 <= j < |beforeEvents| ensures Matches(slots, buffers, events[j], effects[j]) {
      MatchesGrown(before, beforeBuffers, slots, buffers, beforeEvents[j], effects[j]);
    }
  }

  lemma MatchesGrown(
    before: seq<nat>, beforeBuffers: seq<seq<byte>>, slots: seq<nat>, buffers: seq<seq<byte>>, event: Event,
    effect: Effect)
    requires before <= slots && beforeBuffers <= buffers && |slots| == |buffers|
    requires Matches(before, beforeBuffers, event, effect)
    ensures Matches(slots, buffers, event, effect)
  {
    if event.DispatchEvent? {
      forall k | 0 <= k < |event.bindings|
        ensures BindingMatches(slots, event.bindings[k], event.shader.storages[k], effect.storages[k])
      {
        assert BindingMatches(before, event.bindings[k], event.shader.storages[k], effect.storages[k]);
      }
      forall k | 0 <= k < |event.uniforms|
        ensures UniformMatches(slots, buffers, event.uniforms[k], event.shader.uniforms[k], effect.uniforms[k])
      {
        assert UniformMatches(before, beforeBuffers, event.uniforms[k], event.shader.uniforms[k], effect.uniforms[k]);
      }
    }
  }

  /** The bank already ends at the last register a binding uses: truncation drops nothing. */
  lemma NothingTruncated(shader: Shader, bank: seq<nat>, last: nat)
    requires |bank| == BankWords(shader)
    requires last == Max(Max(StorageWords(shader.storages), UniformWords(shader.uniforms)),
      if shader.push.Some? then PushEnd(shader.push.value) else 0)
    ensures last == |bank| && bank[..last] == bank
  {
  }

  lemma DispatchMatches(
    table: Table, control: Control, slots: seq<nat>, buffers: seq<seq<byte>>, bank: seq<nat>, uniforms: seq<Uniform>,
    bindings: seq<Binding>, storages: seq<Bound>, bounds: seq<Bound>, groups: (nat, nat, nat))
    requires |slots| == |buffers| && control.pipeline.Some? && WellFormedShader(control.pipeline.value.1)
    requires var shader := control.pipeline.value.1;
      && StoragesBound(table, control.groups, slots, shader.storages, bindings, storages)
      && UniformsBound(table, control.groups, slots, buffers, shader.uniforms, uniforms, bounds)
      && bank == StaticBank(shader, control.push, storages)
    ensures var effect := EffectOf(table, control, Dispatch(groups.0, groups.1, groups.2));
      effect.Some?
      && Matches(slots, buffers, DispatchEvent(control.pipeline.value.1, bank, uniforms, bindings, groups),
        effect.value)
  {
  }

  /** The push constants as last set, word by word into their registers. */
  method PlanPush(control: Control, push: Option<PushBlock>, bank: seq<nat>)
    returns (result: Result<seq<nat>, ComputeError>)
    requires |control.pushSet| == 128
    requires push.Some? ==> PushEnd(push.value) <= |bank|
    ensures result.Ok? <==> PushComplete(control, push)
    ensures result == if PushComplete(control, push) then Ok(PutPush(bank, push, control.push)) else Err(InvalidUsage)
  {
    if push.None? {
      return Ok(bank);
    }
    var block := push.value;
    var complete := EveryPushed(control, block);
    if !complete {
      return Err(InvalidUsage);
    }
    var start := block.firstRegister * 4;
    var filled := bank;
    var i := 0;
    PushFits(block, |bank|);
    while i < block.size / 4
      invariant 0 <= i <= block.size / 4 && start + block.size / 4 <= |filled| == |bank|
      invariant forall j :: 0 <= j < |bank| ==>
        filled[j] == if start <= j < start + i then Word(control.push, 4 * (j - start)) else bank[j]
    {
      filled := filled[start + i := Word(control.push, 4 * i)];
      i := i + 1;
    }
    assert filled == PutPush(bank, push, control.push);
    return Ok(filled);
  }

  method EveryPushed(control: Control, block: PushBlock) returns (complete: bool)
    requires |control.pushSet| == 128
    ensures complete == PushComplete(control, Some(block))
  {
    for r := 0 to |block.required|
      invariant PushComplete(control, Some(block.(required := block.required[..r])))
    {
      var one := RangePushed(control, block.required[r].0, Min(block.required[r].1, 128));
      if !one {
        return false;
      }
    }
    assert block.required[..|block.required|] == block.required;
    return true;
  }

  method RangePushed(control: Control, from: nat, to: int) returns (complete: bool)
    requires to <= |control.pushSet|
    ensures complete <==> forall b :: from <= b < to ==> control.pushSet[b]
  {
    var b := from;
    while b < to
      invariant forall c :: from <= c < b && c < to ==> control.pushSet[c]
    {
      if !control.pushSet[b] {
        return false;
      }
      b := b + 1;
    }
    return true;
  }

  lemma PushFits(block: PushBlock, length: nat)
    requires PushEnd(block) <= length
    ensures block.firstRegister * 4 + block.size / 4 <= length
  {
  }

  lemma StoragesLater(
    table: Table, groups: seq<Option<nat>>, before: seq<nat>, slots: seq<nat>, storages: seq<StorageBinding>,
    bindings: seq<Binding>, bounds: seq<Bound>)
    requires before <= slots && StoragesBound(table, groups, before, storages, bindings, bounds)
    ensures StoragesBound(table, groups, slots, storages, bindings, bounds)
  {
    forall j | 0 <= j < |storages| ensures BindingMatches(slots, bindings[j], storages[j], bounds[j]) {
      assert BindingMatches(before, bindings[j], storages[j], bounds[j]);
    }
  }

  ghost predicate StoragesBound(
    table: Table, groups: seq<Option<nat>>, slots: seq<nat>, storages: seq<StorageBinding>, bindings: seq<Binding>,
    bounds: seq<Bound>)
  {
    && |bindings| == |bounds| == |storages| && ResolveStorages(table, groups, storages) == Some(bounds)
    && forall j :: 0 <= j < |storages| ==> BindingMatches(slots, bindings[j], storages[j], bounds[j])
  }

  ghost predicate UniformsBound(
    table: Table, groups: seq<Option<nat>>, slots: seq<nat>, buffers: seq<seq<byte>>, uniforms: seq<UniformBinding>,
    planned: seq<Uniform>, bounds: seq<Bound>)
  {
    && |planned| == |bounds| == |uniforms| && ResolveUniforms(table, groups, uniforms) == Some(bounds)
    && forall j :: 0 <= j < |uniforms| ==> UniformMatches(slots, buffers, planned[j], uniforms[j], bounds[j])
  }

  lemma StorageNext(
    table: Table, groups: seq<Option<nat>>, before: seq<nat>, slots: seq<nat>, storages: seq<StorageBinding>, k: nat,
    bindings: seq<Binding>, bounds: seq<Bound>, binding: Binding, bound: Bound)
    requires k < |storages| && before <= slots && StoragesBound(table, groups, before, storages[..k], bindings, bounds)
    requires Resolve(table, groups, storages[k].group, storages[k].binding) == Some(bound)
    requires BindingMatches(slots, binding, storages[k], bound)
    ensures StoragesBound(table, groups, slots, storages[..k + 1], bindings + [binding], bounds + [bound])
  {
    assert storages[..k + 1][..k] == storages[..k];
    forall j | 0 <= j < k ensures BindingMatches(slots, bindings[j], storages[j], bounds[j]) {
      assert BindingMatches(before, bindings[j], storages[..k][j], bounds[j]);
    }
  }

  lemma UniformNext(
    table: Table, groups: seq<Option<nat>>, before: seq<nat>, beforeBuffers: seq<seq<byte>>, slots: seq<nat>,
    buffers: seq<seq<byte>>, uniforms: seq<UniformBinding>, k: nat, planned: seq<Uniform>, bounds: seq<Bound>,
    one: Uniform, bound: Bound)
    requires k < |uniforms| && before <= slots && beforeBuffers <= buffers && |slots| == |buffers|
    requires UniformsBound(table, groups, before, beforeBuffers, uniforms[..k], planned, bounds)
    requires Resolve(table, groups, uniforms[k].group, uniforms[k].binding) == Some(bound)
    requires UniformMatches(slots, buffers, one, uniforms[k], bound)
    ensures UniformsBound(table, groups, slots, buffers, uniforms[..k + 1], planned + [one], bounds + [bound])
    ensures UniformWords(uniforms[..k + 1])
         == Max(UniformWords(uniforms[..k]), uniforms[k].firstRegister * 4 + CeilDiv(uniforms[k].size, 16) * 4)
  {
    assert uniforms[..k + 1][..k] == uniforms[..k];
    forall j | 0 <= j < k ensures UniformMatches(slots, buffers, planned[j], uniforms[j], bounds[j]) {
      assert UniformMatches(before, beforeBuffers, planned[j], uniforms[..k][j], bounds[j]);
    }
  }
}
