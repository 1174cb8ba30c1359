/**
 When a compute stream can be planned: what each command must satisfy, and the
 host memory the whole stream makes the planner hold.
 */
module ComputeCost {
  import opened Common
  import BP = BufferPlan
  import opened Compute

  /** What a planner holds: the staged buffers, the compiled pipelines and the bytes charged so far. */
  datatype Held = Held(slots: seq<nat>, pipelines: seq<nat>, bytes: nat)

  function Charge(h: Held, bytes: nat): Held { h.(bytes := h.bytes + bytes) }

  /** A buffer is charged once, at its size. */
  function HoldBuffer(table: Table, h: Held, slot: nat): Held {
    if slot in h.slots || slot >= |table.buffers| then h
    else Held(h.slots + [slot], h.pipelines, h.bytes + table.buffers[slot].size)
  }

  /** A pipeline is charged once, at the length of its shader text. */
  function HoldPipeline(table: Table, h: Held, id: nat): Held {
    if id in h.pipelines || table.compile(id).None? then h
    else Held(h.slots, h.pipelines + [id], h.bytes + table.compile(id).value.text)
  }

  function HoldBound(table: Table, h: Held, bound: Option<Bound>): Held {
    if bound.None? then h else HoldBuffer(table, h, bound.value.slot)
  }

  function HoldStorages(table: Table, groups: seq<Option<nat>>, h: Held, storages: seq<StorageBinding>): Held {
    if storages == [] then h
    else
      var n := |storages| - 1;
      HoldBound(table, HoldStorages(table, groups, h, storages[..n]),
        Resolve(table, groups, storages[n].group, storages[n].binding))
  }

  function HoldUniforms(table: Table, groups: seq<Option<nat>>, h: Held, uniforms: seq<UniformBinding>): Held {
    if uniforms == [] then h
    else
      var n := |uniforms| - 1;
      HoldBound(table, HoldUniforms(table, groups, h, uniforms[..n]),
        Resolve(table, groups, uniforms[n].group, uniforms[n].binding))
  }

  /** The bank, the bindings and the uniforms of a dispatch. */
  function DispatchBytes(table: Table, shader: Shader): nat {
    BankWords(shader) * 4 + |shader.storages| * table.bindingBytes + |shader.uniforms| * table.uniformBytes
  }

  function HoldDispatch(table: Table, c: Control, h: Held): Held {
    if c.pipeline.None? then h
    else
      var shader := c.pipeline.value.1;
      HoldUniforms(table, c.groups,
        HoldStorages(table, c.groups, Charge(h, DispatchBytes(table, shader)), shader.storages), shader.uniforms)
  }

  /** What a command adds to what is held, its own record not counted. */
  function HoldCommand(table: Table, c: Control, h: Held, command: Command): Held {
    match command
    case WriteBuffer(b, _, _) => HoldBuffer(table, h, b)
    case CopyBufferToBuffer(s, _, d, _, _) => HoldBuffer(table, HoldBuffer(table, h, s), d)
    case Dispatch(_, _, _) => HoldDispatch(table, c, h)
    case SetComputePipeline(p) => HoldPipeline(table, h, p)
    case _ => h
  }

  /** Everything held after a stream. */
  function HoldStream(table: Table, commands: seq<Command>): Held {
    if commands == [] then Held([], [], 0)
    else
      var n := |commands| - 1;
      HoldCommand(table, ControlAfter(table, commands[..n]),
        Charge(HoldStream(table, commands[..n]), table.eventBytes), commands[n])
  }

  /** A buffer the planner accepts at all. */
  predicate Stageable(table: Table, shadows: seq<BP.BufferShadow>, slot: nat)
    requires |table.buffers| <= |shadows|
  {
    && slot < |table.buffers| && 0 < table.buffers[slot].size <= MAX_BUFFER && table.buffers[slot].size % 4 == 0
    && shadows[slot].revision < MAX_WORD
  }

  /** The binding resolves in a group laid out as the pipeline expects. */
  predicate LaidOut(table: Table, c: Control, pipeline: nat, group: nat, binding: nat) {
    && Resolve(table, c.groups, group, binding).Some?
    && group < |table.layouts(pipeline)|
    && table.layouts(pipeline)[group] == table.bindGroups[c.groups[group].value].layout
  }

  predicate StorageFits(
    table: Table, shadows: seq<BP.BufferShadow>, c: Control, pipeline: nat, storage: StorageBinding)
    requires |table.buffers| <= |shadows|
  {
    && LaidOut(table, c, pipeline, storage.group, storage.binding)
    && var bound := Resolve(table, c.groups, storage.group, storage.binding).value;
       && Stageable(table, shadows, bound.slot) && table.buffers[bound.slot].storage
       && 0 < bound.size <= 262144 && bound.offset % 4 == 0 && bound.size % 4 == 0
       && bound.offset + bound.size <= table.buffers[bound.slot].size
  }

  predicate UniformFits(
    table: Table, shadows: seq<BP.BufferShadow>, c: Control, pipeline: nat, uniform: UniformBinding)
    requires |table.buffers| <= |shadows|
  {
    && LaidOut(table, c, pipeline, uniform.group, uniform.binding)
    && var bound := Resolve(table, c.groups, uniform.group, uniform.binding).value;
       && Stageable(table, shadows, bound.slot) && table.buffers[bound.slot].uniform
       && uniform.requiredSize <= bound.size <= 16384 && bound.offset % 4 == 0
       && bound.offset + bound.size <= table.buffers[bound.slot].size
  }

  /** Every byte the shader needs was pushed in this pass. */
  predicate PushComplete(control: Control, push: Option<PushBlock>)
  {
    push.Some? ==>
      forall r :: 0 <= r < |push.value.required| ==>
        forall b :: push.value.required[r].0 <= b < push.value.required[r].1 && b < |control.pushSet| ==>
          control.pushSet[b]
  }

  /** Pass commands only inside a compute pass, transfers and barriers only outside. */
  predicate InPlace(active: bool, command: Command) {
    match command
    case BeginComputePass => !active
    case WriteBuffer(_, _, _) => !active
    case CopyBufferToBuffer(_, _, _, _, _) => !active
    case GlobalBarrier => !active
    case BufferBarrier(_) => !active
    case Graphics => false
    case _ => active
  }

  /** One buffer taken: accepted, and within the limit. */
  function TakeBuffer(table: Table, shadows: seq<BP.BufferShadow>, h: Held, slot: nat): Option<Held>
    requires |table.buffers| <= |shadows|
  {
    if Stageable(table, shadows, slot) then Within(HoldBuffer(table, h, slot)) else None
  }

  function Within(h: Held): Option<Held> { if h.bytes <= RETAIN_LIMIT then Some(h) else None }

  function TakePipeline(table: Table, h: Held, id: nat): Option<Held> {
    if table.compile(id).Some? then Within(HoldPipeline(table, h, id)) else None
  }

  function TakeStorage(
    table: Table, shadows: seq<BP.BufferShadow>, c: Control, pipeline: nat, h: Held, storage: StorageBinding)
    : Option<Held>
    requires |table.buffers| <= |shadows|
  {
    if StorageFits(table, shadows, c, pipeline, storage)
    then Within(HoldBound(table, h, Resolve(table, c.groups, storage.group, storage.binding))) else None
  }

  function TakeUniform(
    table: Table, shadows: seq<BP.BufferShadow>, c: Control, pipeline: nat, h: Held, uniform: UniformBinding)
    : Option<Held>
    requires |table.buffers| <= |shadows|
  {
    if UniformFits(table, shadows, c, pipeline, uniform)
    then Within(HoldBound(table, h, Resolve(table, c.groups, uniform.group, uniform.binding))) else None
  }

  function TakeStorages(
    table: Table, shadows: seq<BP.BufferShadow>, c: Control, pipeline: nat, h: Held, storages: seq<StorageBinding>)
    : Option<Held>
    requires |table.buffers| <= |shadows|
  {
    if storages == [] then Some(h)
    else
      var n := |storages| - 1;
      var before := TakeStorages(table, shadows, c, pipeline, h, storages[..n]);
      if before.None? then None else TakeStorage(table, shadows, c, pipeline, before.value, storages[n])
  }

  function TakeUniforms(
    table: Table, shadows: seq<BP.BufferShadow>, c: Control, pipeline: nat, h: Held, uniforms: seq<UniformBinding>)
    : Option<Held>
    requires |table.buffers| <= |shadows|
  {
    if uniforms == [] then Some(h)
    else
      var n := |uniforms| - 1;
      var before := TakeUniforms(table, shadows, c, pipeline, h, uniforms[..n]);
      if before.None? then None else TakeUniform(table, shadows, c, pipeline, before.value, uniforms[n])
  }

  /** What one more binding decides; a refusal refuses them all. */
  lemma {:induction false} StoragesTaken(
    table: Table, shadows: seq<BP.BufferShadow>, c: Control, pipeline: nat, h: Held, storages: seq<StorageBinding>,
    k: nat)
    requires |table.buffers| <= |shadows| && k < |storages|
    ensures var before := TakeStorages(table, shadows, c, pipeline, h, storages[..k]);
      var next := TakeStorages(table, shadows, c, pipeline, h, storages[..k + 1]);
      && next == (if before.None? then None else TakeStorage(table, shadows, c, pipeline, before.value, storages[k]))
      && (next.None? ==> TakeStorages(table, shadows, c, pipeline, h, storages).None?)
    decreases |storages|
  {
    assert storages[..k + 1][..k] == storages[..k];
    var n := |storages| - 1;
    if k == n {
      assert storages[..k + 1] == storages;
    } else {
      StoragesTaken(table, shadows, c, pipeline, h, storages[..n], k);
      assert storages[..n][..k] == storages[..k] && storages[..n][..k + 1] == storages[..k + 1];
    }
  }

  lemma {:induction false} UniformsTaken(
    table: Table, shadows: seq<BP.BufferShadow>, c: Control, pipeline: nat, h: Held, uniforms: seq<UniformBinding>,
    k: nat)
    requires |table.buffers| <= |shadows| && k < |uniforms|
    ensures var before := TakeUniforms(table, shadows, c, pipeline, h, uniforms[..k]);
      var next := TakeUniforms(table, shadows, c, pipeline, h, uniforms[..k + 1]);
      && next == (if before.None? then None else TakeUniform(table, shadows, c, pipeline, before.value, uniforms[k]))
      && (next.None? ==> TakeUniforms(table, shadows, c, pipeline, h, uniforms).None?)
    decreases |uniforms|
  {
    assert uniforms[..k + 1][..k] == uniforms[..k];
    var n := |uniforms| - 1;
    if k == n {
      assert uniforms[..k + 1] == uniforms;
    } else {
      UniformsTaken(table, shadows, c, pipeline, h, uniforms[..n], k);
      assert uniforms[..n][..k] == uniforms[..k] && uniforms[..n][..k + 1] == uniforms[..k + 1];
    }
  }

  predicate Dimensions(x: nat, y: nat, z: nat) { 0 < x <= 65535 && 0 < y <= 65535 && 0 < z <= 65535 }

  /** The bindings of a dispatch: storages first, then uniforms. */
  function TakeBindings(
    table: Table, shadows: seq<BP.BufferShadow>, c: Control, pipeline: nat, h: Held, shader: Shader): Option<Held>
    requires |table.buffers| <= |shadows|
  {
    var storages := TakeStorages(table, shadows, c, pipeline, h, shader.storages);
    if storages.None? then None else TakeUniforms(table, shadows, c, pipeline, storages.value, shader.uniforms)
  }

  function TakeDispatch(table: Table, shadows: seq<BP.BufferShadow>, c: Control, h: Held, x: nat, y: nat, z: nat)
    : Option<Held>
    requires |table.buffers| <= |shadows|
  {
    if !Dimensions(x, y, z) || c.pipeline.None? then None
    else
      var id, shader := c.pipeline.value.0, c.pipeline.value.1;
      var charged := Within(Charge(h, DispatchBytes(table, shader)));
      if charged.None? || !PushComplete(c, shader.push) then None
      else TakeBindings(table, shadows, c, id, charged.value, shader)
  }

  predicate WriteFits(table: Table, shadows: seq<BP.BufferShadow>, buffer: nat, offset: nat, length: nat)
    requires |table.buffers| <= |shadows|
  {
    && Stageable(table, shadows, buffer) && table.buffers[buffer].copyDst
    && offset + length <= table.buffers[buffer].size
  }

  predicate CopyFits(
    table: Table, shadows: seq<BP.BufferShadow>, source: nat, sourceOffset: nat, destination: nat,
    destinationOffset: nat, size: nat)
    requires |table.buffers| <= |shadows|
  {
    && Stageable(table, shadows, source) && table.buffers[source].copySrc
    && sourceOffset + size <= table.buffers[source].size
    && WriteFits(table, shadows, destination, destinationOffset, size)
    && (source == destination ==>
          sourceOffset >= destinationOffset + size || destinationOffset >= sourceOffset + size)
  }

  function TakeCopy(
    table: Table, shadows: seq<BP.BufferShadow>, h: Held, source: nat, sourceOffset: nat, destination: nat,
    destinationOffset: nat, size: nat): Option<Held>
    requires |table.buffers| <= |shadows|
  {
    var first := TakeBuffer(table, shadows, h, source);
    if !CopyFits(table, shadows, source, sourceOffset, destination, destinationOffset, size) || first.None? then None
    else TakeBuffer(table, shadows, first.value, destination)
  }

  /** What a command that only moves the pass on must satisfy. */
  predicate StateFits(table: Table, c: Control, command: Command) {
    match command
    case SetComputePipeline(p) => table.compile(p).Some?
    case SetBindGroup(index, _) => index < |c.groups|
    case SetPushConstants(compute, at, data) => compute && at % 4 == 0 && |data| % 4 == 0 && at + |data| <= 128
    case BufferBarrier(b) => b < |table.buffers|
    case _ => true
  }

  function TakeCommand(table: Table, shadows: seq<BP.BufferShadow>, c: Control, h: Held, command: Command)
    : Option<Held>
    requires |table.buffers| <= |shadows|
  {
    if !InPlace(c.active, command) then None
    else
      match command
      case WriteBuffer(b, offset, data) =>
        if WriteFits(table, shadows, b, offset, |data|) then TakeBuffer(table, shadows, h, b) else None
      case CopyBufferToBuffer(s, from, d, to, size) =>
        TakeCopy(table, shadows, h, s, from, d, to, size)
      case Dispatch(x, y, z) => TakeDispatch(table, shadows, c, h, x, y, z)
      case SetComputePipeline(p) => TakePipeline(table, h, p)
      case _ => if StateFits(table, c, command) then Some(h) else None
  }

  /** The whole stream taken, each command paid for before it is looked at. */
  function TakeStream(table: Table, shadows: seq<BP.BufferShadow>, commands: seq<Command>): Option<Held>
    requires |table.buffers| <= |shadows|
  {
    if commands == [] then Some(Held([], [], 0))
    else
      var n := |commands| - 1;
      var before := TakeStream(table, shadows, commands[..n]);
      if before.None? then None
      else TakeNext(table, shadows, ControlAfter(table, commands[..n]), before.value, commands[n])
  }

  function TakeNext(table: Table, shadows: seq<BP.BufferShadow>, c: Control, h: Held, command: Command): Option<Held>
    requires |table.buffers| <= |shadows|
  {
    var charged := Within(Charge(h, table.eventBytes));
    if charged.None? then None else TakeCommand(table, shadows, c, charged.value, command)
  }

  lemma {:induction false} StreamTaken(
    table: Table, shadows: seq<BP.BufferShadow>, commands: seq<Command>, k: nat)
    requires |table.buffers| <= |shadows| && k < |commands|
    ensures var before := TakeStream(table, shadows, commands[..k]);
      var next := TakeStream(table, shadows, commands[..k + 1]);
      && next == (if before.None? then None
                  else TakeNext(table, shadows, ControlAfter(table, commands[..k]), before.value, commands[k]))
      && (next.None? ==> TakeStream(table, shadows, commands).None?)
    decreases |commands|
  {
    assert commands[..k + 1][..k] == commands[..k];
    var n := |commands| - 1;
    if k == n {
      assert commands[..k + 1] == commands;
    } else {
      StreamTaken(table, shadows, commands[..n], k);
      assert commands[..n][..k] == commands[..k] && commands[..n][..k + 1] == commands[..k + 1];
    }
  }

  // ------------------------------------------------------- the exact condition

  ghost predicate DispatchFits(table: Table, shadows: seq<BP.BufferShadow>, c: Control, x: nat, y: nat, z: nat)
    requires |table.buffers| <= |shadows|
  {
    && Dimensions(x, y, z) && c.pipeline.Some?
    && var id, shader := c.pipeline.value.0, c.pipeline.value.1;
       && PushComplete(c, shader.push)
       && (forall k :: 0 <= k < |shader.storages| ==> StorageFits(table, shadows, c, id, shader.storages[k]))
       && (forall k :: 0 <= k < |shader.uniforms| ==> UniformFits(table, shadows, c, id, shader.uniforms[k]))
  }

  /** What a command must satisfy where it stands, whatever is held. */
  ghost predicate CommandFits(table: Table, shadows: seq<BP.BufferShadow>, c: Control, command: Command)
    requires |table.buffers| <= |shadows|
  {
    && InPlace(c.active, command)
    && match command
       case WriteBuffer(b, offset, data) => WriteFits(table, shadows, b, offset, |data|)
       case CopyBufferToBuffer(s, from, d, to, size) => CopyFits(table, shadows, s, from, d, to, size)
       case Dispatch(x, y, z) => DispatchFits(table, shadows, c, x, y, z)
       case _ => StateFits(table, c, command)
  }

  lemma {:induction false} StoragesExactly(
    table: Table, shadows: seq<BP.BufferShadow>, c: Control, pipeline: nat, h: Held, storages: seq<StorageBinding>)
    requires |table.buffers| <= |shadows| && h.bytes <= RETAIN_LIMIT
    ensures h.bytes <= HoldStorages(table, c.groups, h, storages).bytes
    ensures TakeStorages(table, shadows, c, pipeline, h, storages)
      == if forall k :: 0 <= k < |storages| ==> StorageFits(table, shadows, c, pipeline, storages[k])
         then Within(HoldStorages(table, c.groups, h, storages)) else None
  {
    if storages != [] {
      var n := |storages| - 1;
      StoragesExactly(table, shadows, c, pipeline, h, storages[..n]);
      assert forall k :: 0 <= k < n ==> storages[..n][k] == storages[k];
    }
  }

  lemma {:induction false} UniformsExactly(
    table: Table, shadows: seq<BP.BufferShadow>, c: Control, pipeline: nat, h: Held, uniforms: seq<UniformBinding>)
    requires |table.buffers| <= |shadows| && h.bytes <= RETAIN_LIMIT
    ensures h.bytes <= HoldUniforms(table, c.groups, h, uniforms).bytes
    ensures TakeUniforms(table, shadows, c, pipeline, h, uniforms)
      == if forall k :: 0 <= k < |uniforms| ==> UniformFits(table, shadows, c, pipeline, uniforms[k])
         then Within(HoldUniforms(table, c.groups, h, uniforms)) else None
  {
    if uniforms != [] {
      var n := |uniforms| - 1;
      UniformsExactly(table, shadows, c, pipeline, h, uniforms[..n]);
      assert forall k :: 0 <= k < n ==> uniforms[..n][k] == uniforms[k];
    }
  }

  lemma {:induction false} UniformsHeld(table: Table, groups: seq<Option<nat>>, h: Held, uniforms: seq<UniformBinding>)
    ensures h.bytes <= HoldUniforms(table, groups, h, uniforms).bytes
  {
    if uniforms != [] {
      UniformsHeld(table, groups, h, uniforms[..|uniforms| - 1]);
    }
  }

  lemma {:induction false} StoragesHeld(table: Table, groups: seq<Option<nat>>, h: Held, storages: seq<StorageBinding>)
    ensures h.bytes <= HoldStorages(table, groups, h, storages).bytes
  {
    if storages != [] {
      StoragesHeld(table, groups, h, storages[..|storages| - 1]);
    }
  }

  lemma DispatchExactly(
    table: Table, shadows: seq<BP.BufferShadow>, c: Control, h: Held, x: nat, y: nat, z: nat)
    requires |table.buffers| <= |shadows| && h.bytes <= RETAIN_LIMIT
    ensures h.bytes <= HoldDispatch(table, c, h).bytes
    ensures TakeDispatch(table, shadows, c, h, x, y, z)
      == if DispatchFits(table, shadows, c, x, y, z) then Within(HoldDispatch(table, c, h)) else None
  {
    if c.pipeline.Some? {
      var id, shader := c.pipeline.value.0, c.pipeline.value.1;
      var charged := Charge(h, DispatchBytes(table, shader));
      var stored := HoldStorages(table, c.groups, charged, shader.storages);
      StoragesHeld(table, c.groups, charged, shader.storages);
      UniformsHeld(table, c.groups, stored, shader.uniforms);
      if charged.bytes <= RETAIN_LIMIT {
        StoragesExactly(table, shadows, c, id, charged, shader.storages);
        if stored.bytes <= RETAIN_LIMIT {
          UniformsExactly(table, shadows, c, id, stored, shader.uniforms);
        }
      }
    }
  }

  lemma CommandExactly(table: Table, shadows: seq<BP.BufferShadow>, c: Control, h: Held, command: Command)
    requires |table.buffers| <= |shadows| && h.bytes <= RETAIN_LIMIT
    ensures h.bytes <= HoldCommand(table, c, h, command).bytes
    ensures TakeCommand(table, shadows, c, h, command)
      == if CommandFits(table, shadows, c, command) then Within(HoldCommand(table, c, h, command)) else None
  {
    if command.Dispatch? {
      DispatchExactly(table, shadows, c, h, command.x, command.y, command.z);
    }
  }

  /** Every command fits where it stands. */
  ghost predicate StreamFits(table: Table, shadows: seq<BP.BufferShadow>, commands: seq<Command>)
    requires |table.buffers| <= |shadows|
  {
    forall k :: 0 <= k < |commands| ==> CommandFits(table, shadows, ControlAfter(table, commands[..k]), commands[k])
  }

  lemma StreamFitsNext(table: Table, shadows: seq<BP.BufferShadow>, commands: seq<Command>)
    requires |table.buffers| <= |shadows| && commands != []
    ensures var n := |commands| - 1;
      StreamFits(table, shadows, commands) ==
        (StreamFits(table, shadows, commands[..n])
         && CommandFits(table, shadows, ControlAfter(table, commands[..n]), commands[n]))
  {
    var n := |commands| - 1;
    forall k | 0 <= k < n ensures commands[..n][..k] == commands[..k] && commands[..n][k] == commands[k] {
    }
    if StreamFits(table, shadows, commands) {
      forall k | 0 <= k < n
        ensures CommandFits(table, shadows, ControlAfter(table, commands[..n][..k]), commands[..n][k])
      {
        assert commands[..n][..k] == commands[..k];
      }
    }
    if StreamFits(table, shadows, commands[..n]) {
      forall k | 0 <= k < n ensures CommandFits(table, shadows, ControlAfter(table, commands[..k]), commands[k]) {
        assert commands[..n][..k] == commands[..k] && commands[..n][k] == commands[k];
      }
    }
  }

  /** A stream is taken exactly when all its commands fit and all it makes the planner hold fits the limit. */
  lemma {:induction false} StreamExactly(table: Table, shadows: seq<BP.BufferShadow>, commands: seq<Command>)
    requires |table.buffers| <= |shadows|
    ensures TakeStream(table, shadows, commands)
      == if StreamFits(table, shadows, commands) then Within(HoldStream(table, commands)) else None
  {
    if commands != [] {
      var n := |commands| - 1;
      StreamExactly(table, shadows, commands[..n]);
      StreamFitsNext(table, shadows, commands);
      var h, c := HoldStream(table, commands[..n]), ControlAfter(table, commands[..n]);
      var charged := Charge(h, table.eventBytes);
      CommandHeld(table, c, charged, commands[n]);
      if charged.bytes <= RETAIN_LIMIT {
        CommandExactly(table, shadows, c, charged, commands[n]);
      }
    }
  }

  lemma CommandHeld(table: Table, c: Control, h: Held, command: Command)
    ensures h.bytes <= HoldCommand(table, c, h, command).bytes
  {
    if command.Dispatch? && c.pipeline.Some? {
      var shader := c.pipeline.value.1;
      var charged := Charge(h, DispatchBytes(table, shader));
      StoragesHeld(table, c.groups, charged, shader.storages);
      UniformsHeld(table, c.groups, HoldStorages(table, c.groups, charged, shader.storages), shader.uniforms);
    }
  }
}
