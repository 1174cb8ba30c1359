/**
 Compute streams: a planner stages the buffers a stream touches and records its
 events, an executor runs them against the device, and the result is published
 only when all of it succeeded. The reference interpreter runs the recorded
 commands one at a time on the resources themselves, with the kernel of a
 dispatch left uninterpreted.
 */
module Compute {
  import opened Common
  import opened BufferPlan

  const RETAIN_LIMIT: nat := 67108864
  const MAX_BUFFER: nat := 1048576

  // ------------------------------------------------------------ recorded side

  datatype BufferDesc = BufferDesc(size: nat, storage: bool, uniform: bool, copySrc: bool, copyDst: bool)
  datatype StorageBinding = StorageBinding(group: nat, binding: nat, slot: nat, firstRegister: nat, writable: bool)
  datatype UniformBinding = UniformBinding(group: nat, binding: nat, firstRegister: nat, size: nat, requiredSize: nat)
  datatype PushBlock = PushBlock(firstRegister: nat, size: nat, required: seq<(nat, nat)>)
  datatype Shader = Shader(
    text: nat, storages: seq<StorageBinding>, uniforms: seq<UniformBinding>, push: Option<PushBlock>)

  datatype Resource = BufferResource(buffer: nat, offset: nat, size: nat) | OtherResource
  datatype BindGroup = BindGroup(layout: nat, entries: map<nat, Resource>)

  datatype Command =
    | BeginComputePass
    | EndComputePass
    | SetComputePipeline(pipeline: nat)
    | SetBindGroup(index: nat, bindGroup: nat)
    | SetPushConstants(compute: bool, pushOffset: nat, pushData: seq<byte>)
    | Dispatch(x: nat, y: nat, z: nat)
    | WriteBuffer(buffer: nat, offset: nat, data: seq<byte>)
    | CopyBufferToBuffer(source: nat, sourceOffset: nat, destination: nat, destinationOffset: nat, size: nat)
    | GlobalBarrier
    | BufferBarrier(barrier: nat)
    | Graphics

  datatype ComputeError =
    | Overflow | OutOfBounds | InvalidUsage | InvalidReference | BindingLayoutMismatch | SubmissionTooLarge
    | ResourceBindings | CommandSequence | ShaderCompile | Device

  /** The table a stream was recorded against; pipelines compile to a shader or not at all. */
  datatype Table = Table(
    buffers: seq<BufferDesc>, bindGroups: seq<BindGroup>, layouts: nat -> seq<nat>, compile: nat -> Option<Shader>,
    eventBytes: nat, bindingBytes: nat, uniformBytes: nat)

  /** What the shader compiler guarantees of the register ranges it assigns. */
  predicate WellFormedShader(shader: Shader) {
    && (forall u :: 0 <= u < |shader.uniforms| ==> shader.uniforms[u].requiredSize <= shader.uniforms[u].size)
    && (shader.push.Some? ==>
          && shader.push.value.size <= 128
          && forall r :: 0 <= r < |shader.push.value.required| ==>
               shader.push.value.required[r].0 <= shader.push.value.required[r].1 <= 128)
  }

  ghost predicate WellFormedTable(table: Table) {
    forall p :: table.compile(p).Some? ==> WellFormedShader(table.compile(p).value)
  }

  function CeilDiv(a: nat, b: nat): nat
    requires b > 0
  {
    (a + b - 1) / b
  }

  /** Registers come in four words; the bank ends after the last one any binding uses. */
  function UniformEnd(u: UniformBinding): nat { (u.firstRegister + CeilDiv(u.size, 16)) * 4 }
  function StorageEnd(s: StorageBinding): nat { (s.firstRegister + 1) * 4 }
  function PushEnd(p: PushBlock): nat { (p.firstRegister + CeilDiv(p.size, 16)) * 4 }

  function StorageWords(storages: seq<StorageBinding>): (r: nat)
    ensures forall k :: 0 <= k < |storages| ==> StorageEnd(storages[k]) <= r
  {
    if storages == [] then 0
    else Max(StorageWords(storages[..|storages| - 1]), StorageEnd(storages[|storages| - 1]))
  }

  function UniformWords(uniforms: seq<UniformBinding>): (r: nat)
    ensures forall k :: 0 <= k < |uniforms| ==> UniformEnd(uniforms[k]) <= r
  {
    if uniforms == [] then 0
    else Max(UniformWords(uniforms[..|uniforms| - 1]), UniformEnd(uniforms[|uniforms| - 1]))
  }

  function BankWords(shader: Shader): nat {
    Max(Max(UniformWords(shader.uniforms), StorageWords(shader.storages)),
        if shader.push.Some? then PushEnd(shader.push.value) else 0)
  }

  // ---------------------------------------------------------------- reference

  /** A buffer range a binding resolved to. */
  datatype Bound = Bound(slot: nat, offset: nat, size: nat)

  datatype Effect =
    | Written(slot: nat, offset: nat, data: seq<byte>)
    | Copied(source: nat, sourceOffset: nat, destination: nat, destinationOffset: nat, size: nat)
    | Dispatched(shader: Shader, push: seq<byte>, storages: seq<Bound>, uniforms: seq<Bound>, groups: (nat, nat, nat))

  /**
   A kernel sees the shader, its constants, the binding slots with the backing
   each one names, the contents of the distinct backings and the group counts.
   */
  type Kernel = (Shader, seq<nat>, seq<(nat, nat)>, seq<seq<byte>>, (nat, nat, nat)) -> seq<seq<byte>>

  function Word(bytes: seq<byte>, at: nat): nat {
    ByteAt(bytes, at) as nat + 256 * (ByteAt(bytes, at + 1) as nat) + 65536 * (ByteAt(bytes, at + 2) as nat)
    + 16777216 * (ByteAt(bytes, at + 3) as nat)
  }

  /** Little-endian words of `length / 4` whole words from `offset`. */
  function Words(bytes: seq<byte>, offset: nat, length: nat): (r: seq<nat>)
    ensures |r| == length / 4
  {
    seq(length / 4, i requires 0 <= i => Word(bytes, offset + 4 * i))
  }

  /** `words` written at `at`, as far as the bank reaches. */
  function Put(bank: seq<nat>, at: nat, words: seq<nat>): (r: seq<nat>)
    ensures |r| == |bank|
  {
    seq(|bank|, i requires 0 <= i < |bank| => if at <= i < at + |words| then words[i - at] else bank[i])
  }

  function PutStorages(bank: seq<nat>, storages: seq<StorageBinding>, bounds: seq<Bound>): (r: seq<nat>)
    requires |storages| == |bounds|
    ensures |r| == |bank|
  {
    if storages == [] then bank
    else
      var n := |storages| - 1;
      Put(PutStorages(bank, storages[..n], bounds[..n]), storages[n].firstRegister * 4,
        [bounds[n].offset, bounds[n].size])
  }

  function PutPush(bank: seq<nat>, push: Option<PushBlock>, bytes: seq<byte>): (r: seq<nat>)
    ensures |r| == |bank|
  {
    if push.None? then bank else Put(bank, push.value.firstRegister * 4, Words(bytes, 0, push.value.size))
  }

  function PutUniforms(bank: seq<nat>, uniforms: seq<UniformBinding>, bounds: seq<Bound>, memory: seq<seq<byte>>)
    : (r: seq<nat>)
    requires |uniforms| == |bounds| && forall k :: 0 <= k < |bounds| ==> bounds[k].slot < |memory|
    ensures |r| == |bank|
  {
    if uniforms == [] then bank
    else
      var n := |uniforms| - 1;
      Put(PutUniforms(bank, uniforms[..n], bounds[..n], memory), uniforms[n].firstRegister * 4,
          Words(memory[bounds[n].slot], bounds[n].offset, uniforms[n].requiredSize))
  }

  /** What the bank holds before any uniform buffer is read. */
  function StaticBank(shader: Shader, push: seq<byte>, storages: seq<Bound>): seq<nat>
    requires |storages| == |shader.storages|
  {
    PutPush(PutStorages(seq(BankWords(shader), _ => 0), shader.storages, storages), shader.push, push)
  }

  /** Distinct ids in order of first use. */
  function Distinct(ids: seq<nat>): (r: seq<nat>)
    ensures forall id :: id in r <==> id in ids
    ensures forall k :: 0 <= k < |r| ==> r[k] in ids
  {
    if ids == [] then []
    else
      var before := Distinct(ids[..|ids| - 1]);
      if ids[|ids| - 1] in before then before else before + [ids[|ids| - 1]]
  }

  function IndexIn(ids: seq<nat>, id: nat): (r: nat)
    ensures r <= |ids| && (r < |ids| ==> ids[r] == id) && (id in ids ==> r < |ids|)
  {
    if ids == [] then 0 else if ids[0] == id then 0 else 1 + IndexIn(ids[1..], id)
  }

  function Gather(memory: seq<seq<byte>>, ids: seq<nat>): (r: seq<seq<byte>>)
    requires forall k :: 0 <= k < |ids| ==> ids[k] < |memory|
    ensures |r| == |ids|
  {
    seq(|ids|, k requires 0 <= k < |ids| => memory[ids[k]])
  }

  /** The backing each storage binding uses, aliases sharing one. */
  function Aliases(storages: seq<StorageBinding>, ids: seq<nat>): seq<(nat, nat)>
    requires |storages| == |ids|
  {
    seq(|ids|, k requires 0 <= k < |ids| => (storages[k].slot, IndexIn(Distinct(ids), ids[k])))
  }

  predicate WritableId(storages: seq<StorageBinding>, ids: seq<nat>, id: nat)
    requires |storages| == |ids|
  {
    exists k :: 0 <= k < |ids| && ids[k] == id && storages[k].writable
  }

  /** Copy back: only buffers some binding may write change, and never in length. */
  function Launch(
    kernel: Kernel, memory: seq<seq<byte>>, shader: Shader, bank: seq<nat>, ids: seq<nat>, groups: (nat, nat, nat)):
    (r: seq<seq<byte>>)
    requires |ids| == |shader.storages| && forall k :: 0 <= k < |ids| ==> ids[k] < |memory|
    ensures |r| == |memory| && forall s :: 0 <= s < |memory| ==> |r[s]| == |memory[s]|
  {
    var backing := Distinct(ids);
    var out := kernel(shader, bank, Aliases(shader.storages, ids), Gather(memory, backing), groups);
    seq(|memory|, s requires 0 <= s < |memory| =>
      if WritableId(shader.storages, ids, s) && IndexIn(backing, s) < |out|
      then Slice(out[IndexIn(backing, s)], 0, |memory[s]|)
      else memory[s])
  }

  datatype Control = Control(
    active: bool, pipeline: Option<(nat, Shader)>, groups: seq<Option<nat>>, push: seq<byte>, pushSet: seq<bool>)

  function InitialControl(): Control {
    Control(false, None, [None, None, None, None], seq(128, _ => 0), seq(128, _ => false))
  }

  /** Every buffer as the resources hold it: the accepted contents, zero-extended to its size. */
  function InitialMemory(table: Table, shadows: seq<BufferShadow>): (r: seq<seq<byte>>)
    requires |table.buffers| <= |shadows|
    ensures |r| == |table.buffers|
  {
    seq(|table.buffers|, s requires 0 <= s < |table.buffers| => Slice(Contents(shadows[s]), 0, table.buffers[s].size))
  }

  function Resolve(table: Table, groups: seq<Option<nat>>, group: nat, binding: nat): Option<Bound> {
    if group < |groups| && groups[group].Some? && groups[group].value < |table.bindGroups| then
      var entries := table.bindGroups[groups[group].value].entries;
      if binding in entries && entries[binding].BufferResource?
      then Some(Bound(entries[binding].buffer, entries[binding].offset, entries[binding].size))
      else None
    else None
  }

  function ResolveStorages(table: Table, groups: seq<Option<nat>>, storages: seq<StorageBinding>)
    : (r: Option<seq<Bound>>)
    ensures r.Some? ==> |r.value| == |storages|
  {
    if storages == [] then Some([])
    else
      var n := |storages| - 1;
      var before := ResolveStorages(table, groups, storages[..n]);
      var bound := Resolve(table, groups, storages[n].group, storages[n].binding);
      if before.Some? && bound.Some? then Some(before.value + [bound.value]) else None
  }

  function ResolveUniforms(table: Table, groups: seq<Option<nat>>, uniforms: seq<UniformBinding>)
    : (r: Option<seq<Bound>>)
    ensures r.Some? ==> |r.value| == |uniforms|
  {
    if uniforms == [] then Some([])
    else
      var n := |uniforms| - 1;
      var before := ResolveUniforms(table, groups, uniforms[..n]);
      var bound := Resolve(table, groups, uniforms[n].group, uniforms[n].binding);
      if before.Some? && bound.Some? then Some(before.value + [bound.value]) else None
  }

  /** What a command does to memory, given the state of the pass it stands in. */
  function EffectOf(table: Table, c: Control, command: Command): Option<Effect> {
    match command
    case WriteBuffer(b, offset, data) => Some(Written(b, offset, data))
    case CopyBufferToBuffer(s, from, d, to, size) => Some(Copied(s, from, d, to, size))
    case Dispatch(x, y, z) =>
      if c.pipeline.None? then None
      else
        var shader := c.pipeline.value.1;
        var storages := ResolveStorages(table, c.groups, shader.storages);
        var uniforms := ResolveUniforms(table, c.groups, shader.uniforms);
        if storages.Some? && uniforms.Some?
        then Some(Dispatched(shader, c.push, storages.value, uniforms.value, (x, y, z))) else None
    case _ => None
  }

  function ControlStep(table: Table, c: Control, command: Command): Control {
    match command
    case BeginComputePass =>
      c.(active := true, pipeline := None, groups := [None, None, None, None], pushSet := seq(128, _ => false))
    case EndComputePass => c.(active := false)
    case SetComputePipeline(p) =>
      if table.compile(p).Some? then c.(pipeline := Some((p, table.compile(p).value))) else c
    case SetBindGroup(index, g) => if index < |c.groups| then c.(groups := c.groups[index := Some(g)]) else c
    case SetPushConstants(_, at, data) =>
      if |c.push| == 128 == |c.pushSet| && at + |data| <= 128
      then c.(push := CopyInto(c.push, at, data),
              pushSet := c.pushSet[..at] + seq(|data|, _ => true) + c.pushSet[at + |data|..])
      else c
    case _ => c
  }

  function Bounds(bounds: seq<Bound>): (r: seq<nat>)
    ensures |r| == |bounds|
  {
    seq(|bounds|, k requires 0 <= k < |bounds| => bounds[k].slot)
  }

  predicate InMemory(memory: seq<seq<byte>>, effect: Effect) {
    match effect
    case Written(s, _, _) => s < |memory|
    case Copied(s, _, d, _, _) => s < |memory| && d < |memory|
    case Dispatched(shader, _, storages, uniforms, _) =>
      && |storages| == |shader.storages| && |uniforms| == |shader.uniforms|
      && (forall k :: 0 <= k < |storages| ==> storages[k].slot < |memory|)
      && (forall k :: 0 <= k < |uniforms| ==> uniforms[k].slot < |memory|)
  }

  function Apply(kernel: Kernel, memory: seq<seq<byte>>, effect: Effect): (r: seq<seq<byte>>)
    requires InMemory(memory, effect)
    ensures |r| == |memory|
  {
    match effect
    case Written(s, offset, data) => memory[s := Overwrite(memory[s], offset, data)]
    case Copied(s, from, d, to, size) => memory[d := Overwrite(memory[d], to, Slice(memory[s], from, size))]
    case Dispatched(shader, push, storages, uniforms, groups) =>
      var bank := PutUniforms(StaticBank(shader, push, storages), shader.uniforms, uniforms, memory);
      Launch(kernel, memory, shader, bank, Bounds(storages), groups)
  }

  function ApplyAll(kernel: Kernel, memory: seq<seq<byte>>, effects: seq<Effect>): (r: seq<seq<byte>>)
    ensures |r| == |memory|
  {
    if effects == [] then memory
    else
      var before := ApplyAll(kernel, memory, effects[..|effects| - 1]);
      var effect := effects[|effects| - 1];
      if InMemory(before, effect) then Apply(kernel, before, effect) else before
  }

  /** The pass state after a stream. */
  function ControlAfter(table: Table, commands: seq<Command>): Control {
    if commands == [] then InitialControl()
    else ControlStep(table, ControlAfter(table, commands[..|commands| - 1]), commands[|commands| - 1])
  }

  /** Memory after running the stream one command at a time. */
  function InOrder(table: Table, kernel: Kernel, memory: seq<seq<byte>>, commands: seq<Command>): (r: seq<seq<byte>>)
    ensures |r| == |memory|
  {
    if commands == [] then memory
    else
      var before := commands[..|commands| - 1];
      var now := InOrder(table, kernel, memory, before);
      var effect := EffectOf(table, ControlAfter(table, before), commands[|commands| - 1]);
      if effect.Some? && InMemory(now, effect.value) then Apply(kernel, now, effect.value) else now
  }

  /** The memory effects of a stream, in order. */
  function Effects(table: Table, commands: seq<Command>): seq<Effect> {
    if commands == [] then []
    else
      var before := commands[..|commands| - 1];
      var effect := EffectOf(table, ControlAfter(table, before), commands[|commands| - 1]);
      Effects(table, before) + if effect.Some? then [effect.value] else []
  }

  lemma {:induction false} MemoryIsEffects(table: Table, kernel: Kernel, memory: seq<seq<byte>>, commands: seq<Command>)
    ensures InOrder(table, kernel, memory, commands) == ApplyAll(kernel, memory, Effects(table, commands))
  {
    if commands != [] {
      var before := commands[..|commands| - 1];
      MemoryIsEffects(table, kernel, memory, before);
      var effect := EffectOf(table, ControlAfter(table, before), commands[|commands| - 1]);
      if effect.Some? {
        assert (Effects(table, before) + [effect.value])[..|Effects(table, before)|] == Effects(table, before);
      } else {
        assert Effects(table, before) + [] == Effects(table, before);
      }
    }
  }

  // --------------------------------------------------------------- plan events

  datatype Uniform = Uniform(buffer: nat, offset: nat, length: nat, word: nat)
  datatype Binding = Binding(slot: nat, buffer: nat, writable: bool)

  datatype Event =
    | WriteEvent(buffer: nat, offset: nat, data: seq<byte>)
    | CopyEvent(source: nat, sourceOffset: nat, destination: nat, destinationOffset: nat, size: nat)
    | DispatchEvent(
        shader: Shader, constants: seq<nat>, uniforms: seq<Uniform>, bindings: seq<Binding>, groups: (nat, nat, nat))

  function Buffers(bindings: seq<Binding>): (r: seq<nat>)
    ensures |r| == |bindings|
  {
    seq(|bindings|, k requires 0 <= k < |bindings| => bindings[k].buffer)
  }

  predicate UniformMatches(slots: seq<nat>, buffers: seq<seq<byte>>, u: Uniform, binding: UniformBinding, bound: Bound)
  {
    && u.buffer < |slots| == |buffers| && slots[u.buffer] == bound.slot && u.offset == bound.offset
    && u.length == binding.requiredSize && u.word == binding.firstRegister * 4
    && u.offset + u.length <= |buffers[u.buffer]|
  }

  predicate BindingMatches(slots: seq<nat>, b: Binding, storage: StorageBinding, bound: Bound) {
    b.buffer < |slots| && slots[b.buffer] == bound.slot && b.slot == storage.slot && b.writable == storage.writable
  }

  /** A planned event says of plan indices what the effect says of resource slots. */
  predicate Matches(slots: seq<nat>, buffers: seq<seq<byte>>, event: Event, effect: Effect) {
    |slots| == |buffers| &&
    match event
    case WriteEvent(b, offset, data) =>
      && effect.Written? && b < |slots| && slots[b] == effect.slot && offset == effect.offset && data == effect.data
      && offset + |data| <= |buffers[b]|
    case CopyEvent(s, from, d, to, size) =>
      && effect.Copied? && s < |slots| && d < |slots| && slots[s] == effect.source && slots[d] == effect.destination
      && from == effect.sourceOffset && to == effect.destinationOffset && size == effect.size
      && from + size <= |buffers[s]| && to + size <= |buffers[d]|
    case DispatchEvent(shader, constants, uniforms, bindings, groups) =>
      && effect.Dispatched? && effect.shader == shader && effect.groups == groups && WellFormedShader(shader)
      && |effect.storages| == |shader.storages| == |bindings| && |effect.uniforms| == |shader.uniforms| == |uniforms|
      && constants == StaticBank(shader, effect.push, effect.storages)
      && (forall k :: 0 <= k < |bindings| ==>
        BindingMatches(slots, bindings[k], shader.storages[k], effect.storages[k]))
      && (forall k :: 0 <= k < |uniforms| ==>
            UniformMatches(slots, buffers, uniforms[k], shader.uniforms[k], effect.uniforms[k]))
  }

  /** The bank after every uniform has been read from the staged buffers. */
  function Fill(bank: seq<nat>, uniforms: seq<Uniform>, buffers: seq<seq<byte>>): (r: seq<nat>)
    requires forall k :: 0 <= k < |uniforms| ==> uniforms[k].buffer < |buffers|
    ensures |r| == |bank|
  {
    if uniforms == [] then bank
    else
      var u := uniforms[|uniforms| - 1];
      Put(Fill(bank, uniforms[..|uniforms| - 1], buffers), u.word, Words(buffers[u.buffer], u.offset, u.length))
  }

  predicate EventInRange(buffers: seq<seq<byte>>, event: Event) {
    match event
    case WriteEvent(b, offset, data) => b < |buffers| && offset + |data| <= |buffers[b]|
    case CopyEvent(s, from, d, to, size) =>
      s < |buffers| && d < |buffers| && from + size <= |buffers[s]| && to + size <= |buffers[d]|
    case DispatchEvent(shader, _, uniforms, bindings, _) =>
      && |bindings| == |shader.storages|
      && (forall k :: 0 <= k < |uniforms| ==>
            uniforms[k].buffer < |buffers| && uniforms[k].offset + uniforms[k].length <= |buffers[uniforms[k].buffer]|)
      && (forall k :: 0 <= k < |bindings| ==> bindings[k].buffer < |buffers|)
      && (forall k :: 0 <= k < |bindings| ==>
            bindings[k].slot == shader.storages[k].slot && bindings[k].writable == shader.storages[k].writable)
  }

  function Perform(kernel: Kernel, buffers: seq<seq<byte>>, event: Event): (r: seq<seq<byte>>)
    requires EventInRange(buffers, event)
    ensures |r| == |buffers| && forall b :: 0 <= b < |buffers| ==> |r[b]| == |buffers[b]|
  {
    match event
    case WriteEvent(b, offset, data) => buffers[b := CopyInto(buffers[b], offset, data)]
    case CopyEvent(s, from, d, to, size) => buffers[d := CopyInto(buffers[d], to, buffers[s][from..from + size])]
    case DispatchEvent(shader, constants, uniforms, bindings, groups) =>
      Launch(kernel, buffers, shader, Fill(constants, uniforms, buffers), Buffers(bindings), groups)
  }
}
