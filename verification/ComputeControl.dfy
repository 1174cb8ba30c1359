/**
 What a dispatch sees, read off the recorded commands alone: the pipeline, the
 bind groups and the pushed bytes are those last set since the pass began.
 */
module ComputeControl {
  import opened Common
  import opened Compute
  import BP = BufferPlan
  import opened ComputeCost
  import opened ComputeMirror

  /** The last command with a property, scanning back from the end. */
  ghost function LastOf(commands: seq<Command>, p: Command -> bool): (r: Option<nat>)
    ensures r.Some? ==> r.value < |commands| && p(commands[r.value])
  {
    if commands == [] then None
    else if p(commands[|commands| - 1]) then Some(|commands| - 1)
    else LastOf(commands[..|commands| - 1], p)
  }

  /** The last such command since the pass began. */
  ghost function LastInPass(commands: seq<Command>, p: Command -> bool): (r: Option<nat>)
    ensures r.Some? ==> r.value < |commands| && p(commands[r.value])
  {
    if commands == [] then None
    else if p(commands[|commands| - 1]) then Some(|commands| - 1)
    else if commands[|commands| - 1].BeginComputePass? then None
    else LastInPass(commands[..|commands| - 1], p)
  }

  /** No pass began after command `k`. */
  ghost predicate SinceBegin(commands: seq<Command>, k: nat) {
    forall j :: k < j < |commands| ==> !commands[j].BeginComputePass?
  }

  lemma {:induction false} LastExactly(commands: seq<Command>, p: Command -> bool)
    ensures LastOf(commands, p).Some? ==>
      forall j :: LastOf(commands, p).value < j < |commands| ==> !p(commands[j])
    ensures LastOf(commands, p).None? ==> forall j :: 0 <= j < |commands| ==> !p(commands[j])
  {
    if commands != [] {
      LastExactly(commands[..|commands| - 1], p);
    }
  }

  /** There is one exactly when some such command has had no pass begin after it. */
  lemma {:induction false} InPassExactly(commands: seq<Command>, p: Command -> bool)
    ensures LastInPass(commands, p).Some?
      <==> exists k :: 0 <= k < |commands| && p(commands[k]) && SinceBegin(commands, k)
    ensures LastInPass(commands, p).Some? ==>
      && SinceBegin(commands, LastInPass(commands, p).value)
      && forall j :: LastInPass(commands, p).value < j < |commands| ==> !p(commands[j])
  {
    if commands != [] {
      var n := |commands| - 1;
      InPassExactly(commands[..n], p);
      if p(commands[n]) {
        assert SinceBegin(commands, n);
      } else if k :| 0 <= k < |commands| && p(commands[k]) && SinceBegin(commands, k) {
        assert commands[..n][k] == commands[k] && SinceBegin(commands[..n], k);
      }
      if k :| 0 <= k < n && p(commands[..n][k]) && SinceBegin(commands[..n], k) {
        assert commands[n].BeginComputePass? || SinceBegin(commands, k);
      }
    }
  }

  predicate Pushes(c: Command, b: nat) {
    c.SetPushConstants? && c.pushOffset <= b < c.pushOffset + |c.pushData| <= 128
  }

  function PushesAt(b: nat): Command -> bool { (c: Command) => Pushes(c, b) }

  function NamesPipeline(table: Table): Command -> bool {
    (c: Command) => c.SetComputePipeline? && table.compile(c.pipeline).Some?
  }

  function BindsAt(index: nat): Command -> bool { (c: Command) => c.SetBindGroup? && c.index == index }

  /** Byte `b` of the push constants: that of the last command covering it. */
  ghost function PushedByte(commands: seq<Command>, b: nat): byte {
    match LastOf(commands, PushesAt(b))
    case None => 0
    case Some(k) => commands[k].pushData[b - commands[k].pushOffset]
  }

  ghost predicate PushTold(commands: seq<Command>, c: Control, b: nat)
    requires b < 128
  {
    && |c.push| == 128 == |c.pushSet| && c.push[b] == PushedByte(commands, b)
    && (c.pushSet[b] <==> LastInPass(commands, PushesAt(b)).Some?)
  }

  ghost predicate PipelineTold(table: Table, commands: seq<Command>, c: Control) {
    var k := LastInPass(commands, NamesPipeline(table));
    c.pipeline ==
      if k.None? then None
      else Some((commands[k.value].pipeline, table.compile(commands[k.value].pipeline).value))
  }

  ghost predicate GroupTold(commands: seq<Command>, c: Control, i: nat)
    requires i < 4
  {
    var k := LastInPass(commands, BindsAt(i));
    |c.groups| == 4
    && c.groups[i] == if k.None? then None else Some(commands[k.value].bindGroup)
  }

  function Delimits(): Command -> bool { (c: Command) => c.BeginComputePass? || c.EndComputePass? }

  /** A pass is open when the last command that begins or ends one begins it. */
  ghost predicate InPass(commands: seq<Command>) {
    var k := LastOf(commands, Delimits());
    k.Some? && commands[k.value].BeginComputePass?
  }

  ghost predicate ActiveTold(commands: seq<Command>, c: Control) { c.active <==> InPass(commands) }

  /** Where command `k` may stand: state and dispatches inside a pass, memory and barriers outside. */
  ghost predicate StandsAt(commands: seq<Command>, k: nat)
    requires k < |commands|
  {
    var c := commands[k];
    && !c.Graphics?
    && (c.EndComputePass? || c.SetComputePipeline? || c.SetBindGroup? || c.SetPushConstants? || c.Dispatch?
        <==> InPass(commands[..k]))
  }

  /** The state of the pass is what the commands say. */
  ghost predicate ControlTold(table: Table, commands: seq<Command>, c: Control) {
    && ActiveTold(commands, c)
    && (forall b :: 0 <= b < 128 ==> PushTold(commands, c, b))
    && PipelineTold(table, commands, c)
    && forall i :: 0 <= i < 4 ==> GroupTold(commands, c, i)
  }

  lemma PushStep(table: Table, commands: seq<Command>, c: Control, b: nat)
    requires commands != [] && b < 128 && PushTold(commands[..|commands| - 1], c, b)
    ensures PushTold(commands, ControlStep(table, c, commands[|commands| - 1]), b)
  {
    match commands[|commands| - 1] {
      case BeginComputePass =>
      case SetPushConstants(_, _, _) =>
      case _ =>
    }
  }

  lemma ActiveStep(table: Table, commands: seq<Command>, c: Control)
    requires commands != [] && ActiveTold(commands[..|commands| - 1], c)
    ensures ActiveTold(commands, ControlStep(table, c, commands[|commands| - 1]))
  {
  }

  lemma PipelineStep(table: Table, commands: seq<Command>, c: Control)
    requires commands != [] && PipelineTold(table, commands[..|commands| - 1], c)
    ensures PipelineTold(table, commands, ControlStep(table, c, commands[|commands| - 1]))
  {
  }

  lemma GroupStep(table: Table, commands: seq<Command>, c: Control, i: nat)
    requires commands != [] && i < 4 && GroupTold(commands[..|commands| - 1], c, i)
    ensures GroupTold(commands, ControlStep(table, c, commands[|commands| - 1]), i)
  {
  }

  /** Running the commands one by one keeps exactly what they last set. */
  lemma {:induction false} ControlLaw(table: Table, commands: seq<Command>)
    ensures ControlTold(table, commands, ControlAfter(table, commands))
  {
    if commands != [] {
      var c := ControlAfter(table, commands[..|commands| - 1]);
      ControlLaw(table, commands[..|commands| - 1]);
      forall b | 0 <= b < 128 ensures PushTold(commands, ControlAfter(table, commands), b) {
        PushStep(table, commands, c, b);
      }
      ActiveStep(table, commands, c);
      PipelineStep(table, commands, c);
      forall i | 0 <= i < 4 ensures GroupTold(commands, ControlAfter(table, commands), i) {
        GroupStep(table, commands, c, i);
      }
    }
  }

  /** A byte counts as pushed exactly when a push covers it that no pass began after. */
  lemma PushSetExactly(table: Table, commands: seq<Command>, b: nat)
    requires b < 128
    ensures |ControlAfter(table, commands).pushSet| == 128
    ensures ControlAfter(table, commands).pushSet[b]
      <==> exists k :: 0 <= k < |commands| && Pushes(commands[k], b) && SinceBegin(commands, k)
  {
    ControlLaw(table, commands);
    assert PushTold(commands, ControlAfter(table, commands), b);
    InPassExactly(commands, PushesAt(b));
  }

  // ------------------------------------------------------- dispatches, told

  /** The resource a binding names through the group last bound in this pass. */
  ghost function Entry(table: Table, commands: seq<Command>, group: nat, binding: nat): Option<Resource> {
    var k := LastInPass(commands, BindsAt(group));
    if group >= 4 || k.None? then None
    else
      var g := commands[k.value].bindGroup;
      if g < |table.bindGroups| && binding in table.bindGroups[g].entries
      then Some(table.bindGroups[g].entries[binding]) else None
  }

  /** Word `i` of the push constants in little-endian order. */
  ghost function PushedWord(commands: seq<Command>, i: nat): nat {
    PushedByte(commands, 4 * i) as nat + 0x100 * PushedByte(commands, 4 * i + 1) as nat
    + 0x1_0000 * PushedByte(commands, 4 * i + 2) as nat + 0x100_0000 * PushedByte(commands, 4 * i + 3) as nat
  }

  ghost predicate AllPushed(commands: seq<Command>, push: PushBlock) {
    forall r, b: nat :: 0 <= r < |push.required| && push.required[r].0 <= b < push.required[r].1 ==>
      LastInPass(commands, PushesAt(b)).Some?
  }

  /** Every byte the shader needs was pushed since the pass began, and the bank holds the bytes last pushed. */
  ghost predicate PushBankTold(commands: seq<Command>, push: PushBlock, constants: seq<nat>) {
    && AllPushed(commands, push)
    && push.firstRegister * 4 + push.size / 4 <= |constants|
    && forall i: nat :: i < push.size / 4 ==> constants[push.firstRegister * 4 + i] == PushedWord(commands, i)
  }

  /** No other storage binding and no push constant shares the register of storage binding `j`. */
  predicate OwnRegister(shader: Shader, j: nat)
    requires j < |shader.storages|
  {
    && (forall k :: 0 <= k < |shader.storages| && k != j ==>
         shader.storages[k].firstRegister != shader.storages[j].firstRegister)
    && (shader.push.Some? ==>
         || shader.storages[j].firstRegister < shader.push.value.firstRegister
         || shader.push.value.firstRegister * 4 + shader.push.value.size / 4 <= shader.storages[j].firstRegister * 4)
  }

  /** A storage binding names the buffer of its entry, its offset and size in the bank. */
  ghost predicate StorageTold(
    table: Table, commands: seq<Command>, slots: seq<nat>, shader: Shader, j: nat, b: Binding, constants: seq<nat>)
    requires j < |shader.storages|
  {
    var storage := shader.storages[j];
    match Entry(table, commands, storage.group, storage.binding)
    case Some(BufferResource(slot, offset, size)) =>
      && b.buffer < |slots| && slots[b.buffer] == slot && b.slot == storage.slot && b.writable == storage.writable
      && (OwnRegister(shader, j) ==>
           storage.firstRegister * 4 + 1 < |constants|
           && constants[storage.firstRegister * 4] == offset && constants[storage.firstRegister * 4 + 1] == size)
    case _ => false
  }

  /** A uniform binding reads its entry, from its start, into its registers. */
  ghost predicate UniformTold(
    table: Table, commands: seq<Command>, slots: seq<nat>, uniform: UniformBinding, u: Uniform)
  {
    match Entry(table, commands, uniform.group, uniform.binding)
    case Some(BufferResource(slot, offset, _)) =>
      && u.buffer < |slots| && slots[u.buffer] == slot && u.offset == offset
      && u.length == uniform.requiredSize && u.word == uniform.firstRegister * 4
    case _ => false
  }

  /** A planned dispatch carries what the commands before it last set in its pass. */
  ghost predicate DispatchTold(
    table: Table, commands: seq<Command>, slots: seq<nat>, groups: (nat, nat, nat), event: Event)
  {
    && event.DispatchEvent? && event.groups == groups
    && (var k := LastInPass(commands, NamesPipeline(table));
        k.Some? && table.compile(commands[k.value].pipeline) == Some(event.shader))
    && (event.shader.push.Some? ==> PushBankTold(commands, event.shader.push.value, event.constants))
    && |event.bindings| == |event.shader.storages| && |event.uniforms| == |event.shader.uniforms|
    && (forall j :: 0 <= j < |event.bindings| ==>
         StorageTold(table, commands, slots, event.shader, j, event.bindings[j], event.constants))
    && forall j :: 0 <= j < |event.uniforms| ==>
         UniformTold(table, commands, slots, event.shader.uniforms[j], event.uniforms[j])
  }

  lemma EntryResolved(table: Table, commands: seq<Command>, group: nat, binding: nat)
    requires Resolve(table, ControlAfter(table, commands).groups, group, binding).Some?
    ensures var bound := Resolve(table, ControlAfter(table, commands).groups, group, binding).value;
      Entry(table, commands, group, binding) == Some(BufferResource(bound.slot, bound.offset, bound.size))
  {
    ControlLaw(table, commands);
    assert GroupTold(commands, ControlAfter(table, commands), 0);
    assert GroupTold(commands, ControlAfter(table, commands), group);
  }

  lemma {:induction false} StoragesAt(table: Table, groups: seq<Option<nat>>, storages: seq<StorageBinding>, j: nat)
    requires ResolveStorages(table, groups, storages).Some? && j < |storages|
    ensures Resolve(table, groups, storages[j].group, storages[j].binding)
      == Some(ResolveStorages(table, groups, storages).value[j])
  {
    if j < |storages| - 1 {
      StoragesAt(table, groups, storages[..|storages| - 1], j);
    }
  }

  lemma {:induction false} UniformsAt(table: Table, groups: seq<Option<nat>>, uniforms: seq<UniformBinding>, j: nat)
    requires ResolveUniforms(table, groups, uniforms).Some? && j < |uniforms|
    ensures Resolve(table, groups, uniforms[j].group, uniforms[j].binding)
      == Some(ResolveUniforms(table, groups, uniforms).value[j])
  {
    if j < |uniforms| - 1 {
      UniformsAt(table, groups, uniforms[..|uniforms| - 1], j);
    }
  }

  /** A register no later binding names keeps the offset and size written to it. */
  lemma {:induction false} StorageKept(bank: seq<nat>, storages: seq<StorageBinding>, bounds: seq<Bound>, j: nat)
    requires |storages| == |bounds| && j < |storages| && storages[j].firstRegister * 4 + 1 < |bank|
    requires forall k :: 0 <= k < |storages| && k != j ==> storages[k].firstRegister != storages[j].firstRegister
    ensures PutStorages(bank, storages, bounds)[storages[j].firstRegister * 4] == bounds[j].offset
    ensures PutStorages(bank, storages, bounds)[storages[j].firstRegister * 4 + 1] == bounds[j].size
  {
    if j < |storages| - 1 {
      StorageKept(bank, storages[..|storages| - 1], bounds[..|storages| - 1], j);
    }
  }

  lemma StorageBankTold(shader: Shader, push: seq<byte>, bounds: seq<Bound>, j: nat)
    requires |bounds| == |shader.storages| && j < |bounds| && OwnRegister(shader, j)
    ensures var bank, at := StaticBank(shader, push, bounds), shader.storages[j].firstRegister * 4;
      at + 1 < |bank| && bank[at] == bounds[j].offset && bank[at + 1] == bounds[j].size
  {
    assert StorageEnd(shader.storages[j]) <= StorageWords(shader.storages);
    StorageKept(seq(BankWords(shader), _ => 0), shader.storages, bounds, j);
  }

  lemma PushTolds(table: Table, commands: seq<Command>, push: PushBlock, storages: seq<nat>)
    requires PushComplete(ControlAfter(table, commands), Some(push)) && push.size <= 128
    requires forall r :: 0 <= r < |push.required| ==> push.required[r].1 <= 128
    requires PushEnd(push) <= |storages|
    ensures PushBankTold(commands, push, PutPush(storages, Some(push), ControlAfter(table, commands).push))
  {
    AllPushedTold(table, commands, push);
    forall i: nat | i < push.size / 4
      ensures Word(ControlAfter(table, commands).push, 4 * i) == PushedWord(commands, i) {
      WordTold(table, commands, i);
    }
  }

  lemma AllPushedTold(table: Table, commands: seq<Command>, push: PushBlock)
    requires PushComplete(ControlAfter(table, commands), Some(push))
    requires forall r :: 0 <= r < |push.required| ==> push.required[r].1 <= 128
    ensures AllPushed(commands, push)
  {
    var c := ControlAfter(table, commands);
    ControlLaw(table, commands);
    assert PushTold(commands, c, 0);
    forall r, b: nat | 0 <= r < |push.required| && push.required[r].0 <= b < push.required[r].1
      ensures LastInPass(commands, PushesAt(b)).Some?
    {
      assert PushTold(commands, c, b) && c.pushSet[b];
    }
  }

  lemma WordTold(table: Table, commands: seq<Command>, i: nat)
    requires 4 * i + 3 < 128
    ensures Word(ControlAfter(table, commands).push, 4 * i) == PushedWord(commands, i)
  {
    var c := ControlAfter(table, commands);
    ControlLaw(table, commands);
    assert PushTold(commands, c, 4 * i) && PushTold(commands, c, 4 * i + 1);
    assert PushTold(commands, c, 4 * i + 2) && PushTold(commands, c, 4 * i + 3);
  }

  /** An event that matches its effect says what the commands say. */
  lemma EventTold(
    table: Table, commands: seq<Command>, slots: seq<nat>, buffers: seq<seq<byte>>, groups: (nat, nat, nat),
    event: Event)
    requires var c := ControlAfter(table, commands);
      var effect := EffectOf(table, c, Dispatch(groups.0, groups.1, groups.2));
      && effect.Some? && Matches(slots, buffers, event, effect.value)
      && c.pipeline.Some? && PushComplete(c, c.pipeline.value.1.push)
    ensures DispatchTold(table, commands, slots, groups, event)
  {
    var c := ControlAfter(table, commands);
    var shader := c.pipeline.value.1;
    var effect := EffectOf(table, c, Dispatch(groups.0, groups.1, groups.2)).value;
    ControlLaw(table, commands);
    if shader.push.Some? {
      PushTolds(table, commands, shader.push.value,
        PutStorages(seq(BankWords(shader), _ => 0), shader.storages, effect.storages));
    }
    forall j | 0 <= j < |event.bindings|
      ensures StorageTold(table, commands, slots, shader, j, event.bindings[j], event.constants)
    {
      StoragesAt(table, c.groups, shader.storages, j);
      EntryResolved(table, commands, shader.storages[j].group, shader.storages[j].binding);
      assert BindingMatches(slots, event.bindings[j], shader.storages[j], effect.storages[j]);
      if OwnRegister(shader, j) {
        StorageBankTold(shader, c.push, effect.storages, j);
      }
    }
    forall j | 0 <= j < |event.uniforms|
      ensures UniformTold(table, commands, slots, shader.uniforms[j], event.uniforms[j])
    {
      UniformsAt(table, c.groups, shader.uniforms, j);
      EntryResolved(table, commands, shader.uniforms[j].group, shader.uniforms[j].binding);
      assert UniformMatches(slots, buffers, event.uniforms[j], shader.uniforms[j], effect.uniforms[j]);
    }
  }

  /**
   Every command stands where it may, and the event planned for each dispatch
   carries what the commands before it last set in its pass.
   */
  ghost predicate AllTold(table: Table, commands: seq<Command>, slots: seq<nat>, events: seq<Event>) {
    && (forall k :: 0 <= k < |commands| ==> StandsAt(commands, k))
    && forall k :: 0 <= k < |commands| && commands[k].Dispatch? ==> ToldAt(table, commands, slots, events, k)
  }

  ghost predicate ToldAt(table: Table, commands: seq<Command>, slots: seq<nat>, events: seq<Event>, k: nat)
    requires k < |commands| && commands[k].Dispatch?
  {
    var i := |Effects(table, commands[..k])|;
    && i < |events|
    && DispatchTold(table, commands[..k], slots, (commands[k].x, commands[k].y, commands[k].z), events[i])
  }

  lemma {:induction false} EffectAt(table: Table, commands: seq<Command>, k: nat)
    requires k < |commands| && EffectOf(table, ControlAfter(table, commands[..k]), commands[k]).Some?
    ensures var i := |Effects(table, commands[..k])|;
      && i < |Effects(table, commands)|
      && Some(Effects(table, commands)[i]) == EffectOf(table, ControlAfter(table, commands[..k]), commands[k])
    decreases |commands|
  {
    var n := |commands| - 1;
    if k < n {
      assert commands[..n][..k] == commands[..k];
      EffectAt(table, commands[..n], k);
    }
  }

  lemma StandTold(table: Table, commands: seq<Command>, k: nat)
    requires k < |commands|
    ensures InPlace(ControlAfter(table, commands[..k]).active, commands[k]) <==> StandsAt(commands, k)
  {
    ControlLaw(table, commands[..k]);
    assert ActiveTold(commands[..k], ControlAfter(table, commands[..k]));
  }

  lemma StreamTold(
    table: Table, shadows: seq<BP.BufferShadow>, commands: seq<Command>, slots: seq<nat>, buffers: seq<seq<byte>>,
    events: seq<Event>)
    requires |table.buffers| <= |shadows| && StreamFits(table, shadows, commands)
    requires AllMatch(slots, buffers, events, Effects(table, commands))
    ensures AllTold(table, commands, slots, events)
  {
    forall k | 0 <= k < |commands| ensures StandsAt(commands, k) {
      StandTold(table, commands, k);
      assert CommandFits(table, shadows, ControlAfter(table, commands[..k]), commands[k]);
    }
    forall k | 0 <= k < |commands| && commands[k].Dispatch? ensures ToldAt(table, commands, slots, events, k) {
      var c := ControlAfter(table, commands[..k]);
      assert CommandFits(table, shadows, c, commands[k]);
      FitsResolve(table, shadows, c, commands[k].x, commands[k].y, commands[k].z);
      EffectAt(table, commands, k);
      var i := |Effects(table, commands[..k])|;
      assert Matches(slots, buffers, events[i], Effects(table, commands)[i]);
      EventTold(table, commands[..k], slots, buffers, (commands[k].x, commands[k].y, commands[k].z), events[i]);
    }
  }

  lemma FitsResolve(table: Table, shadows: seq<BP.BufferShadow>, c: Control, x: nat, y: nat, z: nat)
    requires |table.buffers| <= |shadows| && DispatchFits(table, shadows, c, x, y, z)
    ensures EffectOf(table, c, Dispatch(x, y, z)).Some?
  {
    var id, shader := c.pipeline.value.0, c.pipeline.value.1;
    StoragesResolve(table, shadows, c, id, shader.storages);
    UniformsResolve(table, shadows, c, id, shader.uniforms);
  }

  lemma {:induction false} StoragesResolve(
    table: Table, shadows: seq<BP.BufferShadow>, c: Control, id: nat, storages: seq<StorageBinding>)
    requires |table.buffers| <= |shadows|
    requires forall k :: 0 <= k < |storages| ==> StorageFits(table, shadows, c, id, storages[k])
    ensures ResolveStorages(table, c.groups, storages).Some?
  {
    if storages != [] {
      StoragesResolve(table, shadows, c, id, storages[..|storages| - 1]);
    }
  }

  lemma {:induction false} UniformsResolve(
    table: Table, shadows: seq<BP.BufferShadow>, c: Control, id: nat, uniforms: seq<UniformBinding>)
    requires |table.buffers| <= |shadows|
    requires forall k :: 0 <= k < |uniforms| ==> UniformFits(table, shadows, c, id, uniforms[k])
    ensures ResolveUniforms(table, c.groups, uniforms).Some?
  {
    if uniforms != [] {
      UniformsResolve(table, shadows, c, id, uniforms[..|uniforms| - 1]);
    }
  }
}
