/**
 What the parts of a draw say of the resources bound for it, binding by binding,
 and exactly which draws can be built.
 */
module DrawLaw {
  import opened Common
  import opened DrawParts

  /** The group bound at `group`, laid out as the pipeline expects, holds `resource` at `binding`. */
  ghost predicate Names(
    env: Env, layouts: seq<nat>, groups: seq<Option<nat>>, group: nat, binding: nat, resource: Resource)
  {
    && group < |layouts| && group < |groups|
    && exists g :: 0 <= g < |env.groups| && groups[group] == Some(g) && env.groups[g].layout == layouts[group]
         && binding in env.groups[g].entries && env.groups[g].entries[binding] == resource
  }

  lemma NamesExactly(
    env: Env, layouts: seq<nat>, groups: seq<Option<nat>>, group: nat, binding: nat, resource: Resource)
    ensures ResourceAt(env, layouts, groups, group, binding) == Some(resource)
      <==> Names(env, layouts, groups, group, binding, resource)
  {
  }

  /** Pending contents a device buffer can take: whole words, and some. */
  ghost predicate Uploadable(env: Env, buffer: nat) {
    && buffer < |env.buffers| && buffer < |env.views| && env.buffers[buffer].size <= 4294967295
    && 0 < |env.views[buffer]| && |env.views[buffer]| % 4 == 0
  }

  /** The range a storage binding takes. */
  ghost predicate StorageTakes(
    env: Env, layouts: seq<nat>, groups: seq<Option<nat>>, b: StorageBinding, buffer: nat, offset: nat, size: nat)
  {
    && Names(env, layouts, groups, b.group, b.binding, BufferResource(buffer, offset, size))
    && Uploadable(env, buffer) && env.buffers[buffer].storage && env.buffers[buffer].size <= env.viewLimit
    && 0 < size <= env.viewLimit && offset % 4 == 0 && size % 4 == 0 && offset + size <= env.buffers[buffer].size
  }

  lemma StorageMeans(env: Env, layouts: seq<nat>, groups: seq<Option<nat>>, stage: nat, b: StorageBinding)
    ensures StorageOf(env, layouts, groups, stage, b).Some?
      <==> exists buffer: nat, offset: nat, size: nat :: StorageTakes(env, layouts, groups, b, buffer, offset, size)
    ensures forall buffer: nat, offset: nat, size: nat ::
      StorageTakes(env, layouts, groups, b, buffer, offset, size) ==>
      StorageOf(env, layouts, groups, stage, b)
        == Some((StorageOut(stage, b.slot, buffer, env.buffers[buffer].size, env.buffers[buffer].revision),
                 Constant(stage, b.firstRegister, [offset, size, 0, 0])))
  {
    forall buffer: nat, offset: nat, size: nat {
      NamesExactly(env, layouts, groups, b.group, b.binding, BufferResource(buffer, offset, size));
    }
    match ResourceAt(env, layouts, groups, b.group, b.binding)
    case Some(BufferResource(buffer, offset, size)) =>
      NamesExactly(env, layouts, groups, b.group, b.binding, BufferResource(buffer, offset, size));
      if StorageOf(env, layouts, groups, stage, b).Some? {
        assert StorageTakes(env, layouts, groups, b, buffer, offset, size);
      }
    case _ =>
  }

  /** The level count a query answers. */
  ghost predicate QueryTakes(env: Env, layouts: seq<nat>, groups: seq<Option<nat>>, q: QueryBinding, levels: nat) {
    exists resource, t: nat :: 0 <= t < |env.textures| && env.textures[t].sampled
      && Names(env, layouts, groups, q.group, q.binding, resource) && 0 < levels <= env.textures[t].levels
      && ((resource == TextureResource(t) && levels == env.textures[t].levels)
          || (resource.ViewResource? && resource.texture == t && levels == resource.levels))
  }

  lemma QueryMeans(env: Env, layouts: seq<nat>, groups: seq<Option<nat>>, stage: nat, q: QueryBinding)
    ensures QueryOf(env, layouts, groups, stage, q).Some?
      <==> exists levels: nat :: QueryTakes(env, layouts, groups, q, levels)
    ensures forall levels: nat :: QueryTakes(env, layouts, groups, q, levels) ==>
      QueryOf(env, layouts, groups, stage, q) == Some(Constant(stage, q.firstRegister, [levels, 0, 0, 0]))
  {
    forall resource { NamesExactly(env, layouts, groups, q.group, q.binding, resource); }
    var found := QueryOf(env, layouts, groups, stage, q);
    if found.Some? {
      var resource := ResourceAt(env, layouts, groups, q.group, q.binding).value;
      var t := resource.texture;
      assert QueryTakes(env, layouts, groups, q, found.value.words[0]);
    }
  }

  /** The sampler state a texture binding takes, if it uses one. */
  ghost predicate SamplerTakes(
    env: Env, layouts: seq<nat>, groups: seq<Option<nat>>, b: TextureBinding, state: Option<nat>)
  {
    if !b.usesSampler then state == None
    else
      exists s: nat :: s < |env.samplers| && state == Some(env.samplers[s].state)
        && Names(env, layouts, groups, b.samplerGroup, b.samplerBinding, SamplerResource(s))
        && (env.samplers[s].anisotropy <= 1 || env.anisotropy) && env.samplers[s].comparison == b.comparison
  }

  lemma SamplerMeans(env: Env, layouts: seq<nat>, groups: seq<Option<nat>>, b: TextureBinding)
    ensures SamplerOf(env, layouts, groups, b).Some? <==> exists state :: SamplerTakes(env, layouts, groups, b, state)
    ensures forall state :: SamplerTakes(env, layouts, groups, b, state) ==>
      SamplerOf(env, layouts, groups, b) == Some(state)
  {
    forall resource { NamesExactly(env, layouts, groups, b.samplerGroup, b.samplerBinding, resource); }
    var found := SamplerOf(env, layouts, groups, b);
    if found.Some? {
      assert SamplerTakes(env, layouts, groups, b, found.value);
    }
  }

  /** A view of the whole texture in a compatible format and the dimension the shader expects. */
  ghost predicate WholeView(env: Env, resource: Resource, t: nat, b: TextureBinding) {
    && resource.ViewResource? && t < |env.textures| && resource.texture == t
    && resource.dimension == b.dimension && env.compatible(env.textures[t].format, resource.format)
    && resource.baseMip == 0 && resource.levels == env.textures[t].levels
    && resource.baseLayer == 0 && resource.layers == env.textures[t].layers
  }

  /** The texture and the format it is read in: sampled, of the right kind and not written by the pass. */
  ghost predicate ImageTakes(
    env: Env, layouts: seq<nat>, groups: seq<Option<nat>>, b: TextureBinding, t: nat, format: nat)
  {
    && t < |env.textures| && env.textures[t].sampled && env.textures[t].dimension == b.dimension
    && (b.depth ==> env.textures[t].depth)
    && t !in env.colors && (env.depth != Some(t) || env.depthReadOnly)
    && exists resource :: Names(env, layouts, groups, b.imageGroup, b.imageBinding, resource)
         && ((resource == TextureResource(t) && format == env.textures[t].format)
             || (WholeView(env, resource, t, b) && format == resource.format))
  }

  lemma TextureMeans(env: Env, layouts: seq<nat>, groups: seq<Option<nat>>, stage: nat, b: TextureBinding)
    ensures TextureOf(env, layouts, groups, stage, b).Some?
      <==> (exists t: nat, format: nat :: ImageTakes(env, layouts, groups, b, t, format))
           && exists state :: SamplerTakes(env, layouts, groups, b, state)
    ensures forall t: nat, format: nat, state ::
      ImageTakes(env, layouts, groups, b, t, format) && SamplerTakes(env, layouts, groups, b, state) ==>
      TextureOf(env, layouts, groups, stage, b) == Some((TextureOut(stage, b.slot, t, state), env.srgb(format)))
  {
    forall resource { NamesExactly(env, layouts, groups, b.imageGroup, b.imageBinding, resource); }
    SamplerMeans(env, layouts, groups, b);
    var resource := ResourceAt(env, layouts, groups, b.imageGroup, b.imageBinding);
    if TextureOf(env, layouts, groups, stage, b).Some? {
      var image := ImageOf(env, resource.value).value;
      assert Names(env, layouts, groups, b.imageGroup, b.imageBinding, resource.value);
      assert ImageTakes(env, layouts, groups, b, image.0, image.1);
    }
  }

  /** Four bytes of `bytes` in little-endian order; past the end there are zeros. */
  function LittleWord(bytes: seq<byte>, j: nat): nat {
    if 4 * j + 3 < |bytes| then
      bytes[4 * j] as nat + 0x100 * bytes[4 * j + 1] as nat + 0x1_0000 * bytes[4 * j + 2] as nat
      + 0x100_0000 * bytes[4 * j + 3] as nat
    else 0
  }

  /** `size` bytes of registers, four words each, filled from `bytes`. */
  ghost predicate BankOf(words: seq<nat>, bytes: seq<byte>, size: nat) {
    && |words| * 4 >= size && |words| * 4 < size + 16 && |words| % 4 == 0
    && forall j :: 0 <= j < |words| ==> words[j] == LittleWord(bytes, j)
  }

  lemma PaddedMeans(bytes: seq<byte>, size: nat)
    ensures PaddedWords(bytes, (size + 15) / 16 * 16).Some? <==> |bytes| % 4 == 0 && |bytes| <= (size + 15) / 16 * 16
    ensures |bytes| <= size && |bytes| % 4 == 0 ==>
      PaddedWords(bytes, (size + 15) / 16 * 16).Some?
      && BankOf(PaddedWords(bytes, (size + 15) / 16 * 16).value, bytes, size)
  {
  }

  /** A buffer range that holds what a uniform binding requires. */
  predicate UniformFits(env: Env, b: UniformBinding, buffer: nat, offset: nat, size: nat) {
    && buffer < |env.views| && offset <= 4294967295 && offset + b.requiredSize <= |env.views[buffer]|
    && b.requiredSize % 4 == 0 && b.requiredSize <= b.size && b.requiredSize <= size <= 16384
  }

  /** The bytes a uniform binding reads. */
  ghost predicate UniformTakes(
    env: Env, layouts: seq<nat>, groups: seq<Option<nat>>, b: UniformBinding, bytes: seq<byte>)
  {
    exists buffer: nat, offset: nat, size: nat ::
      && Names(env, layouts, groups, b.group, b.binding, BufferResource(buffer, offset, size))
      && UniformFits(env, b, buffer, offset, size)
      && bytes == env.views[buffer][offset..offset + b.requiredSize]
  }

  lemma UniformFrom(
    env: Env, layouts: seq<nat>, groups: seq<Option<nat>>, stage: nat, b: UniformBinding, buffer: nat, offset: nat,
    size: nat)
    requires ResourceAt(env, layouts, groups, b.group, b.binding) == Some(BufferResource(buffer, offset, size))
    ensures var constant := UniformOf(env, layouts, groups, stage, b);
      && (constant.Some? <==> UniformFits(env, b, buffer, offset, size))
      && (constant.Some? ==>
            && constant.value.stage == stage && constant.value.firstRegister == b.firstRegister
            && BankOf(constant.value.words, env.views[buffer][offset..offset + b.requiredSize], b.size))
  {
    if buffer < |env.views| && offset + b.requiredSize <= |env.views[buffer]| {
      PaddedMeans(env.views[buffer][offset..offset + b.requiredSize], b.size);
    }
  }

  lemma UniformMeans(env: Env, layouts: seq<nat>, groups: seq<Option<nat>>, stage: nat, b: UniformBinding)
    ensures UniformOf(env, layouts, groups, stage, b).Some?
      <==> exists bytes :: UniformTakes(env, layouts, groups, b, bytes)
    ensures forall bytes :: UniformTakes(env, layouts, groups, b, bytes) ==>
      var constant := UniformOf(env, layouts, groups, stage, b);
      && constant.Some? && constant.value.stage == stage && constant.value.firstRegister == b.firstRegister
      && BankOf(constant.value.words, bytes, b.size)
  {
    forall bytes | UniformTakes(env, layouts, groups, b, bytes)
      ensures var constant := UniformOf(env, layouts, groups, stage, b);
        && constant.Some? && constant.value.stage == stage && constant.value.firstRegister == b.firstRegister
        && BankOf(constant.value.words, bytes, b.size)
    {
      var buffer: nat, offset: nat, size: nat :|
        && Names(env, layouts, groups, b.group, b.binding, BufferResource(buffer, offset, size))
        && UniformFits(env, b, buffer, offset, size)
        && bytes == env.views[buffer][offset..offset + b.requiredSize];
      NamesExactly(env, layouts, groups, b.group, b.binding, BufferResource(buffer, offset, size));
      UniformFrom(env, layouts, groups, stage, b, buffer, offset, size);
    }
    if UniformOf(env, layouts, groups, stage, b).Some? {
      UniformFound(env, layouts, groups, stage, b);
    }
  }

  lemma UniformFound(env: Env, layouts: seq<nat>, groups: seq<Option<nat>>, stage: nat, b: UniformBinding)
    requires UniformOf(env, layouts, groups, stage, b).Some?
    ensures exists bytes :: UniformTakes(env, layouts, groups, b, bytes)
  {
    var r := ResourceAt(env, layouts, groups, b.group, b.binding).value;
    UniformFrom(env, layouts, groups, stage, b, r.buffer, r.offset, r.size);
    NamesExactly(env, layouts, groups, b.group, b.binding, r);
    assert UniformTakes(env, layouts, groups, b, env.views[r.buffer][r.offset..r.offset + b.requiredSize]);
  }

  // ------------------------------------------------------------ whole shaders

  ghost predicate StorageUsable(env: Env, layouts: seq<nat>, groups: seq<Option<nat>>, b: StorageBinding) {
    exists buffer: nat, offset: nat, size: nat :: StorageTakes(env, layouts, groups, b, buffer, offset, size)
  }

  ghost predicate QueryUsable(env: Env, layouts: seq<nat>, groups: seq<Option<nat>>, q: QueryBinding) {
    exists levels: nat :: QueryTakes(env, layouts, groups, q, levels)
  }

  ghost predicate TextureUsable(env: Env, layouts: seq<nat>, groups: seq<Option<nat>>, b: TextureBinding) {
    && (exists t: nat, format: nat :: ImageTakes(env, layouts, groups, b, t, format))
    && exists state :: SamplerTakes(env, layouts, groups, b, state)
  }

  ghost predicate UniformUsable(env: Env, layouts: seq<nat>, groups: seq<Option<nat>>, b: UniformBinding) {
    exists bytes :: UniformTakes(env, layouts, groups, b, bytes)
  }

  ghost predicate PushUsable(key: Key, shader: Shader)
    requires shader.stage < |key.push|
  {
    shader.push.Some? ==> shader.push.value.size <= |key.push[shader.stage]| && shader.push.value.size % 4 == 0
  }

  /** Every binding of the shader finds what it needs. */
  ghost predicate ShaderBound(env: Env, layouts: seq<nat>, key: Key, shader: Shader)
    requires shader.stage < |key.push|
  {
    && (forall k :: 0 <= k < |shader.storages| ==> StorageUsable(env, layouts, key.groups, shader.storages[k]))
    && (forall k :: 0 <= k < |shader.queries| ==> QueryUsable(env, layouts, key.groups, shader.queries[k]))
    && (forall k :: 0 <= k < |shader.textures| ==> TextureUsable(env, layouts, key.groups, shader.textures[k]))
    && (forall k :: 0 <= k < |shader.uniforms| ==> UniformUsable(env, layouts, key.groups, shader.uniforms[k]))
    && PushUsable(key, shader)
  }

  /** Where the parts of the constants of a shader start: queries, flags, push block and uniforms. */
  function QueriesFrom(shader: Shader): nat { |shader.storages| }
  function FlagsFrom(shader: Shader): nat { |shader.storages| + |shader.queries| }
  function PushFrom(shader: Shader): nat { FlagsFrom(shader) + if shader.flagsRegister.Some? then 1 else 0 }
  function UniformsFrom(shader: Shader): nat { PushFrom(shader) + if shader.push.Some? then 1 else 0 }
  function ConstantCount(shader: Shader): nat { UniformsFrom(shader) + |shader.uniforms| }

  ghost predicate StoragesShown(
    env: Env, layouts: seq<nat>, key: Key, shader: Shader, constants: seq<Constant>, storages: seq<StorageOut>)
  {
    && |storages| == |shader.storages| <= |constants|
    && forall k :: 0 <= k < |storages| ==>
         StorageShown(env, layouts, key, shader.stage, shader.storages[k], constants[k], storages[k])
  }

  /** Offset and size in the first two words of the register, and the buffer at the slot. */
  ghost predicate StorageShown(
    env: Env, layouts: seq<nat>, key: Key, stage: nat, b: StorageBinding, constant: Constant, out: StorageOut)
  {
    forall buffer: nat, offset: nat, size: nat ::
      StorageTakes(env, layouts, key.groups, b, buffer, offset, size) ==>
      && constant == Constant(stage, b.firstRegister, [offset, size, 0, 0])
      && out == StorageOut(stage, b.slot, buffer, env.buffers[buffer].size, env.buffers[buffer].revision)
  }

  ghost predicate QueriesShown(env: Env, layouts: seq<nat>, key: Key, shader: Shader, constants: seq<Constant>) {
    && QueriesFrom(shader) + |shader.queries| <= |constants|
    && forall k, levels: nat ::
         0 <= k < |shader.queries| && QueryTakes(env, layouts, key.groups, shader.queries[k], levels) ==>
         constants[QueriesFrom(shader) + k]
           == Constant(shader.stage, shader.queries[k].firstRegister, [levels, 0, 0, 0])
  }

  ghost predicate TexturesShown(
    env: Env, layouts: seq<nat>, key: Key, shader: Shader, textures: seq<TextureOut>)
  {
    && |textures| == |shader.textures|
    && forall k, t: nat, format: nat, state ::
         0 <= k < |shader.textures| && ImageTakes(env, layouts, key.groups, shader.textures[k], t, format)
         && SamplerTakes(env, layouts, key.groups, shader.textures[k], state) ==>
         textures[k] == TextureOut(shader.stage, shader.textures[k].slot, t, state)
  }

  /** The last texture binding of a slot. */
  predicate LastOfSlot(textures: seq<TextureBinding>, k: nat) {
    k < |textures| && forall j :: k < j < |textures| ==> textures[j].slot != textures[k].slot
  }

  /** One word for each slot of the shader: whether the texture in it is read as sRGB. */
  ghost predicate FlagsShown(env: Env, layouts: seq<nat>, key: Key, shader: Shader, constants: seq<Constant>) {
    shader.flagsRegister.Some? ==>
      && FlagsFrom(shader) < |constants|
      && var constant := constants[FlagsFrom(shader)];
         var slots := |shader.storages| + |shader.textures|;
         && constant.stage == shader.stage && constant.firstRegister == shader.flagsRegister.value
         && slots <= |constant.words| < slots + 4 && |constant.words| % 4 == 0
         && (forall i :: 0 <= i < |constant.words| ==> constant.words[i] == 0 || constant.words[i] == 1)
         && (forall i :: 0 <= i < |constant.words| && constant.words[i] == 1 ==>
              exists k :: 0 <= k < |shader.textures| && shader.textures[k].slot == i)
         && forall k: nat, t: nat, format: nat ::
              LastOfSlot(shader.textures, k) && shader.textures[k].slot < slots
              && ImageTakes(env, layouts, key.groups, shader.textures[k], t, format) ==>
              constant.words[shader.textures[k].slot] == if env.srgb(format) then 1 else 0
  }

  ghost predicate PushShown(key: Key, shader: Shader, constants: seq<Constant>)
    requires shader.stage < |key.push|
  {
    shader.push.Some? && shader.push.value.size <= |key.push[shader.stage]| ==>
      && PushFrom(shader) < |constants|
      && var constant := constants[PushFrom(shader)];
         && constant.stage == shader.stage && constant.firstRegister == shader.push.value.firstRegister
         && BankOf(constant.words, key.push[shader.stage][..shader.push.value.size], shader.push.value.size)
  }

  ghost predicate UniformsShown(env: Env, layouts: seq<nat>, key: Key, shader: Shader, constants: seq<Constant>) {
    && UniformsFrom(shader) + |shader.uniforms| == |constants|
    && forall k, bytes ::
         0 <= k < |shader.uniforms| && UniformTakes(env, layouts, key.groups, shader.uniforms[k], bytes) ==>
         var constant := constants[UniformsFrom(shader) + k];
         && constant.stage == shader.stage && constant.firstRegister == shader.uniforms[k].firstRegister
         && BankOf(constant.words, bytes, shader.uniforms[k].size)
  }

  /** Each binding of the shader has its entry, at its stage and register, with what it takes. */
  ghost predicate ShaderShown(
    env: Env, layouts: seq<nat>, key: Key, shader: Shader, constants: seq<Constant>, textures: seq<TextureOut>,
    storages: seq<StorageOut>)
    requires shader.stage < |key.push|
  {
    && StoragesShown(env, layouts, key, shader, constants, storages)
    && QueriesShown(env, layouts, key, shader, constants)
    && TexturesShown(env, layouts, key, shader, textures)
    && FlagsShown(env, layouts, key, shader, constants)
    && PushShown(key, shader, constants)
    && UniformsShown(env, layouts, key, shader, constants)
  }

  lemma CollectExactly<B, R>(bindings: seq<B>, f: B -> Option<R>)
    ensures Collect(bindings, f).Some? <==> forall k :: 0 <= k < |bindings| ==> f(bindings[k]).Some?
    ensures Collect(bindings, f).Some? ==>
      forall k :: 0 <= k < |bindings| ==> f(bindings[k]) == Some(Collect(bindings, f).value[k])
  {
    if Collect(bindings, f).Some? {
      CollectAt(bindings, f);
    } else {
      SomeFails(bindings, f);
    }
  }

  lemma {:induction false} SomeFails<B, R>(bindings: seq<B>, f: B -> Option<R>)
    requires Collect(bindings, f).None?
    ensures exists k :: 0 <= k < |bindings| && f(bindings[k]).None?
  {
    var n := |bindings| - 1;
    if f(bindings[n]).Some? {
      SomeFails(bindings[..n], f);
      var k :| 0 <= k < n && f(bindings[..n][k]).None?;
      assert bindings[..n][k] == bindings[k];
    }
  }

  lemma StoragesUsable(env: Env, layouts: seq<nat>, key: Key, shader: Shader)
    ensures StoragesOf(env, layouts, key.groups, shader).Some?
      <==> forall k :: 0 <= k < |shader.storages| ==> StorageUsable(env, layouts, key.groups, shader.storages[k])
  {
    var f := (b: StorageBinding) => StorageOf(env, layouts, key.groups, shader.stage, b);
    CollectExactly(shader.storages, f);
    forall k | 0 <= k < |shader.storages|
      ensures f(shader.storages[k]).Some? <==> StorageUsable(env, layouts, key.groups, shader.storages[k])
    {
      StorageMeans(env, layouts, key.groups, shader.stage, shader.storages[k]);
    }
  }

  lemma StoragesMean(env: Env, layouts: seq<nat>, key: Key, shader: Shader, rest: seq<Constant>)
    requires StoragesOf(env, layouts, key.groups, shader).Some?
    ensures var found := StoragesOf(env, layouts, key.groups, shader).value;
      StoragesShown(env, layouts, key, shader, Seconds(found) + rest, Firsts(found))
  {
    var f := (b: StorageBinding) => StorageOf(env, layouts, key.groups, shader.stage, b);
    CollectExactly(shader.storages, f);
    var found := StoragesOf(env, layouts, key.groups, shader).value;
    forall k | 0 <= k < |found|
      ensures StorageShown(
        env, layouts, key, shader.stage, shader.storages[k], (Seconds(found) + rest)[k], Firsts(found)[k])
    {
      assert f(shader.storages[k]) == Some(found[k]) && (Seconds(found) + rest)[k] == found[k].1;
      StorageIsShown(env, layouts, key, shader.stage, shader.storages[k], found[k]);
    }
  }

  lemma StorageIsShown(
    env: Env, layouts: seq<nat>, key: Key, stage: nat, b: StorageBinding, found: (StorageOut, Constant))
    requires StorageOf(env, layouts, key.groups, stage, b) == Some(found)
    ensures StorageShown(env, layouts, key, stage, b, found.1, found.0)
  {
    StorageMeans(env, layouts, key.groups, stage, b);
  }

  lemma QueriesUsable(env: Env, layouts: seq<nat>, key: Key, shader: Shader)
    ensures QueriesOf(env, layouts, key.groups, shader).Some?
      <==> forall k :: 0 <= k < |shader.queries| ==> QueryUsable(env, layouts, key.groups, shader.queries[k])
  {
    var f := (q: QueryBinding) => QueryOf(env, layouts, key.groups, shader.stage, q);
    CollectExactly(shader.queries, f);
    forall k | 0 <= k < |shader.queries|
      ensures f(shader.queries[k]).Some? <==> QueryUsable(env, layouts, key.groups, shader.queries[k])
    {
      QueryMeans(env, layouts, key.groups, shader.stage, shader.queries[k]);
    }
  }

  lemma QueriesMean(
    env: Env, layouts: seq<nat>, key: Key, shader: Shader, before: seq<Constant>, rest: seq<Constant>)
    requires |before| == QueriesFrom(shader) && QueriesOf(env, layouts, key.groups, shader).Some?
    ensures QueriesShown(env, layouts, key, shader,
      before + QueriesOf(env, layouts, key.groups, shader).value + rest)
  {
    var f := (q: QueryBinding) => QueryOf(env, layouts, key.groups, shader.stage, q);
    CollectExactly(shader.queries, f);
    var found := QueriesOf(env, layouts, key.groups, shader).value;
    forall k, levels: nat | 0 <= k < |shader.queries| && QueryTakes(env, layouts, key.groups, shader.queries[k], levels)
      ensures (before + found + rest)[QueriesFrom(shader) + k]
        == Constant(shader.stage, shader.queries[k].firstRegister, [levels, 0, 0, 0])
    {
      QueryMeans(env, layouts, key.groups, shader.stage, shader.queries[k]);
      assert f(shader.queries[k]) == Some(found[k]);
      assert (before + found + rest)[QueriesFrom(shader) + k] == found[k];
    }
  }

  lemma TexturesUsable(env: Env, layouts: seq<nat>, key: Key, shader: Shader)
    ensures TexturesOf(env, layouts, key.groups, shader).Some?
      <==> forall k :: 0 <= k < |shader.textures| ==> TextureUsable(env, layouts, key.groups, shader.textures[k])
  {
    var f := (b: TextureBinding) => TextureOf(env, layouts, key.groups, shader.stage, b);
    CollectExactly(shader.textures, f);
    forall k | 0 <= k < |shader.textures|
      ensures f(shader.textures[k]).Some? <==> TextureUsable(env, layouts, key.groups, shader.textures[k])
    {
      TextureMeans(env, layouts, key.groups, shader.stage, shader.textures[k]);
    }
  }

  lemma TexturesMean(env: Env, layouts: seq<nat>, key: Key, shader: Shader)
    requires TexturesOf(env, layouts, key.groups, shader).Some?
    ensures var found := TexturesOf(env, layouts, key.groups, shader).value;
      && TexturesShown(env, layouts, key, shader, Firsts(found))
      && SrgbShown(env, layouts, key, shader, Seconds(found))
  {
    var f := (b: TextureBinding) => TextureOf(env, layouts, key.groups, shader.stage, b);
    CollectExactly(shader.textures, f);
    TexturesUsable(env, layouts, key, shader);
    var found := TexturesOf(env, layouts, key.groups, shader).value;
    forall k | 0 <= k < |shader.textures|
      ensures TextureShown(env, layouts, key, shader, k, found[k])
    {
      assert f(shader.textures[k]) == Some(found[k]);
      assert TextureUsable(env, layouts, key.groups, shader.textures[k]);
      TextureIsShown(env, layouts, key, shader, k, found[k]);
    }
    TexturesGathered(env, layouts, key, shader, found);
  }

  lemma TextureIsShown(env: Env, layouts: seq<nat>, key: Key, shader: Shader, k: nat, found: (TextureOut, bool))
    requires k < |shader.textures| && TextureUsable(env, layouts, key.groups, shader.textures[k])
    requires TextureOf(env, layouts, key.groups, shader.stage, shader.textures[k]) == Some(found)
    ensures TextureShown(env, layouts, key, shader, k, found)
  {
    TextureMeans(env, layouts, key.groups, shader.stage, shader.textures[k]);
  }

  lemma TexturesGathered(
    env: Env, layouts: seq<nat>, key: Key, shader: Shader, found: seq<(TextureOut, bool)>)
    requires |found| == |shader.textures|
    requires forall k :: 0 <= k < |found| ==> TextureShown(env, layouts, key, shader, k, found[k])
    ensures TexturesShown(env, layouts, key, shader, Firsts(found))
    ensures SrgbShown(env, layouts, key, shader, Seconds(found))
  {
    forall k | 0 <= k < |found|
      ensures Firsts(found)[k] == found[k].0 && Seconds(found)[k] == found[k].1
      ensures TextureShown(env, layouts, key, shader, k, found[k])
    {
    }
  }

  ghost predicate TextureShown(
    env: Env, layouts: seq<nat>, key: Key, shader: Shader, k: nat, found: (TextureOut, bool))
    requires k < |shader.textures|
  {
    && (forall t: nat, format: nat, state ::
         ImageTakes(env, layouts, key.groups, shader.textures[k], t, format)
         && SamplerTakes(env, layouts, key.groups, shader.textures[k], state) ==>
         found.0 == TextureOut(shader.stage, shader.textures[k].slot, t, state))
    && forall t: nat, format: nat ::
         ImageTakes(env, layouts, key.groups, shader.textures[k], t, format) ==> found.1 == env.srgb(format)
  }

  ghost predicate SrgbShown(env: Env, layouts: seq<nat>, key: Key, shader: Shader, srgb: seq<bool>) {
    && |srgb| == |shader.textures|
    && forall k, t: nat, format: nat ::
         0 <= k < |srgb| && ImageTakes(env, layouts, key.groups, shader.textures[k], t, format) ==>
         srgb[k] == env.srgb(format)
  }

  lemma {:induction false} FlagsBits(textures: seq<TextureBinding>, srgb: seq<bool>, i: nat)
    requires |textures| == |srgb| && i < 16
    ensures Flags(textures, srgb)[i] == 0 || Flags(textures, srgb)[i] == 1
    ensures Flags(textures, srgb)[i] == 1 ==> exists k :: 0 <= k < |textures| && textures[k].slot == i
  {
    if textures != [] {
      var n := |textures| - 1;
      FlagsBits(textures[..n], srgb[..n], i);
      if textures[n].slot != i && Flags(textures, srgb)[i] == 1 {
        var k :| 0 <= k < n && textures[..n][k].slot == i;
        assert textures[k].slot == i;
      }
    }
  }

  lemma {:induction false} FlagsLast(textures: seq<TextureBinding>, srgb: seq<bool>, k: nat)
    requires |textures| == |srgb| && LastOfSlot(textures, k) && textures[k].slot < 16
    ensures Flags(textures, srgb)[textures[k].slot] == if srgb[k] then 1 else 0
  {
    var n := |textures| - 1;
    if k < n {
      FlagsLast(textures[..n], srgb[..n], k);
    }
  }

  lemma FlagsShow(
    env: Env, layouts: seq<nat>, key: Key, shader: Shader, srgb: seq<bool>, before: seq<Constant>, rest: seq<Constant>)
    requires WellFormedShader(shader) && SrgbShown(env, layouts, key, shader, srgb) && |before| == FlagsFrom(shader)
    ensures |FlagsOf(shader, srgb)| == PushFrom(shader) - FlagsFrom(shader)
    ensures FlagsShown(env, layouts, key, shader, before + FlagsOf(shader, srgb) + rest)
  {
    forall i | 0 <= i < 16 ensures 0 <= Flags(shader.textures, srgb)[i] <= 1 {
      FlagsBits(shader.textures, srgb, i);
    }
    forall k: nat | LastOfSlot(shader.textures, k)
      ensures Flags(shader.textures, srgb)[shader.textures[k].slot] == if srgb[k] then 1 else 0
    {
      FlagsLast(shader.textures, srgb, k);
    }
    if shader.flagsRegister.Some? {
      var constant := FlagsOf(shader, srgb)[0];
      assert (before + FlagsOf(shader, srgb) + rest)[FlagsFrom(shader)] == constant;
      forall i | 0 <= i < |constant.words| && constant.words[i] == 1
        ensures exists k :: 0 <= k < |shader.textures| && shader.textures[k].slot == i
      {
        FlagsBits(shader.textures, srgb, i);
      }
    }
  }

  lemma PushShow(key: Key, shader: Shader, before: seq<Constant>, rest: seq<Constant>)
    requires shader.stage < |key.push| && |before| == PushFrom(shader)
    ensures var found := PushOf(shader, key.push[shader.stage]);
      && (found.Some? <==> PushUsable(key, shader))
      && (found.Some? ==>
           |found.value| == UniformsFrom(shader) - PushFrom(shader)
           && PushShown(key, shader, before + found.value + rest))
  {
    if shader.push.Some? && shader.push.value.size <= |key.push[shader.stage]| {
      var size := shader.push.value.size;
      PaddedMeans(key.push[shader.stage][..size], size);
      var found := PushOf(shader, key.push[shader.stage]);
      if found.Some? {
        assert (before + found.value + rest)[PushFrom(shader)] == found.value[0];
      }
    }
  }

  lemma UniformsUsable(env: Env, layouts: seq<nat>, key: Key, shader: Shader)
    ensures UniformsOf(env, layouts, key.groups, shader).Some?
      <==> forall k :: 0 <= k < |shader.uniforms| ==> UniformUsable(env, layouts, key.groups, shader.uniforms[k])
  {
    var f := (b: UniformBinding) => UniformOf(env, layouts, key.groups, shader.stage, b);
    CollectExactly(shader.uniforms, f);
    forall k | 0 <= k < |shader.uniforms|
      ensures f(shader.uniforms[k]).Some? <==> UniformUsable(env, layouts, key.groups, shader.uniforms[k])
    {
      UniformMeans(env, layouts, key.groups, shader.stage, shader.uniforms[k]);
    }
  }

  lemma UniformsMean(env: Env, layouts: seq<nat>, key: Key, shader: Shader, before: seq<Constant>)
    requires |before| == UniformsFrom(shader) && UniformsOf(env, layouts, key.groups, shader).Some?
    ensures UniformsShown(env, layouts, key, shader, before + UniformsOf(env, layouts, key.groups, shader).value)
  {
    var f := (b: UniformBinding) => UniformOf(env, layouts, key.groups, shader.stage, b);
    CollectExactly(shader.uniforms, f);
    var found := UniformsOf(env, layouts, key.groups, shader).value;
    forall k, bytes | 0 <= k < |shader.uniforms| && UniformTakes(env, layouts, key.groups, shader.uniforms[k], bytes)
      ensures var constant := (before + found)[UniformsFrom(shader) + k];
        && constant.stage == shader.stage && constant.firstRegister == shader.uniforms[k].firstRegister
        && BankOf(constant.words, bytes, shader.uniforms[k].size)
    {
      UniformMeans(env, layouts, key.groups, shader.stage, shader.uniforms[k]);
      assert f(shader.uniforms[k]) == Some(found[k]);
      assert (before + found)[UniformsFrom(shader) + k] == found[k];
    }
  }

  /** A shader is built exactly when all its bindings find what they need, and then shows it. */
  lemma ShaderMeans(env: Env, layouts: seq<nat>, key: Key, shader: Shader)
    requires WellFormedShader(shader) && shader.stage < |key.push|
    ensures ShaderScratch(env, layouts, key, shader).Some? <==> ShaderBound(env, layouts, key, shader)
    ensures var found := ShaderScratch(env, layouts, key, shader);
      found.Some? ==>
        ShaderShown(env, layouts, key, shader, found.value.constants, found.value.textures, found.value.storages)
  {
    var storages := StoragesOf(env, layouts, key.groups, shader);
    var queries := QueriesOf(env, layouts, key.groups, shader);
    var textures := TexturesOf(env, layouts, key.groups, shader);
    var push := PushOf(shader, key.push[shader.stage]);
    var uniforms := UniformsOf(env, layouts, key.groups, shader);
    StoragesUsable(env, layouts, key, shader);
    QueriesUsable(env, layouts, key, shader);
    TexturesUsable(env, layouts, key, shader);
    PushShow(key, shader, seq(PushFrom(shader), _ => Constant(0, 0, [])), []);
    UniformsUsable(env, layouts, key, shader);
    if storages.Some? && queries.Some? && textures.Some? && push.Some? && uniforms.Some? {
      PartsShown(env, layouts, key, shader, storages.value, queries.value, textures.value, push.value, uniforms.value);
    }
  }

  lemma PartsShown(
    env: Env, layouts: seq<nat>, key: Key, shader: Shader, storages: seq<(StorageOut, Constant)>,
    queries: seq<Constant>, textures: seq<(TextureOut, bool)>, push: seq<Constant>, uniforms: seq<Constant>)
    requires WellFormedShader(shader) && shader.stage < |key.push|
    requires StoragesOf(env, layouts, key.groups, shader) == Some(storages)
    requires QueriesOf(env, layouts, key.groups, shader) == Some(queries)
    requires TexturesOf(env, layouts, key.groups, shader) == Some(textures)
    requires PushOf(shader, key.push[shader.stage]) == Some(push)
    requires UniformsOf(env, layouts, key.groups, shader) == Some(uniforms)
    ensures ShaderShown(env, layouts, key, shader,
      Seconds(storages) + queries + FlagsOf(shader, Seconds(textures)) + push + uniforms, Firsts(textures),
      Firsts(storages))
  {
    var a, flags := Seconds(storages), FlagsOf(shader, Seconds(textures));
    TexturesMean(env, layouts, key, shader);
    StoragesMean(env, layouts, key, shader, queries + flags + push + uniforms);
    QueriesMean(env, layouts, key, shader, a, flags + push + uniforms);
    FlagsShow(env, layouts, key, shader, Seconds(textures), a + queries, push + uniforms);
    PushShow(key, shader, a + queries + flags, uniforms);
    UniformsMean(env, layouts, key, shader, a + queries + flags + push);
    Regroup(a, queries, flags, push, uniforms);
  }

  lemma Regroup<T>(a: seq<T>, b: seq<T>, c: seq<T>, d: seq<T>, e: seq<T>)
    ensures a + b + c + d + e == a + (b + c + d + e)
    ensures a + b + c + d + e == a + b + (c + d + e)
    ensures a + b + c + d + e == (a + b) + c + (d + e)
  {
  }

  // ---------------------------------------------------------------- whole draws

  /** A draw can be built. */
  ghost predicate DrawBound(env: Env, key: Key)
    requires WellFormed(env) && ValidKey(env, key)
  {
    var pipeline := env.pipelines[key.pipeline];
    && ShaderBound(env, pipeline.layouts, key, pipeline.vertex)
    && ShaderBound(env, pipeline.layouts, key, pipeline.fragment)
  }

  /** The vertex shader's entries come first, then those of the fragment shader. */
  ghost predicate DrawShown(env: Env, key: Key, parts: Parts)
    requires WellFormed(env) && ValidKey(env, key)
  {
    var pipeline := env.pipelines[key.pipeline];
    var c, t, s := ConstantCount(pipeline.vertex), |pipeline.vertex.textures|, |pipeline.vertex.storages|;
    && parts.pipeline == key.pipeline
    && c <= |parts.constants| && t <= |parts.textures| && s <= |parts.storages|
    && ShaderShown(env, pipeline.layouts, key, pipeline.vertex, parts.constants[..c], parts.textures[..t],
         parts.storages[..s])
    && ShaderShown(env, pipeline.layouts, key, pipeline.fragment, parts.constants[c..], parts.textures[t..],
         parts.storages[s..])
  }

  lemma DrawMeans(env: Env, key: Key, index: Option<IndexBinding>)
    requires WellFormed(env) && ValidKey(env, key)
    ensures Scratch(env, key, index).Some? <==> DrawBound(env, key)
    ensures var found := Scratch(env, key, index);
      found.Some? ==> found.value.index == index && DrawShown(env, key, found.value)
  {
    var pipeline := env.pipelines[key.pipeline];
    ShaderMeans(env, pipeline.layouts, key, pipeline.vertex);
    ShaderMeans(env, pipeline.layouts, key, pipeline.fragment);
    var found := Scratch(env, key, index);
    if found.Some? {
      var vertex := ShaderScratch(env, pipeline.layouts, key, pipeline.vertex).value;
      var fragment := ShaderScratch(env, pipeline.layouts, key, pipeline.fragment).value;
      assert found.value.constants[..|vertex.constants|] == vertex.constants;
      assert found.value.constants[|vertex.constants|..] == fragment.constants;
      assert found.value.textures[..|vertex.textures|] == vertex.textures;
      assert found.value.textures[|vertex.textures|..] == fragment.textures;
      assert found.value.storages[..|vertex.storages|] == vertex.storages;
      assert found.value.storages[|vertex.storages|..] == fragment.storages;
    }
  }
}
