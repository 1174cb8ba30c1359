/**
 What a programmable draw of one render pass carries, rebuilt from the state of
 the pass: the snapshot of constants, textures and storage bindings.
 */
module DrawParts {
  import opened Common
  import IB = IndexBounds
  import VF = VertexFetch

  datatype Resource =
    | BufferResource(buffer: nat, offset: nat, size: nat)
    | TextureResource(texture: nat)
    | ViewResource(texture: nat, format: nat, dimension: nat, baseMip: nat, levels: nat, baseLayer: nat, layers: nat)
    | SamplerResource(sampler: nat)

  datatype Group = Group(layout: nat, entries: map<nat, Resource>)
  datatype BufferDesc = BufferDesc(size: nat, storage: bool, revision: nat)
  datatype TextureDesc = TextureDesc(format: nat, levels: nat, layers: nat, sampled: bool, dimension: nat, depth: bool)
  datatype SamplerDesc = SamplerDesc(anisotropy: nat, comparison: bool, state: nat)

  datatype StorageBinding = StorageBinding(group: nat, binding: nat, slot: nat, firstRegister: nat)
  datatype QueryBinding = QueryBinding(group: nat, binding: nat, firstRegister: nat)
  datatype TextureBinding = TextureBinding(
    imageGroup: nat, imageBinding: nat, slot: nat, dimension: nat, depth: bool,
    usesSampler: bool, samplerGroup: nat, samplerBinding: nat, comparison: bool)
  datatype UniformBinding = UniformBinding(group: nat, binding: nat, firstRegister: nat, size: nat, requiredSize: nat)
  datatype PushBlock = PushBlock(firstRegister: nat, size: nat)
  datatype Shader = Shader(
    stage: nat, storages: seq<StorageBinding>, queries: seq<QueryBinding>, textures: seq<TextureBinding>,
    flagsRegister: Option<nat>, push: Option<PushBlock>, uniforms: seq<UniformBinding>)
  datatype Pipeline = Pipeline(vertex: Shader, fragment: Shader, layouts: seq<nat>, vertexLayouts: seq<VF.Layout>)

  /** Everything fixed while a pass is open. */
  datatype Env = Env(
    groups: seq<Group>, buffers: seq<BufferDesc>, textures: seq<TextureDesc>, samplers: seq<SamplerDesc>,
    pipelines: seq<Pipeline>, views: seq<seq<byte>>, srgb: nat -> bool, compatible: (nat, nat) -> bool,
    colors: seq<nat>, depth: Option<nat>, depthReadOnly: bool, anisotropy: bool, viewLimit: nat)

  datatype Key = Key(pipeline: nat, groups: seq<Option<nat>>, push: seq<seq<byte>>)

  datatype Constant = Constant(stage: nat, firstRegister: nat, words: seq<nat>)
  datatype StorageOut = StorageOut(stage: nat, slot: nat, buffer: nat, size: nat, revision: nat)
  datatype TextureOut = TextureOut(stage: nat, slot: nat, texture: nat, sampler: Option<nat>)
  datatype IndexBinding = IndexBinding(buffer: nat, offset: nat, format: IB.IndexFormat, baseVertex: int)

  /** A draw command: vertices, or indices when it names a base vertex. */
  datatype DrawCall = DrawCall(first: nat, count: nat, baseVertex: Option<int>, firstInstance: nat, instanceCount: nat)

  /** A bound vertex or index buffer and where it starts. */
  datatype VertexSource = VertexSource(buffer: nat, offset: nat)
  datatype IndexSource = IndexSource(buffer: nat, offset: nat, format: IB.IndexFormat)

  /** What a draw carries to the device. */
  datatype Parts = Parts(
    pipeline: nat, index: Option<IndexBinding>, constants: seq<Constant>, textures: seq<TextureOut>,
    storages: seq<StorageOut>)

  predicate WellFormedShader(shader: Shader) {
    && shader.stage < 2 && |shader.storages| + |shader.textures| <= 16
    && (forall t :: 0 <= t < |shader.textures| ==> shader.textures[t].slot < 16)
    && (shader.push.Some? ==> shader.push.value.size <= 128)
  }

  predicate WellFormed(env: Env) {
    forall p :: 0 <= p < |env.pipelines| ==>
      && WellFormedShader(env.pipelines[p].vertex) && env.pipelines[p].vertex.stage == 0
      && WellFormedShader(env.pipelines[p].fragment) && env.pipelines[p].fragment.stage == 1
      && |env.pipelines[p].vertexLayouts| <= 8
      && forall l :: 0 <= l < |env.pipelines[p].vertexLayouts| ==> VF.ValidLayout(env.pipelines[p].vertexLayouts[l])
  }

  // ------------------------------------------------------------ constant words

  /** Small banks inline, larger ones shared; a reader sees only the words. */
  datatype ConstantBank = Inline(words: seq<nat>, len: nat) | Shared(words: seq<nat>)

  predicate ValidBank(bank: ConstantBank) { bank.Inline? ==> |bank.words| == 32 && bank.len <= 32 }

  function AsSlice(bank: ConstantBank): seq<nat>
    requires ValidBank(bank)
  {
    match bank case Inline(words, len) => words[..len] case Shared(words) => words
  }

  function Word(bytes: seq<byte>, k: nat): nat {
    ByteAt(bytes, 4 * k) as nat + 256 * (ByteAt(bytes, 4 * k + 1) as nat) + 65536 * (ByteAt(bytes, 4 * k + 2) as nat)
    + 16777216 * (ByteAt(bytes, 4 * k + 3) as nat)
  }

  /** The words of `bytes`, zero up to `padded` bytes; none for sizes no bank has. */
  function PaddedWords(bytes: seq<byte>, padded: nat): Option<seq<nat>> {
    if |bytes| % 4 != 0 || padded % 16 != 0 || padded < |bytes| then None
    else Some(seq(padded / 4, k requires 0 <= k => Word(bytes, k)))
  }

  /** Both representations hold exactly the padded words. */
  method ConstantWords(bytes: seq<byte>, padded: nat) returns (bank: Option<ConstantBank>)
    ensures bank.Some? <==> PaddedWords(bytes, padded).Some?
    ensures bank.Some? ==> ValidBank(bank.value) && Some(AsSlice(bank.value)) == PaddedWords(bytes, padded)
  {
    if |bytes| % 4 != 0 || padded % 16 != 0 || padded < |bytes| {
      return None;
    }
    var len := padded / 4;
    if len <= 32 {
      var words := seq(32, _ => 0);
      var k := 0;
      while k < |bytes| / 4
        invariant 0 <= k <= |bytes| / 4 <= 32 && |words| == 32
        invariant forall j :: 0 <= j < 32 ==> words[j] == if j < k then Word(bytes, j) else 0
      {
        words := words[k := Word(bytes, k)];
        k := k + 1;
      }
      assert words[..len] == seq(len, k requires 0 <= k => Word(bytes, k));
      return Some(Inline(words, len));
    }
    var words: seq<nat> := [];
    var k := 0;
    while k < |bytes| / 4
      invariant 0 <= k <= |bytes| / 4 && |words| == k
      invariant forall j :: 0 <= j < k ==> words[j] == Word(bytes, j)
    {
      words := words + [Word(bytes, k)];
      k := k + 1;
    }
    words := words + seq(len - |words|, _ => 0);
    assert words == seq(len, k requires 0 <= k => Word(bytes, k));
    return Some(Shared(words));
  }

  // ------------------------------------------------------- rebuilt from scratch

  /** The resource a binding names, when the group is bound and laid out as the pipeline expects. */
  function ResourceAt(env: Env, layouts: seq<nat>, groups: seq<Option<nat>>, group: nat, binding: nat)
    : Option<Resource>
  {
    if group < |groups| && groups[group].Some? && groups[group].value < |env.groups| && group < |layouts|
       && layouts[group] == env.groups[groups[group].value].layout
       && binding in env.groups[groups[group].value].entries
    then Some(env.groups[groups[group].value].entries[binding]) else None
  }

  function BufferSpec(env: Env, buffer: nat): Option<(nat, nat)> {
    if buffer >= |env.buffers| || buffer >= |env.views| || env.buffers[buffer].size > 0xFFFF_FFFF
       || |env.views[buffer]| == 0 || |env.views[buffer]| % 4 != 0 then None
    else Some((env.buffers[buffer].size, env.buffers[buffer].revision))
  }

  function StorageOf(env: Env, layouts: seq<nat>, groups: seq<Option<nat>>, stage: nat, b: StorageBinding):
    Option<(StorageOut, Constant)>
  {
    var resource := ResourceAt(env, layouts, groups, b.group, b.binding);
    if resource.None? || !resource.value.BufferResource? then None
    else
      var r := resource.value;
      if r.buffer >= |env.buffers| || !env.buffers[r.buffer].storage || env.buffers[r.buffer].size > env.viewLimit
         || r.size == 0 || r.size > env.viewLimit || r.offset % 4 != 0 || r.size % 4 != 0
         || r.offset + r.size > env.buffers[r.buffer].size || BufferSpec(env, r.buffer).None? then None
      else
        var spec := BufferSpec(env, r.buffer).value;
        Some((StorageOut(stage, b.slot, r.buffer, spec.0, spec.1),
          Constant(stage, b.firstRegister, [r.offset, r.size, 0, 0])))
  }

  function QueryOf(env: Env, layouts: seq<nat>, groups: seq<Option<nat>>, stage: nat, q: QueryBinding)
    : Option<Constant>
  {
    match ResourceAt(env, layouts, groups, q.group, q.binding)
    case Some(TextureResource(t)) =>
      if t < |env.textures| && env.textures[t].sampled && env.textures[t].levels > 0
      then Some(Constant(stage, q.firstRegister, [env.textures[t].levels, 0, 0, 0])) else None
    case Some(ViewResource(t, _, _, _, levels, _, _)) =>
      if t < |env.textures| && env.textures[t].sampled && 0 < levels <= env.textures[t].levels
      then Some(Constant(stage, q.firstRegister, [levels, 0, 0, 0])) else None
    case _ => None
  }

  /** The texture a resource shows and the format it is read in. */
  function ImageOf(env: Env, resource: Resource): Option<(nat, nat)> {
    match resource
    case TextureResource(t) => if t < |env.textures| then Some((t, env.textures[t].format)) else None
    case ViewResource(t, format, _, _, _, _, _) => if t < |env.textures| then Some((t, format)) else None
    case _ => None
  }

  predicate ViewUsable(env: Env, resource: Resource, b: TextureBinding) {
    resource.ViewResource? ==>
      && resource.texture < |env.textures|
      && resource.dimension == b.dimension && env.compatible(env.textures[resource.texture].format, resource.format)
      && resource.baseMip == 0 && resource.levels == env.textures[resource.texture].levels
      && resource.baseLayer == 0 && resource.layers == env.textures[resource.texture].layers
  }

  /** No feedback: a sampled texture is not written by the pass. */
  predicate Samplable(env: Env, texture: nat, b: TextureBinding)
    requires texture < |env.textures|
  {
    && env.textures[texture].sampled && texture !in env.colors
    && (env.depth == Some(texture) ==> env.depthReadOnly)
    && env.textures[texture].dimension == b.dimension && (b.depth ==> env.textures[texture].depth)
  }

  function SamplerOf(env: Env, layouts: seq<nat>, groups: seq<Option<nat>>, b: TextureBinding): Option<Option<nat>> {
    if !b.usesSampler then Some(None)
    else
      match ResourceAt(env, layouts, groups, b.samplerGroup, b.samplerBinding)
      case Some(SamplerResource(s)) =>
        if s < |env.samplers| && (env.samplers[s].anisotropy > 1 ==> env.anisotropy)
           && env.samplers[s].comparison == b.comparison
        then Some(Some(env.samplers[s].state)) else None
      case _ => None
  }

  /** The texture binding and whether its view is read as sRGB. */
  function TextureOf(env: Env, layouts: seq<nat>, groups: seq<Option<nat>>, stage: nat, b: TextureBinding):
    Option<(TextureOut, bool)>
  {
    var resource := ResourceAt(env, layouts, groups, b.imageGroup, b.imageBinding);
    if resource.None? || !ViewUsable(env, resource.value, b) || ImageOf(env, resource.value).None? then None
    else
      var image := ImageOf(env, resource.value).value;
      var sampler := SamplerOf(env, layouts, groups, b);
      if !Samplable(env, image.0, b) || sampler.None? then None
      else Some((TextureOut(stage, b.slot, image.0, sampler.value), env.srgb(image.1)))
  }

  function UniformOf(env: Env, layouts: seq<nat>, groups: seq<Option<nat>>, stage: nat, b: UniformBinding)
    : Option<Constant>
  {
    match ResourceAt(env, layouts, groups, b.group, b.binding)
    case Some(BufferResource(buffer, offset, size)) =>
      if buffer >= |env.views| || offset > 0xFFFF_FFFF || offset + b.requiredSize > |env.views[buffer]|
         || b.requiredSize > b.size || size < b.requiredSize || size > 16384 then None
      else
        var words := PaddedWords(env.views[buffer][offset..offset + b.requiredSize], (b.size + 15) / 16 * 16);
        if words.None? then None else Some(Constant(stage, b.firstRegister, words.value))
    case _ => None
  }

  function PushOf(shader: Shader, push: seq<byte>): Option<seq<Constant>> {
    if shader.push.None? then Some([])
    else if shader.push.value.size > |push| then None
    else
      var words := PaddedWords(push[..shader.push.value.size], (shader.push.value.size + 15) / 16 * 16);
      if words.None? then None else Some([Constant(shader.stage, shader.push.value.firstRegister, words.value)])
  }

  /** Every binding resolved, or none at all. */
  function Collect<B, R>(bindings: seq<B>, resolve: B -> Option<R>): (r: Option<seq<R>>)
    ensures r.Some? ==> |r.value| == |bindings|
  {
    if bindings == [] then Some([])
    else
      var n := |bindings| - 1;
      var before, last := Collect(bindings[..n], resolve), resolve(bindings[n]);
      if before.Some? && last.Some? then Some(before.value + [last.value]) else None
  }

  /** One sRGB flag per texture slot. */
  function Flags(textures: seq<TextureBinding>, srgb: seq<bool>): (r: seq<nat>)
    requires |textures| == |srgb|
    ensures |r| == 16
  {
    if textures == [] then seq(16, _ => 0)
    else
      var n := |textures| - 1;
      var before := Flags(textures[..n], srgb[..n]);
      if textures[n].slot < 16 then before[textures[n].slot := if srgb[n] then 1 else 0] else before
  }

  function FlagsOf(shader: Shader, srgb: seq<bool>): seq<Constant>
    requires |srgb| == |shader.textures|
  {
    if shader.flagsRegister.None? then []
    else
      var slots := |shader.storages| + |shader.textures|;
      var words := seq((slots + 3) / 4 * 4, k requires 0 <= k =>
        if k < slots && k < 16 then Flags(shader.textures, srgb)[k] else 0);
      [Constant(shader.stage, shader.flagsRegister.value, words)]
  }

  datatype ShaderParts = ShaderParts(constants: seq<Constant>, textures: seq<TextureOut>, storages: seq<StorageOut>)

  function Firsts<A, B>(pairs: seq<(A, B)>): (r: seq<A>)
    ensures |r| == |pairs|
  {
    seq(|pairs|, k requires 0 <= k < |pairs| => pairs[k].0)
  }

  function Seconds<A, B>(pairs: seq<(A, B)>): (r: seq<B>)
    ensures |r| == |pairs|
  {
    seq(|pairs|, k requires 0 <= k < |pairs| => pairs[k].1)
  }

  function StoragesOf(env: Env, layouts: seq<nat>, groups: seq<Option<nat>>, shader: Shader)
    : Option<seq<(StorageOut, Constant)>>
  {
    Collect(shader.storages, b => StorageOf(env, layouts, groups, shader.stage, b))
  }

  function QueriesOf(env: Env, layouts: seq<nat>, groups: seq<Option<nat>>, shader: Shader): Option<seq<Constant>> {
    Collect(shader.queries, q => QueryOf(env, layouts, groups, shader.stage, q))
  }

  function TexturesOf(env: Env, layouts: seq<nat>, groups: seq<Option<nat>>, shader: Shader)
    : (r: Option<seq<(TextureOut, bool)>>)
    ensures r.Some? ==> |r.value| == |shader.textures|
  {
    Collect(shader.textures, b => TextureOf(env, layouts, groups, shader.stage, b))
  }

  function UniformsOf(env: Env, layouts: seq<nat>, groups: seq<Option<nat>>, shader: Shader): Option<seq<Constant>> {
    Collect(shader.uniforms, b => UniformOf(env, layouts, groups, shader.stage, b))
  }

  /** The constants of one shader, in register-bank order of construction. */
  function ShaderConstants(env: Env, layouts: seq<nat>, key: Key, shader: Shader): Option<seq<Constant>>
    requires shader.stage < |key.push|
  {
    var storages := StoragesOf(env, layouts, key.groups, shader);
    var queries := QueriesOf(env, layouts, key.groups, shader);
    var textures := TexturesOf(env, layouts, key.groups, shader);
    var push := PushOf(shader, key.push[shader.stage]);
    var uniforms := UniformsOf(env, layouts, key.groups, shader);
    if storages.Some? && queries.Some? && textures.Some? && push.Some? && uniforms.Some? then
      Some(Seconds(storages.value) + queries.value + FlagsOf(shader, Seconds(textures.value))
           + push.value + uniforms.value)
    else None
  }

  function ShaderScratch(env: Env, layouts: seq<nat>, key: Key, shader: Shader): Option<ShaderParts>
    requires shader.stage < |key.push|
  {
    var constants := ShaderConstants(env, layouts, key, shader);
    if constants.None? then None
    else
      Some(ShaderParts(constants.value, Firsts(TexturesOf(env, layouts, key.groups, shader).value),
                       Firsts(StoragesOf(env, layouts, key.groups, shader).value)))
  }

  predicate ValidKey(env: Env, key: Key) { key.pipeline < |env.pipelines| && |key.push| == 2 }

  /** A draw rebuilt from the pass state alone. */
  function Scratch(env: Env, key: Key, index: Option<IndexBinding>): Option<Parts>
    requires WellFormed(env) && ValidKey(env, key)
  {
    var pipeline := env.pipelines[key.pipeline];
    var vertex := ShaderScratch(env, pipeline.layouts, key, pipeline.vertex);
    var fragment := ShaderScratch(env, pipeline.layouts, key, pipeline.fragment);
    if vertex.None? || fragment.None? then None
    else
      Some(Parts(key.pipeline, index, vertex.value.constants + fragment.value.constants,
                 vertex.value.textures + fragment.value.textures, vertex.value.storages + fragment.value.storages))
  }

  lemma {:induction false} CollectSame<B, R>(bindings: seq<B>, f: B -> Option<R>, g: B -> Option<R>)
    requires forall k :: 0 <= k < |bindings| ==> f(bindings[k]) == g(bindings[k])
    ensures Collect(bindings, f) == Collect(bindings, g)
  {
    if bindings != [] {
      CollectSame(bindings[..|bindings| - 1], f, g);
    }
  }

  lemma {:induction false} CollectAt<B, R>(bindings: seq<B>, f: B -> Option<R>)
    requires Collect(bindings, f).Some?
    ensures forall k :: 0 <= k < |bindings| ==> f(bindings[k]) == Some(Collect(bindings, f).value[k])
  {
    if bindings != [] {
      CollectAt(bindings[..|bindings| - 1], f);
    }
  }

  lemma {:induction false} CollectNone<B, R>(bindings: seq<B>, f: B -> Option<R>, k: nat)
    requires k < |bindings| && f(bindings[k]).None?
    ensures Collect(bindings, f).None?
  {
    if k < |bindings| - 1 {
      CollectNone(bindings[..|bindings| - 1], f, k);
    }
  }
}
