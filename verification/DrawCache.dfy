/**
 Programmable draws of one render pass: the snapshot of constants, textures and
 storage bindings each draw carries, and the one-entry cache that avoids
 rebuilding it. No buffer or definition changes inside a pass, so what the
 cache returns must be what a rebuild would give.
 */
module DrawCache {
  import opened Common
  import IB = IndexBounds
  import VF = VertexFetch
  import opened DrawParts
  import opened DrawLaw

  /** The entry a group holds, whatever its layout. */
  function EntryAt(env: Env, groups: seq<Option<nat>>, group: nat, binding: nat): Option<Resource> {
    if group < |groups| && groups[group].Some? && groups[group].value < |env.groups|
       && binding in env.groups[groups[group].value].entries
    then Some(env.groups[groups[group].value].entries[binding]) else None
  }

  /** The format a texture binding is read in, whatever its layout. */
  function FormatAt(env: Env, groups: seq<Option<nat>>, b: TextureBinding): Option<nat> {
    match EntryAt(env, groups, b.imageGroup, b.imageBinding)
    case Some(TextureResource(t)) => if t < |env.textures| then Some(env.textures[t].format) else None
    case Some(ViewResource(_, format, _, _, _, _, _)) => Some(format)
    case _ => None
  }

  predicate SameSrgb(env: Env, before: seq<Option<nat>>, after: seq<Option<nat>>, b: TextureBinding) {
    && FormatAt(env, before, b).Some? && FormatAt(env, after, b).Some?
    && env.srgb(FormatAt(env, before, b).value) == env.srgb(FormatAt(env, after, b).value)
  }

  /** The effective buffer range of a binding is unchanged. */
  predicate SameRange(
    env: Env, layouts: seq<nat>, before: seq<Option<nat>>, after: seq<Option<nat>>, group: nat, binding: nat)
  {
    && group < |before| && group < |after| && before[group].Some? && after[group].Some?
    && (before[group] == after[group]
        || (&& ResourceAt(env, layouts, after, group, binding).Some?
            && ResourceAt(env, layouts, after, group, binding).value.BufferResource?
            && EntryAt(env, before, group, binding) == ResourceAt(env, layouts, after, group, binding)))
  }

  predicate BrokenFormat(env: Env, before: seq<Option<nat>>, after: seq<Option<nat>>, b: TextureBinding) {
    FormatAt(env, before, b).None? || FormatAt(env, after, b).None?
  }

  datatype Verdict = Same | Changed | Broken

  /** Without queries, and with every texture read as sRGB or not as before, the flags are what they were. */
  ghost predicate SameFlags(env: Env, before: seq<Option<nat>>, after: seq<Option<nat>>, shader: Shader) {
    && shader.queries == []
    && (shader.flagsRegister.Some? ==>
          forall t :: 0 <= t < |shader.textures| ==> SameSrgb(env, before, after, shader.textures[t]))
  }

  /** Whether the sRGB flags of a shader are what they were. */
  method CompareFlags(env: Env, before: seq<Option<nat>>, after: seq<Option<nat>>, shader: Shader)
    returns (verdict: Verdict)
    ensures verdict.Same? <==> SameFlags(env, before, after, shader)
    ensures verdict.Broken? ==>
      exists t :: 0 <= t < |shader.textures| && BrokenFormat(env, before, after, shader.textures[t])
  {
    if shader.queries != [] {
      return Changed;
    }
    if shader.flagsRegister.None? {
      return Same;
    }
    var t := 0;
    while t < |shader.textures|
      invariant 0 <= t <= |shader.textures|
      invariant forall k :: 0 <= k < t ==> SameSrgb(env, before, after, shader.textures[k])
    {
      var was, now := FormatAt(env, before, shader.textures[t]), FormatAt(env, after, shader.textures[t]);
      if was.None? || now.None? {
        return Broken;
      }
      if env.srgb(was.value) != env.srgb(now.value) {
        return Changed;
      }
      t := t + 1;
    }
    return Same;
  }

  /** Uniform and storage bindings, in the order they are compared. */
  function Ranges(shader: Shader): (r: seq<(nat, nat)>)
    ensures |r| == |shader.uniforms| + |shader.storages|
    ensures forall k :: 0 <= k < |shader.uniforms| ==> r[k] == (shader.uniforms[k].group, shader.uniforms[k].binding)
    ensures forall k :: 0 <= k < |shader.storages| ==>
      r[|shader.uniforms| + k] == (shader.storages[k].group, shader.storages[k].binding)
  {
    seq(|shader.uniforms|, k requires 0 <= k < |shader.uniforms| =>
      (shader.uniforms[k].group, shader.uniforms[k].binding))
    + seq(|shader.storages|, k requires 0 <= k < |shader.storages| =>
      (shader.storages[k].group, shader.storages[k].binding))
  }

  ghost predicate SameRanges(
    env: Env, layouts: seq<nat>, before: seq<Option<nat>>, after: seq<Option<nat>>, shader: Shader)
  {
    forall k :: 0 <= k < |Ranges(shader)| ==>
      SameRange(env, layouts, before, after, Ranges(shader)[k].0, Ranges(shader)[k].1)
  }

  method CompareRanges(env: Env, layouts: seq<nat>, before: seq<Option<nat>>, after: seq<Option<nat>>, shader: Shader)
    returns (verdict: Verdict)
    ensures verdict.Same? <==> SameRanges(env, layouts, before, after, shader)
    ensures verdict.Broken? ==>
      exists k :: 0 <= k < |Ranges(shader)|
        && BrokenRange(env, layouts, before, after, Ranges(shader)[k].0, Ranges(shader)[k].1)
  {
    var ranges := Ranges(shader);
    var k := 0;
    while k < |ranges|
      invariant 0 <= k <= |ranges|
      invariant forall j :: 0 <= j < k ==> SameRange(env, layouts, before, after, ranges[j].0, ranges[j].1)
    {
      verdict := CompareRange(env, layouts, before, after, ranges[k].0, ranges[k].1);
      if !verdict.Same? {
        return;
      }
      k := k + 1;
    }
    return Same;
  }

  /** A binding the previous draw could not have had, or this one cannot have. */
  predicate BrokenRange(
    env: Env, layouts: seq<nat>, before: seq<Option<nat>>, after: seq<Option<nat>>, group: nat, binding: nat)
  {
    || group >= |before| || before[group].None?
    || ResourceAt(env, layouts, after, group, binding).None?
    || !ResourceAt(env, layouts, after, group, binding).value.BufferResource?
  }

  method CompareRange(
    env: Env, layouts: seq<nat>, before: seq<Option<nat>>, after: seq<Option<nat>>, group: nat, binding: nat)
    returns (verdict: Verdict)
    ensures verdict.Same? <==> SameRange(env, layouts, before, after, group, binding)
    ensures verdict.Broken? ==> BrokenRange(env, layouts, before, after, group, binding)
  {
    if group >= |before| || before[group].None? || group >= |after| || after[group].None? {
      return Broken;
    }
    if after[group] == before[group] {
      return Same;
    }
    var current := ResourceAt(env, layouts, after, group, binding);
    if current.None? || !current.value.BufferResource? {
      return Broken;
    }
    return if EntryAt(env, before, group, binding) == current then Same else Changed;
  }

  /** What must agree for the constants of one shader to be reusable. */
  ghost predicate Reusable(
    env: Env, layouts: seq<nat>, before: seq<Option<nat>>, after: seq<Option<nat>>, shader: Shader)
  {
    && (before != after ==> SameFlags(env, before, after, shader))
    && SameRanges(env, layouts, before, after, shader)
  }

  lemma UniformsReused(env: Env, layouts: seq<nat>, before: seq<Option<nat>>, after: seq<Option<nat>>, shader: Shader)
    requires Reusable(env, layouts, before, after, shader) && UniformsOf(env, layouts, before, shader).Some?
    ensures UniformsOf(env, layouts, after, shader) == UniformsOf(env, layouts, before, shader)
  {
    var f := (b: UniformBinding) => UniformOf(env, layouts, before, shader.stage, b);
    var g := (b: UniformBinding) => UniformOf(env, layouts, after, shader.stage, b);
    CollectAt(shader.uniforms, f);
    forall k | 0 <= k < |shader.uniforms| ensures f(shader.uniforms[k]) == g(shader.uniforms[k]) {
      var b := shader.uniforms[k];
      assert SameRange(env, layouts, before, after, Ranges(shader)[k].0, Ranges(shader)[k].1);
      assert UniformOf(env, layouts, before, shader.stage, b).Some?;
    }
    CollectSame(shader.uniforms, f, g);
  }

  lemma StoragesReused(env: Env, layouts: seq<nat>, before: seq<Option<nat>>, after: seq<Option<nat>>, shader: Shader)
    requires Reusable(env, layouts, before, after, shader) && StoragesOf(env, layouts, before, shader).Some?
    ensures StoragesOf(env, layouts, after, shader) == StoragesOf(env, layouts, before, shader)
  {
    var f := (b: StorageBinding) => StorageOf(env, layouts, before, shader.stage, b);
    var g := (b: StorageBinding) => StorageOf(env, layouts, after, shader.stage, b);
    CollectAt(shader.storages, f);
    forall k | 0 <= k < |shader.storages| ensures f(shader.storages[k]) == g(shader.storages[k]) {
      var b := shader.storages[k];
      var n := |shader.uniforms| + k;
      assert SameRange(env, layouts, before, after, Ranges(shader)[n].0, Ranges(shader)[n].1);
      assert StorageOf(env, layouts, before, shader.stage, b).Some?;
    }
    CollectSame(shader.storages, f, g);
  }

  lemma FlagsReused(env: Env, layouts: seq<nat>, before: seq<Option<nat>>, after: seq<Option<nat>>, shader: Shader)
    requires shader.flagsRegister.Some? ==>
      forall t :: 0 <= t < |shader.textures| ==> SameSrgb(env, before, after, shader.textures[t])
    requires TexturesOf(env, layouts, before, shader).Some? && TexturesOf(env, layouts, after, shader).Some?
    ensures FlagsOf(shader, Seconds(TexturesOf(env, layouts, after, shader).value))
         == FlagsOf(shader, Seconds(TexturesOf(env, layouts, before, shader).value))
  {
    if shader.flagsRegister.Some? {
      var f := (b: TextureBinding) => TextureOf(env, layouts, before, shader.stage, b);
      var g := (b: TextureBinding) => TextureOf(env, layouts, after, shader.stage, b);
      CollectAt(shader.textures, f);
      CollectAt(shader.textures, g);
      var was, now := TexturesOf(env, layouts, before, shader).value, TexturesOf(env, layouts, after, shader).value;
      forall t | 0 <= t < |shader.textures| ensures now[t].1 == was[t].1 {
        assert f(shader.textures[t]) == Some(was[t]) && g(shader.textures[t]) == Some(now[t]);
        assert SameSrgb(env, before, after, shader.textures[t]);
      }
      assert Seconds(now) == Seconds(was);
    }
  }

  /**
   Reused constants are the rebuilt ones: when the other checks of the new draw
   pass, rebuilding its constants gives exactly those of the previous draw.
   */
  lemma ConstantsReused(env: Env, layouts: seq<nat>, before: Key, after: Key, shader: Shader)
    requires shader.stage < |before.push| && before.push == after.push
    requires Reusable(env, layouts, before.groups, after.groups, shader)
    requires ShaderConstants(env, layouts, before, shader).Some?
    ensures ShaderConstants(env, layouts, after, shader)
         == if TexturesOf(env, layouts, after.groups, shader).Some? then ShaderConstants(env, layouts, before, shader)
            else None
  {
    if before.groups != after.groups && TexturesOf(env, layouts, after.groups, shader).Some? {
      UniformsReused(env, layouts, before.groups, after.groups, shader);
      StoragesReused(env, layouts, before.groups, after.groups, shader);
      FlagsReused(env, layouts, before.groups, after.groups, shader);
      assert QueriesOf(env, layouts, after.groups, shader) == QueriesOf(env, layouts, before.groups, shader)
        == Some([]);
    }
  }

  /** A flag comparison breaks only for a draw no rebuild can make either. */
  lemma BrokenFlagsFail(
    env: Env, layouts: seq<nat>, before: seq<Option<nat>>, after: seq<Option<nat>>, shader: Shader, t: nat)
    requires t < |shader.textures| && BrokenFormat(env, before, after, shader.textures[t])
    requires TexturesOf(env, layouts, before, shader).Some?
    ensures TexturesOf(env, layouts, after, shader).None?
  {
    var f := (b: TextureBinding) => TextureOf(env, layouts, before, shader.stage, b);
    var g := (b: TextureBinding) => TextureOf(env, layouts, after, shader.stage, b);
    CollectAt(shader.textures, f);
    assert f(shader.textures[t]).Some?;
    assert g(shader.textures[t]).None?;
    CollectNone(shader.textures, g, t);
  }

  lemma BrokenRangeFails(
    env: Env, layouts: seq<nat>, before: seq<Option<nat>>, after: seq<Option<nat>>, shader: Shader, k: nat)
    requires k < |Ranges(shader)| && BrokenRange(env, layouts, before, after, Ranges(shader)[k].0, Ranges(shader)[k].1)
    requires UniformsOf(env, layouts, before, shader).Some? && StoragesOf(env, layouts, before, shader).Some?
    ensures UniformsOf(env, layouts, after, shader).None? || StoragesOf(env, layouts, after, shader).None?
  {
    if k < |shader.uniforms| {
      var f := (b: UniformBinding) => UniformOf(env, layouts, before, shader.stage, b);
      var g := (b: UniformBinding) => UniformOf(env, layouts, after, shader.stage, b);
      CollectAt(shader.uniforms, f);
      assert f(shader.uniforms[k]).Some?;
      assert g(shader.uniforms[k]).None?;
      CollectNone(shader.uniforms, g, k);
    } else {
      var n := k - |shader.uniforms|;
      var f := (b: StorageBinding) => StorageOf(env, layouts, before, shader.stage, b);
      var g := (b: StorageBinding) => StorageOf(env, layouts, after, shader.stage, b);
      CollectAt(shader.storages, f);
      assert Ranges(shader)[|shader.uniforms| + n] == (shader.storages[n].group, shader.storages[n].binding);
      assert f(shader.storages[n]).Some?;
      assert g(shader.storages[n]).None?;
      CollectNone(shader.storages, g, n);
    }
  }

  /** The flags of one shader compared: unchanged, changed, or impossible for this draw. */
  method ShaderFlags(env: Env, layouts: seq<nat>, before: Key, after: Key, shader: Shader) returns (verdict: Verdict)
    requires shader.stage < |before.push| == |after.push| && ShaderConstants(env, layouts, before, shader).Some?
    ensures verdict.Same? <==> SameFlags(env, before.groups, after.groups, shader)
    ensures verdict.Broken? ==> ShaderConstants(env, layouts, after, shader).None?
  {
    verdict := CompareFlags(env, before.groups, after.groups, shader);
    if verdict.Broken? {
      var t :| 0 <= t < |shader.textures| && BrokenFormat(env, before.groups, after.groups, shader.textures[t]);
      BrokenFlagsFail(env, layouts, before.groups, after.groups, shader, t);
    }
  }

  /** The effective buffer ranges of one shader compared. */
  method ShaderRanges(env: Env, layouts: seq<nat>, before: Key, after: Key, shader: Shader) returns (verdict: Verdict)
    requires shader.stage < |before.push| == |after.push| && ShaderConstants(env, layouts, before, shader).Some?
    ensures verdict.Same? <==> SameRanges(env, layouts, before.groups, after.groups, shader)
    ensures verdict.Broken? ==> ShaderConstants(env, layouts, after, shader).None?
  {
    verdict := CompareRanges(env, layouts, before.groups, after.groups, shader);
    if verdict.Broken? {
      var k :| 0 <= k < |Ranges(shader)|
        && BrokenRange(env, layouts, before.groups, after.groups, Ranges(shader)[k].0, Ranges(shader)[k].1);
      BrokenRangeFails(env, layouts, before.groups, after.groups, shader, k);
    }
  }

  /** A cached draw is what rebuilding its key gives. */
  ghost predicate CacheSound(env: Env, key: Key, parts: Parts) {
    WellFormed(env) && ValidKey(env, key) && Scratch(env, key, parts.index) == Some(parts)
  }

  /** The keys differ at most in groups that leave every constant alone. */
  ghost predicate KeysReusable(env: Env, key: Key, wanted: Key)
    requires ValidKey(env, key)
  {
    && key.pipeline == wanted.pipeline && key.push == wanted.push
    && var pipeline := env.pipelines[key.pipeline];
       && Reusable(env, pipeline.layouts, key.groups, wanted.groups, pipeline.vertex)
       && Reusable(env, pipeline.layouts, key.groups, wanted.groups, pipeline.fragment)
  }

  /**
   The constants of the cached draw, exactly when the new key cannot change
   them: the flags of both shaders are compared before the ranges of either.
   */
  method ReuseConstants(env: Env, key: Key, parts: Parts, wanted: Key)
    returns (result: Result<Option<seq<Constant>>, ()>)
    requires CacheSound(env, key, parts) && ValidKey(env, wanted)
    ensures result.Err? ==> Scratch(env, wanted, None).None?
    ensures result.Ok? && result.value.Some? <==> KeysReusable(env, key, wanted)
    ensures result.Ok? && result.value.Some? ==> result.value.value == parts.constants
  {
    if key.pipeline != wanted.pipeline || key.push != wanted.push {
      return Ok(None);
    }
    var pipeline := env.pipelines[key.pipeline];
    if key.groups != wanted.groups {
      var flags := BothFlags(env, pipeline, key, wanted);
      if flags.Broken? {
        return Err(());
      }
      if flags.Changed? {
        return Ok(None);
      }
    }
    var ranges := BothRanges(env, pipeline, key, wanted);
    if ranges.Broken? {
      return Err(());
    }
    return if ranges.Changed? then Ok(None) else Ok(Some(parts.constants));
  }

  /** Both shaders of a cached draw could be built. */
  ghost predicate BothBuilt(env: Env, pipeline: Pipeline, key: Key) {
    && pipeline.vertex.stage < |key.push| && pipeline.fragment.stage < |key.push|
    && ShaderConstants(env, pipeline.layouts, key, pipeline.vertex).Some?
    && ShaderConstants(env, pipeline.layouts, key, pipeline.fragment).Some?
  }

  method BothFlags(env: Env, pipeline: Pipeline, key: Key, wanted: Key) returns (verdict: Verdict)
    requires BothBuilt(env, pipeline, key) && |wanted.push| == |key.push|
    ensures verdict.Same? <==>
      && SameFlags(env, key.groups, wanted.groups, pipeline.vertex)
      && SameFlags(env, key.groups, wanted.groups, pipeline.fragment)
    ensures verdict.Broken? ==> !BothBuilt(env, pipeline, wanted)
  {
    verdict := ShaderFlags(env, pipeline.layouts, key, wanted, pipeline.vertex);
    if verdict.Same? {
      verdict := ShaderFlags(env, pipeline.layouts, key, wanted, pipeline.fragment);
    }
  }

  method BothRanges(env: Env, pipeline: Pipeline, key: Key, wanted: Key) returns (verdict: Verdict)
    requires BothBuilt(env, pipeline, key) && |wanted.push| == |key.push|
    ensures verdict.Same? <==>
      && SameRanges(env, pipeline.layouts, key.groups, wanted.groups, pipeline.vertex)
      && SameRanges(env, pipeline.layouts, key.groups, wanted.groups, pipeline.fragment)
    ensures verdict.Broken? ==> !BothBuilt(env, pipeline, wanted)
  {
    verdict := ShaderRanges(env, pipeline.layouts, key, wanted, pipeline.vertex);
    if verdict.Same? {
      verdict := ShaderRanges(env, pipeline.layouts, key, wanted, pipeline.fragment);
    }
  }

  /** Resolve bindings one after another, stopping at the first failure. */
  method ResolveAll<B, R>(bindings: seq<B>, resolve: B -> Option<R>) returns (resolved: Option<seq<R>>)
    ensures resolved == Collect(bindings, resolve)
  {
    var found: seq<R> := [];
    var k := 0;
    while k < |bindings|
      invariant 0 <= k <= |bindings| && Collect(bindings[..k], resolve) == Some(found)
    {
      var one := resolve(bindings[k]);
      if one.None? {
        CollectNone(bindings, resolve, k);
        return None;
      }
      assert bindings[..k + 1][..k] == bindings[..k];
      found := found + [one.value];
      k := k + 1;
    }
    assert bindings[..k] == bindings;
    return Some(found);
  }

  /** One shader's bindings; constants are left out when they are reused. */
  method BuildShader(env: Env, layouts: seq<nat>, key: Key, shader: Shader, reuse: bool)
    returns (parts: Option<ShaderParts>)
    requires shader.stage < |key.push|
    ensures !reuse ==> parts == ShaderScratch(env, layouts, key, shader)
    ensures reuse ==>
      (parts.Some? <==>
         && StoragesOf(env, layouts, key.groups, shader).Some? && QueriesOf(env, layouts, key.groups, shader).Some?
         && TexturesOf(env, layouts, key.groups, shader).Some?)
    ensures reuse && parts.Some? ==>
      parts.value == ShaderParts([], Firsts(TexturesOf(env, layouts, key.groups, shader).value),
                                 Firsts(StoragesOf(env, layouts, key.groups, shader).value))
  {
    var storages := ResolveAll(shader.storages, b => StorageOf(env, layouts, key.groups, shader.stage, b));
    if storages.None? {
      return None;
    }
    var queries := ResolveAll(shader.queries, q => QueryOf(env, layouts, key.groups, shader.stage, q));
    if queries.None? {
      return None;
    }
    var textures := ResolveAll(shader.textures, b => TextureOf(env, layouts, key.groups, shader.stage, b));
    if textures.None? {
      return None;
    }
    if reuse {
      return Some(ShaderParts([], Firsts(textures.value), Firsts(storages.value)));
    }
    var push := PushOf(shader, key.push[shader.stage]);
    if push.None? {
      return None;
    }
    var uniforms := ResolveAll(shader.uniforms, b => UniformOf(env, layouts, key.groups, shader.stage, b));
    if uniforms.None? {
      return None;
    }
    var constants := Seconds(storages.value) + queries.value + FlagsOf(shader, Seconds(textures.value)) + push.value
      + uniforms.value;
    return Some(ShaderParts(constants, Firsts(textures.value), Firsts(storages.value)));
  }

  // ----------------------------------------------------------------- fetching

  datatype PushError = Unsupported | OutOfBounds

  function IndexBytes(count: nat, format: IB.IndexFormat): nat {
    if format.Uint16? then 2 * count else 4 * count
  }

  function IndexOf(index: Option<IndexSource>, call: DrawCall): Option<IndexBinding> {
    if call.baseVertex.None? || index.None? then None
    else Some(IndexBinding(index.value.buffer, index.value.offset, index.value.format, call.baseVertex.value))
  }

  /** What the draw walks; none when its indices cannot be read. */
  function WalkOf(env: Env, index: Option<IndexSource>, call: DrawCall): Option<VF.Walk> {
    if call.baseVertex.None? then Some(VF.Sequential(call.first, call.count))
    else if index.None? || index.value.buffer >= |env.views| then None
    else
      var i := index.value;
      var start := i.offset + IndexBytes(call.first, i.format);
      var end := start + IndexBytes(call.count, i.format);
      if end > Min(|env.views[i.buffer]|, MAX_WORD) || i.offset > 0xFFFF_FFFF || BufferSpec(env, i.buffer).None?
      then None
      else Some(VF.Indexed(call.first, call.count, env.views[i.buffer][start..end], i.format, call.baseVertex.value))
  }

  /** The buffers bound for vertex fetch, with the length of their pending contents. */
  function BoundOf(env: Env, sources: seq<Option<VertexSource>>): (r: seq<Option<VF.Bound>>)
    ensures |r| == |sources|
  {
    seq(|sources|, (s: int) requires 0 <= s < |sources| =>
      match sources[s]
      case None => None
      case Some(source) =>
        if BufferSpec(env, source.buffer).None? then None
        else Some(VF.Bound(|env.views[source.buffer]|, source.offset)))
  }

  /** Every index and every fetch of the draw lies in its buffer. */
  ghost predicate Fetchable(
    env: Env, pipeline: nat, index: Option<IndexSource>, sources: seq<Option<VertexSource>>, call: DrawCall)
    requires WellFormed(env) && pipeline < |env.pipelines| && |sources| == 8
  {
    && WalkOf(env, index, call).Some?
    && exists maximum: nat ::
         && VF.WalksUpTo(WalkOf(env, index, call).value, maximum)
         && VF.DrawFits(env.pipelines[pipeline].vertexLayouts, BoundOf(env, sources), WalkOf(env, index, call).value,
              call.firstInstance, call.instanceCount, maximum)
  }

  /** The indices of the draw, read from the index buffer where it names a base vertex. */
  method ReadIndices(env: Env, index: Option<IndexSource>, call: DrawCall) returns (walk: Option<VF.Walk>)
    ensures walk == WalkOf(env, index, call)
  {
    if call.baseVertex.None? {
      return Some(VF.Sequential(call.first, call.count));
    }
    if index.None? || index.value.buffer >= |env.views| {
      return None;
    }
    var source := index.value;
    var width := if source.format == IB.Uint16 then 2 else 4;
    var start := source.offset + call.first * width;
    var end := start + call.count * width;
    if end > MAX_WORD || end > |env.views[source.buffer]| {
      return None;
    }
    var spec := BufferSpec(env, source.buffer);
    if spec.None? || source.offset > 4294967295 {
      return None;
    }
    return Some(VF.Indexed(
      call.first, call.count, env.views[source.buffer][start..end], source.format, call.baseVertex.value));
  }

  /** The vertex buffers of the draw with the lengths of their pending contents. */
  method BindVertices(env: Env, sources: seq<Option<VertexSource>>) returns (bound: seq<Option<VF.Bound>>)
    ensures bound == BoundOf(env, sources)
  {
    bound := [];
    for s := 0 to |sources|
      invariant bound == BoundOf(env, sources)[..s]
    {
      var one := None;
      if sources[s].Some? {
        var source := sources[s].value;
        var spec := BufferSpec(env, source.buffer);
        if spec.Some? {
          one := Some(VF.Bound(|env.views[source.buffer]|, source.offset));
        }
      }
      bound := bound + [one];
    }
  }

  method CheckFetch(
    env: Env, pipeline: nat, index: Option<IndexSource>, sources: seq<Option<VertexSource>>, call: DrawCall)
    returns (offsets: Option<seq<nat>>)
    requires WellFormed(env) && pipeline < |env.pipelines| && |sources| == 8
    ensures offsets.Some? <==> Fetchable(env, pipeline, index, sources, call)
    ensures offsets.Some? ==>
      VF.FetchesInside(env.pipelines[pipeline].vertexLayouts, BoundOf(env, sources), offsets.value,
        WalkOf(env, index, call).value, call.instanceCount)
  {
    var walk := ReadIndices(env, index, call);
    if walk.None? {
      return None;
    }
    var bound := BindVertices(env, sources);
    var bounds: IB.Bounds := None;
    if walk.value.Indexed? {
      bounds := IB.RawIndexBounds(walk.value.bytes, walk.value.format);
    }
    var checked := VF.CheckDraw(env.pipelines[pipeline].vertexLayouts, bound, walk.value, bounds,
      call.firstInstance, call.instanceCount);
    return if checked.Ok? then Some(checked.value) else None;
  }

  /** An open pass: its programmable state and the last draw it built. */
  class ActivePass {
    var programmable: Option<nat>
    var bindGroups: seq<Option<nat>>
    var push: seq<seq<byte>>
    var vertexBuffers: seq<Option<VertexSource>>
    var indexBuffer: Option<IndexSource>
    var cache: Option<(Key, Parts)>

    ghost predicate Valid(env: Env)
      reads this
    {
      && WellFormed(env) && |push| == 2 && |push[0]| == 128 == |push[1]| && |bindGroups| == 4
      && |vertexBuffers| == 8
      && (programmable.Some? ==> programmable.value < |env.pipelines|)
      && (cache.Some? ==> CacheSound(env, cache.value.0, cache.value.1))
    }

    constructor (ghost env: Env)
      requires WellFormed(env)
      ensures Valid(env) && programmable == None && cache == None
    {
      programmable, cache := None, None;
      bindGroups := [None, None, None, None];
      push := [seq(128, _ => 0), seq(128, _ => 0)];
      vertexBuffers, indexBuffer := seq(8, _ => None), None;
    }

    /** A fixed-function pipeline leaves the cached draw in place. */
    method SetPipeline(ghost env: Env)
      requires Valid(env)
      modifies this`programmable
      ensures Valid(env) && programmable == None
    {
      programmable := None;
    }

    method SetProgrammablePipeline(env: Env, pipeline: nat) returns (ok: bool)
      requires Valid(env)
      modifies this`programmable
      ensures Valid(env) && ok == (pipeline < |env.pipelines|)
      ensures programmable == if ok then Some(pipeline) else old(programmable)
    {
      ok := pipeline < |env.pipelines|;
      if ok {
        programmable := Some(pipeline);
      }
    }

    method SetBindGroup(ghost env: Env, index: nat, group: nat)
      requires Valid(env) && index < |bindGroups|
      modifies this`bindGroups
      ensures Valid(env) && bindGroups == old(bindGroups)[index := Some(group)]
    {
      bindGroups := bindGroups[index := Some(group)];
    }

    method SetVertexBuffer(ghost env: Env, slot: nat, source: VertexSource)
      requires Valid(env) && slot < |vertexBuffers|
      modifies this`vertexBuffers
      ensures Valid(env) && vertexBuffers == old(vertexBuffers)[slot := Some(source)]
    {
      vertexBuffers := vertexBuffers[slot := Some(source)];
    }

    method SetIndexBuffer(ghost env: Env, source: IndexSource)
      requires Valid(env)
      modifies this`indexBuffer
      ensures Valid(env) && indexBuffer == Some(source)
    {
      indexBuffer := Some(source);
    }

    /**
     Push constants written for either stage or both. A pass never takes them
     for the compute stage, whatever else the command names.
     */
    method SetPushConstants(
      ghost env: Env, vertex: bool, fragment: bool, compute: bool, offset: nat, data: seq<byte>)
      returns (result: Result<(), PushError>)
      requires Valid(env)
      modifies this`push
      ensures Valid(env)
      ensures result.Ok? <==> !compute && offset + |data| <= 128
      ensures result.Err? ==> result.error == (if compute then Unsupported else OutOfBounds) && push == old(push)
      ensures result.Ok? ==>
        push == [if vertex then CopyInto(old(push)[0], offset, data) else old(push)[0],
                 if fragment then CopyInto(old(push)[1], offset, data) else old(push)[1]]
    {
      if compute {
        return Err(Unsupported);
      }
      if offset + |data| > 128 {
        return Err(OutOfBounds);
      }
      if vertex {
        push := push[0 := CopyInto(push[0], offset, data)];
      }
      if fragment {
        push := push[1 := CopyInto(push[1], offset, data)];
      }
      return Ok(());
    }

    /**
     A draw. Whatever came before it in the pass, it gets what rebuilding from
     the current state alone would give, and fails exactly when that fails or
     its indices or its vertex fetches would leave their buffers.
     */
    method DecodeDraw(env: Env, call: DrawCall) returns (draw: Option<Parts>)
      requires Valid(env)
      modifies this`cache
      ensures Valid(env)
      ensures draw ==
        if programmable.None? || !Fetchable(env, programmable.value, indexBuffer, vertexBuffers, call) then None
        else
          Scratch(env, Key(programmable.value, bindGroups, push), IndexOf(indexBuffer, call))
      ensures draw.Some? <==>
        && programmable.Some? && Fetchable(env, programmable.value, indexBuffer, vertexBuffers, call)
        && DrawBound(env, Key(programmable.value, bindGroups, push))
      ensures draw.Some? ==>
        && DrawShown(env, Key(programmable.value, bindGroups, push), draw.value)
        && (draw.value.index.Some? <==> call.baseVertex.Some?)
        && (call.baseVertex.Some? ==>
             && indexBuffer.Some? && draw.value.index.value.baseVertex == call.baseVertex.value
             && draw.value.index.value.buffer == indexBuffer.value.buffer
             && draw.value.index.value.offset == indexBuffer.value.offset
             && draw.value.index.value.format == indexBuffer.value.format)
      ensures draw.None? ==> cache == old(cache)
      ensures draw.Some? ==>
        exists offsets :: VF.FetchesInside(env.pipelines[programmable.value].vertexLayouts,
          BoundOf(env, vertexBuffers), offsets, WalkOf(env, indexBuffer, call).value, call.instanceCount)
    {
      if programmable.None? {
        return None;
      }
      var key := Key(programmable.value, bindGroups, push);
      DrawMeans(env, key, IndexOf(indexBuffer, call));
      var built := Build(env, key, IndexOf(indexBuffer, call));
      if built.None? {
        return None;
      }
      var offsets := CheckFetch(env, programmable.value, indexBuffer, vertexBuffers, call);
      if offsets.None? {
        return None;
      }
      assert VF.FetchesInside(env.pipelines[programmable.value].vertexLayouts, BoundOf(env, vertexBuffers),
        offsets.value, WalkOf(env, indexBuffer, call).value, call.instanceCount);
      cache := Some((key, built.value));
      return built;
    }

    method Build(env: Env, key: Key, index: Option<IndexBinding>) returns (draw: Option<Parts>)
      requires Valid(env) && ValidKey(env, key)
      ensures draw == Scratch(env, key, index)
    {
      var reused: Option<seq<Constant>> := None;
      if cache.Some? {
        if cache.value.0 == key {
          return Some(cache.value.1.(index := index));
        }
        var constants := ReuseConstants(env, cache.value.0, cache.value.1, key);
        if constants.Err? {
          return None;
        }
        reused := constants.value;
      }
      var pipeline := env.pipelines[key.pipeline];
      var vertex := BuildShader(env, pipeline.layouts, key, pipeline.vertex, reused.Some?);
      var fragment := BuildShader(env, pipeline.layouts, key, pipeline.fragment, reused.Some?);
      if reused.Some? {
        ReusedScratch(env, cache.value.0, cache.value.1, key, index);
      }
      if vertex.None? || fragment.None? {
        return None;
      }
      var constants := if reused.Some? then reused.value else vertex.value.constants + fragment.value.constants;
      return Some(Parts(key.pipeline, index, constants, vertex.value.textures + fragment.value.textures,
                        vertex.value.storages + fragment.value.storages));
    }
  }

  /** What scratch gives when the constants are reusable. */
  lemma ReusedScratch(env: Env, key: Key, parts: Parts, wanted: Key, index: Option<IndexBinding>)
    requires CacheSound(env, key, parts) && ValidKey(env, wanted) && key.pipeline == wanted.pipeline
      && key.push == wanted.push
    requires var pipeline := env.pipelines[key.pipeline];
      && Reusable(env, pipeline.layouts, key.groups, wanted.groups, pipeline.vertex)
      && Reusable(env, pipeline.layouts, key.groups, wanted.groups, pipeline.fragment)
    ensures var pipeline := env.pipelines[key.pipeline];
      var vertex := TexturesOf(env, pipeline.layouts, wanted.groups, pipeline.vertex);
      var fragment := TexturesOf(env, pipeline.layouts, wanted.groups, pipeline.fragment);
      && (vertex.Some? ==>
            StoragesOf(env, pipeline.layouts, wanted.groups, pipeline.vertex).Some?
            && QueriesOf(env, pipeline.layouts, wanted.groups, pipeline.vertex).Some?)
      && (fragment.Some? ==>
            StoragesOf(env, pipeline.layouts, wanted.groups, pipeline.fragment).Some?
            && QueriesOf(env, pipeline.layouts, wanted.groups, pipeline.fragment).Some?)
      && Scratch(env, wanted, index)
         == if vertex.Some? && fragment.Some? then
              Some(Parts(wanted.pipeline, index, parts.constants, Firsts(vertex.value) + Firsts(fragment.value),
                         Firsts(StoragesOf(env, pipeline.layouts, wanted.groups, pipeline.vertex).value)
                         + Firsts(StoragesOf(env, pipeline.layouts, wanted.groups, pipeline.fragment).value)))
            else None
  {
    var pipeline := env.pipelines[key.pipeline];
    ConstantsReused(env, pipeline.layouts, key, wanted, pipeline.vertex);
    ConstantsReused(env, pipeline.layouts, key, wanted, pipeline.fragment);
  }
}
