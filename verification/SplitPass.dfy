/**
 Cutting one render pass into transport-sized submissions.

 The trace of a submission lists what it asks the device to do: uploads,
 clears, then one effect per triangle of an inline draw and one per other
 draw. Splitting must leave the trace of the whole pass unchanged.
 */
module SplitPass {
  import opened Common

  const TRANSPORT_BYTES: nat := 65536
  const MAX_DRAWS: nat := 64
  const MAX_VERTICES: nat := 1440

  datatype Topology = TriangleList | TriangleStrip | TriangleFan | LineList | LineStrip | PointList
  datatype Stage = VertexStage | FragmentStage | ComputeStage
  datatype Constant = Constant(stage: Stage, firstRegister: nat, words: nat)

  /** A compiled pipeline; two draws share it when `identity` agrees. */
  datatype Pipeline = Pipeline(identity: nat, topology: Topology)
  datatype ProgrammableDraw = ProgrammableDraw(
    pipeline: Pipeline, constants: seq<Constant>, textures: nat, storageBuffers: nat)
  datatype DrawState = DrawState(
    pipeline: nat, texture: Option<nat>, sampler: Option<nat>, uniforms: nat, scissor: nat, viewport: Option<nat>)
  datatype Draw = Draw(
    programmable: Option<ProgrammableDraw>, start: nat, count: nat, vertexBuffer: Option<nat>, state: DrawState)

  /** A canonical 40-byte vertex, as ten 32-bit words. */
  datatype Vertex = Vertex(words: seq<nat>)

  datatype ColorAttachment = ColorAttachment(texture: nat, clear: Option<nat>)
  datatype Submission = Submission(
    target: nat, clearColor: Option<nat>, colors: seq<ColorAttachment>, depth: Option<nat>, depthReadOnly: bool,
    clearDepth: Option<nat>, renderArea: nat, vertices: seq<Vertex>, draws: seq<Draw>, uploads: seq<nat>)

  datatype SplitError = InvalidVertexData | CommandSequence

  // ---------------------------------------------------------------- meaning

  /** Everything about a pass that a draw inside it can see. */
  datatype Frame = Frame(target: nat, colors: seq<nat>, depth: Option<nat>, depthReadOnly: bool, renderArea: nat)

  datatype Effect =
    | Upload(upload: nat)
    | ClearTarget(frame: Frame, value: nat)
    | ClearColor(frame: Frame, texture: nat, value: nat)
    | ClearDepth(frame: Frame, value: nat)
    | Triangle(frame: Frame, state: DrawState, a: Vertex, b: Vertex, c: Vertex)
    | Whole(frame: Frame, draw: Draw)

  function FrameOf(s: Submission): Frame {
    Frame(s.target, seq(|s.colors|, i requires 0 <= i < |s.colors| => s.colors[i].texture), s.depth, s.depthReadOnly,
      s.renderArea)
  }

  function Uploads(uploads: seq<nat>): seq<Effect> {
    seq(|uploads|, i requires 0 <= i < |uploads| => Upload(uploads[i]))
  }

  function ColorClears(frame: Frame, colors: seq<ColorAttachment>): seq<Effect> {
    if colors == [] then []
    else
      var last := colors[|colors| - 1];
      ColorClears(frame, colors[..|colors| - 1])
      + if last.clear.Some? then [ClearColor(frame, last.texture, last.clear.value)] else []
  }

  function Clears(s: Submission): seq<Effect> {
    (if s.clearColor.Some? then [ClearTarget(FrameOf(s), s.clearColor.value)] else [])
    + ColorClears(FrameOf(s), s.colors)
    + (if s.clearDepth.Some? then [ClearDepth(FrameOf(s), s.clearDepth.value)] else [])
  }

  function Triangles(frame: Frame, state: DrawState, vertices: seq<Vertex>): seq<Effect> {
    if |vertices| < 3 then []
    else [Triangle(frame, state, vertices[0], vertices[1], vertices[2])] + Triangles(frame, state, vertices[3..])
  }

  /** One triangle for every three vertices, in order. */
  lemma {:induction false} TrianglesAre(frame: Frame, state: DrawState, v: seq<Vertex>)
    ensures |Triangles(frame, state, v)| == |v| / 3
    ensures forall i: nat :: i < |v| / 3 ==>
      Triangles(frame, state, v)[i] == Triangle(frame, state, v[3 * i], v[3 * i + 1], v[3 * i + 2])
  {
    if |v| >= 3 {
      TrianglesAre(frame, state, v[3..]);
      forall i: nat | i < |v| / 3
        ensures Triangles(frame, state, v)[i] == Triangle(frame, state, v[3 * i], v[3 * i + 1], v[3 * i + 2])
      {
        if i > 0 {
          var rest := Triangles(frame, state, v[3..]);
          assert rest[i - 1]
            == Triangle(frame, state, v[3..][3 * (i - 1)], v[3..][3 * (i - 1) + 1], v[3..][3 * (i - 1) + 2]);
        }
      }
    }
  }

  predicate Inline(draw: Draw) { draw.programmable.None? && draw.vertexBuffer.None? }

  function DrawTrace(frame: Frame, vertices: seq<Vertex>, draw: Draw): seq<Effect> {
    if !Inline(draw) then [Whole(frame, draw)]
    else if draw.start + draw.count <= |vertices|
    then Triangles(frame, draw.state, vertices[draw.start..draw.start + draw.count])
    else []
  }

  function DrawsTrace(frame: Frame, vertices: seq<Vertex>, draws: seq<Draw>): seq<Effect> {
    if draws == [] then []
    else DrawsTrace(frame, vertices, draws[..|draws| - 1]) + DrawTrace(frame, vertices, draws[|draws| - 1])
  }

  function Prologue(s: Submission): seq<Effect> { Uploads(s.uploads) + Clears(s) }

  function Trace(s: Submission): seq<Effect> { Prologue(s) + DrawsTrace(FrameOf(s), s.vertices, s.draws) }

  function Traces(chunks: seq<Submission>): seq<Effect> {
    if chunks == [] then [] else Traces(chunks[..|chunks| - 1]) + Trace(chunks[|chunks| - 1])
  }

  /** Running effects on any device, described by any step function. */
  ghost function Execute<S>(step: (S, Effect) -> S, state: S, effects: seq<Effect>): S {
    if effects == [] then state
    else step(Execute(step, state, effects[..|effects| - 1]), effects[|effects| - 1])
  }

  ghost function ExecuteChunks<S>(step: (S, Effect) -> S, state: S, chunks: seq<Submission>): S {
    if chunks == [] then state
    else Execute(step, ExecuteChunks(step, state, chunks[..|chunks| - 1]), Trace(chunks[|chunks| - 1]))
  }

  lemma {:induction false} ExecuteConcat<S>(step: (S, Effect) -> S, state: S, a: seq<Effect>, b: seq<Effect>)
    ensures Execute(step, state, a + b) == Execute(step, Execute(step, state, a), b)
  {
    if b == [] {
      assert a + b == a;
    } else {
      assert (a + b)[..|a + b| - 1] == a + b[..|b| - 1];
      ExecuteConcat(step, state, a, b[..|b| - 1]);
    }
  }

  /** On every device, submitting the chunks in order leaves the state their joint trace leaves. */
  lemma {:induction false} ChunksExecuteTrace<S>(step: (S, Effect) -> S, state: S, chunks: seq<Submission>)
    ensures ExecuteChunks(step, state, chunks) == Execute(step, state, Traces(chunks))
  {
    if chunks != [] {
      ChunksExecuteTrace(step, state, chunks[..|chunks| - 1]);
      ExecuteConcat(step, state, Traces(chunks[..|chunks| - 1]), Trace(chunks[|chunks| - 1]));
    }
  }

  // ------------------------------------------------------- transport budget

  /**
   The overflow-checked sum accepts exactly the counts that fit: 40 bytes a
   vertex, 256 a draw and 6 KiB of fixed state in 64 KiB.
   */
  function ChunkFitsTransport(vertices: nat, draws: nat): (r: bool)
    ensures r <==> 40 * vertices + 6144 + 256 * draws <= 65536
  {
    if vertices * 40 > MAX_WORD || vertices * 40 + 6144 > MAX_WORD then false
    else if draws * 256 > MAX_WORD || vertices * 40 + 6144 + draws * 256 > MAX_WORD then false
    else vertices * 40 + 6144 + draws * 256 <= 65536
  }

  /** The most vertices that can join a chunk: all of them fit, one more does not. */
  function InlineVertexCapacity(vertices: nat, draws: nat): (r: nat)
    ensures r > 0 ==> ChunkFitsTransport(vertices + r, draws) && vertices + r <= 1440
    ensures !(ChunkFitsTransport(vertices + r + 1, draws) && vertices + r + 1 <= 1440)
  {
    if draws * 256 > MAX_WORD || vertices * 40 > MAX_WORD || vertices * 40 + 6144 + draws * 256 > MAX_WORD then 0
    else
      Min(Max(65536 - (vertices * 40 + 6144 + draws * 256), 0) / 40, Max(MAX_VERTICES - vertices, 0))
  }

  /** Register words a stage's bank spans, gaps included. */
  function BankWords(constants: seq<Constant>, stage: Stage): nat {
    if constants == [] then 0
    else
      var last := constants[|constants| - 1];
      var before := BankWords(constants[..|constants| - 1], stage);
      if last.stage == stage then Max(before, 4 * last.firstRegister + last.words) else before
  }

  function DrawBytes(draw: ProgrammableDraw): nat {
    4 * (BankWords(draw.constants, VertexStage) + BankWords(draw.constants, FragmentStage))
    + 256 + 160 * draw.textures + 80 * draw.storageBuffers
  }

  predicate Graphics(constants: seq<Constant>) {
    forall k :: 0 <= k < |constants| ==> constants[k].stage != ComputeStage
  }

  /** Encoded size of one programmable draw; none for a compute constant or on overflow. */
  method ProgrammableDrawBytes(draw: ProgrammableDraw) returns (bytes: Option<nat>)
    ensures bytes == if Graphics(draw.constants) && DrawBytes(draw) <= MAX_WORD then Some(DrawBytes(draw)) else None
  {
    var words := [0, 0];
    var k := 0;
    while k < |draw.constants|
      invariant 0 <= k <= |draw.constants| && |words| == 2
      invariant Graphics(draw.constants[..k])
      invariant words[0] == BankWords(draw.constants[..k], VertexStage)
      invariant words[1] == BankWords(draw.constants[..k], FragmentStage)
    {
      var constant := draw.constants[k];
      if constant.stage == ComputeStage {
        return None;
      }
      var stage := if constant.stage == VertexStage then 0 else 1;
      assert draw.constants[..k + 1][..k] == draw.constants[..k];
      var end := constant.firstRegister * 4 + constant.words;
      if end > MAX_WORD {
        BankGrows(draw.constants, k + 1, constant.stage);
        return None;
      }
      words := words[stage := Max(words[stage], end)];
      k := k + 1;
    }
    assert draw.constants[..k] == draw.constants;
    var total := (words[0] + words[1]) * 4 + 256 + draw.textures * 160 + draw.storageBuffers * 80;
    return if total <= MAX_WORD then Some(total) else None;
  }

  lemma BankGrows(constants: seq<Constant>, k: nat, stage: Stage)
    requires k <= |constants|
    ensures BankWords(constants[..k], stage) <= BankWords(constants, stage)
    decreases |constants| - k
  {
    if k == |constants| {
      assert constants[..k] == constants;
    } else {
      assert constants[..k + 1][..k] == constants[..k];
      BankGrows(constants, k + 1, stage);
    }
  }

  /** Draws that may share one programmable submission. */
  predicate Shared(draws: seq<Draw>) {
    && draws != []
    && forall k :: 0 <= k < |draws| ==>
         && draws[k].programmable.Some?
         && Graphics(draws[k].programmable.value.constants)
         && draws[0].programmable.Some?
         && draws[k].programmable.value.pipeline.identity == draws[0].programmable.value.pipeline.identity
  }

  function SumBytes(draws: seq<Draw>): nat {
    if draws == [] then 2 * 6144 + 128
    else
      var last := draws[|draws| - 1];
      SumBytes(draws[..|draws| - 1]) + if last.programmable.Some? then DrawBytes(last.programmable.value) else 0
  }

  lemma SumGrows(draws: seq<Draw>, k: nat)
    requires k <= |draws|
    ensures SumBytes(draws[..k]) <= SumBytes(draws)
    decreases |draws| - k
  {
    if k == |draws| {
      assert draws[..k] == draws;
    } else {
      assert draws[..k + 1][..k] == draws[..k];
      SumGrows(draws, k + 1);
    }
  }

  /** The byte budget of a programmable chunk; none for draws that cannot share one. */
  method ProgrammableChunkBytes(draws: seq<Draw>) returns (bytes: Option<nat>)
    ensures bytes == if Shared(draws) && SumBytes(draws) <= MAX_WORD then Some(SumBytes(draws)) else None
  {
    if draws == [] || draws[0].programmable.None? {
      return None;
    }
    var total := 2 * 6144 + 128;
    var k := 0;
    while k < |draws|
      invariant 0 <= k <= |draws|
      invariant k > 0 ==> Shared(draws[..k])
      invariant total == SumBytes(draws[..k]) <= MAX_WORD
    {
      if draws[k].programmable.None? {
        return None;
      }
      var programmable := draws[k].programmable.value;
      if programmable.pipeline.identity != draws[0].programmable.value.pipeline.identity {
        return None;
      }
      var more := ProgrammableDrawBytes(programmable);
      assert draws[..k + 1][..k] == draws[..k];
      SumGrows(draws, k + 1);
      if more.None? || total + more.value > MAX_WORD {
        return None;
      }
      total := total + more.value;
      k := k + 1;
    }
    assert draws[..k] == draws;
    return Some(total);
  }

  predicate WithinBudget(draws: seq<Draw>) { Shared(draws) && SumBytes(draws) <= 65536 }

  // -------------------------------------------------------------- validation

  /** The topology of a draw; fixed-function draws are triangle lists. */
  function TopologyOf(draw: Draw): Topology {
    if draw.programmable.Some? then draw.programmable.value.pipeline.topology else TriangleList
  }

  /** The vertices `primitives` complete primitives take. */
  function VerticesOf(topology: Topology, primitives: nat): nat {
    match topology
    case TriangleList => 3 * primitives
    case TriangleStrip => primitives + 2
    case TriangleFan => primitives + 2
    case LineList => 2 * primitives
    case LineStrip => primitives + 1
    case PointList => primitives
  }

  /** Enough vertices, in whole primitives, for the draw's topology. */
  predicate DrawCountValid(draw: Draw) {
    match draw.programmable
    case None => draw.count > 0 && draw.count % 3 == 0
    case Some(p) =>
      match p.pipeline.topology
      case TriangleStrip => draw.count >= 3
      case TriangleFan => draw.count >= 3
      case LineList => draw.count > 0 && draw.count % 2 == 0
      case LineStrip => draw.count >= 2
      case PointList => draw.count != 0
      case TriangleList => draw.count > 0 && draw.count % 3 == 0
  }

  /** The check finds exactly the draws of one primitive or more with no vertex left over. */
  lemma WholePrimitives(draw: Draw)
    ensures DrawCountValid(draw)
       <==> exists primitives: nat :: primitives >= 1 && draw.count == VerticesOf(TopologyOf(draw), primitives)
  {
    if DrawCountValid(draw) {
      var primitives := match TopologyOf(draw)
        case TriangleStrip => draw.count - 2
        case TriangleFan => draw.count - 2
        case LineList => draw.count / 2
        case LineStrip => draw.count - 1
        case PointList => draw.count
        case TriangleList => draw.count / 3;
      assert draw.count == VerticesOf(TopologyOf(draw), primitives);
    }
  }

  predicate HasClear(s: Submission) {
    s.clearColor.Some? || s.clearDepth.Some? || exists k :: 0 <= k < |s.colors| && s.colors[k].clear.Some?
  }

  predicate InRange(vertices: nat, draw: Draw) { Inline(draw) ==> draw.start + draw.count <= vertices }

  /** Size limits every open or finished chunk meets. */
  predicate Compact(vertices: nat, draws: seq<Draw>) {
    && |draws| <= 64 && vertices <= 1440
    && ChunkFitsTransport(vertices, |draws|)
    && (|draws| > 1 && draws[0].programmable.Some? ==> WithinBudget(draws))
    && forall k :: 0 <= k < |draws| ==> InRange(vertices, draws[k])
  }

  /** Never fixed-function and programmable draws in one chunk. */
  predicate Unmixed(draws: seq<Draw>) {
    forall j, k :: 0 <= j < k < |draws| ==> draws[j].programmable.Some? == draws[k].programmable.Some?
  }

  predicate CountsValid(draws: seq<Draw>) { forall k :: 0 <= k < |draws| ==> DrawCountValid(draws[k]) }

  /** What validation accepts: limits met, something to do, whole primitives. */
  predicate Accepted(s: Submission) {
    (s.draws != [] || HasClear(s)) && Compact(|s.vertices|, s.draws) && CountsValid(s.draws)
  }

  method SubmissionHasClear(s: Submission) returns (r: bool)
    ensures r == HasClear(s)
  {
    r := s.clearColor.Some? || s.clearDepth.Some?;
    var k := 0;
    while k < |s.colors|
      invariant 0 <= k <= |s.colors|
      invariant r <==> s.clearColor.Some? || s.clearDepth.Some? || exists j :: 0 <= j < k && s.colors[j].clear.Some?
    {
      r := r || s.colors[k].clear.Some?;
      k := k + 1;
    }
  }

  /** The last check before execution accepts exactly chunks within every limit. */
  method ValidateTransportChunks(passes: seq<Submission>) returns (result: Result<(), SplitError>)
    ensures result.Ok? <==> forall k :: 0 <= k < |passes| ==> Accepted(passes[k])
    ensures result.Err? ==> result.error == InvalidVertexData
  {
    var p := 0;
    while p < |passes|
      invariant 0 <= p <= |passes|
      invariant forall k :: 0 <= k < p ==> Accepted(passes[k])
    {
      var valid := ValidateChunk(passes[p]);
      if !valid {
        return Err(InvalidVertexData);
      }
      p := p + 1;
    }
    return Ok(());
  }

  method ValidateChunk(s: Submission) returns (valid: bool)
    ensures valid == Accepted(s)
  {
    var hasClear := SubmissionHasClear(s);
    if (s.draws == [] && !hasClear) || |s.vertices| > MAX_VERTICES || |s.draws| > MAX_DRAWS
       || !ChunkFitsTransport(|s.vertices|, |s.draws|) {
      return false;
    }
    if |s.draws| > 1 && s.draws[0].programmable.Some? {
      var bytes := ProgrammableChunkBytes(s.draws);
      if bytes.None? || bytes.value > TRANSPORT_BYTES {
        return false;
      }
    }
    var d := 0;
    while d < |s.draws|
      invariant 0 <= d <= |s.draws|
      invariant forall k :: 0 <= k < d ==> DrawCountValid(s.draws[k]) && InRange(|s.vertices|, s.draws[k])
    {
      var draw := s.draws[d];
      if !DrawCountValid(draw) || (Inline(draw) && draw.start + draw.count > |s.vertices|) {
        return false;
      }
      d := d + 1;
    }
    return true;
  }

  // --------------------------------------------------------------- splitting

  /** The chunks finished so far and the one being filled. */
  datatype Progress = Progress(
    chunks: seq<Submission>, vertices: seq<Vertex>, draws: seq<Draw>, uploads: seq<nat>, first: bool)

  function Unclear(colors: seq<ColorAttachment>): (r: seq<ColorAttachment>)
    ensures |r| == |colors|
    ensures forall k :: 0 <= k < |r| ==> r[k] == ColorAttachment(colors[k].texture, None)
  {
    seq(|colors|, i requires 0 <= i < |colors| => ColorAttachment(colors[i].texture, None))
  }

  function Chunk(pass: Submission, vertices: seq<Vertex>, draws: seq<Draw>, uploads: seq<nat>, first: bool): Submission
  {
    pass.(clearColor := if first then pass.clearColor else None,
          colors := if first then pass.colors else Unclear(pass.colors),
          clearDepth := if first then pass.clearDepth else None,
          vertices := vertices, draws := draws, uploads := uploads)
  }

  lemma {:induction false} NoColorClears(frame: Frame, colors: seq<ColorAttachment>)
    requires forall k :: 0 <= k < |colors| ==> colors[k].clear.None?
    ensures ColorClears(frame, colors) == []
  {
    if colors != [] {
      NoColorClears(frame, colors[..|colors| - 1]);
    }
  }

  /** Only the first chunk carries uploads and clears; every chunk draws in the same frame. */
  lemma ChunkTrace(pass: Submission, vertices: seq<Vertex>, draws: seq<Draw>, uploads: seq<nat>, first: bool)
    requires uploads == if first then pass.uploads else []
    ensures Trace(Chunk(pass, vertices, draws, uploads, first))
         == (if first then Prologue(pass) else []) + DrawsTrace(FrameOf(pass), vertices, draws)
  {
    var chunk := Chunk(pass, vertices, draws, uploads, first);
    assert FrameOf(chunk) == FrameOf(pass);
    if first {
      assert Clears(chunk) == Clears(pass);
    } else {
      NoColorClears(FrameOf(pass), chunk.colors);
      assert Prologue(chunk) == [];
    }
  }

  /** What a progress has emitted, its open chunk included. */
  ghost function Emitted(pass: Submission, p: Progress): seq<Effect> {
    Traces(p.chunks) + (if p.first then Prologue(pass) else []) + DrawsTrace(FrameOf(pass), p.vertices, p.draws)
  }

  /** Follow-up chunks neither clear nor upload, and no chunk mixes draw kinds. */
  predicate Tidy(pass: Submission, chunks: seq<Submission>) {
    && (forall k :: 0 <= k < |chunks| ==> FrameOf(chunks[k]) == FrameOf(pass) && Unmixed(chunks[k].draws))
    && (forall k :: 1 <= k < |chunks| ==> !HasClear(chunks[k]) && chunks[k].uploads == [])
  }

  predicate AllAccepted(chunks: seq<Submission>) { forall k :: 0 <= k < |chunks| ==> Accepted(chunks[k]) }

  /** The chunk being filled: within every limit, one kind of draw, no stray vertices. */
  predicate Open(vertices: seq<Vertex>, draws: seq<Draw>) {
    && Compact(|vertices|, draws) && Unmixed(draws)
    && (draws == [] || draws[0].programmable.Some? ==> vertices == [])
  }

  ghost predicate Closed(pass: Submission, chunks: seq<Submission>) {
    Tidy(pass, chunks) && (CountsValid(pass.draws) ==> AllAccepted(chunks))
  }

  ghost predicate Sound(pass: Submission, p: Progress) {
    && Closed(pass, p.chunks)
    && (p.first <==> p.chunks == []) && (p.first ==> p.uploads == pass.uploads)
    && Open(p.vertices, p.draws)
    && (CountsValid(pass.draws) ==> CountsValid(p.draws))
  }

  function OpenChunk(pass: Submission, p: Progress): Submission {
    Chunk(pass, p.vertices, p.draws, if p.first then p.uploads else [], p.first)
  }

  lemma ClosedSnoc(pass: Submission, p: Progress)
    requires Sound(pass, p) && (p.draws != [] || (p.first && (CountsValid(pass.draws) ==> HasClear(pass))))
    ensures Closed(pass, p.chunks + [OpenChunk(pass, p)])
  {
    TidySnoc(pass, p);
    if CountsValid(pass.draws) {
      assert p.first ==> HasClear(OpenChunk(pass, p)) == HasClear(pass);
      assert Accepted(OpenChunk(pass, p));
    }
  }

  lemma TidySnoc(pass: Submission, p: Progress)
    requires Tidy(pass, p.chunks) && (p.first <==> p.chunks == []) && Unmixed(p.draws)
    ensures Tidy(pass, p.chunks + [OpenChunk(pass, p)])
  {
    var chunk := OpenChunk(pass, p);
    assert FrameOf(chunk) == FrameOf(pass);
    assert !p.first ==> !HasClear(chunk) && chunk.uploads == [];
  }

  lemma EmittedSnoc(pass: Submission, p: Progress)
    requires p.first ==> p.uploads == pass.uploads
    ensures Traces(p.chunks + [OpenChunk(pass, p)]) == Emitted(pass, p)
  {
    var prologue := if p.first then Prologue(pass) else [];
    ChunkTrace(pass, p.vertices, p.draws, if p.first then p.uploads else [], p.first);
    TracesSnoc(p.chunks, OpenChunk(pass, p));
    Associative(Traces(p.chunks), prologue, DrawsTrace(FrameOf(pass), p.vertices, p.draws));
  }

  lemma TracesSnoc(chunks: seq<Submission>, chunk: Submission)
    ensures Traces(chunks + [chunk]) == Traces(chunks) + Trace(chunk)
  {
    assert (chunks + [chunk])[..|chunks|] == chunks;
  }

  lemma Associative<T>(a: seq<T>, b: seq<T>, c: seq<T>)
    ensures a + b + c == a + (b + c)
  {
  }

  // ------------------------------------------------------------- full chunks

  /** A chunk of these draws is closed to `draw`: another kind, or a limit one draw more would pass. */
  predicate CannotJoin(vertices: nat, draws: seq<Draw>, draw: Draw) {
    && draws != []
    && (|| draws[0].programmable.Some? != draw.programmable.Some?
        || |draws| >= 64
        || (draw.programmable.Some? && !WithinBudget(draws + [draw]))
        || (draw.programmable.None? && draw.vertexBuffer.Some? && !ChunkFitsTransport(vertices, |draws| + 1))
        || (Inline(draw) && !(ChunkFitsTransport(vertices + 3, |draws| + 1) && vertices + 3 <= 1440)))
  }

  predicate Apart(a: Submission, b: Submission) {
    b.draws != [] && CannotJoin(|a.vertices|, a.draws, b.draws[0])
  }

  /** Every chunk is closed to the first draw of the next one: not even one more triangle fits. */
  predicate Tight(chunks: seq<Submission>) {
    forall k :: 0 <= k < |chunks| - 1 ==> Apart(chunks[k], chunks[k + 1])
  }

  /** The last finished chunk is closed to the draw that comes next. */
  predicate Awaits(p: Progress, draw: Draw) {
    p.chunks != [] && p.draws == [] ==>
      var last := p.chunks[|p.chunks| - 1];
      CannotJoin(|last.vertices|, last.draws, draw)
  }

  predicate Snug(p: Progress) {
    && Tight(p.chunks)
    && (p.chunks != [] && p.draws != [] ==>
          var last := p.chunks[|p.chunks| - 1];
          CannotJoin(|last.vertices|, last.draws, p.draws[0]))
  }

  /** Only the very start has no open draw. */
  predicate Filled(p: Progress) { p.draws == [] ==> p.chunks == [] }

  /** Chunks as full as before, and still closed to `draw`. */
  predicate StaysSnug(p: Progress, next: Progress, draw: Draw) {
    Snug(p) && Awaits(p, draw) ==> Snug(next) && Awaits(next, draw)
  }

  lemma StaysSnugThrough(p: Progress, open: Progress, next: Progress, draw: Draw)
    requires StaysSnug(p, open, draw) && StaysSnug(open, next, draw)
    ensures StaysSnug(p, next, draw)
  {
  }

  lemma PushSnug(pass: Submission, p: Progress, next: Progress)
    requires p.draws != [] && next.chunks == p.chunks + [OpenChunk(pass, p)] && next.draws == []
    ensures Snug(p) ==> Snug(next)
    ensures forall draw :: CannotJoin(|p.vertices|, p.draws, draw) ==> Awaits(next, draw)
  {
    if Snug(p) {
      forall k | 0 <= k < |next.chunks| - 1 ensures Apart(next.chunks[k], next.chunks[k + 1]) {
        assert k < |p.chunks| - 1 ==> Apart(p.chunks[k], p.chunks[k + 1]);
      }
    }
  }

  lemma AppendSnug(p: Progress, more: seq<Vertex>, draw: Draw)
    requires Snug(p) && Awaits(p, draw)
    ensures Snug(p.(vertices := p.vertices + more, draws := p.draws + [draw]))
  {
    if p.draws != [] {
      assert (p.draws + [draw])[0] == p.draws[0];
    }
  }

  method PushChunk(pass: Submission, p: Progress) returns (next: Progress)
    requires Sound(pass, p) && p.draws != []
    ensures Sound(pass, next) && next.draws == [] && next.vertices == [] && !next.first
    ensures Emitted(pass, next) == Emitted(pass, p)
    ensures Snug(p) ==> Snug(next)
    ensures forall draw :: CannotJoin(|p.vertices|, p.draws, draw) ==> Awaits(next, draw)
  {
    next := Progress(p.chunks + [OpenChunk(pass, p)], [], [], if p.first then [] else p.uploads, false);
    PushSnug(pass, p, next);
    ClosedSnoc(pass, p);
    EmittedSnoc(pass, p);
    FreshOpen();
  }

  lemma FreshOpen()
    ensures Open([], []) && CountsValid([])
  {
  }

  lemma DrawUnmoved(frame: Frame, vertices: seq<Vertex>, more: seq<Vertex>, draw: Draw)
    requires InRange(|vertices|, draw)
    ensures DrawTrace(frame, vertices + more, draw) == DrawTrace(frame, vertices, draw)
  {
    if Inline(draw) {
      assert (vertices + more)[draw.start..draw.start + draw.count] == vertices[draw.start..draw.start + draw.count];
    }
  }

  lemma SegmentTrace(frame: Frame, vertices: seq<Vertex>, more: seq<Vertex>, draw: Draw)
    requires Inline(draw) && draw.start == |vertices| && draw.count == |more|
    ensures DrawTrace(frame, vertices + more, draw) == Triangles(frame, draw.state, more)
  {
    assert (vertices + more)[|vertices|..|vertices| + |more|] == more;
  }

  /** Vertices appended later do not change what earlier draws show. */
  lemma {:induction false} MoreVertices(frame: Frame, vertices: seq<Vertex>, more: seq<Vertex>, draws: seq<Draw>)
    requires forall k :: 0 <= k < |draws| ==> InRange(|vertices|, draws[k])
    ensures DrawsTrace(frame, vertices + more, draws) == DrawsTrace(frame, vertices, draws)
  {
    if draws != [] {
      var last := draws[|draws| - 1];
      MoreVertices(frame, vertices, more, draws[..|draws| - 1]);
      DrawUnmoved(frame, vertices, more, last);
    }
  }

  lemma {:induction false} TrianglesConcat(frame: Frame, state: DrawState, a: seq<Vertex>, b: seq<Vertex>)
    requires |a| % 3 == 0
    ensures Triangles(frame, state, a + b) == Triangles(frame, state, a) + Triangles(frame, state, b)
  {
    if a == [] {
      assert a + b == b;
    } else {
      assert (a + b)[3..] == a[3..] + b;
      TrianglesConcat(frame, state, a[3..], b);
    }
  }

  lemma DrawsSnoc(frame: Frame, vertices: seq<Vertex>, draws: seq<Draw>, draw: Draw)
    ensures DrawsTrace(frame, vertices, draws + [draw])
         == DrawsTrace(frame, vertices, draws) + DrawTrace(frame, vertices, draw)
  {
    assert (draws + [draw])[..|draws|] == draws;
  }

  /** A draw after others of its kind keeps the chunk open, its size permitting. */
  lemma OpenSnoc(vertices: seq<Vertex>, more: seq<Vertex>, draws: seq<Draw>, draw: Draw)
    requires Open(vertices, draws) && |draws| < MAX_DRAWS && InRange(|vertices + more|, draw)
    requires |vertices + more| <= MAX_VERTICES && ChunkFitsTransport(|vertices + more|, |draws| + 1)
    requires draws != [] ==> draws[0].programmable.Some? == draw.programmable.Some?
    requires draws != [] && draw.programmable.Some? ==> WithinBudget(draws + [draw])
    requires draw.programmable.Some? ==> more == []
    ensures Open(vertices + more, draws + [draw])
  {
    forall k | 0 <= k < |draws + [draw]| ensures InRange(|vertices + more|, (draws + [draw])[k]) {
      assert k < |draws| ==> InRange(|vertices|, draws[k]);
    }
    UnmixedSnoc(draws, draw);
  }

  lemma UnmixedSnoc(draws: seq<Draw>, draw: Draw)
    requires Unmixed(draws) && (draws != [] ==> draws[0].programmable.Some? == draw.programmable.Some?)
    ensures Unmixed(draws + [draw])
  {
    forall j, k | 0 <= j < k < |draws + [draw]|
      ensures (draws + [draw])[j].programmable.Some? == (draws + [draw])[k].programmable.Some?
    {
      if k == |draws| && 0 < j {
        assert draws[0].programmable.Some? == draws[j].programmable.Some?;
      }
    }
  }

  lemma CountsSnoc(draws: seq<Draw>, draw: Draw)
    requires CountsValid(draws) && DrawCountValid(draw)
    ensures CountsValid(draws + [draw])
  {
  }

  /** Appending a draw and its vertices keeps the progress sound and emits just that draw. */
  method Append(pass: Submission, p: Progress, more: seq<Vertex>, draw: Draw) returns (next: Progress)
    requires Sound(pass, p) && Open(p.vertices + more, p.draws + [draw])
    requires CountsValid(pass.draws) ==> DrawCountValid(draw)
    ensures Sound(pass, next) && next.draws == p.draws + [draw] && next.vertices == p.vertices + more
    ensures Emitted(pass, next) == Emitted(pass, p) + DrawTrace(FrameOf(pass), p.vertices + more, draw)
    ensures Snug(p) && Awaits(p, draw) ==> Snug(next)
  {
    if Snug(p) && Awaits(p, draw) {
      AppendSnug(p, more, draw);
    }
    AppendEmitted(pass, p, more, draw);
    AppendSound(pass, p, more, draw);
    next := p.(vertices := p.vertices + more, draws := p.draws + [draw]);
  }

  lemma AppendSound(pass: Submission, p: Progress, more: seq<Vertex>, draw: Draw)
    requires Sound(pass, p) && Open(p.vertices + more, p.draws + [draw])
    requires CountsValid(pass.draws) ==> DrawCountValid(draw)
    ensures Sound(pass, p.(vertices := p.vertices + more, draws := p.draws + [draw]))
  {
    if CountsValid(pass.draws) {
      CountsSnoc(p.draws, draw);
    }
  }

  lemma AppendEmitted(pass: Submission, p: Progress, more: seq<Vertex>, draw: Draw)
    requires forall k :: 0 <= k < |p.draws| ==> InRange(|p.vertices|, p.draws[k])
    ensures Emitted(pass, p.(vertices := p.vertices + more, draws := p.draws + [draw]))
         == Emitted(pass, p) + DrawTrace(FrameOf(pass), p.vertices + more, draw)
  {
    var frame := FrameOf(pass);
    MoreVertices(frame, p.vertices, more, p.draws);
    DrawsSnoc(frame, p.vertices + more, p.draws, draw);
    Associative(Traces(p.chunks) + (if p.first then Prologue(pass) else []),
      DrawsTrace(frame, p.vertices, p.draws), DrawTrace(frame, p.vertices + more, draw));
  }

  /** A programmable draw joins an open chunk that was flushed when it could not. */
  method AddProgrammable(pass: Submission, p: Progress, draw: Draw) returns (next: Progress)
    requires Sound(pass, p) && draw.programmable.Some?
    requires CountsValid(pass.draws) ==> DrawCountValid(draw)
    requires p.draws != [] ==> |p.draws| < MAX_DRAWS && WithinBudget(p.draws + [draw])
    ensures Sound(pass, next) && next.draws != []
    ensures Emitted(pass, next) == Emitted(pass, p) + [Whole(FrameOf(pass), draw)]
    ensures Snug(p) && Awaits(p, draw) ==> Snug(next)
  {
    if p.draws != [] {
      assert (p.draws + [draw])[0] == p.draws[0];
    }
    OpenSnoc(p.vertices, [], p.draws, draw);
    next := Append(pass, p, [], draw);
  }

  method AddPersistent(pass: Submission, p: Progress, draw: Draw) returns (next: Progress)
    requires Sound(pass, p) && draw.programmable.None? && draw.vertexBuffer.Some?
    requires CountsValid(pass.draws) ==> DrawCountValid(draw)
    requires p.draws != [] ==> p.draws[0].programmable.None?
    ensures Sound(pass, next) && next.draws != []
    ensures Emitted(pass, next) == Emitted(pass, p) + [Whole(FrameOf(pass), draw)]
    ensures Snug(p) && Awaits(p, draw) ==> Snug(next)
  {
    next := p;
    if |p.draws| >= MAX_DRAWS || !ChunkFitsTransport(|p.vertices|, |p.draws| + 1) {
      next := PushChunk(pass, p);
    }
    OpenSnoc(next.vertices, [], next.draws, draw);
    next := Append(pass, next, [], draw);
  }

  /** One segment of an inline draw copied into the open chunk. */
  method AddSegment(pass: Submission, p: Progress, draw: Draw, from: nat, count: nat) returns (next: Progress)
    requires Sound(pass, p) && Inline(draw) && from + count <= |pass.vertices|
    requires 0 < count && count % 3 == 0
    requires p.draws != [] ==> p.draws[0].programmable.None?
    requires |p.draws| < MAX_DRAWS
    requires ChunkFitsTransport(|p.vertices| + count, |p.draws| + 1) && |p.vertices| + count <= MAX_VERTICES
    ensures Sound(pass, next) && next.draws != [] && next.draws[0].programmable.None?
    ensures Emitted(pass, next)
         == Emitted(pass, p) + Triangles(FrameOf(pass), draw.state, pass.vertices[from..from + count])
    ensures Snug(p) && Awaits(p, draw) ==> Snug(next)
    ensures |next.vertices| == |p.vertices| + count && |next.draws| == |p.draws| + 1
  {
    var segment := draw.(start := |p.vertices|, count := count);
    var more := pass.vertices[from..from + count];
    assert Open(p.vertices + more, p.draws + [segment]) by { OpenSnoc(p.vertices, more, p.draws, segment); }
    SegmentTrace(FrameOf(pass), p.vertices, more, segment);
    SegmentAwaits(p, draw, from, count);
    next := Append(pass, p, more, segment);
  }

  /** A chunk closed to an inline draw is closed to each of its segments. */
  lemma SegmentAwaits(p: Progress, draw: Draw, from: nat, count: nat)
    requires Inline(draw)
    ensures Awaits(p, draw) <==> Awaits(p, draw.(start := |p.vertices|, count := count))
  {
  }

  /** An inline draw over as many chunks as it needs, cut only between triangles. */
  method AddInline(pass: Submission, p: Progress, draw: Draw) returns (next: Progress)
    requires Sound(pass, p) && Inline(draw)
    requires draw.start + draw.count <= |pass.vertices| && draw.count % 3 == 0
    requires p.draws != [] ==> p.draws[0].programmable.None?
    ensures Sound(pass, next)
    ensures Emitted(pass, next) == Emitted(pass, p) + DrawTrace(FrameOf(pass), pass.vertices, draw)
    ensures draw.count > 0 ==> next.draws != []
    ensures Snug(p) && Awaits(p, draw) ==> Snug(next)
  {
    next := p;
    var end := draw.start + draw.count;
    var from := draw.start;
    while from < end
      invariant from <= end && DrawnTo(pass, p, draw, from, next)
      invariant Sound(pass, next) && FixedOnly(next)
      invariant from == end > draw.start ==> next.draws != []
      invariant StaysSnug(p, next, draw)
      decreases end - from, |next.draws|
    {
      ghost var was, at := next, from;
      next, from := InlineStep(pass, next, draw, from);
      DrawnNext(pass, p, draw, at, from, was, next);
      StaysSnugThrough(p, was, next, draw);
    }
  }

  predicate FixedOnly(p: Progress) { p.draws != [] ==> p.draws[0].programmable.None? }

  /** `next` has emitted what `p` had and the draw's triangles up to vertex `to`. */
  ghost predicate DrawnTo(pass: Submission, p: Progress, draw: Draw, to: nat, next: Progress) {
    && draw.start <= to <= |pass.vertices|
    && (to - draw.start) % 3 == 0
    && Emitted(pass, next) == Emitted(pass, p) + Triangles(FrameOf(pass), draw.state, pass.vertices[draw.start..to])
  }

  lemma DrawnNext(pass: Submission, p: Progress, draw: Draw, from: nat, to: nat, open: Progress, next: Progress)
    requires DrawnTo(pass, p, draw, from, open) && from <= to <= |pass.vertices| && (to - from) % 3 == 0
    requires Emitted(pass, next) == Emitted(pass, open) + Triangles(FrameOf(pass), draw.state, pass.vertices[from..to])
    ensures DrawnTo(pass, p, draw, to, next)
  {
    var frame, vertices := FrameOf(pass), pass.vertices;
    Thirds(from - draw.start, to - from);
    JoinTriangles(frame, draw.state, vertices, draw.start, from, to);
    Extended(Emitted(pass, p), Emitted(pass, open), Triangles(frame, draw.state, vertices[draw.start..from]),
      Triangles(frame, draw.state, vertices[from..to]), Triangles(frame, draw.state, vertices[draw.start..to]));
  }

  lemma Thirds(a: nat, b: nat)
    requires a % 3 == 0 && b % 3 == 0
    ensures (a + b) % 3 == 0
  {
  }

  lemma Extended<T>(start: seq<T>, middle: seq<T>, first: seq<T>, second: seq<T>, both: seq<T>)
    requires middle == start + first && both == first + second
    ensures middle + second == start + both
  {
  }

  /** The draw's vertices from `from` to `to` are placed, and the chunks stay sound and full. */
  ghost predicate Placed(pass: Submission, open: Progress, draw: Draw, from: nat, to: nat, next: Progress) {
    && from <= to <= |pass.vertices| && (to - from) % 3 == 0
    && Sound(pass, next) && FixedOnly(next)
    && Emitted(pass, next) == Emitted(pass, open) + Triangles(FrameOf(pass), draw.state, pass.vertices[from..to])
    && StaysSnug(open, next, draw)
  }

  /** Either a full chunk is closed or at least one triangle is placed. */
  method InlineStep(pass: Submission, open: Progress, draw: Draw, from: nat) returns (next: Progress, to: nat)
    requires Sound(pass, open) && FixedOnly(open) && Inline(draw)
    requires from < draw.start + draw.count <= |pass.vertices| && (draw.start + draw.count - from) % 3 == 0
    ensures to <= draw.start + draw.count && Placed(pass, open, draw, from, to, next)
    ensures to == draw.start + draw.count ==> next.draws != []
    ensures from < to || |next.draws| < |open.draws|
  {
    var count := NextCount(|open.vertices|, |open.draws| + 1, draw.start + draw.count - from);
    if |open.draws| >= MAX_DRAWS || count == 0 {
      to := from;
      next := CloseFull(pass, open, draw, from);
    } else {
      to := from + count;
      next := FillSegment(pass, open, draw, from, count);
    }
  }

  method CloseFull(pass: Submission, open: Progress, draw: Draw, ghost from: nat) returns (next: Progress)
    requires Sound(pass, open) && Inline(draw) && open.draws != [] && from <= |pass.vertices|
    requires |open.draws| >= 64 || NoRoom(|open.vertices|, |open.draws| + 1)
    ensures Placed(pass, open, draw, from, from, next) && next.draws == []
  {
    next := PushChunk(pass, open);
    assert pass.vertices[from..from] == [];
    assert CannotJoin(|open.vertices|, open.draws, draw);
  }

  /** A segment the open chunk has room for; the chunk is closed when the draw goes on. */
  method FillSegment(pass: Submission, open: Progress, draw: Draw, from: nat, count: nat) returns (next: Progress)
    requires Sound(pass, open) && FixedOnly(open) && Inline(draw)
    requires from + count <= draw.start + draw.count <= |pass.vertices|
    requires 0 < count && count % 3 == 0 && |open.draws| < 64
    requires ChunkFitsTransport(|open.vertices| + count, |open.draws| + 1) && |open.vertices| + count <= 1440
    requires from + count < draw.start + draw.count ==> NoRoom(|open.vertices| + count, |open.draws| + 1)
    ensures Placed(pass, open, draw, from, from + count, next)
    ensures from + count == draw.start + draw.count ==> next.draws != []
  {
    next := AddSegment(pass, open, draw, from, count);
    if from + count < draw.start + draw.count {
      FullCannotJoin(|next.vertices|, next.draws, draw);
      next := PushChunk(pass, next);
    }
  }

  /** Not one triangle more in a chunk of this many draws. */
  predicate NoRoom(vertices: nat, draws: nat) {
    !(ChunkFitsTransport(vertices + 3, draws) && vertices + 3 <= 1440)
  }

  lemma FullCannotJoin(vertices: nat, draws: seq<Draw>, draw: Draw)
    requires draws != [] && NoRoom(vertices, |draws|) && Inline(draw)
    ensures CannotJoin(vertices, draws, draw)
  {
  }

  /** Whole triangles the chunk has room for; an empty chunk always has some. */
  method NextCount(vertices: nat, draws: nat, remaining: nat) returns (count: nat)
    requires remaining > 0 && remaining % 3 == 0
    ensures count % 3 == 0 && count <= remaining && (vertices == 0 && draws == 1 ==> count > 0)
    ensures count > 0 ==> ChunkFitsTransport(vertices + count, draws) && vertices + count <= 1440
    ensures count < remaining ==> NoRoom(vertices + count, draws)
  {
    var capacity := InlineVertexCapacity(vertices, draws);
    capacity := capacity - capacity % 3;
    count := Min(remaining, capacity);
  }

  lemma JoinTriangles(frame: Frame, state: DrawState, vertices: seq<Vertex>, start: nat, middle: nat, end: nat)
    requires start <= middle <= end <= |vertices| && (middle - start) % 3 == 0
    ensures Triangles(frame, state, vertices[start..end])
         == Triangles(frame, state, vertices[start..middle]) + Triangles(frame, state, vertices[middle..end])
  {
    assert vertices[start..end] == vertices[start..middle] + vertices[middle..end];
    TrianglesConcat(frame, state, vertices[start..middle], vertices[middle..end]);
  }

  /** An inline draw that no splitting can place. */
  predicate Misplaced(pass: Submission, draw: Draw) {
    && Inline(draw)
    && (draw.start + draw.count > MAX_WORD || draw.start + draw.count > |pass.vertices| || draw.count % 3 != 0)
  }

  /** Close the open chunk when `draw` cannot share it. */
  method FlushFor(pass: Submission, p: Progress, draw: Draw) returns (next: Progress)
    requires Sound(pass, p)
    ensures Sound(pass, next) && Emitted(pass, next) == Emitted(pass, p)
    ensures next.draws != [] ==>
      if draw.programmable.Some? then |next.draws| < MAX_DRAWS && WithinBudget(next.draws + [draw])
      else next.draws[0].programmable.None?
    ensures Snug(p) && Filled(p) ==> Snug(next) && Awaits(next, draw)
  {
    var flush := false;
    if p.draws != [] {
      if draw.programmable.Some? {
        var bytes := ProgrammableChunkBytes(p.draws + [draw]);
        flush := |p.draws| >= MAX_DRAWS || bytes.None? || bytes.value > TRANSPORT_BYTES;
      } else {
        flush := p.draws[0].programmable.Some?;
      }
    }
    next := p;
    if flush {
      next := PushChunk(pass, p);
    }
  }

  method AddDraw(pass: Submission, p: Progress, draw: Draw) returns (result: Result<Progress, SplitError>)
    requires Sound(pass, p) && (CountsValid(pass.draws) ==> DrawCountValid(draw))
    ensures result.Err? <==> Misplaced(pass, draw)
    ensures result.Err? ==> result.error == InvalidVertexData
    ensures result.Ok? ==> Sound(pass, result.value)
    ensures result.Ok? ==>
      Emitted(pass, result.value) == Emitted(pass, p) + DrawTrace(FrameOf(pass), pass.vertices, draw)
    ensures result.Ok? && DrawCountValid(draw) ==> result.value.draws != []
    ensures result.Ok? && Snug(p) && Filled(p) ==> Snug(result.value)
  {
    var next := FlushFor(pass, p, draw);
    if draw.programmable.Some? {
      next := AddProgrammable(pass, next, draw);
    } else if draw.vertexBuffer.None? {
      if draw.start + draw.count > MAX_WORD || draw.start + draw.count > |pass.vertices| || draw.count % 3 != 0 {
        return Err(InvalidVertexData);
      }
      next := AddInline(pass, next, draw);
    } else {
      next := AddPersistent(pass, next, draw);
    }
    return Ok(next);
  }

  /**
   Cut a pass into chunks. It fails exactly on a misplaced inline draw;
   otherwise the chunks together do what the pass does, effect by effect, and
   valid draws make every chunk acceptable.
   */
  method Split(pass: Submission) returns (result: Result<seq<Submission>, SplitError>)
    ensures result.Err? <==> exists k :: 0 <= k < |pass.draws| && Misplaced(pass, pass.draws[k])
    ensures result.Err? ==> result.error == InvalidVertexData
    ensures result.Ok? ==> Traces(result.value) == Trace(pass) && Tidy(pass, result.value)
    ensures result.Ok? && CountsValid(pass.draws) && (pass.draws != [] || HasClear(pass)) ==> AllAccepted(result.value)
    ensures result.Ok? && CountsValid(pass.draws) ==> Tight(result.value)
    ensures result.Ok? ==> result.value != [] && (pass.draws == [] ==> |result.value| == 1)
  {
    var filled := AddDraws(pass);
    if filled.Err? {
      return Err(filled.error);
    }
    EmittedAll(pass, filled.value);
    var chunks := Finish(pass, filled.value);
    return Ok(chunks);
  }

  method AddDraws(pass: Submission) returns (result: Result<Progress, SplitError>)
    ensures result.Err? <==> exists k :: 0 <= k < |pass.draws| && Misplaced(pass, pass.draws[k])
    ensures result.Err? ==> result.error == InvalidVertexData
    ensures result.Ok? ==> PlacedTo(pass, result.value, |pass.draws|)
  {
    var p := Progress([], [], [], pass.uploads, true);
    var k := 0;
    NonePlaced(pass);
    while k < |pass.draws|
      invariant 0 <= k <= |pass.draws| && PlacedTo(pass, p, k)
      invariant forall j :: 0 <= j < k ==> !Misplaced(pass, pass.draws[j])
    {
      var added := AddNext(pass, p, k);
      if added.Err? {
        return Err(added.error);
      }
      p := added.value;
      k := k + 1;
    }
    return Ok(p);
  }

  method AddNext(pass: Submission, p: Progress, k: nat) returns (result: Result<Progress, SplitError>)
    requires k < |pass.draws| && PlacedTo(pass, p, k)
    ensures result.Err? <==> Misplaced(pass, pass.draws[k])
    ensures result.Err? ==> result.error == InvalidVertexData
    ensures result.Ok? ==> PlacedTo(pass, result.value, k + 1)
  {
    result := AddDraw(pass, p, pass.draws[k]);
    if result.Ok? {
      EmittedNext(pass, p, result.value, k);
      FullNext(pass, p, result.value, k);
    }
  }

  /** The first `k` draws are placed in chunks that are sound and full. */
  ghost predicate PlacedTo(pass: Submission, p: Progress, k: nat) {
    Sound(pass, p) && EmittedTo(pass, p, k) && FullTo(pass, p, k)
  }

  lemma NonePlaced(pass: Submission)
    ensures PlacedTo(pass, Progress([], [], [], pass.uploads, true), 0)
  {
    FreshOpen();
  }

  /** With valid draws, every chunk so far is full and the latest draw is still open. */
  predicate FullTo(pass: Submission, p: Progress, k: nat) {
    && (CountsValid(pass.draws) ==> Snug(p) && Filled(p) && (k > 0 ==> p.draws != []))
    && (k == 0 ==> p.first)
  }

  lemma FullNext(pass: Submission, p: Progress, next: Progress, k: nat)
    requires k < |pass.draws| && FullTo(pass, p, k)
    requires DrawCountValid(pass.draws[k]) ==> next.draws != [] && (Snug(p) && Filled(p) ==> Snug(next))
    ensures FullTo(pass, next, k + 1)
  {
  }

  lemma EmittedAll(pass: Submission, p: Progress)
    requires EmittedTo(pass, p, |pass.draws|)
    ensures Emitted(pass, p) == Trace(pass)
  {
    assert pass.draws[..|pass.draws|] == pass.draws;
  }

  ghost predicate EmittedTo(pass: Submission, p: Progress, k: nat) {
    && k <= |pass.draws|
    && Emitted(pass, p) == Prologue(pass) + DrawsTrace(FrameOf(pass), pass.vertices, pass.draws[..k])
  }

  lemma EmittedNext(pass: Submission, p: Progress, next: Progress, k: nat)
    requires k < |pass.draws| && EmittedTo(pass, p, k)
    requires Emitted(pass, next) == Emitted(pass, p) + DrawTrace(FrameOf(pass), pass.vertices, pass.draws[k])
    ensures EmittedTo(pass, next, k + 1)
  {
    assert pass.draws[..k + 1] == pass.draws[..k] + [pass.draws[k]];
    DrawsSnoc(FrameOf(pass), pass.vertices, pass.draws[..k], pass.draws[k]);
    Associative(Prologue(pass), DrawsTrace(FrameOf(pass), pass.vertices, pass.draws[..k]),
      DrawTrace(FrameOf(pass), pass.vertices, pass.draws[k]));
  }

  lemma FinishTight(pass: Submission, p: Progress)
    requires Snug(p) && Filled(p)
    ensures Tight(p.chunks + [OpenChunk(pass, p)])
  {
    if p.draws != [] {
      PushSnug(pass, p, Progress(p.chunks + [OpenChunk(pass, p)], [], [], [], false));
    }
  }

  /** The last push; skipped when everything is already pushed. */
  method Finish(pass: Submission, p: Progress) returns (chunks: seq<Submission>)
    requires Sound(pass, p)
    ensures Traces(chunks) == Emitted(pass, p) && Tidy(pass, chunks)
    ensures CountsValid(pass.draws) && (!p.first || p.draws != [] || HasClear(pass)) ==> AllAccepted(chunks)
    ensures chunks != [] && (p.first ==> |chunks| == 1)
    ensures Snug(p) && Filled(p) ==> Tight(chunks)
  {
    if !p.first && p.vertices == [] && p.draws == [] {
      return p.chunks;
    }
    EmittedSnoc(pass, p);
    TidySnoc(pass, p);
    if p.draws != [] || HasClear(pass) {
      ClosedSnoc(pass, p);
    }
    if Snug(p) && Filled(p) {
      FinishTight(pass, p);
    }
    chunks := p.chunks + [OpenChunk(pass, p)];
  }

  /** End of a pass: nothing to draw and nothing to clear leaves no chunk, if nothing may be lost. */
  method FinishPass(pass: Submission, preservesContents: bool) returns (result: Result<seq<Submission>, SplitError>)
    ensures result.Ok? ==> Tidy(pass, result.value)
    ensures result.Ok? && (pass.uploads == [] || pass.draws != [] || HasClear(pass)) ==>
      Traces(result.value) == Trace(pass)
    ensures result.Ok? && CountsValid(pass.draws) ==> AllAccepted(result.value) && Tight(result.value)
    ensures result.Ok? ==> (result.value == [] <==> pass.draws == [] && !HasClear(pass))
    ensures result == Err(CommandSequence) <==> pass.draws == [] && !HasClear(pass) && !preservesContents
    ensures result == Err(InvalidVertexData) <==> exists k :: 0 <= k < |pass.draws| && Misplaced(pass, pass.draws[k])
  {
    var hasClear := SubmissionHasClear(pass);
    if pass.draws == [] && !hasClear {
      if !preservesContents {
        return Err(CommandSequence);
      }
      NoColorClears(FrameOf(pass), pass.colors);
      return Ok([]);
    }
    result := Split(pass);
  }
}
