/**
 Lowering a recorded render stream: buffer commands are gathered into the
 sparse plan and run first, texture operations and split passes follow as
 events, and passes that do nothing disappear. The reference interpreter takes
 the stream one command at a time; both must drive the device identically.
 */
module Lowering {
  import opened Common
  import opened BufferPlan
  import BS = BufferStream
  import opened SplitPass
  import PB = PendingBuffers
  import Floats = Submissions

  datatype LoadOp = Load | Clear(value: nat) | DontCare
  datatype StoreOp = Store | Discard
  datatype Attachment = Attachment(texture: nat, load: LoadOp, store: StoreOp)

  /** The first color attachment is the target; the others follow in order. */
  datatype PassDesc = PassDesc(
    target: Attachment, colors: seq<Attachment>, depth: Option<Attachment>, depthReadOnly: bool, area: nat)

  datatype Command =
    | WriteBuffer(buffer: nat, offset: nat, data: seq<byte>)
    | CopyBuffer(source: nat, sourceOffset: nat, destination: nat, destinationOffset: nat, size: nat)
    | TextureCommand(texture: nat)
    | ResourceBarrier(barrier: nat)
    | BeginRenderPass(desc: PassDesc)
    | EndRenderPass
    | SetState(setting: nat)
    | DrawCommand(call: nat)
    | ComputeCommand

  datatype LowerError =
    | Buffer(plan: PlanError) | Sequence | NotActive | Split(split: SplitError) | Rejected(reason: nat) | Compute

  /** A draw whose vertices and resources have been read from the pending buffers. */
  datatype Decoded =
    | InlineDraw(vertices: seq<Vertex>, state: DrawState)
    | PersistentDraw(binding: nat, first: nat, count: nat, state: DrawState)
    | Programmable(programmable: ProgrammableDraw, first: nat, count: nat, state: DrawState)

  /** Descriptor checks and draw decoding, which depend only on what they are given. */
  datatype Device = Device(
    texture: nat -> Result<nat, nat>,
    barrier: nat -> Option<nat>,
    begin: PassDesc -> Option<nat>,
    setting: (PassDesc, seq<nat>, nat) -> Option<nat>,
    decode: (PassDesc, seq<nat>, seq<seq<byte>>, nat) -> Result<Decoded, nat>)

  datatype Event = TextureEvent(op: nat) | Pass(submission: Submission)

  // ---------------------------------------------------------------- reference

  datatype DeviceEffect =
    | Texture(op: nat)
    | Rendered(effect: Effect)
    | RenderedFrom(effect: Effect, buffers: seq<seq<byte>>)
    | Forget(forgotten: nat)

  /** A draw that fetches on the device sees the buffers of that moment. */
  function See(effect: Effect, buffers: seq<seq<byte>>): DeviceEffect {
    if effect.Whole? then RenderedFrom(effect, buffers) else Rendered(effect)
  }

  function SeeAll(effects: seq<Effect>, buffers: seq<seq<byte>>): (r: seq<DeviceEffect>)
    ensures |r| == |effects|
  {
    seq(|effects|, i requires 0 <= i < |effects| => See(effects[i], buffers))
  }

  datatype OpenPass = OpenPass(desc: PassDesc, settings: seq<nat>)
  datatype World = World(buffers: seq<seq<byte>>, open: Option<OpenPass>, trace: seq<DeviceEffect>)

  function ClearOf(load: LoadOp): Option<nat> { if load.Clear? then Some(load.value) else None }

  /** The submission a pass starts with. */
  function Begun(desc: PassDesc): Submission {
    Submission(
      desc.target.texture, ClearOf(desc.target.load),
      seq(|desc.colors|, i requires 0 <= i < |desc.colors| =>
        ColorAttachment(desc.colors[i].texture, ClearOf(desc.colors[i].load))),
      (if desc.depth.Some? then Some(desc.depth.value.texture) else None), desc.depthReadOnly,
      (if desc.depth.Some? then ClearOf(desc.depth.value.load) else None), desc.area, [], [], [])
  }

  /** The attachments of a pass: the target, the other colors in order, then depth. */
  function Attachments(desc: PassDesc): seq<Attachment> {
    [desc.target] + desc.colors + if desc.depth.Some? then [desc.depth.value] else []
  }

  /** What the draws of a pass render into. */
  function PassFrame(desc: PassDesc): Frame {
    Frame(desc.target.texture, seq(|desc.colors|, i requires 0 <= i < |desc.colors| => desc.colors[i].texture),
      (match desc.depth case None => None case Some(a) => Some(a.texture)), desc.depthReadOnly, desc.area)
  }

  /** The clear attachment `k` asks for. */
  function ClearEffect(desc: PassDesc, k: nat): Effect
    requires k < |Attachments(desc)| && Attachments(desc)[k].load.Clear?
  {
    var a := Attachments(desc)[k];
    if k == 0 then ClearTarget(PassFrame(desc), a.load.value)
    else if k <= |desc.colors| then ClearColor(PassFrame(desc), a.texture, a.load.value)
    else ClearDepth(PassFrame(desc), a.load.value)
  }

  /** The clears of the first `n` attachments, in order. */
  function AskedClears(desc: PassDesc, n: nat): seq<Effect>
    requires n <= |Attachments(desc)|
  {
    if n == 0 then []
    else AskedClears(desc, n - 1) + if Attachments(desc)[n - 1].load.Clear? then [ClearEffect(desc, n - 1)] else []
  }

  function ClearCount(desc: PassDesc, n: nat): nat
    requires n <= |Attachments(desc)|
  {
    if n == 0 then 0 else ClearCount(desc, n - 1) + if Attachments(desc)[n - 1].load.Clear? then 1 else 0
  }

  /** One clear for each attachment loaded with one, in attachment order, and none for any other. */
  lemma {:induction false} ClearsExactly(desc: PassDesc, n: nat)
    requires n <= |Attachments(desc)|
    ensures |AskedClears(desc, n)| == ClearCount(desc, n)
    ensures forall k :: 0 <= k < n && Attachments(desc)[k].load.Clear? ==>
      ClearCount(desc, k) < ClearCount(desc, n) && AskedClears(desc, n)[ClearCount(desc, k)] == ClearEffect(desc, k)
  {
    if n > 0 {
      ClearsExactly(desc, n - 1);
    }
  }

  lemma {:induction false} ColorsAsked(desc: PassDesc, n: nat)
    requires n <= |desc.colors|
    ensures AskedClears(desc, n + 1)
      == AskedClears(desc, 1) + ColorClears(PassFrame(desc), Begun(desc).colors[..n])
  {
    if n > 0 {
      ColorsAsked(desc, n - 1);
      assert Begun(desc).colors[..n][..n - 1] == Begun(desc).colors[..n - 1];
      assert Attachments(desc)[n] == desc.colors[n - 1];
    }
  }

  lemma BegunPrologue(desc: PassDesc)
    requires FrameOf(Begun(desc)) == PassFrame(desc)
    ensures Prologue(Begun(desc)) == AskedClears(desc, |Attachments(desc)|)
  {
    ColorsAsked(desc, |desc.colors|);
    AttachmentAt(desc);
    assert Begun(desc).colors[..|desc.colors|] == Begun(desc).colors;
    assert AskedClears(desc, 0) == [];
  }

  /** A pass starts with what its description asks for and nothing else. */
  lemma BegunMeans(desc: PassDesc)
    ensures FrameOf(Begun(desc)) == PassFrame(desc)
    ensures Prologue(Begun(desc)) == AskedClears(desc, |Attachments(desc)|)
    ensures HasClear(Begun(desc)) <==> Clearing(desc)
    ensures Begun(desc).vertices == [] && Begun(desc).draws == [] && Begun(desc).uploads == []
  {
    assert FrameOf(Begun(desc)).colors == PassFrame(desc).colors;
    BegunPrologue(desc);
    BegunClears(desc);
  }

  lemma AttachmentAt(desc: PassDesc)
    ensures Attachments(desc)[0] == desc.target
    ensures |Attachments(desc)| == 1 + |desc.colors| + if desc.depth.Some? then 1 else 0
    ensures forall k :: 0 <= k < |desc.colors| ==> Attachments(desc)[k + 1] == desc.colors[k]
    ensures desc.depth.Some? ==> Attachments(desc)[|desc.colors| + 1] == desc.depth.value
  {
  }

  /** An attachment is loaded with a clear. */
  ghost predicate Clearing(desc: PassDesc) {
    exists k :: 0 <= k < |Attachments(desc)| && Attachments(desc)[k].load.Clear?
  }

  lemma BegunClears(desc: PassDesc)
    ensures HasClear(Begun(desc)) <==> Clearing(desc)
  {
    AttachmentAt(desc);
    if HasClear(Begun(desc)) {
      ClearsBegun(desc);
    }
    if k :| 0 <= k < |Attachments(desc)| && Attachments(desc)[k].load.Clear? {
      if 0 < k <= |desc.colors| {
        assert Begun(desc).colors[k - 1].clear.Some?;
      }
    }
  }

  lemma ClearsBegun(desc: PassDesc)
    requires HasClear(Begun(desc))
    ensures Clearing(desc)
  {
    AttachmentAt(desc);
    if Begun(desc).clearColor.Some? {
      assert Attachments(desc)[0].load.Clear?;
    } else if Begun(desc).clearDepth.Some? {
      assert Attachments(desc)[|desc.colors| + 1].load.Clear?;
    } else {
      var k :| 0 <= k < |desc.colors| && Begun(desc).colors[k].clear.Some?;
      assert Attachments(desc)[k + 1].load.Clear?;
    }
  }

  /** Contents a pass need not keep: on load, and at its end. */
  function Forgotten(attachments: seq<Attachment>, atEnd: bool): seq<DeviceEffect> {
    if attachments == [] then []
    else
      var last := attachments[|attachments| - 1];
      Forgotten(attachments[..|attachments| - 1], atEnd)
      + if (atEnd && last.store == Discard) || (!atEnd && last.load == DontCare) then [Forget(last.texture)] else []
  }

  function DecodedTrace(frame: Frame, decoded: Decoded): seq<Effect> {
    match decoded
    case InlineDraw(vertices, state) => Triangles(frame, state, vertices)
    case PersistentDraw(buffer, first, count, state) => [Whole(frame, Draw(None, first, count, Some(buffer), state))]
    case Programmable(programmable, first, count, state) =>
      [Whole(frame, Draw(Some(programmable), first, count, None, state))]
  }

  /** The draw record a decoded draw becomes when its vertices start at `start`. */
  function DrawOf(decoded: Decoded, start: nat): Draw {
    match decoded
    case InlineDraw(vertices, state) => Draw(None, start, |vertices|, None, state)
    case PersistentDraw(binding, first, count, state) => Draw(None, first, count, Some(binding), state)
    case Programmable(programmable, first, count, state) => Draw(Some(programmable), first, count, None, state)
  }

  /** What one command asks of the device, in stream order. */
  function Effects(device: Device, buffers: seq<seq<byte>>, open: Option<OpenPass>, command: Command): seq<DeviceEffect>
  {
    match command
    case TextureCommand(texture) => if device.texture(texture).Ok? then [Texture(device.texture(texture).value)] else []
    case BeginRenderPass(desc) =>
      Forgotten(Attachments(desc), false) + SeeAll(AskedClears(desc, |Attachments(desc)|), buffers)
    case EndRenderPass => if open.Some? then Forgotten(Attachments(open.value.desc), true) else []
    case DrawCommand(call) =>
      if open.None? then []
      else
        var decoded := device.decode(open.value.desc, open.value.settings, buffers, call);
        if decoded.Ok? then SeeAll(DecodedTrace(PassFrame(open.value.desc), decoded.value), buffers) else []
    case _ => []
  }

  function Opened(open: Option<OpenPass>, command: Command): Option<OpenPass> {
    match command
    case BeginRenderPass(desc) => Some(OpenPass(desc, []))
    case EndRenderPass => None
    case SetState(setting) =>
      if open.Some? then Some(open.value.(settings := open.value.settings + [setting])) else None
    case _ => open
  }

  ghost function Buffers(buffers: seq<seq<byte>>, command: Command): seq<seq<byte>> {
    match command
    case WriteBuffer(b, offset, data) => BS.NaiveStep(buffers, BS.WriteBuffer(b, offset, data))
    case CopyBuffer(s, from, d, to, size) => BS.NaiveStep(buffers, BS.CopyBufferToBuffer(s, from, d, to, size))
    case _ => buffers
  }

  /** The stream run one command at a time. */
  ghost function InOrder(device: Device, buffers: seq<seq<byte>>, commands: seq<Command>): World {
    if commands == [] then World(buffers, None, [])
    else
      var w := InOrder(device, buffers, commands[..|commands| - 1]);
      var command := commands[|commands| - 1];
      World(Buffers(w.buffers, command), Opened(w.open, command),
            w.trace + Effects(device, w.buffers, w.open, command))
  }

  /** Undefined contents may stay as they were, so forgetting may be skipped. */
  function Kept(trace: seq<DeviceEffect>): seq<DeviceEffect> {
    if trace == [] then []
    else
      Kept(trace[..|trace| - 1]) + if trace[|trace| - 1].Forget? then [] else [trace[|trace| - 1]]
  }

  lemma {:induction false} KeptConcat(a: seq<DeviceEffect>, b: seq<DeviceEffect>)
    ensures Kept(a + b) == Kept(a) + Kept(b)
  {
    if b == [] {
      assert a + b == a;
    } else {
      assert (a + b)[..|a + b| - 1] == a + b[..|b| - 1];
      KeptConcat(a, b[..|b| - 1]);
    }
  }

  lemma {:induction false} KeptSeen(effects: seq<Effect>, buffers: seq<seq<byte>>)
    ensures Kept(SeeAll(effects, buffers)) == SeeAll(effects, buffers)
  {
    if effects != [] {
      assert SeeAll(effects, buffers)[..|effects| - 1] == SeeAll(effects[..|effects| - 1], buffers);
      KeptSeen(effects[..|effects| - 1], buffers);
    }
  }

  lemma {:induction false} KeptForgotten(attachments: seq<Attachment>, atEnd: bool)
    ensures Kept(Forgotten(attachments, atEnd)) == []
  {
    if attachments != [] {
      var before := Forgotten(attachments[..|attachments| - 1], atEnd);
      KeptForgotten(attachments[..|attachments| - 1], atEnd);
      KeptConcat(before, Forgotten(attachments, atEnd)[|before|..]);
      assert Forgotten(attachments, atEnd) == before + Forgotten(attachments, atEnd)[|before|..];
    }
  }

  lemma SeeConcat(a: seq<Effect>, b: seq<Effect>, buffers: seq<seq<byte>>)
    ensures SeeAll(a + b, buffers) == SeeAll(a, buffers) + SeeAll(b, buffers)
  {
  }

  // ------------------------------------------------------------------ lowered

  function EventTrace(event: Event, buffers: seq<seq<byte>>): seq<DeviceEffect> {
    match event
    case TextureEvent(op) => [Texture(op)]
    case Pass(submission) => SeeAll(Trace(submission), buffers)
  }

  /** Executing the events after every buffer update: device draws see the final contents. */
  function EventsTrace(events: seq<Event>, buffers: seq<seq<byte>>): seq<DeviceEffect> {
    if events == [] then []
    else EventsTrace(events[..|events| - 1], buffers) + EventTrace(events[|events| - 1], buffers)
  }

  lemma EventsSnoc(events: seq<Event>, event: Event, buffers: seq<seq<byte>>)
    ensures EventsTrace(events + [event], buffers) == EventsTrace(events, buffers) + EventTrace(event, buffers)
  {
    assert (events + [event])[..|events|] == events;
  }

  function Passes(chunks: seq<Submission>): (r: seq<Event>)
    ensures |r| == |chunks|
  {
    seq(|chunks|, i requires 0 <= i < |chunks| => Pass(chunks[i]))
  }

  lemma PassesSnoc(events: seq<Event>, chunks: seq<Submission>, last: Submission)
    ensures events + Passes(chunks + [last]) == (events + Passes(chunks)) + [Pass(last)]
  {
  }

  lemma {:induction false} PassesTrace(events: seq<Event>, chunks: seq<Submission>, buffers: seq<seq<byte>>)
    ensures EventsTrace(events + Passes(chunks), buffers)
      == EventsTrace(events, buffers) + SeeAll(Traces(chunks), buffers)
  {
    if chunks == [] {
      assert events + Passes(chunks) == events;
    } else {
      var before, last := chunks[..|chunks| - 1], chunks[|chunks| - 1];
      assert chunks == before + [last];
      calc {
        EventsTrace(events + Passes(chunks), buffers);
      ==  { PassesSnoc(events, before, last); }
        EventsTrace((events + Passes(before)) + [Pass(last)], buffers);
      ==  { EventsSnoc(events + Passes(before), Pass(last), buffers); }
        EventsTrace(events + Passes(before), buffers) + SeeAll(Trace(last), buffers);
      ==  { PassesTrace(events, before, buffers); }
        EventsTrace(events, buffers) + SeeAll(Traces(before), buffers) + SeeAll(Trace(last), buffers);
      ==  { Associative(EventsTrace(events, buffers), SeeAll(Traces(before), buffers), SeeAll(Trace(last), buffers)); }
        EventsTrace(events, buffers) + (SeeAll(Traces(before), buffers) + SeeAll(Trace(last), buffers));
      ==  { SeeConcat(Traces(before), Trace(last), buffers); TracesSnoc(before, last); }
        EventsTrace(events, buffers) + SeeAll(Traces(chunks), buffers);
      }
    }
  }

  /** Texture operations read no buffer, so updates may move ahead of them. */
  lemma {:induction false} TexturesReadNoBuffer(events: seq<Event>, before: seq<seq<byte>>, after: seq<seq<byte>>)
    requires forall k :: 0 <= k < |events| ==> events[k].TextureEvent?
    ensures EventsTrace(events, before) == EventsTrace(events, after)
  {
    if events != [] {
      TexturesReadNoBuffer(events[..|events| - 1], before, after);
    }
  }

  /** A pass under construction. */
  datatype ActivePass = ActivePass(desc: PassDesc, preserves: bool, settings: seq<nat>, submission: Submission)

  datatype Lowered = Lowered(events: seq<Event>, active: Option<ActivePass>, seenPass: bool, preservingPass: bool)

  predicate PreservesContents(desc: PassDesc) {
    forall k :: 0 <= k < |Attachments(desc)| ==>
      Attachments(desc)[k].load == Load && Attachments(desc)[k].store == Store
  }

  function OpenOf(active: Option<ActivePass>): Option<OpenPass> {
    if active.None? then None else Some(OpenPass(active.value.desc, active.value.settings))
  }

  predicate WellFormed(l: Lowered) {
    && (!l.seenPass ==> l.active.None? && forall k :: 0 <= k < |l.events| ==> l.events[k].TextureEvent?)
    && (l.preservingPass ==> l.seenPass)
    && (l.seenPass && l.active.None? ==> l.events != [] || l.preservingPass)
    && (l.active.Some? ==>
          var pass := l.active.value;
          && pass.submission == Begun(pass.desc).(vertices := pass.submission.vertices, draws := pass.submission.draws)
          && pass.preserves == PreservesContents(pass.desc)
          && forall k :: 0 <= k < |pass.submission.draws| ==>
            InRange(|pass.submission.vertices|, pass.submission.draws[k]))
  }

  /** Every decoded draw names whole primitives. */
  ghost predicate CountsDecoded(device: Device) {
    forall desc, settings, buffers, call ::
      var decoded := device.decode(desc, settings, buffers, call);
      decoded.Ok? ==> DrawCountValid(DrawOf(decoded.value, 0))
  }

  /** Every finished chunk passes validation and every open draw is valid. */
  predicate Checked(l: Lowered) {
    && (forall k :: 0 <= k < |l.events| && l.events[k].Pass? ==> Accepted(l.events[k].submission))
    && (l.active.Some? ==> CountsValid(l.active.value.submission.draws))
  }

  function ActiveTrace(active: Option<ActivePass>, buffers: seq<seq<byte>>): seq<DeviceEffect> {
    if active.None? then [] else SeeAll(Trace(active.value.submission), buffers)
  }

  /** What has been lowered, the open pass included. */
  function LoweredTrace(l: Lowered, buffers: seq<seq<byte>>): seq<DeviceEffect> {
    EventsTrace(l.events, buffers) + ActiveTrace(l.active, buffers)
  }

  /** One command lowered: the device sees exactly what the command asks for now. */
  ghost predicate Follows(device: Device, buffers: seq<seq<byte>>, l: Lowered, command: Command, next: Lowered) {
    && WellFormed(next) && (CountsDecoded(device) && Checked(l) ==> Checked(next))
    && next.seenPass == (l.seenPass || command.BeginRenderPass?)
    && OpenOf(next.active) == Opened(OpenOf(l.active), command)
    && LoweredTrace(next, buffers)
       == LoweredTrace(l, buffers) + Kept(Effects(device, buffers, OpenOf(l.active), command))
  }

  // ------------------------------------------------------- what can be lowered

  /** Vertices of the inline draws so far. */
  function VertexTotal(drawn: seq<Decoded>): nat {
    if drawn == [] then 0
    else
      var last := drawn[|drawn| - 1];
      VertexTotal(drawn[..|drawn| - 1]) + if last.InlineDraw? then |last.vertices| else 0
  }

  /** The draws of the open pass after a command, decoded when they were recorded. */
  function DrawnNext(
    device: Device, buffers: seq<seq<byte>>, open: Option<OpenPass>, drawn: seq<Decoded>, command: Command)
    : seq<Decoded>
  {
    match command
    case BeginRenderPass(_) => []
    case DrawCommand(call) =>
      if open.None? then drawn
      else
        var decoded := device.decode(open.value.desc, open.value.settings, buffers, call);
        if decoded.Ok? then drawn + [decoded.value] else drawn
    case _ => drawn
  }

  /** The submission holds exactly these draws, each at the vertices recorded before it. */
  ghost predicate DrawnAs(submission: Submission, drawn: seq<Decoded>) {
    && |submission.draws| == |drawn| && |submission.vertices| == VertexTotal(drawn)
    && forall k :: 0 <= k < |drawn| ==> submission.draws[k] == DrawOf(drawn[k], VertexTotal(drawn[..k]))
  }

  ghost predicate DrawnIn(l: Lowered, drawn: seq<Decoded>) {
    l.active.Some? ==> DrawnAs(l.active.value.submission, drawn)
  }

  lemma DrawnSnoc(submission: Submission, drawn: seq<Decoded>, decoded: Decoded)
    requires DrawnAs(submission, drawn)
    ensures DrawnAs(AppendDraw(submission, decoded), drawn + [decoded])
  {
    var next := drawn + [decoded];
    assert next[..|drawn|] == drawn;
    forall k | 0 <= k < |drawn| ensures next[..k] == drawn[..k] {
    }
  }

  /** Inline draws of the pass are whole triangles inside the addressable vertices. */
  predicate TrianglesDrawn(drawn: seq<Decoded>) {
    forall k :: 0 <= k < |drawn| && drawn[k].InlineDraw? ==>
      |drawn[k].vertices| % 3 == 0 && VertexTotal(drawn[..k]) + |drawn[k].vertices| <= MAX_WORD
  }

  lemma MisplacedExactly(submission: Submission, drawn: seq<Decoded>)
    requires DrawnAs(submission, drawn)
    requires forall k :: 0 <= k < |submission.draws| ==> InRange(|submission.vertices|, submission.draws[k])
    ensures TrianglesDrawn(drawn)
      <==> forall k :: 0 <= k < |submission.draws| ==> !Misplaced(submission, submission.draws[k])
  {
    forall k | 0 <= k < |drawn|
      ensures Misplaced(submission, submission.draws[k])
        <==> drawn[k].InlineDraw?
             && !(|drawn[k].vertices| % 3 == 0 && VertexTotal(drawn[..k]) + |drawn[k].vertices| <= MAX_WORD)
    {
      assert InRange(|submission.vertices|, submission.draws[k]);
    }
  }

  /** A pass can end when it draws, clears or keeps its contents, and its inline draws can be placed. */
  ghost predicate EndRuns(desc: PassDesc, drawn: seq<Decoded>) {
    (drawn != [] || PreservesContents(desc) || Clearing(desc)) && TrianglesDrawn(drawn)
  }

  /** Where a command may stand, and what the checks it meets must say. */
  ghost predicate EventRuns(
    device: Device, buffers: seq<seq<byte>>, seen: bool, open: Option<OpenPass>, drawn: seq<Decoded>,
    command: Command)
  {
    && Allowed(seen, open.Some?, command)
    && match command
       case TextureCommand(texture) => device.texture(texture).Ok?
       case ResourceBarrier(barrier) => device.barrier(barrier).None?
       case BeginRenderPass(desc) => device.begin(desc).None?
       case EndRenderPass => open.Some? && EndRuns(open.value.desc, drawn)
       case SetState(setting) => open.Some? && device.setting(open.value.desc, open.value.settings, setting).None?
       case DrawCommand(call) =>
         open.Some? && device.decode(open.value.desc, open.value.settings, buffers, call).Ok?
       case _ => true
  }

  ghost predicate CommandRuns(
    device: Device, table: seq<PB.BufferUsage>, slots: nat, buffers: seq<seq<byte>>, seen: bool,
    open: Option<OpenPass>, drawn: seq<Decoded>, command: Command)
  {
    && EventRuns(device, buffers, seen, open, drawn, command)
    && BufferRuns(table, slots, command)
  }

  predicate BufferRuns(table: seq<PB.BufferUsage>, slots: nat, command: Command) {
    match command
    case WriteBuffer(b, offset, data) => PB.WriteRuns(table, b, offset, |data|)
    case CopyBuffer(s, from, d, to, size) => PB.CopyRuns(table, slots, s, from, d, to, size)
    case _ => true
  }

  method LowerTexture(device: Device, ghost buffers: seq<seq<byte>>, l: Lowered, texture: nat)
    returns (result: Result<Lowered, LowerError>)
    requires WellFormed(l) && l.active.None?
    ensures result.Ok? ==> Follows(device, buffers, l, TextureCommand(texture), result.value)
    ensures result.Ok? <==> device.texture(texture).Ok?
    ensures result.Ok? ==> result.value.active == l.active
  {
    var op := device.texture(texture);
    if op.Err? {
      return Err(Rejected(op.error));
    }
    TextureTrace(buffers, l, op.value);
    return Ok(l.(events := l.events + [TextureEvent(op.value)]));
  }

  lemma TextureTrace(buffers: seq<seq<byte>>, l: Lowered, op: nat)
    requires l.active.None?
    ensures LoweredTrace(l.(events := l.events + [TextureEvent(op)]), buffers)
         == LoweredTrace(l, buffers) + Kept([Texture(op)])
  {
    EventsSnoc(l.events, TextureEvent(op), buffers);
    assert Kept([Texture(op)]) == Kept([]) + [Texture(op)];
  }

  method LowerBegin(device: Device, ghost buffers: seq<seq<byte>>, l: Lowered, desc: PassDesc)
    returns (result: Result<Lowered, LowerError>)
    requires WellFormed(l) && l.active.None?
    ensures result.Ok? ==> Follows(device, buffers, l, BeginRenderPass(desc), result.value)
    ensures result.Ok? <==> device.begin(desc).None?
    ensures result.Ok? ==> DrawnIn(result.value, [])
  {
    var refused := device.begin(desc);
    if refused.Some? {
      return Err(Rejected(refused.value));
    }
    var preserves := KeepsAll(desc);
    var submission := BeginSubmission(desc);
    BeginFollows(device, buffers, l, desc);
    return Ok(l.(active := Some(ActivePass(desc, preserves, [], submission)), seenPass := true));
  }

  lemma BeginFollows(device: Device, buffers: seq<seq<byte>>, l: Lowered, desc: PassDesc)
    requires WellFormed(l) && l.active.None?
    ensures Follows(device, buffers, l, BeginRenderPass(desc),
      l.(active := Some(ActivePass(desc, PreservesContents(desc), [], Begun(desc))), seenPass := true))
  {
    BeginTrace(buffers, desc);
    BegunMeans(desc);
    BegunTrace(buffers, l, ActivePass(desc, PreservesContents(desc), [], Begun(desc)));
  }

  lemma BegunTrace(buffers: seq<seq<byte>>, l: Lowered, pass: ActivePass)
    requires l.active.None?
    ensures LoweredTrace(l.(active := Some(pass), seenPass := true), buffers)
      == LoweredTrace(l, buffers) + SeeAll(Trace(pass.submission), buffers)
  {
    assert LoweredTrace(l, buffers) == EventsTrace(l.events, buffers) + [];
  }

  /** The submission of a pass, its clears taken from the loads of its attachments. */
  method BeginSubmission(desc: PassDesc) returns (submission: Submission)
    ensures submission == Begun(desc)
  {
    var colors: seq<ColorAttachment> := [];
    for k := 0 to |desc.colors|
      invariant colors == Begun(desc).colors[..k]
    {
      var clear := match desc.colors[k].load case Clear(value) => Some(value) case _ => None;
      colors := colors + [ColorAttachment(desc.colors[k].texture, clear)];
    }
    var clearColor := match desc.target.load case Clear(value) => Some(value) case _ => None;
    var depth, clearDepth := None, None;
    if desc.depth.Some? {
      depth := Some(desc.depth.value.texture);
      clearDepth := match desc.depth.value.load case Clear(value) => Some(value) case _ => None;
    }
    assert colors == Begun(desc).colors;
    submission := Submission(
      desc.target.texture, clearColor, colors, depth, desc.depthReadOnly, clearDepth, desc.area, [], [], []);
  }

  /** `pass_preserves_contents`: every color and the depth attachment is loaded and stored. */
  method KeepsAll(desc: PassDesc) returns (keeps: bool)
    ensures keeps == PreservesContents(desc)
  {
    assert Attachments(desc)[0] == desc.target;
    keeps := desc.target.load == Load && desc.target.store == Store;
    for k := 0 to |desc.colors|
      invariant keeps <==> forall j :: 0 <= j < k + 1 ==>
        Attachments(desc)[j].load == Load && Attachments(desc)[j].store == Store
    {
      assert Attachments(desc)[k + 1] == desc.colors[k];
      keeps := keeps && desc.colors[k].load == Load && desc.colors[k].store == Store;
    }
    if desc.depth.Some? {
      assert Attachments(desc)[|desc.colors| + 1] == desc.depth.value;
      keeps := keeps && desc.depth.value.load == Load && desc.depth.value.store == Store;
    }
  }

  lemma BeginTrace(buffers: seq<seq<byte>>, desc: PassDesc)
    ensures Kept(Forgotten(Attachments(desc), false) + SeeAll(AskedClears(desc, |Attachments(desc)|), buffers))
         == SeeAll(Trace(Begun(desc)), buffers)
  {
    BegunMeans(desc);
    KeptConcat(Forgotten(Attachments(desc), false), SeeAll(Prologue(Begun(desc)), buffers));
    KeptForgotten(Attachments(desc), false);
    KeptSeen(Prologue(Begun(desc)), buffers);
    assert Trace(Begun(desc)) == Prologue(Begun(desc));
  }

  /** The end of a pass splits it, or drops it when it does nothing and keeps everything. */
  method LowerEnd(device: Device, ghost buffers: seq<seq<byte>>, l: Lowered, ghost drawn: seq<Decoded>)
    returns (result: Result<Lowered, LowerError>)
    requires WellFormed(l) && DrawnIn(l, drawn)
    ensures l.active.None? ==> result == Err(Sequence)
    ensures result.Ok? ==> Follows(device, buffers, l, EndRenderPass, result.value)
    ensures result.Ok? <==> l.active.Some? && EndRuns(l.active.value.desc, drawn)
    ensures l.active.Some? && result.Err? ==>
      result.error == if TrianglesDrawn(drawn) then Sequence else Split(SplitError.InvalidVertexData)
    ensures result.Ok? ==> result.value.active.None?
  {
    if l.active.None? {
      return Err(Sequence);
    }
    var pass := l.active.value;
    MisplacedExactly(pass.submission, drawn);
    SameClears(pass);
    BegunClears(pass.desc);
    var chunks := FinishPass(pass.submission, pass.preserves);
    if chunks.Err? {
      return Err(if chunks.error == CommandSequence then Sequence else Split(chunks.error));
    }
    EndTrace(device, buffers, l, chunks.value);
    return Ok(Ended(l, chunks.value));
  }

  /** Drawing adds no clear. */
  lemma SameClears(pass: ActivePass)
    requires pass.submission == Begun(pass.desc).(vertices := pass.submission.vertices, draws := pass.submission.draws)
    ensures HasClear(pass.submission) <==> HasClear(Begun(pass.desc))
  {
  }

  function Ended(l: Lowered, chunks: seq<Submission>): Lowered {
    Lowered(l.events + Passes(chunks), None, l.seenPass, l.preservingPass || chunks == [])
  }

  lemma EndTrace(device: Device, buffers: seq<seq<byte>>, l: Lowered, chunks: seq<Submission>)
    requires WellFormed(l) && l.active.Some? && Traces(chunks) == Trace(l.active.value.submission)
    requires CountsValid(l.active.value.submission.draws) ==> AllAccepted(chunks)
    ensures Follows(device, buffers, l, EndRenderPass, Ended(l, chunks))
  {
    EndedTrace(buffers, l, chunks);
    EndedChecked(l, chunks);
    KeptForgotten(Attachments(l.active.value.desc), true);
    assert Kept(Effects(device, buffers, OpenOf(l.active), EndRenderPass)) == [];
  }

  lemma EndedChecked(l: Lowered, chunks: seq<Submission>)
    requires WellFormed(l) && l.active.Some?
    requires CountsValid(l.active.value.submission.draws) ==> AllAccepted(chunks)
    ensures WellFormed(Ended(l, chunks)) && (Checked(l) ==> Checked(Ended(l, chunks)))
  {
  }

  lemma EndedTrace(buffers: seq<seq<byte>>, l: Lowered, chunks: seq<Submission>)
    requires l.active.Some? && Traces(chunks) == Trace(l.active.value.submission)
    ensures LoweredTrace(Ended(l, chunks), buffers) == LoweredTrace(l, buffers)
  {
    PassesTrace(l.events, chunks, buffers);
  }

  method LowerDraw(device: Device, buffers: seq<seq<byte>>, l: Lowered, call: nat, ghost drawn: seq<Decoded>)
    returns (result: Result<Lowered, LowerError>)
    requires WellFormed(l) && DrawnIn(l, drawn)
    ensures l.active.None? ==> result == Err(NotActive)
    ensures result.Ok? ==> Follows(device, buffers, l, DrawCommand(call), result.value)
    ensures result.Ok? <==>
      l.active.Some? && device.decode(l.active.value.desc, l.active.value.settings, buffers, call).Ok?
    ensures result.Ok? ==>
      DrawnIn(result.value, DrawnNext(device, buffers, OpenOf(l.active), drawn, DrawCommand(call)))
  {
    if l.active.None? {
      return Err(NotActive);
    }
    var pass := l.active.value;
    var decoded := device.decode(pass.desc, pass.settings, buffers, call);
    if decoded.Err? {
      return Err(Rejected(decoded.error));
    }
    DrawnSnoc(pass.submission, drawn, decoded.value);
    AppendTrace(pass.submission, decoded.value);
    AppendFollows(device, buffers, l, call, decoded.value);
    return Ok(l.(active := Some(pass.(submission := AppendDraw(pass.submission, decoded.value)))));
  }

  /** Inline vertices join the pass and the draw record follows. */
  function AppendDraw(submission: Submission, decoded: Decoded): Submission {
    var vertices := submission.vertices + if decoded.InlineDraw? then decoded.vertices else [];
    submission.(vertices := vertices, draws := submission.draws + [DrawOf(decoded, |submission.vertices|)])
  }

  /** The appended draw shows exactly what was decoded, and earlier draws what they showed. */
  lemma AppendTrace(submission: Submission, decoded: Decoded)
    requires forall k :: 0 <= k < |submission.draws| ==> InRange(|submission.vertices|, submission.draws[k])
    ensures FrameOf(AppendDraw(submission, decoded)) == FrameOf(submission)
    ensures Trace(AppendDraw(submission, decoded)) == Trace(submission) + DecodedTrace(FrameOf(submission), decoded)
  {
    var frame := FrameOf(submission);
    var more := if decoded.InlineDraw? then decoded.vertices else [];
    var draw := DrawOf(decoded, |submission.vertices|);
    MoreVertices(frame, submission.vertices, more, submission.draws);
    DrawsSnoc(frame, submission.vertices + more, submission.draws, draw);
    if decoded.InlineDraw? {
      SegmentTrace(frame, submission.vertices, more, draw);
    }
    SamePrologue(submission, decoded);
    Associative(Prologue(submission), DrawsTrace(frame, submission.vertices, submission.draws),
      DecodedTrace(frame, decoded));
  }

  lemma SamePrologue(submission: Submission, decoded: Decoded)
    ensures FrameOf(AppendDraw(submission, decoded)) == FrameOf(submission)
    ensures Prologue(AppendDraw(submission, decoded)) == Prologue(submission)
  {
  }

  lemma AppendFollows(device: Device, buffers: seq<seq<byte>>, l: Lowered, call: nat, decoded: Decoded)
    requires WellFormed(l) && l.active.Some?
    requires device.decode(l.active.value.desc, l.active.value.settings, buffers, call) == Ok(decoded)
    requires var submission := l.active.value.submission;
      Trace(AppendDraw(submission, decoded)) == Trace(submission) + DecodedTrace(FrameOf(submission), decoded)
    ensures Follows(device, buffers, l, DrawCommand(call),
      l.(active := Some(l.active.value.(submission := AppendDraw(l.active.value.submission, decoded)))))
  {
    var pass := l.active.value;
    BegunMeans(pass.desc);
    assert FrameOf(pass.submission) == FrameOf(Begun(pass.desc));
    DrawnTrace(l, AppendDraw(pass.submission, decoded), DecodedTrace(FrameOf(pass.submission), decoded), buffers);
    AppendInRange(pass.submission, decoded);
    AppendChecked(device, buffers, l, call, decoded);
  }

  lemma DrawnTrace(l: Lowered, next: Submission, drawn: seq<Effect>, buffers: seq<seq<byte>>)
    requires l.active.Some? && Trace(next) == Trace(l.active.value.submission) + drawn
    ensures LoweredTrace(l.(active := Some(l.active.value.(submission := next))), buffers)
         == LoweredTrace(l, buffers) + Kept(SeeAll(drawn, buffers))
  {
    SeeConcat(Trace(l.active.value.submission), drawn, buffers);
    KeptSeen(drawn, buffers);
    Associative(EventsTrace(l.events, buffers), SeeAll(Trace(l.active.value.submission), buffers),
      SeeAll(drawn, buffers));
  }

  lemma AppendChecked(device: Device, buffers: seq<seq<byte>>, l: Lowered, call: nat, decoded: Decoded)
    requires l.active.Some?
    requires device.decode(l.active.value.desc, l.active.value.settings, buffers, call) == Ok(decoded)
    ensures CountsDecoded(device) && Checked(l) ==>
      Checked(l.(active := Some(l.active.value.(submission := AppendDraw(l.active.value.submission, decoded)))))
  {
    if CountsDecoded(device) && Checked(l) {
      assert DrawCountValid(DrawOf(decoded, 0));
      CountsSnoc(l.active.value.submission.draws, DrawOf(decoded, |l.active.value.submission.vertices|));
    }
  }

  lemma AppendInRange(submission: Submission, decoded: Decoded)
    requires forall k :: 0 <= k < |submission.draws| ==> InRange(|submission.vertices|, submission.draws[k])
    ensures var next := AppendDraw(submission, decoded);
      forall k :: 0 <= k < |next.draws| ==> InRange(|next.vertices|, next.draws[k])
  {
    var next := AppendDraw(submission, decoded);
    forall k | 0 <= k < |next.draws| ensures InRange(|next.vertices|, next.draws[k]) {
      assert k < |submission.draws| ==> InRange(|submission.vertices|, submission.draws[k]);
    }
  }

  method LowerSetting(device: Device, ghost buffers: seq<seq<byte>>, l: Lowered, setting: nat)
    returns (result: Result<Lowered, LowerError>)
    requires WellFormed(l)
    ensures l.active.None? ==> result == Err(NotActive)
    ensures result.Ok? ==> Follows(device, buffers, l, SetState(setting), result.value)
    ensures result.Ok? <==>
      l.active.Some? && device.setting(l.active.value.desc, l.active.value.settings, setting).None?
    ensures result.Ok? ==>
      result.value.active.Some? && result.value.active.value.submission == l.active.value.submission
  {
    if l.active.None? {
      return Err(NotActive);
    }
    var pass := l.active.value;
    var refused := device.setting(pass.desc, pass.settings, setting);
    if refused.Some? {
      return Err(Rejected(refused.value));
    }
    return Ok(l.(active := Some(pass.(settings := pass.settings + [setting]))));
  }

  // ------------------------------------------------------------ whole streams

  /** Where a command may stand: buffer commands only before the first pass, nothing across passes. */
  predicate Allowed(seenPass: bool, inside: bool, command: Command) {
    match command
    case WriteBuffer(_, _, _) => !seenPass && !inside
    case CopyBuffer(_, _, _, _, _) => !seenPass && !inside
    case TextureCommand(_) => !inside
    case ResourceBarrier(_) => !inside
    case BeginRenderPass(_) => !inside
    case EndRenderPass => inside
    case SetState(_) => inside
    case DrawCommand(_) => inside
    case ComputeCommand => false
  }

  predicate SeenPass(commands: seq<Command>) { exists k :: 0 <= k < |commands| && commands[k].BeginRenderPass? }

  function Inside(commands: seq<Command>): bool {
    if commands == [] then false
    else
      var last := commands[|commands| - 1];
      if last.BeginRenderPass? then true else if last.EndRenderPass? then false else Inside(commands[..|commands| - 1])
  }

  predicate OrderedTo(commands: seq<Command>, to: nat) {
    forall k :: 0 <= k < to && k < |commands| ==> Allowed(SeenPass(commands[..k]), Inside(commands[..k]), commands[k])
  }

  predicate WellOrdered(commands: seq<Command>) { OrderedTo(commands, |commands|) && !Inside(commands) }

  /** The lowered state after a prefix of the stream. */
  ghost predicate Tracks(
    device: Device, start: seq<seq<byte>>, commands: seq<Command>, views: seq<seq<byte>>, l: Lowered)
  {
    var w := InOrder(device, start, commands);
    && w.buffers == views && w.open == OpenOf(l.active)
    && LoweredTrace(l, views) == Kept(w.trace)
    && WellFormed(l) && (CountsDecoded(device) ==> Checked(l))
    && l.seenPass == SeenPass(commands) && l.active.Some? == Inside(commands)
  }

  /** Buffers and events move on together. */
  ghost predicate Steps(
    device: Device, views: seq<seq<byte>>, l: Lowered, command: Command, nextViews: seq<seq<byte>>, next: Lowered)
  {
    && nextViews == Buffers(views, command)
    && WellFormed(next) && (CountsDecoded(device) && Checked(l) ==> Checked(next))
    && OpenOf(next.active) == Opened(OpenOf(l.active), command)
    && LoweredTrace(next, nextViews) == LoweredTrace(l, views) + Kept(Effects(device, views, OpenOf(l.active), command))
    && next.seenPass == (l.seenPass || command.BeginRenderPass?)
    && Allowed(l.seenPass, l.active.Some?, command)
  }

  lemma TracksNext(
    device: Device, start: seq<seq<byte>>, commands: seq<Command>, k: nat, views: seq<seq<byte>>, l: Lowered,
    nextViews: seq<seq<byte>>, next: Lowered)
    requires k < |commands| && Tracks(device, start, commands[..k], views, l)
    requires Steps(device, views, l, commands[k], nextViews, next) && OrderedTo(commands, k)
    ensures WellFormed(next) && Tracks(device, start, commands[..k + 1], nextViews, next)
    ensures OrderedTo(commands, k + 1)
  {
    WorldNext(device, start, commands, k);
    SeenNext(commands, k);
    InsideNext(commands, k);
  }

  /** One more command run in order. */
  lemma WorldNext(device: Device, start: seq<seq<byte>>, commands: seq<Command>, k: nat)
    requires k < |commands|
    ensures var w, next := InOrder(device, start, commands[..k]), InOrder(device, start, commands[..k + 1]);
      && next.buffers == Buffers(w.buffers, commands[k]) && next.open == Opened(w.open, commands[k])
      && Kept(next.trace) == Kept(w.trace) + Kept(Effects(device, w.buffers, w.open, commands[k]))
  {
    assert commands[..k + 1][..k] == commands[..k];
    var w := InOrder(device, start, commands[..k]);
    KeptConcat(w.trace, Effects(device, w.buffers, w.open, commands[k]));
  }

  lemma InsideNext(commands: seq<Command>, k: nat)
    requires k < |commands|
    ensures Inside(commands[..k + 1])
      == (commands[k].BeginRenderPass? || (!commands[k].EndRenderPass? && Inside(commands[..k])))
  {
    assert commands[..k + 1][..k] == commands[..k];
  }

  lemma SeenNext(commands: seq<Command>, k: nat)
    requires k < |commands|
    ensures SeenPass(commands[..k + 1]) == (SeenPass(commands[..k]) || commands[k].BeginRenderPass?)
  {
    if SeenPass(commands[..k]) {
      var j :| 0 <= j < k && commands[..k][j].BeginRenderPass?;
      assert commands[..k + 1][j].BeginRenderPass?;
    }
    if commands[k].BeginRenderPass? {
      assert commands[..k + 1][k].BeginRenderPass?;
    }
  }

  /** A buffer update moves ahead of everything lowered so far: no pass has been seen. */
  lemma BufferSteps(device: Device, views: seq<seq<byte>>, l: Lowered, command: Command, nextViews: seq<seq<byte>>)
    requires WellFormed(l) && !l.seenPass && nextViews == Buffers(views, command)
    requires command.WriteBuffer? || command.CopyBuffer?
    ensures Steps(device, views, l, command, nextViews, l)
  {
    TexturesReadNoBuffer(l.events, views, nextViews);
  }

  /** One command lowered inside or between passes. */
  method LowerEvent(
    device: Device, views: seq<seq<byte>>, l: Lowered, ghost drawn: seq<Decoded>, command: Command)
    returns (result: Result<Lowered, LowerError>)
    requires WellFormed(l) && !command.WriteBuffer? && !command.CopyBuffer? && !command.ComputeCommand?
    requires DrawnIn(l, drawn)
    ensures result.Ok? <==> EventRuns(device, views, l.seenPass, OpenOf(l.active), drawn, command)
    ensures result.Ok? ==> DrawnIn(result.value, DrawnNext(device, views, OpenOf(l.active), drawn, command))
    ensures result.Ok? ==> Steps(device, views, l, command, views, result.value)
    ensures !Allowed(l.seenPass, l.active.Some?, command) ==>
      result == Err(if command.SetState? || command.DrawCommand? then NotActive else Sequence)
  {
    match command {
      case TextureCommand(texture) =>
        if l.active.Some? {
          return Err(Sequence);
        }
        result := LowerTexture(device, views, l, texture);
      case ResourceBarrier(barrier) =>
        if l.active.Some? {
          return Err(Sequence);
        }
        var refused := device.barrier(barrier);
        return if refused.Some? then Err(Rejected(refused.value)) else Ok(l);
      case BeginRenderPass(desc) =>
        if l.active.Some? {
          return Err(Sequence);
        }
        result := LowerBegin(device, views, l, desc);
      case EndRenderPass =>
        result := LowerEnd(device, views, l, drawn);
      case SetState(setting) =>
        result := LowerSetting(device, views, l, setting);
      case DrawCommand(call) =>
        result := LowerDraw(device, views, l, call, drawn);
    }
  }

  /** One buffer command staged, only before the first pass. */
  method LowerBuffer(
    ghost floats: Floats.Floats, table: seq<PB.BufferUsage>, shadows: seq<BufferShadow>, pending: PB.PendingBuffers,
    l: Lowered, command: Command)
    returns (result: Result<(), LowerError>)
    requires pending.Valid(floats, shadows) && Sane(shadows) && |table| <= |shadows|
    requires WellFormed(l) && (command.WriteBuffer? || command.CopyBuffer?)
    modifies pending`validations, pending.plan, pending.index
    ensures pending.Valid(floats, shadows)
    ensures result.Ok? ==>
      BS.AllViews(shadows, pending.plan.State()) == Buffers(BS.AllViews(shadows, old(pending.plan.State())), command)
    ensures result.Ok? ==> !l.seenPass && l.active.None?
    ensures l.seenPass || l.active.Some? ==> result == Err(Sequence)
    ensures PB.RevisionsLeft(shadows) ==>
      (result.Ok? <==> !l.seenPass && l.active.None? && BufferRuns(table, |shadows|, command))
  {
    if l.seenPass || l.active.Some? {
      return Err(Sequence);
    }
    var staged;
    match command {
      case WriteBuffer(b, offset, data) =>
        staged := pending.Write(floats, table, shadows, b, offset, data);
      case CopyBuffer(s, from, d, to, size) =>
        staged := pending.Copy(floats, table, shadows, s, from, d, to, size);
    }
    return if staged.Err? then Err(Buffer(staged.error)) else Ok(());
  }

  method Preflight(commands: seq<Command>) returns (result: Result<(), LowerError>)
    ensures result == if ComputeCommand in commands then Err(Compute) else Ok(())
  {
    var k := 0;
    while k < |commands|
      invariant 0 <= k <= |commands| && ComputeCommand !in commands[..k]
    {
      if commands[k].ComputeCommand? {
        return Err(Compute);
      }
      k := k + 1;
    }
    return Ok(());
  }

  datatype ExecutionPlan = ExecutionPlan(
    buffers: Plan, events: seq<Event>, preservingPass: bool, validations: seq<(nat, nat)>)

  /**
   Lower a stream. It succeeds exactly when every command may stand where it
   does, every check passes on the buffers and the pass the stream has built up
   by then, and no pass is left open. Then executing
   the plan, every buffer update first, gives the buffers and the device
   effects of the stream run one command at a time, up to contents the stream
   itself declared undefined.
   */
  method FromCommands(
    device: Device, ghost floats: Floats.Floats, table: seq<PB.BufferUsage>, shadows: seq<BufferShadow>,
    commands: seq<Command>,
    pending: PB.PendingBuffers)
    returns (result: Result<ExecutionPlan, LowerError>)
    requires pending.Valid(floats, shadows) && pending.plan.State() == Plan([], []) && pending.validations == []
    requires Sane(shadows) && |table| <= |shadows|
    modifies pending`validations, pending.plan, pending.index
    ensures ComputeCommand in commands ==> result == Err(Compute)
    ensures result.Ok? ==>
      var w, plan := InOrder(device, BS.AllContents(shadows), commands), result.value;
      && WellOrdered(commands)
      && Built(shadows, plan.buffers)
      && BS.AllContents(Published(shadows, plan.buffers)) == w.buffers
      && EventsTrace(plan.events, w.buffers) == Kept(w.trace)
      && (CountsDecoded(device) ==>
            forall k :: 0 <= k < |plan.events| && plan.events[k].Pass? ==> Accepted(plan.events[k].submission))
    ensures result.Ok? ==>
      var w := InOrder(device, BS.AllContents(shadows), commands);
      var trace := EventsTrace(result.value.events, w.buffers);
      ClearsShown(commands, trace) && DrawsShown(device, BS.AllContents(shadows), commands, trace)
    ensures result.Ok? ==>
      var plan := result.value;
      && plan.validations == pending.validations
      && (plan.preservingPass ==> SeenPass(commands))
      && (SeenPass(commands) ==> plan.events != [] || plan.preservingPass)
    ensures PB.RevisionsLeft(shadows) ==>
      (result.Ok? <==>
        StreamRuns(device, table, |shadows|, BS.AllContents(shadows), commands) && !Inside(commands))
  {
    ClearsReach(device, BS.AllContents(shadows), commands);
    DrawsReach(device, BS.AllContents(shadows), commands);
    RunsToAll(device, table, |shadows|, BS.AllContents(shadows), commands);
    if ComputeCommand in commands {
      ComputeNeverRuns(device, table, |shadows|, BS.AllContents(shadows), commands);
    }
    var checked := Preflight(commands);
    if checked.Err? {
      return Err(checked.error);
    }
    var lowered;
    ghost var views;
    lowered, views := LowerAll(device, floats, table, shadows, commands, pending, BS.AllContents(shadows),
      PB.RevisionsLeft(shadows));
    if lowered.Err? {
      return Err(lowered.error);
    }
    var l := lowered.value;
    AlongWhole(device, table, |shadows|, BS.AllContents(shadows), commands, |commands|,
      BS.AllViews(shadows, pending.plan.State()), l, PB.RevisionsLeft(shadows));
    if l.active.Some? {
      return Err(Sequence);
    }
    PublishedViews(shadows, pending.plan.State());
    FinishedTrace(device, BS.AllContents(shadows), commands, BS.AllViews(shadows, pending.plan.State()), l);
    return Ok(ExecutionPlan(pending.plan.State(), l.events, l.preservingPass, pending.validations));
  }

  /** Everything a command asks for is asked of the device. */
  ghost predicate AllIn(effects: seq<DeviceEffect>, trace: seq<DeviceEffect>) {
    forall e :: e in effects && !e.Forget? ==> e in trace
  }

  lemma {:induction false} KeptHolds(effects: seq<DeviceEffect>)
    ensures forall e :: e in effects && !e.Forget? ==> e in Kept(effects)
  {
    if effects != [] {
      KeptHolds(effects[..|effects| - 1]);
      assert effects == effects[..|effects| - 1] + [effects[|effects| - 1]];
    }
  }

  lemma InConcat(effects: seq<DeviceEffect>, a: seq<DeviceEffect>, b: seq<DeviceEffect>)
    requires AllIn(effects, a) || AllIn(effects, b)
    ensures AllIn(effects, a + b)
  {
  }

  /** What command `k` asks for where it stands is in the trace of the whole stream. */
  lemma {:induction false} EffectsReach(device: Device, start: seq<seq<byte>>, commands: seq<Command>, k: nat)
    requires k < |commands|
    ensures var w := InOrder(device, start, commands[..k]);
      AllIn(Effects(device, w.buffers, w.open, commands[k]), Kept(InOrder(device, start, commands).trace))
    decreases |commands|
  {
    var n := |commands| - 1;
    assert commands[..n + 1] == commands;
    WorldNext(device, start, commands, n);
    var last, w := InOrder(device, start, commands[..n]), InOrder(device, start, commands[..k]);
    var before, after := Kept(last.trace), Kept(Effects(device, last.buffers, last.open, commands[n]));
    if k == n {
      KeptHolds(Effects(device, last.buffers, last.open, commands[n]));
    } else {
      EffectsReach(device, start, commands[..n], k);
      assert commands[..n][..k] == commands[..k];
    }
    InConcat(Effects(device, w.buffers, w.open, commands[k]), before, after);
  }

  /** Every clear a pass of the stream asks for is among what the device is asked to do. */
  ghost predicate ClearsShown(commands: seq<Command>, trace: seq<DeviceEffect>) {
    forall k :: 0 <= k < |commands| && commands[k].BeginRenderPass? ==> ClearsIn(commands[k].desc, trace)
  }

  ghost predicate ClearsIn(desc: PassDesc, trace: seq<DeviceEffect>) {
    forall i :: 0 <= i < |Attachments(desc)| && Attachments(desc)[i].load.Clear? ==>
      Rendered(ClearEffect(desc, i)) in trace
  }

  /** Every draw reaches the device: its triangles, or the whole draw with the buffers it fetches from. */
  ghost predicate DrawsShown(
    device: Device, start: seq<seq<byte>>, commands: seq<Command>, trace: seq<DeviceEffect>)
  {
    forall k :: 0 <= k < |commands| && commands[k].DrawCommand? ==>
      DrawShown(device, InOrder(device, start, commands[..k]), commands[k].call, trace)
  }

  ghost predicate DrawShown(device: Device, w: World, call: nat, trace: seq<DeviceEffect>) {
    w.open.Some? ==>
      var decoded := device.decode(w.open.value.desc, w.open.value.settings, w.buffers, call);
      decoded.Ok? ==> DrawIn(PassFrame(w.open.value.desc), decoded.value, w.buffers, trace)
  }

  ghost predicate DrawIn(frame: Frame, decoded: Decoded, buffers: seq<seq<byte>>, trace: seq<DeviceEffect>) {
    match decoded
    case InlineDraw(v, state) =>
      forall i: nat :: i < |v| / 3 ==>
        Rendered(Triangle(frame, state, v[3 * i], v[3 * i + 1], v[3 * i + 2])) in trace
    case PersistentDraw(buffer, first, count, state) =>
      RenderedFrom(Whole(frame, Draw(None, first, count, Some(buffer), state)), buffers) in trace
    case Programmable(programmable, first, count, state) =>
      RenderedFrom(Whole(frame, Draw(Some(programmable), first, count, None, state)), buffers) in trace
  }

  lemma ClearsReach(device: Device, start: seq<seq<byte>>, commands: seq<Command>)
    ensures ClearsShown(commands, Kept(InOrder(device, start, commands).trace))
  {
    var trace := Kept(InOrder(device, start, commands).trace);
    forall k | 0 <= k < |commands| && commands[k].BeginRenderPass? ensures ClearsIn(commands[k].desc, trace) {
      EffectsReach(device, start, commands, k);
      ClearsAsked(commands[k].desc, InOrder(device, start, commands[..k]).buffers, trace);
    }
  }

  lemma ClearsAsked(desc: PassDesc, buffers: seq<seq<byte>>, trace: seq<DeviceEffect>)
    requires AllIn(Forgotten(Attachments(desc), false) + SeeAll(AskedClears(desc, |Attachments(desc)|), buffers), trace)
    ensures ClearsIn(desc, trace)
  {
    var asked := AskedClears(desc, |Attachments(desc)|);
    ClearsExactly(desc, |Attachments(desc)|);
    forall i | 0 <= i < |Attachments(desc)| && Attachments(desc)[i].load.Clear?
      ensures Rendered(ClearEffect(desc, i)) in trace
    {
      assert SeeAll(asked, buffers)[ClearCount(desc, i)] == Rendered(ClearEffect(desc, i));
      assert Rendered(ClearEffect(desc, i)) in SeeAll(asked, buffers);
    }
  }

  lemma DrawsReach(device: Device, start: seq<seq<byte>>, commands: seq<Command>)
    ensures DrawsShown(device, start, commands, Kept(InOrder(device, start, commands).trace))
  {
    var trace := Kept(InOrder(device, start, commands).trace);
    forall k | 0 <= k < |commands| && commands[k].DrawCommand?
      ensures DrawShown(device, InOrder(device, start, commands[..k]), commands[k].call, trace)
    {
      EffectsReach(device, start, commands, k);
      CallShown(device, InOrder(device, start, commands[..k]), commands[k].call, trace);
    }
  }

  lemma CallShown(device: Device, w: World, call: nat, trace: seq<DeviceEffect>)
    requires AllIn(Effects(device, w.buffers, w.open, DrawCommand(call)), trace)
    ensures DrawShown(device, w, call, trace)
  {
    if w.open.Some? {
      var decoded := device.decode(w.open.value.desc, w.open.value.settings, w.buffers, call);
      if decoded.Ok? {
        DrawAsked(PassFrame(w.open.value.desc), decoded.value, w.buffers, trace);
      }
    }
  }

  lemma DrawAsked(frame: Frame, decoded: Decoded, buffers: seq<seq<byte>>, trace: seq<DeviceEffect>)
    requires AllIn(SeeAll(DecodedTrace(frame, decoded), buffers), trace)
    ensures DrawIn(frame, decoded, buffers, trace)
  {
    var effects := DecodedTrace(frame, decoded);
    match decoded {
      case InlineDraw(v, state) =>
        TrianglesAre(frame, state, v);
        forall i: nat | i < |v| / 3
          ensures Rendered(Triangle(frame, state, v[3 * i], v[3 * i + 1], v[3 * i + 2])) in trace
        {
          assert SeeAll(effects, buffers)[i] in SeeAll(effects, buffers);
        }
      case _ =>
        assert SeeAll(effects, buffers)[0] in SeeAll(effects, buffers);
    }
  }

  lemma ComputeNeverRuns(
    device: Device, table: seq<PB.BufferUsage>, slots: nat, start: seq<seq<byte>>, commands: seq<Command>)
    requires ComputeCommand in commands
    ensures !StreamRuns(device, table, slots, start, commands)
  {
    var k :| 0 <= k < |commands| && commands[k] == ComputeCommand;
    assert !RunsAt(device, table, slots, start, commands, k);
  }

  lemma FinishedTrace(device: Device, start: seq<seq<byte>>, commands: seq<Command>, views: seq<seq<byte>>, l: Lowered)
    requires Tracks(device, start, commands, views, l) && l.active.None?
    ensures InOrder(device, start, commands).buffers == views && !Inside(commands)
    ensures EventsTrace(l.events, views) == Kept(InOrder(device, start, commands).trace)
    ensures CountsDecoded(device) ==>
      forall k :: 0 <= k < |l.events| && l.events[k].Pass? ==> Accepted(l.events[k].submission)
  {
  }

  method LowerAll(
    device: Device, ghost floats: Floats.Floats, table: seq<PB.BufferUsage>, shadows: seq<BufferShadow>,
    commands: seq<Command>, pending: PB.PendingBuffers, ghost start: seq<seq<byte>>, ghost exact: bool)
    returns (result: Result<Lowered, LowerError>, ghost views: seq<seq<byte>>)
    requires pending.Valid(floats, shadows) && pending.plan.State() == Plan([], [])
    requires Sane(shadows) && |table| <= |shadows| && ComputeCommand !in commands
    requires start == BS.AllContents(shadows) && exact == PB.RevisionsLeft(shadows)
    modifies pending`validations, pending.plan, pending.index
    ensures pending.Valid(floats, shadows) && views == BS.AllViews(shadows, pending.plan.State())
    ensures result.Ok? ==>
      Along(device, table, |shadows|, start, commands, |commands|, views, result.value, exact)
    ensures exact && result.Err? ==> !RunsTo(device, table, |shadows|, start, commands, |commands|)
  {
    var l := Lowered([], None, false, false);
    views := start;
    BS.FreshViews(shadows);
    FreshAlong(device, table, |shadows|, start, commands, exact);
    var k := 0;
    while k < |commands|
      invariant 0 <= k <= |commands| && pending.Valid(floats, shadows)
      invariant views == BS.AllViews(shadows, pending.plan.State())
      invariant Along(device, table, |shadows|, start, commands, k, views, l, exact)
    {
      var lowered;
      lowered, views := LowerNext(device, floats, table, shadows, pending, commands, k, l, start, views, exact);
      if lowered.Err? {
        return Err(lowered.error), views;
      }
      l := lowered.value;
      k := k + 1;
    }
    assert k == |commands|;
    return Ok(l), views;
  }

  /** The lowering after `k` commands; `exact` when revisions cannot run out. */
  ghost predicate Along(
    device: Device, table: seq<PB.BufferUsage>, slots: nat, start: seq<seq<byte>>, commands: seq<Command>, k: nat,
    views: seq<seq<byte>>, l: Lowered, exact: bool)
    requires k <= |commands|
  {
    && WellFormed(l) && Tracks(device, start, commands[..k], views, l) && OrderedTo(commands, k)
    && DrawnIn(l, Drawn(device, start, commands[..k]))
    && (exact ==> RunsTo(device, table, slots, start, commands, k))
  }

  lemma FreshAlong(
    device: Device, table: seq<PB.BufferUsage>, slots: nat, start: seq<seq<byte>>, commands: seq<Command>, exact: bool)
    ensures Along(device, table, slots, start, commands, 0, start, Lowered([], None, false, false), exact)
  {
    assert commands[..0] == [];
  }

  lemma AlongWhole(
    device: Device, table: seq<PB.BufferUsage>, slots: nat, start: seq<seq<byte>>, commands: seq<Command>, k: nat,
    views: seq<seq<byte>>, l: Lowered, exact: bool)
    requires k == |commands| && Along(device, table, slots, start, commands, k, views, l, exact)
    ensures Tracks(device, start, commands, views, l) && OrderedTo(commands, |commands|)
    ensures exact ==> RunsTo(device, table, slots, start, commands, |commands|)
  {
    assert commands[..k] == commands;
  }

  method LowerNext(
    device: Device, ghost floats: Floats.Floats, table: seq<PB.BufferUsage>, shadows: seq<BufferShadow>,
    pending: PB.PendingBuffers, commands: seq<Command>, k: nat, l: Lowered, ghost start: seq<seq<byte>>,
    ghost views: seq<seq<byte>>, ghost exact: bool)
    returns (result: Result<Lowered, LowerError>, ghost next: seq<seq<byte>>)
    requires k < |commands| && !commands[k].ComputeCommand?
    requires pending.Valid(floats, shadows) && Sane(shadows) && |table| <= |shadows|
    requires views == BS.AllViews(shadows, pending.plan.State()) && exact == PB.RevisionsLeft(shadows)
    requires Along(device, table, |shadows|, start, commands, k, views, l, exact)
    modifies pending`validations, pending.plan, pending.index
    ensures pending.Valid(floats, shadows) && next == BS.AllViews(shadows, pending.plan.State())
    ensures result.Ok? ==> Along(device, table, |shadows|, start, commands, k + 1, next, result.value, exact)
    ensures exact && result.Err? ==> !RunsTo(device, table, |shadows|, start, commands, |commands|)
  {
    ghost var drawn := Drawn(device, start, commands[..k]);
    result := LowerCommand(device, floats, table, shadows, pending, l, drawn, commands[k]);
    next := BS.AllViews(shadows, pending.plan.State());
    DrawnStep(device, start, commands, k);
    RunsNext(device, table, |shadows|, start, commands, k);
    if result.Ok? {
      TracksNext(device, start, commands, k, views, l, next, result.value);
    }
  }

  /** The draws of the pass open after a stream. */
  ghost function Drawn(device: Device, start: seq<seq<byte>>, commands: seq<Command>): seq<Decoded> {
    if commands == [] then []
    else
      var w := InOrder(device, start, commands[..|commands| - 1]);
      DrawnNext(device, w.buffers, w.open, Drawn(device, start, commands[..|commands| - 1]),
        commands[|commands| - 1])
  }

  lemma DrawnStep(device: Device, start: seq<seq<byte>>, commands: seq<Command>, k: nat)
    requires k < |commands|
    ensures var w := InOrder(device, start, commands[..k]);
      Drawn(device, start, commands[..k + 1])
        == DrawnNext(device, w.buffers, w.open, Drawn(device, start, commands[..k]), commands[k])
  {
    assert commands[..k + 1][..k] == commands[..k];
  }

  /** Command `k` may stand where it does, and every check it meets in the stream run in order passes. */
  ghost predicate RunsAt(
    device: Device, table: seq<PB.BufferUsage>, slots: nat, start: seq<seq<byte>>, commands: seq<Command>, k: nat)
    requires k < |commands|
  {
    var w := InOrder(device, start, commands[..k]);
    CommandRuns(device, table, slots, w.buffers, SeenPass(commands[..k]), w.open,
      Drawn(device, start, commands[..k]), commands[k])
  }

  ghost predicate HoldsTo(p: nat -> bool, k: nat) { k > 0 ==> HoldsTo(p, k - 1) && p(k - 1) }

  lemma {:induction false} HoldsToAll(p: nat -> bool, k: nat)
    ensures HoldsTo(p, k) <==> forall j: nat :: j < k ==> p(j)
  {
    if k > 0 {
      HoldsToAll(p, k - 1);
    }
  }

  ghost function Runner(
    device: Device, table: seq<PB.BufferUsage>, slots: nat, start: seq<seq<byte>>, commands: seq<Command>): nat -> bool
  {
    (k: nat) => k < |commands| && RunsAt(device, table, slots, start, commands, k)
  }

  ghost predicate RunsTo(
    device: Device, table: seq<PB.BufferUsage>, slots: nat, start: seq<seq<byte>>, commands: seq<Command>, k: nat)
    requires k <= |commands|
  {
    HoldsTo(Runner(device, table, slots, start, commands), k)
  }

  lemma RunsNext(
    device: Device, table: seq<PB.BufferUsage>, slots: nat, start: seq<seq<byte>>, commands: seq<Command>, k: nat)
    requires k < |commands|
    ensures RunsTo(device, table, slots, start, commands, k + 1)
      == (RunsTo(device, table, slots, start, commands, k) && RunsAt(device, table, slots, start, commands, k))
    ensures !RunsAt(device, table, slots, start, commands, k) ==>
      !RunsTo(device, table, slots, start, commands, |commands|)
  {
    var p := Runner(device, table, slots, start, commands);
    assert p(k) == RunsAt(device, table, slots, start, commands, k);
    HoldsToAll(p, |commands|);
  }

  lemma RunsToAll(
    device: Device, table: seq<PB.BufferUsage>, slots: nat, start: seq<seq<byte>>, commands: seq<Command>)
    ensures RunsTo(device, table, slots, start, commands, |commands|)
      <==> StreamRuns(device, table, slots, start, commands)
  {
    var p := Runner(device, table, slots, start, commands);
    HoldsToAll(p, |commands|);
    forall k | 0 <= k < |commands| ensures p(k) == RunsAt(device, table, slots, start, commands, k) {
    }
  }

  ghost predicate StreamRuns(
    device: Device, table: seq<PB.BufferUsage>, slots: nat, start: seq<seq<byte>>, commands: seq<Command>)
  {
    forall k :: 0 <= k < |commands| ==> RunsAt(device, table, slots, start, commands, k)
  }

  method LowerCommand(
    device: Device, ghost floats: Floats.Floats, table: seq<PB.BufferUsage>, shadows: seq<BufferShadow>,
    pending: PB.PendingBuffers, l: Lowered, ghost drawn: seq<Decoded>, command: Command)
    returns (result: Result<Lowered, LowerError>)
    requires pending.Valid(floats, shadows) && Sane(shadows) && |table| <= |shadows|
    requires WellFormed(l) && !command.ComputeCommand? && DrawnIn(l, drawn)
    modifies pending`validations, pending.plan, pending.index
    ensures pending.Valid(floats, shadows)
    ensures result.Ok? ==>
      Steps(device, BS.AllViews(shadows, old(pending.plan.State())), l, command,
        BS.AllViews(shadows, pending.plan.State()), result.value)
    ensures !Allowed(l.seenPass, l.active.Some?, command) ==>
      result == Err(if command.SetState? || command.DrawCommand? then NotActive else Sequence)
    ensures var views := BS.AllViews(shadows, old(pending.plan.State()));
      && (PB.RevisionsLeft(shadows) ==>
           (result.Ok? <==>
             CommandRuns(device, table, |shadows|, views, l.seenPass, OpenOf(l.active), drawn, command)))
      && (result.Ok? ==> DrawnIn(result.value, DrawnNext(device, views, OpenOf(l.active), drawn, command)))
  {
    ghost var views := BS.AllViews(shadows, pending.plan.State());
    if command.WriteBuffer? || command.CopyBuffer? {
      var staged := LowerBuffer(floats, table, shadows, pending, l, command);
      if staged.Err? {
        return Err(staged.error);
      }
      BufferSteps(device, views, l, command, BS.AllViews(shadows, pending.plan.State()));
      return Ok(l);
    }
    result := LowerEvent(device, BS.AllViews(shadows, pending.plan.State()), l, drawn, command);
  }

  lemma PublishedViews(shadows: seq<BufferShadow>, plan: Plan)
    requires Built(shadows, plan)
    ensures BS.AllContents(Published(shadows, plan)) == BS.AllViews(shadows, plan)
  {
    var after := Published(shadows, plan);
    forall s | 0 <= s < |shadows| ensures Contents(after[s]) == BS.AllViews(shadows, plan)[s] {
      if Lookup(plan.updates, s).None? {
        assert View(shadows[s], plan, s) == Contents(shadows[s]);
      }
    }
  }

  /** A pass the plan drops asks nothing of the device, not even to forget. */
  lemma {:induction false} DroppedPassIsSilent(attachments: seq<Attachment>)
    requires forall k :: 0 <= k < |attachments| ==> attachments[k].load == Load && attachments[k].store == Store
    ensures Forgotten(attachments, false) == [] && Forgotten(attachments, true) == []
  {
    if attachments != [] {
      DroppedPassIsSilent(attachments[..|attachments| - 1]);
    }
  }
}
