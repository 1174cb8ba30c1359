/**
 Whole streams: `BufferOnlyPlan::from_commands` against a naive interpreter that
 keeps one growing byte array per buffer.
 */
module BufferStream {
  import opened Common
  import opened BufferPlan

  datatype BufferDesc = BufferDesc(size: nat, copySrc: bool, copyDst: bool)

  datatype Command =
    | WriteBuffer(buffer: nat, offset: nat, data: seq<byte>)
    | CopyBufferToBuffer(source: nat, sourceOffset: nat, destination: nat, destinationOffset: nat, size: nat)
    | Other

  ghost function AllContents(shadows: seq<BufferShadow>): (r: seq<seq<byte>>)
    ensures |r| == |shadows|
  {
    seq(|shadows|, (s: int) requires 0 <= s < |shadows| => Contents(shadows[s]))
  }

  function AllViews(shadows: seq<BufferShadow>, plan: Plan): (r: seq<seq<byte>>)
    ensures |r| == |shadows|
  {
    seq(|shadows|, (s: int) requires 0 <= s < |shadows| => View(shadows[s], plan, s))
  }

  /** One command on plain byte arrays; a copy reads all of its source before writing. */
  ghost function NaiveStep(buffers: seq<seq<byte>>, command: Command): (r: seq<seq<byte>>)
    ensures |r| == |buffers|
  {
    match command
    case WriteBuffer(b, offset, data) =>
      if b < |buffers| then buffers[b := Overwrite(buffers[b], offset, data)] else buffers
    case CopyBufferToBuffer(s, from, d, to, size) =>
      if s < |buffers| && d < |buffers| then buffers[d := Overwrite(buffers[d], to, Slice(buffers[s], from, size))]
      else buffers
    case Other => buffers
  }

  ghost function NaiveRun(buffers: seq<seq<byte>>, commands: seq<Command>): (r: seq<seq<byte>>)
    ensures |r| == |buffers|
  {
    if commands == [] then buffers
    else NaiveStep(NaiveRun(buffers, commands[..|commands| - 1]), commands[|commands| - 1])
  }

  /** The checks `write_start` makes before a destination is written. */
  function WriteStart(table: seq<BufferDesc>, buffer: nat, offset: nat, length: nat): Result<nat, PlanError> {
    if buffer >= |table| then Err(InvalidReference)
    else if !table[buffer].copyDst then Err(InvalidUsage)
    else if offset + length > MAX_WORD || offset + length > table[buffer].size then Err(InvalidVertexData)
    else Ok(offset)
  }

  function CopyCheck(table: seq<BufferDesc>, c: Command): Result<nat, PlanError>
    requires c.CopyBufferToBuffer?
  {
    if c.source >= |table| then Err(InvalidReference)
    else if !table[c.source].copySrc then Err(InvalidUsage)
    else if c.sourceOffset + c.size > MAX_WORD then Err(Overflow)
    else if c.sourceOffset + c.size > table[c.source].size then Err(OutOfBounds)
    else WriteStart(table, c.destination, c.destinationOffset, c.size)
  }

  /**
   The commands a recorder lets through: an existing destination made to be
   written and large enough, and for copies such a source, with no range past
   the platform's word.
   */
  predicate Recorded(table: seq<BufferDesc>, command: Command) {
    match command
    case WriteBuffer(b, offset, data) =>
      b < |table| && table[b].copyDst && offset + |data| <= table[b].size && offset + |data| <= 0xFFFF_FFFF_FFFF_FFFF
    case CopyBufferToBuffer(s, from, d, to, size) =>
      && s < |table| && table[s].copySrc && from + size <= table[s].size && from + size <= 0xFFFF_FFFF_FFFF_FFFF
      && d < |table| && table[d].copyDst && to + size <= table[d].size && to + size <= 0xFFFF_FFFF_FFFF_FFFF
    case Other => false
  }

  /** Which refusal a destination gets. */
  lemma WriteRefusals(table: seq<BufferDesc>, buffer: nat, offset: nat, length: nat)
    ensures var start := WriteStart(table, buffer, offset, length);
      && (start == Err(InvalidReference) <==> buffer >= |table|)
      && (start == Err(InvalidUsage) <==> buffer < |table| && !table[buffer].copyDst)
      && (start.Ok? <==> Recorded(table, WriteBuffer(buffer, offset, seq(length, _ => 0))))
      && (start.Err? ==> start.error in {InvalidReference, InvalidUsage, InvalidVertexData})
  {
    assert |seq(length, _ => 0)| == length;
  }

  /** Which refusal a copy gets; a wrapped source range is told apart from one past the end. */
  lemma CopyRefusals(table: seq<BufferDesc>, c: Command)
    requires c.CopyBufferToBuffer?
    ensures var check, end := CopyCheck(table, c), c.sourceOffset + c.size;
      && (check.Ok? <==> Recorded(table, c))
      && (check == Err(Overflow) <==> c.source < |table| && table[c.source].copySrc && end > 0xFFFF_FFFF_FFFF_FFFF)
      && (check == Err(OutOfBounds) <==>
            c.source < |table| && table[c.source].copySrc && table[c.source].size < end <= 0xFFFF_FFFF_FFFF_FFFF)
  {
  }

  /** Stage one buffer command in the plan. */
  method Stage(plan: BufferOnlyPlan, table: seq<BufferDesc>, shadows: seq<BufferShadow>, command: Command)
    returns (result: Result<(), PlanError>)
    requires Built(shadows, plan.State()) && Sane(shadows) && |table| <= |shadows| && !command.Other?
    modifies plan
    ensures Built(shadows, plan.State())
    ensures result.Ok? ==> Recorded(table, command)
    ensures result.Ok? ==>
      AllViews(shadows, plan.State()) == NaiveStep(AllViews(shadows, old(plan.State())), command)
    ensures result.Err? ==> plan.State() == old(plan.State())
    ensures Recorded(table, command) && (forall s :: 0 <= s < |shadows| ==> shadows[s].revision < MAX_WORD) ==>
      result.Ok?
  {
    match command {
      case WriteBuffer(b, offset, data) =>
        var start := WriteStart(table, b, offset, |data|);
        if start.Err? {
          return Err(start.error);
        }
        result := plan.Write(shadows, b, offset, data);
      case CopyBufferToBuffer(s, from, d, to, size) =>
        var start := CopyCheck(table, command);
        if start.Err? {
          return Err(start.error);
        }
        result := plan.Copy(shadows, s, from, d, to, size);
    }
  }

  /**
   The buffer-only fast path. A preflight pass declines empty and mixed streams
   before anything is staged; otherwise the pending contents are exactly what
   running the stream on plain byte arrays gives.
   */
  method FromCommands(table: seq<BufferDesc>, shadows: seq<BufferShadow>, commands: seq<Command>)
    returns (result: Result<Option<Plan>, PlanError>)
    requires Sane(shadows) && |table| <= |shadows|
    ensures result == Ok(None) <==> commands == [] || Other in commands
    ensures result.Ok? && result.value.Some? ==>
      var plan := result.value.value;
      && Built(shadows, plan)
      && AllViews(shadows, plan) == NaiveRun(AllContents(shadows), commands)
      && forall k :: 0 <= k < |commands| ==> Recorded(table, commands[k])
    ensures (&& (forall k :: 0 <= k < |commands| ==> Recorded(table, commands[k]))
             && (forall s :: 0 <= s < |shadows| ==> shadows[s].revision < MAX_WORD)) ==> result.Ok?
  {
    var staged := Preflight(commands);
    if !staged {
      return Ok(None);
    }
    result := StageAll(table, shadows, commands);
  }

  /** Nothing is staged for an empty stream or one holding any other command. */
  method Preflight(commands: seq<Command>) returns (staged: bool)
    ensures staged <==> commands != [] && Other !in commands
  {
    staged := commands != [];
    var k := 0;
    while k < |commands|
      invariant 0 <= k <= |commands| && Other !in commands[..k]
      invariant staged == (commands != [])
    {
      if commands[k].Other? {
        return false;
      }
      k := k + 1;
    }
  }

  lemma FreshViews(shadows: seq<BufferShadow>)
    ensures Built(shadows, Plan([], [])) && AllViews(shadows, Plan([], [])) == AllContents(shadows)
  {
    forall s | 0 <= s < |shadows| ensures View(shadows[s], Plan([], []), s) == Contents(shadows[s]) {
    }
  }

  predicate AllRecorded(table: seq<BufferDesc>, commands: seq<Command>, k: nat) {
    k <= |commands| && forall j :: 0 <= j < k ==> Recorded(table, commands[j])
  }

  lemma NotRecorded(table: seq<BufferDesc>, commands: seq<Command>, k: nat)
    requires k < |commands|
    ensures !Recorded(table, commands[k]) ==> !AllRecorded(table, commands, |commands|)
    ensures AllRecorded(table, commands, k) && Recorded(table, commands[k]) ==> AllRecorded(table, commands, k + 1)
  {
  }

  method StageAll(table: seq<BufferDesc>, shadows: seq<BufferShadow>, commands: seq<Command>)
    returns (result: Result<Option<Plan>, PlanError>)
    requires Sane(shadows) && |table| <= |shadows| && Other !in commands
    ensures result.Ok? ==>
      result.value.Some? &&
      var plan := result.value.value;
      && Built(shadows, plan)
      && AllViews(shadows, plan) == NaiveRun(AllContents(shadows), commands)
      && AllRecorded(table, commands, |commands|)
    ensures (&& AllRecorded(table, commands, |commands|)
             && (forall s :: 0 <= s < |shadows| ==> shadows[s].revision < MAX_WORD)) ==> result.Ok?
  {
    var plan := new BufferOnlyPlan();
    FreshViews(shadows);
    var k := 0;
    while k < |commands|
      invariant 0 <= k <= |commands| && Built(shadows, plan.State())
      invariant AllViews(shadows, plan.State()) == NaiveRun(AllContents(shadows), commands[..k])
      invariant AllRecorded(table, commands, k)
    {
      var staged := Stage(plan, table, shadows, commands[k]);
      if staged.Err? {
        NotRecorded(table, commands, k);
        return Err(staged.error);
      }
      NotRecorded(table, commands, k);
      assert commands[..k + 1][..k] == commands[..k];
      k := k + 1;
    }
    assert commands[..k] == commands;
    return Ok(Some(plan.State()));
  }

  /** Publication turns the stream's plan into exactly the naive result. */
  lemma PublishedIsNaive(shadows: seq<BufferShadow>, plan: Plan, commands: seq<Command>)
    requires Built(shadows, plan) && AllViews(shadows, plan) == NaiveRun(AllContents(shadows), commands)
    ensures AllContents(Published(shadows, plan)) == NaiveRun(AllContents(shadows), commands)
  {
    var after := Published(shadows, plan);
    forall s | 0 <= s < |shadows| ensures Contents(after[s]) == AllViews(shadows, plan)[s] {
      if Lookup(plan.updates, s).None? {
        assert View(shadows[s], plan, s) == Contents(shadows[s]);
      }
    }
  }
}
