/**
 The sparse write plan of `ir_execute.rs`: ordered trimmed writes over immutable
 accepted shadows and a splitting index per buffer for pending reads. The index,
 the log and a plain growing byte array are proved to agree after every write
 and copy.
 */
module BufferPlan {
  import opened Common
  import opened Ranges
  import opened Deltas

  datatype PlanError = InvalidVertexData | InvalidReference | InvalidUsage | OutOfBounds | Overflow | OutOfMemory

  /** Accepted CPU contents and all changes since the last accepted preparation. */
  datatype BufferShadow = BufferShadow(bytes: Option<seq<byte>>, revision: nat, upload: Option<BufferUpdate>)

  /** A payload and the part of it that was kept, starting at byte `start` of the buffer. */
  datatype BufferRangeWrite = BufferRangeWrite(slot: nat, start: nat, data: seq<byte>, lo: nat, hi: nat) {
    predicate Valid() { lo <= hi <= |data| }

    function Bytes(): seq<byte>
      requires Valid()
    {
      data[lo..hi]
    }

    function End(): nat
      requires Valid()
    {
      start + (hi - lo)
    }

    predicate Writes(s: nat, i: nat) {
      Valid() && slot == s && start <= i < End()
    }
  }

  datatype BufferRangeUpdate =
    BufferRangeUpdate(slot: nat, revision: nat, length: nat, upload: BufferUpdate, ranges: seq<Segment>)

  datatype Plan = Plan(updates: seq<BufferRangeUpdate>, writes: seq<BufferRangeWrite>)

  function Contents(shadow: BufferShadow): seq<byte> {
    match shadow.bytes case None => [] case Some(bytes) => bytes
  }

  ghost predicate SortedBySlot(updates: seq<BufferRangeUpdate>) {
    forall j, k :: 0 <= j < k < |updates| ==> updates[j].slot < updates[k].slot
  }

  /** The binary search by slot. */
  function Find(updates: seq<BufferRangeUpdate>, slot: nat): (r: Option<nat>)
    ensures r.Some? ==> r.value < |updates| && updates[r.value].slot == slot
    ensures r.None? ==> forall k :: 0 <= k < |updates| ==> updates[k].slot != slot
  {
    FindFrom(updates, slot, 0)
  }

  function FindFrom(updates: seq<BufferRangeUpdate>, slot: nat, k: nat): (r: Option<nat>)
    requires k <= |updates|
    ensures r.Some? ==> k <= r.value < |updates| && updates[r.value].slot == slot
    ensures r.None? ==> forall j :: k <= j < |updates| ==> updates[j].slot != slot
    decreases |updates| - k
  {
    if k == |updates| then None
    else if updates[k].slot == slot then Some(k)
    else FindFrom(updates, slot, k + 1)
  }

  function Lookup(updates: seq<BufferRangeUpdate>, slot: nat): (r: Option<BufferRangeUpdate>)
    ensures r.Some? ==> r.value.slot == slot
  {
    match Find(updates, slot) case None => None case Some(k) => Some(updates[k])
  }

  /** Replace the slot's entry, or insert it at its place in slot order. */
  function Put(updates: seq<BufferRangeUpdate>, update: BufferRangeUpdate): seq<BufferRangeUpdate> {
    match Find(updates, update.slot)
    case Some(k) => updates[k := update]
    case None =>
      var k := Below(updates, update.slot, 0);
      updates[..k] + [update] + updates[k..]
  }

  /** The partition point of the entries below `slot`. */
  function Below(updates: seq<BufferRangeUpdate>, slot: nat, k: nat): (r: nat)
    requires k <= |updates|
    ensures k <= r <= |updates|
    ensures forall j :: k <= j < r ==> updates[j].slot < slot
    ensures r < |updates| ==> slot <= updates[r].slot
    decreases |updates| - k
  {
    if k == |updates| || slot <= updates[k].slot then k else Below(updates, slot, k + 1)
  }

  lemma PutSorted(
    updates: seq<BufferRangeUpdate>, update: BufferRangeUpdate, after: seq<BufferRangeUpdate>, at: nat, gap: nat)
    requires SortedBySlot(updates) && |after| == |updates| + gap && gap <= 1 && at < |after| && after[at] == update
    requires forall k :: 0 <= k < at ==> after[k] == updates[k] && updates[k].slot < update.slot
    requires forall k :: at < k < |after| ==> after[k] == updates[k - gap] && update.slot < updates[k - gap].slot
    ensures SortedBySlot(after)
  {
  }

  /** Where the entry goes, and that the rest keeps its order. */
  lemma PutShape(updates: seq<BufferRangeUpdate>, update: BufferRangeUpdate) returns (at: nat, gap: nat)
    requires SortedBySlot(updates)
    ensures var after := Put(updates, update);
      && SortedBySlot(after) && gap <= 1 && |after| == |updates| + gap && at < |after| && after[at] == update
      && (gap == 0 <==> Find(updates, update.slot).Some?) && (gap == 0 ==> Find(updates, update.slot) == Some(at))
      && (forall k :: 0 <= k < at ==> after[k] == updates[k])
      && (forall k :: at < k < |after| ==> after[k] == updates[k - gap])
  {
    var after := Put(updates, update);
    if Find(updates, update.slot).Some? {
      at, gap := Find(updates, update.slot).value, 0;
    } else {
      at, gap := Below(updates, update.slot, 0), 1;
    }
    assert forall k :: at < k < |after| ==> after[k] == updates[k - gap];
    forall k | at <= k < |updates| && (gap == 1 || at < k) ensures update.slot < updates[k].slot {
      assert at < |updates| && (k == at || updates[at].slot < updates[k].slot);
    }
    PutSorted(updates, update, after, at, gap);
  }

  lemma PutLookup(updates: seq<BufferRangeUpdate>, update: BufferRangeUpdate)
    requires SortedBySlot(updates)
    ensures SortedBySlot(Put(updates, update))
    ensures forall s: nat ::
      Lookup(Put(updates, update), s) == if s == update.slot then Some(update) else Lookup(updates, s)
  {
    var after := Put(updates, update);
    var at, gap := PutShape(updates, update);
    forall s: nat
      ensures Lookup(after, s) == if s == update.slot then Some(update) else Lookup(updates, s)
    {
      if s == update.slot {
        FindUnique(after, at);
      } else if Find(updates, s).Some? {
        var k := Find(updates, s).value;
        var moved := if k < at then k else k + gap;
        assert after[moved] == updates[k];
        FindUnique(after, moved);
      }
    }
  }

  lemma FindUnique(updates: seq<BufferRangeUpdate>, k: nat)
    requires SortedBySlot(updates) && k < |updates|
    ensures Find(updates, updates[k].slot) == Some(k)
  {
    assert updates[Find(updates, updates[k].slot).value].slot == updates[k].slot;
  }

  /** The latest write, in command order, covering byte `i` of `slot`. */
  ghost function LastWriter(writes: seq<BufferRangeWrite>, slot: nat, i: nat): (r: Option<nat>)
    ensures r.Some? ==> r.value < |writes| && writes[r.value].Writes(slot, i)
  {
    if writes == [] then None
    else if writes[|writes| - 1].Writes(slot, i) then Some(|writes| - 1)
    else LastWriter(writes[..|writes| - 1], slot, i)
  }

  function Length(shadow: BufferShadow, plan: Plan, slot: nat): nat {
    match Lookup(plan.updates, slot)
    case None => |Contents(shadow)|
    case Some(update) => Max(update.length, |Contents(shadow)|)
  }

  /** The slot's index; empty when it has no entry. */
  function IndexOf(plan: Plan, slot: nat): seq<Segment> {
    match Lookup(plan.updates, slot) case Some(update) => update.ranges case None => []
  }

  /** Byte `i` of a buffer when `owner` is the write that holds it. */
  function Resolved(base: seq<byte>, writes: seq<BufferRangeWrite>, slot: nat, owner: Option<nat>, i: nat): byte {
    match owner
    case None => ByteAt(base, i)
    case Some(w) =>
      if w < |writes| && writes[w].Writes(slot, i) then writes[w].Bytes()[i - writes[w].start] else 0
  }

  /** What a pending read of byte `i` returns, through the slot's range index. */
  function Pending(shadow: BufferShadow, plan: Plan, slot: nat, i: nat): byte {
    Resolved(Contents(shadow), plan.writes, slot, Owner(IndexOf(plan, slot), i), i)
  }

  /** The buffer as a later command of the same stream sees it. */
  function View(shadow: BufferShadow, plan: Plan, slot: nat): (r: seq<byte>)
    ensures |r| == Length(shadow, plan, slot)
  {
    seq(Length(shadow, plan, slot), (i: int) requires 0 <= i => Pending(shadow, plan, slot, i))
  }

  /** One update entry: its index names the last writer of every byte. */
  ghost predicate UpdateBuilt(shadow: BufferShadow, plan: Plan, update: BufferRangeUpdate) {
    && Normalized(update.ranges)
    && (forall i: nat :: Owner(update.ranges, i) == LastWriter(plan.writes, update.slot, i))
    && |Contents(shadow)| <= update.length <= MAX_WORD
    && update.revision == shadow.revision + 1 <= MAX_WORD
    && update.upload.previousRevision == shadow.revision
    && WellFormed(update.upload, update.length)
    && Covers(update.upload, Contents(shadow), View(shadow, plan, update.slot))
  }

  /** What every sequence of plan operations keeps. */
  ghost predicate Built(shadows: seq<BufferShadow>, plan: Plan) {
    && SortedBySlot(plan.updates)
    && (forall s: nat :: Lookup(plan.updates, s).Some? ==>
      s < |shadows| && UpdateBuilt(shadows[s], plan, Lookup(plan.updates, s).value))
    && (forall w :: 0 <= w < |plan.writes| ==> WriteBuilt(plan, plan.writes[w]))
  }

  ghost predicate WriteBuilt(plan: Plan, write: BufferRangeWrite) {
    && write.Valid()
    && Lookup(plan.updates, write.slot).Some?
    && write.End() <= Lookup(plan.updates, write.slot).value.length
  }

  /** Past its length a pending buffer reads as zero. */
  lemma PendingIsView(shadows: seq<BufferShadow>, plan: Plan, slot: nat, i: nat)
    requires Built(shadows, plan) && slot < |shadows|
    ensures Pending(shadows[slot], plan, slot, i) == ByteAt(View(shadows[slot], plan, slot), i)
  {
    if Lookup(plan.updates, slot).Some? {
      var update := Lookup(plan.updates, slot).value;
      var last := LastWriter(plan.writes, slot, i);
      assert Owner(update.ranges, i) == last;
      if last.Some? {
        assert WriteBuilt(plan, plan.writes[last.value]);
      }
    }
  }

  /** Every indexed segment lies inside the payload it names. */
  lemma SegmentInsideWrite(shadows: seq<BufferShadow>, plan: Plan, slot: nat, j: nat)
    requires Built(shadows, plan) && Lookup(plan.updates, slot).Some?
    requires j < |Lookup(plan.updates, slot).value.ranges|
    ensures var s := Lookup(plan.updates, slot).value.ranges[j];
      s.write < |plan.writes| && plan.writes[s.write].Valid()
      && plan.writes[s.write].slot == slot
      && plan.writes[s.write].start <= s.start < s.end <= plan.writes[s.write].End()
      && s.end <= Lookup(plan.updates, slot).value.length
  {
    var ranges := Lookup(plan.updates, slot).value.ranges;
    var s := ranges[j];
    OwnerOfSegment(ranges, j, s.start);
    OwnerOfSegment(ranges, j, s.end - 1);
    assert LastWriter(plan.writes, slot, s.start) == Some(s.write);
    assert LastWriter(plan.writes, slot, s.end - 1) == Some(s.write);
    assert WriteBuilt(plan, plan.writes[s.write]);
  }

  /** `changed` is exactly the change `data` at `start` makes to `view`: none, or its tightest range. */
  ghost predicate TightChange(view: seq<byte>, start: nat, data: seq<byte>, changed: Option<Range>) {
    var next := Overwrite(view, start, data);
    match changed
    case None => next == view
    case Some(r) =>
      && r.start < r.end <= |next| && r.start <= |view|
      && (forall i: nat :: i < |next| && !(r.start <= i < r.end) ==> i < |view| && view[i] == next[i])
      && (r.start == |view| || view[r.start] != next[r.start])
      && (if |next| > |view| then r.end == |next| else view[r.end - 1] != next[r.end - 1])
  }

  /** A tight range is unique, and present exactly when something changes. */
  lemma TightChangeUnique(view: seq<byte>, start: nat, data: seq<byte>, a: Option<Range>, b: Option<Range>)
    requires TightChange(view, start, data, a) && TightChange(view, start, data, b)
    ensures a == b
    ensures a.None? <==> Overwrite(view, start, data) == view
  {
    var next := Overwrite(view, start, data);
    if a.Some? {
      if a.value.start < |view| {
        assert view[a.value.start] != next[a.value.start];
      } else {
        assert |next| > |view|;
      }
    }
    if b.Some? {
      if b.value.start < |view| {
        assert view[b.value.start] != next[b.value.start];
      } else {
        assert |next| > |view|;
      }
    }
  }

  /** How many bytes of `b` from `j` on, at most `count`, agree with `a` shifted by `shift`. */
  function CommonPrefix(a: seq<byte>, shift: int, b: seq<byte>, j: nat, count: nat): (n: nat)
    requires 0 <= shift + j && shift + j + count <= |a| && j + count <= |b|
    ensures n <= count && (forall x :: j <= x < j + n ==> a[shift + x] == b[x])
    ensures n < count ==> a[shift + j + n] != b[j + n]
    decreases count
  {
    if count == 0 || a[shift + j] != b[j] then 0 else 1 + CommonPrefix(a, shift, b, j + 1, count - 1)
  }

  /** The same, backwards from `j`. */
  function CommonSuffix(a: seq<byte>, shift: int, b: seq<byte>, j: nat, count: nat): (n: nat)
    requires count <= j <= |b| && 0 <= shift + j - count && shift + j <= |a|
    ensures n <= count && (forall x :: j - n <= x < j ==> a[shift + x] == b[x])
    ensures n < count ==> a[shift + j - n - 1] != b[j - n - 1]
    decreases count
  {
    if count == 0 || a[shift + j - 1] != b[j - 1] then 0 else 1 + CommonSuffix(a, shift, b, j - 1, count - 1)
  }

  /** `changed_buffer_bytes`: the diff against an accepted shadow, in blocks from both ends. */
  method ChangedBufferBytes(previous: Option<seq<byte>>, start: nat, data: seq<byte>)
    returns (changed: Result<Range, PlanError>)
    ensures changed.Ok? <==> start + |data| <= MAX_WORD
    ensures changed.Err? ==> changed.error == InvalidVertexData
    ensures changed.Ok? ==>
      var view := (match previous case None => [] case Some(bytes) => bytes);
      TightChange(view, start, data, Nonempty(changed.value))
  {
    if start + |data| > MAX_WORD {
      return Err(InvalidVertexData);
    }
    var end := start + |data|;
    if previous.None? {
      return Ok(Range(0, end));
    }
    var view := previous.value;
    var overlap := Min(Max(|view| - start, 0), |data|);
    var prefix := BlockPrefix(view, start, data, overlap);
    var suffix := 0;
    if end <= |view| {
      suffix := BlockSuffix(view, start, data, prefix);
    }
    changed := Ok(Range(Min(start + prefix, |view|), end - suffix));
    DiffIsTight(view, start, data, prefix, suffix);
  }

  function Nonempty(r: Range): Option<Range> { if r.start < r.end then Some(r) else None }

  /** The forward scan over blocks of 4096 bytes. */
  method BlockPrefix(view: seq<byte>, start: nat, data: seq<byte>, overlap: nat) returns (prefix: nat)
    requires overlap <= |data| && (0 < overlap ==> start + overlap <= |view|)
    ensures prefix <= overlap && (forall x :: 0 <= x < prefix ==> view[start + x] == data[x])
    ensures prefix < overlap ==> view[start + prefix] != data[prefix]
  {
    prefix := 0;
    while prefix < overlap
      invariant prefix <= overlap
      invariant forall x :: 0 <= x < prefix ==> view[start + x] == data[x]
    {
      var count := Min(4096, overlap - prefix);
      var equal := CommonPrefix(view, start, data, prefix, count);
      prefix := prefix + equal;
      if equal != count {
        return;
      }
    }
  }

  /** The backward scan, which stops at the prefix. */
  method BlockSuffix(view: seq<byte>, start: nat, data: seq<byte>, prefix: nat) returns (suffix: nat)
    requires prefix <= |data| && start + |data| <= |view|
    ensures suffix <= |data| - prefix
    ensures forall x :: |data| - suffix <= x < |data| ==> view[start + x] == data[x]
    ensures suffix < |data| - prefix ==> view[start + |data| - suffix - 1] != data[|data| - suffix - 1]
  {
    suffix := 0;
    while suffix < |data| - prefix
      invariant suffix <= |data| - prefix
      invariant forall x :: |data| - suffix <= x < |data| ==> view[start + x] == data[x]
    {
      var count := Min(4096, |data| - prefix - suffix);
      var at := |data| - suffix;
      var equal := CommonSuffix(view, start, data, at, count);
      suffix := suffix + equal;
      if equal != count {
        return;
      }
    }
  }

  /** Scanning from both ends to the first difference yields the tight range. */
  lemma DiffIsTight(view: seq<byte>, start: nat, data: seq<byte>, prefix: nat, suffix: nat)
    requires var overlap := Min(Max(|view| - start, 0), |data|);
      prefix <= overlap
      && (forall x :: 0 <= x < prefix ==> view[start + x] == data[x])
      && (prefix < overlap ==> view[start + prefix] != data[prefix])
    requires if start + |data| <= |view|
      then suffix <= |data| - prefix
        && (forall x :: |data| - suffix <= x < |data| ==> view[start + x] == data[x])
        && (suffix < |data| - prefix ==> view[start + |data| - suffix - 1] != data[|data| - suffix - 1])
      else suffix == 0
    ensures TightChange(view, start, data, Nonempty(Range(Min(start + prefix, |view|), start + |data| - suffix)))
  {
    var next := Overwrite(view, start, data);
    if start + |data| <= |view| {
      if prefix == |data| {
        assert next == view;
      } else {
        assert prefix < |data| - suffix;
        assert next[start + prefix] == data[prefix];
        assert next[start + |data| - suffix - 1] == data[|data| - suffix - 1];
      }
    }
  }

  lemma LastWriterPush(writes: seq<BufferRangeWrite>, write: BufferRangeWrite, slot: nat, i: nat)
    ensures LastWriter(writes + [write], slot, i)
      == if write.Writes(slot, i) then Some(|writes|) else LastWriter(writes, slot, i)
  {
    assert (writes + [write])[..|writes|] == writes;
  }

  /** The entry of the written slot after a change of `r`; `ranges` is its updated index. */
  function WrittenUpdate(shadow: BufferShadow, plan: Plan, slot: nat, end: nat, r: Range, ranges: seq<Segment>)
    : BufferRangeUpdate
  {
    match Lookup(plan.updates, slot)
    case Some(update) =>
      update.(ranges := ranges, length := Max(update.length, end), upload := IncludeRange(update.upload, r))
    case None =>
      BufferRangeUpdate(slot, shadow.revision + 1, Max(end, |Contents(shadow)|), SparseUpdate(shadow.revision, r),
        ranges)
  }

  /** The kept part of a payload whose tight change is `r`. */
  function Trimmed(slot: nat, start: nat, data: seq<byte>, r: Range): BufferRangeWrite
    requires start <= r.end
  {
    BufferRangeWrite(slot, Max(start, r.start), data, Max(start, r.start) - start, r.end - start)
  }

  /** The plan after a write whose tight change is `r`. */
  function Written(
    shadow: BufferShadow, plan: Plan, slot: nat, start: nat, data: seq<byte>, r: Range, ranges: seq<Segment>): Plan
    requires start <= r.end
  {
    Plan(Put(plan.updates, WrittenUpdate(shadow, plan, slot, start + |data|, r, ranges)),
      plan.writes + [Trimmed(slot, start, data, r)])
  }

  /** A write in progress: its tight change and the index that took its bytes. */
  ghost predicate Writing(
    shadows: seq<BufferShadow>, plan: Plan, slot: nat, start: nat, data: seq<byte>, r: Range, ranges: seq<Segment>)
  {
    && Built(shadows, plan) && slot < |shadows|
    && TightChange(View(shadows[slot], plan, slot), start, data, Some(r))
    && start <= r.end <= start + |data| && Max(start, r.start) <= r.end
    && Taken(IndexOf(plan, slot), ranges, Max(start, r.start), r.end, |plan.writes|)
  }

  /** A tight change starts no earlier than the write unless it crosses the growth gap. */
  lemma TightBounds(view: seq<byte>, start: nat, data: seq<byte>, r: Range)
    requires TightChange(view, start, data, Some(r))
    ensures start <= r.end <= start + |data|
    ensures Max(start, r.start) <= r.end
    ensures r.start < start ==> r.start == |view|
  {
    var next := Overwrite(view, start, data);
    assert |next| == |view| ==> view[r.end - 1] != next[r.end - 1];
    assert r.start < |view| ==> view[r.start] != next[r.start];
  }

  lemma IndexBuilt(shadows: seq<BufferShadow>, plan: Plan, slot: nat)
    requires Built(shadows, plan)
    ensures Normalized(IndexOf(plan, slot))
    ensures forall i: nat :: Owner(IndexOf(plan, slot), i) == LastWriter(plan.writes, slot, i)
  {
    if Lookup(plan.updates, slot).None? {
      forall i: nat ensures LastWriter(plan.writes, slot, i) == None {
        NoWriter(plan, slot, |plan.writes|, i);
        assert plan.writes[..|plan.writes|] == plan.writes;
      }
    }
  }

  /** Giving a new write its bytes in an index that names last writers keeps it so. */
  lemma PushOwner(before: seq<Segment>, after: seq<Segment>, writes: seq<BufferRangeWrite>, write: BufferRangeWrite)
    requires write.Valid() && Taken(before, after, write.start, write.End(), |writes|)
    requires forall i: nat :: Owner(before, i) == LastWriter(writes, write.slot, i)
    ensures forall i: nat :: Owner(after, i) == LastWriter(writes + [write], write.slot, i)
  {
    forall i: nat
      ensures Owner(after, i) == LastWriter(writes + [write], write.slot, i)
    {
      LastWriterPush(writes, write, write.slot, i);
    }
  }

  /** A slot without an entry has never been written. */
  lemma {:induction false} NoWriter(plan: Plan, slot: nat, n: nat, i: nat)
    requires n <= |plan.writes| && Lookup(plan.updates, slot).None?
    requires forall w :: 0 <= w < |plan.writes| ==> WriteBuilt(plan, plan.writes[w])
    ensures LastWriter(plan.writes[..n], slot, i) == None
  {
    if n > 0 {
      assert plan.writes[..n][..n - 1] == plan.writes[..n - 1];
      assert WriteBuilt(plan, plan.writes[n - 1]);
      NoWriter(plan, slot, n - 1, i);
    }
  }

  /** Byte by byte, the write shows its kept payload and leaves the rest. */
  lemma WrittenPending(
    shadow: BufferShadow, plan: Plan, slot: nat, start: nat, data: seq<byte>, r: Range, ranges: seq<Segment>, i: nat)
    requires SortedBySlot(plan.updates)
    requires Owner(IndexOf(plan, slot), i) == LastWriter(plan.writes, slot, i)
    requires Max(start, r.start) <= r.end <= start + |data| && start <= r.end
    requires Taken(IndexOf(plan, slot), ranges, Max(start, r.start), r.end, |plan.writes|)
    ensures Pending(shadow, Written(shadow, plan, slot, start, data, r, ranges), slot, i)
      == if Max(start, r.start) <= i < r.end then data[i - start] else Pending(shadow, plan, slot, i)
  {
    PutLookup(plan.updates, WrittenUpdate(shadow, plan, slot, start + |data|, r, ranges));
    ResolvedPush(Contents(shadow), plan.writes, Trimmed(slot, start, data, r), slot,
      LastWriter(plan.writes, slot, i), i);
  }

  lemma WrittenLength(
    shadow: BufferShadow, plan: Plan, slot: nat, start: nat, data: seq<byte>, r: Range, ranges: seq<Segment>)
    requires SortedBySlot(plan.updates) && start <= r.end
    ensures Length(shadow, Written(shadow, plan, slot, start, data, r, ranges), slot)
      == Max(Length(shadow, plan, slot), start + |data|)
  {
    PutLookup(plan.updates, WrittenUpdate(shadow, plan, slot, start + |data|, r, ranges));
  }

  /** The pending contents after the write are the naive overwrite. */
  lemma WrittenView(
    shadows: seq<BufferShadow>, plan: Plan, slot: nat, start: nat, data: seq<byte>, r: Range, ranges: seq<Segment>)
    requires Writing(shadows, plan, slot, start, data, r, ranges)
    ensures View(shadows[slot], Written(shadows[slot], plan, slot, start, data, r, ranges), slot)
      == Overwrite(View(shadows[slot], plan, slot), start, data)
  {
    var shadow, view := shadows[slot], View(shadows[slot], plan, slot);
    var next := Overwrite(view, start, data);
    TightBounds(view, start, data, r);
    IndexBuilt(shadows, plan, slot);
    WrittenLength(shadow, plan, slot, start, data, r, ranges);
    forall i: nat | i < |next|
      ensures Pending(shadow, Written(shadow, plan, slot, start, data, r, ranges), slot, i) == next[i]
    {
      PendingIsView(shadows, plan, slot, i);
      WrittenPending(shadow, plan, slot, start, data, r, ranges, i);
    }
  }

  /** A pushed write shows its payload where it owns the byte and disturbs no other owner. */
  lemma ResolvedPush(
    base: seq<byte>, writes: seq<BufferRangeWrite>, write: BufferRangeWrite, slot: nat, owner: Option<nat>, i: nat)
    requires owner.Some? ==> owner.value < |writes|
    ensures Resolved(base, writes + [write], slot, owner, i) == Resolved(base, writes, slot, owner, i)
    ensures write.Writes(slot, i) ==>
      Resolved(base, writes + [write], slot, Some(|writes|), i) == write.data[write.lo + (i - write.start)]
  {
    if owner.Some? {
      assert (writes + [write])[owner.value] == writes[owner.value];
    }
    assert (writes + [write])[|writes|] == write;
  }

  /** Other buffers read as before. */
  lemma WrittenElsewhere(
    shadows: seq<BufferShadow>, plan: Plan, slot: nat, start: nat, data: seq<byte>, r: Range, ranges: seq<Segment>,
    other: nat)
    requires Built(shadows, plan) && slot < |shadows| && other < |shadows| && other != slot && start <= r.end
    ensures var after := Written(shadows[slot], plan, slot, start, data, r, ranges);
      && View(shadows[other], after, other) == View(shadows[other], plan, other)
      && Lookup(after.updates, other) == Lookup(plan.updates, other)
      && forall i: nat :: LastWriter(after.writes, other, i) == LastWriter(plan.writes, other, i)
  {
    var after := Written(shadows[slot], plan, slot, start, data, r, ranges);
    PutLookup(plan.updates, WrittenUpdate(shadows[slot], plan, slot, start + |data|, r, ranges));
    IndexBuilt(shadows, plan, other);
    forall i: nat
      ensures LastWriter(after.writes, other, i) == LastWriter(plan.writes, other, i)
      ensures Pending(shadows[other], after, other, i) == Pending(shadows[other], plan, other, i)
    {
      var write := Trimmed(slot, start, data, r);
      LastWriterPush(plan.writes, write, other, i);
      ResolvedPush(Contents(shadows[other]), plan.writes, write, other, LastWriter(plan.writes, other, i), i);
    }
  }

  /** A write keeps the plan built. */
  lemma WrittenBuilt(
    shadows: seq<BufferShadow>, plan: Plan, slot: nat, start: nat, data: seq<byte>, r: Range, ranges: seq<Segment>)
    requires Writing(shadows, plan, slot, start, data, r, ranges)
    requires start + |data| <= MAX_WORD && |Contents(shadows[slot])| <= MAX_WORD
    requires Lookup(plan.updates, slot).None? ==> shadows[slot].revision < MAX_WORD
    ensures Built(shadows, Written(shadows[slot], plan, slot, start, data, r, ranges))
  {
    var after := Written(shadows[slot], plan, slot, start, data, r, ranges);
    var update := WrittenUpdate(shadows[slot], plan, slot, start + |data|, r, ranges);
    PutLookup(plan.updates, update);
    forall s: nat | Lookup(after.updates, s).Some?
      ensures s < |shadows| && UpdateBuilt(shadows[s], after, Lookup(after.updates, s).value)
    {
      if s == slot {
        WrittenUpdateBuilt(shadows, plan, slot, start, data, r, ranges);
      } else {
        WrittenElsewhere(shadows, plan, slot, start, data, r, ranges, s);
      }
    }
    forall w | 0 <= w < |after.writes| ensures WriteBuilt(after, after.writes[w]) {
      if w < |plan.writes| {
        assert WriteBuilt(plan, plan.writes[w]);
      }
    }
  }

  lemma WrittenUpdateBuilt(
    shadows: seq<BufferShadow>, plan: Plan, slot: nat, start: nat, data: seq<byte>, r: Range, ranges: seq<Segment>)
    requires Writing(shadows, plan, slot, start, data, r, ranges)
    requires start + |data| <= MAX_WORD && |Contents(shadows[slot])| <= MAX_WORD
    requires Lookup(plan.updates, slot).None? ==> shadows[slot].revision < MAX_WORD
    ensures UpdateBuilt(shadows[slot], Written(shadows[slot], plan, slot, start, data, r, ranges),
      WrittenUpdate(shadows[slot], plan, slot, start + |data|, r, ranges))
  {
    IndexBuilt(shadows, plan, slot);
    PushOwner(IndexOf(plan, slot), ranges, plan.writes, Trimmed(slot, start, data, r));
    WrittenView(shadows, plan, slot, start, data, r, ranges);
    WrittenUpload(shadows, plan, slot, start, data, r, ranges);
  }

  /** The slot's delta still covers everything that differs from the accepted shadow. */
  lemma WrittenUpload(
    shadows: seq<BufferShadow>, plan: Plan, slot: nat, start: nat, data: seq<byte>, r: Range, ranges: seq<Segment>)
    requires Writing(shadows, plan, slot, start, data, r, ranges)
    ensures var update := WrittenUpdate(shadows[slot], plan, slot, start + |data|, r, ranges);
      && WellFormed(update.upload, update.length)
      && Covers(update.upload, Contents(shadows[slot]), Overwrite(View(shadows[slot], plan, slot), start, data))
  {
    var shadow, view := shadows[slot], View(shadows[slot], plan, slot);
    var length := Max(|view|, start + |data|);
    match Lookup(plan.updates, slot) {
      case Some(before) =>
        LongerWellFormed(before.upload, before.length, length);
        IncludeRangeKeeps(before.upload, r, length);
        ExtendedCovers(before.upload, IncludeRange(before.upload, r), Contents(shadow), view,
          Overwrite(view, start, data), r);
      case None =>
        assert view == Contents(shadow);
        SparseWellFormed(shadow.revision, r, length);
    }
  }

  lemma LongerWellFormed(upload: BufferUpdate, length: nat, longer: nat)
    requires WellFormed(upload, length) && length <= longer
    ensures WellFormed(upload, longer)
  {
  }

  lemma ExtendedCovers(
    upload: BufferUpdate, extended: BufferUpdate, base: seq<byte>, view: seq<byte>, next: seq<byte>, r: Range)
    requires Covers(upload, base, view)
    requires forall i: nat :: Changed(upload, i) || r.start <= i < r.end ==> Changed(extended, i)
    requires forall i: nat :: i < |next| && !(r.start <= i < r.end) ==> i < |view| && view[i] == next[i]
    ensures Covers(extended, base, next)
  {
    forall i: nat | i < |next| && !Changed(extended, i) ensures i < |base| && base[i] == next[i] {
      assert !Changed(upload, i) && view[i] == next[i];
    }
  }

  /** A segment's bytes of the pending view come from the payload it names. */
  lemma SegmentShows(shadow: BufferShadow, plan: Plan, slot: nat, s: nat, i: nat)
    requires Normalized(IndexOf(plan, slot)) && s < |IndexOf(plan, slot)|
    requires var segment := IndexOf(plan, slot)[s];
      && segment.start <= i < segment.end && segment.write < |plan.writes|
      && plan.writes[segment.write].Writes(slot, i)
    ensures var write := plan.writes[IndexOf(plan, slot)[s].write];
      Pending(shadow, plan, slot, i) == write.Bytes()[i - write.start]
  {
    OwnerOfSegment(IndexOf(plan, slot), s, i);
  }

  /** The part of a segment that a read meets shows what the read should return. */
  lemma PieceShows(
    shadow: BufferShadow, plan: Plan, slot: nat, s: nat, start: nat, target: seq<byte>, lo: nat, hi: nat,
    source: seq<byte>)
    requires Normalized(IndexOf(plan, slot)) && s < |IndexOf(plan, slot)|
    requires forall j :: 0 <= j < |target| ==> target[j] == Pending(shadow, plan, slot, start + j)
    requires var segment := IndexOf(plan, slot)[s];
      && segment.write < |plan.writes|
      && (var write := plan.writes[segment.write];
          && write.Valid() && write.slot == slot && write.start <= segment.start && segment.end <= write.End()
          && start <= lo && segment.start <= lo <= hi <= segment.end && hi <= start + |target|
          && source == write.Bytes()[lo - write.start..hi - write.start])
    ensures forall j :: lo - start <= j < hi - start ==> target[j] == source[j - (lo - start)]
  {
    forall j | lo - start <= j < hi - start ensures target[j] == source[j - (lo - start)] {
      SegmentShows(shadow, plan, slot, s, start + j);
    }
  }

  /** After segments `[0, s)`, the bytes they own show the target and the others the base. */
  ghost predicate Overlaid(
    ranges: seq<Segment>, start: nat, base: seq<byte>, target: seq<byte>, s: nat, bytes: seq<byte>)
  {
    && s <= |ranges| && |bytes| == |base| == |target|
    && forall j :: 0 <= j < |base| ==>
         bytes[j] == (if Owner(ranges[..s], start + j).Some? then target[j] else base[j])
  }

  lemma OverlayNone(ranges: seq<Segment>, start: nat, base: seq<byte>, target: seq<byte>, first: nat)
    requires first <= |ranges| && |base| == |target|
    requires forall k :: 0 <= k < first ==> ranges[k].end <= start
    ensures Overlaid(ranges, start, base, target, first, base)
  {
    forall i: nat | start <= i ensures Owner(ranges[..first], i).None? {
      OwnerOutside(ranges[..first], i);
    }
  }

  lemma OverlayOne(
    ranges: seq<Segment>, start: nat, base: seq<byte>, target: seq<byte>, s: nat, bytes: seq<byte>, source: seq<byte>)
    requires Normalized(ranges) && s < |ranges| && Overlaid(ranges, start, base, target, s, bytes)
    requires start < ranges[s].end && ranges[s].start < start + |base|
    requires var lo, hi := Max(start, ranges[s].start), Min(start + |base|, ranges[s].end);
      lo <= hi && |source| == hi - lo
      && forall j :: lo - start <= j < hi - start ==> target[j] == source[j - (lo - start)]
    ensures Overlaid(ranges, start, base, target, s + 1, CopyInto(bytes, Max(start, ranges[s].start) - start, source))
  {
    forall i: nat { OwnerStep(ranges, s, i); }
  }

  lemma OverlayAll(
    ranges: seq<Segment>, start: nat, base: seq<byte>, target: seq<byte>, last: nat, bytes: seq<byte>,
    contents: seq<byte>)
    requires Overlaid(ranges, start, base, target, last, bytes)
    requires forall k :: last <= k < |ranges| ==> start + |base| <= ranges[k].start
    requires base == Slice(contents, start, |base|)
    requires forall j :: 0 <= j < |base| && Owner(ranges, start + j).None? ==> target[j] == ByteAt(contents, start + j)
    ensures bytes == target
  {
    forall i: nat | start <= i < start + |base| ensures Owner(ranges, i) == Owner(ranges[..last], i) {
      assert ranges == ranges[..last] + ranges[last..];
      OwnerConcat(ranges[..last], ranges[last..], i);
      OwnerOutside(ranges[last..], i);
    }
  }

  /** What a read of `[offset, offset + |scratch|)` shows holds of the view itself. */
  lemma ScratchAgrees(
    view: seq<byte>, start: nat, data: seq<byte>, offset: nat, scratch: seq<byte>, from: nat, equal: nat)
    requires start + offset + |scratch| <= |view| && offset + |scratch| <= |data|
    requires scratch == Slice(view, start + offset, |scratch|)
    requires offset <= from && from + equal <= offset + |scratch|
    requires forall x :: from <= x < from + equal ==> scratch[0 - offset + x] == data[x]
    ensures forall x :: from <= x < from + equal ==> view[start + x] == data[x]
    ensures forall y :: 0 <= y < |scratch| ==> scratch[y] == view[start + offset + y]
  {
  }

  /** Compare one scratch read with the payload, forwards. */
  method MatchForward(scratch: seq<byte>, start: nat, data: seq<byte>, prefix: nat, ghost view: seq<byte>)
    returns (equal: nat)
    requires prefix + |scratch| <= |data| && start + prefix + |scratch| <= |view|
    requires scratch == Slice(view, start + prefix, |scratch|)
    ensures equal <= |scratch| && (forall x :: prefix <= x < prefix + equal ==> view[start + x] == data[x])
    ensures equal < |scratch| ==> view[start + prefix + equal] != data[prefix + equal]
  {
    equal := CommonPrefix(scratch, 0 - prefix, data, prefix, |scratch|);
    ScratchAgrees(view, start, data, prefix, scratch, prefix, equal);
  }

  method MatchBackward(scratch: seq<byte>, start: nat, data: seq<byte>, from: nat, ghost view: seq<byte>)
    returns (equal: nat)
    requires |scratch| <= from <= |data| && start + from <= |view|
    requires scratch == Slice(view, start + (from - |scratch|), |scratch|)
    ensures equal <= |scratch| && (forall x :: from - equal <= x < from ==> view[start + x] == data[x])
    ensures equal < |scratch| ==> view[start + from - equal - 1] != data[from - equal - 1]
  {
    var offset := from - |scratch|;
    equal := CommonSuffix(scratch, 0 - offset, data, from, |scratch|);
    ScratchAgrees(view, start, data, offset, scratch, from - equal, equal);
    assert equal < |scratch| ==> scratch[|scratch| - equal - 1] == view[start + offset + (|scratch| - equal - 1)];
  }

  /** Buffers small enough to address and revisions that fit their word. */
  ghost predicate Sane(shadows: seq<BufferShadow>) {
    forall s :: 0 <= s < |shadows| ==> |Contents(shadows[s])| <= MAX_WORD && shadows[s].revision <= MAX_WORD
  }

  /** A disjoint piece of a pending payload handed to the uploader. */
  datatype BufferOverlay = BufferOverlay(range: Range, bytes: seq<byte>)

  datatype BufferSource =
    | Contiguous(bytes: seq<byte>)
    | Sparse(base: Option<seq<byte>>, overlays: seq<BufferOverlay>, len: nat)

  /** What an upload of byte `i` reads: the overlay holding it, else the zero-extended base. */
  function SourceByte(source: BufferSource, i: nat): byte {
    match source
    case Contiguous(bytes) => ByteAt(bytes, i)
    case Sparse(base, overlays, _) => OverlayByte(base, overlays, i)
  }

  function OverlayByte(base: Option<seq<byte>>, overlays: seq<BufferOverlay>, i: nat): byte {
    if overlays == [] then (match base case None => 0 case Some(bytes) => ByteAt(bytes, i))
    else if overlays[0].range.start <= i < overlays[0].range.end
    then
      (if i - overlays[0].range.start < |overlays[0].bytes| then overlays[0].bytes[i - overlays[0].range.start]
       else 0)
    else OverlayByte(base, overlays[1..], i)
  }

  function SourceLength(source: BufferSource): nat {
    match source case Contiguous(bytes) => |bytes| case Sparse(_, _, len) => len
  }

  /** Overlays cut from the index show, byte by byte, what the index resolves to. */
  lemma {:induction false} OverlaysResolve(
    shadow: BufferShadow, plan: Plan, slot: nat, ranges: seq<Segment>, overlays: seq<BufferOverlay>, i: nat)
    requires |overlays| == |ranges|
    requires forall k :: 0 <= k < |ranges| ==>
      ranges[k].write < |plan.writes| && plan.writes[ranges[k].write].Valid()
        && plan.writes[ranges[k].write].slot == slot
      && plan.writes[ranges[k].write].start <= ranges[k].start <= ranges[k].end <= plan.writes[ranges[k].write].End()
      && overlays[k] == CutOverlay(plan, ranges[k])
    ensures OverlayByte(shadow.bytes, overlays, i) == Resolved(Contents(shadow), plan.writes, slot, Owner(ranges, i), i)
  {
    if ranges != [] {
      OverlaysResolve(shadow, plan, slot, ranges[1..], overlays[1..], i);
    }
  }

  function CutOverlay(plan: Plan, s: Segment): BufferOverlay
    requires s.write < |plan.writes|
      && plan.writes[s.write].lo <= plan.writes[s.write].hi <= |plan.writes[s.write].data|
    requires plan.writes[s.write].start <= s.start <= s.end
    requires s.end <= plan.writes[s.write].start + (plan.writes[s.write].hi - plan.writes[s.write].lo)
  {
    var write := plan.writes[s.write];
    BufferOverlay(Range(s.start, s.end), write.data[write.lo..write.hi][s.start - write.start..s.end - write.start])
  }

  /** `BufferShadow::merged_upload`. */
  function MergedUpload(shadow: BufferShadow, update: BufferUpdate): BufferUpdate {
    if shadow.upload.Some? && update.previousRevision == shadow.revision
      && shadow.upload.value.previousRevision < shadow.revision
    then MergePrevious(update, shadow.upload.value)
    else update
  }

  /** The accepted shadows: pending contents, the next revision and the merged delta. */
  ghost function Published(shadows: seq<BufferShadow>, plan: Plan): (r: seq<BufferShadow>)
    ensures |r| == |shadows|
  {
    seq(|shadows|, (s: int) requires 0 <= s < |shadows| =>
      match Lookup(plan.updates, s)
      case None => shadows[s]
      case Some(u) =>
        BufferShadow(Some(View(shadows[s], plan, s)), u.revision, Some(MergedUpload(shadows[s], u.upload))))
  }

  class BufferOnlyPlan {
    var updates: seq<BufferRangeUpdate>
    var writes: seq<BufferRangeWrite>

    function State(): Plan
      reads this
    {
      Plan(updates, writes)
    }

    constructor ()
      ensures State() == Plan([], [])
    {
      updates := [];
      writes := [];
    }

    /** Fill from the accepted shadow, then overlay the intersecting segments. */
    method ReadRange(shadows: seq<BufferShadow>, slot: nat, start: nat, count: nat) returns (bytes: seq<byte>)
      requires Built(shadows, State()) && slot < |shadows|
      ensures bytes == Slice(View(shadows[slot], State(), slot), start, count)
    {
      ghost var target := Slice(View(shadows[slot], State(), slot), start, count);
      bytes := Slice(Contents(shadows[slot]), start, count);
      forall j | 0 <= j < count ensures target[j] == Pending(shadows[slot], State(), slot, start + j) {
        PendingIsView(shadows, State(), slot, start + j);
      }
      if Lookup(updates, slot).Some? && 0 < count {
        bytes := Overlay(shadows, slot, start, bytes, target);
      }
    }

    method Overlay(shadows: seq<BufferShadow>, slot: nat, start: nat, base: seq<byte>, ghost target: seq<byte>)
      returns (bytes: seq<byte>)
      requires Built(shadows, State()) && slot < |shadows| && Lookup(updates, slot).Some?
      requires base != [] && |target| == |base|
      requires base == Slice(Contents(shadows[slot]), start, |base|)
      requires forall j :: 0 <= j < |base| ==> target[j] == Pending(shadows[slot], State(), slot, start + j)
      ensures bytes == target
    {
      var ranges := Lookup(updates, slot).value.ranges;
      IndexBuilt(shadows, State(), slot);
      var first, last := QueryRange(ranges, start, start + |base|);
      OverlayNone(ranges, start, base, target, first);
      bytes := OverlaySegments(shadows, slot, start, base, target, first, last);
      OverlayAll(ranges, start, base, target, last, bytes, Contents(shadows[slot]));
    }

    method OverlaySegments(
      shadows: seq<BufferShadow>, slot: nat, start: nat, base: seq<byte>, ghost target: seq<byte>, first: nat,
      last: nat)
      returns (bytes: seq<byte>)
      requires Built(shadows, State()) && slot < |shadows| && Lookup(updates, slot).Some?
      requires first <= last <= |IndexOf(State(), slot)|
      requires Overlaid(IndexOf(State(), slot), start, base, target, first, base)
      requires forall k :: first <= k < last ==>
        start < IndexOf(State(), slot)[k].end && IndexOf(State(), slot)[k].start < start + |base|
      requires forall j :: 0 <= j < |target| ==> target[j] == Pending(shadows[slot], State(), slot, start + j)
      ensures Overlaid(IndexOf(State(), slot), start, base, target, last, bytes)
    {
      bytes := base;
      var s := first;
      while s < last
        invariant first <= s <= last && Overlaid(IndexOf(State(), slot), start, base, target, s, bytes)
      {
        bytes := OverlaySegment(shadows, slot, start, base, target, s, bytes);
        s := s + 1;
      }
    }

    method OverlaySegment(
      shadows: seq<BufferShadow>, slot: nat, start: nat, ghost base: seq<byte>, ghost target: seq<byte>, s: nat,
      bytes: seq<byte>)
      returns (next: seq<byte>)
      requires Built(shadows, State()) && slot < |shadows| && Lookup(updates, slot).Some?
      requires s < |IndexOf(State(), slot)| && Overlaid(IndexOf(State(), slot), start, base, target, s, bytes)
      requires start < IndexOf(State(), slot)[s].end && IndexOf(State(), slot)[s].start < start + |bytes|
      requires forall j :: 0 <= j < |target| ==> target[j] == Pending(shadows[slot], State(), slot, start + j)
      ensures Overlaid(IndexOf(State(), slot), start, base, target, s + 1, next)
    {
      var segment := Lookup(updates, slot).value.ranges[s];
      SegmentInsideWrite(shadows, State(), slot, s);
      var write := writes[segment.write];
      var lo, hi := Max(start, segment.start), Min(start + |bytes|, segment.end);
      var source := write.Bytes()[lo - write.start..hi - write.start];
      PieceShows(shadows[slot], State(), slot, s, start, target, lo, hi, source);
      OverlayOne(IndexOf(State(), slot), start, base, target, s, bytes, source);
      next := CopyInto(bytes, lo - start, source);
    }

    /** The change a write would make to the pending contents, scanned in 256-byte reads. */
    method ChangedRange(shadows: seq<BufferShadow>, slot: nat, start: nat, data: seq<byte>)
      returns (changed: Result<Option<Range>, PlanError>)
      requires Built(shadows, State()) && Sane(shadows)
      ensures changed.Ok? <==> start + |data| <= MAX_WORD && slot < |shadows|
      ensures changed.Err? ==> changed.error == InvalidVertexData
      ensures changed.Ok? ==> TightChange(View(shadows[slot], State(), slot), start, data, changed.value)
    {
      if start + |data| > MAX_WORD || slot >= |shadows| {
        return Err(InvalidVertexData);
      }
      if Lookup(updates, slot).None? {
        var diff := ChangedBufferBytes(shadows[slot].bytes, start, data);
        assert View(shadows[slot], State(), slot) == Contents(shadows[slot]);
        return Ok(Nonempty(diff.value));
      }
      var range := ChangedPending(shadows, slot, start, data,
        Lookup(updates, slot).value.length, View(shadows[slot], State(), slot));
      return Ok(range);
    }

    method ChangedPending(
      shadows: seq<BufferShadow>, slot: nat, start: nat, data: seq<byte>, length: nat, ghost view: seq<byte>)
      returns (changed: Option<Range>)
      requires Built(shadows, State()) && slot < |shadows| && view == View(shadows[slot], State(), slot)
      requires length == |view|
      ensures TightChange(view, start, data, changed)
    {
      var end := start + |data|;
      var overlap := Min(Max(length - start, 0), |data|);
      var prefix := PendingPrefix(shadows, slot, start, data, overlap, view);
      if prefix == |data| && end <= length {
        DiffIsTight(view, start, data, prefix, 0);
        return None;
      }
      var from := |data|;
      if end <= length {
        from := PendingSuffix(shadows, slot, start, data, prefix, view);
      }
      DiffIsTight(view, start, data, prefix, |data| - from);
      return Some(Range(Min(start + prefix, length), start + from));
    }

    method PendingPrefix(
      shadows: seq<BufferShadow>, slot: nat, start: nat, data: seq<byte>, overlap: nat, ghost view: seq<byte>)
      returns (prefix: nat)
      requires Built(shadows, State()) && slot < |shadows| && view == View(shadows[slot], State(), slot)
      requires overlap <= |data| && (0 < overlap ==> start + overlap <= |view|)
      ensures prefix <= overlap && (forall x :: 0 <= x < prefix ==> view[start + x] == data[x])
      ensures prefix < overlap ==> view[start + prefix] != data[prefix]
    {
      prefix := 0;
      while prefix < overlap
        invariant prefix <= overlap
        invariant forall x :: 0 <= x < prefix ==> view[start + x] == data[x]
      {
        var count := Min(256, overlap - prefix);
        var scratch := ReadRange(shadows, slot, start + prefix, count);
        var equal := MatchForward(scratch, start, data, prefix, view);
        prefix := prefix + equal;
        if equal != count {
          return;
        }
      }
    }

    /** Backwards from the end of the write; `from` is where the agreeing suffix starts. */
    method PendingSuffix(
      shadows: seq<BufferShadow>, slot: nat, start: nat, data: seq<byte>, prefix: nat, ghost view: seq<byte>)
      returns (from: nat)
      requires Built(shadows, State()) && slot < |shadows| && view == View(shadows[slot], State(), slot)
      requires prefix <= |data| && start + |data| <= |view|
      ensures prefix <= from <= |data|
      ensures forall x :: from <= x < |data| ==> view[start + x] == data[x]
      ensures prefix < from ==> view[start + from - 1] != data[from - 1]
    {
      from := |data|;
      while prefix < from
        invariant prefix <= from <= |data|
        invariant forall x :: from <= x < |data| ==> view[start + x] == data[x]
      {
        var count := Min(256, from - prefix);
        var scratch := ReadRange(shadows, slot, start + (from - count), count);
        var equal := MatchBackward(scratch, start, data, from, view);
        from := from - equal;
        if equal != count {
          return;
        }
      }
    }

    /** Stage a write: a no-op leaves the plan alone, anything else is trimmed, indexed and logged. */
    method Write(shadows: seq<BufferShadow>, slot: nat, start: nat, data: seq<byte>)
      returns (result: Result<(), PlanError>)
      requires Built(shadows, State()) && Sane(shadows)
      modifies this
      ensures Built(shadows, State())
      ensures result.Err? ==> State() == old(State())
      ensures result.Ok? ==> slot < |shadows| && start + |data| <= MAX_WORD
      ensures result.Ok? ==>
        View(shadows[slot], State(), slot) == Overwrite(View(shadows[slot], old(State()), slot), start, data)
      ensures forall s :: 0 <= s < |shadows| && s != slot ==>
        View(shadows[s], State(), s) == View(shadows[s], old(State()), s)
      ensures forall s :: 0 <= s < |shadows| && s != slot ==> Lookup(updates, s) == Lookup(old(updates), s)
      ensures slot < |shadows| && View(shadows[slot], State(), slot) == View(shadows[slot], old(State()), slot)
        ==> State() == old(State())
      ensures slot < |shadows| && start + |data| <= MAX_WORD && shadows[slot].revision < MAX_WORD ==> result.Ok?
    {
      var changed := ChangedRange(shadows, slot, start, data);
      if changed.Err? {
        return Err(changed.error);
      }
      if changed.value.None? {
        return Ok(());
      }
      var r := changed.value.value;
      ghost var before := State();
      ghost var view := View(shadows[slot], before, slot);
      TightBounds(view, start, data, r);
      TightChangeUnique(view, start, data, Some(r), Some(r));
      var found := Lookup(updates, slot);
      if found.None? && shadows[slot].revision + 1 > MAX_WORD {
        return Err(OutOfMemory);
      }
      IndexBuilt(shadows, before, slot);
      var ranges := Insert(IndexOf(State(), slot), Max(start, r.start), r.end, |writes|);
      WrittenBuilt(shadows, before, slot, start, data, r, ranges);
      WrittenView(shadows, before, slot, start, data, r, ranges);
      forall s | 0 <= s < |shadows| && s != slot {
        WrittenElsewhere(shadows, before, slot, start, data, r, ranges, s);
      }
      updates := Put(updates, WrittenUpdate(shadows[slot], State(), slot, start + |data|, r, ranges));
      writes := writes + [Trimmed(slot, start, data, r)];
      assert State() == Written(shadows[slot], before, slot, start, data, r, ranges);
      return Ok(());
    }

    /** Snapshot the source range, earlier pending writes included, then stage it as a write. */
    method Copy(shadows: seq<BufferShadow>, source: nat, sourceStart: nat, destination: nat, start: nat, size: nat)
      returns (result: Result<(), PlanError>)
      requires Built(shadows, State()) && Sane(shadows) && source < |shadows|
      modifies this
      ensures Built(shadows, State())
      ensures result.Err? ==> State() == old(State())
      ensures result.Ok? ==> destination < |shadows| && start + size <= MAX_WORD && sourceStart + size <= MAX_WORD
      ensures result.Ok? ==>
        View(shadows[destination], State(), destination)
        == Overwrite(View(shadows[destination], old(State()), destination), start,
             Slice(View(shadows[source], old(State()), source), sourceStart, size))
      ensures forall s :: 0 <= s < |shadows| && s != destination ==>
        View(shadows[s], State(), s) == View(shadows[s], old(State()), s)
      ensures forall s :: 0 <= s < |shadows| && s != destination ==> Lookup(updates, s) == Lookup(old(updates), s)
      ensures destination < |shadows| && start + size <= MAX_WORD ==>
        sourceStart + size <= MAX_WORD && shadows[destination].revision < MAX_WORD ==> result.Ok?
    {
      if sourceStart + size > MAX_WORD {
        return Err(Overflow);
      }
      var bytes := ReadRange(shadows, source, sourceStart, size);
      result := Write(shadows, destination, start, bytes);
    }

    /** The bytes to upload: the shadow itself, or the shadow under the pending overlays. */
    method Source(shadows: seq<BufferShadow>, slot: nat) returns (source: Result<BufferSource, PlanError>)
      requires Built(shadows, State()) && slot < |shadows|
      ensures source.Err? <==> shadows[slot].bytes.None? && |View(shadows[slot], State(), slot)| == 0
      ensures source.Ok? ==>
        var view := View(shadows[slot], State(), slot);
        && SourceLength(source.value) == |view|
        && forall i :: 0 <= i < |view| ==> SourceByte(source.value, i) == view[i]
    {
      var shadow := shadows[slot];
      ghost var view := View(shadow, State(), slot);
      var length := Length(shadow, State(), slot);
      var ranges := IndexOf(State(), slot);
      forall j | 0 <= j < |ranges|
        ensures ranges[j].write < |writes| && writes[ranges[j].write].Valid() && writes[ranges[j].write].slot == slot
        ensures writes[ranges[j].write].start <= ranges[j].start <= ranges[j].end <= writes[ranges[j].write].End()
      {
        SegmentInsideWrite(shadows, State(), slot, j);
      }
      var overlays := [];
      var k := 0;
      while k < |ranges|
        invariant 0 <= k <= |ranges| && |overlays| == k
        invariant forall j :: 0 <= j < |ranges| ==>
          ranges[j].write < |writes| && writes[ranges[j].write].Valid() && writes[ranges[j].write].slot == slot
          && writes[ranges[j].write].start <= ranges[j].start <= ranges[j].end <= writes[ranges[j].write].End()
        invariant forall j :: 0 <= j < k ==> overlays[j] == CutOverlay(State(), ranges[j])
      {
        overlays := overlays + [CutOverlay(State(), ranges[k])];
        k := k + 1;
      }
      forall i: nat { OverlaysResolve(shadow, State(), slot, ranges, overlays, i); }
      if overlays == [] && length == |Contents(shadow)| {
        if shadow.bytes.None? {
          return Err(InvalidVertexData);
        }
        return Ok(Contiguous(shadow.bytes.value));
      }
      return Ok(Sparse(shadow.bytes, overlays, length));
    }
  }
}
