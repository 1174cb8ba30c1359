/**
 The pending side of one render stream: the sparse plan, the canonical
 validations made against it and the index-bounds cache over it. Every accepted
 write or copy discards both proofs of its destination, so a later draw never
 relies on a fact about bytes that are gone.
 */
module PendingBuffers {
  import opened Common
  import opened BufferPlan
  import opened BufferStream
  import IB = IndexBounds
  import IC = IndexCache
  import opened Submissions

  datatype BufferUsage = BufferUsage(size: nat, copySrc: bool, copyDst: bool, vertex: bool)

  /** What a write must satisfy to be staged. */
  predicate WriteRuns(table: seq<BufferUsage>, buffer: nat, offset: nat, length: nat) {
    && buffer < |table| && table[buffer].copyDst
    && offset + length <= MAX_WORD && offset + length <= table[buffer].size
  }

  /** What a copy must satisfy; its destination was checked when it was recorded. */
  predicate CopyRuns(
    table: seq<BufferUsage>, slots: nat, source: nat, sourceOffset: nat, destination: nat, destinationOffset: nat,
    size: nat)
  {
    && source < |table| && table[source].copySrc
    && sourceOffset + size <= MAX_WORD && sourceOffset + size <= table[source].size
    && destination < slots && destinationOffset + size <= MAX_WORD
  }

  /** No revision is about to leave its word. */
  predicate RevisionsLeft(shadows: seq<BufferShadow>) {
    forall s :: 0 <= s < |shadows| ==> shadows[s].revision < MAX_WORD
  }

  /** What a reachable tag proves about the accepted contents. */
  ghost predicate TagSound(floats: Floats, shadow: BufferShadow, tag: Option<nat>) {
    tag.Some? ==> tag.value <= shadow.revision && (tag.value == shadow.revision ==> Canonical(floats, Contents(shadow)))
  }

  class PendingBuffers {
    const plan: BufferOnlyPlan
    const index: IC.IndexBoundsCache
    var validations: seq<(nat, nat)>

    constructor (shadows: seq<BufferShadow>, hash: IC.IndexBoundsKey -> nat, canAllocate: bool)
      ensures fresh(plan) && fresh(index) && plan.State() == Plan([], [])
      ensures forall floats :: Valid(floats, shadows)
    {
      plan := new BufferOnlyPlan();
      index := new IC.IndexBoundsCache(hash, canAllocate);
      validations := [];
    }

    /** The plan is built, the cache describes its views and so do the validations. */
    ghost predicate Valid(floats: Floats, shadows: seq<BufferShadow>)
      reads this, plan, index
    {
      && Built(shadows, plan.State())
      && index.Valid() && index.Sound(AllViews(shadows, plan.State()))
      && forall k :: 0 <= k < |validations| ==>
           ValidationSound(floats, shadows, plan.State(), validations[k].0, validations[k].1)
    }

    /** Forget the slot's validations and index bounds. */
    method InvalidateCanonicalValidation(
      slot: nat, ghost floats: Floats, ghost shadows: seq<BufferShadow>, ghost before: Plan)
      requires Built(shadows, plan.State()) && Built(shadows, before) && slot < |shadows|
      requires index.Valid() && index.Sound(AllViews(shadows, before))
      requires forall s :: 0 <= s < |shadows| && s != slot ==>
        View(shadows[s], plan.State(), s) == View(shadows[s], before, s)
        && Lookup(plan.updates, s) == Lookup(before.updates, s)
      requires forall k :: 0 <= k < |validations| ==>
        ValidationSound(floats, shadows, before, validations[k].0, validations[k].1)
      modifies this`validations, index
      ensures Valid(floats, shadows)
      ensures forall k :: 0 <= k < |validations| ==> validations[k].0 != slot
    {
      var kept: seq<(nat, nat)> := [];
      var k := 0;
      while k < |validations|
        invariant 0 <= k <= |validations|
        invariant forall j :: 0 <= j < |kept| ==> kept[j].0 != slot
        invariant forall j :: 0 <= j < |kept| ==>
          ValidationSound(floats, shadows, plan.State(), kept[j].0, kept[j].1)
      {
        if validations[k].0 != slot {
          kept := kept + [validations[k]];
        }
        k := k + 1;
      }
      validations := kept;
      index.Invalidate(slot, AllViews(shadows, before), AllViews(shadows, plan.State()));
    }

    method Write(
      ghost floats: Floats, table: seq<BufferUsage>, shadows: seq<BufferShadow>, buffer: nat, offset: nat,
      data: seq<byte>)
      returns (result: Result<(), PlanError>)
      requires Valid(floats, shadows) && Sane(shadows) && |table| <= |shadows|
      modifies this`validations, plan, index
      ensures Valid(floats, shadows)
      ensures result.Ok? ==>
        buffer < |shadows|
        && AllViews(shadows, plan.State())
           == NaiveStep(AllViews(shadows, old(plan.State())), WriteBuffer(buffer, offset, data))
      ensures result.Ok? ==> forall k :: 0 <= k < |validations| ==> validations[k].0 != buffer
      ensures RevisionsLeft(shadows) ==> (result.Ok? <==> WriteRuns(table, buffer, offset, |data|))
      ensures result.Err? ==> plan.State() == old(plan.State()) && validations == old(validations)
    {
      if buffer >= |table| {
        return Err(InvalidReference);
      }
      if !table[buffer].copyDst {
        return Err(InvalidUsage);
      }
      if offset + |data| > MAX_WORD || offset + |data| > table[buffer].size {
        return Err(InvalidVertexData);
      }
      ghost var before := plan.State();
      result := plan.Write(shadows, buffer, offset, data);
      if result.Err? {
        return;
      }
      InvalidateCanonicalValidation(buffer, floats, shadows, before);
    }

    /** The destination was checked when the stream was recorded and is not checked again. */
    method Copy(
      ghost floats: Floats, table: seq<BufferUsage>, shadows: seq<BufferShadow>,
      source: nat, sourceOffset: nat, destination: nat, destinationOffset: nat, size: nat)
      returns (result: Result<(), PlanError>)
      requires Valid(floats, shadows) && Sane(shadows) && |table| <= |shadows|
      modifies this`validations, plan, index
      ensures Valid(floats, shadows)
      ensures result.Ok? ==>
        source < |shadows| && destination < |shadows|
        && AllViews(shadows, plan.State())
           == NaiveStep(AllViews(shadows, old(plan.State())),
                CopyBufferToBuffer(source, sourceOffset, destination, destinationOffset, size))
      ensures result.Ok? ==> forall k :: 0 <= k < |validations| ==> validations[k].0 != destination
      ensures RevisionsLeft(shadows) ==>
        (result.Ok? <==> CopyRuns(table, |shadows|, source, sourceOffset, destination, destinationOffset, size))
      ensures result.Err? ==> plan.State() == old(plan.State()) && validations == old(validations)
    {
      if source >= |table| {
        return Err(InvalidReference);
      }
      if !table[source].copySrc {
        return Err(InvalidUsage);
      }
      if sourceOffset + size > MAX_WORD {
        return Err(Overflow);
      }
      if sourceOffset + size > table[source].size {
        return Err(OutOfBounds);
      }
      ghost var before := plan.State();
      result := plan.Copy(shadows, source, sourceOffset, destination, destinationOffset, size);
      if result.Err? {
        return;
      }
      InvalidateCanonicalValidation(destination, floats, shadows, before);
    }

    /** A bounds-checked pending read. */
    method Range(ghost floats: Floats, shadows: seq<BufferShadow>, slot: nat, start: nat, end: nat)
      returns (bytes: Result<seq<byte>, PlanError>)
      requires Valid(floats, shadows) && slot < |shadows|
      ensures var view := View(shadows[slot], plan.State(), slot);
        bytes == if start <= end <= |view| then Ok(view[start..end]) else Err(InvalidVertexData)
    {
      var length := Length(shadows[slot], plan.State(), slot);
      if start > end || end > length {
        return Err(InvalidVertexData);
      }
      var read := plan.ReadRange(shadows, slot, start, end - start);
      assert read == View(shadows[slot], plan.State(), slot)[start..end];
      return Ok(read);
    }

    /** Check every 40-byte record of the pending view. */
    method ValidateCanonical(floats: Floats, shadows: seq<BufferShadow>, slot: nat)
      returns (result: Result<(), PlanError>)
      requires Valid(floats, shadows) && slot < |shadows|
      ensures result.Ok? <==> Canonical(floats, View(shadows[slot], plan.State(), slot))
    {
      ghost var view := View(shadows[slot], plan.State(), slot);
      var length := Length(shadows[slot], plan.State(), slot);
      if length == 0 || length % 40 != 0 {
        return Err(InvalidVertexData);
      }
      var k := 0;
      while k < length / 40
        invariant 0 <= k <= length / 40
        invariant forall j: nat :: j < k ==> ValidRecord(floats, view[j * 40..j * 40 + 40])
      {
        var record := plan.ReadRange(shadows, slot, k * 40, 40);
        assert record == view[k * 40..k * 40 + 40];
        if !ValidRecord(floats, record) {
          return Err(InvalidVertexData);
        }
        k := k + 1;
      }
      return Ok(());
    }

    /**
     The validation a persistent draw needs: skipped on a matching accepted tag
     or an earlier check in this stream, made and remembered otherwise. Success
     means every record of the pending view is valid, skipped or not.
     */
    method EnsureCanonical(floats: Floats, shadows: seq<BufferShadow>, slot: nat, tag: Option<nat>)
      returns (result: Result<(), PlanError>)
      requires Valid(floats, shadows) && slot < |shadows| && TagSound(floats, shadows[slot], tag)
      modifies this`validations
      ensures Valid(floats, shadows)
      ensures result.Ok? <==> Canonical(floats, View(shadows[slot], plan.State(), slot))
      ensures result.Ok? ==>
        tag == Some(PendingRevision(shadows[slot], plan.State(), slot))
        || (slot, PendingRevision(shadows[slot], plan.State(), slot)) in validations
      ensures result.Err? ==> validations == old(validations)
    {
      var revision := PendingRevision(shadows[slot], plan.State(), slot);
      var needed := tag != Some(revision) && (slot, revision) !in validations;
      if needed {
        var checked := ValidateCanonical(floats, shadows, slot);
        if checked.Err? {
          return checked;
        }
        validations := validations + [(slot, revision)];
      } else if tag == Some(revision) {
        assert Lookup(plan.updates, slot).Some? ==>
          UpdateBuilt(shadows[slot], plan.State(), Lookup(plan.updates, slot).value);
        assert View(shadows[slot], plan.State(), slot) == Contents(shadows[slot]);
      }
      return Ok(());
    }

    /** The largest vertex an indexed draw reaches, from the cache or a fresh scan. */
    method CachedIndexMaximum(
      ghost floats: Floats, shadows: seq<BufferShadow>, slot: nat, start: nat, end: nat, format: IB.IndexFormat,
      baseVertex: int)
      returns (maximum: Result<nat, PlanError>)
      requires Valid(floats, shadows) && slot < |shadows|
      modifies index
      ensures Valid(floats, shadows)
      ensures var view := View(shadows[slot], plan.State(), slot);
        maximum ==
          if !(start <= end <= |view|) then Err(InvalidVertexData)
          else match IB.MaximumWithBase(IB.Scan(view[start..end], format), baseVertex)
            case None => Err(OutOfBounds)
            case Some(m) => Ok(m)
    {
      var length := Length(shadows[slot], plan.State(), slot);
      if start > end || end > length {
        return Err(InvalidVertexData);
      }
      var key := IC.IndexBoundsKey(slot, PendingRevision(shadows[slot], plan.State(), slot), start, end, format);
      var bounds := index.Lookup(key, AllViews(shadows, plan.State()));
      var result := IB.MaximumWithBase(bounds, baseVertex);
      return if result.None? then Err(OutOfBounds) else Ok(result.value);
    }
  }
}
