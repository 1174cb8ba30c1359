/**
 Staged buffers mirror the resources they were taken from: a planned event does
 to the plan what its effect does to the resources, and to no other resource.
 */
module ComputeMirror {
  import opened Common
  import opened Compute

  /** Plan buffer `i` holds resource `slots[i]`, each slot once. */
  predicate Mirrors(slots: seq<nat>, buffers: seq<seq<byte>>, memory: seq<seq<byte>>) {
    && |slots| == |buffers|
    && (forall i :: 0 <= i < |slots| ==> slots[i] < |memory| && memory[slots[i]] == buffers[i])
    && (forall i, j :: 0 <= i < j < |slots| ==> slots[i] != slots[j])
  }

  function Renamed(slots: seq<nat>, ids: seq<nat>): (r: seq<nat>)
    requires forall k :: 0 <= k < |ids| ==> ids[k] < |slots|
    ensures |r| == |ids|
  {
    seq(|ids|, k requires 0 <= k < |ids| => slots[ids[k]])
  }

  predicate Injective(slots: seq<nat>) { forall i, j :: 0 <= i < j < |slots| ==> slots[i] != slots[j] }

  lemma {:induction false} DistinctRenamed(slots: seq<nat>, ids: seq<nat>)
    requires Injective(slots) && forall k :: 0 <= k < |ids| ==> ids[k] < |slots|
    ensures forall k :: 0 <= k < |Distinct(ids)| ==> Distinct(ids)[k] < |slots|
    ensures Distinct(Renamed(slots, ids)) == Renamed(slots, Distinct(ids))
  {
    forall k | 0 <= k < |Distinct(ids)| ensures Distinct(ids)[k] < |slots| {
      assert Distinct(ids)[k] in ids;
    }
    if ids != [] {
      var n := |ids| - 1;
      DistinctRenamed(slots, ids[..n]);
      assert Renamed(slots, ids)[..n] == Renamed(slots, ids[..n]);
      RenamedMember(slots, Distinct(ids[..n]), ids[n]);
    }
  }

  lemma RenamedMember(slots: seq<nat>, ids: seq<nat>, id: nat)
    requires Injective(slots) && id < |slots| && forall k :: 0 <= k < |ids| ==> ids[k] < |slots|
    ensures slots[id] in Renamed(slots, ids) <==> id in ids
  {
    if slots[id] in Renamed(slots, ids) {
      var k :| 0 <= k < |ids| && Renamed(slots, ids)[k] == slots[id];
      assert ids[k] == id;
    }
    if id in ids {
      var k :| 0 <= k < |ids| && ids[k] == id;
      assert Renamed(slots, ids)[k] == slots[id];
    }
  }

  lemma {:induction false} IndexRenamed(slots: seq<nat>, ids: seq<nat>, id: nat)
    requires Injective(slots) && id < |slots| && forall k :: 0 <= k < |ids| ==> ids[k] < |slots|
    ensures IndexIn(Renamed(slots, ids), slots[id]) == IndexIn(ids, id)
  {
    if ids != [] {
      assert Renamed(slots, ids)[1..] == Renamed(slots, ids[1..]);
      IndexRenamed(slots, ids[1..], id);
    }
  }

  lemma {:induction false} FillMatches(
    slots: seq<nat>, buffers: seq<seq<byte>>, memory: seq<seq<byte>>, bank: seq<nat>,
    uniforms: seq<Uniform>, bindings: seq<UniformBinding>, bounds: seq<Bound>)
    requires Mirrors(slots, buffers, memory) && |uniforms| == |bindings| == |bounds|
    requires forall k :: 0 <= k < |uniforms| ==> UniformMatches(slots, buffers, uniforms[k], bindings[k], bounds[k])
    requires forall k :: 0 <= k < |bounds| ==> bounds[k].slot < |memory|
    ensures forall k :: 0 <= k < |uniforms| ==> uniforms[k].buffer < |buffers|
    ensures Fill(bank, uniforms, buffers) == PutUniforms(bank, bindings, bounds, memory)
  {
    if uniforms != [] {
      var n := |uniforms| - 1;
      FillMatches(slots, buffers, memory, bank, uniforms[..n], bindings[..n], bounds[..n]);
      assert UniformMatches(slots, buffers, uniforms[n], bindings[n], bounds[n]);
    }
  }

  lemma GatherRenamed(slots: seq<nat>, buffers: seq<seq<byte>>, memory: seq<seq<byte>>, ids: seq<nat>)
    requires Mirrors(slots, buffers, memory) && forall k :: 0 <= k < |ids| ==> ids[k] < |slots|
    ensures forall k :: 0 <= k < |ids| ==> Renamed(slots, ids)[k] < |memory|
    ensures Gather(memory, Renamed(slots, ids)) == Gather(buffers, ids)
  {
  }

  lemma AliasesRenamed(slots: seq<nat>, storages: seq<StorageBinding>, ids: seq<nat>)
    requires Injective(slots) && |storages| == |ids| && forall k :: 0 <= k < |ids| ==> ids[k] < |slots|
    ensures Aliases(storages, Renamed(slots, ids)) == Aliases(storages, ids)
  {
    DistinctRenamed(slots, ids);
    forall k | 0 <= k < |ids|
      ensures IndexIn(Distinct(Renamed(slots, ids)), slots[ids[k]]) == IndexIn(Distinct(ids), ids[k])
    {
      IndexRenamed(slots, Distinct(ids), ids[k]);
    }
  }

  lemma WritableRenamed(slots: seq<nat>, storages: seq<StorageBinding>, ids: seq<nat>, id: nat)
    requires Injective(slots) && |storages| == |ids| && id < |slots| && forall k :: 0 <= k < |ids| ==> ids[k] < |slots|
    ensures WritableId(storages, Renamed(slots, ids), slots[id]) <==> WritableId(storages, ids, id)
  {
    if WritableId(storages, Renamed(slots, ids), slots[id]) {
      var k :| 0 <= k < |ids| && Renamed(slots, ids)[k] == slots[id] && storages[k].writable;
      assert ids[k] == id;
    }
    if WritableId(storages, ids, id) {
      var k :| 0 <= k < |ids| && ids[k] == id && storages[k].writable;
      assert Renamed(slots, ids)[k] == slots[id];
    }
  }

  /** A launch does to the staged buffers what it does to the resources they mirror, and to no other. */
  lemma LaunchMirrors(
    kernel: Kernel, slots: seq<nat>, buffers: seq<seq<byte>>, memory: seq<seq<byte>>, shader: Shader, bank: seq<nat>,
    ids: seq<nat>, groups: (nat, nat, nat))
    requires Mirrors(slots, buffers, memory) && |ids| == |shader.storages|
    requires forall k :: 0 <= k < |ids| ==> ids[k] < |slots|
    ensures forall k :: 0 <= k < |ids| ==> Renamed(slots, ids)[k] < |memory|
    ensures Mirrors(slots, Launch(kernel, buffers, shader, bank, ids, groups),
      Launch(kernel, memory, shader, bank, Renamed(slots, ids), groups))
    ensures forall s :: 0 <= s < |memory| && s !in slots ==>
      Launch(kernel, memory, shader, bank, Renamed(slots, ids), groups)[s] == memory[s]
  {
    assert Injective(slots);
    DistinctRenamed(slots, ids);
    AliasesRenamed(slots, shader.storages, ids);
    GatherRenamed(slots, buffers, memory, Distinct(ids));
    var staged := Launch(kernel, buffers, shader, bank, ids, groups);
    var direct := Launch(kernel, memory, shader, bank, Renamed(slots, ids), groups);
    forall i | 0 <= i < |slots| ensures direct[slots[i]] == staged[i] {
      WritableRenamed(slots, shader.storages, ids, i);
      IndexRenamed(slots, Distinct(ids), i);
    }
    forall s | 0 <= s < |memory| && s !in slots ensures direct[s] == memory[s] {
      assert forall k :: 0 <= k < |ids| ==> Renamed(slots, ids)[k] in slots;
    }
  }

  lemma DispatchMirrors(
    kernel: Kernel, slots: seq<nat>, buffers: seq<seq<byte>>, memory: seq<seq<byte>>, event: Event, effect: Effect)
    requires Mirrors(slots, buffers, memory) && Matches(slots, buffers, event, effect) && event.DispatchEvent?
    ensures EventInRange(buffers, event) && InMemory(memory, effect)
    ensures Mirrors(slots, Perform(kernel, buffers, event), Apply(kernel, memory, effect))
    ensures forall s :: 0 <= s < |memory| && s !in slots ==> Apply(kernel, memory, effect)[s] == memory[s]
  {
    forall k | 0 <= k < |effect.storages|
      ensures effect.storages[k].slot < |memory| && event.bindings[k].buffer < |slots| {
      assert BindingMatches(slots, event.bindings[k], event.shader.storages[k], effect.storages[k]);
    }
    forall k | 0 <= k < |effect.uniforms| ensures effect.uniforms[k].slot < |memory| {
      assert UniformMatches(slots, buffers, event.uniforms[k], event.shader.uniforms[k], effect.uniforms[k]);
    }
    forall k | 0 <= k < |event.uniforms|
      ensures event.uniforms[k].buffer < |buffers|
        && event.uniforms[k].offset + event.uniforms[k].length <= |buffers[event.uniforms[k].buffer]|
    {
      assert UniformMatches(slots, buffers, event.uniforms[k], event.shader.uniforms[k], effect.uniforms[k]);
    }
    FillMatches(slots, buffers, memory, event.constants, event.uniforms, event.shader.uniforms, effect.uniforms);
    assert Bounds(effect.storages) == Renamed(slots, Buffers(event.bindings));
    LaunchMirrors(kernel, slots, buffers, memory, event.shader, Fill(event.constants, event.uniforms, buffers),
      Buffers(event.bindings), event.groups);
  }

  lemma PerformMirrors(
    kernel: Kernel, slots: seq<nat>, buffers: seq<seq<byte>>, memory: seq<seq<byte>>, event: Event, effect: Effect)
    requires Mirrors(slots, buffers, memory) && Matches(slots, buffers, event, effect)
    ensures EventInRange(buffers, event) && InMemory(memory, effect)
    ensures Mirrors(slots, Perform(kernel, buffers, event), Apply(kernel, memory, effect))
    ensures forall s :: 0 <= s < |memory| && s !in slots ==> Apply(kernel, memory, effect)[s] == memory[s]
  {
    match event {
      case WriteEvent(b, offset, data) =>
        assert CopyInto(buffers[b], offset, data) == Overwrite(memory[slots[b]], offset, data);
      case CopyEvent(s, from, d, to, size) =>
        assert buffers[s][from..from + size] == Slice(memory[slots[s]], from, size);
        assert CopyInto(buffers[d], to, buffers[s][from..from + size])
            == Overwrite(memory[slots[d]], to, Slice(memory[slots[s]], from, size));
      case DispatchEvent(_, _, _, _, _) => DispatchMirrors(kernel, slots, buffers, memory, event, effect);
    }
  }

  /** Lengths never change, so an event in range stays in range. */
  lemma MatchesLater(slots: seq<nat>, buffers: seq<seq<byte>>, later: seq<seq<byte>>, event: Event, effect: Effect)
    requires Matches(slots, buffers, event, effect) && |later| == |buffers|
    requires forall b :: 0 <= b < |buffers| ==> |later[b]| == |buffers[b]|
    ensures Matches(slots, later, event, effect)
  {
    if event.DispatchEvent? {
      forall k | 0 <= k < |event.uniforms|
        ensures UniformMatches(slots, later, event.uniforms[k], event.shader.uniforms[k], effect.uniforms[k])
      {
        assert UniformMatches(slots, buffers, event.uniforms[k], event.shader.uniforms[k], effect.uniforms[k]);
      }
    }
  }

  function PerformAll(kernel: Kernel, buffers: seq<seq<byte>>, events: seq<Event>): (r: seq<seq<byte>>)
    ensures |r| == |buffers| && forall b :: 0 <= b < |buffers| ==> |r[b]| == |buffers[b]|
  {
    if events == [] then buffers
    else
      var before := PerformAll(kernel, buffers, events[..|events| - 1]);
      var event := events[|events| - 1];
      if EventInRange(before, event) then Perform(kernel, before, event) else before
  }

  ghost predicate AllMatch(slots: seq<nat>, buffers: seq<seq<byte>>, events: seq<Event>, effects: seq<Effect>) {
    |events| == |effects| && forall k :: 0 <= k < |events| ==> Matches(slots, buffers, events[k], effects[k])
  }

  /** Performing the planned events mirrors the effects of the stream, on touched and untouched resources alike. */
  lemma {:induction false} AllMirrors(
    kernel: Kernel, slots: seq<nat>, buffers: seq<seq<byte>>, memory: seq<seq<byte>>, events: seq<Event>,
    effects: seq<Effect>)
    requires Mirrors(slots, buffers, memory) && AllMatch(slots, buffers, events, effects)
    ensures Mirrors(slots, PerformAll(kernel, buffers, events), ApplyAll(kernel, memory, effects))
    ensures forall s :: 0 <= s < |memory| && s !in slots ==> ApplyAll(kernel, memory, effects)[s] == memory[s]
  {
    if events != [] {
      var n := |events| - 1;
      AllMirrors(kernel, slots, buffers, memory, events[..n], effects[..n]);
      var before := PerformAll(kernel, buffers, events[..n]);
      MatchesLater(slots, buffers, before, events[n], effects[n]);
      PerformMirrors(kernel, slots, before, ApplyAll(kernel, memory, effects[..n]), events[n], effects[n]);
    }
  }
}
