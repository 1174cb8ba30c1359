/**
 Running a kernel on the backings of a dispatch: distinct buffers in, the
 written ones copied back out.
 */
module ComputeLaunch {
  import opened Common
  import opened Compute
  import ComputePacket

  /**
   One backing for each buffer takes its contents, the kernel runs on the
   backings, and those some binding may write are copied back.
   */
  method LaunchOn(
    kernel: Kernel, buffers: seq<seq<byte>>, shader: Shader, bank: seq<nat>, bindings: seq<Binding>,
    groups: (nat, nat, nat))
    returns (after: seq<seq<byte>>)
    requires EventInRange(buffers, DispatchEvent(shader, bank, [], bindings, groups))
    ensures after == Launch(kernel, buffers, shader, bank, Buffers(bindings), groups)
  {
    var backing := ComputePacket.Backings(bindings);
    var inputs := Inputs(buffers, backing);
    var names := AliasNames(bindings, backing, shader.storages);
    var out := kernel(shader, bank, names, inputs, groups);
    after := CopyBack(buffers, bindings, backing, out);
    CopiedBack(buffers, bindings, backing, shader.storages, out, after);
  }

  method Inputs(buffers: seq<seq<byte>>, backing: seq<nat>) returns (inputs: seq<seq<byte>>)
    requires forall i :: 0 <= i < |backing| ==> backing[i] < |buffers|
    ensures inputs == Gather(buffers, backing)
  {
    inputs := [];
    for i := 0 to |backing|
      invariant inputs == Gather(buffers, backing)[..i]
    {
      inputs := inputs + [buffers[backing[i]]];
    }
  }

  method CopyBack(buffers: seq<seq<byte>>, bindings: seq<Binding>, backing: seq<nat>, out: seq<seq<byte>>)
    returns (after: seq<seq<byte>>)
    requires forall i :: 0 <= i < |backing| ==> backing[i] < |buffers|
    requires forall i, j :: 0 <= i < j < |backing| ==> backing[i] != backing[j]
    ensures |after| == |buffers|
    ensures forall s :: 0 <= s < |after| ==>
      after[s]
      == if IndexIn(backing, s) < |backing| then Returned(buffers, bindings, backing, out, s) else buffers[s]
  {
    after := buffers;
    for i := 0 to |backing|
      invariant |after| == |buffers|
      invariant forall s :: 0 <= s < |after| ==>
        after[s] == if IndexIn(backing, s) < i then Returned(buffers, bindings, backing, out, s) else buffers[s]
    {
      IndexUnique(backing, i);
      var id := backing[i];
      var writable := AnyWritable(bindings, id);
      if writable && i < |out| {
        after := after[id := Slice(out[i], 0, |buffers[id]|)];
      }
    }
  }

  /** What a buffer holds after the copy back. */
  function Returned(
    buffers: seq<seq<byte>>, bindings: seq<Binding>, backing: seq<nat>, out: seq<seq<byte>>, s: nat): seq<byte>
    requires s < |buffers|
  {
    if ComputePacket.Writable(bindings, s) && IndexIn(backing, s) < |out|
    then Slice(out[IndexIn(backing, s)], 0, |buffers[s]|) else buffers[s]
  }

  method AnyWritable(bindings: seq<Binding>, id: nat) returns (writable: bool)
    ensures writable == ComputePacket.Writable(bindings, id)
  {
    for k := 0 to |bindings|
      invariant forall j :: 0 <= j < k ==> !(bindings[j].buffer == id && bindings[j].writable)
    {
      if bindings[k].buffer == id && bindings[k].writable {
        return true;
      }
    }
    return false;
  }

  /** The binding slots with the backing each one uses. */
  method AliasNames(bindings: seq<Binding>, backing: seq<nat>, ghost storages: seq<StorageBinding>)
    returns (names: seq<(nat, nat)>)
    requires |storages| == |bindings| && backing == Distinct(Buffers(bindings))
    requires forall k :: 0 <= k < |bindings| ==> bindings[k].slot == storages[k].slot
    ensures names == Aliases(storages, Buffers(bindings))
  {
    names := [];
    for k := 0 to |bindings|
      invariant names == Aliases(storages, Buffers(bindings))[..k]
    {
      var i := PositionOf(backing, bindings[k].buffer);
      names := names + [(bindings[k].slot, i)];
    }
  }

  method PositionOf(ids: seq<nat>, id: nat) returns (i: nat)
    ensures i == IndexIn(ids, id)
  {
    i := 0;
    while i < |ids| && ids[i] != id
      invariant 0 <= i <= |ids| && forall j :: 0 <= j < i ==> ids[j] != id
    {
      i := i + 1;
    }
    FirstIndex(ids, id, i);
  }

  lemma {:induction false} FirstIndex(ids: seq<nat>, id: nat, i: nat)
    requires i <= |ids| && (forall j :: 0 <= j < i ==> ids[j] != id) && (i < |ids| ==> ids[i] == id)
    ensures IndexIn(ids, id) == i
  {
    if i > 0 {
      FirstIndex(ids[1..], id, i - 1);
    }
  }

  lemma IndexUnique(ids: seq<nat>, i: nat)
    requires i < |ids| && forall j, k :: 0 <= j < k < |ids| ==> ids[j] != ids[k]
    ensures forall s: nat :: IndexIn(ids, s) == i <==> s == ids[i]
  {
    FirstIndex(ids, ids[i], i);
  }

  lemma CopiedBack(
    buffers: seq<seq<byte>>, bindings: seq<Binding>, backing: seq<nat>, storages: seq<StorageBinding>,
    out: seq<seq<byte>>, after: seq<seq<byte>>)
    requires |storages| == |bindings| && |after| == |buffers| && backing == Distinct(Buffers(bindings))
    requires forall k :: 0 <= k < |bindings| ==> bindings[k].writable == storages[k].writable
    requires forall s :: 0 <= s < |after| ==>
      after[s]
      == if IndexIn(backing, s) < |backing| then Returned(buffers, bindings, backing, out, s) else buffers[s]
    ensures after == seq(|buffers|, s requires 0 <= s < |buffers| =>
      if WritableId(storages, Buffers(bindings), s) && IndexIn(backing, s) < |out|
      then Slice(out[IndexIn(backing, s)], 0, |buffers[s]|) else buffers[s])
  {
    forall s: nat | s < |buffers|
      ensures ComputePacket.Writable(bindings, s) == WritableId(storages, Buffers(bindings), s)
      ensures ComputePacket.Writable(bindings, s) ==> IndexIn(backing, s) < |backing|
    {
      if ComputePacket.Writable(bindings, s) {
        var k :| 0 <= k < |bindings| && bindings[k].buffer == s && bindings[k].writable;
        assert Buffers(bindings)[k] == s;
      }
    }
  }
}
