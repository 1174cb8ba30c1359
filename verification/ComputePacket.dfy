/**
 The command packet of one dispatch, dword by dword, against the size reserved
 for it before anything was sent.
 */
module ComputePacket {
  import opened Common
  import opened Compute

  /** Command in bits 0-7, object kind in 8-15, payload length in 16-31. */
  function Header(command: nat, kind: nat, payload: nat): nat { command + kind * 256 + (payload % 65536) * 65536 }

  /** The packet splits into whole commands: each header's payload length leads to the next header. */
  predicate Framed(words: seq<nat>)
    decreases |words|
  {
    words == [] || (1 + words[0] / 65536 <= |words| && Framed(words[1 + words[0] / 65536..]))
  }

  /** A command as its receiver takes it off the packet. */
  datatype Received = Received(command: nat, kind: nat, payload: seq<nat>)

  /** The commands of a packet, read header by header. */
  function Parse(words: seq<nat>): seq<Received>
    decreases |words|
  {
    if words == [] || |words| < 1 + words[0] / 65536 then []
    else
      var n := words[0] / 65536;
      [Received(words[0] % 256, words[0] / 256 % 256, words[1..1 + n])] + Parse(words[1 + n..])
  }

  lemma {:induction false} FramedConcat(a: seq<nat>, b: seq<nat>)
    requires Framed(a) && Framed(b)
    ensures Framed(a + b) && Parse(a + b) == Parse(a) + Parse(b)
    decreases |a|
  {
    if a == [] {
      assert a + b == b;
    } else {
      var first, rest := FirstKept(a, b);
      FramedConcat(rest, b);
      assert [first] + (Parse(rest) + Parse(b)) == [first] + Parse(rest) + Parse(b);
    }
  }

  /** The first command of a packet does not depend on what follows. */
  lemma FirstKept(a: seq<nat>, b: seq<nat>) returns (first: Received, rest: seq<nat>)
    requires a != [] && Framed(a)
    ensures |rest| < |a| && Framed(rest) && Parse(a) == [first] + Parse(rest)
    ensures Parse(a + b) == [first] + Parse(rest + b) && (Framed(rest + b) ==> Framed(a + b))
  {
    var n := a[0] / 65536;
    rest := a[1 + n..];
    first := Received(a[0] % 256, a[0] / 256 % 256, a[1..1 + n]);
    assert (a + b)[0] == a[0];
    assert (a + b)[1 + n..] == rest + b;
    assert (a + b)[1..1 + n] == a[1..1 + n];
  }

  /** `next` is `words` with these commands after its own. */
  predicate Adds(words: seq<nat>, next: seq<nat>, more: seq<Received>) {
    Framed(words) ==> Framed(next) && Parse(next) == Parse(words) + more
  }

  lemma AddsThrough(words: seq<nat>, middle: seq<nat>, next: seq<nat>, a: seq<Received>, b: seq<Received>)
    requires Adds(words, middle, a) && Adds(middle, next, b)
    ensures Adds(words, next, a + b)
  {
    assert Parse(words) + a + b == Parse(words) + (a + b);
  }

  /** One command appended to a framed packet. */
  method Push(words: seq<nat>, command: nat, kind: nat, payload: seq<nat>) returns (next: seq<nat>)
    requires command < 256 && kind < 256
    ensures |next| == |words| + 1 + |payload| && words <= next
    ensures |payload| < 65536 ==> Adds(words, next, [Received(command, kind, payload)])
  {
    next := words + ([Header(command, kind, |payload|)] + payload);
    if Framed(words) && |payload| < 65536 {
      var one := [Header(command, kind, |payload|)] + payload;
      OneParsed(command, kind, payload);
      FramedConcat(words, one);
    }
  }

  /** A header tells its command, its kind and where the next one stands. */
  lemma OneParsed(command: nat, kind: nat, payload: seq<nat>)
    requires command < 256 && kind < 256 && |payload| < 65536
    ensures var one := [Header(command, kind, |payload|)] + payload;
      Framed(one) && Parse(one) == [Received(command, kind, payload)]
  {
    var one, h := [Header(command, kind, |payload|)] + payload, Header(command, kind, |payload|);
    assert h / 65536 == |payload| && h % 256 == command && h / 256 % 256 == kind;
    assert one[1 + |payload|..] == [] && one[1..1 + |payload|] == payload;
    assert Parse([]) == [];
  }

  // ------------------------------------------------------- commands expected

  /** The first `parts` pieces of a shader's text. */
  function TextParts(handle: nat, source: nat, text: seq<nat>, parts: nat): seq<Received> {
    if parts == 0 then []
    else
      var at := Min((parts - 1) * 4096, |text|);
      TextParts(handle, source, text, parts - 1)
      + [Received(1, 4,
           [handle, 5, if parts == 1 then source + 1 else 2147483648 + (parts - 1) * 16384, source, 0]
           + text[at..Min(at + 4096, |text|)])]
  }

  /** The text carried by a list of pieces. */
  function TextOf(parts: seq<Received>): seq<nat> {
    if parts == [] then []
    else
      var last := parts[|parts| - 1].payload;
      TextOf(parts[..|parts| - 1]) + if |last| >= 5 then last[5..] else []
  }

  /** The pieces carry the whole text in order. */
  lemma {:induction false} TextCarried(handle: nat, source: nat, text: seq<nat>, parts: nat)
    ensures TextOf(TextParts(handle, source, text, parts)) == text[..Min(parts * 4096, |text|)]
  {
    if parts > 0 {
      var at := Min((parts - 1) * 4096, |text|);
      TextCarried(handle, source, text, parts - 1);
      assert text[..Min(parts * 4096, |text|)] == text[..at] + text[at..Min(at + 4096, |text|)];
    }
  }

  function Transfer(sizes: nat -> nat, buffer: nat, direction: nat): Received {
    Received(43, 0, [buffer, 0, 0, 0, 0, 0, 0, 0, sizes(buffer), 1, 1, 0, direction])
  }

  /** Every backing goes to the device, and those some binding may write come back. */
  function Transfers(bindings: seq<Binding>, backing: seq<nat>, sizes: nat -> nat, direction: nat): seq<Received> {
    if backing == [] then []
    else
      var last := backing[|backing| - 1];
      Transfers(bindings, backing[..|backing| - 1], sizes, direction)
      + if direction == 1 || Writable(bindings, last) then [Transfer(sizes, last, direction)] else []
  }

  /** Each slot is given its buffer, or cleared. */
  function Slots(bindings: seq<Binding>, sizes: nat -> nat, bind: bool): seq<Received> {
    seq(|bindings|, k requires 0 <= k < |bindings| =>
      var b := bindings[k];
      Received(34, 0, if bind then [5, b.slot, 0, sizes(b.buffer), b.buffer] else [5, b.slot, 0, 0, 0]))
  }

  /**
   What the device is asked to do: make and bind the shader, set its constants,
   upload the buffers, bind them, launch, wait for memory, read back what was
   written, and undo the bindings.
   */
  function Expected(
    handle: nat, source: nat, text: seq<nat>, constants: seq<nat>, bindings: seq<Binding>, sizes: nat -> nat,
    size: (nat, nat, nat), groups: (nat, nat, nat)): seq<Received>
  {
    Setup(handle, source, text, constants) + Moved(bindings, sizes, 1, true) + Launched(size, groups)
    + Moved(bindings, sizes, 2, false) + Ended(handle)
  }

  function Setup(handle: nat, source: nat, text: seq<nat>, constants: seq<nat>): seq<Received> {
    TextParts(handle, source, text, CeilDiv(|text|, 4096))
    + [Received(31, 0, [handle, 5]), Received(12, 0, [5, 0] + constants)]
  }

  function Moved(bindings: seq<Binding>, sizes: nat -> nat, direction: nat, bind: bool): seq<Received> {
    Transfers(bindings, Distinct(Buffers(bindings)), sizes, direction) + Slots(bindings, sizes, bind)
  }

  function Launched(size: (nat, nat, nat), groups: (nat, nat, nat)): seq<Received> {
    [Received(37, 0, [size.0, size.1, size.2, groups.0, groups.1, groups.2, 0, 0]), Received(36, 0, [2 + 4096])]
  }

  function Ended(handle: nat): seq<Received> { [Received(31, 0, [0, 5]), Received(3, 4, [handle])] }

  /** Shader text in parts of 16 KiB, each with its own continuation header. */
  method PushShader(words: seq<nat>, handle: nat, source: nat, text: seq<nat>) returns (next: seq<nat>)
    requires text != []
    ensures |next| == |words| + |text| + 6 * CeilDiv(|text|, 4096)
    ensures Adds(words, next, TextParts(handle, source, text, CeilDiv(|text|, 4096)))
  {
    next := words;
    var at, parts := 0, 0;
    while at < |text|
      invariant 0 <= at <= |text| && at == Min(parts * 4096, |text|)
      invariant |next| == |words| + at + 6 * parts
      invariant parts <= CeilDiv(|text|, 4096) && (at == |text| ==> parts == CeilDiv(|text|, 4096))
      invariant Adds(words, next, TextParts(handle, source, text, parts))
      decreases |text| - at
    {
      var end := Min(at + 4096, |text|);
      ghost var was := next;
      next := Push(next, 1, 4, [handle, 5, if parts == 0 then source + 1 else 2147483648 + parts * 16384, source, 0]
        + text[at..end]);
      AddsThrough(words, was, next, TextParts(handle, source, text, parts), [Received(1, 4, [handle, 5,
        if parts == 0 then source + 1 else 2147483648 + parts * 16384, source, 0] + text[at..end])]);
      parts := parts + 1;
      at := end;
    }
  }

  predicate Writable(bindings: seq<Binding>, buffer: nat) {
    exists k :: 0 <= k < |bindings| && bindings[k].buffer == buffer && bindings[k].writable
  }

  /** One backing for each buffer, in order of first use. */
  method Backings(bindings: seq<Binding>) returns (backing: seq<nat>)
    ensures forall b :: b in backing <==> exists k :: 0 <= k < |bindings| && bindings[k].buffer == b
    ensures forall i, j :: 0 <= i < j < |backing| ==> backing[i] != backing[j]
    ensures |backing| <= |bindings| && backing == Distinct(Buffers(bindings))
  {
    backing := [];
    var k := 0;
    while k < |bindings|
      invariant 0 <= k <= |bindings| && |backing| <= k
      invariant forall b :: b in backing <==> exists j :: 0 <= j < k && bindings[j].buffer == b
      invariant forall i, j :: 0 <= i < j < |backing| ==> backing[i] != backing[j]
      invariant backing == Distinct(Buffers(bindings)[..k])
    {
      assert Buffers(bindings)[..k + 1][..k] == Buffers(bindings)[..k];
      if bindings[k].buffer !in backing {
        backing := backing + [bindings[k].buffer];
      }
      k := k + 1;
    }
    assert Buffers(bindings)[..k] == Buffers(bindings);
  }

  function CountWritable(bindings: seq<Binding>, backing: seq<nat>): (r: nat)
    ensures r <= |backing|
  {
    if backing == [] then 0
    else CountWritable(bindings, backing[..|backing| - 1]) + if Writable(bindings, backing[|backing| - 1]) then 1 else 0
  }

  /** Upload every backing (direction 1) or read back the written ones (direction 2). */
  method PushTransfers(words: seq<nat>, bindings: seq<Binding>, backing: seq<nat>, sizes: nat -> nat, direction: nat)
    returns (next: seq<nat>)
    ensures |next| == |words| + 14 * if direction == 1 then |backing| else CountWritable(bindings, backing)
    ensures Adds(words, next, Transfers(bindings, backing, sizes, direction))
  {
    next := words;
    var k := 0;
    while k < |backing|
      invariant 0 <= k <= |backing|
      invariant |next| == |words| + 14 * if direction == 1 then k else CountWritable(bindings, backing[..k])
      invariant Adds(words, next, Transfers(bindings, backing[..k], sizes, direction))
    {
      assert backing[..k + 1][..k] == backing[..k];
      ghost var was := next;
      if direction == 1 || Writable(bindings, backing[k]) {
        next := Push(next, 43, 0, [backing[k], 0, 0, 0, 0, 0, 0, 0, sizes(backing[k]), 1, 1, 0, direction]);
        AddsThrough(words, was, next, Transfers(bindings, backing[..k], sizes, direction),
          [Transfer(sizes, backing[k], direction)]);
      }
      k := k + 1;
    }
    assert backing[..k] == backing;
  }

  method PushBindings(words: seq<nat>, bindings: seq<Binding>, sizes: nat -> nat, bind: bool) returns (next: seq<nat>)
    ensures |next| == |words| + 6 * |bindings|
    ensures Adds(words, next, Slots(bindings, sizes, bind))
  {
    next := words;
    var k := 0;
    while k < |bindings|
      invariant 0 <= k <= |bindings| && |next| == |words| + 6 * k
      invariant Adds(words, next, Slots(bindings, sizes, bind)[..k])
    {
      var b := bindings[k];
      ghost var was := next;
      next := Push(next, 34, 0, if bind then [5, b.slot, 0, sizes(b.buffer), b.buffer] else [5, b.slot, 0, 0, 0]);
      AddsThrough(words, was, next, Slots(bindings, sizes, bind)[..k], [Slots(bindings, sizes, bind)[k]]);
      assert Slots(bindings, sizes, bind)[..k + 1]
        == Slots(bindings, sizes, bind)[..k] + [Slots(bindings, sizes, bind)[k]];
      k := k + 1;
    }
  }

  /** Bytes reserved before anything is sent: text, continuations, constants, fixed state, bindings. */
  function PacketBound(source: nat, constants: nat, bindings: nat): nat {
    var text := CeilDiv(source + 1, 4) * 4;
    text + CeilDiv(text, 16384) * 24 + constants * 4 + 88 + bindings * 160
  }

  /**
   The packet is never larger than reserved, and exactly as large when every
   binding has a buffer of its own and writes it. Its receiver reads back
   exactly the commands expected.
   */
  method DispatchPacket(
    handle: nat, source: nat, text: seq<nat>, constants: seq<nat>, bindings: seq<Binding>, sizes: nat -> nat,
    size: (nat, nat, nat), groups: (nat, nat, nat))
    returns (words: seq<nat>)
    requires |text| == CeilDiv(source + 1, 4)
    ensures 4 * |words| <= PacketBound(source, |constants|, |bindings|)
    ensures (forall k :: 0 <= k < |bindings| ==> bindings[k].writable)
      && (forall j, k :: 0 <= j < k < |bindings| ==> bindings[j].buffer != bindings[k].buffer)
      ==> 4 * |words| == PacketBound(source, |constants|, |bindings|)
    ensures |constants| <= 65533 ==>
      Framed(words) && Parse(words) == Expected(handle, source, text, constants, bindings, sizes, size, groups)
  {
    var backing := Backings(bindings);
    var setup := PushSetup(handle, source, text, constants);
    var before := PushBuffers(setup, bindings, backing, sizes, 1, true);
    var launched := PushLaunch(before, size, groups);
    var after := PushBuffers(launched, bindings, backing, sizes, 2, false);
    words := PushEnd(after, handle);
    if |constants| <= 65533 {
      AllAdded(handle, source, text, constants, bindings, sizes, size, groups, setup, before, launched, after, words);
    }
    PartsAgree(|text|);
    ExactWhenDistinct(bindings, backing);
  }

  /** The shader and its constants. */
  method PushSetup(handle: nat, source: nat, text: seq<nat>, constants: seq<nat>) returns (words: seq<nat>)
    requires text != []
    ensures |words| == |text| + 6 * CeilDiv(|text|, 4096) + 6 + |constants|
    ensures |constants| <= 65533 ==> Adds([], words, Setup(handle, source, text, constants))
  {
    var shader := PushShader([], handle, source, text);
    var bound := Push(shader, 31, 0, [handle, 5]);
    words := Push(bound, 12, 0, [5, 0] + constants);
    if |constants| <= 65533 {
      AddsThrough(shader, bound, words, [Received(31, 0, [handle, 5])], [Received(12, 0, [5, 0] + constants)]);
      assert [Received(31, 0, [handle, 5])] + [Received(12, 0, [5, 0] + constants)]
        == [Received(31, 0, [handle, 5]), Received(12, 0, [5, 0] + constants)];
      AddsThrough([], shader, words, TextParts(handle, source, text, CeilDiv(|text|, 4096)),
        [Received(31, 0, [handle, 5]), Received(12, 0, [5, 0] + constants)]);
    }
  }

  /** The transfers of one direction and the slots that go with it. */
  method PushBuffers(
    words: seq<nat>, bindings: seq<Binding>, backing: seq<nat>, sizes: nat -> nat, direction: nat, bind: bool)
    returns (next: seq<nat>)
    ensures |next|
      == |words| + 14 * (if direction == 1 then |backing| else CountWritable(bindings, backing)) + 6 * |bindings|
    ensures Adds(words, next, Transfers(bindings, backing, sizes, direction) + Slots(bindings, sizes, bind))
  {
    var moved := PushTransfers(words, bindings, backing, sizes, direction);
    next := PushBindings(moved, bindings, sizes, bind);
    AddsThrough(words, moved, next, Transfers(bindings, backing, sizes, direction), Slots(bindings, sizes, bind));
  }

  lemma AllAdded(
    handle: nat, source: nat, text: seq<nat>, constants: seq<nat>, bindings: seq<Binding>, sizes: nat -> nat,
    size: (nat, nat, nat), groups: (nat, nat, nat), setup: seq<nat>, before: seq<nat>, launched: seq<nat>,
    after: seq<nat>, words: seq<nat>)
    requires Adds([], setup, Setup(handle, source, text, constants))
    requires Adds(setup, before, Moved(bindings, sizes, 1, true)) && Adds(before, launched, Launched(size, groups))
    requires Adds(launched, after, Moved(bindings, sizes, 2, false)) && Adds(after, words, Ended(handle))
    ensures Framed(words) && Parse(words) == Expected(handle, source, text, constants, bindings, sizes, size, groups)
  {
    var a, b, c := Setup(handle, source, text, constants), Moved(bindings, sizes, 1, true), Launched(size, groups);
    var d := Moved(bindings, sizes, 2, false);
    AddsThrough([], setup, before, a, b);
    AddsThrough([], before, launched, a + b, c);
    AddsThrough([], launched, after, a + b + c, d);
    AddsThrough([], after, words, a + b + c + d, Ended(handle));
    assert Framed([]) && Parse([]) == [];
  }

  /** The launch and the barrier after it. */
  method PushLaunch(words: seq<nat>, size: (nat, nat, nat), groups: (nat, nat, nat)) returns (next: seq<nat>)
    ensures |next| == |words| + 11
    ensures Adds(words, next, Launched(size, groups))
  {
    var launched := Push(words, 37, 0, [size.0, size.1, size.2, groups.0, groups.1, groups.2, 0, 0]);
    next := Push(launched, 36, 0, [4098]);
    var a, b := Received(37, 0, [size.0, size.1, size.2, groups.0, groups.1, groups.2, 0, 0]), Received(36, 0, [4098]);
    AddsThrough(words, launched, next, [a], [b]);
    assert [a] + [b] == [a, b];
  }

  method PushEnd(words: seq<nat>, handle: nat) returns (next: seq<nat>)
    ensures |next| == |words| + 5
    ensures Adds(words, next, Ended(handle))
  {
    var unbound := Push(words, 31, 0, [0, 5]);
    next := Push(unbound, 3, 4, [handle]);
    AddsThrough(words, unbound, next, [Received(31, 0, [0, 5])], [Received(3, 4, [handle])]);
    assert [Received(31, 0, [0, 5])] + [Received(3, 4, [handle])]
      == [Received(31, 0, [0, 5]), Received(3, 4, [handle])];
  }

  lemma PartsAgree(text: nat)
    ensures CeilDiv(text * 4, 16384) == CeilDiv(text, 4096)
  {
  }

  lemma {:induction false} AllWritable(bindings: seq<Binding>, backing: seq<nat>)
    requires forall b :: b in backing ==> Writable(bindings, b)
    ensures CountWritable(bindings, backing) == |backing|
  {
    if backing != [] {
      AllWritable(bindings, backing[..|backing| - 1]);
    }
  }

  lemma ExactWhenDistinct(bindings: seq<Binding>, backing: seq<nat>)
    requires forall b :: b in backing <==> exists k :: 0 <= k < |bindings| && bindings[k].buffer == b
    requires forall i, j :: 0 <= i < j < |backing| ==> backing[i] != backing[j]
    requires |backing| <= |bindings|
    ensures (forall k :: 0 <= k < |bindings| ==> bindings[k].writable)
      && (forall j, k :: 0 <= j < k < |bindings| ==> bindings[j].buffer != bindings[k].buffer)
      ==> |backing| == |bindings| && CountWritable(bindings, backing) == |backing|
  {
    if (forall k :: 0 <= k < |bindings| ==> bindings[k].writable)
       && (forall j, k :: 0 <= j < k < |bindings| ==> bindings[j].buffer != bindings[k].buffer) {
      var ids := seq(|bindings|, k requires 0 <= k < |bindings| => bindings[k].buffer);
      forall id | id in ids ensures id in backing {
      }
      Embeds(ids, backing);
      AllWritable(bindings, backing);
    }
  }

  /** Distinct values found in a sequence are no more than it holds. */
  lemma {:induction false} Embeds(ids: seq<nat>, backing: seq<nat>)
    requires forall i, j :: 0 <= i < j < |ids| ==> ids[i] != ids[j]
    requires forall i :: 0 <= i < |ids| ==> ids[i] in backing
    ensures |ids| <= |backing|
  {
    if ids != [] {
      var n := |ids| - 1;
      var k :| 0 <= k < |backing| && backing[k] == ids[n];
      var rest := backing[..k] + backing[k + 1..];
      forall i | 0 <= i < n ensures ids[..n][i] in rest {
        var m :| 0 <= m < |backing| && backing[m] == ids[i];
        assert rest[if m < k then m else m - 1] == ids[i];
      }
      Embeds(ids[..n], rest);
    }
  }
}
