/**
 The splitting range index of `support/ranges.rs`: disjoint segments, each
 naming the write that owns its bytes. `Insert` follows the in-place shifting
 of the source and is proved to change exactly the owners inside the range.
 */
module Ranges {
  import opened Common

  datatype Segment = Segment(start: nat, end: nat, write: nat)

  /** Nonempty, ascending and disjoint. */
  ghost predicate Normalized(segments: seq<Segment>) {
    && (forall k :: 0 <= k < |segments| ==> segments[k].start < segments[k].end)
    && (forall j, k :: 0 <= j < k < |segments| ==> segments[j].end <= segments[k].start)
  }

  /** The write owning byte `i`, if any. */
  function Owner(segments: seq<Segment>, i: nat): Option<nat> {
    if segments == [] then None
    else if segments[0].start <= i < segments[0].end then Some(segments[0].write)
    else Owner(segments[1..], i)
  }

  /** The first index from `k` on whose segment ends after `at`. */
  function EndedBy(segments: seq<Segment>, at: nat, k: nat): (r: nat)
    requires k <= |segments|
    ensures k <= r <= |segments|
    ensures forall j :: k <= j < r ==> segments[j].end <= at
    ensures r < |segments| ==> at < segments[r].end
    decreases |segments| - k
  {
    if k == |segments| || at < segments[k].end then k else EndedBy(segments, at, k + 1)
  }

  /** The first index from `k` on whose segment starts at or after `at`. */
  function StartedBefore(segments: seq<Segment>, at: nat, k: nat): (r: nat)
    requires k <= |segments|
    ensures k <= r <= |segments|
    ensures forall j :: k <= j < r ==> segments[j].start < at
    ensures r < |segments| ==> at <= segments[r].start
    decreases |segments| - k
  {
    if k == |segments| || at <= segments[k].start then k else StartedBefore(segments, at, k + 1)
  }

  lemma {:induction false} OwnerOfSegment(segments: seq<Segment>, k: nat, i: nat)
    requires Normalized(segments) && k < |segments|
    requires segments[k].start <= i < segments[k].end
    ensures Owner(segments, i) == Some(segments[k].write)
  {
    if k > 0 {
      assert segments[0].end <= segments[k].start;
      OwnerOfSegment(segments[1..], k - 1, i);
    }
  }

  lemma {:induction false} OwnerOutside(segments: seq<Segment>, i: nat)
    requires forall k :: 0 <= k < |segments| ==> !(segments[k].start <= i < segments[k].end)
    ensures Owner(segments, i) == None
  {
    if segments != [] {
      OwnerOutside(segments[1..], i);
    }
  }

  /** An owner always comes from a segment containing the byte. */
  lemma {:induction false} OwnerWitness(segments: seq<Segment>, i: nat) returns (k: nat)
    requires Owner(segments, i).Some?
    ensures k < |segments| && segments[k].start <= i < segments[k].end
    ensures Owner(segments, i) == Some(segments[k].write)
  {
    if segments[0].start <= i < segments[0].end {
      k := 0;
    } else {
      k := OwnerWitness(segments[1..], i);
      k := k + 1;
    }
  }

  /** The segments `[first, last)` meet `[start, end)`; the others lie on either side. */
  ghost predicate Splits(segments: seq<Segment>, start: nat, end: nat, first: nat, last: nat) {
    && first <= last <= |segments|
    && (forall k :: 0 <= k < first ==> segments[k].end <= start)
    && (forall k :: first <= k < last ==> start < segments[k].end && segments[k].start < end)
    && (forall k :: last <= k < |segments| ==> end <= segments[k].start)
  }

  lemma QuerySplits(segments: seq<Segment>, start: nat, end: nat, first: nat, last: nat)
    requires Normalized(segments) && start < end
    requires first == EndedBy(segments, start, 0)
    requires last == StartedBefore(segments, end, first)
    ensures Splits(segments, start, end, first, last)
  {
    forall k | first <= k < last
      ensures start < segments[k].end
    {
      assert k == first || segments[first].end <= segments[k].start;
    }
    forall k | last <= k < |segments|
      ensures end <= segments[k].start
    {
      assert k == last || segments[last].end <= segments[k].start;
    }
  }

  /** The left remainder of the first segment the range cuts. */
  function Prefix(segments: seq<Segment>, first: nat, start: nat): seq<Segment> {
    if first < |segments| && segments[first].start < start
    then [segments[first].(end := start)]
    else []
  }

  /** The right remainder of the last segment the range cuts. */
  function Suffix(segments: seq<Segment>, first: nat, last: nat, end: nat): seq<Segment> {
    if first < last <= |segments| && end < segments[last - 1].end
    then [segments[last - 1].(start := end)]
    else []
  }

  /** The index after `[start, end)` has been given to `write`. */
  function Inserted(segments: seq<Segment>, start: nat, end: nat, write: nat): seq<Segment> {
    if end <= start then segments
    else
      var first := EndedBy(segments, start, 0);
      var last := StartedBefore(segments, end, first);
      Spliced(segments, start, end, write, first, last)
  }

  function Spliced(segments: seq<Segment>, start: nat, end: nat, write: nat, first: nat, last: nat): seq<Segment>
    requires first <= last <= |segments|
  {
    segments[..first] + Prefix(segments, first, start) + [Segment(start, end, write)]
      + Suffix(segments, first, last, end) + segments[last..]
  }

  /** Runs on either side of a cut point concatenate to a normalized run. */
  lemma NormalizedConcat(a: seq<Segment>, b: seq<Segment>, cut: nat)
    requires Normalized(a) && Normalized(b)
    requires forall k :: 0 <= k < |a| ==> a[k].end <= cut
    requires forall k :: 0 <= k < |b| ==> cut <= b[k].start
    ensures Normalized(a + b)
  {
    var c := a + b;
    forall j, k | 0 <= j < k < |c|
      ensures c[j].end <= c[k].start
    {
      if j < |a| <= k {
        assert c[j] == a[j] && c[k] == b[k - |a|];
      }
    }
  }

  lemma SplicedNormalized(segments: seq<Segment>, start: nat, end: nat, write: nat, first: nat, last: nat)
    requires Normalized(segments) && start < end
    requires Splits(segments, start, end, first, last)
    ensures Normalized(Spliced(segments, start, end, write, first, last))
  {
    var a, p, m, u, z := segments[..first], Prefix(segments, first, start),
      [Segment(start, end, write)], Suffix(segments, first, last, end), segments[last..];
    NormalizedConcat(a, p, if p == [] then start else p[0].start);
    NormalizedConcat(a + p, m, start);
    TailNormalized(a + p + m, u, z, end);
  }

  lemma TailNormalized(head: seq<Segment>, u: seq<Segment>, z: seq<Segment>, end: nat)
    requires Normalized(head) && Normalized(u) && Normalized(z) && |u| <= 1
    requires forall k :: 0 <= k < |head| ==> head[k].end <= end
    requires forall k :: 0 <= k < |u| ==> end <= u[k].start
    requires forall k :: 0 <= k < |z| ==> end <= z[k].start && (u != [] ==> u[0].end <= z[k].start)
    ensures Normalized(head + u + z)
  {
    NormalizedConcat(head, u, end);
    NormalizedConcat(head + u, z, if u != [] then u[0].end else end);
  }

  /** Left of the range, the cut segments own what the prefix keeps. */
  lemma CutLeft(segments: seq<Segment>, start: nat, end: nat, first: nat, last: nat, i: nat)
    requires Normalized(segments) && start < end && i < start
    requires Splits(segments, start, end, first, last)
    ensures Owner(segments[first..last], i) == Owner(Prefix(segments, first, start), i)
  {
    var inner := segments[first..last];
    if first < last {
      forall k | 1 <= k < |inner| ensures i < inner[k].start {
        assert inner[0] == segments[first] && inner[k] == segments[first + k];
      }
      OwnerOutside(inner[1..], i);
    }
  }

  /** Right of the range, they own what the suffix keeps. */
  lemma CutRight(segments: seq<Segment>, start: nat, end: nat, first: nat, last: nat, i: nat)
    requires Normalized(segments) && start < end <= i
    requires Splits(segments, start, end, first, last)
    ensures Owner(segments[first..last], i) == Owner(Suffix(segments, first, last, end), i)
  {
    if first < last {
      var rest, final := segments[first..last - 1], segments[last - 1];
      forall k | 0 <= k < |rest| ensures rest[k].end <= i {
        assert rest[k] == segments[first + k];
      }
      OwnerOutside(rest, i);
      assert segments[first..last] == rest + [final];
      OwnerConcat(rest, [final], i);
    }
  }

  /** Inserting moves exactly the bytes of the range to the new write. */
  lemma SplicedOwner(segments: seq<Segment>, start: nat, end: nat, write: nat, first: nat, last: nat, i: nat)
    requires Normalized(segments) && start < end
    requires Splits(segments, start, end, first, last)
    ensures Owner(Spliced(segments, start, end, write, first, last), i)
      == if start <= i < end then Some(write) else Owner(segments, i)
  {
    var a, p, m, u, z := segments[..first], Prefix(segments, first, start),
      [Segment(start, end, write)], Suffix(segments, first, last, end), segments[last..];
    assert Owner(segments, i) == Pick(Pick(Owner(a, i), Owner(segments[first..last], i)), Owner(z, i)) by {
      assert segments == a + segments[first..last] + z;
      OwnerConcat(a + segments[first..last], z, i);
      OwnerConcat(a, segments[first..last], i);
    }
    assert Owner(a + p + m + u + z, i)
      == Pick(Pick(Pick(Pick(Owner(a, i), Owner(p, i)), Owner(m, i)), Owner(u, i)), Owner(z, i)) by {
      OwnerConcat(a + p + m + u, z, i);
      OwnerConcat(a + p + m, u, i);
      OwnerConcat(a + p, m, i);
      OwnerConcat(a, p, i);
    }
    assert start <= i ==> Owner(a, i) == None && Owner(p, i) == None by {
      if start <= i {
        OwnerOutside(a, i);
        OwnerOutside(p, i);
      }
    }
    if !(start <= i < end) {
      OwnerOutside(m, i);
    }
    if i < start {
      OwnerOutside(u, i);
      OwnerOutside(z, i);
      CutLeft(segments, start, end, first, last, i);
    } else if end <= i {
      CutRight(segments, start, end, first, last, i);
    }
  }

  function Pick(a: Option<nat>, b: Option<nat>): Option<nat> { if a.Some? then a else b }

  /** The first run that owns a byte decides. */
  lemma {:induction false} OwnerConcat(a: seq<Segment>, b: seq<Segment>, i: nat)
    ensures Owner(a + b, i) == Pick(Owner(a, i), Owner(b, i))
  {
    if a == [] {
      assert a + b == b;
    } else {
      assert (a + b)[1..] == a[1..] + b;
      OwnerConcat(a[1..], b, i);
    }
  }

  lemma InsertedOwner(segments: seq<Segment>, start: nat, end: nat, write: nat)
    requires Normalized(segments)
    ensures Normalized(Inserted(segments, start, end, write))
    ensures forall i: nat ::
      Owner(Inserted(segments, start, end, write), i)
      == if start <= i < end then Some(write) else Owner(segments, i)
  {
    if start < end {
      var first := EndedBy(segments, start, 0);
      var last := StartedBefore(segments, end, first);
      QuerySplits(segments, start, end, first, last);
      SplicedNormalized(segments, start, end, write, first, last);
      forall i: nat
        ensures Owner(Spliced(segments, start, end, write, first, last), i)
          == if start <= i < end then Some(write) else Owner(segments, i)
      {
        SplicedOwner(segments, start, end, write, first, last, i);
      }
    }
  }

  /** `after` gives the bytes of `[start, end)` to `write` and leaves the other owners. */
  ghost predicate Taken(before: seq<Segment>, after: seq<Segment>, start: nat, end: nat, write: nat) {
    && Normalized(after)
    && forall i: nat :: Owner(after, i) == if start <= i < end then Some(write) else Owner(before, i)
  }

  /**
   The in-place insertion: grow by the net number of segments, shift the tail,
   cut the surplus and write prefix, new segment and suffix over the gap.
   */
  method Insert(segments: seq<Segment>, start: nat, end: nat, write: nat) returns (result: seq<Segment>)
    requires Normalized(segments)
    ensures result == Inserted(segments, start, end, write)
    ensures Taken(segments, result, start, end, write)
  {
    InsertedOwner(segments, start, end, write);
    if end <= start {
      return segments;
    }
    var first, last := QueryRange(segments, start, end);
    result := Splice(segments, start, end, write, first, last);
  }

  /** The two boundary searches of `intersecting`. */
  method QueryRange(segments: seq<Segment>, start: nat, end: nat) returns (first: nat, last: nat)
    requires Normalized(segments) && start < end
    ensures Splits(segments, start, end, first, last)
    ensures first == EndedBy(segments, start, 0) && last == StartedBefore(segments, end, first)
  {
    first := EndedBy(segments, start, 0);
    last := StartedBefore(segments, end, first);
    QuerySplits(segments, start, end, first, last);
  }

  /** Taking one more segment settles exactly the bytes it owns. */
  lemma OwnerStep(segments: seq<Segment>, s: nat, i: nat)
    requires Normalized(segments) && s < |segments|
    ensures Owner(segments[..s + 1], i).Some?
      <==> Owner(segments[..s], i).Some? || segments[s].start <= i < segments[s].end
    ensures segments[s].start <= i < segments[s].end ==> Owner(segments, i) == Some(segments[s].write)
  {
    assert segments[..s + 1] == segments[..s] + [segments[s]];
    OwnerConcat(segments[..s], [segments[s]], i);
    if segments[s].start <= i < segments[s].end {
      OwnerOfSegment(segments, s, i);
      assert Owner([segments[s]], i).Some?;
    } else {
      OwnerOutside([segments[s]], i);
    }
  }

  method Splice(segments: seq<Segment>, start: nat, end: nat, write: nat, first: nat, last: nat)
    returns (result: seq<Segment>)
    requires first <= last <= |segments|
    ensures result == Spliced(segments, start, end, write, first, last)
  {
    var prefix := Prefix(segments, first, start);
    var suffix := Suffix(segments, first, last, end);
    var added := 1 + |prefix| + |suffix|;
    var oldLen := |segments|;
    var newLen := oldLen - (last - first) + added;
    result := segments;
    if newLen > oldLen {
      result := result + seq(newLen - oldLen, _ => Segment(start, end, write));
    }
    // copy_within moves the tail as one block, whatever the overlap.
    var moved := first + added;
    result := result[..moved] + segments[last..] + result[moved + (oldLen - last)..];
    result := result[..newLen];
    var at := first;
    if prefix != [] {
      result := result[at := prefix[0]];
      at := at + 1;
    }
    result := result[at := Segment(start, end, write)];
    if suffix != [] {
      result := result[at + 1 := suffix[0]];
    }
  }
}
