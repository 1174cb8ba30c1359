/**
 The extrema of an index range: one scan, its merging part by part, and the
 largest vertex they decide.
 */
module IndexBounds {
  import opened Common

  const BLOCK_WORDS: nat := 1024
  const MAX_INDEX: nat := 0xFFFF_FFFF

  datatype IndexFormat = Uint16 | Uint32

  function Width(format: IndexFormat): nat { if format.Uint16? then 2 else 4 }

  type Bounds = Option<(nat, nat)>

  /** Number of complete indices in `length` bytes. */
  function Words(length: nat, format: IndexFormat): (r: nat)
    ensures format.Uint16? ==> 2 * r <= length < 2 * r + 2
    ensures format.Uint32? ==> 4 * r <= length < 4 * r + 4
  {
    if format.Uint16? then length / 2 else length / 4
  }

  /** Little-endian index `k` of `bytes`. */
  function IndexAt(bytes: seq<byte>, format: IndexFormat, k: nat): (v: nat)
    requires k < Words(|bytes|, format)
    ensures v <= MAX_INDEX
  {
    if format.Uint16? then bytes[2 * k] as nat + 0x100 * bytes[2 * k + 1] as nat
    else bytes[4 * k] as nat + 0x100 * bytes[4 * k + 1] as nat
         + 0x1_0000 * bytes[4 * k + 2] as nat + 0x100_0000 * bytes[4 * k + 3] as nat
  }

  /** Every complete index; trailing bytes are not indices. */
  function Indices(bytes: seq<byte>, format: IndexFormat): (r: seq<nat>)
    ensures |r| == Words(|bytes|, format)
  {
    seq(Words(|bytes|, format), (k: int) requires 0 <= k < Words(|bytes|, format) => IndexAt(bytes, format, k))
  }

  /** Smallest and largest value. */
  function Extrema(values: seq<nat>): Bounds {
    if values == [] then None
    else Merge(Extrema(values[..|values| - 1]), Some((values[|values| - 1], values[|values| - 1])))
  }

  lemma {:induction false} ExtremaBound(values: seq<nat>)
    ensures Extrema(values).None? <==> values == []
    ensures Extrema(values).Some? ==>
      var (low, high) := Extrema(values).value;
      low in values && high in values && forall v :: v in values ==> low <= v <= high
  {
    if values != [] {
      ExtremaBound(values[..|values| - 1]);
      assert values == values[..|values| - 1] + [values[|values| - 1]];
    }
  }

  function Merge(a: Bounds, b: Bounds): Bounds {
    match (a, b)
    case (Some(x), Some(y)) => Some((Min(x.0, y.0), Max(x.1, y.1)))
    case (_, None) => a
    case (None, _) => b
  }

  function Scan(bytes: seq<byte>, format: IndexFormat): Bounds { Extrema(Indices(bytes, format)) }

  lemma {:induction false} ExtremaConcat(a: seq<nat>, b: seq<nat>)
    ensures Extrema(a + b) == Merge(Extrema(a), Extrema(b))
  {
    if b == [] {
      assert a + b == a;
    } else {
      assert (a + b)[..|a + b| - 1] == a + b[..|b| - 1];
      ExtremaConcat(a, b[..|b| - 1]);
    }
  }

  /** Scanning part by part agrees with scanning the whole, when the first part holds whole indices. */
  lemma ScanConcat(a: seq<byte>, b: seq<byte>, format: IndexFormat)
    requires Whole(|a|, format)
    ensures Scan(a + b, format) == Merge(Scan(a, format), Scan(b, format))
  {
    assert Indices(a + b, format) == Indices(a, format) + Indices(b, format);
    ExtremaConcat(Indices(a, format), Indices(b, format));
  }

  /** Little-endian numbers of 16 and 32 bits. */
  function Encode16(v: nat): seq<byte> { [(v % 256) as byte, (v / 256 % 256) as byte] }

  function Encode32(v: nat): seq<byte> {
    [(v % 256) as byte, (v / 256 % 256) as byte, (v / 65536 % 256) as byte, (v / 16777216 % 256) as byte]
  }

  /** An index is the number whose encoding stands in its place. */
  lemma IndexEncoded(bytes: seq<byte>, format: IndexFormat, k: nat, v: nat)
    requires k < Words(|bytes|, format)
    ensures format.Uint16? && v < 65536 ==>
      2 * k + 2 <= |bytes| && (bytes[2 * k..2 * k + 2] == Encode16(v) <==> IndexAt(bytes, format, k) == v)
    ensures format.Uint32? && v < 0x1_0000_0000 ==>
      4 * k + 4 <= |bytes| && (bytes[4 * k..4 * k + 4] == Encode32(v) <==> IndexAt(bytes, format, k) == v)
  {
    if format.Uint16? && v < 65536 {
      Encoded16(bytes[2 * k..2 * k + 2], v);
    } else if format.Uint32? && v < 0x1_0000_0000 {
      Encoded32(bytes[4 * k..4 * k + 4], v);
    }
  }

  lemma Encoded16(part: seq<byte>, v: nat)
    requires |part| == 2 && v < 65536
    ensures part == Encode16(v) <==> part[0] as nat + 256 * part[1] as nat == v
  {
    if part[0] as nat + 256 * part[1] as nat == v {
      assert v % 256 == part[0] as nat && v / 256 == part[1] as nat;
    }
  }

  lemma Encoded32(part: seq<byte>, v: nat)
    requires |part| == 4 && v < 0x1_0000_0000
    ensures part == Encode32(v) <==>
      part[0] as nat + 256 * part[1] as nat + 65536 * part[2] as nat + 16777216 * part[3] as nat == v
  {
    var a, b, c, d := part[0] as nat, part[1] as nat, part[2] as nat, part[3] as nat;
    var low, middle := v % 256, v / 256;
    assert v / 65536 == middle / 256 && v / 16777216 == middle / 256 / 256;
    if a + 256 * b + 65536 * c + 16777216 * d == v {
      assert low == a && middle == b + 256 * c + 65536 * d;
      assert middle % 256 == b && middle / 256 == c + 256 * d;
    }
  }

  /** `raw_index_bounds`: one pass over the indices of a range. */
  method RawIndexBounds(bytes: seq<byte>, format: IndexFormat) returns (bounds: Bounds)
    ensures bounds == Scan(bytes, format)
  {
    ghost var values := Indices(bytes, format);
    bounds := None;
    var k := 0;
    while k < Words(|bytes|, format)
      invariant 0 <= k <= |values| && bounds == Extrema(values[..k])
    {
      var index := IndexAt(bytes, format, k);
      assert index == values[k];
      bounds := Some(if bounds.None? then (index, index) else (Min(bounds.value.0, index), Max(bounds.value.1, index)));
      assert values[..k + 1][..k] == values[..k];
      k := k + 1;
    }
    assert values[..k] == values;
  }

  /** `maximum_with_base`. */
  function MaximumWithBase(bounds: Bounds, baseVertex: int): Option<nat> {
    match bounds
    case None => Some(0)
    case Some((minimum, maximum)) =>
      if !(0 <= minimum + baseVertex <= MAX_INDEX) || !(0 <= maximum + baseVertex <= MAX_INDEX) then None
      else Some(maximum + baseVertex)
  }

  /** Checking the two extrema decides for every index, and yields the largest vertex fetched. */
  lemma MaximumDecides(values: seq<nat>, baseVertex: int)
    ensures MaximumWithBase(Extrema(values), baseVertex).Some?
      <==> forall v :: v in values ==> 0 <= v + baseVertex <= MAX_INDEX
    ensures MaximumWithBase(Extrema(values), baseVertex).Some? ==>
      var m := MaximumWithBase(Extrema(values), baseVertex).value;
      && (forall v :: v in values ==> v + baseVertex <= m)
      && (values != [] ==> m - baseVertex in values)
  {
    ExtremaBound(values);
  }

  /** A length made of whole indices. */
  predicate Whole(length: int, format: IndexFormat) { if format.Uint16? then length % 2 == 0 else length % 4 == 0 }

  /** A block of whole indices. */
  function BlockBytes(format: IndexFormat): (r: nat)
    ensures r > 0 && r == BLOCK_WORDS * Width(format) && Whole(r, format)
  {
    BLOCK_WORDS * Width(format)
  }

  lemma WholeSum(a: int, b: int, format: IndexFormat)
    requires Whole(a, format) && Whole(b, format)
    ensures Whole(a + b, format)
  {
    match format
    case Uint16 => EvenSum(a, b);
    case Uint32 => FourSum(a, b);
  }

  lemma EvenSum(a: int, b: int)
    requires a % 2 == 0 && b % 2 == 0
    ensures (a + b) % 2 == 0
  {
  }

  lemma FourSum(a: int, b: int)
    requires a % 4 == 0 && b % 4 == 0
    ensures (a + b) % 4 == 0
  {
  }

  lemma MultiplesWhole(total: nat, words: nat, format: IndexFormat)
    requires Whole(total, format)
    ensures Whole(Min(total, words * Width(format)), format)
  {
    assert Whole(words * Width(format), format);
  }

  lemma RemainderWhole(total: nat, format: IndexFormat)
    ensures total % Width(format) <= total && Whole(total - total % Width(format), format)
    ensures Words(total % Width(format), format) == 0
  {
  }

  lemma ScanAppend(view: seq<byte>, start: nat, middle: nat, end: nat, format: IndexFormat)
    requires start <= middle <= end <= |view| && Whole(middle - start, format)
    ensures Scan(view[start..end], format) == Merge(Scan(view[start..middle], format), Scan(view[middle..end], format))
  {
    assert view[start..end] == view[start..middle] + view[middle..end];
    ScanConcat(view[start..middle], view[middle..end], format);
  }

  /** Bytes after the last whole index change nothing. */
  lemma ScanTail(view: seq<byte>, start: nat, end: nat, last: nat, format: IndexFormat)
    requires start <= end <= last <= |view| && end == last - (last - start) % Width(format)
    ensures Scan(view[start..last], format) == Scan(view[start..end], format)
  {
    RemainderWhole(last - start, format);
    ScanAppend(view, start, end, last, format);
    assert Indices(view[end..last], format) == [];
  }
}
