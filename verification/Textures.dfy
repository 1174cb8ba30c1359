/**
 Texture bytes: rows converted to the device's storage layout on upload, channel
 packing in place on readback, and the in-place compaction of padded rows.
 */
module Textures {
  import opened Common

  datatype Format = Bgra8 | Rgba8 | R8 | Rg8 | Depth32Float | Rgba16Float | Rgba32Float
  datatype UploadError = InvalidVertexData | OutOfBounds

  function Channels(format: Format): nat {
    if format.R8? || format.Depth32Float? then 1 else if format.Rg8? then 2 else 4
  }

  function ChannelBits(format: Format): nat {
    if format.Rgba16Float? then 16 else if format.Depth32Float? || format.Rgba32Float? then 32 else 8
  }

  function TexelBytes(format: Format): (r: nat)
    ensures r > 0 && 8 * r == Channels(format) * ChannelBits(format)
  {
    match format
    case R8 => 1
    case Rg8 => 2
    case Rgba16Float => 8
    case Rgba32Float => 16
    case _ => 4
  }

  /** Storage keeps the format, or holds four bytes a pixel with blue first. */
  function StorageFormat(format: Format, nativeNarrow: bool): (r: Format)
    ensures r != format <==> format.Rgba8? || (!nativeNarrow && ChannelBits(format) == 8 && Channels(format) < 4)
    ensures r != format ==> r == Bgra8
  {
    match format
    case R8 => if nativeNarrow then R8 else Bgra8
    case Rg8 => if nativeNarrow then Rg8 else Bgra8
    case Depth32Float => format
    case Rgba16Float => format
    case Rgba32Float => format
    case _ => Bgra8
  }

  // --------------------------------------------------------------------- rows

  /** `n` added `k` times; `TimesIsProduct` relates it to the product the code computes. */
  function Times(n: nat, k: nat): nat { if k == 0 then 0 else Times(n, k - 1) + n }

  lemma {:induction false} TimesIsProduct(n: nat, k: nat)
    ensures Times(n, k) == n * k
  {
    if k > 0 {
      TimesIsProduct(n, k - 1);
    }
  }

  lemma {:induction false} TimesGrows(n: nat, a: nat, b: nat)
    requires a <= b
    ensures Times(n, a) <= Times(n, b) && (a < b ==> Times(n, a) + n <= Times(n, b))
    decreases b - a
  {
    if a < b {
      TimesGrows(n, a, b - 1);
    }
  }

  lemma {:induction false} TimesMonotone(a: nat, b: nat, k: nat)
    requires a <= b
    ensures Times(a, k) <= Times(b, k)
  {
    if k > 0 {
      TimesMonotone(a, b, k - 1);
    }
  }

  /** Every row lies inside the data; only the last one may be short of a stride. */
  predicate FitRows(data: seq<byte>, stride: nat, tight: nat, rows: nat) {
    tight <= stride && (rows > 0 ==> Times(stride, rows - 1) + tight <= |data|)
  }

  /** `height` rows of `tight` bytes, taken every `stride` bytes and laid end to end. */
  function Rows(data: seq<byte>, stride: nat, tight: nat, height: nat): (r: seq<byte>)
    requires FitRows(data, stride, tight, height)
    ensures |r| == Times(tight, height)
  {
    if height == 0 then []
    else
      var at := Times(stride, height - 1);
      Rows(data, stride, tight, height - 1) + data[at..at + tight]
  }

  /** Rows without padding are the data itself. */
  lemma {:induction false} TightRows(data: seq<byte>, tight: nat, height: nat)
    requires Times(tight, height) <= |data|
    ensures FitRows(data, tight, tight, height)
    ensures Rows(data, tight, tight, height) == data[..Times(tight, height)]
  {
    if height > 0 {
      TightRows(data, tight, height - 1);
      var at := Times(tight, height - 1);
      assert data[..at + tight] == data[..at] + data[at..at + tight];
    }
  }

  // ----------------------------------------------------------------- channels

  /** Red and blue trade places in every four-byte pixel. */
  function Swizzle(s: seq<byte>): (r: seq<byte>)
    requires |s| % 4 == 0
    ensures |r| == |s|
  {
    if s == [] then [] else [s[2], s[1], s[0], s[3]] + Swizzle(s[4..])
  }

  /** One channel widened to four: blue and green clear, opaque. */
  function ExpandRed(s: seq<byte>): (r: seq<byte>)
    ensures |r| == 4 * |s|
  {
    if s == [] then [] else [0, 0, s[0], 255] + ExpandRed(s[1..])
  }

  function ExpandRedGreen(s: seq<byte>): (r: seq<byte>)
    requires |s| % 2 == 0
    ensures |r| == 2 * |s|
  {
    if s == [] then [] else [0, s[1], s[0], 255] + ExpandRedGreen(s[2..])
  }

  /** What storage holds for tight source bytes. */
  function Stored(format: Format, nativeNarrow: bool, s: seq<byte>): (r: seq<byte>)
    requires |s| % TexelBytes(format) == 0
  {
    match format
    case Rgba8 => Swizzle(s)
    case R8 => if nativeNarrow then s else ExpandRed(s)
    case Rg8 => if nativeNarrow then s else ExpandRedGreen(s)
    case _ => s
  }

  /** What a readback returns for tight storage bytes. */
  function Packed(format: Format, nativeNarrow: bool, s: seq<byte>): seq<byte>
    requires format.Rgba8? || ((format.R8? || format.Rg8?) && !nativeNarrow) ==> |s| % 4 == 0
  {
    match format
    case Rgba8 => Swizzle(s)
    case R8 => if nativeNarrow then s else Reds(s)
    case Rg8 => if nativeNarrow then s else RedGreens(s)
    case _ => s
  }

  function Reds(s: seq<byte>): (r: seq<byte>)
    requires |s| % 4 == 0
    ensures |r| == |s| / 4 && forall k :: 0 <= k < |r| ==> r[k] == s[4 * k + 2]
  {
    seq(|s| / 4, k requires 0 <= k < |s| / 4 => s[4 * k + 2])
  }

  function RedGreens(s: seq<byte>): (r: seq<byte>)
    requires |s| % 4 == 0
    ensures |r| == |s| / 2
  {
    seq(|s| / 2, k requires 0 <= k < |s| / 2 => if k % 2 == 0 then s[4 * (k / 2) + 2] else s[4 * (k / 2) + 1])
  }

  lemma {:induction false} SwizzleTwice(s: seq<byte>)
    requires |s| % 4 == 0
    ensures Swizzle(Swizzle(s)) == s
  {
    if s != [] {
      SwizzleTwice(s[4..]);
      assert Swizzle(s)[4..] == Swizzle(s[4..]);
    }
  }

  lemma {:induction false} ExpandRedAt(s: seq<byte>, k: nat)
    requires k < |s|
    ensures ExpandRed(s)[4 * k..4 * k + 4] == [0, 0, s[k], 255]
  {
    if k > 0 {
      ExpandRedAt(s[1..], k - 1);
      assert ExpandRed(s)[4 * k..4 * k + 4] == ExpandRed(s[1..])[4 * (k - 1)..4 * (k - 1) + 4];
    }
  }

  lemma {:induction false} ExpandRedGreenAt(s: seq<byte>, k: nat)
    requires |s| % 2 == 0 && 2 * k + 1 < |s|
    ensures ExpandRedGreen(s)[4 * k..4 * k + 4] == [0, s[2 * k + 1], s[2 * k], 255]
  {
    if k > 0 {
      ExpandRedGreenAt(s[2..], k - 1);
      assert ExpandRedGreen(s)[4 * k..4 * k + 4] == ExpandRedGreen(s[2..])[4 * (k - 1)..4 * (k - 1) + 4];
    }
  }

  lemma {:induction false} SwizzleAt(s: seq<byte>, k: nat)
    requires |s| % 4 == 0 && 4 * k + 4 <= |s|
    ensures Swizzle(s)[4 * k..4 * k + 4] == [s[4 * k + 2], s[4 * k + 1], s[4 * k], s[4 * k + 3]]
  {
    if k > 0 {
      SwizzleAt(s[4..], k - 1);
      assert Swizzle(s)[4 * k..4 * k + 4] == Swizzle(s[4..])[4 * (k - 1)..4 * (k - 1) + 4];
    }
  }

  /**
   Pixel `k` in storage: channels that are missing are clear, alpha is opaque,
   and blue comes first wherever the storage is not the source's own format.
   */
  lemma StoredAt(format: Format, nativeNarrow: bool, s: seq<byte>, k: nat)
    requires |s| % TexelBytes(format) == 0 && k < |s| / TexelBytes(format)
    ensures var stored := Stored(format, nativeNarrow, s);
      if format.Rgba8? then
        4 * k + 4 <= |stored| == |s| && stored[4 * k..4 * k + 4] == [s[4 * k + 2], s[4 * k + 1], s[4 * k], s[4 * k + 3]]
      else if format.R8? && !nativeNarrow then
        4 * k + 4 <= |stored| == 4 * |s| && stored[4 * k..4 * k + 4] == [0, 0, s[k], 255]
      else if format.Rg8? && !nativeNarrow then
        4 * k + 4 <= |stored| == 2 * |s| && stored[4 * k..4 * k + 4] == [0, s[2 * k + 1], s[2 * k], 255]
      else stored == s
  {
    if format.Rgba8? {
      SwizzleAt(s, k);
    } else if format.R8? && !nativeNarrow {
      ExpandRedAt(s, k);
    } else if format.Rg8? && !nativeNarrow {
      ExpandRedGreenAt(s, k);
    }
  }

  lemma RedReturns(s: seq<byte>)
    ensures |ExpandRed(s)| % 4 == 0 && Reds(ExpandRed(s)) == s
  {
    forall k | 0 <= k < |s| ensures Reds(ExpandRed(s))[k] == s[k] {
      ExpandRedAt(s, k);
      assert ExpandRed(s)[4 * k..4 * k + 4][2] == s[k];
    }
  }

  lemma RedGreenReturns(s: seq<byte>)
    requires |s| % 2 == 0
    ensures |ExpandRedGreen(s)| % 4 == 0 && RedGreens(ExpandRedGreen(s)) == s
  {
    forall k | 0 <= k < |s| ensures RedGreens(ExpandRedGreen(s))[k] == s[k] {
      PixelReturns(s, k);
    }
  }

  lemma PixelReturns(s: seq<byte>, k: nat)
    requires |s| % 2 == 0 && k < |s| && |ExpandRedGreen(s)| % 4 == 0
    ensures RedGreens(ExpandRedGreen(s))[k] == s[k]
  {
    var half := k / 2;
    ExpandRedGreenAt(s, half);
    var pixel := ExpandRedGreen(s)[4 * half..4 * half + 4];
    assert pixel[2] == s[2 * half] && pixel[1] == s[2 * half + 1];
  }

  /** Storing tight pixels and reading them back returns them, for every format. */
  lemma StoredPacked(format: Format, nativeNarrow: bool, s: seq<byte>)
    requires |s| % TexelBytes(format) == 0
    ensures format.Rgba8? || ((format.R8? || format.Rg8?) && !nativeNarrow) ==>
      |Stored(format, nativeNarrow, s)| % 4 == 0
    ensures Packed(format, nativeNarrow, Stored(format, nativeNarrow, s)) == s
  {
    match format {
      case Rgba8 => SwizzleTwice(s);
      case R8 => RedReturns(s);
      case Rg8 => RedGreenReturns(s);
      case _ =>
    }
  }

  lemma {:induction false} StoredConcat(format: Format, nativeNarrow: bool, a: seq<byte>, b: seq<byte>)
    requires |a| % TexelBytes(format) == 0 && |b| % TexelBytes(format) == 0
    ensures (|a| + |b|) % TexelBytes(format) == 0
    ensures Stored(format, nativeNarrow, a + b) == Stored(format, nativeNarrow, a) + Stored(format, nativeNarrow, b)
  {
    Whole(|a|, |b|, format);
    match format {
      case Rgba8 => SwizzleConcat(a, b);
      case R8 =>
        ExpandRedConcat(a, b);
      case Rg8 => ExpandRedGreenConcat(a, b);
      case _ =>
    }
  }

  lemma Whole(a: nat, b: nat, format: Format)
    requires a % TexelBytes(format) == 0 && b % TexelBytes(format) == 0
    ensures (a + b) % TexelBytes(format) == 0
  {
    match format {
      case R8 =>
      case Rg8 => Sum2(a, b);
      case Rgba16Float => Sum8(a, b);
      case Rgba32Float => Sum16(a, b);
      case _ => Sum4(a, b);
    }
  }

  lemma Sum2(a: nat, b: nat)
    requires a % 2 == 0 && b % 2 == 0
    ensures (a + b) % 2 == 0
  {
  }

  lemma Sum4(a: nat, b: nat)
    requires a % 4 == 0 && b % 4 == 0
    ensures (a + b) % 4 == 0
  {
  }

  lemma Sum8(a: nat, b: nat)
    requires a % 8 == 0 && b % 8 == 0
    ensures (a + b) % 8 == 0
  {
  }

  lemma Sum16(a: nat, b: nat)
    requires a % 16 == 0 && b % 16 == 0
    ensures (a + b) % 16 == 0
  {
  }

  lemma {:induction false} SwizzleConcat(a: seq<byte>, b: seq<byte>)
    requires |a| % 4 == 0 && |b| % 4 == 0
    ensures Swizzle(a + b) == Swizzle(a) + Swizzle(b)
  {
    if a == [] {
      assert a + b == b;
    } else {
      assert (a + b)[4..] == a[4..] + b;
      SwizzleConcat(a[4..], b);
    }
  }

  lemma {:induction false} ExpandRedConcat(a: seq<byte>, b: seq<byte>)
    ensures ExpandRed(a + b) == ExpandRed(a) + ExpandRed(b)
  {
    if a == [] {
      assert a + b == b;
    } else {
      assert (a + b)[1..] == a[1..] + b;
      ExpandRedConcat(a[1..], b);
    }
  }

  lemma {:induction false} ExpandRedGreenConcat(a: seq<byte>, b: seq<byte>)
    requires |a| % 2 == 0 && |b| % 2 == 0
    ensures ExpandRedGreen(a + b) == ExpandRedGreen(a) + ExpandRedGreen(b)
  {
    if a == [] {
      assert a + b == b;
    } else {
      assert (a + b)[2..] == a[2..] + b;
      ExpandRedGreenConcat(a[2..], b);
    }
  }

  // ------------------------------------------------------------------- upload

  datatype Texture = Texture(width: nat, height: nat, levels: nat, layers: nat, format: Format)

  /** A write of rows of `stride` bytes into a rectangle of one mip level and layer. */
  datatype TextureWrite = TextureWrite(
    level: nat, layer: nat, x: nat, y: nat, width: nat, height: nat, stride: nat, data: seq<byte>)

  function TwoTo(level: nat): (r: nat)
    ensures r > 0
  {
    if level == 0 then 1 else 2 * TwoTo(level - 1)
  }

  /** A coordinate up to `end` lies in a level of a side, which shrinks by powers of two but never below one. */
  predicate InsideSide(side: nat, level: nat, end: nat) { end <= 1 || end * TwoTo(level) <= side }

  /** The layer and the level exist, and the rectangle lies in the level. */
  predicate InsideMip(texture: Texture, write: TextureWrite) {
    && write.layer < texture.layers && write.level < texture.levels
    && InsideSide(texture.width, write.level, write.x + write.width)
    && InsideSide(texture.height, write.level, write.y + write.height)
  }

  /** The side of a level: `max(side >> level, 1)`. */
  method MipSide(side: nat, level: nat) returns (r: nat)
    ensures forall end: nat :: end <= r <==> InsideSide(side, level, end)
  {
    var halved := side;
    var k := 0;
    while k < level
      invariant 0 <= k <= level && halved == side / TwoTo(k)
    {
      HalvedAgain(side, TwoTo(k));
      halved := halved / 2;
      k := k + 1;
    }
    r := Max(halved, 1);
    forall end: nat ensures end <= r <==> InsideSide(side, level, end) {
      AtMostQuotient(side, TwoTo(level), end);
    }
  }

  lemma HalvedAgain(side: nat, n: nat)
    requires n > 0
    ensures side / n / 2 == side / (2 * n)
  {
    var q, r := side / n, side % n;
    var half, odd := q / 2, q % 2;
    assert side == n * q + r;
    assert n * q == n * (2 * half) + n * odd;
    assert side == half * (2 * n) + (n * odd + r);
    assert n * odd + r < 2 * n;
    QuotientIs(side, 2 * n, half, n * odd + r);
  }

  lemma QuotientIs(a: nat, n: nat, q: nat, r: nat)
    requires n > 0 && a == q * n + r && r < n
    ensures a / n == q
  {
    var gap := a / n - q;
    assert gap * n == r - a % n;
    assert gap > 0 ==> gap * n >= n;
    assert gap < 0 ==> gap * n + n <= 0;
  }

  lemma AtMostQuotient(side: nat, n: nat, end: nat)
    requires n > 0
    ensures end <= side / n <==> end * n <= side
  {
    var gap := side / n - end;
    assert side == (side / n) * n + side % n;
    assert gap * n == (side / n) * n - end * n;
    assert gap >= 0 ==> gap * n >= 0;
    assert gap < 0 ==> gap * n + n <= 0;
  }

  /** The layer and the level exist, and the rectangle's ends lie in the level. */
  method CheckMip(texture: Texture, write: TextureWrite) returns (inside: bool)
    ensures inside == InsideMip(texture, write)
  {
    if write.level >= texture.levels || write.layer >= texture.layers {
      return false;
    }
    var width := MipSide(texture.width, write.level);
    var height := MipSide(texture.height, write.level);
    return write.x + write.width <= width && write.y + write.height <= height;
  }

  function Tight(texture: Texture, write: TextureWrite): nat { write.width * TexelBytes(texture.format) }

  /** The rectangle fits its mip level and layer, and the data holds every row. */
  predicate Uploadable(texture: Texture, write: TextureWrite) {
    && InsideMip(texture, write) && write.height > 0
    && Tight(texture, write) <= write.stride
    && Times(write.stride, write.height - 1) + Tight(texture, write) <= |write.data|
  }

  method ConvertTextureUpload(texture: Texture, write: TextureWrite, nativeNarrow: bool)
    returns (result: Result<seq<byte>, UploadError>)
    requires |write.data| <= MAX_WORD
    ensures result.Ok? <==> Uploadable(texture, write)
    ensures result.Err? ==> result.error == if InsideMip(texture, write) then InvalidVertexData else OutOfBounds
    ensures result.Ok? ==>
      var rows := Rows(write.data, write.stride, Tight(texture, write), write.height);
      && |rows| % TexelBytes(texture.format) == 0
      && result.value == Stored(texture.format, nativeNarrow, rows)
  {
    var inside := CheckMip(texture, write);
    if !inside {
      return Err(OutOfBounds);
    }
    result := ConvertInside(
      write.data, write.stride, write.width, write.height, texture.format, nativeNarrow);
  }

  method ConvertInside(data: seq<byte>, stride: nat, width: nat, height: nat, format: Format, nativeNarrow: bool)
    returns (result: Result<seq<byte>, UploadError>)
    requires |data| <= MAX_WORD
    ensures result.Ok? <==>
      && height > 0 && width * TexelBytes(format) <= stride
      && Times(stride, height - 1) + width * TexelBytes(format) <= |data|
    ensures result.Err? ==> result.error == InvalidVertexData
    ensures result.Ok? ==>
      var rows := Rows(data, stride, width * TexelBytes(format), height);
      && |rows| % TexelBytes(format) == 0
      && result.value == Stored(format, nativeNarrow, rows)
  {
    var tight := width * TexelBytes(format);
    if tight > MAX_WORD || height == 0 {
      return Err(InvalidVertexData);
    }
    var required := stride * (height - 1) + tight;
    TimesIsProduct(stride, height - 1);
    if required > MAX_WORD || |data| < required || stride < tight {
      return Err(InvalidVertexData);
    }
    TexelMultiple(width, format);
    RowsWhole(data, stride, tight, height, format);
    var pixels := ConvertRows(data, stride, tight, height, format, nativeNarrow);
    return Ok(pixels);
  }

  /** Tight rows already in storage order are borrowed whole; the others are converted row by row. */
  method ConvertRows(data: seq<byte>, stride: nat, tight: nat, height: nat, format: Format, nativeNarrow: bool)
    returns (pixels: seq<byte>)
    requires height > 0 && FitRows(data, stride, tight, height) && tight % TexelBytes(format) == 0
    requires |Rows(data, stride, tight, height)| % TexelBytes(format) == 0
    ensures pixels == Stored(format, nativeNarrow, Rows(data, stride, tight, height))
  {
    if format == StorageFormat(format, nativeNarrow) && stride == tight {
      Borrowed(data, tight, height, format, nativeNarrow);
      pixels := Prefix(data, tight, height);
      return;
    }
    pixels := [];
    var row := 0;
    FirstRows(data, stride, tight, height, format, nativeNarrow);
    while row < height
      invariant 0 <= row <= height && RowsStored(data, stride, tight, row, format, nativeNarrow, pixels)
    {
      pixels := ConvertNext(data, stride, tight, height, row, format, nativeNarrow, pixels);
      row := row + 1;
    }
  }

  method ConvertNext(
    data: seq<byte>, stride: nat, tight: nat, ghost height: nat, row: nat, format: Format, nativeNarrow: bool,
    pixels: seq<byte>)
    returns (next: seq<byte>)
    requires row < height && FitRows(data, stride, tight, height) && tight % TexelBytes(format) == 0
    requires RowsStored(data, stride, tight, row, format, nativeNarrow, pixels)
    ensures RowsStored(data, stride, tight, row + 1, format, nativeNarrow, next)
  {
    FitNext(data, stride, tight, height, row);
    var source := SourceRow(data, stride, tight, row);
    var converted := ConvertRow(format, nativeNarrow, source);
    StoredConcat(format, nativeNarrow, Rows(data, stride, tight, row), source);
    next := pixels + converted;
  }

  method SourceRow(data: seq<byte>, stride: nat, tight: nat, row: nat) returns (source: seq<byte>)
    requires Times(stride, row) + tight <= |data|
    ensures source == data[Times(stride, row)..Times(stride, row) + tight]
  {
    TimesIsProduct(stride, row);
    var start := row * stride;
    source := data[start..start + tight];
  }

  method Prefix(data: seq<byte>, tight: nat, height: nat) returns (pixels: seq<byte>)
    requires Times(tight, height) <= |data|
    ensures pixels == data[..Times(tight, height)]
  {
    TimesIsProduct(tight, height);
    pixels := data[..tight * height];
  }

  ghost predicate RowsStored(
    data: seq<byte>, stride: nat, tight: nat, rows: nat, format: Format, nativeNarrow: bool, pixels: seq<byte>)
  {
    && FitRows(data, stride, tight, rows) && |Rows(data, stride, tight, rows)| % TexelBytes(format) == 0
    && pixels == Stored(format, nativeNarrow, Rows(data, stride, tight, rows))
  }

  lemma FirstRows(data: seq<byte>, stride: nat, tight: nat, height: nat, format: Format, nativeNarrow: bool)
    requires FitRows(data, stride, tight, height)
    ensures RowsStored(data, stride, tight, 0, format, nativeNarrow, [])
  {
    assert Rows(data, stride, tight, 0) == [];
  }

  lemma Borrowed(data: seq<byte>, tight: nat, height: nat, format: Format, nativeNarrow: bool)
    requires height > 0 && FitRows(data, tight, tight, height) && format == StorageFormat(format, nativeNarrow)
    requires |Rows(data, tight, tight, height)| % TexelBytes(format) == 0
    ensures Times(tight, height) <= |data|
    ensures data[..Times(tight, height)] == Stored(format, nativeNarrow, Rows(data, tight, tight, height))
  {
    TightRows(data, tight, height);
  }

  /** One row, pixel by pixel, in the order its channels are stored. */
  method ConvertRow(format: Format, nativeNarrow: bool, source: seq<byte>) returns (pixels: seq<byte>)
    requires |source| % TexelBytes(format) == 0
    ensures pixels == Stored(format, nativeNarrow, source)
  {
    match format {
      case Rgba8 => pixels := ConvertRgba(source);
      case R8 =>
        if nativeNarrow {
          pixels := source;
        } else {
          pixels := ConvertRed(source);
        }
      case Rg8 =>
        if nativeNarrow {
          pixels := source;
        } else {
          pixels := ConvertRedGreen(source);
        }
      case _ => pixels := source;
    }
  }

  method ConvertRgba(source: seq<byte>) returns (pixels: seq<byte>)
    requires |source| % 4 == 0
    ensures pixels == Swizzle(source)
  {
    pixels := [];
    var k := 0;
    while k < |source|
      invariant 0 <= k <= |source| && k % 4 == 0
      invariant pixels == Swizzle(source[..k])
    {
      var pixel := [source[k + 2], source[k + 1], source[k], source[k + 3]];
      assert source[..k + 4] == source[..k] + source[k..k + 4];
      SwizzleConcat(source[..k], source[k..k + 4]);
      assert Swizzle(source[k..k + 4]) == pixel;
      pixels := pixels + pixel;
      k := k + 4;
    }
    assert source[..k] == source;
  }

  method ConvertRed(source: seq<byte>) returns (pixels: seq<byte>)
    ensures pixels == ExpandRed(source)
  {
    pixels := [];
    var k := 0;
    while k < |source|
      invariant 0 <= k <= |source| && pixels == ExpandRed(source[..k])
    {
      assert source[..k + 1] == source[..k] + [source[k]];
      ExpandRedConcat(source[..k], [source[k]]);
      assert ExpandRed([source[k]]) == [0, 0, source[k], 255];
      pixels := pixels + [0, 0, source[k], 255];
      k := k + 1;
    }
    assert source[..k] == source;
  }

  method ConvertRedGreen(source: seq<byte>) returns (pixels: seq<byte>)
    requires |source| % 2 == 0
    ensures pixels == ExpandRedGreen(source)
  {
    pixels := [];
    var k := 0;
    while k < |source|
      invariant 0 <= k <= |source| && k % 2 == 0
      invariant pixels == ExpandRedGreen(source[..k])
    {
      assert source[..k + 2] == source[..k] + source[k..k + 2];
      ExpandRedGreenConcat(source[..k], source[k..k + 2]);
      assert ExpandRedGreen(source[k..k + 2]) == [0, source[k + 1], source[k], 255];
      pixels := pixels + [0, source[k + 1], source[k], 255];
      k := k + 2;
    }
    assert source[..k] == source;
  }

  lemma FitNext(data: seq<byte>, stride: nat, tight: nat, height: nat, row: nat)
    requires row < height && FitRows(data, stride, tight, height)
    ensures FitRows(data, stride, tight, row) && FitRows(data, stride, tight, row + 1)
    ensures Times(stride, row) + tight <= |data|
    ensures Rows(data, stride, tight, row + 1)
         == Rows(data, stride, tight, row) + data[Times(stride, row)..Times(stride, row) + tight]
  {
    TimesGrows(stride, row, height - 1);
    if row > 0 {
      TimesGrows(stride, row - 1, row);
    }
  }

  lemma TexelMultiple(k: nat, format: Format)
    ensures k * TexelBytes(format) % TexelBytes(format) == 0
  {
    match format {
      case R8 =>
      case Rg8 =>
      case Rgba16Float =>
      case Rgba32Float =>
      case _ =>
    }
  }

  /** Rows of whole pixels hold whole pixels. */
  lemma {:induction false} RowsWhole(data: seq<byte>, stride: nat, tight: nat, rows: nat, format: Format)
    requires FitRows(data, stride, tight, rows) && tight % TexelBytes(format) == 0
    ensures |Rows(data, stride, tight, rows)| % TexelBytes(format) == 0
  {
    if rows == 0 {
      assert Rows(data, stride, tight, rows) == [];
    } else {
      FitNext(data, stride, tight, rows, rows - 1);
      RowsWhole(data, stride, tight, rows - 1, format);
      Whole(|Rows(data, stride, tight, rows - 1)|, tight, format);
    }
  }

  // ----------------------------------------------------------------- readback

  /**
   Pack storage pixels in place. Writes trail the reads, so no byte is
   overwritten before it is used; `length` bytes remain.
   */
  method PackColorReadback(bytes: array<byte>, format: Format) returns (length: nat)
    modifies bytes
    ensures length <= bytes.Length
    ensures var whole := old(bytes[..bytes.Length / 4 * 4]);
      match format
      case Rgba8 => length == bytes.Length && bytes[..] == Swizzle(whole) + old(bytes[bytes.Length / 4 * 4..])
      case R8 => bytes[..length] == Packed(R8, false, whole)
      case Rg8 => bytes[..length] == Packed(Rg8, false, whole)
      case _ => length == bytes.Length && bytes[..] == old(bytes[..])
  {
    match format {
      case Rgba8 =>
        SwapRedBlue(bytes);
        length := bytes.Length;
      case R8 => length := PackRed(bytes);
      case Rg8 => length := PackRedGreen(bytes);
      case _ => length := bytes.Length;
    }
  }

  method SwapRedBlue(bytes: array<byte>)
    modifies bytes
    ensures bytes[..] == Swizzle(old(bytes[..bytes.Length / 4 * 4])) + old(bytes[bytes.Length / 4 * 4..])
  {
    ghost var was := bytes[..];
    var pixels := bytes.Length / 4;
    var p := 0;
    while p < pixels
      invariant 0 <= p <= pixels
      invariant bytes[..4 * p] == Swizzle(was[..4 * p])
      invariant bytes[4 * p..] == was[4 * p..]
    {
      ghost var before := bytes[..];
      assert before[4 * p..][..4] == was[4 * p..][..4];
      bytes[4 * p], bytes[4 * p + 2] := bytes[4 * p + 2], bytes[4 * p];
      SwizzleNext(was, before, bytes[..], p);
      p := p + 1;
    }
    assert was[..4 * p] == old(bytes[..bytes.Length / 4 * 4]);
  }

  lemma SwizzleNext(was: seq<byte>, before: seq<byte>, after: seq<byte>, p: nat)
    requires |was| == |before| == |after| && 4 * p + 4 <= |was|
    requires before[..4 * p] == Swizzle(was[..4 * p]) && before[4 * p..] == was[4 * p..]
    requires after == before[4 * p := before[4 * p + 2]][4 * p + 2 := before[4 * p]]
    ensures after[..4 * p + 4] == Swizzle(was[..4 * p + 4]) && after[4 * p + 4..] == was[4 * p + 4..]
  {
    var pixel := was[4 * p..4 * p + 4];
    forall k | 4 * p <= k < |was| ensures before[k] == was[k] {
      assert before[4 * p..][k - 4 * p] == was[4 * p..][k - 4 * p];
    }
    assert was[..4 * p + 4] == was[..4 * p] + pixel;
    SwizzleConcat(was[..4 * p], pixel);
    assert Swizzle(pixel) == [pixel[2], pixel[1], pixel[0], pixel[3]];
    assert after[..4 * p] == before[..4 * p];
    assert after[..4 * p + 4] == after[..4 * p] + [pixel[2], pixel[1], pixel[0], pixel[3]];
  }

  method PackRed(bytes: array<byte>) returns (length: nat)
    modifies bytes
    ensures length == bytes.Length / 4 && bytes[..length] == Reds(old(bytes[..bytes.Length / 4 * 4]))
  {
    length := bytes.Length / 4;
    var index := 0;
    while index < length
      invariant 0 <= index <= length
      invariant forall k :: 0 <= k < index ==> bytes[k] == old(bytes[4 * k + 2])
      invariant forall k :: index <= k < bytes.Length ==> bytes[k] == old(bytes[k])
    {
      bytes[index] := bytes[index * 4 + 2];
      index := index + 1;
    }
  }

  method PackRedGreen(bytes: array<byte>) returns (length: nat)
    modifies bytes
    ensures length == bytes.Length / 4 * 2 && bytes[..length] == RedGreens(old(bytes[..bytes.Length / 4 * 4]))
  {
    length := bytes.Length / 4 * 2;
    var index := 0;
    while index < bytes.Length / 4
      invariant 0 <= index <= bytes.Length / 4
      invariant forall k :: 0 <= k < index ==>
        bytes[2 * k] == old(bytes[4 * k + 2]) && bytes[2 * k + 1] == old(bytes[4 * k + 1])
      invariant forall k :: 2 * index <= k < bytes.Length ==> bytes[k] == old(bytes[k])
    {
      var red, green := bytes[index * 4 + 2], bytes[index * 4 + 1];
      bytes[index * 2] := red;
      bytes[index * 2 + 1] := green;
      index := index + 1;
    }
    RedGreensPacked(old(bytes[..bytes.Length / 4 * 4]), bytes[..length]);
  }

  lemma RedGreensPacked(pixels: seq<byte>, packed: seq<byte>)
    requires |pixels| % 4 == 0 && |packed| == |pixels| / 2
    requires forall k :: 0 <= k < |pixels| / 4 ==>
      packed[2 * k] == pixels[4 * k + 2] && packed[2 * k + 1] == pixels[4 * k + 1]
    ensures packed == RedGreens(pixels)
  {
    forall k | 0 <= k < |packed| ensures packed[k] == RedGreens(pixels)[k] {
      var half := k / 2;
      assert packed[2 * half] == pixels[4 * half + 2] && packed[2 * half + 1] == pixels[4 * half + 1];
      assert k == 2 * half || k == 2 * half + 1;
    }
  }

  /** Padded copy rows: the next multiple of 256, if it is still a 32-bit size. */
  function RowStride(rowSize: nat): (r: Option<nat>)
    ensures r.Some? <==> rowSize + 255 < 0x1_0000_0000
    ensures r.Some? ==> rowSize <= r.value < rowSize + 256 && r.value % 256 == 0
  {
    if rowSize + 255 >= 0x1_0000_0000 then None else Some((rowSize + 255) / 256 * 256)
  }

  /** `count` bytes from `from` copied over those at `to`. */
  function Copied(s: seq<byte>, from: nat, count: nat, to: nat): (r: seq<byte>)
    requires from + count <= |s| && to + count <= |s|
    ensures |r| == |s|
  {
    s[..to] + s[from..from + count] + s[to + count..]
  }

  /** `copy_within`: the source range is read whole before anything is written. */
  method CopyWithin(bytes: array<byte>, from: nat, count: nat, to: nat)
    requires from + count <= bytes.Length && to + count <= bytes.Length
    modifies bytes
    ensures bytes[..] == Copied(old(bytes[..]), from, count, to)
  {
    var moved := bytes[from..from + count];
    var k := 0;
    while k < count
      invariant 0 <= k <= count
      invariant bytes[..to] == old(bytes[..to]) && bytes[to + count..] == old(bytes[to + count..])
      invariant bytes[to..to + k] == moved[..k]
    {
      bytes[to + k] := moved[k];
      k := k + 1;
    }
    assert bytes[..] == bytes[..to] + bytes[to..to + count] + bytes[to + count..];
  }

  /** Close the gaps between padded rows in place, front to back. */
  method CompactRows(bytes: array<byte>, rowSize: nat, rowStride: nat, height: nat) returns (length: nat)
    requires rowSize <= rowStride && rowStride * height <= bytes.Length
    modifies bytes
    ensures length == rowSize * height <= bytes.Length && FitRows(old(bytes[..]), rowStride, rowSize, height)
    ensures bytes[..length] == Rows(old(bytes[..]), rowStride, rowSize, height)
  {
    ghost var was := bytes[..];
    length := rowSize * height;
    TimesIsProduct(rowStride, height);
    TimesIsProduct(rowSize, height);
    Fits(was, rowSize, rowStride, height);
    if height > 0 {
      FirstRow(was, rowSize, rowStride, height);
      CompactFrom(bytes, was, rowSize, rowStride, height);
      AllPlaced(was, bytes[..], rowSize, rowStride, height);
    }
  }

  lemma Fits(data: seq<byte>, rowSize: nat, rowStride: nat, height: nat)
    requires rowSize <= rowStride && Times(rowStride, height) <= |data|
    ensures FitRows(data, rowStride, rowSize, height) && Times(rowSize, height) <= |data|
  {
    TimesMonotone(rowSize, rowStride, height);
  }

  method CompactFrom(bytes: array<byte>, ghost was: seq<byte>, rowSize: nat, rowStride: nat, height: nat)
    requires height > 0 && FitRows(was, rowStride, rowSize, height) && Times(rowSize, height) <= |was|
    requires Placed(was, bytes[..], rowSize, rowStride, 1)
    modifies bytes
    ensures Placed(was, bytes[..], rowSize, rowStride, height)
  {
    var row := 1;
    while row < height
      invariant 1 <= row <= height && Placed(was, bytes[..], rowSize, rowStride, row)
    {
      CompactRow(bytes, was, rowSize, rowStride, row, height);
      row := row + 1;
    }
  }

  /** The first `row` rows are in place and everything after them is as it was. */
  ghost predicate Placed(was: seq<byte>, bytes: seq<byte>, rowSize: nat, rowStride: nat, row: nat) {
    && FitRows(was, rowStride, rowSize, row) && Times(rowSize, row) <= |was|
    && bytes == Rows(was, rowStride, rowSize, row) + was[Times(rowSize, row)..]
  }

  lemma AllPlaced(was: seq<byte>, bytes: seq<byte>, rowSize: nat, rowStride: nat, height: nat)
    requires Placed(was, bytes, rowSize, rowStride, height) && |bytes| == |was|
    ensures bytes[..Times(rowSize, height)] == Rows(was, rowStride, rowSize, height)
  {
  }

  /** One row closes up behind those in place. */
  method CompactRow(
    bytes: array<byte>, ghost was: seq<byte>, rowSize: nat, rowStride: nat, row: nat, ghost height: nat)
    requires row < height && FitRows(was, rowStride, rowSize, height) && Times(rowSize, height) <= |was|
    requires Placed(was, bytes[..], rowSize, rowStride, row)
    modifies bytes
    ensures Placed(was, bytes[..], rowSize, rowStride, row + 1)
  {
    ghost var from := NextRow(was, rowSize, rowStride, row, height);
    RowMoved(was, Rows(was, rowStride, rowSize, row), rowSize, from);
    MoveRow(bytes, rowSize, rowStride, row);
  }

  lemma FirstRow(was: seq<byte>, rowSize: nat, rowStride: nat, height: nat)
    requires height > 0 && FitRows(was, rowStride, rowSize, height)
    ensures Placed(was, was, rowSize, rowStride, 1)
  {
    FitNext(was, rowStride, rowSize, height, 0);
    assert Rows(was, rowStride, rowSize, 0) == [] && Times(rowStride, 0) == 0;
    assert Rows(was, rowStride, rowSize, 1) == was[..rowSize];
  }

  /** Where the next row is read and written, and that both places exist. */
  lemma NextRow(was: seq<byte>, rowSize: nat, rowStride: nat, row: nat, height: nat) returns (from: nat)
    requires row < height && FitRows(was, rowStride, rowSize, height) && Times(rowSize, height) <= |was|
    ensures from == Times(rowStride, row) && Times(rowSize, row) <= from && from + rowSize <= |was|
    ensures Times(rowSize, row) + rowSize <= |was|
    ensures FitRows(was, rowStride, rowSize, row) && FitRows(was, rowStride, rowSize, row + 1)
    ensures Rows(was, rowStride, rowSize, row + 1) == Rows(was, rowStride, rowSize, row) + was[from..from + rowSize]
  {
    from := Times(rowStride, row);
    FitNext(was, rowStride, rowSize, height, row);
    TimesMonotone(rowSize, rowStride, row);
    TimesGrows(rowSize, row, height);
  }

  lemma RowMoved(was: seq<byte>, rows: seq<byte>, rowSize: nat, from: nat)
    requires |rows| <= from && from + rowSize <= |was|
    ensures var next := rows + was[from..from + rowSize];
      Copied(rows + was[|rows|..], from, rowSize, |rows|) == next + was[|next|..]
  {
    var before := rows + was[|rows|..];
    assert forall k :: |rows| <= k < |was| ==> before[k] == was[k];
    assert before[from..from + rowSize] == was[from..from + rowSize];
    assert before[|rows| + rowSize..] == was[|rows| + rowSize..];
  }

  method MoveRow(bytes: array<byte>, rowSize: nat, rowStride: nat, row: nat)
    requires Times(rowStride, row) + rowSize <= bytes.Length && Times(rowSize, row) + rowSize <= bytes.Length
    modifies bytes
    ensures bytes[..] == Copied(old(bytes[..]), Times(rowStride, row), rowSize, Times(rowSize, row))
  {
    TimesIsProduct(rowStride, row);
    TimesIsProduct(rowSize, row);
    CopyWithin(bytes, row * rowStride, rowSize, row * rowSize);
  }

  lemma SameRow(tight: seq<byte>, rest: seq<byte>, at: nat, count: nat)
    requires |rest| <= |tight| && rest == tight[..|rest|] && at + count <= |rest|
    ensures tight[at..at + count] == rest[at..at + count]
  {
  }

  /** Row `r` of the padded data is row `r` of the tight data. */
  ghost predicate SameRowIn(tight: seq<byte>, padded: seq<byte>, rowSize: nat, rowStride: nat, r: nat) {
    && Times(rowSize, r) + rowSize <= |tight| && Times(rowStride, r) + rowSize <= |padded|
    && padded[Times(rowStride, r)..Times(rowStride, r) + rowSize]
      == tight[Times(rowSize, r)..Times(rowSize, r) + rowSize]
  }

  /** A device that copied tight rows into padded ones gets exactly the tight bytes back. */
  lemma {:induction false} PaddedRowsReturn(
    tight: seq<byte>, padded: seq<byte>, rowSize: nat, rowStride: nat, height: nat)
    requires |tight| == Times(rowSize, height) && FitRows(padded, rowStride, rowSize, height)
    requires forall r: nat :: r < height ==> SameRowIn(tight, padded, rowSize, rowStride, r)
    ensures Rows(padded, rowStride, rowSize, height) == tight
    decreases height
  {
    if height > 0 {
      FitNext(padded, rowStride, rowSize, height, height - 1);
      assert SameRowIn(tight, padded, rowSize, rowStride, height - 1);
      var rest := tight[..Times(rowSize, height - 1)];
      forall r: nat | r < height - 1 ensures SameRowIn(rest, padded, rowSize, rowStride, r) {
        assert SameRowIn(tight, padded, rowSize, rowStride, r);
        TimesGrows(rowSize, r, height - 1);
        SameRow(tight, rest, Times(rowSize, r), rowSize);
      }
      PaddedRowsReturn(rest, padded, rowSize, rowStride, height - 1);
      assert tight == rest + tight[|rest|..];
    }
  }

  /** Storage rows of a format that readback repacks hold whole pixels. */
  lemma StoredWhole(format: Format, nativeNarrow: bool, rows: seq<byte>)
    requires |rows| % TexelBytes(format) == 0
    ensures format.Rgba8? || ((format.R8? || format.Rg8?) && !nativeNarrow) ==>
      |Stored(format, nativeNarrow, rows)| % 4 == 0
    ensures Packed(format, nativeNarrow, Stored(format, nativeNarrow, rows)) == rows
  {
    StoredPacked(format, nativeNarrow, rows);
  }

  /** `readback_texture` on the bytes the device returned: emulated narrow formats are packed, RGBA swapped. */
  method ReadbackTexture(transport: array<byte>, format: Format, nativeNarrow: bool) returns (bytes: seq<byte>)
    requires format.Rgba8? || ((format.R8? || format.Rg8?) && !nativeNarrow) ==> transport.Length % 4 == 0
    modifies transport
    ensures bytes == Packed(format, nativeNarrow, old(transport[..]))
  {
    ghost var was := transport[..];
    assert transport.Length % 4 == 0 ==>
      was[..transport.Length / 4 * 4] == was && was[transport.Length / 4 * 4..] == [];
    var length := transport.Length;
    if (format.R8? || format.Rg8?) && !nativeNarrow {
      length := PackColorReadback(transport, format);
    } else if format.Rgba8? {
      length := PackColorReadback(transport, format);
    }
    return transport[..length];
  }

  /**
   Upload to an exact device and readback: whatever the stride and the format,
   the caller's rows come back tight.
   */
  method UploadReadback(texture: Texture, write: TextureWrite, nativeNarrow: bool)
    returns (result: Result<seq<byte>, UploadError>)
    requires |write.data| <= MAX_WORD
    ensures result.Ok? <==> Uploadable(texture, write)
    ensures result.Ok? ==> result.value == Rows(write.data, write.stride, Tight(texture, write), write.height)
  {
    var pixels := ConvertTextureUpload(texture, write, nativeNarrow);
    if pixels.Err? {
      return Err(pixels.error);
    }
    StoredWhole(texture.format, nativeNarrow, Rows(write.data, write.stride, Tight(texture, write), write.height));
    var device := new byte[|pixels.value|](k requires 0 <= k < |pixels.value| => pixels.value[k]);
    assert device[..] == pixels.value;
    var bytes := ReadbackTexture(device, texture.format, nativeNarrow);
    return Ok(bytes);
  }
}
