/**
 Bounds of vertex fetch: one end per vertex buffer, computed from the largest
 vertex or instance step, covers every byte any vertex or instance can read.
 */
module VertexFetch {
  import opened Common
  import IB = IndexBounds

  const MAX_INDEX: nat := 0xFFFF_FFFF

  datatype StepMode = PerVertex | PerInstance(divisor: nat)
  datatype Attribute = Attribute(offset: nat, size: nat)
  datatype Layout = Layout(stride: nat, step: StepMode, attributes: seq<Attribute>)

  datatype FetchError =
    | Overflow | OutOfBounds | InvalidValue | VertexBufferNotSet

  predicate ValidLayout(layout: Layout) { layout.step.PerInstance? ==> layout.step.divisor > 0 }

  /** What the draw walks: consecutive vertices, or a run of indices plus a base vertex. */
  datatype Walk =
    | Sequential(first: nat, count: nat)
    | Indexed(first: nat, count: nat, bytes: seq<byte>, format: IB.IndexFormat, baseVertex: int)

  /** Vertex `v` is fetched by the draw. */
  ghost predicate Walks(walk: Walk, v: int) {
    match walk
    case Sequential(first, count) => first <= v < first + count
    case Indexed(_, _, bytes, format, base) => v - base in IB.Indices(bytes, format)
  }

  /** The last byte, exclusive, one attribute reads for vertex `v` of instance `j`. */
  function FetchEnd(layout: Layout, bindingOffset: nat, attribute: Attribute, v: nat, j: nat): nat
    requires ValidLayout(layout)
  {
    match layout.step
    case PerVertex => bindingOffset + v * layout.stride + attribute.offset + attribute.size
    case PerInstance(divisor) => bindingOffset + j / divisor * layout.stride + attribute.offset + attribute.size
  }

  /** The end of the attribute that reaches furthest. */
  function FurthestEnd(attributes: seq<Attribute>): (end: nat)
    ensures forall a :: 0 <= a < |attributes| ==> attributes[a].offset + attributes[a].size <= end
    ensures attributes == [] ==> end == 0
    ensures attributes != [] ==> exists a :: 0 <= a < |attributes| && end == attributes[a].offset + attributes[a].size
  {
    if attributes == [] then 0
    else
      var n := |attributes| - 1;
      assert forall a :: 0 <= a < n ==> attributes[..n][a] == attributes[a];
      Max(FurthestEnd(attributes[..n]), attributes[n].offset + attributes[n].size)
  }

  method AttributeEnd(attributes: seq<Attribute>) returns (end: nat)
    ensures end == FurthestEnd(attributes)
  {
    end := 0;
    for k := 0 to |attributes|
      invariant end == FurthestEnd(attributes[..k])
    {
      assert attributes[..k + 1][..k] == attributes[..k];
      end := Max(end, attributes[k].offset + attributes[k].size);
    }
    assert attributes[..|attributes|] == attributes;
  }

  /** The highest vertex or instance step a layout is read at, if it is addressable. */
  function Highest(layout: Layout, maximumVertex: nat, firstInstance: nat, instanceCount: nat): Option<nat>
    requires ValidLayout(layout)
  {
    match layout.step
    case PerVertex => Some(maximumVertex)
    case PerInstance(divisor) =>
      if instanceCount == 0 || firstInstance + (instanceCount - 1) / divisor > MAX_INDEX then None
      else Some(firstInstance + (instanceCount - 1) / divisor)
  }

  /** The end every fetch stays below, and where the buffer is bound; it fails exactly when the end overflows. */
  method VertexFetchRange(
    layout: Layout, offset: nat, maximumVertex: nat, firstInstance: nat, instanceCount: nat, attributeEnd: nat)
    returns (range: Result<(nat, nat), FetchError>)
    requires ValidLayout(layout)
    ensures range.Ok? ==> Covers(layout, range.value.0, range.value.1, maximumVertex, instanceCount, attributeEnd)
    ensures range.Ok? ==>
      range.value.1 == offset + (if layout.step.PerVertex? then 0 else firstInstance * layout.stride)
    ensures range.Ok? <==>
      var highest := Highest(layout, maximumVertex, firstInstance, instanceCount);
      highest.Some? && offset + highest.value * layout.stride + attributeEnd <= MAX_WORD
    ensures range.Ok? ==>
      range.value.0
        == offset + Highest(layout, maximumVertex, firstInstance, instanceCount).value * layout.stride + attributeEnd
    ensures range.Err? ==> range.error == Overflow
  {
    var maximum, base := maximumVertex, 0;
    if layout.step.PerInstance? {
      if instanceCount == 0 || firstInstance + (instanceCount - 1) / layout.step.divisor > MAX_INDEX {
        return Err(Overflow);
      }
      maximum, base := firstInstance + (instanceCount - 1) / layout.step.divisor, firstInstance;
    }
    Product(base, maximum, layout.stride);
    range := Ends(offset, layout.stride, maximum, base, attributeEnd);
    if range.Ok? {
      if layout.step.PerVertex? {
        VertexCovers(layout, offset, maximumVertex, instanceCount, attributeEnd, range.value.0);
      } else {
        InstanceCovers(
          layout, offset, maximumVertex, firstInstance, instanceCount, attributeEnd, range.value.0, range.value.1);
      }
    }
  }

  method Ends(offset: nat, stride: nat, maximum: nat, base: nat, attributeEnd: nat)
    returns (range: Result<(nat, nat), FetchError>)
    requires base * stride <= maximum * stride
    ensures range.Ok? ==> range.value == (offset + maximum * stride + attributeEnd, offset + base * stride)
    ensures range.Ok? && base == 0 ==> range.value.1 == offset
    ensures range.Ok? <==> offset + maximum * stride + attributeEnd <= MAX_WORD
    ensures range.Err? ==> range.error == Overflow
  {
    var end := offset + maximum * stride + attributeEnd;
    if end > MAX_WORD {
      return Err(Overflow);
    }
    var bindingOffset := offset + base * stride;
    if bindingOffset > MAX_WORD {
      return Err(Overflow);
    }
    return Ok((end, bindingOffset));
  }

  /** Every vertex up to the maximum and every instance reads below `end`. */
  ghost predicate Covers(
    layout: Layout, end: nat, bindingOffset: nat, maximumVertex: nat, instanceCount: nat, attributeEnd: nat)
    requires ValidLayout(layout)
  {
    forall attribute: Attribute, v: nat, j: nat ::
      attribute.offset + attribute.size <= attributeEnd && v <= maximumVertex && j < instanceCount ==>
        FetchEnd(layout, bindingOffset, attribute, v, j) <= end
  }

  lemma VertexCovers(
    layout: Layout, offset: nat, maximumVertex: nat, instanceCount: nat, attributeEnd: nat, end: nat)
    requires layout.step.PerVertex? && end == offset + maximumVertex * layout.stride + attributeEnd
    ensures Covers(layout, end, offset, maximumVertex, instanceCount, attributeEnd)
  {
    forall attribute: Attribute, v: nat, j: nat |
      attribute.offset + attribute.size <= attributeEnd && v <= maximumVertex && j < instanceCount
      ensures FetchEnd(layout, offset, attribute, v, j) <= end
    {
      Product(v, maximumVertex, layout.stride);
    }
  }

  /** The divisor only slows an instance down, and the binding already starts at the first one. */
  lemma InstanceCovers(
    layout: Layout, offset: nat, maximumVertex: nat, firstInstance: nat, instanceCount: nat, attributeEnd: nat,
    end: nat, bindingOffset: nat)
    requires layout.step.PerInstance? && layout.step.divisor > 0 && instanceCount > 0
    requires bindingOffset == offset + firstInstance * layout.stride
    requires end == offset + (firstInstance + (instanceCount - 1) / layout.step.divisor) * layout.stride + attributeEnd
    ensures Covers(layout, end, bindingOffset, maximumVertex, instanceCount, attributeEnd)
  {
    var divisor := layout.step.divisor;
    var last := (instanceCount - 1) / divisor;
    Distribute(firstInstance, last, layout.stride);
    forall attribute: Attribute, v: nat, j: nat |
      attribute.offset + attribute.size <= attributeEnd && v <= maximumVertex && j < instanceCount
      ensures FetchEnd(layout, bindingOffset, attribute, v, j) <= end
    {
      Quotient(j, instanceCount - 1, divisor);
      Product(j / divisor, last, layout.stride);
    }
  }

  lemma Product(a: nat, b: nat, n: nat)
    requires a <= b
    ensures a * n <= b * n
  {
  }

  lemma Distribute(a: nat, b: nat, n: nat)
    ensures (a + b) * n == a * n + b * n
  {
  }

  lemma Quotient(a: nat, b: nat, d: nat)
    requires a <= b && d > 0
    ensures a / d <= b / d
  {
    assert a / d * d <= a && b < (b / d + 1) * d;
    Cancel(a / d, b / d + 1, d);
  }

  lemma Cancel(p: nat, q: nat, d: nat)
    requires p * d < q * d
    ensures p < q
  {
  }

  /** The end is no larger than it must be: the last step reads up to it. */
  lemma EndReached(layout: Layout, offset: nat, maximumVertex: nat, firstInstance: nat, instanceCount: nat)
    returns (attribute: Attribute, j: nat)
    requires ValidLayout(layout) && layout.attributes != [] && instanceCount > 0
    requires Highest(layout, maximumVertex, firstInstance, instanceCount).Some?
    ensures attribute in layout.attributes && j < instanceCount
    ensures var bindingOffset := offset + (if layout.step.PerVertex? then 0 else firstInstance * layout.stride);
      FetchEnd(layout, bindingOffset, attribute, maximumVertex, j)
        == offset + Highest(layout, maximumVertex, firstInstance, instanceCount).value * layout.stride
           + FurthestEnd(layout.attributes)
  {
    var a :| 0 <= a < |layout.attributes|
      && FurthestEnd(layout.attributes) == layout.attributes[a].offset + layout.attributes[a].size;
    attribute, j := layout.attributes[a], instanceCount - 1;
    if layout.step.PerInstance? {
      Distribute(firstInstance, (instanceCount - 1) / layout.step.divisor, layout.stride);
    }
  }

  /** The draw's range of vertices or indices is addressable and not empty at zero. */
  predicate Addressable(walk: Walk) { 0 < walk.first + walk.count <= MAX_INDEX }

  /** The largest vertex a draw walks; for indices, decided from their extrema. */
  method MaximumVertex(walk: Walk, bounds: IB.Bounds) returns (maximum: Result<nat, FetchError>)
    requires walk.Indexed? ==> bounds == IB.Scan(walk.bytes, walk.format)
    ensures maximum.Ok? ==> forall v :: Walks(walk, v) ==> 0 <= v <= maximum.value
    ensures maximum.Ok? && walk.Sequential? ==> maximum.value == walk.first + walk.count - 1
    ensures maximum.Ok? && walk.Indexed? ==>
      if IB.Indices(walk.bytes, walk.format) == [] then maximum.value == 0 else Walks(walk, maximum.value)
    ensures walk.Sequential? ==> (maximum.Ok? <==> Addressable(walk))
    ensures walk.Indexed? ==>
      (maximum.Ok? <==>
         && Addressable(walk)
         && forall v :: v in IB.Indices(walk.bytes, walk.format) ==> 0 <= v + walk.baseVertex <= IB.MAX_INDEX)
    ensures maximum.Err? ==> maximum.error == if Addressable(walk) then OutOfBounds else Overflow
  {
    if walk.first + walk.count > MAX_INDEX || walk.first + walk.count == 0 {
      return Err(Overflow);
    }
    match walk {
      case Sequential(first, count) =>
        return Ok(first + count - 1);
      case Indexed(_, _, bytes, format, base) =>
        var indices := IB.Indices(bytes, format);
        IB.MaximumDecides(indices, base);
        var found := IB.MaximumWithBase(bounds, base);
        if found.None? {
          return Err(OutOfBounds);
        }
        IB.ExtremaBound(indices);
        forall v | Walks(walk, v) ensures 0 <= v <= found.value {
          assert v - base in indices;
        }
        return Ok(found.value);
    }
  }

  /** A bound vertex buffer: its length and the offset it is bound at. */
  datatype Bound = Bound(length: nat, offset: nat)

  /** Every byte of every attribute for every vertex and instance lies in its buffer. */
  ghost predicate FetchesInside(
    layouts: seq<Layout>, bound: seq<Option<Bound>>, offsets: seq<nat>, walk: Walk, instanceCount: nat)
  {
    && |offsets| <= |layouts| <= |bound|
    && (forall s :: 0 <= s < |offsets| ==> ValidLayout(layouts[s]) && bound[s].Some?)
    && forall s, a, v: nat, j: nat ::
         0 <= s < |offsets| && 0 <= a < |layouts[s].attributes| && Walks(walk, v) && j < instanceCount ==>
           FetchEnd(layouts[s], offsets[s], layouts[s].attributes[a], v, j) <= bound[s].value.length
  }

  /** What one slot needs: a buffer that holds the last step, at an offset the packet can carry. */
  predicate SlotFits(
    layout: Layout, bound: Option<Bound>, maximumVertex: nat, firstInstance: nat, instanceCount: nat)
    requires ValidLayout(layout)
  {
    && bound.Some?
    && var highest := Highest(layout, maximumVertex, firstInstance, instanceCount);
       && highest.Some?
       && bound.value.offset + highest.value * layout.stride + FurthestEnd(layout.attributes)
            <= Min(bound.value.length, MAX_WORD)
       && bound.value.offset + (if layout.step.PerVertex? then 0 else firstInstance * layout.stride) <= MAX_INDEX
  }

  /** What a whole draw needs. */
  ghost predicate DrawFits(
    layouts: seq<Layout>, bound: seq<Option<Bound>>, walk: Walk, firstInstance: nat, instanceCount: nat,
    maximum: nat)
    requires |layouts| <= |bound| && forall s :: 0 <= s < |layouts| ==> ValidLayout(layouts[s])
  {
    && 0 < instanceCount && firstInstance + instanceCount <= MAX_INDEX
    && forall s :: 0 <= s < |layouts| ==> SlotFits(layouts[s], bound[s], maximum, firstInstance, instanceCount)
  }

  /** The largest vertex of a draw that can be walked. */
  ghost predicate WalksUpTo(walk: Walk, maximum: nat) {
    && Addressable(walk)
    && match walk
       case Sequential(first, count) => maximum == first + count - 1
       case Indexed(_, _, bytes, format, base) =>
         && (forall v :: v in IB.Indices(bytes, format) ==> 0 <= v + base <= maximum)
         && maximum <= MAX_INDEX
         && (if IB.Indices(bytes, format) == [] then maximum == 0 else Walks(walk, maximum))
  }

  /**
   The per-draw check: it succeeds exactly for draws whose walk has a largest
   vertex and whose last steps fit, and those cannot read outside their buffers.
   */
  method CheckDraw(
    layouts: seq<Layout>, bound: seq<Option<Bound>>, walk: Walk, bounds: IB.Bounds, firstInstance: nat,
    instanceCount: nat)
    returns (result: Result<seq<nat>, FetchError>)
    requires |layouts| <= |bound| && forall s :: 0 <= s < |layouts| ==> ValidLayout(layouts[s])
    requires walk.Indexed? ==> bounds == IB.Scan(walk.bytes, walk.format)
    ensures result.Ok? ==>
      |result.value| == |layouts| && FetchesInside(layouts, bound, result.value, walk, instanceCount)
    ensures result.Ok? ==> instanceCount > 0 && forall v :: Walks(walk, v) ==> 0 <= v
    ensures result.Ok? ==> forall s :: 0 <= s < |layouts| ==> result.value[s] <= MAX_INDEX
    ensures result.Ok? <==>
      exists maximum: nat :: WalksUpTo(walk, maximum)
        && DrawFits(layouts, bound, walk, firstInstance, instanceCount, maximum)
  {
    var maximum := MaximumVertex(walk, bounds);
    if maximum.Err? {
      return Err(maximum.error);
    }
    if walk.Indexed? {
      forall v | v in IB.Indices(walk.bytes, walk.format) ensures 0 <= v + walk.baseVertex <= maximum.value {
        assert Walks(walk, v + walk.baseVertex);
      }
    }
    assert WalksUpTo(walk, maximum.value);
    LargestUnique(walk, maximum.value);
    if instanceCount == 0 || firstInstance + instanceCount > MAX_INDEX {
      return Err(InvalidValue);
    }
    var offsets: seq<nat> := [];
    var s := 0;
    while s < |layouts|
      invariant 0 <= s <= |layouts| && |offsets| == s && FetchesInside(layouts, bound, offsets, walk, instanceCount)
      invariant forall i :: 0 <= i < s ==> offsets[i] <= MAX_INDEX
      invariant forall i :: 0 <= i < s ==>
        SlotFits(layouts[i], bound[i], maximum.value, firstInstance, instanceCount)
    {
      var offset := CheckSlot(layouts[s], bound[s], maximum.value, firstInstance, instanceCount);
      if offset.Err? {
        return Err(offset.error);
      }
      offsets := offsets + [offset.value];
      s := s + 1;
    }
    assert DrawFits(layouts, bound, walk, firstInstance, instanceCount, maximum.value);
    return Ok(offsets);
  }

  lemma LargestUnique(walk: Walk, maximum: nat)
    requires WalksUpTo(walk, maximum)
    ensures forall other: nat :: WalksUpTo(walk, other) ==> other == maximum
  {
    forall other: nat | WalksUpTo(walk, other) ensures other == maximum {
      if walk.Indexed? && IB.Indices(walk.bytes, walk.format) != [] {
        assert other - walk.baseVertex in IB.Indices(walk.bytes, walk.format);
        assert maximum - walk.baseVertex in IB.Indices(walk.bytes, walk.format);
      }
    }
  }

  /** One slot of the check. */
  method CheckSlot(
    layout: Layout, bound: Option<Bound>, maximumVertex: nat, firstInstance: nat, instanceCount: nat)
    returns (result: Result<nat, FetchError>)
    requires ValidLayout(layout) && instanceCount > 0
    ensures result.Ok? <==> SlotFits(layout, bound, maximumVertex, firstInstance, instanceCount)
    ensures result.Ok? ==>
      result.value <= MAX_INDEX
      && Covers(layout, bound.value.length, result.value, maximumVertex, instanceCount, FurthestEnd(layout.attributes))
    ensures result.Err? && result.error == VertexBufferNotSet <==> bound.None?
  {
    if bound.None? {
      return Err(VertexBufferNotSet);
    }
    var attributeEnd := AttributeEnd(layout.attributes);
    var range := VertexFetchRange(layout, bound.value.offset, maximumVertex, firstInstance, instanceCount,
      attributeEnd);
    if range.Err? {
      return Err(range.error);
    }
    if range.value.0 > bound.value.length {
      return Err(OutOfBounds);
    }
    if range.value.1 > MAX_INDEX {
      return Err(Overflow);
    }
    return Ok(range.value.1);
  }
}
