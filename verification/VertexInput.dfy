/**
 Rewriting packed vertex inputs: a pass over the type arena that narrows packed
 attributes to one word, and code appended to a wrapper that rebuilds what the
 original entry point expects. Handles are positions in an arena; a
 well-formed arena refers only to earlier entries.
 */
module VertexInput {
  import opened Common
  import opened Snorm

  datatype Member = Member(ty: nat, location: Option<nat>)
  datatype Type =
    | Uint
    | Vector(size: nat, float: bool)
    | Struct(members: seq<Member>, span: nat)
    | Other(id: nat)

  datatype LowerError = Unsupported | InvalidState

  predicate WellFormed(types: seq<Type>) {
    forall h :: 0 <= h < |types| ==>
      && (types[h].Vector? ==> 2 <= types[h].size <= 4)
      && (types[h].Struct? ==> forall m :: 0 <= m < |types[h].members| ==> types[h].members[m].ty < h)
  }

  /** No type twice, so equal types have equal handles. */
  predicate Unique(types: seq<Type>) { forall i, j :: 0 <= i < j < |types| ==> types[i] != types[j] }

  // -------------------------------------------------------------------- values

  datatype Value =
    | UintValue(n: nat)
    | SintValue(i: int)
    | FloatValue(r: real)
    | VectorValue(xs: seq<real>)
    | StructValue(fields: seq<Value>)
    | OpaqueValue(id: nat)
    | Bad

  /** Values an entry point may receive for a type. */
  predicate HasType(types: seq<Type>, ty: nat, v: Value)
    requires WellFormed(types)
    decreases ty
  {
    ty < |types| &&
    match types[ty]
    case Uint => v.UintValue? && v.n < 0x1_0000_0000
    case Vector(size, float) => if float then v.VectorValue? && |v.xs| == size else v.OpaqueValue?
    case Struct(members, _) =>
      && v.StructValue? && |v.fields| == |members|
      && forall m :: 0 <= m < |members| ==> HasType(types, members[m].ty, v.fields[m])
    case Other(_) => v.OpaqueValue?
  }

  function FieldOffset(k: nat): nat
    requires k < 4
  {
    10 * k
  }

  function FieldWidth(k: nat): (r: nat)
    requires k < 4
    ensures Field(FieldOffset(k), r)
  {
    if k == 3 then 2 else 10
  }

  /** The attribute a packed word stands for. */
  function DecodeWord(u: nat, size: nat): (r: seq<real>)
    requires size <= 4
    ensures |r| == size
  {
    seq(size, k requires 0 <= k < size => Normalized(SignedField(u, FieldOffset(k), FieldWidth(k)), FieldWidth(k)))
  }

  /** Packing four codes and decoding the word gives their normalized values, in that order. */
  lemma DecodePacked(x: int, y: int, z: int, w: int, size: nat)
    requires Codes(x, y, z, w) && size <= 4
    ensures DecodeWord(PackFields(x, y, z, w), size) == Unpacked(x, y, z, w)[..size]
  {
    PackedFields(x, y, z, w);
    var u := PackFields(x, y, z, w);
    forall k | 0 <= k < size ensures DecodeWord(u, size)[k] == Unpacked(x, y, z, w)[k] {
      ComponentPacked(u, x, y, z, w, k);
    }
  }

  lemma ComponentPacked(u: nat, x: int, y: int, z: int, w: int, k: nat)
    requires Codes(x, y, z, w) && k < 4
    requires SignedField(u, 0, 10) == x && SignedField(u, 10, 10) == y
    requires SignedField(u, 20, 10) == z && SignedField(u, 30, 2) == w
    ensures Normalized(SignedField(u, FieldOffset(k), FieldWidth(k)), FieldWidth(k)) == Unpacked(x, y, z, w)[k]
  {
    NormalizedTen(x);
    NormalizedTen(y);
    NormalizedTen(z);
    NormalizedTwo(w);
  }

  lemma NormalizedTwo(code: int)
    requires -2 <= code <= 1
    ensures Normalized(code, 2) == if code <= -1 then -1.0 else code as real
  {
  }

  lemma NormalizedTen(code: int)
    requires -512 <= code <= 511
    ensures Normalized(code, 10) == if code <= -511 then -1.0 else code as real / 511.0
  {
    assert code as real / 511.0 < -1.0 <==> code < -511;
  }

  /** `vector` lists, in order, the normalized values of the codes packed in `word`. */
  ghost predicate Unpacks(word: Value, vector: Value, size: nat)
    requires size <= 4
  {
    exists x: int, y: int, z: int, w: int ::
      && Codes(x, y, z, w) && word == UintValue(PackFields(x, y, z, w))
      && vector == VectorValue(Unpacked(x, y, z, w)[..size])
  }

  /** `wanted` is `given` with the words at the packed locations unpacked, wherever they are nested. */
  ghost predicate Restores(
    types: seq<Type>, original: nat, location: Option<nat>, locations: seq<nat>, given: Value, wanted: Value)
    requires WellFormed(types)
    decreases original
  {
    original < |types| &&
    if location.Some? && location.value in locations then
      types[original].Vector? && Unpacks(given, wanted, types[original].size)
    else if types[original].Struct? && given.StructValue? then
      var members := types[original].members;
      && wanted.StructValue? && |wanted.fields| == |given.fields| == |members|
      && forall m :: 0 <= m < |members| ==>
           Restores(types, members[m].ty, members[m].location, locations, given.fields[m], wanted.fields[m])
    else wanted == given
  }

  /** What the original entry point receives for an input of the rewritten type. */
  function Decode(types: seq<Type>, original: nat, input: nat, v: Value): Value
    requires WellFormed(types) && original < |types| && input < |types|
    decreases original
  {
    if original == input then v
    else
      match types[original]
      case Struct(members, _) =>
        if types[input].Struct? && |types[input].members| == |members| && v.StructValue? && |v.fields| == |members|
        then StructValue(seq(|members|, m requires 0 <= m < |members| =>
               Decode(types, members[m].ty, types[input].members[m].ty, v.fields[m])))
        else Bad
      case Vector(size, _) => if v.UintValue? then VectorValue(DecodeWord(v.n, size)) else Bad
      case _ => Bad
  }

  /** `input` is `original` with exactly the packed locations narrowed to words. */
  predicate Narrows(types: seq<Type>, original: nat, input: nat, location: Option<nat>, locations: seq<nat>)
    requires WellFormed(types)
    decreases original
  {
    && original < |types| && input < |types|
    && if location.Some? && location.value in locations then
         types[original].Vector? && types[original].float && types[input].Uint?
       else if types[original].Struct? then
         && types[input].Struct? && types[input].span == types[original].span
         && |types[input].members| == |types[original].members|
         && forall m :: 0 <= m < |types[original].members| ==>
              && types[input].members[m].location == types[original].members[m].location
              && Narrows(types, types[original].members[m].ty, types[input].members[m].ty,
                   types[original].members[m].location, locations)
       else input == original
  }

  /** Well-typed inputs decode to well-typed originals. */
  lemma {:induction false} DecodeTyped(
    types: seq<Type>, original: nat, input: nat, location: Option<nat>, locations: seq<nat>, v: Value)
    requires WellFormed(types) && Narrows(types, original, input, location, locations) && HasType(types, input, v)
    ensures HasType(types, original, Decode(types, original, input, v))
    decreases original
  {
    if original != input && types[original].Struct? {
      var members, inputs := types[original].members, types[input].members;
      forall m | 0 <= m < |members|
        ensures HasType(types, members[m].ty, Decode(types, members[m].ty, inputs[m].ty, v.fields[m]))
      {
        DecodeTyped(types, members[m].ty, inputs[m].ty, members[m].location, locations, v.fields[m]);
      }
    }
  }

  lemma FieldsDecoded(types: seq<Type>, original: nat, input: nat, given: Value, wanted: Value)
    requires WellFormed(types) && original < |types| && input < |types|
    requires types[original].Struct? && types[input].Struct? && given.StructValue? && wanted.StructValue?
    requires |types[input].members| == |types[original].members| == |given.fields| == |wanted.fields|
    ensures wanted == Decode(types, original, input, given) <==>
      forall m :: 0 <= m < |wanted.fields| ==>
        wanted.fields[m]
          == Decode(types, types[original].members[m].ty, types[input].members[m].ty, given.fields[m])
  {
    var members, inputs := types[original].members, types[input].members;
    if original != input {
      var decoded := seq(|members|, m requires 0 <= m < |members| =>
        Decode(types, members[m].ty, inputs[m].ty, given.fields[m]));
      assert wanted == StructValue(decoded) <==> wanted.fields == decoded;
    } else {
      assert wanted == given <==> wanted.fields == given.fields;
    }
  }

  /** Decoding gives the one value that restores the input. */
  lemma {:induction false} DecodeRestores(
    types: seq<Type>, original: nat, input: nat, location: Option<nat>, locations: seq<nat>, given: Value,
    wanted: Value)
    requires WellFormed(types) && Narrows(types, original, input, location, locations)
    requires HasType(types, input, given)
    ensures Restores(types, original, location, locations, given, wanted)
       <==> wanted == Decode(types, original, input, given)
    decreases original
  {
    if location.Some? && location.value in locations {
      var size := types[original].size;
      WordPacked(given.n);
      forall x: int, y: int, z: int, w: int | Codes(x, y, z, w) && given == UintValue(PackFields(x, y, z, w))
        ensures DecodeWord(given.n, size) == Unpacked(x, y, z, w)[..size]
      {
        DecodePacked(x, y, z, w, size);
      }
    } else if types[original].Struct? {
      var members, inputs := types[original].members, types[input].members;
      if wanted.StructValue? && |wanted.fields| == |members| {
        forall m | 0 <= m < |members|
          ensures Restores(types, members[m].ty, members[m].location, locations, given.fields[m], wanted.fields[m])
             <==> wanted.fields[m] == Decode(types, members[m].ty, inputs[m].ty, given.fields[m])
        {
          DecodeRestores(
            types, members[m].ty, inputs[m].ty, members[m].location, locations, given.fields[m], wanted.fields[m]);
        }
        FieldsDecoded(types, original, input, given, wanted);
      }
    }
  }

  /** The pass may fail only on a packed location that is not a float vector. */
  predicate Narrowable(types: seq<Type>, original: nat, location: Option<nat>, locations: seq<nat>)
    requires WellFormed(types)
    decreases original
  {
    && original < |types|
    && if location.Some? && location.value in locations then types[original].Vector? && types[original].float
       else types[original].Struct? ==>
         forall m :: 0 <= m < |types[original].members| ==>
           Narrowable(types, types[original].members[m].ty, types[original].members[m].location, locations)
  }

  lemma {:induction false} NarrowsLater(
    types: seq<Type>, later: seq<Type>, original: nat, input: nat, location: Option<nat>, locations: seq<nat>)
    requires types <= later && WellFormed(types) && WellFormed(later)
    requires Narrows(types, original, input, location, locations)
    ensures Narrows(later, original, input, location, locations)
    decreases original
  {
    if types[original].Struct? && !(location.Some? && location.value in locations) {
      var members, inputs := types[original].members, types[input].members;
      forall m | 0 <= m < |members|
        ensures Narrows(later, members[m].ty, inputs[m].ty, members[m].location, locations)
      {
        NarrowsLater(types, later, members[m].ty, inputs[m].ty, members[m].location, locations);
      }
    }
  }

  lemma {:induction false} NarrowableSame(
    types: seq<Type>, later: seq<Type>, original: nat, location: Option<nat>, locations: seq<nat>)
    requires types <= later && WellFormed(types) && WellFormed(later) && original < |types|
    ensures Narrowable(later, original, location, locations) <==> Narrowable(types, original, location, locations)
    decreases original
  {
    if types[original].Struct? {
      var members := types[original].members;
      forall m | 0 <= m < |members|
        ensures Narrowable(later, members[m].ty, members[m].location, locations)
           <==> Narrowable(types, members[m].ty, members[m].location, locations)
      {
        NarrowableSame(types, later, members[m].ty, members[m].location, locations);
      }
    }
  }

  /** The shared type arena; inserting a type it holds returns the held handle. */
  class TypeArena {
    var types: seq<Type>

    ghost predicate Valid()
      reads this
    {
      WellFormed(types) && Unique(types)
    }

    constructor (initial: seq<Type>)
      requires WellFormed(initial) && Unique(initial)
      ensures Valid() && types == initial
    {
      types := initial;
    }

    method Insert(ty: Type) returns (handle: nat)
      requires Valid() && !ty.Vector?
      requires ty.Struct? ==> forall m :: 0 <= m < |ty.members| ==> ty.members[m].ty < |types|
      modifies this
      ensures Valid() && old(types) <= types && handle < |types| && types[handle] == ty
    {
      handle := 0;
      while handle < |types|
        invariant 0 <= handle <= |types| && forall j :: 0 <= j < handle ==> types[j] != ty
      {
        if types[handle] == ty {
          return;
        }
        handle := handle + 1;
      }
      types := types + [ty];
    }

    /** Narrow the packed locations below `original`; an untouched type keeps its handle. */
    method InputType(original: nat, location: Option<nat>, locations: seq<nat>)
      returns (result: Result<nat, LowerError>)
      requires Valid() && original < |types|
      modifies this
      ensures Valid() && old(types) <= types
      ensures result.Ok? <==> Narrowable(old(types), original, location, locations)
      ensures result.Err? ==> result.error == Unsupported
      ensures result.Ok? ==> Narrows(types, original, result.value, location, locations)
      decreases original
    {
      if location.Some? && location.value in locations {
        if !types[original].Vector? || !types[original].float {
          return Err(Unsupported);
        }
        var word := Insert(Uint);
        return Ok(word);
      }
      if types[original].Struct? {
        result := StructType(original, location, locations);
        return;
      }
      return Ok(original);
    }

    method StructType(original: nat, ghost location: Option<nat>, locations: seq<nat>)
      returns (result: Result<nat, LowerError>)
      requires Valid() && original < |types| && types[original].Struct?
      requires !(location.Some? && location.value in locations)
      modifies this
      ensures Valid() && old(types) <= types
      ensures result.Ok? <==> Narrowable(old(types), original, location, locations)
      ensures result.Err? ==> result.error == Unsupported
      ensures result.Ok? ==> Narrows(types, original, result.value, location, locations)
      decreases original, 0
    {
      var members, span := types[original].members, types[original].span;
      var lowered: seq<Member> := [];
      var changed := false;
      ghost var start := types;
      var k := 0;
      while k < |members|
        invariant 0 <= k <= |members| && Valid() && start <= types
        invariant MembersNarrow(types, members[..k], lowered, locations)
        invariant changed <==> lowered != members[..k]
        invariant forall m :: 0 <= m < k ==> Narrowable(start, members[m].ty, members[m].location, locations)
      {
        ghost var before := types;
        var ty := InputType(members[k].ty, members[k].location, locations);
        NarrowableSame(start, before, members[k].ty, members[k].location, locations);
        if ty.Err? {
          return Err(ty.error);
        }
        MembersLater(before, types, members[..k], lowered, locations);
        changed := changed || ty.value != members[k].ty;
        lowered := lowered + [members[k].(ty := ty.value)];
        assert members[..k + 1] == members[..k] + [members[k]];
        k := k + 1;
      }
      assert members[..k] == members;
      if !changed {
        return Ok(original);
      }
      ghost var before := types;
      var handle := Insert(Struct(lowered, span));
      MembersLater(before, types, members, lowered, locations);
      return Ok(handle);
    }
  }

  /** Member by member, the struct under construction narrows the original. */
  ghost predicate MembersNarrow(types: seq<Type>, members: seq<Member>, lowered: seq<Member>, locations: seq<nat>)
    requires WellFormed(types)
  {
    |lowered| == |members| && forall m :: 0 <= m < |members| ==>
      && lowered[m].location == members[m].location
      && Narrows(types, members[m].ty, lowered[m].ty, members[m].location, locations)
  }

  lemma MembersLater(
    types: seq<Type>, later: seq<Type>, members: seq<Member>, lowered: seq<Member>, locations: seq<nat>)
    requires types <= later && WellFormed(types) && WellFormed(later)
      && MembersNarrow(types, members, lowered, locations)
    ensures MembersNarrow(later, members, lowered, locations)
  {
    forall m | 0 <= m < |members|
      ensures Narrows(later, members[m].ty, lowered[m].ty, members[m].location, locations)
    {
      NarrowsLater(types, later, members[m].ty, lowered[m].ty, members[m].location, locations);
    }
  }

  // --------------------------------------------------------------- expressions

  datatype Expr =
    | FunctionArgument(index: nat)
    | AccessIndex(base: nat, member: nat)
    | Compose(ty: nat, components: seq<nat>)
    | AsSint(sint: nat)
    | AsFloat(float: nat)
    | LiteralUint(u: nat)
    | LiteralFloat(f: real)
    | ShiftLeftExpr(left: nat, right: nat)
    | ShiftRightExpr(left: nat, right: nat)
    | Divide(left: nat, right: nat)
    | MaxExpr(left: nat, right: nat)

  datatype Statement = Emit(handle: nat)

  /** Arguments and literals exist before any statement runs. */
  predicate NeedsPreEmit(e: Expr) { e.FunctionArgument? || e.LiteralUint? || e.LiteralFloat? }

  predicate RefersBelow(e: Expr, bound: nat) {
    match e
    case FunctionArgument(_) => true
    case AccessIndex(b, _) => b < bound
    case Compose(_, components) => forall k :: 0 <= k < |components| ==> components[k] < bound
    case AsSint(x) => x < bound
    case AsFloat(x) => x < bound
    case LiteralUint(_) => true
    case LiteralFloat(_) => true
    case ShiftLeftExpr(l, r) => l < bound && r < bound
    case ShiftRightExpr(l, r) => l < bound && r < bound
    case Divide(l, r) => l < bound && r < bound
    case MaxExpr(l, r) => l < bound && r < bound
  }

  /** Single assignment: every expression refers only to earlier handles. */
  predicate Scoped(exprs: seq<Expr>) { forall h :: 0 <= h < |exprs| ==> RefersBelow(exprs[h], h) }

  function Floats(values: seq<Value>): seq<real> {
    seq(|values|, k requires 0 <= k < |values| => if values[k].FloatValue? then values[k].r else 0.0)
  }

  function Eval(types: seq<Type>, exprs: seq<Expr>, args: seq<Value>, h: nat): Value
    requires Scoped(exprs) && h < |exprs|
    decreases h
  {
    match exprs[h]
    case FunctionArgument(i) => if i < |args| then args[i] else Bad
    case AccessIndex(b, m) =>
      var base := Eval(types, exprs, args, b);
      if base.StructValue? && m < |base.fields| then base.fields[m] else Bad
    case Compose(ty, components) =>
      var values := seq(|components|, k requires 0 <= k < |components| => Eval(types, exprs, args, components[k]));
      if ty < |types| && types[ty].Struct? then StructValue(values) else VectorValue(Floats(values))
    case AsSint(x) =>
      var v := Eval(types, exprs, args, x);
      if v.UintValue? then SintValue(Signed(v.n)) else Bad
    case AsFloat(x) =>
      var v := Eval(types, exprs, args, x);
      if v.SintValue? then FloatValue(v.i as real) else Bad
    case LiteralUint(n) => UintValue(n)
    case LiteralFloat(r) => FloatValue(r)
    case ShiftLeftExpr(l, r) =>
      var a, n := Eval(types, exprs, args, l), Eval(types, exprs, args, r);
      if a.SintValue? && n.UintValue? then SintValue(ShiftLeft(a.i, n.n)) else Bad
    case ShiftRightExpr(l, r) =>
      var a, n := Eval(types, exprs, args, l), Eval(types, exprs, args, r);
      if a.SintValue? && n.UintValue? && Pow2(n.n) > 0 then SintValue(ShiftRight(a.i, n.n)) else Bad
    case Divide(l, r) =>
      var a, b := Eval(types, exprs, args, l), Eval(types, exprs, args, r);
      if a.FloatValue? && b.FloatValue? && b.r != 0.0 then FloatValue(a.r / b.r) else Bad
    case MaxExpr(l, r) =>
      var a, b := Eval(types, exprs, args, l), Eval(types, exprs, args, r);
      if a.FloatValue? && b.FloatValue? then FloatValue(Larger(a.r, b.r)) else Bad
  }

  /** Appending expressions changes no earlier value. */
  lemma {:induction false} EvalStable(types: seq<Type>, exprs: seq<Expr>, later: seq<Expr>, args: seq<Value>, h: nat)
    requires Scoped(exprs) && Scoped(later) && exprs <= later && h < |exprs|
    ensures Eval(types, later, args, h) == Eval(types, exprs, args, h)
    decreases h
  {
    match exprs[h] {
      case AccessIndex(b, _) => EvalStable(types, exprs, later, args, b);
      case Compose(_, components) =>
        forall k | 0 <= k < |components|
          ensures Eval(types, later, args, components[k]) == Eval(types, exprs, args, components[k])
        {
          EvalStable(types, exprs, later, args, components[k]);
        }
      case AsSint(x) => EvalStable(types, exprs, later, args, x);
      case AsFloat(x) => EvalStable(types, exprs, later, args, x);
      case ShiftLeftExpr(l, r) => EvalStable(types, exprs, later, args, l); EvalStable(types, exprs, later, args, r);
      case ShiftRightExpr(l, r) => EvalStable(types, exprs, later, args, l); EvalStable(types, exprs, later, args, r);
      case Divide(l, r) => EvalStable(types, exprs, later, args, l); EvalStable(types, exprs, later, args, r);
      case MaxExpr(l, r) => EvalStable(types, exprs, later, args, l); EvalStable(types, exprs, later, args, r);
      case _ =>
    }
  }

  /** The statements that emit handles `[from, |exprs|)`, in order. */
  function Emits(exprs: seq<Expr>, from: nat): seq<Statement>
    decreases |exprs|
  {
    if |exprs| <= from then []
    else
      var n := |exprs| - 1;
      Emits(exprs[..n], from) + if NeedsPreEmit(exprs[n]) then [] else [Emit(n)]
  }

  /** Computed expressions are emitted once each, in handle order: every operand before its use. */
  lemma {:induction false} EmitsOrdered(exprs: seq<Expr>, from: nat)
    ensures forall h: nat :: Emit(h) in Emits(exprs, from) <==>
      from <= h < |exprs| && !exprs[h].FunctionArgument? && !exprs[h].LiteralUint? && !exprs[h].LiteralFloat?
    ensures forall i, j :: 0 <= i < j < |Emits(exprs, from)| ==>
      Emits(exprs, from)[i].handle < Emits(exprs, from)[j].handle
    ensures forall i :: 0 <= i < |Emits(exprs, from)| ==> Emits(exprs, from)[i].handle < |exprs|
    decreases |exprs|
  {
    if |exprs| > from {
      EmitsOrdered(exprs[..|exprs| - 1], from);
    }
  }

  /** The nine expressions that extract and normalize one field, from handle `n` on. */
  function FieldCode(n: nat, signed: nat, offset: nat, width: nat): seq<Expr>
    requires Field(offset, width)
  {
    [LiteralUint(32 - offset - width), LiteralUint(32 - width), ShiftLeftExpr(signed, n), ShiftRightExpr(n + 2, n + 1),
     AsFloat(n + 3), LiteralFloat(Divisor(width) as real), Divide(n + 4, n + 5), LiteralFloat(-1.0),
     MaxExpr(n + 6, n + 7)]
  }

  predicate CodeAt(exprs: seq<Expr>, n: nat, code: seq<Expr>) {
    n + |code| <= |exprs| && exprs[n..n + |code|] == code
  }

  lemma CodeEntry(exprs: seq<Expr>, n: nat, code: seq<Expr>, k: nat)
    requires CodeAt(exprs, n, code) && k < |code|
    ensures exprs[n + k] == code[k]
  {
    assert exprs[n..n + |code|][k] == exprs[n + k];
  }

  lemma ExtractMeaning(
    types: seq<Type>, exprs: seq<Expr>, args: seq<Value>, n: nat, signed: nat, offset: nat, width: nat, u: nat)
    requires Scoped(exprs) && Field(offset, width) && signed < n
      && CodeAt(exprs, n, FieldCode(n, signed, offset, width))
    requires u < 0x1_0000_0000 && Eval(types, exprs, args, signed) == SintValue(Signed(u))
    ensures Eval(types, exprs, args, n + 3) == SintValue(SignedField(u, offset, width))
  {
    var code := FieldCode(n, signed, offset, width);
    CodeEntry(exprs, n, code, 0);
    CodeEntry(exprs, n, code, 1);
    CodeEntry(exprs, n, code, 2);
    CodeEntry(exprs, n, code, 3);
    ShiftsExtract(u, offset, width);
    ShiftMeaning(types, exprs, args, n, signed, Signed(u), 32 - offset - width, 32 - width);
  }

  lemma ShiftMeaning(types: seq<Type>, exprs: seq<Expr>, args: seq<Value>, n: nat, signed: nat, a: int, l: nat, r: nat)
    requires Scoped(exprs) && signed < n && n + 4 <= |exprs| && Pow2(r) > 0
    requires Eval(types, exprs, args, signed) == SintValue(a)
    requires exprs[n] == LiteralUint(l) && exprs[n + 1] == LiteralUint(r)
    requires exprs[n + 2] == ShiftLeftExpr(signed, n) && exprs[n + 3] == ShiftRightExpr(n + 2, n + 1)
    ensures Eval(types, exprs, args, n + 3) == SintValue(ShiftRight(ShiftLeft(a, l), r))
  {
    assert Eval(types, exprs, args, n) == UintValue(l);
    assert Eval(types, exprs, args, n + 1) == UintValue(r);
    assert Eval(types, exprs, args, n + 2) == SintValue(ShiftLeft(a, l));
  }

  /** The emitted code computes the normalization rule. */
  lemma FieldMeaning(
    types: seq<Type>, exprs: seq<Expr>, args: seq<Value>, n: nat, signed: nat, offset: nat, width: nat, u: nat)
    requires Scoped(exprs) && Field(offset, width) && signed < n
      && CodeAt(exprs, n, FieldCode(n, signed, offset, width))
    requires u < 0x1_0000_0000 && Eval(types, exprs, args, signed) == SintValue(Signed(u))
    ensures Eval(types, exprs, args, n + 8) == FloatValue(Normalized(SignedField(u, offset, width), width))
  {
    var code := FieldCode(n, signed, offset, width);
    ExtractMeaning(types, exprs, args, n, signed, offset, width, u);
    CodeEntry(exprs, n, code, 4);
    CodeEntry(exprs, n, code, 5);
    CodeEntry(exprs, n, code, 6);
    CodeEntry(exprs, n, code, 7);
    CodeEntry(exprs, n, code, 8);
    NormalizeMeaning(types, exprs, args, n, SignedField(u, offset, width), Divisor(width) as real);
  }

  lemma NormalizeMeaning(types: seq<Type>, exprs: seq<Expr>, args: seq<Value>, n: nat, code: int, divisor: real)
    requires Scoped(exprs) && n + 9 <= |exprs| && divisor != 0.0
    requires Eval(types, exprs, args, n + 3) == SintValue(code)
    requires exprs[n + 4] == AsFloat(n + 3) && exprs[n + 5] == LiteralFloat(divisor)
    requires exprs[n + 6] == Divide(n + 4, n + 5) && exprs[n + 7] == LiteralFloat(-1.0)
    requires exprs[n + 8] == MaxExpr(n + 6, n + 7)
    ensures Eval(types, exprs, args, n + 8) == FloatValue(Larger(code as real / divisor, -1.0))
  {
    assert Eval(types, exprs, args, n + 4) == FloatValue(code as real);
    assert Eval(types, exprs, args, n + 5) == FloatValue(divisor);
    assert Eval(types, exprs, args, n + 6) == FloatValue(code as real / divisor);
    assert Eval(types, exprs, args, n + 7) == FloatValue(-1.0);
  }

  // ------------------------------------------------------------ emitted values

  /** For any arguments, handle `h` holds what the input at `value` decodes to. */
  ghost predicate Rebuilds(types: seq<Type>, exprs: seq<Expr>, value: nat, h: nat, original: nat, input: nat) {
    && WellFormed(types) && original < |types| && input < |types| && Scoped(exprs) && value < |exprs| && h < |exprs|
    && forall args: seq<Value> :: HasType(types, input, Eval(types, exprs, args, value)) ==>
         Eval(types, exprs, args, h) == Decode(types, original, input, Eval(types, exprs, args, value))
  }

  /** The same for member `m` of the struct at `value`. */
  ghost predicate RebuildsMember(
    types: seq<Type>, exprs: seq<Expr>, value: nat, m: nat, h: nat, original: nat, input: nat)
  {
    && WellFormed(types) && original < |types| && input < |types| && Scoped(exprs) && value < |exprs| && h < |exprs|
    && forall args: seq<Value> ::
         var v := Eval(types, exprs, args, value);
         v.StructValue? && m < |v.fields| && HasType(types, input, v.fields[m]) ==>
           Eval(types, exprs, args, h) == Decode(types, original, input, v.fields[m])
  }

  lemma RebuildsMemberLater(
    types: seq<Type>, exprs: seq<Expr>, later: seq<Expr>, value: nat, m: nat, h: nat, original: nat, input: nat)
    requires RebuildsMember(types, exprs, value, m, h, original, input) && exprs <= later && Scoped(later)
    ensures RebuildsMember(types, later, value, m, h, original, input)
  {
    forall args: seq<Value>
      ensures var v := Eval(types, later, args, value);
        v.StructValue? && m < |v.fields| && HasType(types, input, v.fields[m]) ==>
          Eval(types, later, args, h) == Decode(types, original, input, v.fields[m])
    {
      EvalStable(types, exprs, later, args, value);
      EvalStable(types, exprs, later, args, h);
    }
  }

  lemma MemberRebuilt(
    types: seq<Type>, exprs: seq<Expr>, value: nat, m: nat, access: nat, h: nat, original: nat, input: nat)
    requires Rebuilds(types, exprs, access, h, original, input) && value < |exprs|
      && exprs[access] == AccessIndex(value, m)
    ensures RebuildsMember(types, exprs, value, m, h, original, input)
  {
    forall args: seq<Value>
      ensures var v := Eval(types, exprs, args, value);
        v.StructValue? && m < |v.fields| && HasType(types, input, v.fields[m]) ==>
          Eval(types, exprs, args, h) == Decode(types, original, input, v.fields[m])
    {
      var v := Eval(types, exprs, args, value);
      if v.StructValue? && m < |v.fields| {
        assert Eval(types, exprs, args, access) == v.fields[m];
      }
    }
  }

  /** The components so far rebuild the leading members. */
  ghost predicate ComponentsRebuild(
    types: seq<Type>, exprs: seq<Expr>, value: nat, components: seq<nat>, members: seq<Member>, inputs: seq<Member>)
  {
    && |components| <= |members| == |inputs|
    && forall m :: 0 <= m < |components| ==>
         RebuildsMember(types, exprs, value, m, components[m], members[m].ty, inputs[m].ty)
  }

  lemma StructRebuilt(
    types: seq<Type>, exprs: seq<Expr>, value: nat, components: seq<nat>, h: nat, original: nat, input: nat)
    requires WellFormed(types) && original < |types| && input < |types| && original != input
    requires types[original].Struct? && types[input].Struct? && |types[original].members| == |types[input].members|
    requires Scoped(exprs) && value < |exprs| && h < |exprs| && exprs[h] == Compose(original, components)
    requires |components| == |types[original].members|
    requires ComponentsRebuild(types, exprs, value, components, types[original].members, types[input].members)
    ensures Rebuilds(types, exprs, value, h, original, input)
  {
    var members, inputs := types[original].members, types[input].members;
    forall args: seq<Value> | HasType(types, input, Eval(types, exprs, args, value))
      ensures Eval(types, exprs, args, h) == Decode(types, original, input, Eval(types, exprs, args, value))
    {
      var v := Eval(types, exprs, args, value);
      forall m | 0 <= m < |components|
        ensures Eval(types, exprs, args, components[m]) == Decode(types, members[m].ty, inputs[m].ty, v.fields[m])
      {
        assert RebuildsMember(types, exprs, value, m, components[m], members[m].ty, inputs[m].ty);
        assert HasType(types, inputs[m].ty, v.fields[m]);
      }
    }
  }

  /** Handle `h` holds field `k` of the word at `value`. */
  ghost predicate RebuildsField(types: seq<Type>, exprs: seq<Expr>, value: nat, k: nat, h: nat)
    requires k < 4
  {
    && Scoped(exprs) && value < |exprs| && h < |exprs|
    && forall args: seq<Value> ::
         var v := Eval(types, exprs, args, value);
         v.UintValue? && v.n < 0x1_0000_0000 ==>
           Eval(types, exprs, args, h)
             == FloatValue(Normalized(SignedField(v.n, FieldOffset(k), FieldWidth(k)), FieldWidth(k)))
  }

  lemma FieldRebuilt(types: seq<Type>, exprs: seq<Expr>, value: nat, signed: nat, k: nat, n: nat)
    requires k < 4 && Scoped(exprs) && value < |exprs| && signed < n <= |exprs| && exprs[signed] == AsSint(value)
    requires CodeAt(exprs, n, FieldCode(n, signed, FieldOffset(k), FieldWidth(k)))
    ensures RebuildsField(types, exprs, value, k, n + 8)
  {
    forall args: seq<Value>
      ensures var v := Eval(types, exprs, args, value);
        v.UintValue? && v.n < 0x1_0000_0000 ==>
          Eval(types, exprs, args, n + 8)
          == FloatValue(Normalized(SignedField(v.n, FieldOffset(k), FieldWidth(k)), FieldWidth(k)))
    {
      var v := Eval(types, exprs, args, value);
      if v.UintValue? && v.n < 0x1_0000_0000 {
        assert Eval(types, exprs, args, signed) == SintValue(Signed(v.n));
        FieldMeaning(types, exprs, args, n, signed, FieldOffset(k), FieldWidth(k), v.n);
      }
    }
  }

  lemma FieldLater(types: seq<Type>, exprs: seq<Expr>, later: seq<Expr>, value: nat, k: nat, h: nat)
    requires k < 4 && RebuildsField(types, exprs, value, k, h) && exprs <= later && Scoped(later)
    ensures RebuildsField(types, later, value, k, h)
  {
    forall args: seq<Value>
      ensures var v := Eval(types, later, args, value);
        v.UintValue? && v.n < 0x1_0000_0000 ==>
          Eval(types, later, args, h)
          == FloatValue(Normalized(SignedField(v.n, FieldOffset(k), FieldWidth(k)), FieldWidth(k)))
    {
      EvalStable(types, exprs, later, args, value);
      EvalStable(types, exprs, later, args, h);
    }
  }

  lemma VectorRebuilt(
    types: seq<Type>, exprs: seq<Expr>, value: nat, components: seq<nat>, h: nat, original: nat, input: nat)
    requires WellFormed(types) && original < |types| && input < |types| && original != input
    requires types[original].Vector? && types[input].Uint? && |components| == types[original].size
    requires Scoped(exprs) && value < |exprs| && h < |exprs| && exprs[h] == Compose(original, components)
    requires forall k :: 0 <= k < |components| ==> RebuildsField(types, exprs, value, k, components[k])
    ensures Rebuilds(types, exprs, value, h, original, input)
  {
    forall args: seq<Value> | HasType(types, input, Eval(types, exprs, args, value))
      ensures Eval(types, exprs, args, h) == Decode(types, original, input, Eval(types, exprs, args, value))
    {
      var v := Eval(types, exprs, args, value);
      forall k | 0 <= k < |components|
        ensures Eval(types, exprs, args, components[k])
          == FloatValue(Normalized(SignedField(v.n, FieldOffset(k), FieldWidth(k)), FieldWidth(k)))
      {
        assert RebuildsField(types, exprs, value, k, components[k]);
      }
      assert Eval(types, exprs, args, h).xs == DecodeWord(v.n, types[original].size);
    }
  }

  /** Whatever four codes the word at `value` packs, handle `h` holds their normalized values in order. */
  ghost predicate UnpacksAt(types: seq<Type>, exprs: seq<Expr>, value: nat, h: nat, size: nat)
    requires size <= 4
  {
    && Scoped(exprs) && value < |exprs| && h < |exprs|
    && forall args: seq<Value>, x: int, y: int, z: int, w: int ::
         Codes(x, y, z, w) && Eval(types, exprs, args, value) == UintValue(PackFields(x, y, z, w)) ==>
           Eval(types, exprs, args, h) == VectorValue(Unpacked(x, y, z, w)[..size])
  }

  lemma VectorUnpacked(types: seq<Type>, exprs: seq<Expr>, value: nat, h: nat, original: nat, input: nat)
    requires Rebuilds(types, exprs, value, h, original, input) && original != input
    requires types[original].Vector? && types[input].Uint?
    ensures UnpacksAt(types, exprs, value, h, types[original].size)
  {
    forall args: seq<Value>, x: int, y: int, z: int, w: int
      | Codes(x, y, z, w) && Eval(types, exprs, args, value) == UintValue(PackFields(x, y, z, w))
      ensures Eval(types, exprs, args, h) == VectorValue(Unpacked(x, y, z, w)[..types[original].size])
    {
      PackedFields(x, y, z, w);
      DecodePacked(x, y, z, w, types[original].size);
    }
  }

  /** The function that wraps the original entry point. */
  class Wrapper {
    var expressions: seq<Expr>
    var body: seq<Statement>

    constructor ()
      ensures expressions == [] && body == []
    {
      expressions, body := [], [];
    }

    /** Append one expression and, unless it exists from the start, the statement that computes it. */
    method Expression(e: Expr, ghost start: seq<Expr>, ghost statements: seq<Statement>) returns (handle: nat)
      requires Scoped(expressions) && RefersBelow(e, |expressions|)
      requires Emitted(start, statements, expressions, body)
      modifies this
      ensures expressions == old(expressions) + [e] && handle == |old(expressions)| && Scoped(expressions)
      ensures Emitted(start, statements, expressions, body)
    {
      handle := |expressions|;
      assert (expressions + [e])[..|expressions|] == expressions;
      expressions := expressions + [e];
      if !NeedsPreEmit(e) {
        body := body + [Emit(handle)];
      }
    }

    /** Shift the field to the top and back: four expressions. */
    method EmitExtract(
      signed: nat, offset: nat, width: nat, ghost start: seq<Expr>, ghost statements: seq<Statement>) returns (h: nat)
      requires Scoped(expressions) && signed < |expressions| && Field(offset, width)
      requires Emitted(start, statements, expressions, body)
      modifies this
      ensures Scoped(expressions) && h == |old(expressions)| + 3
      ensures var n := |old(expressions)|;
        expressions == old(expressions) + [LiteralUint(32 - offset - width), LiteralUint(32 - width),
          ShiftLeftExpr(signed, n), ShiftRightExpr(n + 2, n + 1)]
      ensures Emitted(start, statements, expressions, body)
    {
      var left := Expression(LiteralUint(32 - offset - width), start, statements);
      var right := Expression(LiteralUint(32 - width), start, statements);
      var shifted := Expression(ShiftLeftExpr(signed, left), start, statements);
      h := Expression(ShiftRightExpr(shifted, right), start, statements);
    }

    /** Divide and clamp: five expressions. */
    method EmitNormalize(extended: nat, width: nat, ghost start: seq<Expr>, ghost statements: seq<Statement>)
      returns (h: nat)
      requires Scoped(expressions) && extended < |expressions| && (width == 10 || width == 2)
      requires Emitted(start, statements, expressions, body)
      modifies this
      ensures Scoped(expressions) && h == |old(expressions)| + 4
      ensures var n := |old(expressions)|;
        expressions == old(expressions) + [AsFloat(extended), LiteralFloat(Divisor(width) as real), Divide(n, n + 1),
          LiteralFloat(-1.0), MaxExpr(n + 2, n + 3)]
      ensures Emitted(start, statements, expressions, body)
    {
      var float := Expression(AsFloat(extended), start, statements);
      var divisor := Expression(LiteralFloat(Divisor(width) as real), start, statements);
      var divided := Expression(Divide(float, divisor), start, statements);
      var min := Expression(LiteralFloat(-1.0), start, statements);
      h := Expression(MaxExpr(divided, min), start, statements);
    }

    method EmitField(signed: nat, offset: nat, width: nat, ghost start: seq<Expr>, ghost statements: seq<Statement>)
      returns (h: nat)
      requires Scoped(expressions) && signed < |expressions| && Field(offset, width)
      requires Emitted(start, statements, expressions, body)
      modifies this
      ensures Scoped(expressions) && old(expressions) <= expressions && h == |old(expressions)| + 8 < |expressions|
      ensures CodeAt(expressions, |old(expressions)|, FieldCode(|old(expressions)|, signed, offset, width))
      ensures Emitted(start, statements, expressions, body)
    {
      var extended := EmitExtract(signed, offset, width, start, statements);
      h := EmitNormalize(extended, width, start, statements);
      assert expressions == old(expressions) + FieldCode(|old(expressions)|, signed, offset, width);
    }

    /** Rebuild a packed vector from its word. */
    method EmitPacked(
      ghost types: seq<Type>, original: nat, size: nat, ghost input: nat, value: nat, ghost start: seq<Expr>,
      ghost statements: seq<Statement>)
      returns (h: nat)
      requires WellFormed(types) && original < |types| && input < |types| && original != input
      requires types[original].Vector? && types[original].size == size && types[input].Uint?
      requires Scoped(expressions) && value < |expressions| && Emitted(start, statements, expressions, body)
      modifies this
      ensures old(expressions) <= expressions && Rebuilds(types, expressions, value, h, original, input)
      ensures UnpacksAt(types, expressions, value, h, size)
      ensures Emitted(start, statements, expressions, body)
    {
      var signed := Expression(AsSint(value), start, statements);
      var fields := [(0, 10), (10, 10), (20, 10), (30, 2)];
      var components: seq<nat> := [];
      var k := 0;
      while k < size
        invariant 0 <= k <= size && |components| == k && Scoped(expressions) && old(expressions) <= expressions
        invariant signed < |expressions| && expressions[signed] == AsSint(value)
        invariant Emitted(start, statements, expressions, body)
        invariant forall j :: 0 <= j < k ==> RebuildsField(types, expressions, value, j, components[j])
      {
        ghost var before := expressions;
        var component := EmitField(signed, fields[k].0, fields[k].1, start, statements);
        FieldRebuilt(types, expressions, value, signed, k, |before|);
        FieldsLater(types, before, expressions, value, components);
        components := components + [component];
        k := k + 1;
      }
      ghost var before := expressions;
      h := Expression(Compose(original, components), start, statements);
      FieldsLater(types, before, expressions, value, components);
      VectorRebuilt(types, expressions, value, components, h, original, input);
      VectorUnpacked(types, expressions, value, h, original, input);
    }

    /** Code that rebuilds the original input from the narrowed one at `value`. */
    method InputValue(
      types: seq<Type>, original: nat, input: nat, ghost location: Option<nat>, ghost locations: seq<nat>, value: nat,
      ghost start: seq<Expr>, ghost statements: seq<Statement>)
      returns (result: Result<nat, LowerError>)
      requires WellFormed(types) && Narrows(types, original, input, location, locations)
      requires Scoped(expressions) && value < |expressions| && Emitted(start, statements, expressions, body)
      modifies this
      ensures result.Ok? && old(expressions) <= expressions
      ensures Rebuilds(types, expressions, value, result.value, original, input)
      ensures Emitted(start, statements, expressions, body)
      decreases original
    {
      if original == input {
        return Ok(value);
      }
      if types[original].Struct? && types[input].Struct? {
        var members, inputs := types[original].members, types[input].members;
        var components: seq<nat> := [];
        var m := 0;
        while m < |members|
          invariant 0 <= m <= |members| && |components| == m && Scoped(expressions) && old(expressions) <= expressions
          invariant value < |expressions| && Emitted(start, statements, expressions, body)
          invariant ComponentsRebuild(types, expressions, value, components, members, inputs)
        {
          ghost var before := expressions;
          var access := Expression(AccessIndex(value, m), start, statements);
          var component := InputValue(
            types, members[m].ty, inputs[m].ty, members[m].location, locations, access, start, statements);
          MemberRebuilt(types, expressions, value, m, access, component.value, members[m].ty, inputs[m].ty);
          ComponentsLater(types, before, expressions, value, components, members, inputs);
          components := components + [component.value];
          m := m + 1;
        }
        ghost var before := expressions;
        var h := Expression(Compose(original, components), start, statements);
        ComponentsLater(types, before, expressions, value, components, members, inputs);
        StructRebuilt(types, expressions, value, components, h, original, input);
        return Ok(h);
      }
      if !types[original].Vector? {
        return Err(InvalidState);
      }
      var h := EmitPacked(types, original, types[original].size, input, value, start, statements);
      return Ok(h);
    }
  }

  /** Since `start`, expressions were only appended and each computed one was emitted in order. */
  ghost predicate Emitted(start: seq<Expr>, statements: seq<Statement>, exprs: seq<Expr>, body: seq<Statement>) {
    start <= exprs && body == statements + Emits(exprs, |start|)
  }

  lemma FieldsLater(types: seq<Type>, exprs: seq<Expr>, later: seq<Expr>, value: nat, components: seq<nat>)
    requires |components| <= 4 && exprs <= later && Scoped(later)
    requires forall j :: 0 <= j < |components| ==> RebuildsField(types, exprs, value, j, components[j])
    ensures forall j :: 0 <= j < |components| ==> RebuildsField(types, later, value, j, components[j])
  {
    forall j | 0 <= j < |components| ensures RebuildsField(types, later, value, j, components[j]) {
      FieldLater(types, exprs, later, value, j, components[j]);
    }
  }

  lemma ComponentsLater(
    types: seq<Type>, exprs: seq<Expr>, later: seq<Expr>, value: nat, components: seq<nat>, members: seq<Member>,
    inputs: seq<Member>)
    requires ComponentsRebuild(types, exprs, value, components, members, inputs) && exprs <= later && Scoped(later)
    ensures ComponentsRebuild(types, later, value, components, members, inputs)
  {
    forall m | 0 <= m < |components|
      ensures RebuildsMember(types, later, value, m, components[m], members[m].ty, inputs[m].ty)
    {
      RebuildsMemberLater(types, exprs, later, value, m, components[m], members[m].ty, inputs[m].ty);
    }
  }

  // --------------------------------------------------------------- entry point

  datatype Argument = Argument(ty: nat, location: Option<nat>)

  /** The rewritten entry point: its arguments, its code, and the call it ends with. */
  datatype EntryPoint = EntryPoint(inputs: seq<Argument>, exprs: seq<Expr>, body: seq<Statement>, call: seq<nat>)

  ghost predicate ArgumentsNarrow(
    types: seq<Type>, arguments: seq<Argument>, inputs: seq<Argument>, locations: seq<nat>)
    requires WellFormed(types)
  {
    |inputs| == |arguments| && forall k :: 0 <= k < |arguments| ==>
      && inputs[k].location == arguments[k].location
      && Narrows(types, arguments[k].ty, inputs[k].ty, arguments[k].location, locations)
  }

  /** What the wrapper returns: the original function on what its call passes. */
  function RunEntry<R>(types: seq<Type>, entry: EntryPoint, inner: seq<Value> -> R, args: seq<Value>): R
    requires Scoped(entry.exprs) && forall k :: 0 <= k < |entry.call| ==> entry.call[k] < |entry.exprs|
  {
    inner(seq(|entry.call|, k requires 0 <= k < |entry.call| => Eval(types, entry.exprs, args, entry.call[k])))
  }

  function DecodeAll(types: seq<Type>, arguments: seq<Argument>, inputs: seq<Argument>, args: seq<Value>): seq<Value>
    requires WellFormed(types) && |arguments| == |inputs| == |args|
    requires forall k :: 0 <= k < |arguments| ==> arguments[k].ty < |types| && inputs[k].ty < |types|
  {
    seq(|args|, k requires 0 <= k < |args| => Decode(types, arguments[k].ty, inputs[k].ty, args[k]))
  }

  /** Argument `k` of the call rebuilds argument `k` of the wrapper. */
  ghost predicate Passes(
    types: seq<Type>, exprs: seq<Expr>, arguments: seq<Argument>, inputs: seq<Argument>, call: seq<nat>)
  {
    && WellFormed(types) && Scoped(exprs) && |call| <= |arguments| == |inputs|
    && forall k :: 0 <= k < |call| ==>
         && call[k] < |exprs| && arguments[k].ty < |types| && inputs[k].ty < |types|
         && forall args: seq<Value> ::
              k < |args| && HasType(types, inputs[k].ty, args[k]) ==>
                Eval(types, exprs, args, call[k]) == Decode(types, arguments[k].ty, inputs[k].ty, args[k])
  }

  lemma PassesNext(
    types: seq<Type>, exprs: seq<Expr>, later: seq<Expr>, arguments: seq<Argument>, inputs: seq<Argument>,
    call: seq<nat>,
    value: nat, h: nat)
    requires Passes(types, exprs, arguments, inputs, call) && exprs <= later && |call| < |arguments|
    requires Rebuilds(types, later, value, h, arguments[|call|].ty, inputs[|call|].ty)
    requires later[value] == FunctionArgument(|call|)
    ensures Passes(types, later, arguments, inputs, call + [h])
  {
    forall k, args: seq<Value> | 0 <= k <= |call| && k < |args| && HasType(types, inputs[k].ty, args[k])
      ensures Eval(types, later, args, (call + [h])[k]) == Decode(types, arguments[k].ty, inputs[k].ty, args[k])
    {
      if k < |call| {
        EvalStable(types, exprs, later, args, call[k]);
      } else {
        assert Eval(types, later, args, value) == args[k];
      }
    }
  }

  /**
   Wrap an entry point. It fails exactly when a packed location is not a float
   vector; otherwise, for every inner function and all well-typed inputs, the
   wrapper returns what the inner function returns on the decoded inputs.
   */
  method LowerPackedInputs(arena: TypeArena, arguments: seq<Argument>, locations: seq<nat>)
    returns (result: Result<EntryPoint, LowerError>)
    requires arena.Valid() && forall k :: 0 <= k < |arguments| ==> arguments[k].ty < |arena.types|
    modifies arena
    ensures arena.Valid() && old(arena.types) <= arena.types
    ensures result.Ok? <==> forall k :: 0 <= k < |arguments| ==>
      Narrowable(old(arena.types), arguments[k].ty, arguments[k].location, locations)
    ensures result.Ok? ==>
      var entry := result.value;
      && ArgumentsNarrow(arena.types, arguments, entry.inputs, locations)
      && Passes(arena.types, entry.exprs, arguments, entry.inputs, entry.call) && |entry.call| == |arguments|
      && entry.body == Emits(entry.exprs, 0)
      && Delivers(arena.types, arguments, entry, locations)
  {
    var inputs: seq<Argument> := [];
    var k := 0;
    while k < |arguments|
      invariant 0 <= k <= |arguments| && arena.Valid() && old(arena.types) <= arena.types
      invariant ArgumentsNarrow(arena.types, arguments[..k], inputs, locations)
      invariant forall j :: 0 <= j < k ==>
        Narrowable(old(arena.types), arguments[j].ty, arguments[j].location, locations)
    {
      ghost var before := arena.types;
      var ty := arena.InputType(arguments[k].ty, arguments[k].location, locations);
      NarrowableSame(old(arena.types), before, arguments[k].ty, arguments[k].location, locations);
      if ty.Err? {
        return Err(ty.error);
      }
      ArgumentsLater(before, arena.types, arguments[..k], inputs, locations);
      inputs := inputs + [Argument(ty.value, arguments[k].location)];
      assert arguments[..k + 1] == arguments[..k] + [arguments[k]];
      k := k + 1;
    }
    assert arguments[..k] == arguments;
    var entry := EmitCall(arena.types, arguments, inputs, locations);
    Delivered(arena.types, arguments, entry, locations);
    return Ok(entry);
  }

  lemma ArgumentsLater(
    types: seq<Type>, later: seq<Type>, arguments: seq<Argument>, inputs: seq<Argument>, locations: seq<nat>)
    requires types <= later && WellFormed(types) && WellFormed(later)
    requires ArgumentsNarrow(types, arguments, inputs, locations)
    ensures ArgumentsNarrow(later, arguments, inputs, locations)
  {
    forall k | 0 <= k < |arguments|
      ensures Narrows(later, arguments[k].ty, inputs[k].ty, arguments[k].location, locations)
    {
      NarrowsLater(types, later, arguments[k].ty, inputs[k].ty, arguments[k].location, locations);
    }
  }

  method EmitCall(types: seq<Type>, arguments: seq<Argument>, inputs: seq<Argument>, ghost locations: seq<nat>)
    returns (entry: EntryPoint)
    requires WellFormed(types) && ArgumentsNarrow(types, arguments, inputs, locations)
    ensures entry.inputs == inputs && |entry.call| == |arguments| && entry.body == Emits(entry.exprs, 0)
    ensures Passes(types, entry.exprs, arguments, inputs, entry.call)
  {
    var wrapper := new Wrapper();
    var call: seq<nat> := [];
    var k := 0;
    while k < |arguments|
      invariant 0 <= k <= |arguments| && |call| == k
      invariant Passes(types, wrapper.expressions, arguments, inputs, call)
      invariant Emitted([], [], wrapper.expressions, wrapper.body)
    {
      ghost var before := wrapper.expressions;
      var value := wrapper.Expression(FunctionArgument(k), [], []);
      var one := wrapper.InputValue(
        types, arguments[k].ty, inputs[k].ty, arguments[k].location, locations, value, [], []);
      PassesNext(types, before, wrapper.expressions, arguments, inputs, call, value, one.value);
      call := call + [one.value];
      k := k + 1;
    }
    return EntryPoint(inputs, wrapper.expressions, wrapper.body, call);
  }

  /** Position `k` of the call holds argument `k` with the words at the packed locations unpacked. */
  ghost predicate Delivers(types: seq<Type>, arguments: seq<Argument>, entry: EntryPoint, locations: seq<nat>)
  {
    && WellFormed(types) && Scoped(entry.exprs) && |entry.call| == |arguments| == |entry.inputs|
    && forall k :: 0 <= k < |arguments| ==>
         && entry.call[k] < |entry.exprs|
         && forall args: seq<Value>, wanted: Value ::
              && k < |args| && HasType(types, entry.inputs[k].ty, args[k])
              && Restores(types, arguments[k].ty, arguments[k].location, locations, args[k], wanted) ==>
                Eval(types, entry.exprs, args, entry.call[k]) == wanted
  }

  lemma Delivered(types: seq<Type>, arguments: seq<Argument>, entry: EntryPoint, locations: seq<nat>)
    requires WellFormed(types) && ArgumentsNarrow(types, arguments, entry.inputs, locations)
    requires Passes(types, entry.exprs, arguments, entry.inputs, entry.call) && |entry.call| == |arguments|
    ensures Delivers(types, arguments, entry, locations)
  {
    forall k, args: seq<Value>, wanted: Value |
      && 0 <= k < |arguments| && k < |args| && HasType(types, entry.inputs[k].ty, args[k])
      && Restores(types, arguments[k].ty, arguments[k].location, locations, args[k], wanted)
      ensures Eval(types, entry.exprs, args, entry.call[k]) == wanted
    {
      DecodeRestores(
        types, arguments[k].ty, entry.inputs[k].ty, arguments[k].location, locations, args[k], wanted);
    }
  }

  /** The wrapper is the inner function on decoded inputs, whatever the inner function. */
  lemma WrapperMeaning<R>(
    types: seq<Type>, arguments: seq<Argument>, entry: EntryPoint, inner: seq<Value> -> R, args: seq<Value>)
    requires Passes(types, entry.exprs, arguments, entry.inputs, entry.call)
    requires |entry.call| == |arguments| == |args|
    requires forall k :: 0 <= k < |args| ==> HasType(types, entry.inputs[k].ty, args[k])
    ensures RunEntry(types, entry, inner, args) == inner(DecodeAll(types, arguments, entry.inputs, args))
  {
    assert seq(|entry.call|, k requires 0 <= k < |entry.call| => Eval(types, entry.exprs, args, entry.call[k]))
        == DecodeAll(types, arguments, entry.inputs, args);
  }
}
