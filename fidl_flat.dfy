/** The flattening and resolution pass of the FIDL compiler: type shapes
    (size and alignment) of primitives, structs, unions, arrays, vectors and
    strings, the name and ordinal scopes, and the checks that resolve a
    library's declarations. */
module FidlFlat {
  import opened ZxStatus
  import opened Arith

  /** Size and alignment of a type on the wire. */
  datatype TypeShape = TypeShape(size: nat, alignment: nat)

  /** Every alignment the compiler produces: the primitive ones, and the
      maximum of member alignments. The mask arithmetic of AlignTo rounds up
      only for such powers of two. */
  predicate IsAlignment(a: nat)
  {
    a == 1 || a == 2 || a == 4 || a == 8
  }

  predicate AllAligned(ms: seq<TypeShape>)
  {
    forall k :: 0 <= k < |ms| ==> IsAlignment(ms[k].alignment)
  }

  /** AlignTo: the least multiple of the alignment that is at least `size`. */
  function AlignTo(size: nat, alignment: nat): (r: nat)
    requires IsAlignment(alignment)
    ensures r >= size && r % alignment == 0 && r - size < alignment
  {
    RoundUp(size, alignment)
  }

  lemma AlignToLeast(size: nat, alignment: nat, m: nat)
    requires IsAlignment(alignment) && m % alignment == 0 && m >= size
    ensures AlignTo(size, alignment) <= m
  {
    RoundUpLeast(size, alignment, m);
  }

  function Max(a: nat, b: nat): nat
  {
    if a < b then b else a
  }

  // ---------------------------------------------------------------------
  // Struct layout

  /** The struct layout loop as written: alignment is the largest member
      alignment (1 for no members); each member goes at the next offset
      aligned for it; the size is where the last member ends, with no
      padding after it. */
  function StructShapeAsWritten(ms: seq<TypeShape>): (r: TypeShape)
    requires AllAligned(ms)
    ensures IsAlignment(r.alignment)
  {
    if ms == [] then TypeShape(0, 1)
    else
      var p := StructShapeAsWritten(ms[..|ms| - 1]);
      var m := ms[|ms| - 1];
      TypeShape(AlignTo(p.size, m.alignment) + m.size, Max(p.alignment, m.alignment))
  }

  /** The offset member `k` is placed at. */
  function MemberOffset(ms: seq<TypeShape>, k: nat): (r: nat)
    requires AllAligned(ms) && k < |ms|
    ensures r % ms[k].alignment == 0
  {
    AlignTo(StructShapeAsWritten(ms[..k]).size, ms[k].alignment)
  }

  /** A struct of a uint64 followed by a uint8 gets size 9 and alignment 8,
      so consecutive array elements of it would not be aligned; C lays it
      out in 16 bytes. */
  lemma StructTailNotPaddedAsWritten()
    ensures var s := StructShapeAsWritten([TypeShape(8, 8), TypeShape(1, 1)]);
      s == TypeShape(9, 8) && s.size % s.alignment != 0
  {
    var ms := [TypeShape(8, 8), TypeShape(1, 1)];
    assert ms[..1][..0] == [];
    assert ms[..1] == [TypeShape(8, 8)];
    assert StructShapeAsWritten(ms[..1]) == TypeShape(8, 8);
  }

  /** The struct shape with the size rounded up to the alignment, as a C
      compiler lays out a struct. */
  function StructShape(ms: seq<TypeShape>): (r: TypeShape)
    requires AllAligned(ms)
    ensures IsAlignment(r.alignment) && r.size % r.alignment == 0
  {
    var s := StructShapeAsWritten(ms);
    TypeShape(AlignTo(s.size, s.alignment), s.alignment)
  }

  /** The struct alignment is the largest member alignment, and 1 for an
      empty struct. */
  lemma {:induction false} StructAlignment(ms: seq<TypeShape>)
    requires AllAligned(ms)
    ensures forall k :: 0 <= k < |ms| ==> ms[k].alignment <= StructShape(ms).alignment
    ensures StructShape(ms).alignment == 1 ||
      exists k :: 0 <= k < |ms| && ms[k].alignment == StructShape(ms).alignment
  {
    if ms != [] {
      var init := ms[..|ms| - 1];
      StructAlignment(init);
      assert forall k :: 0 <= k < |init| ==> init[k] == ms[k];
    }
  }

  /** Members do not overlap and come in order; the last one ends where the
      unpadded size ends, and the struct is at least that large. */
  lemma MembersInOrder(ms: seq<TypeShape>, k: nat)
    requires AllAligned(ms) && k < |ms|
    ensures k + 1 < |ms| ==> MemberOffset(ms, k) + ms[k].size <= MemberOffset(ms, k + 1)
    ensures k + 1 == |ms| ==> MemberOffset(ms, k) + ms[k].size == StructShapeAsWritten(ms).size
    ensures MemberOffset(ms, k) + ms[k].size <= StructShape(ms).size
  {
    var end := MemberOffset(ms, k) + ms[k].size;
    assert ms[..k + 1][..k] == ms[..k];
    assert StructShapeAsWritten(ms[..k + 1]).size == end;
    if k + 1 < |ms| {
      assert MemberOffset(ms, k + 1) >= StructShapeAsWritten(ms[..k + 1]).size;
    } else {
      assert ms[..k + 1] == ms;
    }
    SizeGrows(ms, k + 1);
  }

  /** The unpadded size of a prefix never exceeds that of the whole. */
  lemma {:induction false} SizeGrows(ms: seq<TypeShape>, n: nat)
    requires AllAligned(ms) && n <= |ms|
    ensures StructShapeAsWritten(ms[..n]).size <= StructShapeAsWritten(ms).size
    decreases |ms| - n
  {
    if n < |ms| {
      var next := ms[..n + 1];
      assert next[..n] == ms[..n];
      SizeGrows(ms, n + 1);
    } else {
      assert ms[..n] == ms;
    }
  }

  // ---------------------------------------------------------------------
  // Unions

  /** The largest member size and alignment (0 and 1 for no members). */
  function MaxSize(ms: seq<TypeShape>): (r: nat)
    ensures forall k :: 0 <= k < |ms| ==> ms[k].size <= r
    ensures r == 0 || exists k :: 0 <= k < |ms| && ms[k].size == r
  {
    if ms == [] then 0 else Max(MaxSize(ms[..|ms| - 1]), ms[|ms| - 1].size)
  }

  function MaxAlignment(ms: seq<TypeShape>): (r: nat)
    requires AllAligned(ms)
    ensures IsAlignment(r)
    ensures forall k :: 0 <= k < |ms| ==> ms[k].alignment <= r
    ensures r == 1 || exists k :: 0 <= k < |ms| && ms[k].alignment == r
  {
    if ms == [] then 1 else Max(MaxAlignment(ms[..|ms| - 1]), ms[|ms| - 1].alignment)
  }

  /** A C union: every member fits, the size is a multiple of the largest
      alignment, and no smaller such size exists. */
  function UnionShape(ms: seq<TypeShape>): (r: TypeShape)
    requires AllAligned(ms)
    ensures IsAlignment(r.alignment) && r.size % r.alignment == 0
    ensures forall k :: 0 <= k < |ms| ==> ms[k].size <= r.size && ms[k].alignment <= r.alignment
  {
    TypeShape(AlignTo(MaxSize(ms), MaxAlignment(ms)), MaxAlignment(ms))
  }

  lemma UnionLeast(ms: seq<TypeShape>, n: nat)
    requires AllAligned(ms) && n % UnionShape(ms).alignment == 0
    requires forall k :: 0 <= k < |ms| ==> ms[k].size <= n
    ensures UnionShape(ms).size <= n
  {
    AlignToLeast(MaxSize(ms), MaxAlignment(ms), n);
  }

  /** A FIDL union: a uint32 tag, then the C union. */
  function FidlUnionShape(ms: seq<TypeShape>): (r: TypeShape)
    requires AllAligned(ms)
    ensures IsAlignment(r.alignment)
  {
    StructShape([TypeShape(4, 4), UnionShape(ms)])
  }

  /** The tag is at offset 0 and the union right after it, aligned for
      itself; the whole is aligned for both. */
  lemma FidlUnionLayout(ms: seq<TypeShape>)
    requires AllAligned(ms)
    ensures var parts := [TypeShape(4, 4), UnionShape(ms)];
      MemberOffset(parts, 0) == 0 &&
      MemberOffset(parts, 1) == AlignTo(4, UnionShape(ms).alignment) &&
      FidlUnionShape(ms).alignment == Max(4, UnionShape(ms).alignment) &&
      FidlUnionShape(ms).size >= MemberOffset(parts, 1) + UnionShape(ms).size
  {
    var parts := [TypeShape(4, 4), UnionShape(ms)];
    assert parts[..0] == [];
    assert parts[..1] == [TypeShape(4, 4)];
    assert parts[..1][..0] == [];
    MembersInOrder(parts, 1);
    assert parts[..2] == parts;
  }

  // ---------------------------------------------------------------------
  // The fold loops

  /** CStructTypeShape, laying members out one by one. */
  method CStructTypeShape(ms: seq<TypeShape>) returns (r: TypeShape)
    requires AllAligned(ms)
    ensures r == StructShape(ms)
  {
    var size: nat := 0;
    var alignment: nat := 1;
    var i := 0;
    while i < |ms|
      invariant i <= |ms|
      invariant TypeShape(size, alignment) == StructShapeAsWritten(ms[..i])
    {
      assert ms[..i + 1][..i] == ms[..i];
      alignment := Max(alignment, ms[i].alignment);
      size := AlignTo(size, ms[i].alignment);
      size := size + ms[i].size;
      i := i + 1;
    }
    assert ms[..i] == ms;
    return TypeShape(AlignTo(size, alignment), alignment);
  }

  method CUnionTypeShape(ms: seq<TypeShape>) returns (r: TypeShape)
    requires AllAligned(ms)
    ensures r == UnionShape(ms)
  {
    var size := 0;
    var alignment := 1;
    var i := 0;
    while i < |ms|
      invariant i <= |ms|
      invariant size == MaxSize(ms[..i]) && alignment == MaxAlignment(ms[..i])
    {
      assert ms[..i + 1][..i] == ms[..i];
      size := Max(size, ms[i].size);
      alignment := Max(alignment, ms[i].alignment);
      i := i + 1;
    }
    assert ms[..i] == ms;
    return TypeShape(AlignTo(size, alignment), alignment);
  }

  method FidlUnionTypeShape(ms: seq<TypeShape>) returns (r: TypeShape)
    requires AllAligned(ms)
    ensures r == FidlUnionShape(ms)
  {
    var u := CUnionTypeShape(ms);
    r := CStructTypeShape([TypeShape(4, 4), u]);
  }

  /** An array: `count` elements back to back, aligned as one element. */
  function ArrayShape(element: TypeShape, count: nat): (r: TypeShape)
    ensures r.alignment == element.alignment
    ensures count > 0 ==> r.size / count == element.size && r.size % count == 0
  {
    var r := TypeShape(element.size * count, element.alignment);
    assert count > 0 ==> r.size / count == element.size && r.size % count == 0 by {
      if count > 0 { MulDiv(element.size, count); }
    }
    r
  }

  /** A vector or string is a count and a pointer out of line, whatever its
      element and bound. */
  function HeaderShape(): (r: TypeShape)
    ensures r == TypeShape(16, 8)
  {
    var parts := [TypeShape(8, 8), TypeShape(8, 8)];
    assert parts[..1] == [TypeShape(8, 8)] && parts[..1][..0] == [];
    assert StructShapeAsWritten(parts[..1]) == TypeShape(8, 8);
    assert StructShapeAsWritten(parts) == TypeShape(16, 8);
    StructShape(parts)
  }

  // ---------------------------------------------------------------------
  // Scopes

  /** A set of names (or ordinals) already used in one declaration. */
  class Scope<T(==)> {
    var members: set<T>

    constructor ()
      ensures members == {}
    {
      members := {};
    }

    /** Insert: true iff the element was not there yet; it is there after. */
    method Insert(t: T) returns (inserted: bool)
      modifies this
      ensures inserted <==> t !in old(members)
      ensures members == old(members) + {t}
    {
      inserted := t !in members;
      members := members + {t};
    }
  }

  // ---------------------------------------------------------------------
  // Types and their resolution

  datatype Primitive = Int8 | Int16 | Int32 | Int64 | Uint8 | Uint16 | Uint32 | Uint64
                     | Bool | Status | Float32 | Float64

  /** A type as written. Element counts are the parsed values of their
      constants; a value above the uint64 range does not parse. */
  datatype Type =
    | ArrayType(element: Type, count: nat)
    | VectorType(element: Type, maxCount: Option<nat>)
    | StringType(maxBytes: Option<nat>)
    | HandleType
    | RequestType(protocol: string)
    | PrimitiveType(subtype: Primitive)
    | IdentifierType(name: string)

  function PrimitiveShape(p: Primitive): (r: TypeShape)
    ensures r.size == r.alignment && IsAlignment(r.alignment)
  {
    match p
    case Int8 => TypeShape(1, 1)
    case Int16 => TypeShape(2, 2)
    case Int32 => TypeShape(4, 4)
    case Int64 => TypeShape(8, 8)
    case Uint8 => TypeShape(1, 1)
    case Uint16 => TypeShape(2, 2)
    case Uint32 => TypeShape(4, 4)
    case Uint64 => TypeShape(8, 8)
    case Bool => TypeShape(1, 1)
    case Status => TypeShape(4, 4)
    case Float32 => TypeShape(4, 4)
    case Float64 => TypeShape(8, 8)
  }

  /** A bound that is absent, or that parses and is not zero. */
  predicate BoundOk(b: Option<nat>)
  {
    b.None? || 0 < b.value <= U64_MAX
  }

  /** ResolveType: the shape of a type, or None when an element type fails,
      an array count is zero or does not parse, or a vector or string bound
      is zero or does not parse. Handles and requests take 4 bytes; named
      types are given a fixed placeholder shape. */
  function ResolveType(t: Type): (r: Option<TypeShape>)
    ensures r.Some? ==> IsAlignment(r.value.alignment)
    ensures t.ArrayType? ==>
      (r.Some? <==> ResolveType(t.element).Some? && 0 < t.count <= U64_MAX)
    ensures t.ArrayType? && r.Some? ==> r.value == ArrayShape(ResolveType(t.element).value, t.count)
    ensures t.VectorType? ==> (r.Some? <==> ResolveType(t.element).Some? && BoundOk(t.maxCount))
    ensures t.StringType? ==> (r.Some? <==> BoundOk(t.maxBytes))
    ensures (t.VectorType? || t.StringType?) && r.Some? ==> r.value == TypeShape(16, 8)
    ensures (t.HandleType? || t.RequestType?) ==> r == Some(TypeShape(4, 4))
    ensures t.PrimitiveType? ==> r == Some(PrimitiveShape(t.subtype))
  {
    match t
    case ArrayType(element, count) =>
      (match ResolveType(element)
       case None => None
       case Some(e) => if count == 0 || count > U64_MAX then None else Some(ArrayShape(e, count)))
    case VectorType(element, maxCount) =>
      if ResolveType(element).None? || !BoundOk(maxCount) then None else Some(HeaderShape())
    case StringType(maxBytes) =>
      if !BoundOk(maxBytes) then None else Some(HeaderShape())
    case HandleType => Some(TypeShape(4, 4))
    case RequestType(_) => Some(TypeShape(4, 4))
    case PrimitiveType(p) => Some(PrimitiveShape(p))
    case IdentifierType(_) => Some(TypeShape(184, 8))
  }

  /** ResolveEnum: only the integer primitives may underlie an enum. */
  function ResolveEnum(subtype: Primitive): (r: Option<TypeShape>)
    ensures r.Some? <==> !(subtype.Bool? || subtype.Status? || subtype.Float32? || subtype.Float64?)
    ensures r.Some? ==> r.value == PrimitiveShape(subtype)
  {
    if subtype.Bool? || subtype.Status? || subtype.Float32? || subtype.Float64? then None
    else ResolveType(PrimitiveType(subtype))
  }

  // ---------------------------------------------------------------------
  // Declarations

  datatype Member = Member(name: string, typ: Type)
  datatype Parameter = Parameter(name: string, typ: Type)
  /** A method; an absent request or response is None. */
  datatype Method = Method(ordinal: nat, name: string,
                           request: Option<seq<Parameter>>, response: Option<seq<Parameter>>)

  predicate DistinctMemberNames(ms: seq<Member>)
  {
    forall i, j :: 0 <= i < j < |ms| ==> ms[i].name != ms[j].name
  }

  predicate MembersResolve(ms: seq<Member>)
  {
    forall k :: 0 <= k < |ms| ==> ResolveType(ms[k].typ).Some?
  }

  function MemberShapes(ms: seq<Member>): (r: seq<TypeShape>)
    requires MembersResolve(ms)
    ensures |r| == |ms| && AllAligned(r)
    ensures forall k :: 0 <= k < |ms| ==> r[k] == ResolveType(ms[k].typ).value
  {
    if ms == [] then [] else MemberShapes(ms[..|ms| - 1]) + [ResolveType(ms[|ms| - 1].typ).value]
  }

  predicate ParamsValid(ps: seq<Parameter>)
  {
    (forall i, j :: 0 <= i < j < |ps| ==> ps[i].name != ps[j].name) &&
    (forall k :: 0 <= k < |ps| ==> ResolveType(ps[k].typ).Some?)
  }

  /** What ResolveInterface accepts: distinct method names, distinct
      ordinals, and in each request and response distinct parameter names
      whose types resolve. */
  predicate InterfaceValid(ms: seq<Method>)
  {
    (forall i, j :: 0 <= i < j < |ms| ==> ms[i].name != ms[j].name && ms[i].ordinal != ms[j].ordinal) &&
    (forall k :: 0 <= k < |ms| ==> ms[k].request.Some? ==> ParamsValid(ms[k].request.value)) &&
    (forall k :: 0 <= k < |ms| ==> ms[k].response.Some? ==> ParamsValid(ms[k].response.value))
  }

  /** The scope loop over one parameter list. */
  method ResolveParameters(ps: seq<Parameter>) returns (ok: bool)
    ensures ok <==> ParamsValid(ps)
  {
    var scope := new Scope<string>();
    var i := 0;
    while i < |ps|
      invariant i <= |ps|
      invariant scope.members == set k | 0 <= k < i :: ps[k].name
      invariant forall a, b :: 0 <= a < b < i ==> ps[a].name != ps[b].name
      invariant forall k :: 0 <= k < i ==> ResolveType(ps[k].typ).Some?
    {
      var inserted := scope.Insert(ps[i].name);
      if !inserted {
        var a :| 0 <= a < i && ps[a].name == ps[i].name;
        return false;
      }
      if ResolveType(ps[i].typ).None? {
        return false;
      }
      i := i + 1;
    }
    return true;
  }

  /** ResolveInterface. */
  method ResolveInterface(ms: seq<Method>) returns (ok: bool)
    ensures ok <==> InterfaceValid(ms)
  {
    var names := new Scope<string>();
    var ordinals := new Scope<nat>();
    var i := 0;
    while i < |ms|
      invariant i <= |ms|
      invariant names.members == set k | 0 <= k < i :: ms[k].name
      invariant ordinals.members == set k | 0 <= k < i :: ms[k].ordinal
      invariant MethodsValid(ms, i)
    {
      var m := ms[i];
      var freshName := names.Insert(m.name);
      if !freshName {
        var a :| 0 <= a < i && ms[a].name == m.name;
        return false;
      }
      var freshOrdinal := ordinals.Insert(m.ordinal);
      if !freshOrdinal {
        var a :| 0 <= a < i && ms[a].ordinal == m.ordinal;
        return false;
      }
      if m.request.Some? {
        var okRequest := ResolveParameters(m.request.value);
        if !okRequest {
          return false;
        }
      }
      if m.response.Some? {
        var okResponse := ResolveParameters(m.response.value);
        if !okResponse {
          return false;
        }
      }
      MethodsStep(ms, i);
      i := i + 1;
    }
    return true;
  }

  /** The methods before `i` pass ResolveInterface's checks among
      themselves. */
  ghost predicate MethodsValid(ms: seq<Method>, i: nat)
    requires i <= |ms|
  {
    (forall a, b :: 0 <= a < b < i ==> ms[a].name != ms[b].name && ms[a].ordinal != ms[b].ordinal) &&
    (forall k :: 0 <= k < i ==> ms[k].request.Some? ==> ParamsValid(ms[k].request.value)) &&
    (forall k :: 0 <= k < i ==> ms[k].response.Some? ==> ParamsValid(ms[k].response.value))
  }

  /** A method with a new name, a new ordinal and valid parameter lists
      extends the checked prefix. */
  lemma MethodsStep(ms: seq<Method>, i: nat)
    requires i < |ms| && MethodsValid(ms, i)
    requires ms[i].name !in (set k | 0 <= k < i :: ms[k].name)
    requires ms[i].ordinal !in (set k | 0 <= k < i :: ms[k].ordinal)
    requires ms[i].request.Some? ==> ParamsValid(ms[i].request.value)
    requires ms[i].response.Some? ==> ParamsValid(ms[i].response.value)
    ensures MethodsValid(ms, i + 1)
  {
    forall a, b | 0 <= a < b < i + 1 ensures ms[a].name != ms[b].name && ms[a].ordinal != ms[b].ordinal {
      if b == i {
        assert ms[a].name in (set k | 0 <= k < i :: ms[k].name);
        assert ms[a].ordinal in (set k | 0 <= k < i :: ms[k].ordinal);
      }
    }
  }

  /** The scope loop shared by ResolveStruct and ResolveUnion: the member
      shapes, or None for a repeated name or a member type that fails. */
  method ResolveMembers(ms: seq<Member>) returns (r: Option<seq<TypeShape>>)
    ensures r.Some? <==> DistinctMemberNames(ms) && MembersResolve(ms)
    ensures r.Some? ==> r.value == MemberShapes(ms)
  {
    var scope := new Scope<string>();
    var shapes := [];
    var i := 0;
    while i < |ms|
      invariant i <= |ms|
      invariant scope.members == set k | 0 <= k < i :: ms[k].name
      invariant forall a, b :: 0 <= a < b < i ==> ms[a].name != ms[b].name
      invariant forall k :: 0 <= k < i ==> ResolveType(ms[k].typ).Some?
      invariant |shapes| == i && forall k :: 0 <= k < i ==> shapes[k] == ResolveType(ms[k].typ).value
    {
      var inserted := scope.Insert(ms[i].name);
      if !inserted {
        var a :| 0 <= a < i && ms[a].name == ms[i].name;
        return None;
      }
      var s := ResolveType(ms[i].typ);
      if s.None? {
        return None;
      }
      shapes := shapes + [s.value];
      i := i + 1;
    }
    return Some(shapes);
  }

  /** ResolveStruct: the struct's shape, or None. */
  method ResolveStruct(ms: seq<Member>) returns (r: Option<TypeShape>)
    ensures r.Some? <==> DistinctMemberNames(ms) && MembersResolve(ms)
    ensures r.Some? ==> r.value == StructShape(MemberShapes(ms))
  {
    var shapes := ResolveMembers(ms);
    if shapes.None? {
      return None;
    }
    var s := CStructTypeShape(shapes.value);
    return Some(s);
  }

  /** ResolveUnion: the union's shape, or None. */
  method ResolveUnion(ms: seq<Member>) returns (r: Option<TypeShape>)
    ensures r.Some? <==> DistinctMemberNames(ms) && MembersResolve(ms)
    ensures r.Some? ==> r.value == FidlUnionShape(MemberShapes(ms))
  {
    var shapes := ResolveMembers(ms);
    if shapes.None? {
      return None;
    }
    var s := FidlUnionTypeShape(shapes.value);
    return Some(s);
  }

  // ---------------------------------------------------------------------
  // The library

  datatype Const = Const(name: string, typ: Type)
  /** An enum as declared; the subtype defaults to uint32. */
  datatype RawEnum = RawEnum(name: string, maybeSubtype: Option<Primitive>)
  datatype Enum = Enum(name: string, subtype: Primitive)
  datatype RawInterface = RawInterface(name: string, consts: seq<Const>, enums: seq<RawEnum>, methods: seq<Method>)
  datatype Interface = Interface(name: string, methods: seq<Method>)
  datatype RawStruct = RawStruct(name: string, consts: seq<Const>, enums: seq<RawEnum>, members: seq<Member>)
  datatype Aggregate = Aggregate(name: string, members: seq<Member>)

  function FlattenEnum(e: RawEnum): (r: Enum)
    ensures r.name == e.name
    ensures r.subtype == (if e.maybeSubtype.Some? then e.maybeSubtype.value else Uint32)
  {
    Enum(e.name, if e.maybeSubtype.Some? then e.maybeSubtype.value else Uint32)
  }

  /** An ordinal literal is accepted iff it parses as a uint32 and is not 0. */
  predicate OrdinalOk(ordinal: nat)
  {
    0 < ordinal <= U32_MAX
  }

  predicate ConstsOk(cs: seq<Const>)
  {
    forall k :: 0 <= k < |cs| ==> ResolveType(cs[k].typ).Some?
  }

  predicate EnumsOk(es: seq<Enum>)
  {
    forall k :: 0 <= k < |es| ==> ResolveEnum(es[k].subtype).Some?
  }

  predicate InterfacesOk(ifs: seq<Interface>)
  {
    forall k :: 0 <= k < |ifs| ==> InterfaceValid(ifs[k].methods)
  }

  predicate AggregateOk(a: Aggregate)
  {
    DistinctMemberNames(a.members) && MembersResolve(a.members)
  }

  predicate AggregatesOk(aggs: seq<Aggregate>)
  {
    forall k :: 0 <= k < |aggs| ==> AggregateOk(aggs[k])
  }

  method ResolveConsts(cs: seq<Const>) returns (ok: bool)
    ensures ok <==> ConstsOk(cs)
  {
    var i := 0;
    while i < |cs|
      invariant i <= |cs| && ConstsOk(cs[..i])
    {
      if ResolveType(cs[i].typ).None? {
        return false;
      }
      assert cs[..i + 1][..i] == cs[..i];
      i := i + 1;
    }
    assert cs[..i] == cs;
    return true;
  }

  method ResolveEnums(es: seq<Enum>) returns (ok: bool)
    ensures ok <==> EnumsOk(es)
  {
    var i := 0;
    while i < |es|
      invariant i <= |es| && EnumsOk(es[..i])
    {
      if ResolveEnum(es[i].subtype).None? {
        return false;
      }
      assert es[..i + 1][..i] == es[..i];
      i := i + 1;
    }
    assert es[..i] == es;
    return true;
  }

  method ResolveInterfaces(ifs: seq<Interface>) returns (ok: bool)
    ensures ok <==> InterfacesOk(ifs)
  {
    var i := 0;
    while i < |ifs|
      invariant i <= |ifs| && InterfacesOk(ifs[..i])
    {
      var r := ResolveInterface(ifs[i].methods);
      if !r {
        return false;
      }
      assert ifs[..i + 1][..i] == ifs[..i];
      i := i + 1;
    }
    assert ifs[..i] == ifs;
    return true;
  }

  method ResolveAggregate(a: Aggregate, union: bool) returns (ok: bool)
    ensures ok <==> AggregateOk(a)
  {
    var r: Option<TypeShape>;
    if union {
      r := ResolveUnion(a.members);
    } else {
      r := ResolveStruct(a.members);
    }
    ok := r.Some?;
  }

  /** The struct loop (`union` false) or the union loop (`union` true). */
  method ResolveAggregates(aggs: seq<Aggregate>, union: bool) returns (ok: bool)
    ensures ok <==> AggregatesOk(aggs)
  {
    var i := 0;
    while i < |aggs|
      invariant i <= |aggs| && AggregatesOk(aggs[..i])
    {
      var r := ResolveAggregate(aggs[i], union);
      if !r {
        return false;
      }
      assert aggs[..i + 1][..i] == aggs[..i];
      i := i + 1;
    }
    assert aggs[..i] == aggs;
    return true;
  }

  /** The flattened declarations of a library, in the order consumed. */
  class Library {
    var consts: seq<Const>
    var enums: seq<Enum>
    var interfaces: seq<Interface>
    var structs: seq<Aggregate>
    var unions: seq<Aggregate>

    constructor ()
      ensures consts == [] && enums == [] && interfaces == [] && structs == [] && unions == []
    {
      consts, enums, interfaces, structs, unions := [], [], [], [], [];
    }

    method ConsumeEnums(es: seq<RawEnum>)
      modifies this
      ensures enums == old(enums) + seq(|es|, k requires 0 <= k < |es| => FlattenEnum(es[k]))
      ensures consts == old(consts) && interfaces == old(interfaces)
      ensures structs == old(structs) && unions == old(unions)
    {
      var i := 0;
      while i < |es|
        invariant i <= |es|
        invariant enums == old(enums) + seq(i, k requires 0 <= k < i => FlattenEnum(es[k]))
        invariant consts == old(consts) && interfaces == old(interfaces)
        invariant structs == old(structs) && unions == old(unions)
      {
        enums := enums + [FlattenEnum(es[i])];
        i := i + 1;
      }
    }

    /** ConsumeInterfaceDeclaration: the nested constants and enums are
        taken first; then a method whose ordinal does not parse as a
        uint32 or is 0 fails the interface, which is then not added. */
    method ConsumeInterface(ri: RawInterface) returns (ok: bool)
      modifies this
      ensures consts == old(consts) + ri.consts
      ensures enums == old(enums) + seq(|ri.enums|, k requires 0 <= k < |ri.enums| => FlattenEnum(ri.enums[k]))
      ensures ok <==> forall k :: 0 <= k < |ri.methods| ==> OrdinalOk(ri.methods[k].ordinal)
      ensures interfaces == old(interfaces) + (if ok then [Interface(ri.name, ri.methods)] else [])
      ensures structs == old(structs) && unions == old(unions)
    {
      consts := consts + ri.consts;
      ConsumeEnums(ri.enums);
      var i := 0;
      while i < |ri.methods|
        invariant i <= |ri.methods|
        invariant forall k :: 0 <= k < i ==> OrdinalOk(ri.methods[k].ordinal)
      {
        if !OrdinalOk(ri.methods[i].ordinal) {
          return false;
        }
        i := i + 1;
      }
      interfaces := interfaces + [Interface(ri.name, ri.methods)];
      return true;
    }

    /** ConsumeStructDeclaration: nested constants and enums, then the
        struct. */
    method ConsumeStruct(rs: RawStruct)
      modifies this
      ensures consts == old(consts) + rs.consts
      ensures enums == old(enums) + seq(|rs.enums|, k requires 0 <= k < |rs.enums| => FlattenEnum(rs.enums[k]))
      ensures structs == old(structs) + [Aggregate(rs.name, rs.members)]
      ensures interfaces == old(interfaces) && unions == old(unions)
    {
      consts := consts + rs.consts;
      ConsumeEnums(rs.enums);
      structs := structs + [Aggregate(rs.name, rs.members)];
    }

    /** Library::Resolve: every declaration, kind by kind, must resolve;
        the first failure stops it. */
    method Resolve() returns (ok: bool)
      ensures ok <==>
        ConstsOk(consts) && EnumsOk(enums) && InterfacesOk(interfaces) &&
        AggregatesOk(structs) && AggregatesOk(unions)
    {
      ok := ResolveConsts(consts);
      if !ok {
        return;
      }
      ok := ResolveEnums(enums);
      if !ok {
        return;
      }
      ok := ResolveInterfaces(interfaces);
      if !ok {
        return;
      }
      ok := ResolveAggregates(structs, false);
      if !ok {
        return;
      }
      ok := ResolveAggregates(unions, true);
    }
  }
}
