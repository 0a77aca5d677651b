/** Accessor layouts over the binary chunk of a GLB file (glb.rs; glTF 2.0 section 3.6.2.4). */
module Accessors {
  import opened Machine

  datatype ComponentType = I8 | U8 | I16 | U16 | U32 | F32 | OtherType

  datatype Shape = Scalar | Vec2 | Vec3 | Vec4 | OtherShape

  datatype Expectation = Positions | Normals | Tangents | Texcoords | Colors | Indices

  datatype Accessor = Accessor(
    bufferView: nat, byteOffset: nat, component: ComponentType, count: nat, shape: Shape, normalized: bool,
    bounded: bool)

  datatype View = View(buffer: nat, byteOffset: nat, byteLength: nat, byteStride: Option<nat>)

  datatype Format = Format(
    elementBytes: nat, elementAlignment: nat, strideAlignment: nat, components: nat, quantized: bool)

  datatype Layout = Layout(start: nat, stride: nat, count: nat, component: ComponentType, components: nat)

  datatype Diagnostic =
    | MissingReference | UnsupportedAccessor | InvalidJson | InvalidBufferRange | InvalidColor | InvalidIndex

  const MAX_STRIDE: nat := 252

  function Width(c: ComponentType): Option<nat> {
    match c
    case I8 => Some(1)
    case U8 => Some(1)
    case I16 => Some(2)
    case U16 => Some(2)
    case U32 => Some(4)
    case F32 => Some(4)
    case OtherType => None
  }

  function WidthOf(c: ComponentType): nat { if Width(c).Some? then Width(c).value else 0 }

  function AttributeFormat(c: ComponentType, components: nat, quantized: bool): Format {
    Format(components * WidthOf(c), 4, 4, components, quantized)
  }

  /** Which element formats each use of an accessor admits. */
  function FormatOf(a: Accessor, e: Expectation): Option<Format> {
    match e
    case Positions =>
      if a.component == F32 && a.shape == Vec3 && !a.normalized then Some(AttributeFormat(F32, 3, false))
      else if a.shape == Vec3 && a.component in {I8, U8, I16, U16} then Some(AttributeFormat(a.component, 3, true))
      else None
    case Normals =>
      if a.component == F32 && a.shape == Vec3 && !a.normalized then Some(AttributeFormat(F32, 3, false))
      else if a.shape == Vec3 && a.normalized && a.component in {I8, I16} then
        Some(AttributeFormat(a.component, 3, true))
      else None
    case Tangents =>
      if a.component == F32 && a.shape == Vec4 && !a.normalized then Some(AttributeFormat(F32, 4, false))
      else if a.shape == Vec4 && a.normalized && a.component in {I8, I16} then
        Some(AttributeFormat(a.component, 4, true))
      else None
    case Texcoords =>
      if a.component == F32 && a.shape == Vec2 && !a.normalized then Some(AttributeFormat(F32, 2, false))
      else if a.shape == Vec2 && a.normalized && a.component in {U8, U16} then
        Some(Format(2 * WidthOf(a.component), WidthOf(a.component), 4, 2, false))
      else if a.shape == Vec2 && (a.component in {I8, I16} || (a.component in {U8, U16} && !a.normalized)) then
        Some(AttributeFormat(a.component, 2, true))
      else None
    case Colors =>
      if a.shape != Vec3 && a.shape != Vec4 then None
      else if (a.component == F32 && !a.normalized) || (a.component in {U8, U16} && a.normalized) then
        Some(AttributeFormat(a.component, if a.shape == Vec3 then 3 else 4, false))
      else None
    case Indices =>
      if a.shape != Scalar || a.normalized || a.component !in {U16, U32} then None
      else Some(Format(WidthOf(a.component), WidthOf(a.component), WidthOf(a.component), 1, false))
  }

  function StrideOf(v: View, f: Format): Result<nat, Diagnostic> {
    var stride := if v.byteStride.Some? then v.byteStride.value else f.elementBytes;
    var alignment := if v.byteStride.Some? then f.strideAlignment else f.elementAlignment;
    if stride < f.elementBytes || (alignment > 0 && stride % alignment != 0) || stride > MAX_STRIDE then
      Err(UnsupportedAccessor)
    else Ok(stride)
  }

  /** Bytes from the first to past the last element. */
  function OccupiedBytes(count: nat, stride: nat, elementBytes: nat): Option<nat>
    requires count > 0
  {
    var steps := CheckedMul(count - 1, stride);
    if steps.None? then None else CheckedAdd(steps.value, elementBytes)
  }

  function RangeOf(chunk: nat, a: Accessor, v: View, f: Format): Result<Layout, Diagnostic>
    requires a.count > 0 && f.elementAlignment > 0
  {
    var stride := StrideOf(v, f);
    if stride.Err? then Err(stride.error)
    else
      var viewEnd := CheckedAdd(v.byteOffset, v.byteLength);
      var start := CheckedAdd(v.byteOffset, a.byteOffset);
      if viewEnd.None? || viewEnd.value > chunk || start.None? then Err(InvalidBufferRange)
      else if a.byteOffset % f.elementAlignment != 0 || start.value % f.elementAlignment != 0 then
        Err(InvalidBufferRange)
      else
        var occupied := OccupiedBytes(a.count, stride.value, f.elementBytes);
        if occupied.None? then Err(InvalidBufferRange)
        else
          var end := CheckedAdd(start.value, occupied.value);
          if end.None? || start.value < v.byteOffset || end.value > viewEnd.value then Err(InvalidBufferRange)
          else Ok(Layout(start.value, stride.value, a.count, a.component, f.components))
  }

  /** `accessor_layout` over a chunk of `chunk` bytes. */
  function LayoutOf(
    accessors: seq<Accessor>, views: seq<View>, chunk: nat, index: nat, e: Expectation, quantization: bool)
    : Result<Layout, Diagnostic>
  {
    if index >= |accessors| || accessors[index].bufferView >= |views| then Err(MissingReference)
    else
      var a := accessors[index];
      var v := views[a.bufferView];
      var format := FormatOf(a, e);
      if v.buffer != 0 || a.count == 0 then Err(UnsupportedAccessor)
      else if format.None? then Err(if e.Colors? then InvalidColor else UnsupportedAccessor)
      else if format.value.quantized && !quantization then Err(InvalidJson)
      else if e.Positions? && format.value.quantized && !a.bounded then Err(InvalidJson)
      else
        FormatFacts(a, e);
        var range := RangeOf(chunk, a, v, format.value);
        if range.Err? && range.error.UnsupportedAccessor? && e.Colors? then Err(InvalidColor) else range
  }

  lemma FormatFacts(a: Accessor, e: Expectation)
    requires FormatOf(a, e).Some?
    ensures var f, w := FormatOf(a, e).value, WidthOf(a.component);
      && w in {1, 2, 4} && f.elementAlignment in {1, 2, 4} && f.strideAlignment in {1, 2, 4}
      && w <= f.elementAlignment <= f.strideAlignment
      && 1 <= f.components <= 4 && f.elementBytes == f.components * w
  {
  }

  // ----- reading -----

  function ElementOffset(l: Layout, index: nat): Option<nat> {
    var relative := CheckedMul(index, l.stride);
    if relative.None? then None else CheckedAdd(l.start, relative.value)
  }

  /** The bytes of one component, or the range error. */
  function ReadComponent(binary: seq<Byte>, l: Layout, index: nat, component: nat): Result<seq<Byte>, Diagnostic> {
    var width := Width(l.component);
    if width.None? then Err(UnsupportedAccessor)
    else
      var element, within := ElementOffset(l, index), CheckedMul(component, width.value);
      if element.None? || within.None? then Err(InvalidBufferRange)
      else
        var start := CheckedAdd(element.value, within.value);
        if start.None? || CheckedAdd(start.value, width.value).None? || start.value + width.value > |binary| then
          Err(InvalidBufferRange)
        else Ok(binary[start.value..start.value + width.value])
  }

  // ----- soundness -----

  /** A layout that `LayoutOf` accepted for this accessor, view and use. */
  ghost predicate Accepted(l: Layout, a: Accessor, v: View, e: Expectation, chunk: nat) {
    && a.count > 0 && FormatOf(a, e).Some?
    && (FormatFacts(a, e); RangeOf(chunk, a, v, FormatOf(a, e).value) == Ok(l))
  }

  lemma AcceptedLayouts(
    accessors: seq<Accessor>, views: seq<View>, chunk: nat, index: nat, e: Expectation, quantization: bool)
    requires LayoutOf(accessors, views, chunk, index, e, quantization).Ok?
    ensures index < |accessors| && accessors[index].bufferView < |views|
    ensures Accepted(LayoutOf(accessors, views, chunk, index, e, quantization).value,
              accessors[index], views[accessors[index].bufferView], e, chunk)
  {
  }

  /** A multiple of `m`, for the alignments that occur. */
  predicate Aligned(n: nat, m: nat) { m == 1 || (m == 2 && n % 2 == 0) || (m == 4 && n % 4 == 0) }

  lemma AlignedIs(n: nat, m: nat)
    requires m in {1, 2, 4}
    ensures Aligned(n, m) <==> n % m == 0
  {
  }

  lemma AlignedSum(a: nat, b: nat, m: nat)
    requires Aligned(a, m) && Aligned(b, m)
    ensures Aligned(a + b, m)
  {
    if m == 2 { EvenSum(a, b); }
    if m == 4 { FourSum(a, b); }
  }

  lemma EvenSum(a: nat, b: nat)
    requires a % 2 == 0 && b % 2 == 0
    ensures (a + b) % 2 == 0
  {
  }

  lemma FourSum(a: nat, b: nat)
    requires a % 4 == 0
    ensures (a + b) % 4 == 0 <==> b % 4 == 0
  {
    var k := a / 4;
    assert a == 4 * k;
  }

  /** What is aligned to an element is aligned to its components. */
  lemma AlignedFiner(n: nat, m: nat, w: nat)
    requires Aligned(n, m) && w in {1, 2, 4} && w <= m
    ensures Aligned(n, w)
  {
    if m == 4 && w == 2 { var k := n / 4; assert n == 2 * (2 * k); }
  }

  lemma {:induction false} AlignedMultiple(k: nat, stride: nat, m: nat)
    requires Aligned(stride, m)
    ensures Aligned(k * stride, m)
  {
    if k == 0 {
      assert k * stride == 0;
    } else {
      AlignedMultiple(k - 1, stride, m);
      assert k * stride == (k - 1) * stride + stride;
      AlignedSum((k - 1) * stride, stride, m);
    }
  }

  lemma StepsBound(i: nat, j: nat, stride: nat)
    requires i <= j
    ensures i * stride <= j * stride
  {
    assert j * stride == i * stride + (j - i) * stride;
  }

  /** The stride keeps the element alignment, whether it was given or implied. */
  lemma StrideKeepsAlignment(a: Accessor, v: View, e: Expectation)
    requires FormatOf(a, e).Some? && StrideOf(v, FormatOf(a, e).value).Ok?
    ensures var f, stride := FormatOf(a, e).value, StrideOf(v, FormatOf(a, e).value).value;
      f.elementAlignment in {1, 2, 4} && Aligned(stride, f.elementAlignment) && f.elementBytes <= stride <= MAX_STRIDE
  {
    FormatFacts(a, e);
    var f, stride := FormatOf(a, e).value, StrideOf(v, FormatOf(a, e).value).value;
    if v.byteStride.Some? {
      AlignedIs(stride, f.strideAlignment);
      AlignedFiner(stride, f.strideAlignment, f.elementAlignment);
    } else {
      AlignedIs(stride, f.elementAlignment);
    }
  }

  /** Where element `i` starts. */
  function StartOf(l: Layout, i: nat): nat { l.start + i * l.stride }

  /** What acceptance means: sizes, alignment, and the last element inside the view inside the chunk. */
  ghost predicate Geometry(l: Layout, f: Format, w: nat, v: View, chunk: nat) {
    && w in {1, 2, 4} && f.elementAlignment in {1, 2, 4} && w <= f.elementAlignment
    && l.count > 0 && l.components == f.components && f.elementBytes == f.components * w
    && f.elementBytes <= l.stride <= MAX_STRIDE && Aligned(l.stride, f.elementAlignment)
    && v.byteOffset <= l.start && Aligned(l.start, f.elementAlignment)
    && Aligned(l.start - v.byteOffset, f.elementAlignment)
    && StartOf(l, l.count - 1) + f.elementBytes <= v.byteOffset + v.byteLength <= chunk
    && v.byteOffset + v.byteLength <= U64_MAX
  }

  lemma {:induction false} AcceptedGeometry(l: Layout, a: Accessor, v: View, e: Expectation, chunk: nat)
    requires Accepted(l, a, v, e, chunk)
    ensures l.component == a.component && Width(a.component).Some?
    ensures Geometry(l, FormatOf(a, e).value, WidthOf(a.component), v, chunk)
  {
    FormatFacts(a, e);
    StrideKeepsAlignment(a, v, e);
    AlignedIs(l.start, FormatOf(a, e).value.elementAlignment);
    AlignedIs(a.byteOffset, FormatOf(a, e).value.elementAlignment);
  }

  /** Every element lies inside its view and the chunk. */
  lemma {:induction false} ElementInside(l: Layout, f: Format, w: nat, v: View, chunk: nat, i: nat)
    requires Geometry(l, f, w, v, chunk) && i < l.count
    ensures v.byteOffset <= StartOf(l, i) && StartOf(l, i) + f.elementBytes <= v.byteOffset + v.byteLength <= chunk
    ensures ElementOffset(l, i) == Some(StartOf(l, i))
  {
    StepsBound(i, l.count - 1, l.stride);
  }

  lemma PlaceAligned(start: nat, i: nat, stride: nat, m: nat)
    requires Aligned(start, m) && Aligned(stride, m)
    ensures Aligned(start + i * stride, m)
  {
    AlignedMultiple(i, stride, m);
    AlignedSum(start, i * stride, m);
  }

  /** Every element starts on an element boundary of the chunk and of its view. */
  lemma {:induction false} ElementAligned(l: Layout, f: Format, w: nat, v: View, chunk: nat, i: nat)
    requires Geometry(l, f, w, v, chunk) && i < l.count
    ensures Aligned(StartOf(l, i), f.elementAlignment)
      && Aligned(l.start - v.byteOffset + i * l.stride, f.elementAlignment)
  {
    PlaceAligned(l.start, i, l.stride, f.elementAlignment);
    PlaceAligned(l.start - v.byteOffset, i, l.stride, f.elementAlignment);
  }

  /** Elements never overlap. */
  lemma {:induction false} ElementsDisjoint(l: Layout, f: Format, w: nat, v: View, chunk: nat, i: nat, j: nat)
    requires Geometry(l, f, w, v, chunk) && i < j < l.count
    ensures StartOf(l, i) + f.elementBytes <= StartOf(l, j)
  {
    StepsBound(i + 1, j, l.stride);
    assert (i + 1) * l.stride == i * l.stride + l.stride;
  }

  /** Every component lies inside its element, on a multiple of its own size. */
  lemma {:induction false} ComponentInside(l: Layout, f: Format, w: nat, v: View, chunk: nat, i: nat, c: nat)
    requires Geometry(l, f, w, v, chunk) && i < l.count && c < l.components
    ensures c * w + w <= f.elementBytes && Aligned(StartOf(l, i) + c * w, w)
  {
    StepsBound(c + 1, f.components, w);
    assert (c + 1) * w == c * w + w;
    ElementAligned(l, f, w, v, chunk, i);
    AlignedFiner(StartOf(l, i), f.elementAlignment, w);
    assert Aligned(w, w);
    AlignedMultiple(c, w, w);
    AlignedSum(StartOf(l, i), c * w, w);
  }

  /**
   * Reading any component of any element of an accepted layout succeeds, yields the bytes at its place inside the
   * element, its view and the chunk, and that place is a multiple of the component size.
   */
  lemma {:induction false} ReadsSucceed(
    l: Layout, a: Accessor, v: View, e: Expectation, binary: seq<Byte>, i: nat, c: nat)
    requires Accepted(l, a, v, e, |binary|) && i < l.count && c < l.components
    ensures var w, at := WidthOf(a.component), StartOf(l, i) + c * WidthOf(a.component);
      && Aligned(at, w)
      && at + w <= StartOf(l, i) + FormatOf(a, e).value.elementBytes <= v.byteOffset + v.byteLength <= |binary|
      && ReadComponent(binary, l, i, c) == Ok(binary[at..at + w])
  {
    AcceptedGeometry(l, a, v, e, |binary|);
    ReadsInside(l, FormatOf(a, e).value, WidthOf(a.component), v, binary, i, c);
  }

  lemma {:induction false} ReadsInside(l: Layout, f: Format, w: nat, v: View, binary: seq<Byte>, i: nat, c: nat)
    requires Geometry(l, f, w, v, |binary|) && Width(l.component) == Some(w) && i < l.count && c < l.components
    ensures var at := StartOf(l, i) + c * w;
      && Aligned(at, w) && at + w <= StartOf(l, i) + f.elementBytes <= v.byteOffset + v.byteLength <= |binary|
      && ReadComponent(binary, l, i, c) == Ok(binary[at..at + w])
  {
    ElementInside(l, f, w, v, |binary|, i);
    ComponentInside(l, f, w, v, |binary|, i, c);
    ReadAt(l, w, binary, i, c);
  }

  lemma ReadAt(l: Layout, w: nat, binary: seq<Byte>, i: nat, c: nat)
    requires Width(l.component) == Some(w) && ElementOffset(l, i) == Some(StartOf(l, i))
    requires StartOf(l, i) + c * w + w <= |binary| && StartOf(l, i) + c * w + w <= U64_MAX
    ensures var at := StartOf(l, i) + c * w; ReadComponent(binary, l, i, c) == Ok(binary[at..at + w])
  {
  }

  // ----- four-byte alignment -----

  /** Every element starts on a four-byte boundary inside its buffer view. */
  ghost predicate FourByteAligned(offset: nat, stride: nat, count: nat) {
    forall i | 0 <= i < count :: StartsAligned(offset, stride, i)
  }

  ghost predicate StartsAligned(offset: nat, stride: nat, i: nat) { Aligned(offset + i * stride, 4) }

  lemma {:induction false} FourByteArithmetic(offset: nat, stride: nat, count: nat)
    requires count > 0
    ensures FourByteAligned(offset, stride, count) <==> Aligned(offset, 4) && (count == 1 || Aligned(stride, 4))
  {
    if Aligned(offset, 4) && Aligned(stride, 4) {
      forall i | 0 <= i < count ensures StartsAligned(offset, stride, i) {
        AlignedMultiple(i, stride, 4);
        AlignedSum(offset, i * stride, 4);
      }
    }
    FirstTwoStarts(offset, stride, count);
  }

  lemma FirstTwoStarts(offset: nat, stride: nat, count: nat)
    ensures StartsAligned(offset, stride, 0) <==> Aligned(offset, 4)
    ensures Aligned(offset, 4) ==> (StartsAligned(offset, stride, 1) <==> Aligned(stride, 4))
    ensures FourByteAligned(offset, stride, count) && count > 0 ==> StartsAligned(offset, stride, 0)
    ensures FourByteAligned(offset, stride, count) && count > 1 ==> StartsAligned(offset, stride, 1)
    ensures count == 1 && StartsAligned(offset, stride, 0) ==> FourByteAligned(offset, stride, count)
  {
    assert 0 * stride == 0 && 1 * stride == stride;
    if offset % 4 == 0 { FourSum(offset, stride); }
  }

  /**
   * Normalized unsigned texture coordinates, the one vertex format without an extension that is not four-byte aligned.
   */
  predicate PackableTexcoords(a: Accessor, e: Expectation) { e.Texcoords? && a.normalized && a.component in {U8, U16} }

  /**
   * A vertex attribute that is accepted has all its elements on four-byte boundaries of its view exactly when it is not
   * packable texture coordinates, or those start on such a boundary and are single, explicitly strided, or four bytes
   * each.
   */
  lemma {:induction false} FourByteAlignedIff(l: Layout, a: Accessor, v: View, e: Expectation, chunk: nat)
    requires Accepted(l, a, v, e, chunk) && !e.Indices?
    ensures l.start == v.byteOffset + a.byteOffset
    ensures FourByteAligned(l.start - v.byteOffset, l.stride, l.count) <==>
      !PackableTexcoords(a, e) ||
      (a.byteOffset % 4 == 0 && (a.count == 1 || v.byteStride.Some? || a.component == U16))
  {
    AcceptedGeometry(l, a, v, e, chunk);
    FourByteArithmetic(a.byteOffset, l.stride, a.count);
    VertexStride(a, v, e);
  }

  /** When the stride of a vertex attribute is a multiple of four. */
  lemma {:induction false} VertexStride(a: Accessor, v: View, e: Expectation)
    requires FormatOf(a, e).Some? && !e.Indices? && StrideOf(v, FormatOf(a, e).value).Ok?
    ensures var stride := StrideOf(v, FormatOf(a, e).value).value;
      && (!PackableTexcoords(a, e) ==> FormatOf(a, e).value.elementAlignment == 4 && Aligned(stride, 4))
      && (PackableTexcoords(a, e) ==> (Aligned(stride, 4) <==> v.byteStride.Some? || a.component == U16))
  {
    var f := FormatOf(a, e).value;
    assert f.strideAlignment == 4;
  }

  /** Two packed normalized byte texture coordinates are accepted, and the second starts at byte two of its view. */
  lemma PackedTexcoordsNotAligned()
    ensures var a, v := Accessor(0, 0, U8, 2, Vec2, true, false), View(0, 0, 4, None);
      && LayoutOf([a], [v], 4, 0, Texcoords, false) == Ok(Layout(0, 2, 2, U8, 2))
      && !FourByteAligned(0, 2, 2)
  {
    assert !StartsAligned(0, 2, 1);
  }

  // ----- vertices -----

  /** An unsigned little-endian value. */
  function LittleEndian(b: seq<Byte>): nat { if b == [] then 0 else b[0] + 256 * LittleEndian(b[1..]) }

  function IndexAt(binary: seq<Byte>, indices: Option<Layout>, output: nat): Result<nat, Diagnostic> {
    if indices.None? then Ok(output)
    else if ElementOffset(indices.value, output).None? then Err(InvalidBufferRange)
    else if indices.value.component !in {U16, U32} then Err(UnsupportedAccessor)
    else
      var bytes := ReadComponent(binary, indices.value, output, 0);
      if bytes.Err? then Err(bytes.error) else Ok(LittleEndian(bytes.value))
  }

  /** The first `n` components of one element. */
  function Components(binary: seq<Byte>, l: Layout, index: nat, n: nat): Result<seq<seq<Byte>>, Diagnostic> {
    if n == 0 then Ok([])
    else
      var front := Components(binary, l, index, n - 1);
      var last := ReadComponent(binary, l, index, n - 1);
      if front.Err? then front else if last.Err? then Err(last.error) else Ok(front.value + [last.value])
  }

  /** One output vertex: its index, the bound on it, its components. */
  function VertexAt(binary: seq<Byte>, l: Layout, indices: Option<Layout>, k: nat): Result<seq<seq<Byte>>, Diagnostic> {
    var index := IndexAt(binary, indices, k);
    if index.Err? then Err(index.error)
    else if index.value >= l.count then Err(InvalidIndex)
    else Components(binary, l, index.value, l.components)
  }

  /** Component `c` of element `i` is these bytes of the chunk. */
  predicate ComponentIs(binary: seq<Byte>, l: Layout, i: nat, c: nat, bytes: seq<Byte>) {
    var at, w := l.start + i * l.stride + c * WidthOf(l.component), WidthOf(l.component);
    w > 0 && at + w <= |binary| && bytes == binary[at..at + w]
  }

  /** Every component of element `i`, in order. */
  predicate ElementIs(binary: seq<Byte>, l: Layout, i: nat, components: seq<seq<Byte>>) {
    |components| == l.components && forall c | 0 <= c < l.components :: ComponentIs(binary, l, i, c, components[c])
  }

  function Value16(b: seq<nat>): nat
    requires |b| == 2
  {
    b[0] + 256 * b[1]
  }

  function Value32(b: seq<nat>): nat
    requires |b| == 4
  {
    b[0] + 256 * b[1] + 65536 * b[2] + 16777216 * b[3]
  }

  /** Output `k` takes element `i`: itself, or what the 16 or 32 bits at its place in the index accessor say. */
  predicate IndexIs(binary: seq<Byte>, indices: Option<Layout>, k: nat, i: nat) {
    match indices
    case None => i == k
    case Some(l) =>
      var at := l.start + k * l.stride;
      if l.component.U16? then at + 2 <= |binary| && i == Value16(binary[at..at + 2])
      else l.component.U32? && at + 4 <= |binary| && i == Value32(binary[at..at + 4])
  }

  /** Output `k` is the element its index names, byte for byte. */
  ghost predicate VertexIs(
    binary: seq<Byte>, l: Layout, indices: Option<Layout>, k: nat, components: seq<seq<Byte>>)
  {
    exists i: nat :: IndexIs(binary, indices, k, i) && i < l.count && ElementIs(binary, l, i, components)
  }

  lemma ReadIs(binary: seq<Byte>, l: Layout, i: nat, c: nat)
    requires ReadComponent(binary, l, i, c).Ok?
    ensures ComponentIs(binary, l, i, c, ReadComponent(binary, l, i, c).value)
  {
  }

  lemma PushComponent(binary: seq<Byte>, l: Layout, i: nat, front: seq<seq<Byte>>, last: seq<Byte>)
    requires forall c | 0 <= c < |front| :: ComponentIs(binary, l, i, c, front[c])
    requires ComponentIs(binary, l, i, |front|, last)
    ensures forall c | 0 <= c < |front| + 1 :: ComponentIs(binary, l, i, c, (front + [last])[c])
  {
  }

  lemma {:induction false} ComponentsAre(binary: seq<Byte>, l: Layout, i: nat, n: nat)
    requires Components(binary, l, i, n).Ok?
    ensures |Components(binary, l, i, n).value| == n
    ensures forall c | 0 <= c < n :: ComponentIs(binary, l, i, c, Components(binary, l, i, n).value[c])
  {
    if n > 0 {
      ComponentsAre(binary, l, i, n - 1);
      ReadIs(binary, l, i, n - 1);
      var front, last := Components(binary, l, i, n - 1).value, ReadComponent(binary, l, i, n - 1).value;
      assert Components(binary, l, i, n) == Ok(front + [last]);
      PushComponent(binary, l, i, front, last);
    }
  }

  lemma {:induction false} LittleEndianIs(b: seq<Byte>)
    ensures |b| == 2 ==> LittleEndian(b) == Value16(b)
    ensures |b| == 4 ==> LittleEndian(b) == Value32(b)
  {
    if |b| == 2 { assert b[1..] == [b[1]] && [b[1]][1..] == []; }
    if |b| == 4 {
      LittleEndianIs(b[2..]);
      var high := LittleEndian(b[2..]);
      assert LittleEndian(b[1..]) == b[1] + 256 * high by { assert b[1..][1..] == b[2..]; }
      assert LittleEndian(b) == b[0] + 256 * LittleEndian(b[1..]);
    }
  }

  lemma IndexAtIs(binary: seq<Byte>, indices: Option<Layout>, k: nat)
    requires IndexAt(binary, indices, k).Ok?
    ensures IndexIs(binary, indices, k, IndexAt(binary, indices, k).value)
  {
    if indices.Some? {
      var bytes := ReadComponent(binary, indices.value, k, 0).value;
      ReadIs(binary, indices.value, k, 0);
      LittleEndianIs(bytes);
    }
  }

  lemma VertexAtIs(binary: seq<Byte>, l: Layout, indices: Option<Layout>, k: nat)
    requires VertexAt(binary, l, indices, k).Ok?
    ensures VertexIs(binary, l, indices, k, VertexAt(binary, l, indices, k).value)
  {
    IndexAtIs(binary, indices, k);
    ComponentsAre(binary, l, IndexAt(binary, indices, k).value, l.components);
  }

  lemma {:induction false} ComponentsRead(
    l: Layout, a: Accessor, v: View, e: Expectation, binary: seq<Byte>, i: nat, n: nat)
    requires Accepted(l, a, v, e, |binary|) && i < l.count && n <= l.components
    ensures Components(binary, l, i, n).Ok? && |Components(binary, l, i, n).value| == n
  {
    if n > 0 {
      ComponentsRead(l, a, v, e, binary, i, n - 1);
      ReadsSucceed(l, a, v, e, binary, i, n - 1);
    }
  }

  /** An index accessor that was accepted and reaches vertex `k`, or none at all. */
  ghost predicate Indexes(indices: Option<Layout>, ia: Accessor, iv: View, chunk: nat, k: nat) {
    indices.Some? ==> Accepted(indices.value, ia, iv, Indices, chunk) && k < indices.value.count
  }

  /**
   * With accepted layouts every output has an index, and the only refusal is an index past the attribute: no read can
   * leave the chunk. Otherwise the output is the element of that index.
   */
  lemma {:induction false} VertexRefusedIff(
    l: Layout, a: Accessor, v: View, e: Expectation, indices: Option<Layout>, ia: Accessor, iv: View, binary: seq<Byte>,
    k: nat)
    returns (i: nat)
    requires Accepted(l, a, v, e, |binary|) && Indexes(indices, ia, iv, |binary|, k)
    ensures IndexIs(binary, indices, k, i)
    ensures VertexAt(binary, l, indices, k).Ok? <==> i < l.count
    ensures VertexAt(binary, l, indices, k).Err? ==> VertexAt(binary, l, indices, k).error == InvalidIndex
    ensures VertexAt(binary, l, indices, k).Ok? ==> ElementIs(binary, l, i, VertexAt(binary, l, indices, k).value)
  {
    if indices.Some? {
      AcceptedGeometry(indices.value, ia, iv, Indices, |binary|);
      ElementInside(indices.value, FormatOf(ia, Indices).value, WidthOf(ia.component), iv, |binary|, k);
      ReadsSucceed(indices.value, ia, iv, Indices, binary, k, 0);
    }
    i := IndexAt(binary, indices, k).value;
    IndexAtIs(binary, indices, k);
    if i < l.count {
      ComponentsRead(l, a, v, e, binary, i, l.components);
      ComponentsAre(binary, l, i, l.components);
    }
  }

  /** The vertex loop over one attribute: every vertex in order, or the first refusal. */
  method DecodeAttribute(binary: seq<Byte>, l: Layout, indices: Option<Layout>, outputs: nat)
    returns (r: Result<seq<seq<seq<Byte>>>, Diagnostic>, ghost stop: nat)
    ensures stop <= outputs && forall k | 0 <= k < stop :: VertexAt(binary, l, indices, k).Ok?
    ensures r.Ok? ==> stop == outputs == |r.value|
    ensures r.Ok? ==> forall k | 0 <= k < outputs :: VertexAt(binary, l, indices, k) == Ok(r.value[k])
    ensures r.Ok? ==> forall k | 0 <= k < outputs :: VertexIs(binary, l, indices, k, r.value[k])
    ensures r.Err? ==> stop < outputs && VertexAt(binary, l, indices, stop) == Err(r.error)
  {
    var vertices: seq<seq<seq<Byte>>> := [];
    stop := 0;
    for k := 0 to outputs
      invariant |vertices| == k == stop && forall m | 0 <= m < k :: VertexAt(binary, l, indices, m) == Ok(vertices[m])
    {
      var index := IndexAt(binary, indices, k);
      if index.Err? { return Err(index.error), stop; }
      if index.value >= l.count { return Err(InvalidIndex), stop; }
      var element := Components(binary, l, index.value, l.components);
      if element.Err? { return Err(element.error), stop; }
      vertices := vertices + [element.value];
      stop := k + 1;
    }
    forall k | 0 <= k < outputs ensures VertexIs(binary, l, indices, k, vertices[k]) {
      VertexAtIs(binary, l, indices, k);
    }
    return Ok(vertices), stop;
  }
}
