/** The flat byte image: slot geometry, and the little-endian fields of a slot header. */
module Layout {
  import opened Basics
  import opened TenzorCore

  type byte = x: int | 0 <= x < 256

  // ---- geometry -------------------------------------------------------------

  function AlignUp(value: nat, alignment: nat): nat
    requires alignment > 0
  {
    (value + alignment - 1) / alignment * alignment
  }

  function SlotStride(capacity: nat): nat { AlignUp(SLOT_HEADER_SIZE + capacity, 64) }

  function TotalBytes(slots: nat, capacity: nat): nat { GLOBAL_HEADER_SIZE + slots * SlotStride(capacity) }

  function SlotBase(i: nat, capacity: nat): nat { GLOBAL_HEADER_SIZE + i * SlotStride(capacity) }

  function PayloadBase(i: nat, capacity: nat): nat { SlotBase(i, capacity) + SLOT_HEADER_SIZE }

  function RegistryEntry(c: nat): nat { REGISTRY_OFF + c * REGISTRY_ENTRY_SIZE }

  // align_up gives the least multiple of the alignment that is not below the value.
  lemma AlignUpIsLeast(value: nat, alignment: nat)
    requires alignment > 0
    ensures AlignUp(value, alignment) % alignment == 0
    ensures value <= AlignUp(value, alignment) < value + alignment
  {
    var q := (value + alignment - 1) / alignment;
    assert value + alignment - 1 == q * alignment + (value + alignment - 1) % alignment;
    MultipleMod(q, alignment);
  }

  lemma MultipleMod(q: nat, m: nat)
    requires m > 0
    ensures (q * m) % m == 0
  {
    var n := q * m;
    var d, r := n / m, n % m;
    assert n == d * m + r;
    Mono(d + 1, q, m);
    Mono(q + 1, d, m);
  }

  lemma Mono(a: nat, b: nat, c: nat)
    ensures a <= b ==> a * c <= b * c
  {
  }

  // Slot regions follow one another without overlap, start on cache lines, clear the
  // registry and end inside the mapping; so do the payloads inside them.
  lemma SlotsTileTheMapping(i: nat, j: nat, slots: nat, capacity: nat)
    requires i < j < slots
    ensures SlotBase(i, capacity) % 64 == 0 && PayloadBase(i, capacity) % 64 == 0
    ensures RegistryEntry(MAX_CONSUMERS) <= GLOBAL_HEADER_SIZE <= SlotBase(i, capacity)
    ensures PayloadBase(i, capacity) + capacity <= SlotBase(i, capacity) + SlotStride(capacity) <= SlotBase(j, capacity)
    ensures PayloadBase(j, capacity) + capacity <= TotalBytes(slots, capacity)
  {
    var s := SlotStride(capacity);
    AlignUpIsLeast(SLOT_HEADER_SIZE + capacity, 64);
    Mono(i + 1, j, s);
    Mono(j + 1, slots, s);
    var k := s / 64;
    assert s == k * 64;
    assert i * s == (i * k) * 64 by { Assoc(i, k, 64); }
  }

  lemma Assoc(a: nat, b: nat, c: nat)
    ensures a * (b * c) == (a * b) * c
  {
  }

  // ---- little-endian fields -------------------------------------------------

  function Pow256(n: nat): (p: nat)
    ensures p > 0
  {
    if n == 0 then 1 else 256 * Pow256(n - 1)
  }

  function EncodeLE(value: nat, width: nat): (bs: seq<byte>)
    ensures |bs| == width
  {
    if width == 0 then [] else [(value % 256) as byte] + EncodeLE(value / 256, width - 1)
  }

  function DecodeLE(bs: seq<byte>): nat {
    if bs == [] then 0 else bs[0] + 256 * DecodeLE(bs[1..])
  }

  lemma {:induction false} DecodeEncode(value: nat, width: nat)
    requires value < Pow256(width)
    ensures DecodeLE(EncodeLE(value, width)) == value
    decreases width
  {
    if width > 0 {
      DecodeEncode(value / 256, width - 1);
      assert EncodeLE(value, width)[1..] == EncodeLE(value / 256, width - 1);
    }
  }

  // Little-endian: byte k has weight 256^k.
  lemma {:induction false} LowBytesFirst(value: nat, width: nat, k: nat)
    requires k < width
    ensures EncodeLE(value, width)[k] == (value / Pow256(k)) % 256
    decreases width
  {
    if k > 0 {
      LowBytesFirst(value / 256, width - 1, k - 1);
      DivDiv(value, Pow256(k - 1));
    }
  }

  lemma DivDiv(n: nat, b: nat)
    requires b > 0
    ensures n / 256 / b == n / (256 * b)
  {
    var q := n / 256;
    var m, u := q / b, q % b;
    var mb := m * b;
    assert q == mb + u;
    assert m * (256 * b) == 256 * mb by { Swap(m, 256, b); }
    Quotient(n, 256 * b, m, 256 * u + n % 256);
  }

  lemma Swap(a: nat, b: nat, c: nat)
    ensures a * (b * c) == b * (a * c)
  {
  }

  lemma Quotient(n: nat, d: nat, q: nat, r: nat)
    requires n == q * d + r && r < d
    ensures n / d == q
  {
    var p := n / d;
    assert n == p * d + n % d;
    Mono(p + 1, q, d);
    Mono(q + 1, p, d);
  }

  // A header field relative to its slot.
  datatype Field = Field(off: nat, width: nat)

  const STATE := Field(4, 4)
  const SEQUENCE := Field(8, 8)
  const TIMESTAMP := Field(16, 8)
  const NBYTES := Field(24, 8)
  const DTYPE := Field(32, 1)
  const NDIM := Field(33, 1)
  const READERS := Field(34, 2)
  const FLAGS := Field(36, 4)
  const PRODUCER_PID := Field(104, 4)
  const READERS_MASK := Field(112, 8)
  const START_TOKEN := Field(120, 4)

  function Shape(d: nat): Field { Field(40 + d * 4, 4) }

  function Stride(d: nat): Field { Field(72 + d * 4, 4) }

  predicate Apart(f: Field, g: Field) {
    f.off + f.width <= g.off || g.off + g.width <= f.off
  }

  predicate InHeader(f: Field) { f.off + f.width <= SLOT_HEADER_SIZE }

  // A list of fields that can all be written without disturbing one another.
  ghost predicate Disjoint(fs: seq<Field>) {
    && (forall k :: 0 <= k < |fs| ==> InHeader(fs[k]))
    && (forall k, l :: 0 <= k < l < |fs| ==> Apart(fs[k], fs[l]))
  }

  // The order in which the Rust producer stores a header: shape and stride words alternate.
  const RUST_FIRST := [STATE, PRODUCER_PID, START_TOKEN, SEQUENCE, TIMESTAMP, NBYTES, DTYPE, NDIM, FLAGS]
  const RUST_LAST := [READERS_MASK, READERS]

  function Alternating(): (fs: seq<Field>)
    ensures |fs| == 16
  {
    seq(16, k requires 0 <= k < 16 => if k % 2 == 0 then Shape(k / 2) else Stride(k / 2))
  }

  function RustOrder(): seq<Field> { RUST_FIRST + Alternating() + RUST_LAST }

  // The order in which the Python producer does: all shape words, then all stride words.
  const PYTHON_FIRST := [STATE, SEQUENCE, TIMESTAMP, NBYTES, DTYPE, NDIM, READERS, FLAGS]
  const PYTHON_LAST := [PRODUCER_PID]

  function Grouped(): (fs: seq<Field>)
    ensures |fs| == 16
  {
    seq(16, k requires 0 <= k < 16 => if k < 8 then Shape(k) else Stride(k - 8))
  }

  function PythonOrder(): seq<Field> { PYTHON_FIRST + Grouped() + PYTHON_LAST }

  ghost predicate AllApart(a: seq<Field>, b: seq<Field>) {
    forall k, l :: 0 <= k < |a| && 0 <= l < |b| ==> Apart(a[k], b[l])
  }

  lemma DisjointConcat(a: seq<Field>, b: seq<Field>)
    requires Disjoint(a) && Disjoint(b) && AllApart(a, b)
    ensures Disjoint(a + b)
  {
  }

  // The words outside the two arrays of the header, and the arrays.
  predicate Scalar(f: Field) { f.off + f.width <= Shape(0).off || PRODUCER_PID.off <= f.off }

  predicate InArrays(f: Field) { Shape(0).off <= f.off && f.off + f.width <= PRODUCER_PID.off }

  ghost predicate AllScalar(fs: seq<Field>) { forall k :: 0 <= k < |fs| ==> Scalar(fs[k]) }

  ghost predicate AllInArrays(fs: seq<Field>) { forall k :: 0 <= k < |fs| ==> InArrays(fs[k]) }

  // Scalars, then the arrays, then more scalars.
  lemma Sandwich(first: seq<Field>, arrays: seq<Field>, last: seq<Field>)
    requires AllScalar(first) && AllInArrays(arrays) && AllScalar(last)
    requires Disjoint(first) && Disjoint(arrays) && Disjoint(last) && AllApart(first, last)
    ensures Disjoint(first + arrays + last)
  {
    DisjointConcat(first, arrays);
    DisjointConcat(first + arrays, last);
  }

  lemma RustScalars()
    ensures AllScalar(RUST_FIRST) && AllScalar(RUST_LAST) && AllApart(RUST_FIRST, RUST_LAST)
  {
  }

  // Fields in ascending order are disjoint.
  predicate Follows(fs: seq<Field>, k: nat)
    requires k < |fs|
  {
    InHeader(fs[k]) && (k + 1 < |fs| ==> fs[k].width > 0 && fs[k].off + fs[k].width <= fs[k + 1].off)
  }

  ghost predicate Ascending(fs: seq<Field>) {
    forall k: nat :: k < |fs| ==> Follows(fs, k)
  }

  lemma {:induction false} AscendingIsDisjoint(fs: seq<Field>)
    requires Ascending(fs)
    ensures Disjoint(fs)
  {
    if |fs| > 1 {
      var rest := fs[1..];
      forall k: nat | k < |rest| ensures Follows(rest, k) {
        assert Follows(fs, k + 1);
      }
      AscendingIsDisjoint(rest);
      AscendingBound(fs);
      assert Follows(fs, 0);
    } else if |fs| == 1 {
      assert Follows(fs, 0);
    }
  }

  lemma {:induction false} AscendingBound(fs: seq<Field>)
    requires Ascending(fs)
    ensures forall l :: 0 < l < |fs| ==> fs[0].off + fs[0].width <= fs[l].off
  {
    if |fs| > 1 {
      var last := |fs| - 1;
      forall k: nat | k < last ensures Follows(fs[..last], k) {
        assert Follows(fs, k);
      }
      AscendingBound(fs[..last]);
      assert Follows(fs, last - 1);
    }
  }

  lemma RustFirstIsDisjoint()
    ensures Disjoint(RUST_FIRST)
  {
    var a, b := RUST_FIRST[..3], RUST_FIRST[3..];
    assert RUST_FIRST == a + b;
    AscendingIsDisjoint(a);
    AscendingIsDisjoint(b);
    assert AllApart(a, b);
    DisjointConcat(a, b);
  }

  lemma AlternatingIsDisjoint()
    ensures Disjoint(Alternating()) && AllInArrays(Alternating())
  {
    var fs := Alternating();
    forall k, l | 0 <= k < l < 16 ensures Apart(fs[k], fs[l]) {
      if k % 2 == l % 2 {
        assert k / 2 < l / 2;
      }
    }
  }

  lemma RustOrderIsDisjoint()
    ensures Disjoint(RustOrder())
  {
    RustScalars();
    RustFirstIsDisjoint();
    AlternatingIsDisjoint();
    Sandwich(RUST_FIRST, Alternating(), RUST_LAST);
  }

  lemma PythonScalars()
    ensures AllScalar(PYTHON_FIRST) && AllScalar(PYTHON_LAST) && AllApart(PYTHON_FIRST, PYTHON_LAST)
  {
  }

  lemma PythonOrderIsDisjoint()
    ensures Disjoint(PythonOrder())
  {
    PythonScalars();
    assert Disjoint(PYTHON_FIRST);
    Sandwich(PYTHON_FIRST, Grouped(), PYTHON_LAST);
  }

  ghost function Read(image: seq<byte>, base: nat, f: Field): nat
    requires base + f.off + f.width <= |image|
  {
    DecodeLE(image[base + f.off..base + f.off + f.width])
  }

  // One `pack_into` or atomic store of a little-endian field.
  method WriteField(buf: array<byte>, base: nat, f: Field, value: nat)
    requires base + f.off + f.width <= buf.Length && value < Pow256(f.width)
    modifies buf
    ensures Read(buf[..], base, f) == value
    ensures forall k: nat :: k < f.width ==> buf[base + f.off + k] == (value / Pow256(k)) % 256
    ensures forall k :: 0 <= k < buf.Length && !(base + f.off <= k < base + f.off + f.width) ==> buf[k] == old(buf[k])
  {
    var bs := EncodeLE(value, f.width);
    var at := base + f.off;
    forall k | 0 <= k < f.width {
      buf[at + k] := bs[k];
    }
    assert buf[..][at..at + f.width] == bs;
    DecodeEncode(value, f.width);
    forall k: nat | k < f.width ensures buf[at + k] == (value / Pow256(k)) % 256 {
      LowBytesFirst(value, f.width, k);
    }
  }

  lemma ApartReadsSame(image: seq<byte>, image': seq<byte>, base: nat, f: Field, g: Field)
    requires |image| == |image'| && base + f.off + f.width <= |image| && Apart(f, g)
    requires forall k :: 0 <= k < |image| && !(base + g.off <= k < base + g.off + g.width) ==> image'[k] == image[k]
    ensures Read(image', base, f) == Read(image, base, f)
  {
    var lo := base + f.off;
    assert image'[lo..lo + f.width] == image[lo..lo + f.width];
  }

  // Write a header field by field; every field then reads back, whatever the order.
  method WriteHeader(buf: array<byte>, base: nat, fs: seq<Field>, values: seq<nat>)
    requires base + SLOT_HEADER_SIZE <= buf.Length && Disjoint(fs) && |values| == |fs|
    requires forall k :: 0 <= k < |fs| ==> values[k] < Pow256(fs[k].width)
    modifies buf
    ensures forall k :: 0 <= k < |fs| ==> Read(buf[..], base, fs[k]) == values[k]
    ensures forall k :: 0 <= k < buf.Length && !(base <= k < base + SLOT_HEADER_SIZE) ==> buf[k] == old(buf[k])
  {
    for n := 0 to |fs|
      invariant forall k :: 0 <= k < n ==> Read(buf[..], base, fs[k]) == values[k]
      invariant forall k :: 0 <= k < buf.Length && !(base <= k < base + SLOT_HEADER_SIZE) ==> buf[k] == old(buf[k])
    {
      ghost var before := buf[..];
      WriteField(buf, base, fs[n], values[n]);
      forall k | 0 <= k < n ensures Read(buf[..], base, fs[k]) == values[k] {
        ApartReadsSame(before, buf[..], base, fs[k], fs[n]);
      }
    }
  }

  method WritePayload(buf: array<byte>, at: nat, payload: seq<byte>)
    requires at + |payload| <= buf.Length
    modifies buf
    ensures buf[at..at + |payload|] == payload
    ensures forall k :: 0 <= k < buf.Length && !(at <= k < at + |payload|) ==> buf[k] == old(buf[k])
  {
    forall k | 0 <= k < |payload| {
      buf[at + k] := payload[k];
    }
  }

  // A whole publication into slot i: the header in the given order, then the payload.
  // Everything read from slot i is what was written, and no byte of another slot, of the
  // registry or of the global header changes.
  method WriteSlot(buf: array<byte>, i: nat, slots: nat, capacity: nat, fs: seq<Field>, values: seq<nat>, payload: seq<byte>)
    requires i < slots && buf.Length == TotalBytes(slots, capacity) && |payload| <= capacity
    requires Disjoint(fs) && |values| == |fs| && forall k :: 0 <= k < |fs| ==> values[k] < Pow256(fs[k].width)
    modifies buf
    ensures PayloadBase(i, capacity) + capacity <= buf.Length
    ensures forall k :: 0 <= k < |fs| ==> Read(buf[..], SlotBase(i, capacity), fs[k]) == values[k]
    ensures buf[PayloadBase(i, capacity)..PayloadBase(i, capacity) + |payload|] == payload
    ensures forall k :: 0 <= k < buf.Length && !InSlot(k, i, capacity) ==> buf[k] == old(buf[k])
  {
    SlotFits(i, slots, capacity);
    var base, p := SlotBase(i, capacity), PayloadBase(i, capacity);
    WriteHeader(buf, base, fs, values);
    ghost var before := buf[..];
    WritePayload(buf, p, payload);
    forall k | 0 <= k < |fs| ensures Read(buf[..], base, fs[k]) == values[k] {
      var lo := base + fs[k].off;
      assert InHeader(fs[k]);
      assert buf[..][lo..lo + fs[k].width] == before[lo..lo + fs[k].width];
    }
  }

  predicate InSlot(k: int, i: nat, capacity: nat) {
    SlotBase(i, capacity) <= k < SlotBase(i, capacity) + SlotStride(capacity)
  }

  lemma SlotFits(i: nat, slots: nat, capacity: nat)
    requires i < slots
    ensures PayloadBase(i, capacity) + capacity <= SlotBase(i, capacity) + SlotStride(capacity) <= TotalBytes(slots, capacity)
  {
    AlignUpIsLeast(SLOT_HEADER_SIZE + capacity, 64);
    Mono(i + 1, slots, SlotStride(capacity));
  }

  // So a byte outside slot i is exactly a byte of another slot or of the 4 KiB header.
  lemma SlotsAreDisjoint(i: nat, j: nat, slots: nat, capacity: nat, k: int)
    requires i < slots && j < slots && InSlot(k, i, capacity) && InSlot(k, j, capacity)
    ensures i == j && GLOBAL_HEADER_SIZE <= k < TotalBytes(slots, capacity)
  {
    SlotFits(i, slots, capacity);
    if i < j {
      SlotsTileTheMapping(i, j, slots, capacity);
    } else if j < i {
      SlotsTileTheMapping(j, i, slots, capacity);
    }
  }

  // ---- element types --------------------------------------------------------

  datatype DType = F32 | F16 | U8 | I8 | I16 | I32 | I64 | F64 | Bool

  function Code(d: DType): byte {
    match d
    case F32 => 1 case F16 => 2 case U8 => 3 case I8 => 4 case I16 => 5
    case I32 => 6 case I64 => 7 case F64 => 8 case Bool => 9
  }

  function FromCode(code: byte): Option<DType> {
    match code
    case 1 => Some(F32) case 2 => Some(F16) case 3 => Some(U8) case 4 => Some(I8) case 5 => Some(I16)
    case 6 => Some(I32) case 7 => Some(I64) case 8 => Some(F64) case 9 => Some(Bool)
    case _ => None
  }

  // The codes round-trip, and nothing outside 1..9 is a code.
  lemma CodesRoundTrip(d: DType, code: byte)
    ensures FromCode(Code(d)) == Some(d)
    ensures FromCode(code).Some? <==> 1 <= code <= 9
    ensures FromCode(code) == Some(d) ==> Code(d) == code
  {
  }

  // ---- a header from either language -----------------------------------------

  // What a header says about its tensor; shape and strides have `ndim` items.
  datatype Header = Header(sequence: nat, timestamp: nat, nbytes: nat, dtype: DType, shape: seq<nat>, strides: seq<nat>)

  predicate Writable(h: Header) {
    && h.sequence < WRAP && h.timestamp < WRAP && h.nbytes < WRAP
    && |h.shape| == |h.strides| <= MAX_NDIM
    && (forall d :: 0 <= d < |h.shape| ==> h.shape[d] < 0x1_0000_0000 && h.strides[d] < 0x1_0000_0000)
  }

  function Padded(xs: seq<nat>, d: nat): nat { if d < |xs| then xs[d] else 0 }

  // What a writer puts in each field; `rest` is what it puts in the protocol's own words.
  function ValueOf(h: Header, rest: map<nat, nat>, f: Field): nat {
    if f == SEQUENCE then h.sequence
    else if f == TIMESTAMP then h.timestamp
    else if f == NBYTES then h.nbytes
    else if f == DTYPE then Code(h.dtype)
    else if f == NDIM then |h.shape|
    else if Shape(0).off <= f.off < Stride(0).off then Padded(h.shape, (f.off - Shape(0).off) / 4)
    else if Stride(0).off <= f.off < PRODUCER_PID.off then Padded(h.strides, (f.off - Stride(0).off) / 4)
    else if f.off in rest then rest[f.off] % Pow256(f.width) else 0
  }

  predicate TensorField(f: Field) {
    || f in [SEQUENCE, TIMESTAMP, NBYTES, DTYPE, NDIM]
    || (exists d: nat :: d < MAX_NDIM && (f == Shape(d) || f == Stride(d)))
  }

  // What a consumer of either language makes of the bytes, if it accepts them at all.
  ghost function DecodeHeader(image: seq<byte>, base: nat): Option<Header>
    requires base + SLOT_HEADER_SIZE <= |image|
  {
    var code, ndim := Read(image, base, DTYPE), Read(image, base, NDIM);
    if ndim > MAX_NDIM || code >= 256 || FromCode(code).None? then None
    else
      Some(Header(Read(image, base, SEQUENCE), Read(image, base, TIMESTAMP), Read(image, base, NBYTES),
                  FromCode(code).value,
                  seq(ndim, d requires 0 <= d < ndim => Read(image, base, Shape(d))),
                  seq(ndim, d requires 0 <= d < ndim => Read(image, base, Stride(d)))))
  }

  // Each part of the header is in the field the layout gives it.
  ghost predicate FieldsAre(image: seq<byte>, base: nat, h: Header)
    requires base + SLOT_HEADER_SIZE <= |image| && |h.strides| == |h.shape| <= MAX_NDIM
  {
    && Read(image, base, SEQUENCE) == h.sequence && Read(image, base, TIMESTAMP) == h.timestamp
    && Read(image, base, NBYTES) == h.nbytes && Read(image, base, NDIM) == |h.shape|
    && Read(image, base, DTYPE) == Code(h.dtype)
    && (forall d: nat :: d < MAX_NDIM ==>
          && Read(image, base, Shape(d)) == (if d < |h.shape| then h.shape[d] else 0)
          && Read(image, base, Stride(d)) == (if d < |h.shape| then h.strides[d] else 0))
  }

  // The image reads as `h` in every field that describes the tensor.
  ghost predicate Shows(image: seq<byte>, base: nat, h: Header, rest: map<nat, nat>)
    requires base + SLOT_HEADER_SIZE <= |image|
  {
    forall f :: TensorField(f) && InHeader(f) ==> Read(image, base, f) == ValueOf(h, rest, f)
  }

  lemma ShapeIsThere(image: seq<byte>, base: nat, h: Header, rest: map<nat, nat>, d: nat)
    requires base + SLOT_HEADER_SIZE <= |image| && Writable(h) && Shows(image, base, h, rest) && d < MAX_NDIM
    ensures Read(image, base, Shape(d)) == (if d < |h.shape| then h.shape[d] else 0)
    ensures Read(image, base, Stride(d)) == (if d < |h.shape| then h.strides[d] else 0)
  {
    assert TensorField(Shape(d)) && TensorField(Stride(d));
  }

  lemma ScalarsAreThere(image: seq<byte>, base: nat, h: Header, rest: map<nat, nat>)
    requires base + SLOT_HEADER_SIZE <= |image| && Shows(image, base, h, rest)
    ensures Read(image, base, SEQUENCE) == h.sequence && Read(image, base, TIMESTAMP) == h.timestamp
    ensures Read(image, base, NBYTES) == h.nbytes && Read(image, base, DTYPE) == Code(h.dtype)
    ensures Read(image, base, NDIM) == |h.shape|
  {
    assert TensorField(DTYPE) && TensorField(NDIM) && TensorField(SEQUENCE) && TensorField(TIMESTAMP) && TensorField(NBYTES);
  }

  lemma DecodesWhatIsThere(image: seq<byte>, base: nat, h: Header, rest: map<nat, nat>)
    requires base + SLOT_HEADER_SIZE <= |image| && Writable(h) && Shows(image, base, h, rest)
    ensures DecodeHeader(image, base) == Some(h)
  {
    ScalarsAreThere(image, base, h, rest);
    CodesRoundTrip(h.dtype, Code(h.dtype));
    var back := DecodeHeader(image, base).value;
    forall d: nat | d < |h.shape| ensures back.shape[d] == h.shape[d] && back.strides[d] == h.strides[d] {
      ShapeIsThere(image, base, h, rest, d);
    }
    assert back.shape == h.shape && back.strides == h.strides;
  }

  // Both orders write every field a consumer decodes.
  lemma OrdersCoverTheTensor(f: Field)
    requires TensorField(f)
    ensures f in RustOrder() && f in PythonOrder()
  {
    if d: nat :| d < MAX_NDIM && (f == Shape(d) || f == Stride(d)) {
      assert Alternating()[2 * d] == Shape(d) && Alternating()[2 * d + 1] == Stride(d);
      assert Grouped()[d] == Shape(d) && Grouped()[8 + d] == Stride(d);
    } else {
      assert f in RUST_FIRST && f in PYTHON_FIRST;
    }
  }

  lemma ValuesFit(h: Header, rest: map<nat, nat>, f: Field)
    requires Writable(h) && (f in RustOrder() || f in PythonOrder())
    ensures ValueOf(h, rest, f) < Pow256(f.width)
  {
    Powers();
  }

  lemma Powers()
    ensures Pow256(1) == 256 && Pow256(2) == 0x1_0000 && Pow256(4) == 0x1_0000_0000 && Pow256(8) == WRAP
  {
    assert Pow256(3) == 0x100_0000;
    assert Pow256(6) == 0x1_0000_0000_0000;
    assert Pow256(7) == 0x100_0000_0000_0000;
  }

  // A tensor written into slot i in either language's order: a consumer decodes exactly that
  // header and reads exactly that payload, and nothing outside the slot changes.
  method WriteTensor(buf: array<byte>, i: nat, slots: nat, capacity: nat, h: Header, rest: map<nat, nat>,
                     payload: seq<byte>, rust: bool)
    requires i < slots && buf.Length == TotalBytes(slots, capacity) && |payload| <= capacity
    requires Writable(h) && h.nbytes == |payload|
    modifies buf
    ensures SlotBase(i, capacity) + SLOT_HEADER_SIZE <= PayloadBase(i, capacity) + capacity <= buf.Length
    ensures DecodeHeader(buf[..], SlotBase(i, capacity)) == Some(h)
    ensures FieldsAre(buf[..], SlotBase(i, capacity), h)
    ensures buf[PayloadBase(i, capacity)..PayloadBase(i, capacity) + |payload|] == payload
    ensures forall k :: 0 <= k < buf.Length && !InSlot(k, i, capacity) ==> buf[k] == old(buf[k])
  {
    var fs := if rust then RustOrder() else PythonOrder();
    RustOrderIsDisjoint();
    PythonOrderIsDisjoint();
    var values := seq(|fs|, k requires 0 <= k < |fs| => ValueOf(h, rest, fs[k]));
    forall k | 0 <= k < |fs| ensures values[k] < Pow256(fs[k].width) {
      assert fs[k] in fs;
      ValuesFit(h, rest, fs[k]);
    }
    WriteSlot(buf, i, slots, capacity, fs, values, payload);
    var base := SlotBase(i, capacity);
    forall f | TensorField(f) && InHeader(f) ensures Read(buf[..], base, f) == ValueOf(h, rest, f) {
      OrdersCoverTheTensor(f);
      var k :| 0 <= k < |fs| && fs[k] == f;
    }
    DecodesWhatIsThere(buf[..], base, h, rest);
    ScalarsAreThere(buf[..], base, h, rest);
    forall d: nat | d < MAX_NDIM
      ensures Read(buf[..], base, Shape(d)) == (if d < |h.shape| then h.shape[d] else 0)
      ensures Read(buf[..], base, Stride(d)) == (if d < |h.shape| then h.strides[d] else 0) {
      ShapeIsThere(buf[..], base, h, rest, d);
    }
  }
}
