/** Row-major byte strides: the reverse loops of `contiguous` and `reserve`. */
module Strides {
  import opened TenzorCore

  const U32: nat := 0x1_0000_0000

  function Product(shape: seq<nat>): nat {
    if shape == [] then 1 else shape[0] * Product(shape[1..])
  }

  // The stride of each axis in bytes, without any limit on the word size.
  function RowMajor(shape: seq<nat>, item: nat): (s: seq<nat>)
    ensures |s| == |shape|
  {
    if shape == [] then [] else [item * Product(shape[1..])] + RowMajor(shape[1..], item)
  }

  predicate IsShape(shape: seq<nat>) {
    |shape| <= MAX_NDIM && forall i :: 0 <= i < |shape| ==> shape[i] < U32
  }

  predicate Fit(strides: seq<nat>) {
    forall i :: 0 <= i < |strides| ==> strides[i] < U32
  }

  // A suffix of the strides is the strides of the suffix.
  lemma {:induction false} RowMajorSuffix(shape: seq<nat>, item: nat, i: nat)
    requires i <= |shape|
    ensures RowMajor(shape, item)[i..] == RowMajor(shape[i..], item)
    decreases i
  {
    if i == 0 {
      assert shape[0..] == shape;
    } else {
      RowMajorSuffix(shape[1..], item, i - 1);
      assert shape[1..][i - 1..] == shape[i..];
    }
  }

  // Item i of RowMajor is the size of the suffix behind it.
  lemma RowMajorAt(shape: seq<nat>, item: nat, i: nat)
    requires i < |shape|
    ensures RowMajor(shape, item)[i] == item * Product(shape[i + 1..])
  {
    RowMajorSuffix(shape, item, i);
    assert shape[i..][1..] == shape[i + 1..];
    assert RowMajor(shape, item)[i] == RowMajor(shape, item)[i..][0];
  }

  // One turn of the loop: the accumulator moves from the suffix at i+1 to the suffix at i.
  lemma Grow(shape: seq<nat>, item: nat, i: nat)
    requires i < |shape|
    ensures item * Product(shape[i..]) == (item * Product(shape[i + 1..])) * shape[i]
  {
    assert shape[i..] == [shape[i]] + shape[i + 1..];
    assert shape[i..][1..] == shape[i + 1..];
    Regroup(item, shape[i], Product(shape[i + 1..]));
  }

  lemma Regroup(a: nat, b: nat, c: nat)
    ensures a * (b * c) == (a * c) * b
  {
  }

  lemma MulMono(a: nat, b: nat, c: nat)
    ensures a <= b ==> a * c <= b * c
  {
  }

  // Where the strides fit in 32 bits the 64-bit accumulator cannot have wrapped.
  lemma NoWrap(x: nat, y: nat)
    requires x < U32 && y < U32
    ensures x * y < WRAP
  {
    MulMono(x, U32, y);
  }

  // After axes i.. are done: either some exact stride among them does not fit, or the
  // accumulator and everything stored are exact.
  ghost predicate Progress(shape: seq<nat>, item: nat, stored: seq<nat>, i: nat, acc: nat)
    requires i <= |shape| <= |stored|
  {
    var exact := RowMajor(shape, item);
    || (exists k :: i <= k < |shape| && exact[k] >= U32)
    || (acc == item * Product(shape[i..]) && forall k :: i <= k < |shape| ==> stored[k] == exact[k])
  }

  lemma ProgressStep(shape: seq<nat>, item: nat, stored: seq<nat>, i: nat, acc: nat)
    requires IsShape(shape) && i < |shape| <= |stored| && Progress(shape, item, stored, i + 1, acc)
    ensures Progress(shape, item, stored[i := acc % U32], i, (acc * shape[i]) % WRAP)
  {
    var exact := RowMajor(shape, item);
    if exact[i] < U32 && !exists k :: i + 1 <= k < |shape| && exact[k] >= U32 {
      RowMajorAt(shape, item, i);
      Grow(shape, item, i);
      NoWrap(acc, shape[i]);
      assert acc * shape[i] == item * Product(shape[i..]);
    }
  }

  // Truncating an exact stride that does not fit changes it, so exactness shows.
  lemma ProgressEnd(shape: seq<nat>, item: nat, stored: seq<nat>, acc: nat)
    requires |shape| <= |stored| && Progress(shape, item, stored, 0, acc) && Fit(stored)
    ensures stored[..|shape|] == RowMajor(shape, item) <==> Fit(RowMajor(shape, item))
  {
    var exact := RowMajor(shape, item);
    if stored[..|shape|] == exact {
      forall k | 0 <= k < |shape| ensures exact[k] < U32 {
        assert exact[k] == stored[k];
      }
    }
  }

  // The 64-bit accumulator when the loop has done axes i.., and what it stores from it.
  function Accumulator(shape: seq<nat>, item: nat, i: nat): (acc: nat)
    requires i <= |shape|
    decreases |shape| - i
  {
    if i == |shape| then item else (Accumulator(shape, item, i + 1) * shape[i]) % WRAP
  }

  function LoopStrides(shape: seq<nat>, item: nat): (s: seq<nat>)
    ensures |s| == |shape|
  {
    seq(|shape|, k requires 0 <= k < |shape| => Accumulator(shape, item, k + 1) % U32)
  }

  // The loop of TensorView::contiguous, with its truncation to u32 and its u64 product.
  // The result is the row-major strides if and only if those fit in 32 bits.
  method Contiguous(shape: seq<nat>, item: nat) returns (strides: seq<nat>)
    requires IsShape(shape) && 1 <= item <= 8
    ensures |strides| == |shape| && Fit(strides) && strides == LoopStrides(shape, item)
    ensures strides == RowMajor(shape, item) <==> Fit(RowMajor(shape, item))
  {
    strides := seq(|shape|, _ => 0);
    var acc: nat := item;
    var i := |shape|;
    assert shape[i..] == [];
    while i > 0
      invariant 0 <= i <= |shape| == |strides|
      invariant Fit(strides) && Progress(shape, item, strides, i, acc)
      invariant acc == Accumulator(shape, item, i)
      invariant forall k :: i <= k < |shape| ==> strides[k] == Accumulator(shape, item, k + 1) % U32
    {
      i := i - 1;
      ProgressStep(shape, item, strides, i, acc);
      strides := strides[i := acc % U32];
      acc := (acc * shape[i]) % WRAP;
    }
    ProgressEnd(shape, item, strides, acc);
    assert strides[..|shape|] == strides;
  }

  // The same loop as `reserve` runs it, into MAX_NDIM words; the two agree, whether the
  // strides fit or not.
  method ReserveStrides(shape: seq<nat>, item: nat) returns (strides: seq<nat>)
    requires IsShape(shape) && 1 <= item <= 8
    ensures |strides| == MAX_NDIM && Fit(strides)
    ensures strides[..|shape|] == LoopStrides(shape, item)
    ensures forall k :: |shape| <= k < MAX_NDIM ==> strides[k] == 0
    ensures strides[..|shape|] == RowMajor(shape, item) <==> Fit(RowMajor(shape, item))
  {
    strides := seq(MAX_NDIM, _ => 0);
    var acc: nat := item;
    var i := |shape|;
    assert shape[i..] == [];
    while i > 0
      invariant 0 <= i <= |shape| && |strides| == MAX_NDIM
      invariant Fit(strides) && Progress(shape, item, strides, i, acc)
      invariant acc == Accumulator(shape, item, i)
      invariant forall k :: i <= k < |shape| ==> strides[k] == Accumulator(shape, item, k + 1) % U32
      invariant forall k :: |shape| <= k < MAX_NDIM ==> strides[k] == 0
    {
      i := i - 1;
      ProgressStep(shape, item, strides, i, acc);
      strides := strides[i := acc % U32];
      acc := (acc * shape[i]) % WRAP;
    }
    ProgressEnd(shape, item, strides, acc);
  }

  // ---- what row-major strides mean ------------------------------------------

  predicate InBounds(shape: seq<nat>, index: seq<nat>) {
    |index| == |shape| && forall i :: 0 <= i < |shape| ==> index[i] < shape[i]
  }

  function Offset(index: seq<nat>, strides: seq<nat>): nat
    requires |index| == |strides|
  {
    if index == [] then 0 else index[0] * strides[0] + Offset(index[1..], strides[1..])
  }

  // The index whose element is number n.
  function Unravel(shape: seq<nat>, n: nat): seq<nat>
    requires n < Product(shape)
  {
    if shape == [] then []
    else
      var p := Product(shape[1..]);
      PositiveTail(shape, n);
      [n / p] + Unravel(shape[1..], n % p)
  }

  lemma PositiveTail(shape: seq<nat>, n: nat)
    requires shape != [] && n < Product(shape)
    ensures Product(shape[1..]) > 0 && n / Product(shape[1..]) < shape[0]
  {
    var p := Product(shape[1..]);
    MulMono(p, 0, shape[0]);
    assert p > 0;
    DivBelow(n, p, shape[0]);
  }

  lemma DivBelow(n: nat, p: nat, m: nat)
    requires p > 0 && n < m * p
    ensures n / p < m
  {
    assert n == (n / p) * p + n % p;
    MulMono(m, n / p, p);
  }

  // Every item-aligned offset below the byte size is the offset of some index ...
  lemma {:induction false} EveryOffsetIsReached(shape: seq<nat>, item: nat, n: nat)
    requires n < Product(shape)
    ensures InBounds(shape, Unravel(shape, n))
    ensures Offset(Unravel(shape, n), RowMajor(shape, item)) == item * n
    decreases |shape|
  {
    if shape != [] {
      var d, m := UnravelCons(shape, n);
      EveryOffsetIsReached(shape[1..], item, m);
      OffsetCons(shape, item, d, Unravel(shape[1..], m));
      SplitOffset(item, d, Product(shape[1..]), m);
    }
  }

  lemma UnravelCons(shape: seq<nat>, n: nat) returns (d: nat, m: nat)
    requires shape != [] && n < Product(shape)
    ensures d < shape[0] && m < Product(shape[1..]) && n == d * Product(shape[1..]) + m
    ensures Unravel(shape, n) == [d] + Unravel(shape[1..], m)
  {
    PositiveTail(shape, n);
    var p := Product(shape[1..]);
    d, m := n / p, n % p;
  }

  lemma OffsetCons(shape: seq<nat>, item: nat, d: nat, rest: seq<nat>)
    requires shape != [] && |rest| == |shape| - 1
    ensures Offset([d] + rest, RowMajor(shape, item)) ==
              d * (item * Product(shape[1..])) + Offset(rest, RowMajor(shape[1..], item))
    ensures InBounds(shape, [d] + rest) <==> d < shape[0] && InBounds(shape[1..], rest)
  {
    assert ([d] + rest)[1..] == rest;
    assert RowMajor(shape, item)[1..] == RowMajor(shape[1..], item);
    if d < shape[0] && InBounds(shape[1..], rest) {
      forall i | 0 <= i < |shape| ensures ([d] + rest)[i] < shape[i] {
        if i > 0 {
          assert rest[i - 1] < shape[1..][i - 1];
        }
      }
    }
    if InBounds(shape, [d] + rest) {
      forall i | 0 <= i < |rest| ensures rest[i] < shape[1..][i] {
        assert ([d] + rest)[i + 1] < shape[i + 1];
      }
    }
  }

  lemma SplitOffset(item: nat, d: nat, p: nat, m: nat)
    ensures d * (item * p) + item * m == item * (d * p + m)
  {
  }

  // ... and of only one: an index can be read back from its offset.
  lemma {:induction false} OffsetsAreDistinct(shape: seq<nat>, item: nat, index: seq<nat>) returns (n: nat)
    requires InBounds(shape, index)
    ensures n < Product(shape) && Offset(index, RowMajor(shape, item)) == item * n
    ensures Unravel(shape, n) == index
    decreases |shape|
  {
    if shape == [] {
      n := 0;
    } else {
      var m := OffsetsAreDistinct(shape[1..], item, index[1..]);
      var p := Product(shape[1..]);
      n := index[0] * p + m;
      Bounded(index[0], shape[0], p, m);
      assert RowMajor(shape, item)[1..] == RowMajor(shape[1..], item);
      SplitOffset(item, index[0], p, m);
      DivMod(index[0], p, m);
      assert index == [index[0]] + index[1..];
    }
  }

  lemma Bounded(d: nat, s: nat, p: nat, m: nat)
    requires d < s && m < p
    ensures d * p + m < s * p
  {
    MulMono(d + 1, s, p);
  }

  lemma DivMod(d: nat, p: nat, m: nat)
    requires m < p
    ensures (d * p + m) / p == d && (d * p + m) % p == m
  {
    var n := d * p + m;
    var q, r := n / p, n % p;
    assert n == q * p + r;
    MulMono(d + 1, q, p);
    MulMono(q + 1, d, p);
  }

  // Multi-index to offset is a bijection onto the item-aligned offsets of the tensor.
  lemma StridesAreABijection(shape: seq<nat>, item: nat, a: seq<nat>, b: seq<nat>)
    requires item > 0 && InBounds(shape, a) && InBounds(shape, b)
    ensures Offset(a, RowMajor(shape, item)) < item * Product(shape)
    ensures Offset(a, RowMajor(shape, item)) % item == 0
    ensures Offset(a, RowMajor(shape, item)) == Offset(b, RowMajor(shape, item)) <==> a == b
  {
    var m := OffsetsAreDistinct(shape, item, a);
    var n := OffsetsAreDistinct(shape, item, b);
    SameItem(item, m, n, Product(shape));
  }

  lemma SameItem(item: nat, m: nat, n: nat, p: nat)
    requires item > 0 && m < p
    ensures item * m < item * p && (item * m) % item == 0
    ensures item * m == item * n <==> m == n
  {
    DivMod(m, item, 0);
    DivMod(n, item, 0);
    MulMono(m + 1, p, item);
  }
}
