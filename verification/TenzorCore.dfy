/**
 The frozen wire layout: constants, layout arithmetic, element types, and the
 sequence comparison that has to survive a wrap of the 64-bit counter.
 */
module TenzorCore {
  const MAX_NDIM: nat := 8
  const MAX_CONSUMERS: nat := 64
  const GLOBAL_HEADER_SIZE: nat := 4096
  const SLOT_HEADER_SIZE: nat := 128
  const REGISTRY_OFF: nat := 128
  const REGISTRY_ENTRY_SIZE: nat := 32

  // ---- header words ---------------------------------------------------------

  // Header words between sequence and mask: timestamp, nbytes, dtype, ndim, flags,
  // eight shape words and eight stride words.
  const HEAD_WORDS := 21
  const W_TIMESTAMP := 0
  const W_NBYTES := 1
  const W_DTYPE := 2
  const W_NDIM := 3

  // The checks a consumer makes on the header values it has read.
  predicate ReadableHead(ndim: nat, nbytes: nat, dtype: nat, cap: nat) {
    ndim <= MAX_NDIM && nbytes <= cap && 1 <= dtype <= 9
  }

  // ---- sequences ------------------------------------------------------------

  const WRAP: nat := 0x1_0000_0000_0000_0000
  const HALF: nat := 0x8000_0000_0000_0000

  type u64 = x: int | 0 <= x < 0x1_0000_0000_0000_0000

  // What a counter that has counted to n looks like in a u64 word.
  function Word(n: nat): u64 { n % WRAP }

  function WrappingSub(a: u64, b: u64): u64 { (a - b) % WRAP }

  function WrappingAdd(a: u64, b: u64): u64 { (a + b) % WRAP }

  // `(a.wrapping_sub(b) as i64) > 0`: positive as a signed number.
  predicate SeqNewer(a: u64, b: u64) {
    var d := WrappingSub(a, b);
    0 < d < HALF
  }

  // On counters less than 2^64 apart, comparing the words is comparing the counters if and
  // only if the first is at most 2^63 behind and less than 2^63 ahead.
  lemma SeqNewerIsOrderExactlyWhen(x: nat, y: nat)
    requires x < y + WRAP && y < x + WRAP
    ensures (SeqNewer(Word(x), Word(y)) <==> x > y) <==> y <= x + HALF && x < y + HALF
    ensures Word(x) == Word(y) <==> x == y
  {
    WordDifference(x, y);
    var d := x - y;
    if d >= 0 {
      assert d % WRAP == d;
    } else {
      assert d % WRAP == d + WRAP;
    }
  }

  // So it is on counters less than 2^63 apart ...
  lemma SeqNewerIsOrder(x: nat, y: nat)
    requires x < y + HALF && y < x + HALF
    ensures SeqNewer(Word(x), Word(y)) <==> x > y
    ensures Word(x) == Word(y) <==> x == y
  {
    SeqNewerIsOrderExactlyWhen(x, y);
  }

  lemma WordDifference(x: nat, y: nat)
    ensures WrappingSub(Word(x), Word(y)) == (x - y) % WRAP
  {
    var p, q := x / WRAP, y / WRAP;
    assert x == p * WRAP + Word(x) && y == q * WRAP + Word(y);
    var e := Word(x) - Word(y);
    assert x - y == e + (p - q) * WRAP;
    ModShift(e, p - q);
  }

  lemma ModShift(e: int, k: int)
    ensures (e + k * WRAP) % WRAP == e % WRAP
  {
  }

  // ... and is not 2^63 ahead, where the newer counter no longer compares as newer.
  lemma TooFarApart(y: nat)
    ensures !SeqNewer(Word(y + HALF), Word(y))
  {
    SeqNewerIsOrderExactlyWhen(y + HALF, y);
  }

  lemma WordSucc(n: nat)
    ensures WrappingAdd(Word(n), 1) == Word(n + 1)
  {
    var p := n / WRAP;
    assert n == p * WRAP + Word(n);
    assert n + 1 == (Word(n) + 1) + p * WRAP;
    ModShift(Word(n) + 1, p);
  }

  lemma WordPred(n: nat)
    requires n >= 1
    ensures WrappingSub(Word(n), 1) == Word(n - 1)
  {
    WordDifference(n, 1);
    assert WrappingSub(Word(n), Word(1)) == (n - 1) % WRAP;
  }
}
