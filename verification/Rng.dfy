/** Model of `crates/harness/src/rng.rs`: weighted bucket choice and per-case seed derivation. */
module Rng {
  import opened Prelude

  /** The state of the underlying stream cipher; only its draws are ever observed. */
  type Stream(!new)

  /** `gen_range(0..n)`: a draw below `n` together with the advanced stream. */
  type RangeDraw = f: (Stream, nat) -> (nat, Stream) | forall s: Stream, n: nat :: 0 < n ==> f(s, n).0 < n
    witness (s, n) => (0, s)

  datatype Prng = Prng(genRange: RangeDraw, stream: Stream)

  // ----- weighted choice -----

  function Sum(weights: seq<nat>): nat {
    if weights == [] then 0 else weights[0] + Sum(weights[1..])
  }

  lemma {:induction false} SumAppend(a: seq<nat>, b: seq<nat>)
    ensures Sum(a + b) == Sum(a) + Sum(b)
  {
    if a == [] {
      assert a + b == b;
    } else {
      assert (a + b)[1..] == a[1..] + b;
      SumAppend(a[1..], b);
    }
  }

  lemma {:induction false} SumZeroIffAllZero(weights: seq<nat>)
    ensures Sum(weights) == 0 <==> forall i :: 0 <= i < |weights| ==> weights[i] == 0
  {
    if weights != [] {
      SumZeroIffAllZero(weights[1..]);
      forall i | 0 <= i < |weights|
        ensures Sum(weights) == 0 ==> weights[i] == 0
      {
        if i > 0 { assert weights[i] == weights[1..][i - 1]; }
      }
      if forall i :: 0 <= i < |weights| ==> weights[i] == 0 {
        assert forall i :: 0 <= i < |weights[1..]| ==> weights[1..][i] == weights[i + 1];
      }
    }
  }

  /** The bucket that owns `pick` when the buckets are laid end to end. */
  function BucketOf(pick: nat, weights: seq<nat>): nat
    requires pick < Sum(weights)
  {
    if pick < weights[0] then 0 else 1 + BucketOf(pick - weights[0], weights[1..])
  }

  /** What one weighted draw yields: bucket 0 with the stream untouched when nothing has weight. */
  function WeightedDraw(rng: Prng, weights: seq<nat>): (nat, Prng) {
    var total := Sum(weights);
    if total == 0 then (0, rng)
    else
      var (pick, stream) := rng.genRange(rng.stream, total);
      (BucketOf(pick, weights), rng.(stream := stream))
  }

  /** Bucket `i` owns exactly the half-open interval of picks that starts at the sum before it. */
  lemma {:induction false} BucketIsInterval(pick: nat, weights: seq<nat>, i: nat)
    requires pick < Sum(weights) && i < |weights|
    ensures BucketOf(pick, weights) < |weights|
    ensures BucketOf(pick, weights) == i <==> Sum(weights[..i]) <= pick < Sum(weights[..i]) + weights[i]
  {
    if pick < weights[0] {
      if i > 0 { assert weights[..i][0] == weights[0]; }
    } else {
      var rest := weights[1..];
      if i == 0 {
        BucketIsInterval(pick - weights[0], rest, 0);
      } else {
        BucketIsInterval(pick - weights[0], rest, i - 1);
        assert weights[..i][1..] == rest[..i - 1];
      }
    }
  }

  function Interval(lo: nat, hi: nat): set<nat>
    decreases hi - lo
  {
    if hi <= lo then {} else {lo} + Interval(lo + 1, hi)
  }

  lemma {:induction false} IntervalSize(lo: nat, hi: nat)
    requires lo <= hi
    ensures |Interval(lo, hi)| == hi - lo
    ensures forall p: nat :: p in Interval(lo, hi) <==> lo <= p < hi
    decreases hi - lo
  {
    if lo < hi {
      IntervalSize(lo + 1, hi);
    }
  }

  /** The picks that select bucket `i`, out of the `Sum(weights)` equally likely ones. */
  function PicksOf(weights: seq<nat>, i: nat): set<nat> {
    set p: nat | 0 <= p < Sum(weights) && BucketOf(p, weights) == i
  }

  /** Weighted drawing is exact: bucket `i` is chosen by exactly `weights[i]` of the picks. */
  lemma WeightedIsExact(weights: seq<nat>, i: nat)
    requires i < |weights|
    ensures |PicksOf(weights, i)| == weights[i]
  {
    var before := Sum(weights[..i]);
    assert weights == weights[..i] + weights[i..];
    SumAppend(weights[..i], weights[i..]);
    forall p: nat | p < Sum(weights)
      ensures BucketOf(p, weights) == i <==> before <= p < before + weights[i]
    {
      BucketIsInterval(p, weights, i);
    }
    IntervalSize(before, before + weights[i]);
    hide BucketOf, Sum;
    forall p: nat ensures p in PicksOf(weights, i) <==> p in Interval(before, before + weights[i]) {
      assert p in PicksOf(weights, i) <==> p < Sum(weights) && BucketOf(p, weights) == i;
    }
    assert PicksOf(weights, i) == Interval(before, before + weights[i]);
  }

  /** A bucket without weight is never drawn while any bucket has some. */
  lemma DrawnBucketHasWeight(rng: Prng, weights: seq<nat>)
    requires Sum(weights) > 0
    ensures var i := WeightedDraw(rng, weights).0; i < |weights| && weights[i] > 0
  {
    var pick := rng.genRange(rng.stream, Sum(weights)).0;
    BucketIsInterval(pick, weights, 0);
    BucketIsInterval(pick, weights, BucketOf(pick, weights));
  }

  /** The generator handed to the harness: every draw moves its stream forward in place. */
  class Generator {
    const genRange: RangeDraw
    var stream: Stream

    constructor (rng: Prng)
      ensures Value() == rng
    {
      genRange, stream := rng.genRange, rng.stream;
    }

    function Value(): Prng
      reads this
    {
      Prng(genRange, stream)
    }

    /** Pick a bucket by subtracting weights from one draw until it fits. */
    method Weighted(weights: seq<nat>) returns (index: nat)
      modifies this
      ensures (index, Value()) == WeightedDraw(old(Value()), weights)
    {
      var total := 0;
      for k := 0 to |weights|
        invariant total == Sum(weights[..k]) && stream == old(stream)
      {
        assert weights[..k + 1] == weights[..k] + [weights[k]];
        SumAppend(weights[..k], [weights[k]]);
        total := total + weights[k];
      }
      assert weights[..|weights|] == weights;
      if total == 0 {
        return 0;
      }
      var (draw, next) := genRange(stream, total);
      stream := next;
      var pick: nat := draw;
      index := |weights| - 1;
      var i := 0;
      while i < |weights|
        invariant 0 <= i <= |weights| && stream == next
        invariant pick < Sum(weights[i..])
        invariant BucketOf(draw, weights) == i + BucketOf(pick, weights[i..])
      {
        if pick < weights[i] {
          assert weights[i..][0] == weights[i];
          assert BucketOf(draw, weights) == i;
          return i;
        }
        assert weights[i..][1..] == weights[i + 1..];
        pick := pick - weights[i];
        i := i + 1;
      }
      assert false; // the fallback bucket is never used
    }
  }

  // ----- per-case seeds -----

  const TWO_TO_THE_64: nat := 0x1_0000_0000_0000_0000
  const GOLDEN: nat := 0x9E37_79B9_7F4A_7C15
  /** The inverse of `GOLDEN` modulo 2^64. */
  const GOLDEN_INVERSE: nat := 0xF1DE_83E1_9937_733D

  type u64 = n: nat | n < TWO_TO_THE_64

  /** Bitwise exclusive or of the low `bits` bits, bit by bit. */
  function Xor(a: nat, b: nat, bits: nat): nat {
    if bits == 0 then 0 else 2 * Xor(a / 2, b / 2, bits - 1) + (a + b) % 2
  }

  lemma XorUnfolds(a: nat, b: nat, bits: nat)
    requires bits > 0
    ensures Xor(a, b, bits) == 2 * Xor(a / 2, b / 2, bits - 1) + (a + b) % 2
  {
  }

  lemma PowerHalves(b: nat, bits: nat)
    requires bits > 0 && b < PowerOfTwo(bits)
    ensures b / 2 < PowerOfTwo(bits - 1)
  {
  }

  lemma LowBitCancels(a: nat, b: nat, high: nat, low: nat)
    requires low == (a + b) % 2
    ensures (2 * high + low) / 2 == high && (a + (2 * high + low)) % 2 == b % 2
  {
  }

  lemma {:induction false} XorCancels(a: nat, b: nat, bits: nat)
    requires b < PowerOfTwo(bits)
    ensures Xor(a, Xor(a, b, bits), bits) == b
  {
    if bits != 0 {
      hide Xor, PowerOfTwo;
      var high, low := Xor(a / 2, b / 2, bits - 1), (a + b) % 2;
      XorUnfolds(a, b, bits);
      LowBitCancels(a, b, high, low);
      XorUnfolds(a, 2 * high + low, bits);
      PowerHalves(b, bits);
      XorCancels(a / 2, b / 2, bits - 1);
    }
  }

  lemma {:induction false} XorStaysBelow(a: nat, b: nat, bits: nat)
    ensures Xor(a, b, bits) < PowerOfTwo(bits)
  {
    if bits != 0 { XorStaysBelow(a / 2, b / 2, bits - 1); }
  }

  function PowerOfTwo(bits: nat): nat {
    if bits == 0 then 1 else 2 * PowerOfTwo(bits - 1)
  }

  lemma {:induction false} PowerOfSum(a: nat, b: nat)
    ensures PowerOfTwo(a + b) == PowerOfTwo(a) * PowerOfTwo(b)
  {
    if a != 0 { PowerOfSum(a - 1, b); }
  }

  function WrappingMul(a: u64, b: u64): u64 {
    (a * b) % TWO_TO_THE_64
  }

  function SubSeed(seed: u64, index: u64): nat {
    Xor(seed, WrappingMul(index, GOLDEN), 64)
  }

  lemma U64HasSixtyFourBits()
    ensures PowerOfTwo(64) == TWO_TO_THE_64
  {
    assert PowerOfTwo(2) == 4;
    PowerOfSum(2, 2);
    PowerOfSum(4, 4);
    PowerOfSum(8, 8);
    PowerOfSum(16, 16);
    PowerOfSum(32, 32);
  }

  lemma SubSeedIsU64(seed: u64, index: u64)
    ensures SubSeed(seed, index) < TWO_TO_THE_64
  {
    U64HasSixtyFourBits();
    XorStaysBelow(seed, WrappingMul(index, GOLDEN), 64);
  }

  lemma Associate(a: int, b: int, c: int)
    ensures (a * b) * c == a * (b * c)
  {
  }

  /** A product reduced by a multiple of `m`, times the inverse of one factor. */
  lemma InverseProduct(x: int, g: int, q: int, m: int, low: int, inverse: int, unit: int)
    requires x * g == q * m + low && g * inverse == unit * m + 1
    ensures low * inverse == (x * unit - q * inverse) * m + x
  {
    Associate(x, g, inverse);
    Distribute(q * m, low, inverse);
    Distribute(unit * m, 1, x);
    Associate(x, unit, m);
    Associate(q, m, inverse);
    Associate(q, inverse, m);
    Distribute(x * unit, -(q * inverse), m);
  }

  lemma ModularInverse(x: nat, g: nat, inverse: nat, m: nat, unit: nat)
    requires x < m && g * inverse == unit * m + 1
    ensures ((x * g % m) * inverse) % m == x
  {
    var q, low := x * g / m, x * g % m;
    InverseProduct(x, g, q, m, low, inverse, unit);
    RemainderOf(low * inverse, m, x * unit - q * inverse, x);
  }

  lemma RemainderOf(n: nat, m: nat, k: int, x: nat)
    requires x < m && n == k * m + x
    ensures n % m == x
  {
    if k < 0 {
      MulAtLeast(-k, m);
      assert false;
    }
    QuotientIs(n, m, k, x);
  }

  /** Multiplication by the golden constant is undone by multiplication by its inverse. */
  lemma GoldenInvertible(index: u64)
    ensures WrappingMul(WrappingMul(index, GOLDEN), GOLDEN_INVERSE) == index
  {
    ModularInverse(index, GOLDEN, GOLDEN_INVERSE, TWO_TO_THE_64, GOLDEN * GOLDEN_INVERSE / TWO_TO_THE_64);
  }

  /** The case index can be read back from a seed by cancelling the base seed and the multiplier. */
  function IndexOf(seed: u64, subSeed: u64): u64
  {
    XorStaysBelow(seed, subSeed, 64);
    U64HasSixtyFourBits();
    WrappingMul(Xor(seed, subSeed, 64), GOLDEN_INVERSE)
  }

  lemma SubSeedRecoversIndex(seed: u64, index: u64)
    ensures SubSeed(seed, index) < TWO_TO_THE_64
    ensures IndexOf(seed, SubSeed(seed, index)) == index
  {
    SubSeedIsU64(seed, index);
    U64HasSixtyFourBits();
    XorCancels(seed, WrappingMul(index, GOLDEN), 64);
    GoldenInvertible(index);
  }

  /** No two cases of a fuzz run share a seed. */
  lemma SubSeedInjective(seed: u64, a: u64, b: u64)
    requires SubSeed(seed, a) == SubSeed(seed, b)
    ensures a == b
  {
    SubSeedRecoversIndex(seed, a);
    SubSeedRecoversIndex(seed, b);
  }
}
