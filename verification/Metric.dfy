/** Deterministic 64-bit mixing, shared by every digest and checksum of Caldera
    (the embedded module `metric.rue`).

    The mixing step is an exclusive or followed by a wrapping multiplication by an odd
    constant.  It is modelled on natural numbers below 2^64; `Unmix` is its inverse. */
module Metric {

  const TWO64: nat := 0x1_0000_0000_0000_0000
  const MAX64: nat := TWO64 - 1
  const PRIME: nat := 1099511628211
  const OFFSET_BASIS: nat := 14695981039346656037

  /** The inverse of PRIME modulo 2^64. */
  const PRIME_INVERSE: nat := 14886173955864302971

  predicate IsU64(n: int) {
    0 <= n < TWO64
  }

  const TWO63: nat := 0x8000_0000_0000_0000

  predicate IsI64(n: int) {
    0 - TWO63 <= n < TWO63
  }

  /** The result of plain unsigned arithmetic: the program traps when it does not fit, so methods
      that compute with it show that it does. */
  function U64(n: nat): nat
    requires n < TWO64
  {
    n
  }

  /** The result of plain signed arithmetic. */
  function I64(n: int): int
    requires IsI64(n)
  {
    n
  }

  /** Bitwise exclusive or of two unsigned numbers of any width. */
  function Xor(a: nat, b: nat): nat
    decreases a + b
  {
    if a == 0 && b == 0 then 0 else (a + b) % 2 + 2 * Xor(a / 2, b / 2)
  }

  function Mix(value: nat, next: nat): (r: nat)
    ensures IsU64(r)
  {
    Xor(value, next) * PRIME % TWO64
  }

  /** Recovers `value` from `Mix(value, next)` and `next`. */
  function Unmix(mixed: nat, next: nat): nat {
    Xor(mixed * PRIME_INVERSE % TWO64, next)
  }

  /** Feeds a list of words to a running hash, first word first. */
  function Digest(hash: nat, words: seq<nat>): nat {
    if words == [] then hash else Mix(Digest(hash, words[..|words| - 1]), words[|words| - 1])
  }

  // ----- exclusive or -----

  function Pow2(k: nat): nat {
    if k == 0 then 1 else 2 * Pow2(k - 1)
  }

  lemma {:induction false} XorBounded(a: nat, b: nat, k: nat)
    requires a < Pow2(k) && b < Pow2(k)
    ensures Xor(a, b) < Pow2(k)
  {
    if a != 0 || b != 0 {
      XorBounded(a / 2, b / 2, k - 1);
    }
  }

  lemma {:induction false} Pow2Sum(a: nat, b: nat)
    ensures Pow2(a + b) == Pow2(a) * Pow2(b)
  {
    if a != 0 {
      Pow2Sum(a - 1, b);
      assert Pow2(a + b) == 2 * Pow2(a - 1 + b);
    }
  }

  lemma Pow2Of64()
    ensures Pow2(64) == TWO64
  {
    assert Pow2(4) == 16;
    hide Pow2;
    Pow2Sum(4, 4);
    assert Pow2(8) == 256;
    Pow2Sum(8, 8);
    assert Pow2(16) == 65536;
    Pow2Sum(16, 16);
    assert Pow2(32) == 0x1_0000_0000;
    Pow2Sum(32, 32);
  }

  lemma XorU64(a: nat, b: nat)
    requires IsU64(a) && IsU64(b)
    ensures IsU64(Xor(a, b))
  {
    Pow2Of64();
    XorBounded(a, b, 64);
  }

  lemma LowBit(a: nat, b: nat, rest: nat)
    ensures var x := (a + b) % 2 + 2 * rest; x / 2 == rest && (x + b) % 2 == a % 2
  {
  }

  lemma XorStep(a: nat, b: nat)
    ensures Xor(a, b) == (a + b) % 2 + 2 * Xor(a / 2, b / 2)
  {
  }

  lemma {:induction false} XorCancels(a: nat, b: nat)
    ensures Xor(Xor(a, b), b) == a
    decreases a + b
  {
    if a != 0 || b != 0 {
      XorCancels(a / 2, b / 2);
      LowBit(a, b, Xor(a / 2, b / 2));
      var x := Xor(a, b);
      assert Xor(x / 2, b / 2) == a / 2;
      XorStep(x, b);
    }
  }

  lemma {:induction false} XorCommutes(a: nat, b: nat)
    ensures Xor(a, b) == Xor(b, a)
    decreases a + b
  {
    if a != 0 || b != 0 {
      XorCommutes(a / 2, b / 2);
    }
  }

  // ----- the mixing step is a bijection in each argument -----

  lemma NonzeroMultiple(k: int, m: int)
    requires m > 0 && k != 0
    ensures k * m >= m || k * m <= -m
  {
    if k > 0 {
      assert (k - 1) * m >= 0;
    } else {
      assert (-k - 1) * m >= 0;
    }
  }

  lemma RemainderUnique(y: nat, x: nat, t: int, m: nat)
    requires x < m && y == x + t * m
    ensures y % m == x
  {
    var q := y / m;
    assert y == q * m + y % m;
    assert (q - t) * m == q * m - t * m;
    if q != t {
      NonzeroMultiple(q - t, m);
    }
  }

  /** Multiplications by numbers that are inverse modulo `m` undo each other. */
  lemma InverseCancels(x: nat, a: nat, b: nat, c: nat, m: nat)
    requires x < m && a * b == 1 + c * m
    ensures (x * a % m) * b % m == x
  {
    var q, r := x * a / m, x * a % m;
    assert x * a == q * m + r;
    calc {
      r * b;
      (x * a - q * m) * b;
      (x * a) * b - (q * m) * b;
      { assert (x * a) * b == x * (a * b) && (q * m) * b == (q * b) * m; }
      x * (1 + c * m) - (q * b) * m;
      { assert x * (1 + c * m) == x + (x * c) * m; }
      x + (x * c) * m - (q * b) * m;
      { assert (x * c - q * b) * m == (x * c) * m - (q * b) * m; }
      x + (x * c - q * b) * m;
    }
    RemainderUnique(r * b, x, x * c - q * b, m);
  }

  /** Multiplication by PRIME and by PRIME_INVERSE undo each other modulo 2^64, in either order. */
  lemma MultiplyCancels(x: nat)
    requires IsU64(x)
    ensures (x * PRIME % TWO64) * PRIME_INVERSE % TWO64 == x
    ensures (x * PRIME_INVERSE % TWO64) * PRIME % TWO64 == x
  {
    InverseCancels(x, PRIME, PRIME_INVERSE, 887285111055, TWO64);
    InverseCancels(x, PRIME_INVERSE, PRIME, 887285111055, TWO64);
  }

  lemma MixCommutes(value: nat, next: nat)
    ensures Mix(value, next) == Mix(next, value)
  {
    XorCommutes(value, next);
  }

  /** `Unmix(_, next)` is the two-sided inverse of `Mix(_, next)` on 64-bit values. */
  lemma MixIsBijective(value: nat, next: nat)
    requires IsU64(value) && IsU64(next)
    ensures Unmix(Mix(value, next), next) == value
    ensures IsU64(Unmix(value, next)) && Mix(Unmix(value, next), next) == value
  {
    XorU64(value, next);
    MultiplyCancels(Xor(value, next));
    XorCancels(value, next);
    var y := value * PRIME_INVERSE % TWO64;
    XorU64(y, next);
    XorCancels(y, next);
    MultiplyCancels(value);
  }

  lemma MixInjective(a: nat, b: nat, next: nat)
    requires IsU64(a) && IsU64(b) && IsU64(next) && a != b
    ensures Mix(a, next) != Mix(b, next)
    ensures Mix(next, a) != Mix(next, b)
  {
    MixIsBijective(a, next);
    MixIsBijective(b, next);
    MixCommutes(a, next);
    MixCommutes(b, next);
  }

  // ----- digests of word lists -----

  predicate AllU64(words: seq<nat>) {
    forall k :: 0 <= k < |words| ==> IsU64(words[k])
  }

  lemma {:induction false} DigestU64(hash: nat, words: seq<nat>)
    requires IsU64(hash)
    ensures IsU64(Digest(hash, words))
  {
  }

  lemma DigestEmpty(hash: nat)
    ensures Digest(hash, []) == hash
  {
  }

  lemma DigestSnoc(hash: nat, words: seq<nat>, word: nat)
    ensures Digest(hash, words + [word]) == Mix(Digest(hash, words), word)
  {
    assert (words + [word])[..|words|] == words;
  }

  lemma {:induction false} DigestConcat(hash: nat, front: seq<nat>, back: seq<nat>)
    ensures Digest(hash, front + back) == Digest(Digest(hash, front), back)
  {
    if back == [] {
      assert front + back == front;
    } else {
      var init, last := back[..|back| - 1], back[|back| - 1];
      assert front + back == (front + init) + [last];
      DigestSnoc(hash, front + init, last);
      DigestConcat(hash, front, init);
    }
  }

  /** Two word lists of the same length that differ in exactly one word never have the same
      digest: the one wrong word changes the running hash, and every later step is injective. */
  lemma {:induction false} SingleFaultChangesDigest(hash: nat, a: seq<nat>, b: seq<nat>, k: nat)
    requires IsU64(hash) && AllU64(a) && AllU64(b)
    requires |a| == |b| && k < |a| && a[k] != b[k]
    requires forall i :: 0 <= i < |a| && i != k ==> a[i] == b[i]
    ensures Digest(hash, a) != Digest(hash, b)
  {
    var last := |a| - 1;
    DigestU64(hash, a[..last]);
    DigestU64(hash, b[..last]);
    if k == last {
      assert a[..last] == b[..last];
      MixInjective(a[last], b[last], Digest(hash, a[..last]));
    } else {
      SingleFaultChangesDigest(hash, a[..last], b[..last], k);
      MixInjective(Digest(hash, a[..last]), Digest(hash, b[..last]), a[last]);
    }
  }
}
