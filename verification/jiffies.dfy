/** The kernel clock.
    The model keeps every instant as an unbounded tick count; the kernel keeps
    only its low BITS_PER_LONG bits in an `unsigned long` and compares two
    instants with the wraparound-safe `time_after`. `Wrap` maps a model instant
    to the stored word, so every comparison the driver makes is written here on
    wrapped words, exactly as the kernel performs it. */
module Jiffies {

  /** 2^64: `unsigned long` on the 64-bit target. */
  const Modulus: int := 0x1_0000_0000_0000_0000

  /** 2^63: the first value whose reading as a signed `long` is negative. */
  const Half: int := 0x8000_0000_0000_0000

  /** An `unsigned long` word. */
  type Word = x: int | 0 <= x < Modulus

  /** The stored word of a model instant (unsigned arithmetic wraps). */
  function Wrap(t: int): (w: Word)
    ensures 0 <= t < Modulus ==> w == t
  {
    t % Modulus
  }

  /** Reading an `unsigned long` as a two's-complement `long`. */
  function AsLong(u: Word): (v: int)
    ensures -Half <= v < Half
    ensures Wrap(v) == u
  {
    if u >= Half then u - Modulus else u
  }

  /** `time_after(a, b)`: the signed difference `b - a` is negative. */
  predicate TimeAfter(a: Word, b: Word) {
    AsLong(Wrap(b - a)) < 0
  }

  /** Unsigned subtraction of the stored words is subtraction of the instants. */
  lemma WrapSub(x: int, y: int)
    ensures Wrap(Wrap(y) - Wrap(x)) == Wrap(y - x)
  {
    var qx, qy := x / Modulus, y / Modulus;
    assert Wrap(y) - Wrap(x) == (y - x) - Modulus * (qy - qx);
    ModShift(y - x, qy - qx);
  }

  lemma ModShift(a: int, k: int)
    ensures (a - Modulus * k) % Modulus == a % Modulus
    decreases if k < 0 then -k else k
  {
    if k > 0 {
      ModShift(a, k - 1);
      assert a - Modulus * k == (a - Modulus * (k - 1)) - Modulus;
    } else if k < 0 {
      ModShift(a, k + 1);
      assert a - Modulus * k == (a - Modulus * (k + 1)) + Modulus;
    }
  }

  /** Within half the range of the word, `time_after` on the stored words is
      exactly the order of the instants: wraparound is invisible. */
  lemma TimeAfterWindow(x: int, y: int)
    requires -Half < x - y < Half
    ensures TimeAfter(Wrap(x), Wrap(y)) <==> x > y
  {
    WrapSub(x, y);
    if y >= x {
      assert Wrap(y - x) == y - x;
    } else {
      assert Wrap(y - x) == y - x + Modulus by {
        ModShift(y - x + Modulus, 1);
      }
    }
  }

  /** `time_after` is irreflexive: an instant is never after itself. */
  lemma TimeAfterIrreflexive(a: Word)
    ensures !TimeAfter(a, a)
  {
    assert Wrap(a - a) == 0;
  }

  /** Two words exactly half the range apart are each `time_after` the other:
      the comparison is asymmetric only away from that single distance. */
  lemma TimeAfterBothWaysAtHalf(a: Word, b: Word)
    requires Wrap(b - a) == Half
    ensures TimeAfter(a, b) && TimeAfter(b, a)
  {
    assert b - a == Half || b - a == Half - Modulus;
    assert Wrap(a - b) == Half;
  }
}
