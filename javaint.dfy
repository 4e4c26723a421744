/** Java `int` arithmetic: 32-bit two's complement, where a sum past
    either end of the range wraps round.  The castling gap loop and the
    queen's `canMove` walk step an `int` that can leave the board. */
module JavaInt {
  /** The range of a Java `int`, and the modulus of its arithmetic. */
  const IntMin: int := -0x8000_0000
  const IntMax: int := 0x7fff_ffff
  const Modulus: int := 0x1_0000_0000

  predicate IsInt32(x: int)
  {
    IntMin <= x <= IntMax
  }

  /** Java `int` addition: a sum past either end of the range wraps round,
      by one whole modulus. */
  function AddInt32(a: int, b: int): (s: int)
    requires IsInt32(a) && IsInt32(b)
    ensures IsInt32(s) && s - (a + b) in {-Modulus, 0, Modulus}
  {
    var s := a + b;
    if s > IntMax then s - Modulus else if s < IntMin then s + Modulus else s
  }

  /** The `int` an unbounded integer wraps to: the one value of the range
      congruent to it. */
  function Wrap32(x: int): (w: int)
    ensures IsInt32(w) && (w - x) % Modulus == 0
  {
    (x - IntMin) % Modulus + IntMin
  }

  /** Two `int`s congruent modulo 2^32 are equal. */
  lemma CongruentInt32(a: int, b: int)
    requires IsInt32(a) && IsInt32(b) && (a - b) % Modulus == 0
    ensures a == b
  {
  }

  /** Two numbers congruent to the same k are congruent to each other. */
  lemma SameRemainder(a: int, b: int, k: int)
    requires (a - k) % Modulus == 0 && (b - k) % Modulus == 0
    ensures (a - b) % Modulus == 0
  {
    var i, j := (a - k) / Modulus, (b - k) / Modulus;
    assert a - b == (i - j) * Modulus;
  }

  /** Wrapping an `int` leaves it alone. */
  lemma WrapOfInt32(x: int)
    requires IsInt32(x)
    ensures Wrap32(x) == x
  {
    CongruentInt32(Wrap32(x), x);
  }

  /** `AddInt32` is addition followed by wrapping. */
  lemma AddWraps(x: int, d: int)
    requires -1 <= d <= 1
    ensures AddInt32(Wrap32(x), d) == Wrap32(x + d)
  {
    var w := Wrap32(x);
    var a, b := AddInt32(w, d), Wrap32(x + d);
    assert (a - (w + d)) % Modulus == 0;
    assert (x + d - (w + d)) % Modulus == 0 by {
      assert (w - x) % Modulus == 0;
      assert x + d - (w + d) == -(w - x);
    }
    SameRemainder(a, x + d, w + d);
    SameRemainder(a, b, x + d);
    CongruentInt32(a, b);
  }

  /** A whole turn of 2^32 steps comes back to the same `int`. */
  lemma WrapPeriodic(x: int)
    ensures Wrap32(x + Modulus) == Wrap32(x) && Wrap32(x - Modulus) == Wrap32(x)
  {
    CongruentInt32(Wrap32(x + Modulus), Wrap32(x));
    CongruentInt32(Wrap32(x - Modulus), Wrap32(x));
  }
}
