/** ChatGptRampart/src/utils.js: the clamp and key helpers, the ellipse test and the
    linear congruential generator every random draw of the game goes through. */
module Utils {

  /** `clamp(v, a, b)`: the larger of a and the smaller of b and v. */
  function Clamp(v: real, a: real, b: real): (r: real)
    ensures a <= b ==> a <= r <= b
    ensures a <= v <= b ==> r == v
    ensures v < a ==> r == a
    ensures a <= b < v ==> r == b
    ensures b < a ==> r == a
  {
    var lo := if b < v then b else v;
    if a < lo then lo else a
  }

  // ---------------------------------------------------------------------------
  // Tile keys

  /** The decimal digit d. */
  function DigitChar(d: int): (c: char)
    requires 0 <= d < 10
    ensures '0' <= c <= '9'
  {
    "0123456789"[d]
  }

  /** The decimal numeral of n, as a template literal prints it. */
  function NatToString(n: nat): (s: string)
    ensures |s| > 0
    ensures forall i :: 0 <= i < |s| ==> '0' <= s[i] <= '9'
    decreases n
  {
    if n < 10 then [DigitChar(n)] else NatToString(n / 10) + [DigitChar(n % 10)]
  }

  /** The decimal numeral of i, with a leading minus sign when it is negative. */
  function IntToString(i: int): (s: string)
    ensures |s| > 0
    ensures ',' !in s
    ensures s[0] == '-' <==> i < 0
  {
    if i < 0 then "-" + NatToString(-i) else NatToString(i)
  }

  /** `key(x, y)`: the string "x,y" under which a tile is stored in the game's sets. */
  function Key(x: int, y: int): (k: string)
    ensures ',' in k
  {
    IntToString(x) + "," + IntToString(y)
  }

  lemma DigitCharInjective(a: int, b: int)
    requires 0 <= a < 10 && 0 <= b < 10 && DigitChar(a) == DigitChar(b)
    ensures a == b
  {
  }

  lemma {:induction false} NatToStringInjective(a: nat, b: nat)
    requires NatToString(a) == NatToString(b)
    ensures a == b
    decreases a
  {
    var s := NatToString(a);
    if a < 10 && b < 10 {
      DigitCharInjective(a, b);
    } else if a < 10 || b < 10 {
      assert false;
    } else {
      var pa, pb := NatToString(a / 10), NatToString(b / 10);
      assert s == pa + [DigitChar(a % 10)] && s == pb + [DigitChar(b % 10)];
      assert pa == s[..|s| - 1] == pb;
      DigitCharInjective(a % 10, b % 10);
      NatToStringInjective(a / 10, b / 10);
    }
  }

  lemma IntToStringInjective(a: int, b: int)
    requires IntToString(a) == IntToString(b)
    ensures a == b
  {
    var s := IntToString(a);
    if a < 0 {
      assert s == "-" + NatToString(-a) && s == "-" + NatToString(-b);
      assert NatToString(-a) == s[1..] == NatToString(-b);
      NatToStringInjective(-a, -b);
    } else {
      NatToStringInjective(a, b);
    }
  }

  /** Two strings joined by a comma that neither contains split back uniquely. */
  lemma CommaSplit(a: string, b: string, c: string, d: string)
    requires ',' !in a && ',' !in c
    requires a + "," + b == c + "," + d
    ensures a == c && b == d
  {
    var s := a + "," + b;
    assert s[|a|] == ',' && s[|c|] == ',';
    assert |a| == |c|;
    assert a == s[..|a|] == c;
    assert b == s[|a| + 1..] == d;
  }

  /** Distinct tiles have distinct keys, so a set of keys is a set of tiles: the
      model stores the pairs themselves. */
  lemma KeyInjective(x1: int, y1: int, x2: int, y2: int)
    requires Key(x1, y1) == Key(x2, y2)
    ensures x1 == x2 && y1 == y2
  {
    CommaSplit(IntToString(x1), IntToString(y1), IntToString(x2), IntToString(y2));
    IntToStringInjective(x1, x2);
    IntToStringInjective(y1, y2);
  }

  // ---------------------------------------------------------------------------
  // Ellipse test

  /** `insideEllipse`: the point lies in the axis-aligned ellipse with centre
      (cx, cy) and radii rx, ry. */
  predicate InsideEllipse(px: real, py: real, cx: real, cy: real, rx: real, ry: real)
    requires rx != 0.0 && ry != 0.0
  {
    var dx := (px - cx) / rx;
    var dy := (py - cy) / ry;
    dx * dx + dy * dy <= 1.0
  }

  /** The centre is inside, and the test is symmetric about the centre. */
  lemma InsideEllipseCentre(cx: real, cy: real, rx: real, ry: real, ex: real, ey: real)
    requires rx != 0.0 && ry != 0.0
    ensures InsideEllipse(cx, cy, cx, cy, rx, ry)
    ensures InsideEllipse(cx + ex, cy + ey, cx, cy, rx, ry) <==> InsideEllipse(cx - ex, cy - ey, cx, cy, rx, ry)
  {
    assert (cx - ex - cx) / rx == -((cx + ex - cx) / rx);
    assert (cy - ey - cy) / ry == -((cy + ey - cy) / ry);
  }

  // ---------------------------------------------------------------------------
  // The generator

  const Modulus: int := 0x1_0000_0000
  const Multiplier: int := 1664525
  const Increment: int := 1013904223
  const DefaultSeed: int := 123456789

  /** `>>> 0` on an integer: its residue modulo 2^32. */
  function Uint32(n: int): (r: int)
    ensures 0 <= r < Modulus
    ensures 0 <= n < Modulus ==> r == n
  {
    n % Modulus
  }

  /** The seed after one step of the generator. The product stays below 2^53, so the
      source's floating-point arithmetic computes it exactly. */
  function NextSeed(seed: int): (r: int)
    ensures 0 <= r < Modulus
  {
    Uint32(seed * Multiplier + Increment)
  }

  /** The seed after n steps. */
  function SeedAfter(seed: int, n: nat): (r: int)
    ensures n > 0 ==> 0 <= r < Modulus
  {
    if n == 0 then seed else NextSeed(SeedAfter(seed, n - 1))
  }

  /** The value `next()` returns once the seed is s. */
  function Unit(s: int): (r: real)
    requires 0 <= s < Modulus
    ensures 0.0 <= r < 1.0
  {
    s as real / Modulus as real
  }

  /** A unit draw scales a positive span to a point inside it. */
  lemma MulBelow(u: real, p: real)
    requires 0.0 <= u < 1.0 && p > 0.0
    ensures 0.0 <= u * p < p
  {
    assert u * p < 1.0 * p;
  }

  /** `int(a, b)` once the seed is s: a plus the floor of Unit(s) * (b - a + 1),
      computed on integers (the divisor is positive, so `/` is the floor). */
  function Draw(s: int, a: int, b: int): int
  {
    a + (s * (b - a + 1)) / Modulus
  }

  lemma DrawRange(s: int, a: int, b: int)
    requires 0 <= s < Modulus && a <= b
    ensures a <= Draw(s, a, b) <= b
  {
    var n := b - a + 1;
    assert 0 <= s * n;
    assert s * n < Modulus * n by {
      assert (Modulus - s) * n > 0;
    }
    DivBelow(s * n, n);
  }

  lemma DivBelow(p: int, n: int)
    requires n > 0 && 0 <= p < Modulus * n
    ensures 0 <= p / Modulus < n
  {
  }

  /** The floor of Unit(s) * n is Draw's quotient: the integer form is the source's. */
  lemma DrawIsFloor(s: int, a: int, b: int)
    requires 0 <= s < Modulus
    ensures Draw(s, a, b) - a == (Unit(s) * (b - a + 1) as real).Floor
  {
    var n := b - a + 1;
    var q := (s * n) / Modulus;
    assert Unit(s) * n as real == (s * n) as real / Modulus as real;
    assert q as real <= (s * n) as real / Modulus as real < (q + 1) as real by {
      assert q * Modulus <= s * n < (q + 1) * Modulus;
    }
  }

  /** The `RNG` class: a 32-bit linear congruential generator. */
  class Rng {
    var seed: int

    predicate Valid()
      reads this
    {
      0 <= seed < Modulus
    }

    /** `new RNG(seed)`: the seed is reduced to 32 bits; the default is 123456789. */
    constructor (s0: int := DefaultSeed)
      ensures seed == Uint32(s0) && Valid()
    {
      seed := Uint32(s0);
    }

    /** `next()`: one step of the generator, returned as a fraction in [0, 1). */
    method Next() returns (r: real)
      requires Valid()
      modifies this
      ensures Valid() && seed == NextSeed(old(seed))
      ensures r == Unit(seed) && 0.0 <= r < 1.0
    {
      seed := NextSeed(seed);
      r := seed as real / Modulus as real;
    }

    /** `int(a, b)`: one step, scaled to an integer in [a, b]. */
    method Int(a: int, b: int) returns (v: int)
      requires Valid()
      modifies this
      ensures Valid() && seed == NextSeed(old(seed))
      ensures v == Draw(seed, a, b)
      ensures a <= b ==> a <= v <= b
    {
      var r := Next();
      v := a + (seed * (b - a + 1)) / Modulus;
      if a <= b {
        DrawRange(seed, a, b);
      }
    }
  }

  /** Drawing m times and then n times leaves the seed m + n draws leave: the
      generator's state is its seed alone, so equal seeds give equal streams. */
  lemma {:induction false} SeedAfterSplit(seed: int, m: nat, n: nat)
    ensures SeedAfter(seed, m + n) == SeedAfter(SeedAfter(seed, m), n)
    decreases n
  {
    if n > 0 {
      SeedAfterSplit(seed, m, n - 1);
    }
  }
}
