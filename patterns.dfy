/**
  The two procedural colour generators of RayTracer.cpp's `trace`: the floor checkerboard
  painted on scene object 0 and the noise-driven hue ramp painted on scene object 1.
 */
module Patterns {
  import opened Vectors
  import opened CArith

  // ---------------------------------------------------------------------------
  // Checkerboard (object 0)
  // ---------------------------------------------------------------------------

  const STRIPE_WIDTH: int := 5
  /** The colour of a square whose column and row parities agree. */
  const CHECKER_EVEN := Vec3(0.6, 0.2, 0.05)
  /** The colour of a square whose column and row parities differ. */
  const CHECKER_ODD := Vec3(0.65, 0.3, 0.1)

  predicate Odd(n: int) {
    n % 2 == 1
  }

  /** True when `r` is an integer multiple of the stripe width. */
  predicate OnGridLine(r: real) {
    (r / 5.0).Floor as real == r / 5.0
  }

  /** C's `!j` on an int: 1 for 0, and 0 for anything else. */
  function LogicalNot(j: int): (r: int)
    ensures r == 0 || r == 1
    ensures r == 1 <==> j == 0
  {
    if j == 0 then 1 else 0
  }

  /**
    The stripe index `(int)(r) / stripeWidth`, computed with C's truncating cast and division:
    the 5-wide band holding `r`, counted from zero and rounded toward zero on both sides.
   */
  function Stripe(r: real): (s: int)
    ensures 0.0 <= r ==> 0 <= s && 5.0 * s as real <= r < 5.0 * s as real + 5.0
    ensures r < 0.0 ==> s <= 0 && 5.0 * s as real - 5.0 < r <= 5.0 * s as real
  {
    TDiv(Trunc(r), STRIPE_WIDTH)
  }

  /**
    The truncated stripe index agrees with the floor of `r / 5`, except strictly inside a
    negative stripe, where truncation lands one stripe closer to zero.
   */
  lemma StripeVsFloor(r: real)
    ensures Stripe(r) == (r / 5.0).Floor + (if r < 0.0 && !OnGridLine(r) then 1 else 0)
  {
    var f := (r / 5.0).Floor;
    var m := Trunc(r);
    assert 5.0 * f as real <= r < 5.0 * f as real + 5.0;
    if r >= 0.0 {
      assert 5 * f <= m < 5 * f + 5;
      assert m / 5 == f;
    } else {
      var big := -m;
      var q := big / 5;
      assert 5 * q <= big < 5 * q + 5;
      assert Stripe(r) == -q;
      assert -big as real - 1.0 < r <= -big as real;
      if OnGridLine(r) {
        assert r == 5.0 * f as real;
        assert m == 5 * f;
      } else {
        assert r != 5.0 * f as real;
        assert (-5 * q - 5) as real < r < (-5 * q) as real;
        assert f == -q - 1;
      }
    }
  }

  /**
    The column parity `j` after the flip at line 75 is 0 or 1, and outside the grid lines of the
    negative half-plane it is the parity of `floor(x / 5)`: the flip undoes the shift that
    truncation introduces for negative `x`. On those grid lines, where truncation introduces no
    shift, the flip inverts the parity.
   */
  function ColumnParity(x: real): (j: int)
    ensures j == 0 || j == 1
    ensures x >= 0.0 || !OnGridLine(x) ==> (j == 1 <==> Odd((x / 5.0).Floor))
    ensures x < 0.0 && OnGridLine(x) ==> (j == 1 <==> !Odd((x / 5.0).Floor))
  {
    var j0 := TRem(Stripe(x), 2);
    TRemTwo(Stripe(x));
    StripeVsFloor(x);
    if x < 0.0 then LogicalNot(j0) else j0
  }

  /**
    The row parity `k = iz % 2` is -1, 0 or 1; it is nonzero when `floor(z / 5)` is odd,
    except strictly inside a negative stripe, where it is nonzero when that floor is even.
   */
  function RowParity(z: real): (k: int)
    ensures -1 <= k <= 1
    ensures k != 0 <==> (Odd((z / 5.0).Floor) != (z < 0.0 && !OnGridLine(z)))
  {
    TRemTwo(Stripe(z));
    StripeVsFloor(z);
    TRem(Stripe(z), 2)
  }

  /**
    The checkerboard colour at hit point (x, _, z) (RayTracer.cpp:70-77): one of two fixed
    colours, CHECKER_EVEN exactly when the column and row parities agree.
   */
  function CheckerColor(x: real, z: real): (c: Vec3)
    ensures c == CHECKER_EVEN || c == CHECKER_ODD
    ensures c == CHECKER_EVEN <==> (ColumnParity(x) == 1) == (RowParity(z) != 0)
  {
    var j := ColumnParity(x);
    var k := RowParity(z);
    SumParity(j, k);
    if TRem(j + k, 2) == 0 then CHECKER_EVEN else CHECKER_ODD
  }

  /** For `j` in {0, 1} and `k` in {-1, 0, 1}, `(j + k) % 2 == 0` in C exactly when `j` is 1 and `k` nonzero, or both are 0. */
  lemma SumParity(j: int, k: int)
    requires 0 <= j <= 1 && -1 <= k <= 1
    ensures TRem(j + k, 2) == 0 <==> (j == 1) == (k != 0)
  {
    TRemTwo(j + k);
  }

  /**
    In terms of the floor grid of 5-unit squares: for x and z off the negative grid lines the
    colour is CHECKER_EVEN exactly when `floor(x/5)` and `floor(z/5)` have the same parity,
    with the row parity inverted for negative z.
   */
  lemma CheckerOnFloorGrid(x: real, z: real)
    requires x >= 0.0 || !OnGridLine(x)
    ensures CheckerColor(x, z) == CHECKER_EVEN <==>
      (Odd((x / 5.0).Floor) == (Odd((z / 5.0).Floor) != (z < 0.0 && !OnGridLine(z))))
  {
  }

  // ---------------------------------------------------------------------------
  // Hue ramp (object 1)
  // ---------------------------------------------------------------------------

  const HUE_SCALE: real := 0.6

  /** `x = 1 - |fmod(h, 2) - 1|`, the rising or falling channel of the ramp (line 88). */
  function HueX(h: real): (x: real)
    ensures 0.0 <= h ==> 0.0 <= x <= 1.0
  {
    var f := FModTwo(h);
    1.0 - (if f - 1.0 < 0.0 then 1.0 - f else f - 1.0)
  }

  /** The six-way selection of lines 92-116 scaled at line 118. */
  function HueRamp(h: real, x: real): Vec3 {
    var (r, g, b) :=
      if 0.0 <= h < 1.0 then (1.0, x, 0.0)
      else if 1.0 <= h < 2.0 then (x, 1.0, 0.0)
      else if 2.0 <= h < 3.0 then (0.0, 1.0, x)
      else if 3.0 <= h < 4.0 then (0.0, x, 1.0)
      else if 4.0 <= h < 5.0 then (x, 0.0, 1.0)
      else (1.0, 0.0, x);
    Vec3(r * HUE_SCALE, g * HUE_SCALE, b * HUE_SCALE)
  }

  /** The colour painted on object 1 for a noise sample `value` (lines 87-118). */
  function ProceduralColor(value: real): Vec3 {
    var h := (1.0 - value) * 6.0;
    HueRamp(h, HueX(h))
  }

  /** The ramp's sector: `k` for `h` in [k, k+1) with k = 0..4, and 5 for every other `h`. */
  function Sector(h: real): (s: int)
    ensures 0 <= s <= 5
    ensures 0.0 <= h < 5.0 ==> s as real <= h < s as real + 1.0
    ensures !(0.0 <= h < 5.0) ==> s == 5
  {
    if 0.0 <= h < 5.0 then h.Floor else 5
  }

  /** The channel (0 red, 1 green, 2 blue) at full strength in sector `s` of a hue wheel. */
  function FullChannel(s: int): int {
    ((s + 1) / 2) % 3
  }

  /** The channel switched off in sector `s` of a hue wheel. */
  function EmptyChannel(s: int): int {
    (s / 2 + 2) % 3
  }

  /** A hue wheel's channel value: 1 for the full channel, 0 for the empty one, `x` for the third. */
  function WheelChannel(s: int, ch: int, x: real): real {
    if ch == FullChannel(s) then 1.0 else if ch == EmptyChannel(s) then 0.0 else x
  }

  /**
    The ramp is a hue wheel: in every sector one channel is at full strength, a different one
    is off and the remaining one carries `x`, all scaled by 0.6.
   */
  lemma HueRampIsWheel(h: real, x: real)
    ensures var s := Sector(h);
      FullChannel(s) != EmptyChannel(s) &&
      HueRamp(h, x) == Vec3(HUE_SCALE * WheelChannel(s, 0, x),
                            HUE_SCALE * WheelChannel(s, 1, x),
                            HUE_SCALE * WheelChannel(s, 2, x))
  {
    var s := Sector(h);
    if 0.0 <= h < 5.0 {
      if h < 1.0 { assert s == 0; }
      else if h < 2.0 { assert s == 1; }
      else if h < 3.0 { assert s == 2; }
      else if h < 4.0 { assert s == 3; }
      else { assert s == 4; }
    }
  }

  /**
    For a noise sample no larger than 1 (the generator's range is [-1, 1]) every channel of the
    painted colour lies in [0, 0.6].
   */
  lemma ProceduralColorInRange(value: real)
    requires value <= 1.0
    ensures var c := ProceduralColor(value);
      0.0 <= c.x <= HUE_SCALE && 0.0 <= c.y <= HUE_SCALE && 0.0 <= c.z <= HUE_SCALE
  {
    var h := (1.0 - value) * 6.0;
    var x := HueX(h);
    assert 0.0 <= x <= 1.0;
    HueRampIsWheel(h, x);
  }

  /**
    Every negative noise sample lands past h = 6, in the last branch of the ramp (lines
    112-116): blue follows `x` while red stays at 0.6 and green at 0, so negative samples never
    reach the other five colour bands.
   */
  lemma NegativeNoiseLastSector(value: real)
    requires -1.0 <= value < 0.0
    ensures var h := (1.0 - value) * 6.0;
      6.0 < h <= 12.0 && Sector(h) == 5 &&
      ProceduralColor(value) == Vec3(HUE_SCALE, 0.0, HUE_SCALE * HueX(h))
  {
  }
}
