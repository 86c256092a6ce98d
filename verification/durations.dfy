/**
  Durations as they are shown to the user: whole seconds split into hours,
  minutes and seconds, and the floating-point floor division and modulo the
  display code applies to a total that may carry a fraction of a second.
 */
module Durations {

  /** An hours / minutes / seconds reading of a duration. */
  datatype Clock = Clock(hours: nat, minutes: nat, seconds: nat)

  function ClockSeconds(c: Clock): nat
  {
    3600 * c.hours + 60 * c.minutes + c.seconds
  }

  /** Hours, minutes below 60 and seconds below 60 that add up to `s`. */
  function ToClock(s: nat): (c: Clock)
    ensures c.minutes < 60 && c.seconds < 60
    ensures ClockSeconds(c) == s
  {
    Clock(s / 3600, (s % 3600) / 60, s % 60)
  }

  /** A reading with minutes and seconds below 60 is the one `ToClock` gives. */
  lemma ToClockOfClockSeconds(c: Clock)
    requires c.minutes < 60 && c.seconds < 60
    ensures ToClock(ClockSeconds(c)) == c
  {
    var s := ClockSeconds(c);
    var r := 60 * c.minutes + c.seconds;
    assert 0 <= r < 3600;
    DivModUnique(s, 3600, c.hours, r);
    DivModUnique(r, 60, c.minutes, c.seconds);
    assert s % 60 == c.seconds by {
      DivModUnique(s, 60, 60 * c.hours + c.minutes, c.seconds);
    }
  }

  lemma DivModUnique(n: int, d: int, q: int, r: int)
    requires d > 0 && 0 <= r < d && n == q * d + r
    ensures n / d == q && n % d == r
  {
    var k := q - n / d;
    assert k * d == n % d - r by {
      assert q * d - (n / d) * d == (q - n / d) * d;
    }
    if k >= 1 {
      MulMono(1, k, d);
    } else if k <= -1 {
      MulMono(k, -1, d);
    }
  }

  lemma MulMono(a: int, b: int, d: int)
    requires a <= b && d > 0
    ensures a * d <= b * d
  {
    assert b * d - a * d == (b - a) * d;
  }

  // Python's operators on the floating-point total of seconds.

  /** `x // d` for a positive divisor: the floor of the quotient. */
  function FloorDiv(x: real, d: real): int
    requires d > 0.0
  {
    (x / d).Floor
  }

  /** `x % d` for a positive divisor: the non-negative remainder of `FloorDiv`. */
  function FloorMod(x: real, d: real): real
    requires d > 0.0
  {
    x - d * (FloorDiv(x, d) as real)
  }

  /** `int(x)`: truncation toward zero. */
  function Truncate(x: real): int
  {
    if x >= 0.0 then x.Floor else -((-x).Floor)
  }

  /** Dividing a non-negative real by 60 or 3600 and flooring is dividing its floor. */
  lemma FloorDivOfFloor(x: real, d: int)
    requires x >= 0.0 && (d == 60 || d == 3600)
    ensures FloorDiv(x, d as real) == x.Floor / d
  {
    var t := x.Floor;
    var q := t / d;
    assert q * d <= t < q * d + d;
    if d == 60 {
      assert (q as real) <= x / 60.0 < (q as real) + 1.0;
    } else {
      assert (q as real) <= x / 3600.0 < (q as real) + 1.0;
    }
  }

  /**
    The clock the display code computes from a non-negative floating-point
    total `x`: `int(x // 3600)`, `int((x % 3600) // 60)`, `int(x % 60)`. It is
    the integer clock of the whole seconds in `x`.
   */
  function ShownClock(x: real): (c: Clock)
    requires x >= 0.0
    ensures c == ToClock(x.Floor)
  {
    var t := x.Floor;
    FloorDivOfFloor(x, 3600);
    FloorDivOfFloor(x, 60);
    var h := Truncate(FloorDiv(x, 3600.0) as real);
    var rest := FloorMod(x, 3600.0);
    assert rest.Floor == t % 3600 && rest >= 0.0;
    FloorDivOfFloor(rest, 60);
    var m := Truncate(FloorDiv(rest, 60.0) as real);
    var sr := FloorMod(x, 60.0);
    assert sr.Floor == t % 60 && sr >= 0.0;
    var s := Truncate(sr);
    Clock(h, m, s)
  }

  /**
    `int(v)` minutes and `int((v - int(v)) * 60)` seconds of a non-negative
    number of minutes `v`: whole minutes, then whole seconds below 60 of the
    fraction left over.
   */
  function MinutesAndSeconds(v: real): (ms: (nat, nat))
    requires v >= 0.0
    ensures ms.1 < 60
    ensures (60 * ms.0 + ms.1) as real <= 60.0 * v < (60 * ms.0 + ms.1 + 1) as real
  {
    var m := Truncate(v);
    var s := Truncate((v - m as real) * 60.0);
    (m, s)
  }
}
