/**
  The few Swiss Ephemeris facts the application relies on.

  The ephemeris itself (julday, revjul, calc_ut, houses, solcross) is not part of
  this model: the operations that need it take it as a function-typed parameter.
  What is fixed here are the value ranges those calls guarantee and the one
  primitive whose definition the application depends on, `difdeg2n`.
*/
module SwissEph {

  /** An ecliptic longitude as the ephemeris reports it, in [0, 360). */
  type Longitude = x: real | 0.0 <= x < 360.0

  /** The fractional hour of day that `revjul` reports, in [0, 24). */
  type DayHour = h: real | 0.0 <= h < 24.0

  /** k full turns, in degrees. */
  function Turns(k: int): real
  {
    k as real * 360.0
  }

  /** `x` is a whole number of turns (a multiple of 360 degrees). */
  ghost predicate WholeTurns(x: real)
  {
    exists k: int :: Turns(k) == x
  }

  /** `swe_degnorm`: the representative of `x` modulo 360 in [0, 360). */
  function DegNorm(x: real): (r: Longitude)
    ensures WholeTurns(x - r)
  {
    var k := (x / 360.0).Floor;
    assert Turns(k) == x - (x - 360.0 * k as real);
    x - 360.0 * k as real
  }

  /**
    `swe_difdeg2n(p1, p2)`: the difference p1 - p2 normalised into [-180, 180).
  */
  function DifDeg2n(p1: real, p2: real): (r: real)
    ensures -180.0 <= r < 180.0
    ensures WholeTurns(p1 - p2 - r)
  {
    var d := DegNorm(p1 - p2);
    WholeTurnsShift(p1 - p2 - d);
    if d >= 180.0 then d - 360.0 else d
  }

  function Abs(x: real): (r: real)
    ensures r >= 0.0 && (r == x || r == -x)
  {
    if x < 0.0 then -x else x
  }

  /** The unsigned angular separation of two longitudes, in [0, 180]. */
  function Separation(p1: real, p2: real): (r: real)
    ensures 0.0 <= r <= 180.0
  {
    Abs(DifDeg2n(p1, p2))
  }

  lemma WholeTurnsShift(x: real)
    requires WholeTurns(x)
    ensures WholeTurns(x + 360.0)
  {
    var k :| Turns(k) == x;
    assert Turns(k + 1) == x + 360.0;
  }

  lemma WholeTurnsNeg(x: real)
    requires WholeTurns(x)
    ensures WholeTurns(-x)
  {
    var k :| Turns(k) == x;
    assert Turns(-k) == -x;
  }

  lemma WholeTurnsSub(x: real, y: real)
    requires WholeTurns(x) && WholeTurns(y)
    ensures WholeTurns(x - y)
  {
    var a :| Turns(a) == x;
    var b :| Turns(b) == y;
    assert Turns(a - b) == x - y;
  }

  /** Two representatives of one residue that lie less than a turn apart coincide. */
  lemma {:induction false} ResidueUnique(x: real, r1: real, r2: real)
    requires WholeTurns(x - r1) && WholeTurns(x - r2)
    requires -360.0 < r1 - r2 < 360.0
    ensures r1 == r2
  {
    WholeTurnsSub(x - r2, x - r1);
    var k :| Turns(k) == r1 - r2;
    assert k == 0;
  }

  /**
    Swapping the arguments of `difdeg2n` negates the difference, except at the
    one point -180 which maps to itself: the separation is symmetric.
  */
  lemma {:induction false} DifDeg2nSwap(p1: real, p2: real)
    ensures DifDeg2n(p2, p1) == (if DifDeg2n(p1, p2) == -180.0 then -180.0 else -DifDeg2n(p1, p2))
    ensures Separation(p1, p2) == Separation(p2, p1)
  {
    var r, s := DifDeg2n(p1, p2), DifDeg2n(p2, p1);
    WholeTurnsNeg(p1 - p2 - r);
    assert p2 - p1 - (-r) == -(p1 - p2 - r);
    if r == -180.0 {
      WholeTurnsShift(p2 - p1 - 180.0);
      assert p2 - p1 - 180.0 + 360.0 == p2 - p1 - r;
      ResidueUnique(p2 - p1, s, -180.0);
    } else {
      ResidueUnique(p2 - p1, s, -r);
    }
  }
}
