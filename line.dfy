/**
 * The logical pixels drawLine visits, as a pure function of its two end points.
 *
 * Axis-aligned lines walk from the smaller to the larger coordinate. Every other line is
 * a DDA along the major axis (x when |dx| >= |dy|), from A to B, with the minor
 * coordinate taken as floor(A.minor + 1/2 + t * dMinor/dMajor) after `t` signed steps.
 * The fraction is exact here; the source accumulates it in doubles.
 */
module Line {
  import opened Pixels

  function Abs(n: int): nat {
    if n < 0 then -n else n
  }

  function Sign(n: int): int {
    if n < 0 then -1 else if n > 0 then 1 else 0
  }

  function Min(a: int, b: int): int {
    if a <= b then a else b
  }

  function Max(a: int, b: int): int {
    if a <= b then b else a
  }

  /** The exact running minor coordinate after `t` signed major steps: start + 1/2 + t*dMinor/dMajor. */
  function Accumulated(start: int, dMinor: int, dMajor: int, t: int): real
    requires dMajor != 0
  {
    start as real + 0.5 + (t as real) * ((dMinor as real) / (dMajor as real))
  }

  /** One more step adds the increment dMinor/dMajor, one step back subtracts it. */
  lemma AccumulatedStep(start: int, dMinor: int, dMajor: int, t: int)
    requires dMajor != 0
    ensures Accumulated(start, dMinor, dMajor, t + 1)
      == Accumulated(start, dMinor, dMajor, t) + (dMinor as real) / (dMajor as real)
    ensures Accumulated(start, dMinor, dMajor, t - 1)
      == Accumulated(start, dMinor, dMajor, t) - (dMinor as real) / (dMajor as real)
  {
  }

  /** The minor coordinate drawn after `t` signed major steps. */
  function MinorAt(start: int, dMinor: int, dMajor: int, t: int): int
    requires dMajor != 0
  {
    Accumulated(start, dMinor, dMajor, t).Floor
  }

  /** The logical pixels drawLine(a, b) draws, in drawing order. */
  function LinePoints(a: Point, b: Point): (r: seq<Point>)
    ensures |r| == Max(Abs(b.x - a.x), Abs(b.y - a.y)) + 1
  {
    var dx, dy := b.x - a.x, b.y - a.y;
    if dx == 0 then
      seq(Abs(dy) + 1, k => Point(a.x, Min(a.y, b.y) + k))
    else if dy == 0 then
      seq(Abs(dx) + 1, k => Point(Min(a.x, b.x) + k, a.y))
    else if Abs(dx) >= Abs(dy) then
      seq(Abs(dx) + 1, k => Point(a.x + Sign(dx) * k, MinorAt(a.y, dy, dx, Sign(dx) * k)))
    else
      seq(Abs(dy) + 1, k => Point(MinorAt(a.x, dx, dy, Sign(dy) * k), a.y + Sign(dy) * k))
  }

  function Elements(s: seq<Point>): set<Point> {
    set p | p in s
  }

  /** The logical pixels drawLine(a, b) draws, in any order. */
  function LineSet(a: Point, b: Point): set<Point> {
    Elements(LinePoints(a, b))
  }

  /** The pixels drawTriangle(a, b, c) draws: its three edges a–b, b–c and a–c. */
  function TriangleSet(a: Point, b: Point, c: Point): set<Point> {
    LineSet(a, b) + LineSet(b, c) + LineSet(a, c)
  }

  predicate InBox(p: Point, a: Point, b: Point) {
    Min(a.x, b.x) <= p.x <= Max(a.x, b.x) && Min(a.y, b.y) <= p.y <= Max(a.y, b.y)
  }

  /** Two logical pixels touch, sideways or diagonally, and are different. */
  predicate Neighbours(p: Point, q: Point) {
    Max(Abs(p.x - q.x), Abs(p.y - q.y)) == 1
  }

  // ----- the minor coordinate -----

  /** The walk starts on the start pixel and ends on the end pixel. */
  lemma MinorAtEnds(start: int, dMinor: int, dMajor: int)
    requires dMajor != 0
    ensures MinorAt(start, dMinor, dMajor, 0) == start
    ensures MinorAt(start, dMinor, dMajor, dMajor) == start + dMinor
  {
    var q := (dMinor as real) / (dMajor as real);
    assert (dMajor as real) * q == dMinor as real;
    assert Accumulated(start, dMinor, dMajor, dMajor) == (start + dMinor) as real + 0.5;
  }

  /** Between the two ends the minor coordinate stays between the two end coordinates. */
  lemma MinorAtBetween(start: int, dMinor: int, dMajor: int, t: int)
    requires dMajor != 0
    requires 0 <= t * Sign(dMajor) <= Abs(dMajor)
    ensures Min(start, start + dMinor) <= MinorAt(start, dMinor, dMajor, t) <= Max(start, start + dMinor)
  {
    var lambda := (t as real) / (dMajor as real);
    FractionInUnit(t, dMajor);
    assert (t as real) * ((dMinor as real) / (dMajor as real)) == lambda * (dMinor as real);
    ScaledBetween(lambda, dMinor);
  }

  /** A step count between 0 and dMajor is a fraction between 0 and 1 of dMajor. */
  lemma FractionInUnit(t: int, dMajor: int)
    requires dMajor != 0
    requires 0 <= t * Sign(dMajor) <= Abs(dMajor)
    ensures 0.0 <= (t as real) / (dMajor as real) <= 1.0
  {
    var f, d := t as real, dMajor as real;
    if dMajor > 0 {
      DivBounds(f, d, 0.0, 1.0);
    } else {
      NegDiv(f, d);
      DivBounds(-f, -d, 0.0, 1.0);
    }
  }

  lemma ProductSign(x: real, d: real)
    requires d > 0.0 && x * d >= 0.0
    ensures x >= 0.0
  {
  }

  /** A quotient by a positive number lies between the bounds its dividend is scaled between. */
  lemma DivBounds(n: real, d: real, lo: real, hi: real)
    requires d > 0.0 && lo * d <= n <= hi * d
    ensures lo <= n / d <= hi
  {
    var q := n / d;
    assert q * d == n;
    assert (q - lo) * d == n - lo * d;
    ProductSign(q - lo, d);
    assert (hi - q) * d == hi * d - n;
    ProductSign(hi - q, d);
  }

  lemma NegDiv(n: real, d: real)
    requires d != 0.0
    ensures n / d == (-n) / (-d)
  {
    var q, r := n / d, (-n) / (-d);
    assert q * d == n;
    assert r * (-d) == -n;
    assert (q - r) * d == 0.0;
  }

  lemma ScaledBetween(lambda: real, d: int)
    requires 0.0 <= lambda <= 1.0
    ensures Min(0, d) as real <= lambda * (d as real) <= Max(0, d) as real
  {
    if d >= 0 {
      assert lambda * (d as real) <= 1.0 * (d as real);
    } else {
      assert lambda * (d as real) >= 1.0 * (d as real);
    }
  }

  /** One step along the major axis moves the minor coordinate by at most one when |dMinor| <= |dMajor|. */
  lemma MinorAtStep(start: int, dMinor: int, dMajor: int, t: int, s: int)
    requires dMajor != 0 && Abs(dMinor) <= Abs(dMajor)
    requires s == 1 || s == -1
    ensures Abs(MinorAt(start, dMinor, dMajor, t + s) - MinorAt(start, dMinor, dMajor, t)) <= 1
  {
    var q := (dMinor as real) / (dMajor as real);
    SlopeInUnit(dMinor, dMajor);
    var v, w := Accumulated(start, dMinor, dMajor, t), Accumulated(start, dMinor, dMajor, t + s);
    assert w == v + (s as real) * q;
    assert v - 1.0 <= w <= v + 1.0;
  }

  /** |dMinor| <= |dMajor| makes the per-step increment at most one in size. */
  lemma SlopeInUnit(dMinor: int, dMajor: int)
    requires dMajor != 0 && Abs(dMinor) <= Abs(dMajor)
    ensures -1.0 <= (dMinor as real) / (dMajor as real) <= 1.0
  {
    var n, d := dMinor as real, dMajor as real;
    if dMajor > 0 {
      DivBounds(n, d, -1.0, 1.0);
    } else {
      NegDiv(n, d);
      DivBounds(-n, -d, -1.0, 1.0);
    }
  }

  /**
   * Walking back from the other end reaches every major coordinate with the same exact
   * minor value, so with the same pixel.
   */
  lemma MinorAtReversed(a: int, aMinor: int, b: int, bMinor: int, m: int)
    requires a != b
    ensures MinorAt(bMinor, aMinor - bMinor, a - b, m - b) == MinorAt(aMinor, bMinor - aMinor, b - a, m - a)
  {
    var q := ((bMinor - aMinor) as real) / ((b - a) as real);
    assert ((aMinor - bMinor) as real) / ((a - b) as real) == q;
    assert ((b - a) as real) * q == (bMinor - aMinor) as real;
    calc {
      Accumulated(bMinor, aMinor - bMinor, a - b, m - b);
      bMinor as real + 0.5 + ((m - b) as real) * q;
      aMinor as real + ((b - a) as real) * q + 0.5 + ((m - a) as real) * q - ((b - a) as real) * q;
      Accumulated(aMinor, bMinor - aMinor, b - a, m - a);
    }
  }

  // ----- properties of the line -----

  /**
   * A line has one pixel per step of its major axis, never zero; an axis-aligned line
   * runs from the smaller to the larger coordinate, any other line from A to B.
   */
  lemma LineEnds(a: Point, b: Point)
    ensures var pts := LinePoints(a, b);
      |pts| == Max(Abs(b.x - a.x), Abs(b.y - a.y)) + 1
      && (a.x == b.x ==> pts[0] == Point(a.x, Min(a.y, b.y)) && pts[|pts| - 1] == Point(a.x, Max(a.y, b.y)))
      && (a.x != b.x && a.y == b.y ==> pts[0] == Point(Min(a.x, b.x), a.y) && pts[|pts| - 1] == Point(Max(a.x, b.x), a.y))
      && (a.x != b.x && a.y != b.y ==> pts[0] == a && pts[|pts| - 1] == b)
  {
    var dx, dy := b.x - a.x, b.y - a.y;
    if dx != 0 && dy != 0 {
      if Abs(dx) >= Abs(dy) {
        MinorAtEnds(a.y, dy, dx);
        assert Sign(dx) * Abs(dx) == dx;
      } else {
        MinorAtEnds(a.x, dx, dy);
        assert Sign(dy) * Abs(dy) == dy;
      }
    }
  }

  /** Both end points are drawn. */
  lemma EndsDrawn(a: Point, b: Point)
    ensures a in LineSet(a, b) && b in LineSet(a, b)
  {
    LineEnds(a, b);
    var pts := LinePoints(a, b);
    if a.x == b.x || a.y == b.y {
      assert a == pts[0] || a == pts[|pts| - 1];
      assert b == pts[0] || b == pts[|pts| - 1];
    }
  }

  /** Every drawn pixel lies in the bounding box of the two end points. */
  lemma LineInBox(a: Point, b: Point, k: int)
    requires 0 <= k < |LinePoints(a, b)|
    ensures InBox(LinePoints(a, b)[k], a, b)
  {
    var dx, dy := b.x - a.x, b.y - a.y;
    if dx != 0 && dy != 0 {
      if Abs(dx) >= Abs(dy) {
        MinorAtBetween(a.y, dy, dx, Sign(dx) * k);
      } else {
        MinorAtBetween(a.x, dx, dy, Sign(dy) * k);
      }
    }
  }

  /**
   * Consecutive pixels are neighbours: the major coordinate moves by exactly one towards
   * the end and the minor coordinate by at most one, so the line has no gaps.
   */
  lemma LineConnected(a: Point, b: Point, k: int)
    requires 0 <= k && k + 1 < |LinePoints(a, b)|
    ensures var p, q := LinePoints(a, b)[k], LinePoints(a, b)[k + 1];
      Neighbours(p, q)
      && (Abs(b.x - a.x) >= Abs(b.y - a.y) ==> q.x - p.x == (if a.y == b.y then 1 else Sign(b.x - a.x)))
      && (Abs(b.x - a.x) < Abs(b.y - a.y) ==> q.y - p.y == (if a.x == b.x then 1 else Sign(b.y - a.y)))
  {
    var dx, dy := b.x - a.x, b.y - a.y;
    if dx != 0 && dy != 0 {
      if Abs(dx) >= Abs(dy) {
        MinorAtStep(a.y, dy, dx, Sign(dx) * k, Sign(dx));
      } else {
        MinorAtStep(a.x, dx, dy, Sign(dy) * k, Sign(dy));
      }
    }
  }

  /** A vertical line (including a single point) draws exactly its column between the two rows. */
  lemma VerticalLine(a: Point, b: Point, p: Point)
    requires a.x == b.x
    ensures p in LineSet(a, b) <==> p.x == a.x && Min(a.y, b.y) <= p.y <= Max(a.y, b.y)
  {
    if p.x == a.x && Min(a.y, b.y) <= p.y <= Max(a.y, b.y) {
      assert p == LinePoints(a, b)[p.y - Min(a.y, b.y)];
    }
  }

  /** A horizontal line draws exactly its row between the two columns. */
  lemma HorizontalLine(a: Point, b: Point, p: Point)
    requires a.y == b.y
    ensures p in LineSet(a, b) <==> p.y == a.y && Min(a.x, b.x) <= p.x <= Max(a.x, b.x)
  {
    if a.x == b.x {
      VerticalLine(a, b, p);
    } else if p.y == a.y && Min(a.x, b.x) <= p.x <= Max(a.x, b.x) {
      assert p == LinePoints(a, b)[p.x - Min(a.x, b.x)];
    }
  }

  /** The pixel drawLine(a, b) draws at step k is the one drawLine(b, a) draws at the mirrored step. */
  lemma ReversedStep(a: Point, b: Point, k: int)
    requires 0 <= k < |LinePoints(a, b)|
    ensures |LinePoints(b, a)| == |LinePoints(a, b)|
    ensures a.x != b.x && a.y != b.y ==>
      LinePoints(a, b)[k] == LinePoints(b, a)[|LinePoints(a, b)| - 1 - k]
  {
    var dx, dy := b.x - a.x, b.y - a.y;
    if dx != 0 && dy != 0 {
      var n := |LinePoints(a, b)| - 1;
      if Abs(dx) >= Abs(dy) {
        var x := a.x + Sign(dx) * k;
        assert x == b.x + Sign(-dx) * (n - k);
        MinorAtReversed(a.x, a.y, b.x, b.y, x);
      } else {
        var y := a.y + Sign(dy) * k;
        assert y == b.y + Sign(-dy) * (n - k);
        MinorAtReversed(a.y, a.x, b.y, b.x, y);
      }
    }
  }

  /** drawLine(a, b) and drawLine(b, a) draw the same pixels. */
  lemma LineSymmetric(a: Point, b: Point)
    ensures LineSet(a, b) == LineSet(b, a)
  {
    if a.x == b.x {
      forall p ensures p in LineSet(a, b) <==> p in LineSet(b, a) {
        VerticalLine(a, b, p);
        VerticalLine(b, a, p);
      }
    } else if a.y == b.y {
      forall p ensures p in LineSet(a, b) <==> p in LineSet(b, a) {
        HorizontalLine(a, b, p);
        HorizontalLine(b, a, p);
      }
    } else {
      var n := |LinePoints(a, b)| - 1;
      forall p | p in LineSet(a, b) ensures p in LineSet(b, a) {
        var k :| 0 <= k <= n && LinePoints(a, b)[k] == p;
        ReversedStep(a, b, k);
      }
      forall p | p in LineSet(b, a) ensures p in LineSet(a, b) {
        var k :| 0 <= k <= n && LinePoints(b, a)[k] == p;
        ReversedStep(b, a, k);
      }
    }
  }

  /** The diagonal of a 4×4 grid is drawn as its four diagonal pixels. */
  lemma DiagonalExample()
    ensures LinePoints(Point(0, 0), Point(3, 3)) == [Point(0, 0), Point(1, 1), Point(2, 2), Point(3, 3)]
  {
    forall k | 0 <= k <= 3 ensures MinorAt(0, 3, 3, k) == k {
      assert Accumulated(0, 3, 3, k) == k as real + 0.5;
    }
  }

  /** drawLine({0,0}, {5,0}) draws (0,0) … (5,0) and no other pixel. */
  lemma HorizontalExample()
    ensures LinePoints(Point(0, 0), Point(5, 0))
      == [Point(0, 0), Point(1, 0), Point(2, 0), Point(3, 0), Point(4, 0), Point(5, 0)]
  {
  }

  lemma ElementsStep(s: seq<Point>, n: int)
    requires 0 <= n < |s|
    ensures Elements(s[..n + 1]) == Elements(s[..n]) + {s[n]}
  {
    assert s[..n + 1] == s[..n] + [s[n]];
  }

  /** All three corners of a triangle are drawn. */
  lemma TriangleCorners(a: Point, b: Point, c: Point)
    ensures a in TriangleSet(a, b, c) && b in TriangleSet(a, b, c) && c in TriangleSet(a, b, c)
  {
    EndsDrawn(a, b);
    EndsDrawn(b, c);
  }

  /** The drawn outline does not depend on the order in which the corners are given. */
  lemma TriangleOrder(a: Point, b: Point, c: Point)
    ensures TriangleSet(a, b, c) == TriangleSet(b, a, c)
    ensures TriangleSet(a, b, c) == TriangleSet(a, c, b)
  {
    LineSymmetric(a, b);
    LineSymmetric(b, c);
    LineSymmetric(a, c);
  }
}
