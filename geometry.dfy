/**
 * Intersection of two infinite lines in the plane by the
 * perpendicular-dot-product method (step_counter.py:32-51).
 * Numpy's two-element arrays become `Vec`.
 */
module Geometry {
  import opened Wrappers

  datatype Vec = Vec(x: real, y: real)

  function Add(a: Vec, b: Vec): Vec { Vec(a.x + b.x, a.y + b.y) }
  function Sub(a: Vec, b: Vec): Vec { Vec(a.x - b.x, a.y - b.y) }
  function Scale(k: real, a: Vec): Vec { Vec(k * a.x, k * a.y) }
  function Dot(a: Vec, b: Vec): real { a.x * b.x + a.y * b.y }

  /** `perp`: the vector turned a quarter turn counter-clockwise. */
  function Perp(a: Vec): Vec
  {
    Vec(-a.y, a.x)
  }

  /** The turned vector is orthogonal to the original and just as long. */
  lemma PerpIsQuarterTurn(a: Vec)
    ensures Dot(Perp(a), a) == 0.0
    ensures Dot(Perp(a), Perp(a)) == Dot(a, a)
  {
  }

  /**
   * `p` lies on the infinite line through `a1` and `a2`: its offset from `a1`
   * is orthogonal to the line's normal.
   */
  predicate OnLine(a1: Vec, a2: Vec, p: Vec)
  {
    Dot(Perp(Sub(a2, a1)), Sub(p, a1)) == 0.0
  }

  /** The denominator `perp(da) . db` whose vanishing means "parallel or degenerate". */
  function Denominator(a1: Vec, a2: Vec, b1: Vec, b2: Vec): real
  {
    Dot(Perp(Sub(a2, a1)), Sub(b2, b1))
  }

  /**
   * `seg_intersect`: the point `b1 + s * db` with `s = perp(da).dp / perp(da).db`,
   * or None when the denominator is zero.
   */
  function SegIntersect(a1: Vec, a2: Vec, b1: Vec, b2: Vec): (r: Option<Vec>)
    ensures r.None? <==> Denominator(a1, a2, b1, b2) == 0.0
  {
    var da := Sub(a2, a1);
    var db := Sub(b2, b1);
    var dp := Sub(a1, b1);
    var dap := Perp(da);
    var denom := Dot(dap, db);
    var num := Dot(dap, dp);
    if denom == 0.0 then None else Some(Add(Scale(num / denom, db), b1))
  }

  /** The line parameter of the intersection along `b1 -> b2`. */
  function Parameter(a1: Vec, a2: Vec, b1: Vec, b2: Vec): real
    requires Denominator(a1, a2, b1, b2) != 0.0
  {
    Dot(Perp(Sub(a2, a1)), Sub(a1, b1)) / Denominator(a1, a2, b1, b2)
  }

  /** A defined intersection is `b1 + s * (b2 - b1)` and lies on both lines. */
  lemma SegIntersectOnBothLines(a1: Vec, a2: Vec, b1: Vec, b2: Vec)
    requires SegIntersect(a1, a2, b1, b2).Some?
    ensures var p := SegIntersect(a1, a2, b1, b2).value;
      && p == Add(Scale(Parameter(a1, a2, b1, b2), Sub(b2, b1)), b1)
      && OnLine(a1, a2, p)
      && OnLine(b1, b2, p)
  {
    var p := SegIntersect(a1, a2, b1, b2).value;
    var da, db := Sub(a2, a1), Sub(b2, b1);
    var denom := Denominator(a1, a2, b1, b2);
    var num := Dot(Perp(da), Sub(a1, b1));
    var s := num / denom;
    assert s * denom == num;
    assert Sub(p, a1) == Sub(Scale(s, db), Sub(a1, b1));
    assert Dot(Perp(da), Sub(p, a1)) == s * denom - num;
    assert Sub(p, b1) == Scale(s, db);
    assert Dot(Perp(db), Scale(s, db)) == s * Dot(Perp(db), db);
  }

  /**
   * When the denominator is not zero, the two lines meet in exactly one point:
   * any point on both lines is the one `SegIntersect` returns.
   */
  lemma SegIntersectUnique(a1: Vec, a2: Vec, b1: Vec, b2: Vec, q: Vec)
    requires Denominator(a1, a2, b1, b2) != 0.0
    requires OnLine(a1, a2, q) && OnLine(b1, b2, q)
    ensures SegIntersect(a1, a2, b1, b2) == Some(q)
  {
    SegIntersectOnBothLines(a1, a2, b1, b2);
    var p := SegIntersect(a1, a2, b1, b2).value;
    var da, db := Sub(a2, a1), Sub(b2, b1);
    var d := Sub(q, p);
    // d is orthogonal to both normals
    assert Dot(Perp(da), d) == Dot(Perp(da), Sub(q, a1)) - Dot(Perp(da), Sub(p, a1));
    assert Dot(Perp(db), d) == Dot(Perp(db), Sub(q, b1)) - Dot(Perp(db), Sub(p, b1));
    var denom := Denominator(a1, a2, b1, b2);
    assert denom == da.y * db.x * -1.0 + da.x * db.y;
    // Cramer's rule on the 2x2 system with determinant denom
    assert d.x * denom == db.x * Dot(Perp(da), d) - da.x * Dot(Perp(db), d);
    assert d.y * denom == db.y * Dot(Perp(da), d) - da.y * Dot(Perp(db), d);
    assert d.x == 0.0 && d.y == 0.0;
  }

  /**
   * The crossing detector's use: line `a` joins the signal's current point
   * `(t1, d1)` to its previous point `(t0, d0)`, line `b` does the same for the
   * threshold `(t1, l1)`, `(t0, l0)`. When time advances and the signal goes
   * from at-or-below to above the threshold (or from at-or-above to below),
   * the intersection exists, its time lies in `[t0, t1)`, the crossing
   * parameter lies in `(0, 1]`, and it lies on the threshold segment.
   */
  lemma CrossingBracketed(t0: real, d0: real, l0: real, t1: real, d1: real, l1: real)
    requires t0 < t1
    requires (d1 > l1 && d0 <= l0) || (d1 < l1 && d0 >= l0)
    ensures var r := SegIntersect(Vec(t1, d1), Vec(t0, d0), Vec(t1, l1), Vec(t0, l0));
      && r.Some?
      && t0 <= r.value.x < t1
      && 0.0 < Parameter(Vec(t1, d1), Vec(t0, d0), Vec(t1, l1), Vec(t0, l0)) <= 1.0
      && OnLine(Vec(t1, l1), Vec(t0, l0), r.value)
  {
    var a1, a2, b1, b2 := Vec(t1, d1), Vec(t0, d0), Vec(t1, l1), Vec(t0, l0);
    CrossingParameter(t0, d0, l0, t1, d1, l1);
    var s := Parameter(a1, a2, b1, b2);
    FractionBounds(d1 - l1, d0 - l0);
    SegIntersectOnBothLines(a1, a2, b1, b2);
    var p := SegIntersect(a1, a2, b1, b2).value;
    assert p.x == s * (t0 - t1) + t1;
    ScaledSpan(s, t0, t1);
  }

  /** An excess that changes sign (reaching zero at most at the start) gives a fraction in (0, 1]. */
  lemma FractionBounds(e1: real, e0: real)
    requires (e1 > 0.0 && e0 <= 0.0) || (e1 < 0.0 && e0 >= 0.0)
    ensures e1 - e0 != 0.0 && 0.0 < e1 / (e1 - e0) <= 1.0
  {
    var q := e1 / (e1 - e0);
    assert q * (e1 - e0) == e1;
    if e1 > 0.0 {
      assert 0.0 < e1 <= e1 - e0;
    } else {
      assert e1 - e0 <= e1 < 0.0;
    }
  }

  /** A fraction in (0, 1] of the way back from `t1` towards `t0` lands in [t0, t1). */
  lemma ScaledSpan(s: real, t0: real, t1: real)
    requires 0.0 < s <= 1.0 && t0 < t1
    ensures t0 <= s * (t0 - t1) + t1 < t1
  {
    var w := t1 - t0;
    assert (1.0 - s) * w >= 0.0;
    assert (1.0 - s) * w == w - s * w;
    assert s * w > 0.0;
    assert s * (t0 - t1) == -(s * w);
  }

  /**
   * For the crossing detector's two segments the line parameter is the
   * signal's excess over the threshold at `t1` divided by the change of
   * that excess from `t0` to `t1`.
   */
  lemma CrossingParameter(t0: real, d0: real, l0: real, t1: real, d1: real, l1: real)
    requires t0 < t1 && (d1 - l1) - (d0 - l0) != 0.0
    ensures Denominator(Vec(t1, d1), Vec(t0, d0), Vec(t1, l1), Vec(t0, l0)) != 0.0
    ensures Parameter(Vec(t1, d1), Vec(t0, d0), Vec(t1, l1), Vec(t0, l0)) == (d1 - l1) / ((d1 - l1) - (d0 - l0))
  {
    var a1, a2, b1, b2 := Vec(t1, d1), Vec(t0, d0), Vec(t1, l1), Vec(t0, l0);
    var e1, e0 := d1 - l1, d0 - l0;
    var denom := Denominator(a1, a2, b1, b2);
    assert denom == (t0 - t1) * (e1 - e0);
    var num := Dot(Perp(Sub(a2, a1)), Sub(a1, b1));
    assert num == (t0 - t1) * e1;
    var s := Parameter(a1, a2, b1, b2);
    assert s * denom == num;
    assert s * (t0 - t1) * (e1 - e0) == (t0 - t1) * e1;
    assert s * (e1 - e0) == e1;
  }
}
