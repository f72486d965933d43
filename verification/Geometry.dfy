/** Axis-parallel boxes over exact real coordinates (`Region`), with the tests, the distance and
    the bounding operations that the tree code relies on. */
module Geometry {

  // The largest finite IEEE double, used by the "infinite" region as its low corner.
  const MAX_DOUBLE: real := 179769313486231570814527423731704356798070567525844996598917476803157260780028538760589558632766878171540458953514382464234321326889464182768467546703537516986049910576551282076245490090389328944075868508455133942304583236903222948165808559332123347764797926204144723168738177180919299881250404026184124858368.0

  // std::numeric_limits<double>::epsilon(), that is, 2 to the power -52.
  const EPSILON: real := 1.0 / 4503599627370496.0

  datatype Region = Region(low: seq<real>, high: seq<real>)

  function Min(x: real, y: real): real { if y < x then y else x }

  function Max(x: real, y: real): real { if x < y then y else x }

  /** `r` is a box of dimension `dim`. */
  predicate IsBox(r: Region, dim: nat) {
    |r.low| == dim && |r.high| == dim
  }

  /** No side of `r` is inverted. */
  predicate Proper(r: Region) {
    |r.low| == |r.high| && forall d :: 0 <= d < |r.low| ==> r.low[d] <= r.high[d]
  }

  predicate Intersects(a: Region, b: Region)
    requires IsBox(a, |a.low|) && IsBox(b, |a.low|)
  {
    forall d :: 0 <= d < |a.low| ==> a.low[d] <= b.high[d] && b.low[d] <= a.high[d]
  }

  predicate Contains(a: Region, b: Region)
    requires IsBox(a, |a.low|) && IsBox(b, |a.low|)
  {
    forall d :: 0 <= d < |a.low| ==> a.low[d] <= b.low[d] && b.high[d] <= a.high[d]
  }

  /** The touch test, with the comparisons as they are written: each disjunct asks a number to be
      both at least x + eps and at most x - eps. */
  predicate Touches(a: Region, b: Region)
    requires IsBox(a, |a.low|) && IsBox(b, |a.low|)
  {
    forall d :: 0 <= d < |a.low| ==>
      && !(a.low[d] >= b.low[d] + EPSILON && a.low[d] <= b.low[d] - EPSILON)
      && !(a.high[d] >= b.high[d] + EPSILON && a.high[d] <= b.high[d] - EPSILON)
  }

  /** `makeInfinite`: the inverted box that is the unit of `Combine`. */
  function Infinite(dim: nat): Region {
    Region(seq(dim, _ => MAX_DOUBLE), seq(dim, _ => -MAX_DOUBLE))
  }

  function Combine(a: Region, b: Region): (r: Region)
    requires IsBox(a, |a.low|) && IsBox(b, |a.low|)
    ensures IsBox(r, |a.low|)
    ensures Contains(r, a) && Contains(r, b)
  {
    Region(seq(|a.low|, d requires 0 <= d < |a.low| => Min(a.low[d], b.low[d])),
           seq(|a.low|, d requires 0 <= d < |a.low| => Max(a.high[d], b.high[d])))
  }

  /** The common part of two boxes, or the infinite region when they do not meet. */
  function Intersection(a: Region, b: Region): (r: Region)
    requires IsBox(a, |a.low|) && IsBox(b, |a.low|)
    ensures IsBox(r, |a.low|)
  {
    if !Intersects(a, b) then Infinite(|a.low|)
    else Region(seq(|a.low|, d requires 0 <= d < |a.low| => Max(a.low[d], b.low[d])),
                seq(|a.low|, d requires 0 <= d < |a.low| => Min(a.high[d], b.high[d])))
  }

  // ---------------------------------------------------------------- points

  /** Point `p` lies in the box `r`. */
  ghost predicate PointIn(p: seq<real>, r: Region) {
    |p| == |r.low| == |r.high| && forall d :: 0 <= d < |p| ==> r.low[d] <= p[d] <= r.high[d]
  }

  /** Boxes that are not inverted meet exactly if they share a point. */
  lemma IntersectsPoints(a: Region, b: Region)
    requires IsBox(a, |a.low|) && IsBox(b, |a.low|) && Proper(a) && Proper(b)
    ensures Intersects(a, b) <==> exists p :: PointIn(p, a) && PointIn(p, b)
  {
    if Intersects(a, b) {
      var p := seq(|a.low|, d requires 0 <= d < |a.low| => if a.low[d] < b.low[d] then b.low[d] else a.low[d]);
      assert PointIn(p, a) && PointIn(p, b);
    }
  }

  /** A box that is not inverted is contained exactly if all its points are. */
  lemma ContainsPoints(a: Region, b: Region)
    requires IsBox(a, |a.low|) && IsBox(b, |a.low|) && Proper(b)
    ensures Contains(a, b) <==> forall p :: PointIn(p, b) ==> PointIn(p, a)
  {
    assert PointIn(b.low, b) && PointIn(b.high, b);
    if !Contains(a, b) {
      assert !PointIn(b.low, a) || !PointIn(b.high, a);
    }
  }

  /** The common part of two boxes that meet has exactly the points that both have. */
  lemma IntersectionPoints(a: Region, b: Region, p: seq<real>)
    requires IsBox(a, |a.low|) && IsBox(b, |a.low|) && Intersects(a, b)
    ensures PointIn(p, Intersection(a, b)) <==> PointIn(p, a) && PointIn(p, b)
  {
  }

  /** The combined box is the smallest one: each of its sides is a side of one of the two. */
  lemma CombineLeast(a: Region, b: Region, r: Region)
    requires IsBox(a, |a.low|) && IsBox(b, |a.low|) && IsBox(r, |a.low|)
    ensures Contains(r, Combine(a, b)) <==> Contains(r, a) && Contains(r, b)
  {
  }

  /** The sum of the squared differences of the coordinates. */
  ghost function Apart2(p: seq<real>, q: seq<real>): (s: real)
    requires |p| == |q|
  {
    if p == [] then 0.0 else Apart2(p[..|p|-1], q[..|q|-1]) + Square(p[|p|-1] - q[|q|-1])
  }

  ghost function Square(x: real): real {
    x * x
  }

  /** It is the square of the difference in one dimension, and adds up over the dimensions. */
  lemma {:induction false} Apart2Sum(p: seq<real>, q: seq<real>, x: real, y: real)
    requires |p| == |q|
    ensures Apart2([x], [y]) == (x - y) * (x - y)
    ensures Apart2(p + [x], q + [y]) == Apart2(p, q) + Apart2([x], [y])
  {
    assert [x][..0] == [] && [y][..0] == [];
    assert (p + [x])[..|p|] == p && (q + [y])[..|q|] == q;
  }

  lemma {:induction false} Apart2Zero(p: seq<real>, q: seq<real>)
    requires |p| == |q|
    ensures Apart2(p, q) >= 0.0 && (Apart2(p, q) == 0.0 <==> p == q)
  {
    if p != [] {
      var n := |p| - 1;
      Apart2Zero(p[..n], q[..n]);
      SquareZero(p[n] - q[n]);
      hide Square;
      if p != q {
        assert p == p[..n] + [p[n]] && q == q[..n] + [q[n]];
      }
    }
  }

  lemma SquareZero(x: real)
    ensures if x == 0.0 then Square(x) == 0.0 else Square(x) > 0.0
  {
    hide Square;
    if x < 0.0 {
      SquareOpposite(0.0 - x, x);
      SquarePositive(0.0 - x);
    } else if x > 0.0 {
      SquarePositive(x);
    } else {
      SquareNone(x);
    }
  }

  lemma SquareNone(x: real)
    requires x == 0.0
    ensures Square(x) == 0.0
  {
  }

  lemma SquareOpposite(y: real, x: real)
    requires y == 0.0 - x
    ensures Square(y) == Square(x)
  {
    assert x == 0.0 - y;
    assert x * x == (0.0 - y) * x;
    assert (0.0 - y) * x == 0.0 - y * x;
    assert y * y == y * (0.0 - x);
  }

  lemma SquarePositive(x: real)
    requires x > 0.0
    ensures Square(x) > 0.0
  {
    ProductPositive(x, x, Square(x));
  }

  lemma ProductPositive(x: real, y: real, s: real)
    requires x > 0.0 && y > 0.0 && s == x * y
    ensures s > 0.0
  {
  }

  // ---------------------------------------------------------------- distances

  /** The gap between two intervals: zero when they meet. */
  function Gap(alow: real, ahigh: real, blow: real, bhigh: real): (x: real)
    ensures x >= 0.0
  {
    if bhigh < alow then alow - bhigh else if ahigh < blow then blow - ahigh else 0.0
  }

  /** The squared distance of two boxes summed over the first `n` dimensions. */
  function SquaredDistance(a: Region, b: Region, n: nat): (s: real)
    requires IsBox(a, |a.low|) && IsBox(b, |a.low|) && n <= |a.low|
    ensures s >= 0.0
  {
    if n == 0 then 0.0
    else
      var x := Gap(a.low[n-1], a.high[n-1], b.low[n-1], b.high[n-1]);
      SquaredDistance(a, b, n - 1) + x * x
  }

  function Distance2(a: Region, b: Region): (s: real)
    requires IsBox(a, |a.low|) && IsBox(b, |a.low|)
    ensures s >= 0.0
  {
    SquaredDistance(a, b, |a.low|)
  }

  /** `s` is the least squared distance between a point of one box and a point of the other. */
  ghost predicate Least(s: real, a: Region, b: Region)
    requires IsBox(a, |a.low|) && IsBox(b, |a.low|)
  {
    && (forall p, q :: PointIn(p, a) && PointIn(q, b) ==> s <= Apart2(p, q))
    && (exists p, q :: PointIn(p, a) && PointIn(q, b) && s == Apart2(p, q))
  }

  lemma {:induction false} DistanceBelow(a: Region, b: Region, p: seq<real>, q: seq<real>, n: nat)
    requires IsBox(a, |a.low|) && IsBox(b, |a.low|) && PointIn(p, a) && PointIn(q, b) && n <= |a.low|
    ensures SquaredDistance(a, b, n) <= Apart2(p[..n], q[..n])
  {
    hide Apart2, Gap;
    if n == 0 {
      Apart2None(p[..0], q[..0]);
    } else {
      DistanceBelow(a, b, p, q, n - 1);
      assert p[..n] == p[..n-1] + [p[n-1]] && q[..n] == q[..n-1] + [q[n-1]];
      Apart2Sum(p[..n-1], q[..n-1], p[n-1], q[n-1]);
      GapBelow(a.low[n-1], a.high[n-1], b.low[n-1], b.high[n-1], p[n-1], q[n-1]);
      DistanceStep(a, b, n);
      hide *;
    }
  }

  lemma Apart2None(p: seq<real>, q: seq<real>)
    requires p == [] && q == []
    ensures Apart2(p, q) == 0.0
  {
  }

  lemma DistanceStep(a: Region, b: Region, n: nat)
    requires IsBox(a, |a.low|) && IsBox(b, |a.low|) && n <= |a.low|
    ensures SquaredDistance(a, b, 0) == 0.0
    ensures n > 0 ==> var g := Gap(a.low[n-1], a.high[n-1], b.low[n-1], b.high[n-1]); SquaredDistance(a, b, n) == SquaredDistance(a, b, n - 1) + g * g
  {
  }

  lemma GapBelow(alow: real, ahigh: real, blow: real, bhigh: real, x: real, y: real)
    requires alow <= x <= ahigh && blow <= y <= bhigh
    ensures Gap(alow, ahigh, blow, bhigh) * Gap(alow, ahigh, blow, bhigh) <= (x - y) * (x - y)
  {
    if x >= y {
      SquareMonotone(Gap(alow, ahigh, blow, bhigh), x - y);
    } else {
      SquareMonotone(Gap(alow, ahigh, blow, bhigh), y - x);
      assert (y - x) * (y - x) == (x - y) * (x - y);
    }
  }

  /** A point of the interval from `low` to `high` that is nearest to the other interval. */
  ghost function Nearest(low: real, high: real, otherLow: real, otherHigh: real): real {
    if otherHigh < low then low else if high < otherLow then high else if low < otherLow then otherLow else low
  }

  lemma {:induction false} DistanceAttained(a: Region, b: Region, n: nat) returns (p: seq<real>, q: seq<real>)
    requires IsBox(a, |a.low|) && IsBox(b, |a.low|) && Proper(a) && Proper(b) && n <= |a.low|
    ensures |p| == |q| == n && SquaredDistance(a, b, n) == Apart2(p, q)
    ensures forall d :: 0 <= d < n ==> a.low[d] <= p[d] <= a.high[d] && b.low[d] <= q[d] <= b.high[d]
  {
    DistanceStep(a, b, n);
    hide *;
    if n == 0 {
      p, q := [], [];
      Apart2None(p, q);
    } else {
      p, q := DistanceAttained(a, b, n - 1);
      var x := Nearest(a.low[n-1], a.high[n-1], b.low[n-1], b.high[n-1]);
      var y := Nearest(b.low[n-1], b.high[n-1], a.low[n-1], a.high[n-1]);
      GapAttained(a.low[n-1], a.high[n-1], b.low[n-1], b.high[n-1]);
      Apart2Sum(p, q, x, y);
      p, q := p + [x], q + [y];
    }
  }

  lemma GapAttained(alow: real, ahigh: real, blow: real, bhigh: real)
    requires alow <= ahigh && blow <= bhigh
    ensures
      var x, y, g := Nearest(alow, ahigh, blow, bhigh), Nearest(blow, bhigh, alow, ahigh), Gap(alow, ahigh, blow, bhigh);
      alow <= x <= ahigh && blow <= y <= bhigh && g * g == (x - y) * (x - y)
  {
    var x, y, g := Nearest(alow, ahigh, blow, bhigh), Nearest(blow, bhigh, alow, ahigh), Gap(alow, ahigh, blow, bhigh);
    assert g == x - y || g == -(x - y);
  }

  /** The distance of two boxes is the least distance of their points. */
  lemma DistanceBetween(a: Region, b: Region)
    requires IsBox(a, |a.low|) && IsBox(b, |a.low|) && Proper(a) && Proper(b)
    ensures Least(Distance2(a, b), a, b)
  {
    forall p, q | PointIn(p, a) && PointIn(q, b) ensures Distance2(a, b) <= Apart2(p, q) {
      DistanceBelow(a, b, p, q, |p|);
      assert p[..|p|] == p && q[..|q|] == q;
    }
    var p, q := DistanceAttained(a, b, |a.low|);
    assert PointIn(p, a) && PointIn(q, b);
  }

  /** The loop of `getMinimumDistance`, without the final square root. */
  method MinimumDistance2(a: Region, b: Region) returns (ret: real)
    requires IsBox(a, |a.low|) && IsBox(b, |a.low|)
    ensures ret == Distance2(a, b)
    ensures Proper(a) && Proper(b) ==> Least(ret, a, b)
  {
    if Proper(a) && Proper(b) {
      DistanceBetween(a, b);
    }
    ret := 0.0;
    for i := 0 to |a.low|
      invariant ret == SquaredDistance(a, b, i)
    {
      var x := 0.0;
      if b.high[i] < a.low[i] {
        x := a.low[i] - b.high[i];
      } else if a.high[i] < b.low[i] {
        x := b.low[i] - a.high[i];
      }
      ret := ret + x * x;
    }
  }

  /** Over exact numbers the touch test can never fail, so a tree that asks for tight boxes
      recomputes every node it adjusts. */
  lemma TouchesAlways(a: Region, b: Region)
    requires IsBox(a, |a.low|) && IsBox(b, |a.low|)
    ensures Touches(a, b)
  {
  }

  lemma ContainedCombine(a: Region, b: Region)
    requires IsBox(a, |a.low|) && IsBox(b, |a.low|) && Contains(a, b)
    ensures Combine(a, b) == a
  {
    assert Combine(a, b).low == a.low;
    assert Combine(a, b).high == a.high;
  }

  lemma ContainsTransitive(a: Region, b: Region, c: Region)
    requires IsBox(a, |a.low|) && IsBox(b, |a.low|) && IsBox(c, |a.low|)
    requires Contains(a, b) && Contains(b, c)
    ensures Contains(a, c)
  {
  }

  /** A query that meets a box meets every box around it. */
  lemma IntersectsOutward(q: Region, a: Region, b: Region)
    requires IsBox(q, |q.low|) && IsBox(a, |q.low|) && IsBox(b, |q.low|)
    requires Contains(a, b) && Intersects(q, b)
    ensures Intersects(q, a)
  {
  }

  /** A query that contains a proper box meets every box around it. */
  lemma ContainmentIntersects(q: Region, b: Region)
    requires IsBox(q, |q.low|) && IsBox(b, |q.low|) && Proper(b)
    requires Contains(q, b)
    ensures Intersects(q, b)
  {
  }

  lemma SquareMonotone(x: real, y: real)
    requires 0.0 <= x <= y
    ensures x * x <= y * y
  {
    assert y * y - x * x == (y - x) * (y + x);
  }

  /** A box is never farther away than a box inside it. */
  lemma {:induction false} DistanceMonotone(q: Region, a: Region, b: Region, n: nat)
    requires IsBox(q, |q.low|) && IsBox(a, |q.low|) && IsBox(b, |q.low|) && n <= |q.low|
    requires Proper(q) && Proper(b) && Contains(a, b)
    ensures SquaredDistance(q, a, n) <= SquaredDistance(q, b, n)
  {
    DistanceStep(q, a, n);
    DistanceStep(q, b, n);
    hide SquaredDistance;
    if n > 0 {
      DistanceMonotone(q, a, b, n - 1);
      assert q.low[n-1] <= q.high[n-1] && b.low[n-1] <= b.high[n-1];
      var x, y := Gap(q.low[n-1], q.high[n-1], a.low[n-1], a.high[n-1]), Gap(q.low[n-1], q.high[n-1], b.low[n-1], b.high[n-1]);
      SquareMonotone(x, y);
    }
  }

  /** Helly's property of boxes: three boxes that meet pairwise share a point, so narrowing `r` to
      the common part of `a` and `b` never falls into the "no intersection" return. */
  lemma Helly(r: Region, a: Region, b: Region)
    requires IsBox(r, |r.low|) && IsBox(a, |r.low|) && IsBox(b, |r.low|)
    requires Intersects(r, a) && Intersects(r, b) && Intersects(a, b)
    requires Proper(r) && Proper(a) && Proper(b)
    ensures Intersects(r, Intersection(a, b))
    ensures Proper(Intersection(r, Intersection(a, b)))
    ensures Contains(r, Intersection(r, Intersection(a, b)))
  {
  }

  /** For boxes x inside `a` and y inside `b`, asking x, y to meet each other and `r` is the same as
      asking them to meet each other and the narrowed query. */
  lemma NarrowingExact(r: Region, a: Region, b: Region, x: Region, y: Region)
    requires IsBox(r, |r.low|) && IsBox(a, |r.low|) && IsBox(b, |r.low|)
    requires IsBox(x, |r.low|) && IsBox(y, |r.low|)
    requires Contains(a, x) && Contains(b, y) && Proper(x) && Proper(y)
    requires Intersects(r, a) && Intersects(r, b) && Intersects(a, b)
    requires Proper(r) && Proper(a) && Proper(b)
    ensures
      var rr := Intersection(r, Intersection(a, b));
      (Intersects(r, x) && Intersects(r, y) && Intersects(x, y)) <==>
      (Intersects(rr, x) && Intersects(rr, y) && Intersects(x, y))
  {
    Helly(r, a, b);
  }
}
