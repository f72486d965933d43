/** Boxes whose sides move linearly (`MovingRegion`): the tests that decide a statement about every
    instant of a period from the positions at its ends and the times where sides cross. */
module Moving {
  import opened Geometry

  /** Sides at `start`, their velocities, and the time the region lives. */
  datatype MovingRegion = MovingRegion(low: seq<real>, high: seq<real>, vlow: seq<real>, vhigh: seq<real>, start: real, end: real)
  {
    ghost predicate IsMoving(dim: nat) {
      |low| == |high| == |vlow| == |vhigh| == dim
    }

    /** Where the sides would be if the region kept moving for ever. */
    function ExtrapolatedLow(d: nat, t: real): real
      requires d < |low| && d < |vlow|
    {
      low[d] + vlow[d] * (t - start)
    }

    function ExtrapolatedHigh(d: nat, t: real): real
      requires d < |high| && d < |vhigh|
    {
      high[d] + vhigh[d] * (t - start)
    }

    /** Where the sides are: the region stands still before its start and after its end. */
    function Low(d: nat, t: real): real
      requires d < |low| && d < |vlow|
    {
      if t > end then low[d] + vlow[d] * (end - start)
      else if t < start then low[d]
      else low[d] + vlow[d] * (t - start)
    }

    function High(d: nat, t: real): real
      requires d < |high| && d < |vhigh|
    {
      if t > end then high[d] + vhigh[d] * (end - start)
      else if t < start then high[d]
      else high[d] + vhigh[d] * (t - start)
    }
  }

  /** A region moves at its velocities while it lives, and stands still before and after. */
  lemma Course(r: MovingRegion, d: nat, t: real, u: real)
    requires r.IsMoving(|r.low|) && d < |r.low| && r.start <= r.end
    ensures r.Low(d, r.start) == r.low[d] && r.High(d, r.start) == r.high[d]
    ensures t <= r.start ==> r.Low(d, t) == r.Low(d, r.start) && r.High(d, t) == r.High(d, r.start)
    ensures t >= r.end ==> r.Low(d, t) == r.Low(d, r.end) && r.High(d, t) == r.High(d, r.end)
    ensures r.start <= t <= u <= r.end ==> r.Low(d, u) - r.Low(d, t) == r.vlow[d] * (u - t) && r.High(d, u) - r.High(d, t) == r.vhigh[d] * (u - t)
  {
    Advance(r.low[d], r.vlow[d], r.start, t, u);
    Advance(r.high[d], r.vhigh[d], r.start, t, u);
  }

  datatype Interval = Interval(low: real, high: real)

  /** The box of `b` at time `t` is inside the box of `a`. */
  ghost predicate InsideAt(a: MovingRegion, b: MovingRegion, dim: nat, t: real)
    requires a.IsMoving(dim) && b.IsMoving(dim)
  {
    forall d :: 0 <= d < dim ==> InsideDim(a, b, d, t)
  }

  ghost predicate InsideDim(a: MovingRegion, b: MovingRegion, d: nat, t: real)
    requires a.IsMoving(|a.low|) && b.IsMoving(|a.low|) && d < |a.low|
  {
    a.Low(d, t) <= b.Low(d, t) && b.High(d, t) <= a.High(d, t)
  }

  /** The boxes share a point at time `t`. */
  ghost predicate MeetAt(a: MovingRegion, b: MovingRegion, dim: nat, t: real)
    requires a.IsMoving(dim) && b.IsMoving(dim)
  {
    forall d :: 0 <= d < dim ==> MeetDim(a, b, d, t)
  }

  ghost predicate MeetDim(a: MovingRegion, b: MovingRegion, d: nat, t: real)
    requires a.IsMoving(|a.low|) && b.IsMoving(|a.low|) && d < |a.low|
  {
    a.Low(d, t) <= b.High(d, t) && b.Low(d, t) <= a.High(d, t)
  }

  // ---------------------------------------------------------------- lines

  ghost function Line(c: real, g: real, t: real): real { c + g * t }

  /** The sign of a line on either side of its root. */
  lemma LineSign(c: real, g: real, t: real)
    requires g != 0.0
    ensures g > 0.0 ==> (Line(c, g, t) > 0.0 <==> t > -c / g) && (Line(c, g, t) < 0.0 <==> t < -c / g)
    ensures g < 0.0 ==> (Line(c, g, t) > 0.0 <==> t < -c / g) && (Line(c, g, t) < 0.0 <==> t > -c / g)
  {
    var root := -c / g;
    assert g * root == -c;
    assert Line(c, g, t) == g * (t - root);
  }

  /** A line that is not negative at both ends of a period is not negative in between. */
  lemma LineBetween(c: real, g: real, t1: real, t2: real, t: real)
    requires t1 <= t <= t2 && Line(c, g, t1) >= 0.0 && Line(c, g, t2) >= 0.0
    ensures Line(c, g, t) >= 0.0
  {
    if g != 0.0 {
      LineSign(c, g, t1);
      LineSign(c, g, t2);
      LineSign(c, g, t);
    }
  }

  /** Sides as lines through their position at time zero. */
  lemma SideLines(a: MovingRegion, b: MovingRegion, d: nat, t: real)
    requires a.IsMoving(|a.low|) && b.IsMoving(|a.low|) && d < |a.low|
    ensures a.ExtrapolatedHigh(d, t) - b.ExtrapolatedHigh(d, t)
         == Line(a.ExtrapolatedHigh(d, 0.0) - b.ExtrapolatedHigh(d, 0.0), a.vhigh[d] - b.vhigh[d], t)
    ensures b.ExtrapolatedLow(d, t) - a.ExtrapolatedLow(d, t)
         == Line(b.ExtrapolatedLow(d, 0.0) - a.ExtrapolatedLow(d, 0.0), b.vlow[d] - a.vlow[d], t)
    ensures a.ExtrapolatedHigh(d, t) - b.ExtrapolatedLow(d, t)
         == Line(a.ExtrapolatedHigh(d, 0.0) - b.ExtrapolatedLow(d, 0.0), a.vhigh[d] - b.vlow[d], t)
  {
    SideLine(a.high[d], a.vhigh[d], a.start, t);
    SideLine(b.high[d], b.vhigh[d], b.start, t);
    SideLine(a.low[d], a.vlow[d], a.start, t);
    SideLine(b.low[d], b.vlow[d], b.start, t);
    Slopes(a.vhigh[d], b.vhigh[d], t);
    Slopes(b.vlow[d], a.vlow[d], t);
    Slopes(a.vhigh[d], b.vlow[d], t);
  }

  lemma SideLine(x: real, v: real, s: real, t: real)
    ensures x + v * (t - s) == (x + v * (0.0 - s)) + v * t
  {
  }

  lemma Slopes(g: real, h: real, t: real)
    ensures (g - h) * t == g * t - h * t
  {
  }

  // ---------------------------------------------------------------- containsRegionInTime

  /** A gap that is not negative at `tmin` stays so up to `tmax` exactly if neither of the two
      crossing tests of the code fires. */
  lemma CrossingTests(c: real, g: real, tmin: real, tmax: real)
    requires tmin < tmax && Line(c, g, tmin) >= 0.0
    ensures Line(c, g, tmax) >= 0.0 <==>
      (g == 0.0 || !((tmin < -c / g && -c / g < tmax) || (tmin == -c / g && g < 0.0)))
  {
    if g != 0.0 {
      LineSign(c, g, tmin);
      LineSign(c, g, tmax);
    }
  }

  /** The two spellings of a crossing time. */
  lemma SameRoot(c: real, g: real, h: real)
    requires g != h
    ensures c / (g - h) == -c / (h - g)
  {
    var x := c / (g - h);
    assert x * (g - h) == c;
    assert x * (h - g) == -c;
    assert -c / (h - g) == (x * (h - g)) / (h - g);
  }

  /** While both regions live, they are where they would be if they kept moving. */
  lemma Alive(a: MovingRegion, d: nat, t: real)
    requires a.IsMoving(|a.low|) && d < |a.low| && a.start <= t <= a.end
    ensures a.Low(d, t) == a.ExtrapolatedLow(d, t) && a.High(d, t) == a.ExtrapolatedHigh(d, t)
  {
  }

  /** Inside at both ends of a common period: inside all along. */
  lemma InsideBetween(a: MovingRegion, r: MovingRegion, d: nat, tmin: real, tmax: real, t: real)
    requires a.IsMoving(|a.low|) && r.IsMoving(|a.low|) && d < |a.low|
    requires a.start <= tmin <= t <= tmax <= a.end && r.start <= tmin && tmax <= r.end
    requires InsideDim(a, r, d, tmin) && InsideDim(a, r, d, tmax)
    ensures InsideDim(a, r, d, t)
  {
    hide MovingRegion.ExtrapolatedLow, MovingRegion.ExtrapolatedHigh, Line, InsideDim;
    var c1, g1 := a.ExtrapolatedHigh(d, 0.0) - r.ExtrapolatedHigh(d, 0.0), a.vhigh[d] - r.vhigh[d];
    var c2, g2 := r.ExtrapolatedLow(d, 0.0) - a.ExtrapolatedLow(d, 0.0), r.vlow[d] - a.vlow[d];
    SideLines(a, r, d, tmin);
    SideLines(a, r, d, tmax);
    SideLines(a, r, d, t);
    InsideTests(a, r, d, tmin);
    InsideTests(a, r, d, tmax);
    InsideTests(a, r, d, t);
    LineBetween(c1, g1, tmin, tmax, t);
    LineBetween(c2, g2, tmin, tmax, t);
  }

  /** The test of two upper sides, given by position at time zero and velocity: the outer one starts
      above the inner one and stays so. */
  method UpperStays(outer: real, vOuter: real, inner: real, vInner: real, tmin: real, tmax: real) returns (ret: bool)
    requires tmin < tmax && Line(outer - inner, vOuter - vInner, tmin) >= 0.0
    ensures ret <==> Line(outer - inner, vOuter - vInner, tmax) >= 0.0
  {
    CrossingTests(outer - inner, vOuter - vInner, tmin, tmax);
    if vInner != vOuter {
      SameRoot(outer - inner, vInner, vOuter);
      var intersectionTime := (outer - inner) / (vInner - vOuter);
      if tmin < intersectionTime && intersectionTime < tmax {
        return false;
      }
      if tmin == intersectionTime && vInner > vOuter {
        return false;
      }
    }
    return true;
  }

  /** The test of two lower sides. */
  method LowerStays(outer: real, vOuter: real, inner: real, vInner: real, tmin: real, tmax: real) returns (ret: bool)
    requires tmin < tmax && Line(inner - outer, vInner - vOuter, tmin) >= 0.0
    ensures ret <==> Line(inner - outer, vInner - vOuter, tmax) >= 0.0
  {
    CrossingTests(inner - outer, vInner - vOuter, tmin, tmax);
    if vInner != vOuter {
      Opposite(outer, inner, vInner - vOuter);
      var intersectionTime := (outer - inner) / (vInner - vOuter);
      if tmin < intersectionTime && intersectionTime < tmax {
        return false;
      }
      if tmin == intersectionTime && vInner < vOuter {
        return false;
      }
    }
    return true;
  }

  /** The tests of one dimension: the start of the period, then the crossing times of the two upper
      and the two lower sides. */
  method ContainsDim(a: MovingRegion, r: MovingRegion, d: nat, tmin: real, tmax: real) returns (ret: bool)
    requires a.IsMoving(|a.low|) && r.IsMoving(|a.low|) && d < |a.low|
    requires a.start <= tmin < tmax <= a.end && r.start <= tmin && tmax <= r.end
    ensures ret <==> InsideDim(a, r, d, tmin) && InsideDim(a, r, d, tmax)
  {
    hide InsideDim, Line, MovingRegion.ExtrapolatedLow, MovingRegion.ExtrapolatedHigh;
    SideLines(a, r, d, tmin);
    SideLines(a, r, d, tmax);
    InsideTests(a, r, d, tmin);
    InsideTests(a, r, d, tmax);
    if r.ExtrapolatedHigh(d, tmin) > a.ExtrapolatedHigh(d, tmin) || r.ExtrapolatedLow(d, tmin) < a.ExtrapolatedLow(d, tmin) {
      return false;
    }
    var upper := UpperStays(a.ExtrapolatedHigh(d, 0.0), a.vhigh[d], r.ExtrapolatedHigh(d, 0.0), r.vhigh[d], tmin, tmax);
    if !upper {
      return false;
    }
    ret := LowerStays(a.ExtrapolatedLow(d, 0.0), a.vlow[d], r.ExtrapolatedLow(d, 0.0), r.vlow[d], tmin, tmax);
  }

  lemma Opposite(x: real, y: real, g: real)
    ensures g != 0.0 ==> (x - y) / g == -(y - x) / g
  {
    assert x - y == -(y - x);
  }

  /** The period over which the containment of `r` is asked: the part of `iv` in which `r` lives. */
  ghost predicate Common(iv: Interval, r: MovingRegion, t: real) {
    iv.low <= t <= iv.high && r.start <= t <= r.end
  }

  /** `containsRegionInTime`: true exactly if the common period is a proper one, lies within this
      region's life, and `r` is inside this region at every instant of it. That no region shrinks,
      which the code asserts, is not needed. */
  method ContainsRegionInTime(a: MovingRegion, iv: Interval, r: MovingRegion, dim: nat) returns (ret: bool)
    requires a.IsMoving(dim) && r.IsMoving(dim)
    ensures ret <==>
      && Max(iv.low, r.start) < Min(iv.high, r.end)
      && (forall t :: Common(iv, r, t) ==> a.start <= t <= a.end && InsideAt(a, r, dim, t))
  {
    var tmin := Max(iv.low, r.start);
    var tmax := Min(iv.high, r.end);
    assert tmin < tmax ==> Common(iv, r, tmin) && Common(iv, r, tmax);
    if tmax <= tmin || tmin < a.start || tmax > a.end {
      return false;
    }
    for cDim := 0 to dim
      invariant forall d :: 0 <= d < cDim ==> InsideDim(a, r, d, tmin) && InsideDim(a, r, d, tmax)
    {
      var b := ContainsDim(a, r, cDim, tmin, tmax);
      if !b {
        assert !InsideAt(a, r, dim, tmin) || !InsideAt(a, r, dim, tmax);
        return false;
      }
    }
    forall t | Common(iv, r, t) ensures InsideAt(a, r, dim, t) {
      forall d | 0 <= d < dim ensures InsideDim(a, r, d, t) {
        InsideBetween(a, r, d, tmin, tmax, t);
      }
    }
    return true;
  }

  // ---------------------------------------------------------------- containsPointInTime

  datatype MovingPoint = MovingPoint(coords: seq<real>, vcoords: seq<real>, start: real, end: real)
  {
    ghost predicate IsMoving(dim: nat) {
      |coords| == |vcoords| == dim
    }

    function Projected(d: nat, t: real): real
      requires d < |coords| && d < |vcoords|
    {
      coords[d] + vcoords[d] * (t - start)
    }

    /** The point as a box without extent. */
    ghost function Box(): MovingRegion {
      MovingRegion(coords, coords, vcoords, vcoords, start, end)
    }
  }

  lemma Projects(p: MovingPoint, dim: nat, d: nat, t: real)
    requires p.IsMoving(dim) && d < dim
    ensures p.Box().IsMoving(dim) && p.Box().start == p.start && p.Box().end == p.end
    ensures p.Projected(d, t) == p.Box().ExtrapolatedLow(d, t) == p.Box().ExtrapolatedHigh(d, t)
    ensures p.Box().vlow == p.Box().vhigh == p.vcoords
  {
  }

  /** While both live, the sides are the extrapolated ones. */
  lemma InsideTests(a: MovingRegion, b: MovingRegion, d: nat, t: real)
    requires a.IsMoving(|a.low|) && b.IsMoving(|a.low|) && d < |a.low|
    requires a.start <= t <= a.end && b.start <= t <= b.end
    ensures InsideDim(a, b, d, t) <==>
      a.ExtrapolatedLow(d, t) <= b.ExtrapolatedLow(d, t) && b.ExtrapolatedHigh(d, t) <= a.ExtrapolatedHigh(d, t)
  {
  }

  method ContainsPointDim(a: MovingRegion, p: MovingPoint, d: nat, tmin: real, tmax: real) returns (ret: bool)
    requires a.IsMoving(|a.low|) && p.IsMoving(|a.low|) && d < |a.low|
    requires a.start <= tmin < tmax <= a.end && p.start <= tmin && tmax <= p.end
    ensures ret <==> InsideDim(a, p.Box(), d, tmin) && InsideDim(a, p.Box(), d, tmax)
  {
    hide InsideDim, Line, MovingRegion.ExtrapolatedLow, MovingRegion.ExtrapolatedHigh, MovingPoint.Projected, MovingPoint.Box;
    Projects(p, |a.low|, d, 0.0);
    Projects(p, |a.low|, d, tmin);
    Projects(p, |a.low|, d, tmax);
    SideLines(a, p.Box(), d, tmin);
    SideLines(a, p.Box(), d, tmax);
    InsideTests(a, p.Box(), d, tmin);
    InsideTests(a, p.Box(), d, tmax);
    if p.Projected(d, tmin) > a.ExtrapolatedHigh(d, tmin) || p.Projected(d, tmin) < a.ExtrapolatedLow(d, tmin) {
      return false;
    }
    var upper := UpperStays(a.ExtrapolatedHigh(d, 0.0), a.vhigh[d], p.Projected(d, 0.0), p.vcoords[d], tmin, tmax);
    if !upper {
      return false;
    }
    ret := LowerStays(a.ExtrapolatedLow(d, 0.0), a.vlow[d], p.Projected(d, 0.0), p.vcoords[d], tmin, tmax);
  }

  /** `containsPointInTime`: the same statement for a moving point. */
  method ContainsPointInTime(a: MovingRegion, iv: Interval, p: MovingPoint, dim: nat) returns (ret: bool)
    requires a.IsMoving(dim) && p.IsMoving(dim)
    ensures ret <==>
      && Max(iv.low, p.start) < Min(iv.high, p.end)
      && (forall t :: Common(iv, p.Box(), t) ==> a.start <= t <= a.end && InsideAt(a, p.Box(), dim, t))
  {
    var tmin := Max(iv.low, p.start);
    var tmax := Min(iv.high, p.end);
    ghost var r := p.Box();
    assert tmin < tmax ==> Common(iv, r, tmin) && Common(iv, r, tmax);
    if tmax <= tmin || tmin < a.start || tmax > a.end {
      return false;
    }
    for cDim := 0 to dim
      invariant forall d :: 0 <= d < cDim ==> InsideDim(a, r, d, tmin) && InsideDim(a, r, d, tmax)
    {
      var b := ContainsPointDim(a, p, cDim, tmin, tmax);
      if !b {
        assert !InsideAt(a, r, dim, tmin) || !InsideAt(a, r, dim, tmax);
        return false;
      }
    }
    forall t | Common(iv, r, t) ensures InsideAt(a, r, dim, t) {
      forall d | 0 <= d < dim ensures InsideDim(a, r, d, t) {
        InsideBetween(a, r, d, tmin, tmax, t);
      }
    }
    return true;
  }

  // ---------------------------------------------------------------- intersectsRegionInTime

  /** The two gaps between the boxes in one dimension, as lines: how far `r` is above `a`, and how far
      it is below. The boxes meet in this dimension while neither is positive. */
  datatype Gaps = Gaps(c1: real, g1: real, c2: real, g2: real)
  {
    ghost function Above(t: real): real { Line(c1, g1, t) }
    ghost function Beneath(t: real): real { Line(c2, g2, t) }
    ghost predicate Meet(t: real) { Above(t) <= 0.0 && Beneath(t) <= 0.0 }
  }

  ghost function GapsOf(a: MovingRegion, r: MovingRegion, d: nat): Gaps
    requires a.IsMoving(|a.low|) && r.IsMoving(|a.low|) && d < |a.low|
  {
    Gaps(r.ExtrapolatedLow(d, 0.0) - a.ExtrapolatedHigh(d, 0.0), r.vlow[d] - a.vhigh[d],
         a.ExtrapolatedLow(d, 0.0) - r.ExtrapolatedHigh(d, 0.0), a.vlow[d] - r.vhigh[d])
  }

  lemma GapLines(a: MovingRegion, r: MovingRegion, d: nat, t: real)
    requires a.IsMoving(|a.low|) && r.IsMoving(|a.low|) && d < |a.low|
    ensures GapsOf(a, r, d).Above(t) == r.ExtrapolatedLow(d, t) - a.ExtrapolatedHigh(d, t)
    ensures GapsOf(a, r, d).Beneath(t) == a.ExtrapolatedLow(d, t) - r.ExtrapolatedHigh(d, t)
  {
    SideLine(a.high[d], a.vhigh[d], a.start, t);
    SideLine(r.high[d], r.vhigh[d], r.start, t);
    SideLine(a.low[d], a.vlow[d], a.start, t);
    SideLine(r.low[d], r.vlow[d], r.start, t);
    Slopes(r.vlow[d], a.vhigh[d], t);
    Slopes(a.vlow[d], r.vhigh[d], t);
  }

  /** Two boxes that are not inverted are never above and beneath each other at once. */
  lemma OneSided(a: MovingRegion, r: MovingRegion, d: nat, t: real)
    requires a.IsMoving(|a.low|) && r.IsMoving(|a.low|) && d < |a.low|
    requires a.ExtrapolatedLow(d, t) <= a.ExtrapolatedHigh(d, t) && r.ExtrapolatedLow(d, t) <= r.ExtrapolatedHigh(d, t)
    ensures GapsOf(a, r, d).Above(t) + GapsOf(a, r, d).Beneath(t) <= 0.0
  {
    GapLines(a, r, d, t);
  }

  lemma StaysProper(v: real, w: real, t: real)
    requires v <= w && t >= 0.0
    ensures v * t <= w * t
  {
  }

  /** The new start of the period: where the gap that is open at `tmin` closes. */
  ghost function NewMin(s: Gaps, tmin: real): real {
    if s.Above(tmin) > 0.0 && s.g1 != 0.0 then -s.c1 / s.g1
    else if s.Above(tmin) <= 0.0 && s.Beneath(tmin) > 0.0 && s.g2 != 0.0 then -s.c2 / s.g2
    else tmin
  }

  /** The new end of the period: where the gap that is open at `tmax` opens. */
  ghost function NewMax(s: Gaps, tmax: real): real {
    if s.Above(tmax) > 0.0 && s.g1 != 0.0 then -s.c1 / s.g1
    else if s.Above(tmax) <= 0.0 && s.Beneath(tmax) > 0.0 && s.g2 != 0.0 then -s.c2 / s.g2
    else tmax
  }

  /** The "completely above or below" test. */
  ghost predicate Apart(s: Gaps, tmin: real, tmax: real) {
    (s.Above(tmin) > 0.0 && s.Above(tmax) >= 0.0) || (s.Beneath(tmin) > 0.0 && s.Beneath(tmax) >= 0.0)
  }

  /** When the boxes are not simply apart, every gap that is divided by changes. */
  lemma SlopesChange(s: Gaps, tmin: real, tmax: real)
    requires !Apart(s, tmin, tmax)
    ensures s.Above(tmin) > 0.0 ==> s.g1 != 0.0
    ensures s.Above(tmin) <= 0.0 && s.Beneath(tmin) > 0.0 ==> s.g2 != 0.0
    ensures s.Above(tmax) > 0.0 ==> s.g1 != 0.0
    ensures s.Above(tmax) <= 0.0 && s.Beneath(tmax) > 0.0 ==> s.g2 != 0.0
  {
  }

  /** What the root of one gap says at one time. */
  lemma RootSigns(c: real, g: real, tmin: real, tmax: real)
    requires tmin <= tmax
    ensures Line(c, g, tmin) > 0.0 && Line(c, g, tmax) < 0.0 ==>
      g != 0.0 && tmin < -c / g < tmax && forall t :: Line(c, g, t) <= 0.0 <==> t >= -c / g
    ensures Line(c, g, tmin) <= 0.0 && Line(c, g, tmax) > 0.0 ==>
      g != 0.0 && tmin <= -c / g < tmax && forall t :: Line(c, g, t) <= 0.0 <==> t <= -c / g
    ensures Line(c, g, tmin) <= 0.0 && Line(c, g, tmax) <= 0.0 ==> forall t :: tmin <= t <= tmax ==> Line(c, g, t) <= 0.0
    ensures Line(c, g, tmin) > 0.0 && Line(c, g, tmax) >= 0.0 ==> forall t :: tmin <= t < tmax ==> Line(c, g, t) > 0.0
  {
    forall t
      ensures Line(c, g, tmin) > 0.0 && Line(c, g, tmax) < 0.0 ==> (Line(c, g, t) <= 0.0 <==> t >= -c / g)
      ensures Line(c, g, tmin) <= 0.0 && Line(c, g, tmax) > 0.0 ==> (Line(c, g, t) <= 0.0 <==> t <= -c / g)
      ensures Line(c, g, tmin) <= 0.0 && Line(c, g, tmax) <= 0.0 && tmin <= t <= tmax ==> Line(c, g, t) <= 0.0
      ensures Line(c, g, tmin) > 0.0 && Line(c, g, tmax) >= 0.0 && tmin <= t < tmax ==> Line(c, g, t) > 0.0
    {
      RootSign(c, g, tmin, tmax, t);
    }
    RootSign(c, g, tmin, tmax, tmin);
  }

  lemma RootSign(c: real, g: real, tmin: real, tmax: real, t: real)
    requires tmin <= tmax
    ensures Line(c, g, tmin) > 0.0 && Line(c, g, tmax) < 0.0 ==>
      g != 0.0 && tmin < -c / g < tmax && (Line(c, g, t) <= 0.0 <==> t >= -c / g)
    ensures Line(c, g, tmin) <= 0.0 && Line(c, g, tmax) > 0.0 ==>
      g != 0.0 && tmin <= -c / g < tmax && (Line(c, g, t) <= 0.0 <==> t <= -c / g)
    ensures Line(c, g, tmin) <= 0.0 && Line(c, g, tmax) <= 0.0 && tmin <= t <= tmax ==> Line(c, g, t) <= 0.0
    ensures Line(c, g, tmin) > 0.0 && Line(c, g, tmax) >= 0.0 && tmin <= t < tmax ==> Line(c, g, t) > 0.0
  {
    if g != 0.0 {
      LineSign(c, g, tmin);
      LineSign(c, g, tmax);
      LineSign(c, g, t);
    }
  }

  /** At no instant of the period both gaps are open. */
  ghost predicate SidedIn(s: Gaps, tmin: real, tmax: real) {
    tmin <= tmax && forall t :: tmin <= t <= tmax ==> s.Above(t) + s.Beneath(t) <= 0.0
  }

  /** One dimension narrows the period to exactly the instants at which the boxes meet in it. */
  lemma NarrowExact(s: Gaps, tmin: real, tmax: real)
    requires !Apart(s, tmin, tmax) && SidedIn(s, tmin, tmax)
    ensures tmin <= NewMin(s, tmin) <= NewMax(s, tmax) <= tmax
    ensures forall t :: tmin <= t <= tmax ==> (s.Meet(t) <==> NewMin(s, tmin) <= t <= NewMax(s, tmax))
  {
    RootSigns(s.c1, s.g1, tmin, tmax);
    RootSigns(s.c2, s.g2, tmin, tmax);
    assert s.Above(tmin) + s.Beneath(tmin) <= 0.0 && s.Above(tmax) + s.Beneath(tmax) <= 0.0;
    var m := NewMin(s, tmin);
    assert tmin <= m <= tmax;
    assert s.Above(m) + s.Beneath(m) <= 0.0;
  }

  lemma ApartOnce(s: Gaps, tmin: real, tmax: real)
    requires tmin <= tmax && Apart(s, tmin, tmax)
    ensures forall t :: tmin <= t <= tmax && s.Meet(t) ==> t == tmax
  {
    RootSigns(s.c1, s.g1, tmin, tmax);
    RootSigns(s.c2, s.g2, tmin, tmax);
  }

  /** While both regions live, meeting in one dimension is having no positive gap. */
  lemma MeetGaps(a: MovingRegion, r: MovingRegion, d: nat, t: real)
    requires a.IsMoving(|a.low|) && r.IsMoving(|a.low|) && d < |a.low|
    requires a.start <= t <= a.end && r.start <= t <= r.end
    ensures MeetDim(a, r, d, t) <==> GapsOf(a, r, d).Meet(t)
  {
    GapLines(a, r, d, t);
  }

  /** The body of the loop over the dimensions. */
  method NarrowDim(a: MovingRegion, r: MovingRegion, d: nat, tmin: real, tmax: real) returns (ok: bool, tmin': real, tmax': real)
    requires a.IsMoving(|a.low|) && r.IsMoving(|a.low|) && d < |a.low|
    ensures SidedIn(GapsOf(a, r, d), tmin, tmax) && ok ==>
      tmin <= tmin' <= tmax' <= tmax && forall t :: tmin <= t <= tmax ==> (GapsOf(a, r, d).Meet(t) <==> tmin' <= t <= tmax')
    ensures tmin <= tmax && !ok ==> forall t :: tmin <= t <= tmax && GapsOf(a, r, d).Meet(t) ==> t == tmax
  {
    hide SidedIn;
    GapLines(a, r, d, tmin);
    GapLines(a, r, d, tmax);
    ghost var s := GapsOf(a, r, d);
    tmin', tmax' := tmin, tmax;
    if (r.ExtrapolatedLow(d, tmin) > a.ExtrapolatedHigh(d, tmin) && r.ExtrapolatedLow(d, tmax) >= a.ExtrapolatedHigh(d, tmax)) ||
       (r.ExtrapolatedHigh(d, tmin) < a.ExtrapolatedLow(d, tmin) && r.ExtrapolatedHigh(d, tmax) <= a.ExtrapolatedLow(d, tmax)) {
      if tmin <= tmax {
        ApartOnce(s, tmin, tmax);
      }
      return false, tmin, tmax;
    }
    SlopesChange(s, tmin, tmax);
    if SidedIn(s, tmin, tmax) {
      NarrowExact(s, tmin, tmax);
    }
    Opposite(a.ExtrapolatedHigh(d, 0.0), r.ExtrapolatedLow(d, 0.0), r.vlow[d] - a.vhigh[d]);
    OppositeSlope(a.ExtrapolatedLow(d, 0.0), r.ExtrapolatedHigh(d, 0.0), r.vhigh[d] - a.vlow[d]);
    if r.ExtrapolatedLow(d, tmin) > a.ExtrapolatedHigh(d, tmin) {
      tmin' := (a.ExtrapolatedHigh(d, 0.0) - r.ExtrapolatedLow(d, 0.0)) / (r.vlow[d] - a.vhigh[d]);
    } else if r.ExtrapolatedHigh(d, tmin) < a.ExtrapolatedLow(d, tmin) {
      tmin' := (a.ExtrapolatedLow(d, 0.0) - r.ExtrapolatedHigh(d, 0.0)) / (r.vhigh[d] - a.vlow[d]);
    }
    if r.ExtrapolatedLow(d, tmax) > a.ExtrapolatedHigh(d, tmax) {
      tmax' := (a.ExtrapolatedHigh(d, 0.0) - r.ExtrapolatedLow(d, 0.0)) / (r.vlow[d] - a.vhigh[d]);
    } else if r.ExtrapolatedHigh(d, tmax) < a.ExtrapolatedLow(d, tmax) {
      tmax' := (a.ExtrapolatedLow(d, 0.0) - r.ExtrapolatedHigh(d, 0.0)) / (r.vhigh[d] - a.vlow[d]);
    }
    assert tmin' == NewMin(s, tmin) && tmax' == NewMax(s, tmax);
    return true, tmin', tmax';
  }

  lemma OppositeSlope(x: real, y: real, g: real)
    ensures g != 0.0 ==> (x - y) / g == -(x - y) / (0.0 - g)
  {
    if g != 0.0 {
      var q := (x - y) / g;
      assert q * g == x - y;
      assert q * (0.0 - g) == -(x - y);
      assert -(x - y) / (0.0 - g) == (q * (0.0 - g)) / (0.0 - g);
    }
  }

  /** The instants of `iv` at which both regions live. */
  ghost predicate Window(a: MovingRegion, r: MovingRegion, iv: Interval, t: real) {
    a.start <= t <= a.end && r.start <= t <= r.end && iv.low <= t <= iv.high
  }

  /** Both regions have no inverted side and never get one. */
  ghost predicate Upright(a: MovingRegion, dim: nat) {
    a.IsMoving(dim) && forall d :: 0 <= d < dim ==> a.low[d] <= a.high[d] && a.vlow[d] <= a.vhigh[d]
  }

  /** At time `t` no side is inverted. */
  ghost predicate ProperAt(a: MovingRegion, dim: nat, t: real)
    requires a.IsMoving(dim)
  {
    forall d :: 0 <= d < dim ==> a.ExtrapolatedLow(d, t) <= a.ExtrapolatedHigh(d, t)
  }

  /** Neither region is inverted at any instant at which both live. */
  ghost predicate ProperIn(a: MovingRegion, r: MovingRegion, iv: Interval, dim: nat)
    requires a.IsMoving(dim) && r.IsMoving(dim)
  {
    forall t :: Window(a, r, iv, t) ==> ProperAt(a, dim, t) && ProperAt(r, dim, t)
  }

  /** A region that stands upright is never inverted. */
  lemma UprightProper(a: MovingRegion, dim: nat, t: real)
    requires Upright(a, dim) && a.start <= t
    ensures ProperAt(a, dim, t)
  {
    forall d | 0 <= d < dim ensures a.ExtrapolatedLow(d, t) <= a.ExtrapolatedHigh(d, t) {
      var s := t - a.start;
      StaysProper(a.vlow[d], a.vhigh[d], s);
      assert a.ExtrapolatedLow(d, t) == a.low[d] + a.vlow[d] * s && a.ExtrapolatedHigh(d, t) == a.high[d] + a.vhigh[d] * s;
    }
  }

  lemma BothUpright(a: MovingRegion, r: MovingRegion, iv: Interval, dim: nat)
    requires Upright(a, dim) && Upright(r, dim)
    ensures ProperIn(a, r, iv, dim)
  {
    forall t | Window(a, r, iv, t) ensures ProperAt(a, dim, t) && ProperAt(r, dim, t) {
      UprightProper(a, dim, t);
      UprightProper(r, dim, t);
    }
  }

  /** One region contains the other throughout the part of `iv` in which the other lives. */
  ghost predicate Nested(a: MovingRegion, r: MovingRegion, iv: Interval, dim: nat)
    requires a.IsMoving(dim) && r.IsMoving(dim)
  {
    && Max(iv.low, r.start) < Min(iv.high, r.end)
    && (forall t :: Common(iv, r, t) ==> a.start <= t <= a.end && InsideAt(a, r, dim, t))
  }

  /** The instants of [tmin, tmax] are those of the window at which the boxes meet in the first `k`
      dimensions. */
  ghost predicate NarrowedTo(a: MovingRegion, r: MovingRegion, iv: Interval, dim: nat, k: nat, tmin: real, tmax: real)
    requires a.IsMoving(dim) && r.IsMoving(dim) && k <= dim
  {
    && tmin <= tmax
    && (forall t :: tmin <= t <= tmax ==> Window(a, r, iv, t))
    && (forall t :: Window(a, r, iv, t) ==> (tmin <= t <= tmax <==> forall d :: 0 <= d < k ==> MeetDim(a, r, d, t)))
  }

  lemma NarrowedStep(a: MovingRegion, r: MovingRegion, iv: Interval, dim: nat, k: nat, tmin: real, tmax: real, tmin': real, tmax': real)
    requires a.IsMoving(dim) && r.IsMoving(dim) && k < dim && NarrowedTo(a, r, iv, dim, k, tmin, tmax)
    requires tmin <= tmin' <= tmax' <= tmax
    requires forall t :: tmin <= t <= tmax ==> (GapsOf(a, r, k).Meet(t) <==> tmin' <= t <= tmax')
    ensures NarrowedTo(a, r, iv, dim, k + 1, tmin', tmax')
  {
    forall t | Window(a, r, iv, t)
      ensures tmin' <= t <= tmax' <==> forall d :: 0 <= d < k + 1 ==> MeetDim(a, r, d, t) {
      MeetGaps(a, r, k, t);
    }
  }

  /** The boxes meet at no more than one instant of the window. */
  ghost predicate MeetOnce(a: MovingRegion, r: MovingRegion, iv: Interval, dim: nat)
    requires a.IsMoving(dim) && r.IsMoving(dim)
  {
    forall t, u :: Window(a, r, iv, t) && Window(a, r, iv, u) && MeetAt(a, r, dim, t) && MeetAt(a, r, dim, u) ==> t == u
  }

  lemma ApartMeetOnce(a: MovingRegion, r: MovingRegion, iv: Interval, dim: nat, k: nat, tmin: real, tmax: real)
    requires a.IsMoving(dim) && r.IsMoving(dim) && k < dim && NarrowedTo(a, r, iv, dim, k, tmin, tmax)
    requires forall t :: tmin <= t <= tmax && GapsOf(a, r, k).Meet(t) ==> t == tmax
    ensures MeetOnce(a, r, iv, dim)
  {
    forall t | Window(a, r, iv, t) && MeetAt(a, r, dim, t) ensures t == tmax {
      assert forall d :: 0 <= d < k ==> MeetDim(a, r, d, t);
      assert MeetDim(a, r, k, t);
      MeetGaps(a, r, k, t);
    }
  }

  /** A box inside another one that is not inverted meets it. */
  lemma NestedMeets(a: MovingRegion, r: MovingRegion, iv: Interval, dim: nat)
    requires a.IsMoving(dim) && r.IsMoving(dim) && Nested(a, r, iv, dim)
    ensures ProperIn(a, r, iv, dim) ==> forall t :: Window(a, r, iv, t) ==> MeetAt(a, r, dim, t)
    ensures Window(a, r, iv, Max(iv.low, r.start))
  {
    forall t | ProperIn(a, r, iv, dim) && Window(a, r, iv, t) ensures MeetAt(a, r, dim, t) {
      assert Common(iv, r, t) && ProperAt(r, dim, t);
      forall d | 0 <= d < dim ensures MeetDim(a, r, d, t) {
        assert InsideDim(a, r, d, t);
        assert r.Low(d, t) == r.ExtrapolatedLow(d, t) <= r.ExtrapolatedHigh(d, t) == r.High(d, t);
      }
    }
    assert Common(iv, r, Max(iv.low, r.start));
  }

  lemma MeetSymmetric(a: MovingRegion, r: MovingRegion, iv: Interval, dim: nat)
    requires a.IsMoving(dim) && r.IsMoving(dim)
    ensures forall t :: Window(r, a, iv, t) && MeetAt(r, a, dim, t) ==> Window(a, r, iv, t) && MeetAt(a, r, dim, t)
    ensures forall t :: Window(a, r, iv, t) ==> Window(r, a, iv, t)
    ensures ProperIn(a, r, iv, dim) ==> ProperIn(r, a, iv, dim)
  {
    forall t | MeetAt(r, a, dim, t) ensures MeetAt(a, r, dim, t) {
      forall d | 0 <= d < dim ensures MeetDim(a, r, d, t) {
        assert MeetDim(r, a, d, t);
      }
    }
  }

  /** `intersectsRegionInTime` for two regions that live in time. While neither is inverted: when neither
      contains the other, a true answer comes with exactly the instants of the window at which the
      boxes meet, and a false answer leaves at most one such instant. When one contains the other the
      answer is true and the interval is the whole period that was asked about. That no region shrinks,
      which the code asserts, is not needed. */
  method IntersectsRegionInTime(a: MovingRegion, iv: Interval, r: MovingRegion, dim: nat) returns (ret: bool, ivOut: Interval)
    requires a.IsMoving(dim) && r.IsMoving(dim)
    requires a.start < a.end && r.start < r.end && iv.low < iv.high
    ensures ProperIn(a, r, iv, dim) && ret && !(Nested(a, r, iv, dim) || Nested(r, a, iv, dim)) ==>
      forall t :: ivOut.low <= t <= ivOut.high <==> Window(a, r, iv, t) && MeetAt(a, r, dim, t)
    ensures Nested(a, r, iv, dim) || Nested(r, a, iv, dim) ==> ret && ivOut == iv
    ensures ProperIn(a, r, iv, dim) && (Nested(a, r, iv, dim) || Nested(r, a, iv, dim)) ==>
      forall t :: Window(a, r, iv, t) ==> MeetAt(a, r, dim, t)
    ensures ProperIn(a, r, iv, dim) && ret ==> exists t :: Window(a, r, iv, t) && MeetAt(a, r, dim, t)
    ensures ProperIn(a, r, iv, dim) && !ret ==> MeetOnce(a, r, iv, dim)
  {
    hide ProperIn;
    ivOut := iv;
    var inside := ContainsRegionInTime(a, iv, r, dim);
    var around := ContainsRegionInTime(r, iv, a, dim);
    if inside || around {
      if inside {
        NestedMeets(a, r, iv, dim);
      } else {
        NestedMeets(r, a, iv, dim);
        MeetSymmetric(a, r, iv, dim);
      }
      ghost var first := Max(iv.low, if inside then r.start else a.start);
      assert ProperIn(a, r, iv, dim) ==> Window(a, r, iv, first) && MeetAt(a, r, dim, first);
      return true, iv;
    }
    ret, ivOut := NarrowAll(a, iv, r, dim);
    assert ProperIn(a, r, iv, dim) && ret ==> Window(a, r, iv, ivOut.low) && MeetAt(a, r, dim, ivOut.low);
  }

  /** Everything after the containment shortcut. */
  method NarrowAll(a: MovingRegion, iv: Interval, r: MovingRegion, dim: nat) returns (ret: bool, ivOut: Interval)
    requires a.IsMoving(dim) && r.IsMoving(dim)
    ensures ProperIn(a, r, iv, dim) && ret ==> ivOut.low <= ivOut.high
    ensures ProperIn(a, r, iv, dim) && ret ==> forall t :: ivOut.low <= t <= ivOut.high <==> Window(a, r, iv, t) && MeetAt(a, r, dim, t)
    ensures ProperIn(a, r, iv, dim) && !ret ==> MeetOnce(a, r, iv, dim)
  {
    ivOut := iv;
    var tmin := Max(a.start, r.start);
    var tmax := Min(a.end, r.end);
    if tmax <= tmin {
      return false, iv;
    }
    tmin := Max(tmin, iv.low);
    tmax := Min(tmax, iv.high);
    if tmax <= tmin {
      return false, iv;
    }
    assert NarrowedTo(a, r, iv, dim, 0, tmin, tmax);
    hide ProperIn, ProperAt, NarrowedTo, SidedIn, MeetOnce;
    for cDim := 0 to dim
      invariant ProperIn(a, r, iv, dim) ==> NarrowedTo(a, r, iv, dim, cDim, tmin, tmax)
    {
      if ProperIn(a, r, iv, dim) {
        SidedThere(a, r, iv, dim, cDim, tmin, tmax);
      }
      var ok, tmin', tmax' := NarrowDim(a, r, cDim, tmin, tmax);
      if !ok {
        if ProperIn(a, r, iv, dim) {
          ApartMeetOnce(a, r, iv, dim, cDim, tmin, tmax);
        }
        return false, iv;
      }
      if ProperIn(a, r, iv, dim) {
        NarrowedStep(a, r, iv, dim, cDim, tmin, tmax, tmin', tmax');
      }
      tmin, tmax := tmin', tmax';
    }
    if ProperIn(a, r, iv, dim) {
      NarrowedEnd(a, r, iv, dim, tmin, tmax);
    }
    return true, Interval(tmin, tmax);
  }

  lemma SidedThere(a: MovingRegion, r: MovingRegion, iv: Interval, dim: nat, d: nat, tmin: real, tmax: real)
    requires a.IsMoving(dim) && r.IsMoving(dim) && d < dim && ProperIn(a, r, iv, dim) && NarrowedTo(a, r, iv, dim, d, tmin, tmax)
    ensures SidedIn(GapsOf(a, r, d), tmin, tmax) && tmin <= tmax
  {
    forall t | tmin <= t <= tmax ensures GapsOf(a, r, d).Above(t) + GapsOf(a, r, d).Beneath(t) <= 0.0 {
      assert Window(a, r, iv, t) && ProperAt(a, dim, t) && ProperAt(r, dim, t);
      OneSided(a, r, d, t);
    }
  }

  lemma NarrowedEnd(a: MovingRegion, r: MovingRegion, iv: Interval, dim: nat, tmin: real, tmax: real)
    requires a.IsMoving(dim) && r.IsMoving(dim) && NarrowedTo(a, r, iv, dim, dim, tmin, tmax)
    ensures tmin <= tmax && forall t :: tmin <= t <= tmax <==> Window(a, r, iv, t) && MeetAt(a, r, dim, t)
  {
  }

  /** With one box containing the other, the interval handed back is the set of meeting instants
      exactly if both regions live through the whole period. */
  lemma ShortcutExact(a: MovingRegion, r: MovingRegion, iv: Interval, dim: nat)
    requires Upright(a, dim) && Upright(r, dim) && Nested(a, r, iv, dim) && iv.low < iv.high
    ensures (forall t :: iv.low <= t <= iv.high <==> Window(a, r, iv, t) && MeetAt(a, r, dim, t))
       <==> (a.start <= iv.low && iv.high <= a.end && r.start <= iv.low && iv.high <= r.end)
  {
    NestedMeets(a, r, iv, dim);
    BothUpright(a, r, iv, dim);
    if forall t :: iv.low <= t <= iv.high <==> Window(a, r, iv, t) && MeetAt(a, r, dim, t) {
      assert Window(a, r, iv, iv.low) && Window(a, r, iv, iv.high);
    }
  }

  // ---------------------------------------------------------------- combineRegionAfterTime

  /** From time `t` on, as long as both keep moving, `m` contains `x`. */
  ghost predicate CoversFrom(m: MovingRegion, x: MovingRegion, dim: nat, t: real)
    requires m.IsMoving(dim) && x.IsMoving(dim)
  {
    forall s, d :: s >= t && 0 <= d < dim ==>
      m.ExtrapolatedLow(d, s) <= x.ExtrapolatedLow(d, s) && x.ExtrapolatedHigh(d, s) <= m.ExtrapolatedHigh(d, s)
  }

  /** A side that starts at or beyond another one and is at least as fast stays beyond it. */
  lemma StaysBeyond(m: MovingRegion, x: MovingRegion, d: nat, t: real, s: real)
    requires m.IsMoving(|m.low|) && x.IsMoving(|m.low|) && d < |m.low| && s >= t
    requires m.ExtrapolatedLow(d, t) <= x.ExtrapolatedLow(d, t) && m.vlow[d] <= x.vlow[d]
    requires x.ExtrapolatedHigh(d, t) <= m.ExtrapolatedHigh(d, t) && x.vhigh[d] <= m.vhigh[d]
    ensures m.ExtrapolatedLow(d, s) <= x.ExtrapolatedLow(d, s) && x.ExtrapolatedHigh(d, s) <= m.ExtrapolatedHigh(d, s)
  {
    hide MovingRegion.ExtrapolatedLow, MovingRegion.ExtrapolatedHigh;
    var e := s - t;
    SidesLater(m, d, t, s, e);
    SidesLater(x, d, t, s, e);
    Ahead(m.ExtrapolatedLow(d, t), x.ExtrapolatedLow(d, t), m.vlow[d], x.vlow[d], e);
    Ahead(x.ExtrapolatedHigh(d, t), m.ExtrapolatedHigh(d, t), x.vhigh[d], m.vhigh[d], e);
  }

  lemma SidesLater(m: MovingRegion, d: nat, t: real, s: real, e: real)
    requires m.IsMoving(|m.low|) && d < |m.low| && e == s - t
    ensures m.ExtrapolatedLow(d, s) == m.ExtrapolatedLow(d, t) + m.vlow[d] * e
    ensures m.ExtrapolatedHigh(d, s) == m.ExtrapolatedHigh(d, t) + m.vhigh[d] * e
  {
    Advance(m.low[d], m.vlow[d], m.start, t, s);
    Advance(m.high[d], m.vhigh[d], m.start, t, s);
  }

  lemma Ahead(p: real, q: real, v: real, w: real, e: real)
    requires p <= q && v <= w && e >= 0.0
    ensures p + v * e <= q + w * e
  {
    StaysProper(v, w, e);
    AddsUp(p, q, v * e, w * e);
  }

  lemma AddsUp(p: real, q: real, x: real, y: real)
    requires p <= q && x <= y
    ensures p + x <= q + y
  {
  }

  lemma Advance(x: real, v: real, start: real, t: real, s: real)
    ensures x + v * (s - start) == (x + v * (t - start)) + v * (s - t)
  {
  }

  /** `combineRegionAfterTime`: the sides at `t` and the velocities of both regions are combined, and
      the result is a region with reference time `t` that contains both for ever after. Its end is the
      later one, or the largest double when that is not after `t`. */
  method CombineRegionAfterTime(a: MovingRegion, t: real, r: MovingRegion, dim: nat) returns (m: MovingRegion)
    requires a.IsMoving(dim) && r.IsMoving(dim)
    ensures m.IsMoving(dim) && m.start == t && CoversFrom(m, a, dim, t) && CoversFrom(m, r, dim, t)
    ensures m.end == if t >= Max(a.end, r.end) then MAX_DOUBLE else Max(a.end, r.end)
    ensures forall d :: 0 <= d < dim ==>
      && m.low[d] == Min(a.ExtrapolatedLow(d, t), r.ExtrapolatedLow(d, t)) && m.vlow[d] == Min(a.vlow[d], r.vlow[d])
      && m.high[d] == Max(a.ExtrapolatedHigh(d, t), r.ExtrapolatedHigh(d, t)) && m.vhigh[d] == Max(a.vhigh[d], r.vhigh[d])
  {
    hide MovingRegion.ExtrapolatedLow, MovingRegion.ExtrapolatedHigh;
    m := a;
    for cDim := 0 to dim
      invariant m.IsMoving(dim) && m.start == a.start && m.end == a.end
      invariant forall d :: 0 <= d < cDim ==>
        && m.low[d] == Min(a.ExtrapolatedLow(d, t), r.ExtrapolatedLow(d, t)) && m.vlow[d] == Min(a.vlow[d], r.vlow[d])
        && m.high[d] == Max(a.ExtrapolatedHigh(d, t), r.ExtrapolatedHigh(d, t)) && m.vhigh[d] == Max(a.vhigh[d], r.vhigh[d])
      invariant forall d :: cDim <= d < dim ==>
        m.low[d] == a.low[d] && m.high[d] == a.high[d] && m.vlow[d] == a.vlow[d] && m.vhigh[d] == a.vhigh[d]
    {
      SameSides(m, a, dim, cDim, t);
      m := m.(low := m.low[cDim := Min(m.ExtrapolatedLow(cDim, t), r.ExtrapolatedLow(cDim, t))]);
      SameSides(m, a, dim, cDim, t);
      m := m.(high := m.high[cDim := Max(m.ExtrapolatedHigh(cDim, t), r.ExtrapolatedHigh(cDim, t))]);
      m := m.(vlow := m.vlow[cDim := Min(m.vlow[cDim], r.vlow[cDim])]);
      m := m.(vhigh := m.vhigh[cDim := Max(m.vhigh[cDim], r.vhigh[cDim])]);
    }
    // the reference time changes last, since the sides were extrapolated from the old one
    m := m.(start := t, end := Max(m.end, r.end));
    if t >= m.end {
      m := m.(end := MAX_DOUBLE);
    }
    CombinedCovers(a, t, r, m, dim);
  }

  /** At its reference time a region is where its stored sides are. */
  lemma AtReference(m: MovingRegion, dim: nat, d: nat, t: real)
    requires m.IsMoving(dim) && d < dim && m.start == t
    ensures m.ExtrapolatedLow(d, t) == m.low[d] && m.ExtrapolatedHigh(d, t) == m.high[d]
  {
  }

  lemma SameSides(m: MovingRegion, a: MovingRegion, dim: nat, d: nat, t: real)
    requires m.IsMoving(dim) && a.IsMoving(dim) && d < dim && m.start == a.start
    ensures m.low[d] == a.low[d] && m.vlow[d] == a.vlow[d] ==> m.ExtrapolatedLow(d, t) == a.ExtrapolatedLow(d, t)
    ensures m.high[d] == a.high[d] && m.vhigh[d] == a.vhigh[d] ==> m.ExtrapolatedHigh(d, t) == a.ExtrapolatedHigh(d, t)
  {
  }

  lemma CombinedCovers(a: MovingRegion, t: real, r: MovingRegion, m: MovingRegion, dim: nat)
    requires a.IsMoving(dim) && r.IsMoving(dim) && m.IsMoving(dim) && m.start == t
    requires forall d :: 0 <= d < dim ==>
      && m.low[d] == Min(a.ExtrapolatedLow(d, t), r.ExtrapolatedLow(d, t)) && m.vlow[d] == Min(a.vlow[d], r.vlow[d])
      && m.high[d] == Max(a.ExtrapolatedHigh(d, t), r.ExtrapolatedHigh(d, t)) && m.vhigh[d] == Max(a.vhigh[d], r.vhigh[d])
    ensures CoversFrom(m, a, dim, t) && CoversFrom(m, r, dim, t)
  {
    forall s, d | s >= t && 0 <= d < dim
      ensures m.ExtrapolatedLow(d, s) <= a.ExtrapolatedLow(d, s) && a.ExtrapolatedHigh(d, s) <= m.ExtrapolatedHigh(d, s)
      ensures m.ExtrapolatedLow(d, s) <= r.ExtrapolatedLow(d, s) && r.ExtrapolatedHigh(d, s) <= m.ExtrapolatedHigh(d, s)
    {
      AtReference(m, dim, d, t);
      StaysBeyond(m, a, d, t, s);
      StaysBeyond(m, r, d, t, s);
    }
  }
}
