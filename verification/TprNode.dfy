/** Nodes of the time-parameterized tree: a box with moving sides around entries with moving sides,
    recomputed at the current time of the tree by loops over dimensions and entries. */
module TPRNodes {
  import opened Geometry
  import opened Moving
  import opened Pages
  import opened IndexLists

  /** A node with its level, its moving box and its entries. */
  datatype MNode = MNode(level: nat, box: MovingRegion, entries: seq<MEntry>)

  /** A data entry, or the box stored for a child together with that child. */
  datatype MEntry = Item(mbr: MovingRegion, id: Id, data: seq<bv8>) | Sub(mbr: MovingRegion, node: MNode)

  /** The inverted region that `makeInfinite` builds. */
  function InfiniteRegion(dim: nat): MovingRegion {
    MovingRegion(seq(dim, _ => MAX_DOUBLE), seq(dim, _ => -MAX_DOUBLE), seq(dim, _ => MAX_DOUBLE), seq(dim, _ => -MAX_DOUBLE),
                 -MAX_DOUBLE, MAX_DOUBLE)
  }

  /** A region as it is stored: no side is or gets inverted, and it lives to the largest double. */
  ghost predicate Steady(x: MovingRegion, dim: nat) {
    Upright(x, dim) && x.end == MAX_DOUBLE
  }

  /** From time `t` on the region exists, and no side is or gets inverted. */
  ghost predicate Lives(x: MovingRegion, dim: nat, t: real) {
    && x.IsMoving(dim) && x.end == MAX_DOUBLE && x.start <= t
    && forall d :: 0 <= d < dim ==> x.ExtrapolatedLow(d, t) <= x.ExtrapolatedHigh(d, t) && x.vlow[d] <= x.vhigh[d]
  }

  /** From time `from` to the largest double, `m` contains `x`. */
  ghost predicate CoversTill(m: MovingRegion, x: MovingRegion, dim: nat, from: real)
    requires m.IsMoving(dim) && x.IsMoving(dim)
  {
    forall d: nat, t: real {:trigger m.ExtrapolatedLow(d, t)} {:trigger x.ExtrapolatedLow(d, t)}
      {:trigger m.ExtrapolatedHigh(d, t)} {:trigger x.ExtrapolatedHigh(d, t)} ::
      d < dim && from <= t <= MAX_DOUBLE ==>
        m.ExtrapolatedLow(d, t) <= x.ExtrapolatedLow(d, t) && x.ExtrapolatedHigh(d, t) <= m.ExtrapolatedHigh(d, t)
  }

  /** `m` is a box for `es` from time `t` on: by then it and all entries exist, and it covers them. */
  ghost predicate Encloses(m: MovingRegion, es: seq<MEntry>, dim: nat, t: real) {
    && m.IsMoving(dim) && m.end == MAX_DOUBLE && m.start <= t && (es != [] ==> Lives(m, dim, t))
    && forall i :: 0 <= i < |es| ==> EnclosesOne(m, es[i].mbr, dim, t)
  }

  ghost predicate EnclosesOne(m: MovingRegion, x: MovingRegion, dim: nat, t: real) {
    m.IsMoving(dim) && Lives(x, dim, t) && CoversTill(m, x, dim, t)
  }

  /** All entries exist from time `t` on. */
  ghost predicate Current(es: seq<MEntry>, dim: nat, t: real) {
    forall i :: 0 <= i < |es| ==> Lives(es[i].mbr, dim, t)
  }

  ghost predicate Moves(es: seq<MEntry>, dim: nat) {
    forall i :: 0 <= i < |es| ==> es[i].mbr.IsMoving(dim)
  }

  lemma CurrentMoves(es: seq<MEntry>, dim: nat, t: real)
    requires Current(es, dim, t)
    ensures Moves(es, dim)
  {
  }

  /** A stored region is not inverted at any time from its start on. */
  lemma SteadyLives(x: MovingRegion, dim: nat, t: real)
    requires Steady(x, dim) && x.start <= t
    ensures Lives(x, dim, t)
  {
    UprightProper(x, dim, t);
  }

  /** Regions that live from some time on live from any later time on. */
  lemma LivesLater(x: MovingRegion, dim: nat, t: real, t': real)
    requires Lives(x, dim, t) && t <= t'
    ensures Lives(x, dim, t') && ProperAt(x, dim, t')
  {
    forall d | 0 <= d < dim ensures x.ExtrapolatedLow(d, t') <= x.ExtrapolatedHigh(d, t') {
      Advance(x.low[d], x.vlow[d], x.start, t, t');
      Advance(x.high[d], x.vhigh[d], x.start, t, t');
      StaysProper(x.vlow[d], x.vhigh[d], t' - t);
      assert x.ExtrapolatedLow(d, t') == x.ExtrapolatedLow(d, t) + x.vlow[d] * (t' - t);
      assert x.ExtrapolatedHigh(d, t') == x.ExtrapolatedHigh(d, t) + x.vhigh[d] * (t' - t);
    }
  }

  // ---------------------------------------------------------------- the tight box at a time

  ghost function LowAt(es: seq<MEntry>, dim: nat, d: nat, t: real): (x: real)
    requires Moves(es, dim) && d < dim
  {
    if es == [] then MAX_DOUBLE else Min(LowAt(es[..|es|-1], dim, d, t), es[|es|-1].mbr.ExtrapolatedLow(d, t))
  }

  ghost function HighAt(es: seq<MEntry>, dim: nat, d: nat, t: real): (x: real)
    requires Moves(es, dim) && d < dim
  {
    if es == [] then -MAX_DOUBLE else Max(HighAt(es[..|es|-1], dim, d, t), es[|es|-1].mbr.ExtrapolatedHigh(d, t))
  }

  ghost function LeastV(es: seq<MEntry>, dim: nat, d: nat, t: real): (x: real)
    requires Moves(es, dim) && d < dim
  {
    if es == [] then MAX_DOUBLE else Min(LeastV(es[..|es|-1], dim, d, t), es[|es|-1].mbr.vlow[d])
  }

  ghost function GreatestV(es: seq<MEntry>, dim: nat, d: nat, t: real): (x: real)
    requires Moves(es, dim) && d < dim
  {
    if es == [] then -MAX_DOUBLE else Max(GreatestV(es[..|es|-1], dim, d, t), es[|es|-1].mbr.vhigh[d])
  }

  /** The box recomputed at time `t`: the extreme sides at `t`, each moved outwards by two epsilons, the
      extreme velocities, and `t` as the reference time. */
  ghost predicate TightAt(m: MovingRegion, es: seq<MEntry>, dim: nat, t: real) {
    && m.IsMoving(dim) && Moves(es, dim) && m.start == t
    && forall d: nat :: d < dim ==> TightDim(m, es, dim, d, t)
  }

  ghost predicate TightDim(m: MovingRegion, es: seq<MEntry>, dim: nat, d: nat, t: real)
    requires m.IsMoving(dim) && Moves(es, dim) && d < dim
  {
    && m.low[d] == LowAt(es, dim, d, t) - 2.0 * EPSILON && m.high[d] == HighAt(es, dim, d, t) + 2.0 * EPSILON
    && m.vlow[d] == LeastV(es, dim, d, t) && m.vhigh[d] == GreatestV(es, dim, d, t)
  }

  lemma {:induction false} TightBounds(es: seq<MEntry>, dim: nat, d: nat, t: real, i: nat)
    requires Moves(es, dim) && d < dim && i < |es|
    ensures LowAt(es, dim, d, t) <= es[i].mbr.ExtrapolatedLow(d, t) && es[i].mbr.ExtrapolatedHigh(d, t) <= HighAt(es, dim, d, t)
    ensures LeastV(es, dim, d, t) <= es[i].mbr.vlow[d] && es[i].mbr.vhigh[d] <= GreatestV(es, dim, d, t)
  {
    if i < |es| - 1 {
      TightBounds(es[..|es|-1], dim, d, t, i);
    }
  }

  /** A region that contains another one at its reference time and is at least as fast outwards covers it
      from then on. */
  lemma FasterCovers(m: MovingRegion, x: MovingRegion, dim: nat)
    requires m.IsMoving(dim) && x.IsMoving(dim)
    requires forall d: nat :: d < dim ==>
      && m.low[d] <= x.ExtrapolatedLow(d, m.start) && x.ExtrapolatedHigh(d, m.start) <= m.high[d]
      && m.vlow[d] <= x.vlow[d] && x.vhigh[d] <= m.vhigh[d]
    ensures CoversTill(m, x, dim, m.start)
  {
    forall d: nat, t: real | d < dim && m.start <= t <= MAX_DOUBLE
      ensures m.ExtrapolatedLow(d, t) <= x.ExtrapolatedLow(d, t) && x.ExtrapolatedHigh(d, t) <= m.ExtrapolatedHigh(d, t) {
      AtReference(m, dim, d, m.start);
      StaysBeyond(m, x, d, m.start, t);
    }
  }

  lemma CoversLater(m: MovingRegion, x: MovingRegion, dim: nat, from: real, t: real)
    requires m.IsMoving(dim) && x.IsMoving(dim) && CoversTill(m, x, dim, from) && from <= t
    ensures CoversTill(m, x, dim, t)
  {
  }

  /** What covers a living region and is at least as fast outwards lives itself. */
  lemma CoveringLives(m: MovingRegion, x: MovingRegion, dim: nat, t: real)
    requires m.IsMoving(dim) && m.end == MAX_DOUBLE && m.start <= t <= MAX_DOUBLE && Lives(x, dim, t) && CoversTill(m, x, dim, t)
    requires forall d :: 0 <= d < dim ==> m.vlow[d] <= x.vlow[d] && x.vhigh[d] <= m.vhigh[d]
    ensures Lives(m, dim, t)
  {
    hide MovingRegion.ExtrapolatedLow, MovingRegion.ExtrapolatedHigh;
    forall d: nat | d < dim ensures m.ExtrapolatedLow(d, t) <= m.ExtrapolatedHigh(d, t) {
      assert m.ExtrapolatedLow(d, t) <= x.ExtrapolatedLow(d, t) <= x.ExtrapolatedHigh(d, t) <= m.ExtrapolatedHigh(d, t);
    }
  }

  /** The box recomputed at time `now` encloses all entries from any later time on at which they exist. */
  lemma TightEncloses(m: MovingRegion, es: seq<MEntry>, dim: nat, now: real, t: real)
    requires TightAt(m, es, dim, now) && m.end == MAX_DOUBLE && now <= t <= MAX_DOUBLE && Current(es, dim, t)
    ensures Encloses(m, es, dim, t)
  {
    hide LowAt, HighAt, LeastV, GreatestV, MovingRegion.ExtrapolatedLow, MovingRegion.ExtrapolatedHigh, CoversTill, Lives;
    forall i | 0 <= i < |es| ensures EnclosesOne(m, es[i].mbr, dim, t) {
      TightCovers(m, es, dim, now, t, i);
    }
    if es != [] {
      assert EnclosesOne(m, es[0].mbr, dim, t);
      TightCovers(m, es, dim, now, t, 0);
      CoveringLives(m, es[0].mbr, dim, t);
    }
  }

  lemma TightCovers(m: MovingRegion, es: seq<MEntry>, dim: nat, now: real, t: real, i: nat)
    requires TightAt(m, es, dim, now) && now <= t && i < |es|
    ensures es[i].mbr.IsMoving(dim) && CoversTill(m, es[i].mbr, dim, t)
    ensures forall d :: 0 <= d < dim ==> m.vlow[d] <= es[i].mbr.vlow[d] && es[i].mbr.vhigh[d] <= m.vhigh[d]
  {
    hide LowAt, HighAt, LeastV, GreatestV, MovingRegion.ExtrapolatedLow, MovingRegion.ExtrapolatedHigh, CoversTill;
    forall d: nat | d < dim
      ensures m.low[d] <= es[i].mbr.ExtrapolatedLow(d, now) && es[i].mbr.ExtrapolatedHigh(d, now) <= m.high[d]
      ensures m.vlow[d] <= es[i].mbr.vlow[d] && es[i].mbr.vhigh[d] <= m.vhigh[d] {
      assert TightDim(m, es, dim, d, now);
      TightBounds(es, dim, d, now, i);
    }
    FasterCovers(m, es[i].mbr, dim);
    CoversLater(m, es[i].mbr, dim, now, t);
  }

  /** A region that contains a living one at all instants from `now` on covers it. */
  lemma InsideCovers(m: MovingRegion, x: MovingRegion, dim: nat, now: real, t: real)
    requires m.IsMoving(dim) && Lives(x, dim, t) && m.end == MAX_DOUBLE && now <= t
    requires forall u :: Common(Interval(now, x.end), x, u) ==> m.start <= u <= m.end && InsideAt(m, x, dim, u)
    ensures CoversTill(m, x, dim, t)
  {
    forall d: nat, u: real | d < dim && t <= u <= MAX_DOUBLE
      ensures m.ExtrapolatedLow(d, u) <= x.ExtrapolatedLow(d, u) && x.ExtrapolatedHigh(d, u) <= m.ExtrapolatedHigh(d, u) {
      assert Common(Interval(now, x.end), x, u);
      assert InsideDim(m, x, d, u);
    }
  }

  /** Covering, said with the sides of living regions. */
  lemma CoversInside(m: MovingRegion, x: MovingRegion, dim: nat, t: real, u: real)
    requires m.IsMoving(dim) && m.end == MAX_DOUBLE && m.start <= t && Lives(x, dim, t) && CoversTill(m, x, dim, t)
    requires t <= u <= MAX_DOUBLE
    ensures InsideAt(m, x, dim, u)
  {
    forall d | 0 <= d < dim ensures InsideDim(m, x, d, u) {
      assert m.ExtrapolatedLow(d, u) <= x.ExtrapolatedLow(d, u);
    }
  }

  lemma CoversTransitive(a: MovingRegion, b: MovingRegion, c: MovingRegion, dim: nat, from: real)
    requires a.IsMoving(dim) && b.IsMoving(dim) && c.IsMoving(dim)
    requires CoversTill(a, b, dim, from) && CoversTill(b, c, dim, from)
    ensures CoversTill(a, c, dim, from)
  {
    hide MovingRegion.ExtrapolatedLow, MovingRegion.ExtrapolatedHigh;
    forall d: nat, t: real | d < dim && from <= t <= MAX_DOUBLE
      ensures a.ExtrapolatedLow(d, t) <= c.ExtrapolatedLow(d, t) && c.ExtrapolatedHigh(d, t) <= a.ExtrapolatedHigh(d, t) {
      assert a.ExtrapolatedLow(d, t) <= b.ExtrapolatedLow(d, t) <= c.ExtrapolatedLow(d, t);
    }
  }

  /** From time `t` to the end of its life `r` is inside `a`. */
  ghost predicate InsideAfter(a: MovingRegion, t: real, r: MovingRegion, dim: nat)
    requires a.IsMoving(dim) && r.IsMoving(dim)
  {
    && Max(t, r.start) < Min(r.end, r.end)
    && (forall u :: Common(Interval(t, r.end), r, u) ==> a.start <= u <= a.end && InsideAt(a, r, dim, u))
  }

  /** `containsRegionAfterTime`. */
  method ContainsRegionAfterTime(a: MovingRegion, t: real, r: MovingRegion, dim: nat) returns (ret: bool)
    requires a.IsMoving(dim) && r.IsMoving(dim)
    ensures ret <==> InsideAfter(a, t, r, dim)
  {
    ret := ContainsRegionInTime(a, Interval(t, r.end), r, dim);
  }

  // ---------------------------------------------------------------- the node in memory

  lemma FoldNone(es: seq<MEntry>, dim: nat, d: nat, t: real)
    requires d < dim
    ensures Moves(es[..0], dim)
    ensures LowAt(es[..0], dim, d, t) == LeastV(es[..0], dim, d, t) == MAX_DOUBLE
    ensures HighAt(es[..0], dim, d, t) == GreatestV(es[..0], dim, d, t) == -MAX_DOUBLE
  {
  }

  /** One more entry in the inner loop of the recomputation. */
  lemma FoldNext(es: seq<MEntry>, k: nat, dim: nat, d: nat, t: real)
    requires Moves(es, dim) && k < |es| && d < dim
    ensures Moves(es[..k], dim) && Moves(es[..k+1], dim)
    ensures LowAt(es[..k+1], dim, d, t) == Min(LowAt(es[..k], dim, d, t), es[k].mbr.ExtrapolatedLow(d, t))
    ensures HighAt(es[..k+1], dim, d, t) == Max(HighAt(es[..k], dim, d, t), es[k].mbr.ExtrapolatedHigh(d, t))
    ensures LeastV(es[..k+1], dim, d, t) == Min(LeastV(es[..k], dim, d, t), es[k].mbr.vlow[d])
    ensures GreatestV(es[..k+1], dim, d, t) == Max(GreatestV(es[..k], dim, d, t), es[k].mbr.vhigh[d])
  {
    assert es[..k+1][..k] == es[..k];
  }

  class TPRNode {
    const dim: nat
    const capacity: nat
    var level: nat
    var mbr: MovingRegion
    var entries: seq<MEntry>

    ghost function Value(): MNode
      reads `level, `mbr, `entries
    {
      MNode(level, mbr, entries)
    }

    /** A new node without entries. */
    constructor (dim: nat, capacity: nat, level: nat)
      ensures this.dim == dim && this.capacity == capacity && this.level == level && mbr == InfiniteRegion(dim) && entries == []
    {
      this.dim, this.capacity, this.level, mbr, entries := dim, capacity, level, InfiniteRegion(dim), [];
    }

    constructor Load(dim: nat, capacity: nat, n: MNode)
      ensures this.dim == dim && this.capacity == capacity && Value() == n
    {
      this.dim, this.capacity, level, mbr, entries := dim, capacity, n.level, n.box, n.entries;
    }

    /** The inner loop of the recomputation: the extremes of all entries in one dimension. */
    method RecomputeDim(cDim: nat, t: real)
      requires cDim < dim && mbr.IsMoving(dim) && Moves(entries, dim) && mbr.start == t
      modifies `mbr
      ensures mbr.IsMoving(dim) && mbr.start == t && mbr.end == old(mbr.end) && TightDim(mbr, entries, dim, cDim, t)
      ensures forall d :: 0 <= d < dim && d != cDim ==>
        && mbr.low[d] == old(mbr.low[d]) && mbr.high[d] == old(mbr.high[d])
        && mbr.vlow[d] == old(mbr.vlow[d]) && mbr.vhigh[d] == old(mbr.vhigh[d])
    {
      hide LowAt, HighAt, LeastV, GreatestV;
      var low, high, vlow, vhigh := MAX_DOUBLE, -MAX_DOUBLE, MAX_DOUBLE, -MAX_DOUBLE;
      FoldNone(entries, dim, cDim, t);
      for cChild := 0 to |entries|
        invariant mbr == old(mbr) && entries == old(entries) && Moves(entries[..cChild], dim)
        invariant low == LowAt(entries[..cChild], dim, cDim, t) && high == HighAt(entries[..cChild], dim, cDim, t)
        invariant vlow == LeastV(entries[..cChild], dim, cDim, t) && vhigh == GreatestV(entries[..cChild], dim, cDim, t)
      {
        FoldNext(entries, cChild, dim, cDim, t);
        low := Min(low, entries[cChild].mbr.ExtrapolatedLow(cDim, t));
        high := Max(high, entries[cChild].mbr.ExtrapolatedHigh(cDim, t));
        vlow := Min(vlow, entries[cChild].mbr.vlow[cDim]);
        vhigh := Max(vhigh, entries[cChild].mbr.vhigh[cDim]);
      }
      assert entries[..|entries|] == entries;
      mbr := mbr.(low := mbr.low[cDim := low - 2.0 * EPSILON], high := mbr.high[cDim := high + 2.0 * EPSILON],
                  vlow := mbr.vlow[cDim := vlow], vhigh := mbr.vhigh[cDim := vhigh]);
    }

    /** The recomputation of the node's box at the current time `now`; the entries all exist by `t`. */
    method Recompute(now: real, ghost t: real)
      requires mbr.IsMoving(dim) && mbr.end == MAX_DOUBLE && Current(entries, dim, t) && now <= t <= MAX_DOUBLE
      modifies `mbr
      ensures TightAt(mbr, entries, dim, now) && mbr.end == MAX_DOUBLE && Encloses(mbr, entries, dim, t)
    {
      hide LowAt, HighAt, LeastV, GreatestV, Encloses, Current;
      CurrentMoves(entries, dim, t);
      mbr := mbr.(start := now);
      for cDim := 0 to dim
        invariant mbr.IsMoving(dim) && mbr.start == now && mbr.end == MAX_DOUBLE
        invariant forall d: nat :: d < cDim ==> TightDim(mbr, entries, dim, d, now)
      {
        ghost var before := mbr;
        RecomputeDim(cDim, now);
        forall d: nat | d < cDim ensures TightDim(mbr, entries, dim, d, now) {
          assert TightDim(before, entries, dim, d, now);
        }
      }
      TightEncloses(mbr, entries, dim, now, t);
    }

    /** `insertEntry` at the current time `now`: a box of another time is recomputed, one of this time is
        extended where the new entry is not contained. */
    method InsertEntry(e: MEntry, now: real, ghost t: real)
      requires Encloses(mbr, entries, dim, t) && Lives(e.mbr, dim, t) && now <= t <= MAX_DOUBLE
      requires |entries| < capacity && (entries == [] ==> mbr.start != now)
      modifies `mbr, `entries
      ensures entries == old(entries) + [e] && Encloses(mbr, entries, dim, t) && mbr.start == now
      ensures old(mbr.start) != now ==> TightAt(mbr, entries, dim, now)
      ensures old(mbr).IsMoving(dim) && e.mbr.IsMoving(dim)
      ensures old(mbr.start) == now && InsideAfter(old(mbr), now, e.mbr, dim) ==> mbr == old(mbr)
      ensures old(mbr.start) == now && !InsideAfter(old(mbr), now, e.mbr, dim) ==> Stretched(mbr, old(mbr), e.mbr, dim, now)
    {
      hide LowAt, HighAt, LeastV, GreatestV, TightDim, CoversTill, Lives, StretchedDim, InsideAfter, Encloses, Current;
      ghost var was, es := mbr, entries;
      EnclosesCurrent(mbr, entries, dim, t);
      entries := entries + [e];
      CurrentMore(es, e, dim, t);
      EnclosesMoving(was, es, dim, t);
      LivesMoving(e.mbr, dim, t);
      if mbr.start != now {
        Recompute(now, t);
      } else {
        var contained := ContainsRegionAfterTime(mbr, now, e.mbr, dim);
        if contained {
          InsideAfterCovers(mbr, e.mbr, dim, now, t);
        } else {
          Extend(e.mbr, now, es);
          CoversLater(mbr, e.mbr, dim, now, t);
          CoversLater(mbr, was, dim, now, t);
          CoveringLives(mbr, was, dim, t);
        }
        EnclosesMore(was, mbr, es, e, dim, t);
      }
    }

    /** The loop of the second branch: every side that the new entry reaches moves to it and two epsilons
        beyond, and the velocities become the extreme ones. */
    method Extend(x: MovingRegion, t: real, ghost es: seq<MEntry>)
      requires mbr.IsMoving(dim) && x.IsMoving(dim) && mbr.start == t
      modifies `mbr
      ensures mbr.IsMoving(dim) && mbr.start == t && mbr.end == old(mbr.end)
      ensures CoversTill(mbr, x, dim, t) && CoversTill(mbr, old(mbr), dim, t)
      ensures forall d :: 0 <= d < dim ==> mbr.vlow[d] <= old(mbr).vlow[d] && old(mbr).vhigh[d] <= mbr.vhigh[d]
      ensures Stretched(mbr, old(mbr), x, dim, t)
    {
      hide MovingRegion.ExtrapolatedLow, MovingRegion.ExtrapolatedHigh, CoversTill;
      ghost var was := mbr;
      for cDim := 0 to dim
        invariant mbr.IsMoving(dim) && mbr.start == t && mbr.end == was.end
        invariant forall d: nat :: d < cDim ==> StretchedDim(mbr, was, x, d, t)
        invariant forall d :: cDim <= d < dim ==>
          mbr.low[d] == was.low[d] && mbr.high[d] == was.high[d] && mbr.vlow[d] == was.vlow[d] && mbr.vhigh[d] == was.vhigh[d]
      {
        ghost var before := mbr;
        AtReference(mbr, dim, cDim, t);
        AtReference(was, dim, cDim, t);
        var l := mbr.ExtrapolatedLow(cDim, t);
        var rl := x.ExtrapolatedLow(cDim, t);
        if rl <= l {
          mbr := mbr.(low := mbr.low[cDim := rl - 2.0 * EPSILON]);
        }
        AtReference(mbr, dim, cDim, t);
        var h := mbr.ExtrapolatedHigh(cDim, t);
        var rh := x.ExtrapolatedHigh(cDim, t);
        if rh >= h {
          mbr := mbr.(high := mbr.high[cDim := rh + 2.0 * EPSILON]);
        }
        mbr := mbr.(vlow := mbr.vlow[cDim := Min(mbr.vlow[cDim], x.vlow[cDim])], vhigh := mbr.vhigh[cDim := Max(mbr.vhigh[cDim], x.vhigh[cDim])]);
        forall d: nat | d < cDim ensures StretchedDim(mbr, was, x, d, t) {
          assert StretchedDim(before, was, x, d, t);
        }
      }
      forall d: nat | d < dim ensures Wider(mbr, was, x, d, t) {
        assert StretchedDim(mbr, was, x, d, t);
      }
      WiderCovers(mbr, was, x, dim, t);
    }

    /** `deleteEntry` at the current time `now`. */
    method DeleteEntry(index: nat, now: real, ghost t: real)
      requires index < |entries| && Encloses(mbr, entries, dim, t) && now <= t <= MAX_DOUBLE && -MAX_DOUBLE <= t
      modifies `mbr, `entries
      ensures entries == Without(old(entries), index) && Encloses(mbr, entries, dim, t)
      ensures mbr.start == if entries == [] then -MAX_DOUBLE else now
      ensures if entries == [] then mbr == InfiniteRegion(dim) else TightAt(mbr, entries, dim, now)
    {
      hide Without, CoversTill, Lives, TightDim;
      ghost var was, es := mbr, entries;
      EnclosesCurrent(was, es, dim, t);
      EnclosesMoving(was, es, dim, t);
      entries := Without(entries, index);
      CurrentLess(es, index, dim, t);
      if entries == [] {
        mbr := InfiniteRegion(dim);
      } else {
        Recompute(now, t);
      }
    }
  }

  /** `m` is `was` with every side that `x` reaches at `t` moved to it and two epsilons beyond, and with the
      extreme velocities of both. */
  ghost predicate Stretched(m: MovingRegion, was: MovingRegion, x: MovingRegion, dim: nat, t: real) {
    && m.IsMoving(dim) && was.IsMoving(dim) && x.IsMoving(dim) && m.start == t
    && forall d: nat :: d < dim ==> StretchedDim(m, was, x, d, t)
  }

  ghost predicate StretchedDim(m: MovingRegion, was: MovingRegion, x: MovingRegion, d: nat, t: real)
    requires m.IsMoving(|m.low|) && was.IsMoving(|m.low|) && x.IsMoving(|m.low|) && d < |m.low|
  {
    && m.low[d] == (if x.ExtrapolatedLow(d, t) <= was.low[d] then x.ExtrapolatedLow(d, t) - 2.0 * EPSILON else was.low[d])
    && m.high[d] == (if x.ExtrapolatedHigh(d, t) >= was.high[d] then x.ExtrapolatedHigh(d, t) + 2.0 * EPSILON else was.high[d])
    && m.vlow[d] == Min(was.vlow[d], x.vlow[d]) && m.vhigh[d] == Max(was.vhigh[d], x.vhigh[d])
  }

  lemma InsideAfterCovers(m: MovingRegion, x: MovingRegion, dim: nat, now: real, t: real)
    requires m.IsMoving(dim) && Lives(x, dim, t) && m.end == MAX_DOUBLE && now <= t && x.IsMoving(dim)
    requires InsideAfter(m, now, x, dim)
    ensures CoversTill(m, x, dim, t)
  {
    InsideCovers(m, x, dim, now, t);
  }

  lemma LivesMoving(x: MovingRegion, dim: nat, t: real)
    requires Lives(x, dim, t)
    ensures x.IsMoving(dim) && x.end == MAX_DOUBLE
  {
  }

  lemma EnclosesMoving(m: MovingRegion, es: seq<MEntry>, dim: nat, t: real)
    requires Encloses(m, es, dim, t)
    ensures m.IsMoving(dim) && m.end == MAX_DOUBLE && m.start <= t && (es != [] ==> Lives(m, dim, t))
  {
  }

  lemma EnclosesCurrent(m: MovingRegion, es: seq<MEntry>, dim: nat, t: real)
    requires Encloses(m, es, dim, t)
    ensures Current(es, dim, t)
  {
    forall i | 0 <= i < |es| ensures Lives(es[i].mbr, dim, t) {
      assert EnclosesOne(m, es[i].mbr, dim, t);
    }
  }

  lemma CurrentMore(es: seq<MEntry>, e: MEntry, dim: nat, t: real)
    requires Current(es, dim, t) && Lives(e.mbr, dim, t)
    ensures Current(es + [e], dim, t)
  {
  }

  lemma CurrentLess(es: seq<MEntry>, index: nat, dim: nat, t: real)
    requires Current(es, dim, t) && index < |es|
    ensures Current(Without(es, index), dim, t)
  {
  }

  /** A box that covers the old box and the new entry encloses both. */
  lemma EnclosesMore(was: MovingRegion, m: MovingRegion, es: seq<MEntry>, e: MEntry, dim: nat, t: real)
    requires Encloses(was, es, dim, t) && es != [] && m.IsMoving(dim) && m.start == was.start && m.end == MAX_DOUBLE
    requires Lives(e.mbr, dim, t) && CoversTill(m, e.mbr, dim, t)
    requires m == was || (Lives(m, dim, t) && CoversTill(m, was, dim, t))
    ensures Encloses(m, es + [e], dim, t)
  {
    hide CoversTill, Lives;
    forall i | 0 <= i < |es + [e]| ensures EnclosesOne(m, (es + [e])[i].mbr, dim, t) {
      if i < |es| {
        assert EnclosesOne(was, es[i].mbr, dim, t);
        LivesMoving(es[i].mbr, dim, t);
        if m != was {
          CoversTransitive(m, was, es[i].mbr, dim, t);
        }
      }
    }
  }

  /** In dimension `d`, `m` is at least as wide and fast as both regions. */
  ghost predicate Wider(m: MovingRegion, was: MovingRegion, x: MovingRegion, d: nat, t: real)
    requires m.IsMoving(|m.low|) && was.IsMoving(|m.low|) && x.IsMoving(|m.low|) && d < |m.low|
  {
    && m.low[d] <= was.low[d] && m.low[d] <= x.ExtrapolatedLow(d, t) && was.high[d] <= m.high[d] && x.ExtrapolatedHigh(d, t) <= m.high[d]
    && m.vlow[d] <= was.vlow[d] && m.vlow[d] <= x.vlow[d] && was.vhigh[d] <= m.vhigh[d] && x.vhigh[d] <= m.vhigh[d]
  }

  lemma WiderCovers(m: MovingRegion, was: MovingRegion, x: MovingRegion, dim: nat, t: real)
    requires m.IsMoving(dim) && was.IsMoving(dim) && x.IsMoving(dim) && m.start == was.start == t
    requires forall d: nat :: d < dim ==> Wider(m, was, x, d, t)
    ensures CoversTill(m, x, dim, t) && CoversTill(m, was, dim, t)
    ensures forall d :: 0 <= d < dim ==> m.vlow[d] <= was.vlow[d] && was.vhigh[d] <= m.vhigh[d]
  {
    hide MovingRegion.ExtrapolatedLow, MovingRegion.ExtrapolatedHigh, CoversTill;
    forall d: nat | d < dim
      ensures m.low[d] <= x.ExtrapolatedLow(d, t) && x.ExtrapolatedHigh(d, t) <= m.high[d]
      ensures m.low[d] <= was.ExtrapolatedLow(d, t) && was.ExtrapolatedHigh(d, t) <= m.high[d]
      ensures m.vlow[d] <= x.vlow[d] && x.vhigh[d] <= m.vhigh[d] && m.vlow[d] <= was.vlow[d] && was.vhigh[d] <= m.vhigh[d] {
      assert Wider(m, was, x, d, t);
      AtReference(was, dim, d, t);
    }
    FasterCovers(m, x, dim);
    FasterCovers(m, was, dim);
  }
}
