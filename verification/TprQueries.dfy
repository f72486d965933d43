/** The time-parameterized tree as an object with a clock: its public operations, range queries over a
    future period, and whole runs against a linear scan. */
module TPRQueries {
  import opened Geometry
  import opened Moving
  import opened Pages
  import opened TPRNodes
  import opened TPRTrees

  datatype QueryKind = Containment | Intersection

  // ---------------------------------------------------------------- what a query can see

  /** The period in which a stored region lives. */
  ghost function Life(x: MovingRegion): Interval {
    Interval(x.start, x.end)
  }

  /** The query meets `x` at some instant. */
  ghost predicate Met(q: MovingRegion, x: MovingRegion, dim: nat)
    requires q.IsMoving(dim) && x.IsMoving(dim)
  {
    exists t :: Window(q, x, Life(x), t) && MeetAt(q, x, dim, t)
  }

  /** The query meets `x` at one instant at most. */
  ghost predicate Missed(q: MovingRegion, x: MovingRegion, dim: nat) {
    q.IsMoving(dim) && x.IsMoving(dim) && MeetOnce(q, x, Life(x), dim)
  }

  /** A query that starts when the box covers what is below it, and misses the box, misses all of that. */
  lemma MissDescends(q: MovingRegion, box: MovingRegion, x: MovingRegion, dim: nat, t: real)
    requires Missed(q, box, dim) && EnclosesOne(box, x, dim, t) && box.end == MAX_DOUBLE && box.start <= t <= q.start
    ensures Missed(q, x, dim)
  {
    forall v, u | Window(q, x, Life(x), v) && Window(q, x, Life(x), u) && MeetAt(q, x, dim, v) && MeetAt(q, x, dim, u) ensures v == u {
      MeetsAround(q, box, x, dim, t, v);
      MeetsAround(q, box, x, dim, t, u);
    }
  }

  lemma MeetsAround(q: MovingRegion, box: MovingRegion, x: MovingRegion, dim: nat, t: real, u: real)
    requires q.IsMoving(dim) && EnclosesOne(box, x, dim, t) && box.end == MAX_DOUBLE && box.start <= t <= q.start
    requires Window(q, x, Life(x), u) && MeetAt(q, x, dim, u)
    ensures Window(q, box, Life(box), u) && MeetAt(q, box, dim, u)
  {
    CoversInside(box, x, dim, t, u);
    forall d | 0 <= d < dim ensures MeetDim(q, box, d, u) {
      assert MeetDim(q, x, d, u) && InsideDim(box, x, d, u);
    }
  }

  /** What lies below a node that the query misses is missed. */
  lemma MissedBelow(n: MNode, q: MovingRegion, P: Params, t: real)
    requires Sound(n, P, t) && Missed(q, n.box, P.dim) && t <= q.start
    ensures forall x :: x in Below(n.entries) ==> Missed(q, x.mbr, P.dim)
  {
    forall x | x in Below(n.entries) ensures Missed(q, x.mbr, P.dim) {
      ItemCovered(n, P, t, x);
      MissDescends(q, n.box, x.mbr, P.dim, t);
    }
  }

  /** A containment query asks that the stored region be inside the query for the whole rest of its life;
      stored regions live to the largest double, so a query that ends before contains none. */
  lemma NeverContained(q: MovingRegion, x: MovingRegion, dim: nat)
    requires q.IsMoving(dim) && Steady(x, dim) && q.end < MAX_DOUBLE && x.start < MAX_DOUBLE
    ensures !(forall t :: Common(Life(x), x, t) ==> q.start <= t <= q.end && InsideAt(q, x, dim, t))
  {
    assert Common(Life(x), x, MAX_DOUBLE);
  }

  /** The test of one box or item against an intersection query; it is right while the box is not
      inverted. */
  method MeetsQuery(q: MovingRegion, x: MovingRegion, dim: nat) returns (b: bool)
    requires q.IsMoving(dim) && x.IsMoving(dim) && q.start < q.end && x.end == MAX_DOUBLE && x.start < MAX_DOUBLE
    ensures ProperIn(q, x, Life(x), dim) ==> if b then Met(q, x, dim) else Missed(q, x, dim)
  {
    var ivOut;
    b, ivOut := IntersectsRegionInTime(q, Interval(x.start, x.end), x, dim);
  }

  /** A box that lives from `t` on is not inverted during a query that starts then or later. */
  lemma LivingProper(q: MovingRegion, x: MovingRegion, dim: nat, t: real)
    requires Upright(q, dim) && Lives(x, dim, t) && t <= q.start
    ensures ProperIn(q, x, Life(x), dim)
  {
    forall u | Window(q, x, Life(x), u) ensures ProperAt(q, dim, u) && ProperAt(x, dim, u) {
      UprightProper(q, dim, u);
      LivesLater(x, dim, t, u);
    }
  }

  // ---------------------------------------------------------------- one node

  /** The items handed out and those passed over; what is passed over is missed if the query starts at `t`
      or later. */
  ghost predicate Sorted(kind: QueryKind, q: MovingRegion, dim: nat, t: real, results: multiset<MEntry>, skipped: multiset<MEntry>) {
    && q.IsMoving(dim)
    && (kind == Intersection ==> (forall x :: x in results ==> x.mbr.IsMoving(dim) && Met(q, x.mbr, dim)) &&
                                 (t <= q.start ==> forall x :: x in skipped ==> Missed(q, x.mbr, dim)))
    && (kind == Containment ==> results == multiset{})
  }

  ghost function Size(es: seq<MEntry>): nat
    decreases es
  {
    if es == [] then 0 else Size(es[..|es|-1]) + SizeOf(es[|es|-1])
  }

  /** The number of nodes behind an entry. */
  ghost function SizeOf(e: MEntry): nat
    decreases e
  {
    match e
    case Item(_, _, _) => 0
    case Sub(_, n) => 1 + Size(n.entries)
  }

  ghost function Work(st: seq<MNode>): nat {
    if st == [] then 0 else Work(st[..|st|-1]) + 1 + Size(st[|st|-1].entries)
  }

  lemma {:induction false} WorkSplit(a: seq<MNode>, b: seq<MNode>)
    ensures Work(a + b) == Work(a) + Work(b) && Held(a + b) == Held(a) + Held(b)
  {
    hide Size, Below;
    if b == [] {
      assert a + b == a;
    } else {
      WorkSplit(a, b[..|b|-1]);
      assert (a + b)[..|a + b|-1] == a + b[..|b|-1];
    }
  }

  /** Nodes that can wait on the stack of a query at time `t`. */
  ghost predicate Ready(st: seq<MNode>, P: Params, t: real) {
    forall i :: 0 <= i < |st| ==> Fit(st[i], false, P, t) && st[i].entries != []
  }

  lemma EntryFacts(n: MNode, P: Params, t: real, i: nat)
    requires Fit(n, false, P, t) && i < |n.entries|
    ensures Lives(n.entries[i].mbr, P.dim, t) && n.entries[i].mbr.IsMoving(P.dim) && n.entries[i].mbr.end == MAX_DOUBLE && n.entries[i].mbr.start <= t
    ensures n.level == 0 ==> n.entries[i].Item? && Of(n.entries[i]) == multiset{n.entries[i]} && Steady(n.entries[i].mbr, P.dim)
    ensures n.level > 0 ==>
      var e := n.entries[i];
      e.Sub? && e.mbr == e.node.box && Fit(e.node, false, P, t) && e.node.entries != [] && Of(e) == Below(e.node.entries)
  {
    var e := n.entries[i];
    assert EntryOk(e, n.level, P, t) && EnclosesOne(n.box, e.mbr, P.dim, t);
  }

  /** A leaf: every item is compared with the query. */
  method ScanLeaf(n: MNode, kind: QueryKind, q: MovingRegion, P: Params, ghost t: real) returns (hits: seq<MEntry>, ghost miss: multiset<MEntry>)
    requires Fit(n, false, P, t) && n.level == 0 && Upright(q, P.dim) && q.start < q.end < MAX_DOUBLE && t < MAX_DOUBLE
    ensures multiset(hits) + miss == Below(n.entries) && Sorted(kind, q, P.dim, t, multiset(hits), miss)
  {
    hide *;
    UprightMoves(q, P.dim);
    hits, miss := [], multiset{};
    SortedNone(kind, q, P.dim, t);
    BelowStart(n.entries);
    for cChild := 0 to |n.entries|
      invariant multiset(hits) + miss == Below(n.entries[..cChild]) && Sorted(kind, q, P.dim, t, multiset(hits), miss)
    {
      EntryFacts(n, P, t, cChild);
      BelowNext(n.entries, cChild);
      var b := TestItem(n.entries[cChild].mbr, kind, q, P.dim);
      SortedNext(kind, q, P.dim, t, multiset(hits), miss, n.entries[cChild], b);
      if b {
        hits := hits + [n.entries[cChild]];
      } else {
        miss := miss + multiset{n.entries[cChild]};
      }
    }
    assert n.entries[..|n.entries|] == n.entries;
  }

  lemma UprightMoves(q: MovingRegion, dim: nat)
    requires Upright(q, dim)
    ensures q.IsMoving(dim)
  {
  }

  method TestItem(x: MovingRegion, kind: QueryKind, q: MovingRegion, dim: nat) returns (b: bool)
    requires Upright(q, dim) && q.start < q.end < MAX_DOUBLE && Steady(x, dim) && x.start < MAX_DOUBLE && q.IsMoving(dim) && x.IsMoving(dim)
    ensures kind == Intersection ==> if b then Met(q, x, dim) else Missed(q, x, dim)
    ensures kind == Containment ==> !b
  {
    if kind == Containment {
      b := ContainsRegionInTime(q, Interval(x.start, x.end), x, dim);
      NeverContained(q, x, dim);
    } else {
      BothUpright(q, x, Life(x), dim);
      b := MeetsQuery(q, x, dim);
    }
  }

  lemma SortedNone(kind: QueryKind, q: MovingRegion, dim: nat, t: real)
    requires q.IsMoving(dim)
    ensures Sorted(kind, q, dim, t, multiset([]), multiset{})
  {
  }

  lemma SortedNext(kind: QueryKind, q: MovingRegion, dim: nat, t: real, results: multiset<MEntry>, skipped: multiset<MEntry>, x: MEntry, b: bool)
    requires Sorted(kind, q, dim, t, results, skipped) && x.mbr.IsMoving(dim)
    requires kind == Intersection ==> if b then Met(q, x.mbr, dim) else Missed(q, x.mbr, dim)
    requires kind == Containment ==> !b
    ensures b ==> Sorted(kind, q, dim, t, results + multiset{x}, skipped)
    ensures !b ==> Sorted(kind, q, dim, t, results, skipped + multiset{x})
  {
    hide Met, Missed;
  }

  lemma SortedMore(kind: QueryKind, q: MovingRegion, dim: nat, t: real, r1: multiset<MEntry>, s1: multiset<MEntry>, r2: multiset<MEntry>, s2: multiset<MEntry>)
    requires Sorted(kind, q, dim, t, r1, s1) && Sorted(kind, q, dim, t, r2, s2)
    ensures Sorted(kind, q, dim, t, r1 + r2, s1 + s2)
  {
    hide Met, Missed;
  }

  /** An index node: the children that the query meets go on the stack. */
  method PushHits(n: MNode, kind: QueryKind, q: MovingRegion, P: Params, ghost t: real) returns (more: seq<MNode>, ghost miss: multiset<MEntry>)
    requires Fit(n, false, P, t) && n.level > 0 && Upright(q, P.dim) && q.start < q.end && t < MAX_DOUBLE
    ensures Held(more) + miss == Below(n.entries) && Work(more) <= Size(n.entries) && Ready(more, P, t)
    ensures Sorted(kind, q, P.dim, t, multiset{}, miss)
  {
    hide *;
    UprightMoves(q, P.dim);
    more, miss := [], multiset{};
    NothingPushed(n, kind, q, P, t);
    for cChild := 0 to |n.entries|
      invariant Held(more) + miss == Below(n.entries[..cChild]) && Work(more) <= Size(n.entries[..cChild]) && Ready(more, P, t)
      invariant Sorted(kind, q, P.dim, t, multiset{}, miss)
    {
      EntryFacts(n, P, t, cChild);
      BelowNext(n.entries, cChild);
      SizeNext(n.entries, cChild);
      var child := n.entries[cChild].node;
      if t <= q.start {
        LivingProper(q, n.entries[cChild].mbr, P.dim, t);
      }
      var b := MeetsQuery(q, n.entries[cChild].mbr, P.dim);
      if b {
        ReadyMore(more, child, P, t);
        more := more + [child];
      } else {
        MissedChild(child, kind, q, P, t, miss);
        miss := miss + Below(child.entries);
      }
    }
    assert n.entries[..|n.entries|] == n.entries;
  }

  lemma NothingPushed(n: MNode, kind: QueryKind, q: MovingRegion, P: Params, t: real)
    requires q.IsMoving(P.dim)
    ensures Held([]) == multiset{} && Below(n.entries[..0]) == multiset{} && Work([]) == 0 && Size(n.entries[..0]) == 0
    ensures Ready([], P, t) && Sorted(kind, q, P.dim, t, multiset{}, multiset{})
  {
  }

  lemma SizeNext(es: seq<MEntry>, k: nat)
    requires k < |es|
    ensures Size(es[..k+1]) == Size(es[..k]) + SizeOf(es[k])
    ensures es[k].Sub? ==> SizeOf(es[k]) == 1 + Size(es[k].node.entries)
  {
    assert es[..k+1][..k] == es[..k];
  }

  lemma ReadyMore(st: seq<MNode>, n: MNode, P: Params, t: real)
    requires Ready(st, P, t) && Fit(n, false, P, t) && n.entries != []
    ensures Ready(st + [n], P, t) && Held(st + [n]) == Held(st) + Below(n.entries) && Work(st + [n]) == Work(st) + 1 + Size(n.entries)
  {
    assert (st + [n])[..|st|] == st;
  }

  lemma MissedChild(n: MNode, kind: QueryKind, q: MovingRegion, P: Params, t: real, miss: multiset<MEntry>)
    requires Fit(n, false, P, t) && (t <= q.start ==> Missed(q, n.box, P.dim)) && Sorted(kind, q, P.dim, t, multiset{}, miss)
    ensures Sorted(kind, q, P.dim, t, multiset{}, miss + Below(n.entries))
  {
    if t <= q.start {
      MissedBelow(n, q, P, t);
    }
    hide Missed;
  }

  // ---------------------------------------------------------------- the tree

  /** The form in which a shape is stored. */
  function Lasting(shape: MovingRegion): MovingRegion {
    shape.(end := MAX_DOUBLE)
  }

  /** From its start to the end of time, `r` is where the sides and velocities of the shape put it. */
  ghost predicate Endless(r: MovingRegion, shape: MovingRegion) {
    && r.IsMoving(|shape.low|) && shape.IsMoving(|shape.low|) && r.start == shape.start && r.end == MAX_DOUBLE
    && forall d: nat, t: real {:trigger r.Low(d, t)} {:trigger r.High(d, t)} :: d < |shape.low| && shape.start <= t <= MAX_DOUBLE ==>
         && r.Low(d, t) == shape.low[d] + shape.vlow[d] * (t - shape.start)
         && r.High(d, t) == shape.high[d] + shape.vhigh[d] * (t - shape.start)
  }

  /** Item `x` is what the tree holds for a shape that was inserted with this id and this data. */
  ghost predicate Stores(x: MEntry, shape: MovingRegion, id: Id, data: seq<bv8>) {
    x.Item? && x.id == id && x.data == data && Endless(x.mbr, shape)
  }

  lemma LastingEndless(shape: MovingRegion)
    requires shape.IsMoving(|shape.low|)
    ensures Endless(Lasting(shape), shape)
  {
  }

  /** No other region moves like that. */
  lemma EndlessOnly(r: MovingRegion, shape: MovingRegion)
    requires Endless(r, shape) && shape.start < MAX_DOUBLE
    ensures r == Lasting(shape)
  {
    var s := Lasting(shape);
    forall d | 0 <= d < |shape.low| ensures r.low[d] == shape.low[d] && r.high[d] == shape.high[d] && r.vlow[d] == shape.vlow[d] && r.vhigh[d] == shape.vhigh[d] {
      EndlessSides(r, shape, d);
      SameLine(r.low[d], r.vlow[d], shape.low[d], shape.vlow[d], shape.start, MAX_DOUBLE);
      SameLine(r.high[d], r.vhigh[d], shape.high[d], shape.vhigh[d], shape.start, MAX_DOUBLE);
    }
    assert r.low == s.low && r.high == s.high && r.vlow == s.vlow && r.vhigh == s.vhigh;
  }

  /** The sides at the start and at the end of time. */
  lemma EndlessSides(r: MovingRegion, shape: MovingRegion, d: nat)
    requires Endless(r, shape) && shape.start < MAX_DOUBLE && d < |shape.low|
    ensures r.low[d] + r.vlow[d] * (shape.start - shape.start) == shape.low[d] + shape.vlow[d] * (shape.start - shape.start)
    ensures r.high[d] + r.vhigh[d] * (shape.start - shape.start) == shape.high[d] + shape.vhigh[d] * (shape.start - shape.start)
    ensures r.low[d] + r.vlow[d] * (MAX_DOUBLE - shape.start) == shape.low[d] + shape.vlow[d] * (MAX_DOUBLE - shape.start)
    ensures r.high[d] + r.vhigh[d] * (MAX_DOUBLE - shape.start) == shape.high[d] + shape.vhigh[d] * (MAX_DOUBLE - shape.start)
  {
    ghost var x, y := shape.start, MAX_DOUBLE;
    assert r.Low(d, x) == shape.low[d] + shape.vlow[d] * (x - x) && r.High(d, x) == shape.high[d] + shape.vhigh[d] * (x - x);
    assert r.Low(d, y) == shape.low[d] + shape.vlow[d] * (y - x) && r.High(d, y) == shape.high[d] + shape.vhigh[d] * (y - x);
  }

  /** Two lines that agree at two times are the same. */
  lemma SameLine(a: real, v: real, c: real, w: real, s: real, t: real)
    requires s < t && a + v * (s - s) == c + w * (s - s) && a + v * (t - s) == c + w * (t - s)
    ensures a == c && v == w
  {
    assert s - s == 0.0 && v * 0.0 == 0.0 && w * 0.0 == 0.0;
    SameSlope(v, w, t - s);
  }

  lemma SameSlope(v: real, w: real, x: real)
    requires x > 0.0
    ensures v * x == w * x ==> v == w
  {
    if v * x == w * x {
      assert (v - w) * x == 0.0;
    }
  }

  class TPRTree {
    const P: Params
    const horizon: real
    var root: MNode
    var currentTime: real
    ghost var latest: real

    /** The clock is at the latest time it ever showed, or has been set back since; what is said of the
        boxes holds from the latest time on. */
    ghost predicate Valid()
      reads this
    {
      P.Sane() && P.variant == RStar && Fit(root, false, P, latest) && -MAX_DOUBLE < currentTime <= latest < MAX_DOUBLE
    }

    ghost function Items(): multiset<MEntry>
      reads `root
    {
      Below(root.entries)
    }

    constructor (P: Params, horizon: real)
      requires P.Sane() && P.variant == RStar
      ensures Valid() && Items() == multiset{} && currentTime == latest == 0.0 && this.P == P && this.horizon == horizon
    {
      this.P, this.horizon := P, horizon;
      root, currentTime, latest := MNode(0, InfiniteRegion(P.dim), []), 0.0, 0.0;
    }

    /** `insertData`: the clock moves to the start of the shape, which is stored as living to the end of
        time. A shape of the wrong dimension, or older than the clock, is refused. */
    method InsertData(shape: MovingRegion, id: Id, data: seq<bv8>) returns (ok: bool, ghost e: MEntry)
      requires Valid() && Upright(shape, |shape.low|) && shape.start < MAX_DOUBLE
      modifies this
      ensures Valid() && (ok <==> |shape.low| == P.dim && shape.start >= old(currentTime))
      ensures ok ==> currentTime == shape.start && latest == Max(old(latest), shape.start)
      ensures ok ==> Stores(e, shape, id, data) && Items() == old(Items()) + multiset{e}
      ensures e == Item(Lasting(shape), id, data)
      ensures !ok ==> currentTime == old(currentTime) && latest == old(latest) && root == old(root)
      ensures ok ==> root.box.start == currentTime
    {
      var item := Item(Lasting(shape), id, data);
      e := item;
      if |shape.low| != P.dim || shape.start < currentTime {
        return false, item;
      }
      ok := true;
      ghost var t := Max(latest, shape.start);
      FitLater(root, P, latest, t);
      ItemOnly(item);
      LastingEndless(shape);
      currentTime, latest := shape.start, t;
      LastingSteady(shape, P.dim);
      SteadyLives(Lasting(shape), P.dim, t);
      root := InsertAt(root, item, 0, P, currentTime, t);
    }

    /** `deleteData`: the clock moves to the end of the shape, forwards or back. A shape that is stored under
        this id is found, unless the clock is then behind its latest time; whatever is taken out has this
        id. */
    method DeleteData(shape: MovingRegion, id: Id) returns (ok: bool, found: bool, ghost gone: MEntry)
      requires Valid() && Upright(shape, |shape.low|) && shape.start < MAX_DOUBLE && -MAX_DOUBLE < shape.end < MAX_DOUBLE
      modifies this
      ensures Valid() && (ok <==> |shape.low| == P.dim)
      ensures ok ==> currentTime == shape.end && latest == Max(old(latest), shape.end)
      ensures ok && found ==> gone.Item? && gone.id == id && Items() + multiset{gone} == old(Items())
      ensures ok && !found ==> root == old(root)
      ensures ok && !found && shape.end >= old(latest) ==> forall x, data :: x in Items() ==> !Stores(x, shape, id, data)
      ensures !ok ==> currentTime == old(currentTime) && latest == old(latest) && root == old(root) && !found
    {
      found, gone := false, Item(shape, id, []);
      if |shape.low| != P.dim {
        return false, false, gone;
      }
      ok := true;
      ghost var t := Max(latest, shape.end);
      FitLater(root, P, latest, t);
      currentTime, latest := shape.end, t;
      hide *;
      LastingSteady(shape, P.dim);
      var l, path;
      PathNone(root.level, P, t);
      AsideNone();
      found, l, path := FindLeaf(root, Lasting(shape), id, [], P, currentTime, t);
      if found {
        ghost var g;
        var now;
        now, g := TPRTrees.DeleteData(l, id, path, P, currentTime, t);
        root, gone := now, g;
      } else if shape.end >= old(latest) {
        NotStored(Items(), shape, id);
      }
    }

    /** `rangeQuery`: refused unless the period of the query starts at the clock or later and ends within
        the horizon. Every item is handed out or passed over as often as it is stored. An intersection
        query hands out only items that it meets; if it starts at the latest time of the clock or later, it
        passes over only items that it meets at one instant at most. A containment query hands out
        nothing. */
    method RangeQuery(kind: QueryKind, query: MovingRegion) returns (ok: bool, results: seq<MEntry>, ghost skipped: multiset<MEntry>)
      requires Valid() && Upright(query, |query.low|) && query.start < query.end < MAX_DOUBLE
      ensures ok <==> |query.low| == P.dim && query.start >= currentTime && query.end < currentTime + horizon
      ensures ok ==> multiset(results) + skipped == Items() && Sorted(kind, query, P.dim, latest, multiset(results), skipped)
      ensures !ok || query.end < root.box.start ==> results == []
    {
      results, skipped := [], multiset{};
      if |query.low| != P.dim || query.start < currentTime || query.end >= currentTime + horizon {
        return false, [], multiset{};
      }
      ok := true;
      results, skipped := QueryLoop(root, kind, query, P, latest);
    }
  }

  lemma NotStored(items: multiset<MEntry>, shape: MovingRegion, id: Id)
    requires shape.start < MAX_DOUBLE && forall x :: x in items ==> !Matches(x, Lasting(shape), id)
    ensures forall x, data :: x in items ==> !Stores(x, shape, id, data)
  {
    forall x, data | x in items ensures !Stores(x, shape, id, data) {
      if Stores(x, shape, id, data) {
        EndlessOnly(x.mbr, shape);
      }
    }
  }

  lemma LastingSteady(shape: MovingRegion, dim: nat)
    requires Upright(shape, |shape.low|) && |shape.low| == dim
    ensures Steady(Lasting(shape), dim) && Lasting(shape).start == shape.start
  {
  }

  /** What holds of a tree from some time on holds from any later time on. */
  lemma FitLater(n: MNode, P: Params, t: real, t': real)
    requires Fit(n, false, P, t) && t <= t'
    ensures Fit(n, false, P, t')
  {
    SoundLater(n, P, t, t');
  }

  lemma {:induction false} SoundLater(n: MNode, P: Params, t: real, t': real)
    requires Sound(n, P, t) && t <= t'
    ensures Sound(n, P, t')
    decreases n
  {
    EnclosesLater(n.box, n.entries, P.dim, t, t');
    hide Encloses;
    forall i | 0 <= i < |n.entries| ensures EntryOk(n.entries[i], n.level, P, t') {
      assert EntryOk(n.entries[i], n.level, P, t);
      if n.level > 0 {
        SoundLater(n.entries[i].node, P, t, t');
      }
    }
  }

  lemma EnclosesLater(m: MovingRegion, es: seq<MEntry>, dim: nat, t: real, t': real)
    requires Encloses(m, es, dim, t) && t <= t'
    ensures Encloses(m, es, dim, t')
  {
    hide Lives, CoversTill;
    EnclosesMoving(m, es, dim, t);
    forall i | 0 <= i < |es| ensures EnclosesOne(m, es[i].mbr, dim, t') {
      assert EnclosesOne(m, es[i].mbr, dim, t);
      LivesLater(es[i].mbr, dim, t, t');
      LivesMoving(es[i].mbr, dim, t);
      CoversLater(m, es[i].mbr, dim, t, t');
    }
    if es != [] {
      LivesLater(m, dim, t, t');
    }
  }

  /** The loop of the range query over the stack of nodes. */
  method QueryLoop(root: MNode, kind: QueryKind, q: MovingRegion, P: Params, ghost t: real) returns (results: seq<MEntry>, ghost skipped: multiset<MEntry>)
    requires Fit(root, false, P, t) && Upright(q, P.dim) && q.start < q.end < MAX_DOUBLE && t < MAX_DOUBLE
    ensures multiset(results) + skipped == Below(root.entries) && Sorted(kind, q, P.dim, t, multiset(results), skipped)
    ensures q.end < root.box.start ==> results == []
  {
    hide *;
    UprightMoves(q, P.dim);
    results, skipped := [], multiset{};
    var st: seq<MNode> := [];
    NothingPushed(root, kind, q, P, t);
    SortedNone(kind, q, P.dim, t);
    if |root.entries| > 0 {
      RootFacts(root, P, t);
      if t <= q.start {
        LivingProper(q, root.box, P.dim, t);
      }
      if q.end < root.box.start {
        NoWindow(q, root.box, P.dim);
      }
      var b := MeetsQuery(q, root.box, P.dim);
      if b {
        st := [root];
        ReadyMore([], root, P, t);
        assert [] + [root] == [root];
      } else {
        MissedChild(root, kind, q, P, t, multiset{});
        skipped := Below(root.entries);
        assert multiset{} + skipped == skipped && multiset(results) == multiset{};
      }
    } else {
      assert root.entries[..0] == root.entries;
    }
    while st != []
      invariant multiset(results) + skipped + Held(st) == Below(root.entries) && Ready(st, P, t)
      invariant Sorted(kind, q, P.dim, t, multiset(results), skipped) && (q.end < root.box.start ==> st == [] && results == [])
      decreases Work(st)
    {
      var n, rest := st[|st|-1], st[..|st|-1];
      ReadyPop(st, P, t);
      if n.level == 0 {
        var hits;
        ghost var miss;
        hits, miss := ScanLeaf(n, kind, q, P, t);
        SortedMore(kind, q, P.dim, t, multiset(results), skipped, multiset(hits), miss);
        Shift(multiset(results), skipped, Held(rest), Below(n.entries), multiset(hits), miss);
        assert multiset(results + hits) == multiset(results) + multiset(hits);
        results, skipped, st := results + hits, skipped + miss, rest;
      } else {
        var more;
        ghost var miss;
        more, miss := PushHits(n, kind, q, P, t);
        SortedMore(kind, q, P.dim, t, multiset(results), skipped, multiset{}, miss);
        WorkSplit(rest, more);
        ReadyBoth(rest, more, P, t);
        ShiftNodes(multiset(results), skipped, Held(rest), Below(n.entries), Held(more), miss);
        skipped, st := skipped + miss, rest + more;
      }
    }
  }

  /** A box whose reference time lies behind the query is not met. */
  lemma NoWindow(q: MovingRegion, x: MovingRegion, dim: nat)
    requires q.IsMoving(dim) && x.IsMoving(dim) && q.end < x.start
    ensures ProperIn(q, x, Life(x), dim) && !Met(q, x, dim)
  {
  }

  lemma RootFacts(root: MNode, P: Params, t: real)
    requires Fit(root, false, P, t) && |root.entries| > 0
    ensures Lives(root.box, P.dim, t) && root.box.IsMoving(P.dim) && root.box.end == MAX_DOUBLE && root.box.start <= t && root.entries != []
  {
  }

  lemma ReadyPop(st: seq<MNode>, P: Params, t: real)
    requires Ready(st, P, t) && st != []
    ensures
      var n, rest := st[|st|-1], st[..|st|-1];
      && Fit(n, false, P, t) && Ready(rest, P, t) && Held(st) == Held(rest) + Below(n.entries)
      && Work(st) == Work(rest) + 1 + Size(n.entries)
  {
  }

  lemma ReadyBoth(a: seq<MNode>, b: seq<MNode>, P: Params, t: real)
    requires Ready(a, P, t) && Ready(b, P, t)
    ensures Ready(a + b, P, t)
  {
  }

  lemma Shift(r: multiset<MEntry>, s: multiset<MEntry>, h: multiset<MEntry>, n: multiset<MEntry>, hits: multiset<MEntry>, miss: multiset<MEntry>)
    requires hits + miss == n
    ensures (r + hits) + (s + miss) + h == r + s + (h + n)
  {
  }

  lemma ShiftNodes(r: multiset<MEntry>, s: multiset<MEntry>, h: multiset<MEntry>, n: multiset<MEntry>, more: multiset<MEntry>, miss: multiset<MEntry>)
    requires more + miss == n
    ensures r + (s + miss) + (h + more) == r + s + (h + n)
    ensures r + multiset{} == r
  {
  }
}
