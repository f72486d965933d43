/** Whole timed runs of the time-parameterized tree against a linear scan. */
module TPRRuns {
  import opened Geometry
  import opened Lists
  import opened Moving
  import opened Pages
  import opened TPRNodes
  import opened TPRTrees
  import opened TPRQueries

  datatype TimedOp = Add(shape: MovingRegion, id: Id, data: seq<bv8>) | Remove(shape: MovingRegion, id: Id)

  /** A shape that was added, with its data. */
  datatype Object = Object(shape: MovingRegion, data: seq<bv8>)

  /** The clock and the objects of the scan, by their ids. */
  datatype Moment = Moment(time: real, objects: map<Id, Object>)

  /** The linear scan: an addition in time is listed under its id, a removal strikes out what is listed. */
  ghost function ScanStep(m: Moment, op: TimedOp, dim: nat): Moment {
    if |op.shape.low| != dim then m
    else match op
      case Add(shape, id, data) => if shape.start < m.time then m else Moment(shape.start, m.objects[id := Object(shape, data)])
      case Remove(shape, id) => Moment(shape.end, m.objects - {id})
  }

  ghost function ScanOver(ops: seq<TimedOp>, dim: nat): Moment {
    if ops == [] then Moment(0.0, map[]) else ScanStep(ScanOver(ops[..|ops|-1], dim), ops[|ops|-1], dim)
  }

  /** Two shapes that differ at most in their ends. */
  ghost predicate SameCourse(a: MovingRegion, b: MovingRegion) {
    a.low == b.low && a.high == b.high && a.vlow == b.vlow && a.vhigh == b.vhigh && a.start == b.start
  }

  /** What callers owe the tree: shapes that are not inverted; additions under new ids; removals that name
      the present time as their end, and the shape that was added under the id, if one was. */
  ghost predicate Allowed(m: Moment, op: TimedOp) {
    && Upright(op.shape, |op.shape.low|) && op.shape.start < MAX_DOUBLE
    && match op
       case Add(shape, id, data) => id !in m.objects
       case Remove(shape, id) => m.time <= shape.end < MAX_DOUBLE && (id in m.objects ==> SameCourse(m.objects[id].shape, shape))
  }

  ghost predicate Orderly(ops: seq<TimedOp>, dim: nat) {
    forall i :: 0 <= i < |ops| ==> Allowed(ScanOver(ops[..i], dim), ops[i])
  }

  /** What the scan answers: whether the addition was in time, whether the removal found the object. */
  ghost predicate Answer(m: Moment, op: TimedOp, dim: nat) {
    && |op.shape.low| == dim
    && match op
       case Add(shape, id, data) => shape.start >= m.time
       case Remove(shape, id) => id in m.objects
  }

  // ---------------------------------------------------------------- the items of the tree and the objects

  ghost predicate Listed(items: multiset<MEntry>, id: Id) {
    exists x :: x in items && x.Item? && x.id == id
  }

  /** The items of the tree are those for the objects, one for each. */
  ghost predicate Represents(items: multiset<MEntry>, objects: map<Id, Object>) {
    && (forall x :: x in items ==>
          x.Item? && items[x] == 1 && x.id in objects && Stores(x, objects[x.id].shape, x.id, objects[x.id].data))
    && (forall id :: id in objects ==> Listed(items, id))
    && (forall x, y {:trigger items[x], items[y]} :: x in items && y in items && x.Item? && y.Item? && x.id == y.id ==> x == y)
  }

  lemma AddKeeps(items: multiset<MEntry>, objects: map<Id, Object>, x: MEntry, shape: MovingRegion, id: Id, data: seq<bv8>)
    requires Represents(items, objects) && id !in objects && Stores(x, shape, id, data)
    ensures Represents(items + multiset{x}, objects[id := Object(shape, data)])
  {
    hide Stores;
    StoresId(x, shape, id, data);
    var after := items + multiset{x};
    assert x !in items;
    assert forall y :: after[y] == items[y] + (if y == x then 1 else 0);
    forall i | i in objects[id := Object(shape, data)] ensures Listed(after, i) {
      if i == id {
        assert x in after;
      } else {
        assert Listed(items, i);
        var y :| y in items && y.Item? && y.id == i;
        assert y in after;
      }
    }
  }

  lemma StoresId(x: MEntry, shape: MovingRegion, id: Id, data: seq<bv8>)
    requires Stores(x, shape, id, data)
    ensures x.Item? && x.id == id
  {
  }

  lemma RemoveKeeps(items: multiset<MEntry>, objects: map<Id, Object>, gone: MEntry, rest: multiset<MEntry>)
    requires Represents(items, objects) && gone.Item? && rest + multiset{gone} == items
    ensures gone.id in objects && Represents(rest, objects - {gone.id})
  {
    hide Stores;
    assert gone in items && items[gone] == 1;
    assert forall y :: items[y] == rest[y] + (if y == gone then 1 else 0);
    forall i | i in objects - {gone.id} ensures Listed(rest, i) {
      assert Listed(items, i);
      var y :| y in items && y.Item? && y.id == i;
      assert y in rest;
    }
  }

  lemma NoneListed(items: multiset<MEntry>, objects: map<Id, Object>, shape: MovingRegion, id: Id)
    requires Represents(items, objects) && (id in objects ==> SameCourse(objects[id].shape, shape))
    requires forall x, data :: x in items ==> !Stores(x, shape, id, data)
    ensures id !in objects && objects - {id} == objects
  {
    if id in objects {
      assert Listed(items, id);
      var x :| x in items && x.Item? && x.id == id;
      assert Stores(x, shape, id, objects[id].data);
    }
  }

  lemma AllowedFacts(m: Moment, op: TimedOp)
    requires Allowed(m, op)
    ensures Upright(op.shape, |op.shape.low|) && op.shape.start < MAX_DOUBLE
    ensures op.Add? ==> op.id !in m.objects
    ensures op.Remove? ==> m.time <= op.shape.end < MAX_DOUBLE && (op.id in m.objects ==> SameCourse(m.objects[op.id].shape, op.shape))
  {
  }

  /** One operation on the tree, and what the scan does. */
  method Apply(t: TPRTree, op: TimedOp, ghost m: Moment) returns (ret: bool)
    requires t.Valid() && t.currentTime == t.latest == m.time && Represents(t.Items(), m.objects) && Allowed(m, op)
    modifies t
    ensures t.Valid() && t.currentTime == t.latest == ScanStep(m, op, t.P.dim).time
    ensures Represents(t.Items(), ScanStep(m, op, t.P.dim).objects)
    ensures ret <==> Answer(m, op, t.P.dim)
  {
    hide Represents, Allowed, Upright, TPRTree.Valid, TPRTree.Items, Stores, SameCourse;
    ClockFacts(t);
    AllowedFacts(m, op);
    ItemsOf(t);
    ghost var items := t.Items();
    match op
    case Add(shape, id, data) =>
      ghost var e;
      ret, e := t.InsertData(shape, id, data);
      ItemsOf(t);
      if ret {
        AddKeeps(items, m.objects, e, shape, id, data);
      }
      LaterTime(m.time, shape.start);
    case Remove(shape, id) =>
      var ok;
      ghost var gone;
      ok, ret, gone := t.DeleteData(shape, id);
      ItemsOf(t);
      LaterTime(m.time, shape.end);
      if ok && ret {
        RemoveKeeps(items, m.objects, gone, t.Items());
      } else if ok {
        NoneListed(items, m.objects, shape, id);
      }
  }

  lemma ClockFacts(t: TPRTree)
    requires t.Valid()
    ensures -MAX_DOUBLE < t.currentTime
  {
  }

  lemma LaterTime(x: real, y: real)
    ensures x <= y ==> Max(x, y) == y
  {
  }

  lemma ItemsOf(t: TPRTree)
    ensures t.Items() == Below(t.root.entries)
  {
  }

  lemma OrderlyAt(ops: seq<TimedOp>, dim: nat, i: nat)
    requires Orderly(ops, dim) && i < |ops|
    ensures Allowed(ScanOver(ops[..i], dim), ops[i])
    ensures ScanOver(ops[..i+1], dim) == ScanStep(ScanOver(ops[..i], dim), ops[i], dim)
  {
    assert ops[..i+1][..i] == ops[..i];
  }

  lemma ScanNothing(ops: seq<TimedOp>, dim: nat)
    ensures ScanOver(ops[..0], dim) == Moment(0.0, map[]) && Represents(multiset{}, map[])
  {
  }

  // ---------------------------------------------------------------- what a query sees

  /** At time `t`, while the query lasts and after the shape was added, the two share a point. */
  ghost predicate Share(q: MovingRegion, shape: MovingRegion, dim: nat, t: real)
    requires q.IsMoving(dim) && shape.IsMoving(dim)
  {
    && q.start <= t <= q.end && shape.start <= t
    && forall d :: 0 <= d < dim ==>
         && q.low[d] + q.vlow[d] * (t - q.start) <= shape.high[d] + shape.vhigh[d] * (t - shape.start)
         && shape.low[d] + shape.vlow[d] * (t - shape.start) <= q.high[d] + q.vhigh[d] * (t - q.start)
  }

  ghost predicate SharesSometime(q: MovingRegion, shape: MovingRegion, dim: nat) {
    q.IsMoving(dim) && shape.IsMoving(dim) && exists t :: Share(q, shape, dim, t)
  }

  ghost predicate SharesOnceAtMost(q: MovingRegion, shape: MovingRegion, dim: nat) {
    q.IsMoving(dim) && shape.IsMoving(dim) && forall t, u :: Share(q, shape, dim, t) && Share(q, shape, dim, u) ==> t == u
  }

  /** Asking the stored region is asking the shape. */
  lemma ShareStored(q: MovingRegion, r: MovingRegion, shape: MovingRegion, dim: nat, t: real)
    requires q.IsMoving(dim) && |shape.low| == dim && Endless(r, shape) && q.end < MAX_DOUBLE
    ensures r.IsMoving(dim) && (Share(q, shape, dim, t) <==> Window(q, r, Life(r), t) && MeetAt(q, r, dim, t))
  {
    if q.start <= t <= q.end && shape.start <= t {
      forall d | 0 <= d < dim
        ensures
          (q.low[d] + q.vlow[d] * (t - q.start) <= shape.high[d] + shape.vhigh[d] * (t - shape.start) &&
           shape.low[d] + shape.vlow[d] * (t - shape.start) <= q.high[d] + q.vhigh[d] * (t - q.start)) <==> MeetDim(q, r, d, t) {
        assert r.Low(d, t) == shape.low[d] + shape.vlow[d] * (t - shape.start);
        assert r.High(d, t) == shape.high[d] + shape.vhigh[d] * (t - shape.start);
      }
    }
  }

  lemma MetShares(q: MovingRegion, r: MovingRegion, shape: MovingRegion, dim: nat)
    requires q.IsMoving(dim) && |shape.low| == dim && Endless(r, shape) && q.end < MAX_DOUBLE && r.IsMoving(dim)
    ensures Met(q, r, dim) ==> SharesSometime(q, shape, dim)
    ensures Missed(q, r, dim) ==> SharesOnceAtMost(q, shape, dim)
  {
    hide Endless, MeetAt;
    assert shape.IsMoving(dim) by {
      EndlessShape(r, shape);
    }
    if Met(q, r, dim) {
      var t :| Window(q, r, Life(r), t) && MeetAt(q, r, dim, t);
      ShareStored(q, r, shape, dim, t);
    }
    if Missed(q, r, dim) {
      forall t, u | Share(q, shape, dim, t) && Share(q, shape, dim, u) ensures t == u {
        ShareStored(q, r, shape, dim, t);
        ShareStored(q, r, shape, dim, u);
      }
    }
  }

  lemma EndlessShape(r: MovingRegion, shape: MovingRegion)
    requires Endless(r, shape)
    ensures shape.IsMoving(|shape.low|)
  {
  }

  /** The ids that a query hands out, each once: those of objects that it meets at some instant, and all
      those of objects that it meets at two instants or more. */
  ghost predicate Seen(q: MovingRegion, objects: map<Id, Object>, dim: nat, results: seq<MEntry>) {
    && (forall i :: 0 <= i < |results| ==>
          var x := results[i];
          x.Item? && x.id in objects && Stores(x, objects[x.id].shape, x.id, objects[x.id].data) && SharesSometime(q, objects[x.id].shape, dim))
    && (forall i, j :: 0 <= i < j < |results| && results[i].Item? && results[j].Item? ==> results[i].id != results[j].id)
    && (forall id :: id in objects ==> HandedOut(results, id) || SharesOnceAtMost(q, objects[id].shape, dim))
  }

  ghost predicate HandedOut(results: seq<MEntry>, id: Id) {
    exists i :: 0 <= i < |results| && results[i].Item? && results[i].id == id
  }

  lemma SeenExactly(q: MovingRegion, items: multiset<MEntry>, objects: map<Id, Object>, dim: nat, results: seq<MEntry>, skipped: multiset<MEntry>)
    requires Represents(items, objects) && multiset(results) + skipped == items && q.IsMoving(dim) && q.end < MAX_DOUBLE
    requires forall x :: x in results ==> x.mbr.IsMoving(dim) && Met(q, x.mbr, dim)
    requires forall x :: x in skipped ==> Missed(q, x.mbr, dim)
    ensures Seen(q, objects, dim, results)
  {
    hide SharesSometime, SharesOnceAtMost, Met, Missed, Stores;
    forall i | 0 <= i < |results|
      ensures
        var x := results[i];
        x.Item? && x.id in objects && Stores(x, objects[x.id].shape, x.id, objects[x.id].data) && SharesSometime(q, objects[x.id].shape, dim) {
      var x := results[i];
      assert x in multiset(results) && x in items;
      StoresShape(x, objects[x.id].shape, x.id, objects[x.id].data, dim);
      MetShares(q, x.mbr, objects[x.id].shape, dim);
    }
    forall i, j | 0 <= i < j < |results| && results[i].Item? && results[j].Item? ensures results[i].id != results[j].id {
      var x, y := results[i], results[j];
      assert x in multiset(results) && y in multiset(results) && items[x] == 1 && items[y] == 1;
      if x == y {
        TwiceIn(results, i, j);
      }
    }
    forall id | id in objects ensures HandedOut(results, id) || SharesOnceAtMost(q, objects[id].shape, dim) {
      assert Listed(items, id);
      var x :| x in items && x.Item? && x.id == id;
      if x in results {
        var i :| 0 <= i < |results| && results[i] == x;
      } else {
        assert multiset(results)[x] == 0 && x in skipped;
        MissedMoves(q, x.mbr, dim);
        StoresShape(x, objects[id].shape, id, objects[id].data, dim);
        MetShares(q, x.mbr, objects[id].shape, dim);
      }
    }
  }

  lemma StoresShape(x: MEntry, shape: MovingRegion, id: Id, data: seq<bv8>, dim: nat)
    requires Stores(x, shape, id, data) && x.mbr.IsMoving(dim)
    ensures |shape.low| == dim && Endless(x.mbr, shape)
  {
  }

  lemma MissedMoves(q: MovingRegion, x: MovingRegion, dim: nat)
    requires Missed(q, x, dim)
    ensures x.IsMoving(dim)
  {
  }

  /** Any orderly run from an empty tree: the answers are those of the scan, the tree holds an item for each
      object of the scan, and a range query afterwards sees the objects where their shapes put them. */
  method Run(P: Params, horizon: real, ops: seq<TimedOp>, kind: QueryKind, query: MovingRegion)
    returns (t: TPRTree, rets: seq<bool>, ok: bool, results: seq<MEntry>, ghost skipped: multiset<MEntry>)
    requires P.Sane() && P.variant == RStar && Orderly(ops, P.dim)
    requires Upright(query, |query.low|) && query.start < query.end < MAX_DOUBLE
    ensures fresh(t) && t.Valid() && t.P == P && t.horizon == horizon && t.currentTime == t.latest == ScanOver(ops, P.dim).time
    ensures Represents(t.Items(), ScanOver(ops, P.dim).objects)
    ensures |rets| == |ops| && forall i :: 0 <= i < |ops| ==> (rets[i] <==> Answer(ScanOver(ops[..i], P.dim), ops[i], P.dim))
    ensures ok <==> |query.low| == P.dim && ScanOver(ops, P.dim).time <= query.start && query.end < ScanOver(ops, P.dim).time + horizon
    ensures ok ==> multiset(results) + skipped == t.Items()
    ensures ok && kind == Intersection ==> Seen(query, ScanOver(ops, P.dim).objects, P.dim, results)
    ensures ok && kind == Containment ==> results == []
  {
    hide *;
    t := new TPRTree(P, horizon);
    rets := [];
    ScanNothing(ops, P.dim);
    for i := 0 to |ops|
      invariant t.Valid() && t.P == P && t.horizon == horizon && t.currentTime == t.latest == ScanOver(ops[..i], P.dim).time
      invariant Represents(t.Items(), ScanOver(ops[..i], P.dim).objects)
      invariant |rets| == i && forall j :: 0 <= j < i ==> (rets[j] <==> Answer(ScanOver(ops[..j], P.dim), ops[j], P.dim))
    {
      OrderlyAt(ops, P.dim, i);
      var ret := Apply(t, ops[i], ScanOver(ops[..i], P.dim));
      rets := rets + [ret];
    }
    assert ops[..|ops|] == ops;
    ok, results, skipped := t.RangeQuery(kind, query);
    if ok {
      if kind == Intersection {
        SortedHits(query, P.dim, t.latest, results, skipped);
        SeenExactly(query, t.Items(), ScanOver(ops, P.dim).objects, P.dim, results, skipped);
      } else {
        SortedNothing(query, P.dim, t.latest, results, skipped);
      }
    }
  }

  lemma SortedNothing(q: MovingRegion, dim: nat, t: real, results: seq<MEntry>, skipped: multiset<MEntry>)
    requires Sorted(Containment, q, dim, t, multiset(results), skipped)
    ensures results == []
  {
    assert |multiset(results)| == |results|;
  }

  lemma SortedHits(q: MovingRegion, dim: nat, t: real, results: seq<MEntry>, skipped: multiset<MEntry>)
    requires Sorted(Intersection, q, dim, t, multiset(results), skipped) && t <= q.start
    ensures q.IsMoving(dim) && (forall x :: x in results ==> x.mbr.IsMoving(dim) && Met(q, x.mbr, dim))
    ensures forall x :: x in skipped ==> Missed(q, x.mbr, dim)
  {
    hide Met, Missed;
    assert forall x :: x in results ==> x in multiset(results);
  }

  // ---------------------------------------------------------------- setting the clock back

  /** A deletion and then a query, on a tree whose clock was never set back: when the shape ends at the clock
      or later, the query is complete; when it ends before, takes nothing out, and the root's box is as new
      as the old clock, then every query that ends before the old clock hands out nothing. */
  method DeleteAndQuery(t: TPRTree, shape: MovingRegion, id: Id, query: MovingRegion)
    returns (found: bool, ok: bool, results: seq<MEntry>, ghost skipped: multiset<MEntry>)
    requires t.Valid() && t.currentTime == t.latest && |shape.low| == |query.low| == t.P.dim
    requires Upright(shape, t.P.dim) && shape.start < MAX_DOUBLE && -MAX_DOUBLE < shape.end < MAX_DOUBLE
    requires Upright(query, t.P.dim) && query.start < query.end < MAX_DOUBLE
    modifies t
    ensures t.Valid() && (ok <==> shape.end <= query.start && query.end < shape.end + t.horizon)
    ensures ok ==> multiset(results) + skipped == t.Items() && query.IsMoving(t.P.dim)
    ensures ok && shape.end >= old(t.currentTime) ==> forall x :: x in skipped ==> Missed(query, x.mbr, t.P.dim)
    ensures !found && old(t.root.box.start == t.currentTime) && query.end < old(t.currentTime) ==> results == []
  {
    hide *;
    UprightMoves(query, t.P.dim);
    var dims;
    ghost var gone;
    dims, found, gone := t.DeleteData(shape, id);
    LaterTime(old(t.currentTime), shape.end);
    ok, results, skipped := t.RangeQuery(Intersection, query);
    if ok && shape.end >= old(t.currentTime) {
      SortedHits(query, t.P.dim, t.latest, results, skipped);
    }
  }

  function Still(low: real, high: real, start: real, end: real): MovingRegion {
    MovingRegion([low], [high], [0.0], [0.0], start, end)
  }

  /** Whatever the clock `c` and an earlier time `e` whose horizon reaches past the start of time: two
      insertions, the first at `e` or at the start of time and the second at `c`, a deletion of nothing that
      ends at `e`, and a query that is accepted and hands out nothing, although the first region is inside
      it throughout. */
  method ClockSetBack(P: Params, horizon: real, e: real, c: real) returns (t: TPRTree, ok: bool, results: seq<MEntry>, ghost x: MEntry, query: MovingRegion)
    requires P.Sane() && P.variant == RStar && P.dim == 1 && -MAX_DOUBLE < e < c < MAX_DOUBLE && 0.0 < c
    requires horizon > 0.0 && e + horizon > 0.0
    ensures t.Valid() && t.currentTime == e && ok && results == []
    ensures x in t.Items() && e <= query.start < query.end && query.IsMoving(1) && x.mbr.IsMoving(1)
    ensures forall u :: query.start <= u <= query.end ==> Window(query, x.mbr, Life(x.mbr), u) && MeetAt(query, x.mbr, 1, u)
  {
    hide *;
    t := new TPRTree(P, horizon);
    var begin := Max(e, 0.0);
    var end := (begin + Min(c, e + horizon)) / 2.0;
    Halfway(begin, e, c, horizon);
    var first, second := Still(0.0, 0.0, begin, begin + 1.0), Still(0.0, 0.0, c, c + 1.0);
    var nothing := Still(0.0, 0.0, e - 1.0, e);
    query := Still(-1.0, 1.0, begin, end);
    StillUpright(0.0, 0.0, begin, begin + 1.0);
    StillUpright(0.0, 0.0, c, c + 1.0);
    StillUpright(0.0, 0.0, e - 1.0, e);
    StillUpright(-1.0, 1.0, begin, end);
    LaterTime(0.0, begin);
    LaterTime(begin, c);
    var added;
    ghost var stored;
    added, stored := t.InsertData(first, 7, []);
    added, stored := t.InsertData(second, 8, []);
    x := Item(Lasting(first), 7, []);
    ghost var y := Item(Lasting(second), 8, []);
    TwoItems(t.Items(), x, y);
    ghost var items := t.Items();
    var dims, found;
    ghost var gone, skipped;
    EndsBefore();
    dims, found, gone := t.DeleteData(nothing, 9);
    if found {
      OneOfTwo(items, x, y, gone, t.Items());
    }
    ItemsOf(t);
    MaxEarlier(c, e);
    ok, results, skipped := t.RangeQuery(Intersection, query);
    StillMeets(begin, end);
  }

  lemma Halfway(begin: real, e: real, c: real, horizon: real)
    requires begin == Max(e, 0.0) && e < c && 0.0 < c && horizon > 0.0 && e + horizon > 0.0
    ensures 0.0 <= begin && e <= begin < (begin + Min(c, e + horizon)) / 2.0 < c && (begin + Min(c, e + horizon)) / 2.0 < e + horizon
  {
  }

  lemma MaxEarlier(c: real, e: real)
    requires e < c
    ensures Max(c, e) == c
  {
  }

  lemma EndsBefore()
    ensures -MAX_DOUBLE < 0.0 < MAX_DOUBLE
  {
  }

  lemma StillUpright(low: real, high: real, start: real, end: real)
    requires low <= high
    ensures Upright(Still(low, high, start, end), 1) && |Still(low, high, start, end).low| == 1
    ensures Still(low, high, start, end).start == start && Still(low, high, start, end).end == end && Still(low, high, start, end).IsMoving(1)
  {
  }

  lemma TwoItems(items: multiset<MEntry>, x: MEntry, y: MEntry)
    requires items == multiset{} + multiset{x} + multiset{y}
    ensures x in items && items == multiset{x, y}
  {
  }

  lemma OneOfTwo(items: multiset<MEntry>, x: MEntry, y: MEntry, gone: MEntry, rest: multiset<MEntry>)
    requires items == multiset{x, y} && rest + multiset{gone} == items
    ensures gone == x || gone == y
  {
    assert gone in items;
  }

  lemma StillMeets(e: real, end: real)
    requires e < end < MAX_DOUBLE
    ensures
      var q, x := Still(-1.0, 1.0, e, end), Lasting(Still(0.0, 0.0, e, e + 1.0));
      && q.IsMoving(1) && x.IsMoving(1)
      && forall u :: e <= u <= end ==> Window(q, x, Life(x), u) && MeetAt(q, x, 1, u)
  {
  }

  /** In a tree, whatever was done to its clock: every box on the way down to an item contains the item at
      every instant from the latest time of the clock to the end of time, and no box is newer than that. */
  lemma {:induction false} CoveredOnTheWay(n: MNode, P: Params, t: real, path: seq<nat>, x: MEntry) returns (under: MNode)
    requires Fit(n, false, P, t) && Follows(n, path) && x in Below(At(n, path).entries)
    ensures under == At(n, path) && Sound(under, P, t) && under.box.start <= t
    ensures EnclosesOne(under.box, x.mbr, P.dim, t)
    decreases |path|
  {
    if path == [] {
      under := n;
      ItemCovered(n, P, t, x);
    } else {
      EntryFacts(n, P, t, path[0]);
      under := CoveredOnTheWay(n.entries[path[0]].node, P, t, path[1..], x);
    }
  }

  /** `path` leads from `n` to a node below it. */
  ghost predicate Follows(n: MNode, path: seq<nat>)
    decreases |path|
  {
    path == [] || (n.level > 0 && path[0] < |n.entries| && n.entries[path[0]].Sub? && Follows(n.entries[path[0]].node, path[1..]))
  }

  ghost function At(n: MNode, path: seq<nat>): MNode
    requires Follows(n, path)
    decreases |path|
  {
    if path == [] then n else At(n.entries[path[0]].node, path[1..])
  }
}
