/** The k-nearest-neighbour query: a best-first search over a priority queue of nodes and entries. */
module RTreeNeighbors {
  import opened Geometry
  import opened Pages
  import opened RTreeNode
  import opened RTreeModel
  import opened Subtrees
  import opened RTreeQueries

  /** An element of the priority queue: a node, or a data entry that was read from a leaf. */
  datatype NNEntry = NodeItem(id: Id, minDist: real) | DataItem(e: Entry, minDist: real)

  /** The squared distance of the query from a data entry. */
  ghost function Far(query: Region, x: Entry): (d: real)
    ensures d >= 0.0
  {
    if IsBox(query, |query.low|) && IsBox(x.mbr, |query.low|) then Distance2(query, x.mbr) else 0.0
  }

  ghost function Nearer(query: Region, d: real): Entry -> bool {
    x => Far(query, x) < d
  }

  /** Some point of `y` is nearer to a point of the query than any point of `x` is to any point of the query. */
  ghost predicate Closer(query: Region, y: Entry, x: Entry) {
    && IsBox(query, |query.low|) && IsBox(x.mbr, |query.low|) && IsBox(y.mbr, |query.low|)
    && exists p, q :: PointIn(p, query) && PointIn(q, y.mbr) && FartherThan(query, x, Apart2(p, q))
  }

  ghost predicate FartherThan(query: Region, x: Entry, s: real)
    requires IsBox(query, |query.low|) && IsBox(x.mbr, |query.low|)
  {
    forall u, v :: PointIn(u, query) && PointIn(v, x.mbr) ==> s < Apart2(u, v)
  }

  ghost predicate Touching(query: Region, x: Entry) {
    exists p :: PointIn(p, query) && PointIn(p, x.mbr)
  }

  lemma CloserFar(query: Region, y: Entry, x: Entry)
    requires Proper(query) && Proper(x.mbr) && Proper(y.mbr) && |x.mbr.low| == |y.mbr.low| == |query.low|
    ensures Closer(query, y, x) <==> Far(query, y) < Far(query, x)
  {
    DistanceBetween(query, x.mbr);
    DistanceBetween(query, y.mbr);
    hide Distance2, Apart2;
    if Far(query, y) < Far(query, x) {
      var p, q :| PointIn(p, query) && PointIn(q, y.mbr) && Distance2(query, y.mbr) == Apart2(p, q);
      assert FartherThan(query, x, Apart2(p, q));
    }
    if Closer(query, y, x) {
      var p, q :| PointIn(p, query) && PointIn(q, y.mbr) && FartherThan(query, x, Apart2(p, q));
      var u, v :| PointIn(u, query) && PointIn(v, x.mbr) && Distance2(query, x.mbr) == Apart2(u, v);
    }
  }

  lemma TouchingFar(query: Region, x: Entry)
    requires Proper(query) && Proper(x.mbr) && |x.mbr.low| == |query.low|
    ensures Touching(query, x) <==> Far(query, x) == 0.0
  {
    DistanceBetween(query, x.mbr);
    hide Distance2, Apart2;
    if Far(query, x) == 0.0 {
      var p, q :| PointIn(p, query) && PointIn(q, x.mbr) && Distance2(query, x.mbr) == Apart2(p, q);
      Apart2Zero(p, q);
      assert PointIn(p, x.mbr);
    }
    if Touching(query, x) {
      var p :| PointIn(p, query) && PointIn(p, x.mbr);
      Apart2Zero(p, p);
      assert Distance2(query, x.mbr) <= Apart2(p, p);
    }
  }

  // ---------------------------------------------------------------- the queue

  /** The data entries that an element of the queue stands for. */
  ghost function Behind(pages: map<Id, Page>, item: NNEntry): multiset<Entry> {
    match item
    case NodeItem(id, _) => if id in pages then multiset(Under(pages, id, pages[id].level)) else multiset{}
    case DataItem(e, _) => multiset{e}
  }

  ghost function Pending(pages: map<Id, Page>, queue: seq<NNEntry>): multiset<Entry> {
    if queue == [] then multiset{} else Pending(pages, queue[..|queue|-1]) + Behind(pages, queue[|queue|-1])
  }

  ghost function Weight(pages: map<Id, Page>, item: NNEntry): nat {
    match item
    case NodeItem(id, _) => if id in pages then Size(pages, id, pages[id].level) else 1
    case DataItem(_, _) => 1
  }

  ghost function Load(pages: map<Id, Page>, queue: seq<NNEntry>): nat {
    if queue == [] then 0 else Load(pages, queue[..|queue|-1]) + Weight(pages, queue[|queue|-1])
  }

  lemma QueuePush(pages: map<Id, Page>, queue: seq<NNEntry>, item: NNEntry)
    ensures Pending(pages, queue + [item]) == Pending(pages, queue) + Behind(pages, item)
    ensures Load(pages, queue + [item]) == Load(pages, queue) + Weight(pages, item)
  {
    assert (queue + [item])[..|queue|] == queue;
  }

  lemma {:induction false} QueuePop(pages: map<Id, Page>, queue: seq<NNEntry>, i: nat)
    requires i < |queue|
    ensures Pending(pages, queue) == Pending(pages, queue[..i] + queue[i+1..]) + Behind(pages, queue[i])
    ensures Load(pages, queue) == Load(pages, queue[..i] + queue[i+1..]) + Weight(pages, queue[i])
  {
    hide *;
    var most, last := queue[..|queue|-1], queue[|queue|-1];
    assert most + [last] == queue;
    QueuePush(pages, most, last);
    if i == |queue| - 1 {
      assert queue[..i] + queue[i+1..] == most;
    } else {
      QueuePop(pages, most, i);
      var rest := most[..i] + most[i+1..];
      assert queue[..i] + queue[i+1..] == rest + [last];
      QueuePush(pages, rest, last);
      Regroup(Pending(pages, rest), Behind(pages, queue[i]), Behind(pages, last));
    }
  }

  lemma {:induction false} PendingMember(pages: map<Id, Page>, queue: seq<NNEntry>, x: Entry)
    requires x in Pending(pages, queue)
    ensures exists i :: 0 <= i < |queue| && x in Behind(pages, queue[i])
  {
    var most, last := queue[..|queue|-1], queue[|queue|-1];
    if x in Behind(pages, last) {
    } else {
      PendingMember(pages, most, x);
      var i :| 0 <= i < |most| && x in Behind(pages, most[i]);
      assert most[i] == queue[i];
    }
  }

  /** An element's distance never exceeds the distance of anything it stands for: exact for a data
      entry, at most the distance of its box for a node. */
  ghost predicate Sensible(P: Params, pages: map<Id, Page>, query: Region, item: NNEntry) {
    match item
    case NodeItem(id, d) => id in pages && IsBox(query, P.dim) && IsBox(pages[id].mbr, P.dim) && d <= Distance2(query, pages[id].mbr)
    case DataItem(e, d) => d == Far(query, e)
  }

  lemma SensibleBound(P: Params, pages: map<Id, Page>, par: map<Id, Id>, root: Id, query: Region, item: NNEntry, x: Entry)
    requires Sound(P, pages, par, root) && Sensible(P, pages, query, item) && x in Behind(pages, item)
    requires IsBox(query, P.dim) && Proper(query) && AllProper(Data(pages))
    ensures item.minDist <= Far(query, x)
  {
    if item.NodeItem? {
      UnderInside(P, pages, par, root, item.id, x);
      UnderStored(pages, item.id, pages[item.id].level, x);
      DistanceMonotone(query, pages[item.id].mbr, x.mbr, |query.low|);
    }
  }

  // ---------------------------------------------------------------- the search

  /** The state of the search: every stored entry is reported or behind an element of the queue, in
      order, and after the k-th result only equal distances were reported. */
  ghost predicate Searching(P: Params, pages: map<Id, Page>, query: Region, k: nat, results: seq<Entry>,
                            queue: seq<NNEntry>, knearest: real) {
    && multiset(results) + Pending(pages, queue) == Data(pages)
    && (forall i :: 0 <= i < |queue| ==> Sensible(P, pages, query, queue[i]))
    && (forall i, j :: 0 <= i < |results| && 0 <= j < |queue| ==> Far(query, results[i]) <= queue[j].minDist)
    && Ranked(query, k, results, knearest)
  }

  ghost predicate Ranked(query: Region, k: nat, results: seq<Entry>, knearest: real) {
    && (forall i, j :: 0 <= i < j < |results| ==> Far(query, results[i]) <= Far(query, results[j]))
    && knearest == (if results == [] then 0.0 else Far(query, results[|results|-1]))
    && (forall i :: k <= i < |results| ==> Far(query, results[i]) == if k == 0 then 0.0 else Far(query, results[k-1]))
  }

  /** The search is over: what is left is farther than the last result, or nothing is left. */
  ghost predicate Found(pages: map<Id, Page>, query: Region, k: nat, results: seq<Entry>, rest: multiset<Entry>) {
    && multiset(results) + rest == Data(pages)
    && Ranked(query, k, results, if results == [] then 0.0 else Far(query, results[|results|-1]))
    && (rest != multiset{} ==> |results| >= k)
    && (forall x :: x in rest ==> Far(query, x) > (if results == [] then 0.0 else Far(query, results[|results|-1])))
  }

  /** Fewer than `k` entries lie nearer, or `k` is zero and the entry touches the query. */
  ghost predicate AmongNearest(data: multiset<Entry>, query: Region, k: nat, x: Entry) {
    if k == 0 then Far(query, x) == 0.0
    else |Pick(data, Nearer(query, Far(query, x)))| < k
  }

  ghost function CloserThan(query: Region, x: Entry): Entry -> bool {
    y => Closer(query, y, x)
  }

  /** The same, said of points: fewer than `k` stored entries have a point nearer to the query than all of
      `x`; for `k` zero, `x` shares a point with the query. */
  ghost predicate Closest(data: multiset<Entry>, query: Region, k: nat, x: Entry) {
    if k == 0 then Touching(query, x) else |Pick(data, CloserThan(query, x))| < k
  }

  lemma ClosestFar(data: multiset<Entry>, query: Region, k: nat, x: Entry)
    requires Proper(query) && AllProper(data) && x in data && forall y :: y in data ==> |y.mbr.low| == |query.low|
    ensures Closest(data, query, k, x) <==> AmongNearest(data, query, k, x)
  {
    hide Far, Closer, Touching, Proper, Pick;
    assert Proper(x.mbr);
    if k == 0 {
      TouchingFar(query, x);
    } else {
      var f, g := CloserThan(query, x), Nearer(query, Far(query, x));
      forall y ensures Pick(data, f)[y] == Pick(data, g)[y] {
        PickEach(data, f, y);
        PickEach(data, g, y);
        if y in data {
          CloserFar(query, y, x);
        }
      }
      assert Pick(data, f) == Pick(data, g);
    }
  }

  lemma SubsetSize(a: multiset<Entry>, b: multiset<Entry>)
    requires forall x :: a[x] <= b[x]
    ensures |a| <= |b|
  {
    assert b == a + (b - a);
  }

  /** Entries nearer than `d` all stand before position `j` of the results. */
  lemma NearerBefore(data: multiset<Entry>, query: Region, results: seq<Entry>, rest: multiset<Entry>, d: real, j: nat)
    requires multiset(results) + rest == data && j <= |results|
    requires forall i :: j <= i < |results| ==> Far(query, results[i]) >= d
    requires forall x :: x in rest ==> Far(query, x) >= d
    ensures |Pick(data, Nearer(query, d))| <= j
  {
    var near, first := Pick(data, Nearer(query, d)), multiset(results[..j]);
    forall x ensures near[x] <= first[x] {
      NearerOne(data, query, results, rest, d, j, x);
    }
    hide *;
    SubsetSize(near, first);
  }

  lemma NearerOne(data: multiset<Entry>, query: Region, results: seq<Entry>, rest: multiset<Entry>, d: real, j: nat, x: Entry)
    requires multiset(results) + rest == data && j <= |results|
    requires forall i :: j <= i < |results| ==> Far(query, results[i]) >= d
    requires forall x :: x in rest ==> Far(query, x) >= d
    ensures Pick(data, Nearer(query, d))[x] <= multiset(results[..j])[x]
  {
    hide Far;
    PickEach(data, Nearer(query, d), x);
    if Far(query, x) < d {
      assert results == results[..j] + results[j..];
      assert x !in rest && x !in results[j..];
      assert multiset(results[j..])[x] == 0;
      assert multiset(results)[x] == data[x];
    }
  }

  /** All of the results are nearer than `d`. */
  lemma NearerAll(pages: map<Id, Page>, query: Region, results: seq<Entry>, rest: multiset<Entry>, d: real)
    requires multiset(results) + rest == Data(pages)
    requires forall i :: 0 <= i < |results| ==> Far(query, results[i]) < d
    ensures |Pick(Data(pages), Nearer(query, d))| >= |results|
  {
    var near := Pick(Data(pages), Nearer(query, d));
    forall x ensures multiset(results)[x] <= near[x] {
      PickEach(Data(pages), Nearer(query, d), x);
      if x in multiset(results) {
        assert x in results;
      }
    }
    SubsetSize(multiset(results), near);
  }

  /** The search order is right: an entry is reported, as often as it is stored, exactly if it is
      among the nearest, ties included. */
  lemma FoundExact(pages: map<Id, Page>, query: Region, k: nat, results: seq<Entry>, rest: multiset<Entry>, x: Entry)
    requires Found(pages, query, k, results, rest)
    ensures multiset(results)[x] == if AmongNearest(Data(pages), query, k, x) then Data(pages)[x] else 0
  {
    hide Far, Pick, Data;
    var d := Far(query, x);
    if x in rest {
      assert x !in results;
      if k > 0 {
        NearerAll(pages, query, results, rest, d);
      }
    } else if x in results {
      var i :| 0 <= i < |results| && results[i] == x;
      if 0 < k {
        var j := if i < k then i else k - 1;
        forall y | y in rest ensures Far(query, y) >= d {
        }
        NearerBefore(Data(pages), query, results, rest, d, j);
      }
    }
  }

  /** A node that is not empty has a box that is not inverted. */
  lemma {:induction false} BoxProper(P: Params, pages: map<Id, Page>, par: map<Id, Id>, root: Id, id: Id)
    requires Sound(P, pages, par, root) && id in pages && |pages[id].entries| >= 1 && AllProper(Data(pages))
    ensures IsBox(pages[id].mbr, P.dim) && Proper(pages[id].mbr)
    decreases pages[id].level
  {
    var n := pages[id];
    assert PageOk(P, n) && Fresh(n, pages, {});
    var e := n.entries[0];
    if n.level == 0 {
      assert e in Leafs(n);
      DataMember(pages, pages.Keys, e);
    } else {
      assert e.id in Kids(n);
      BoxProper(P, pages, par, root, e.id);
    }
    assert Contains(n.mbr, e.mbr) && Proper(e.mbr);
  }

  /** What reading entry `i` of a node puts on the queue. */
  lemma ChildSensible(P: Params, pages: map<Id, Page>, par: map<Id, Id>, root: Id, query: Region, n: Held, i: nat, bound: real)
    requires Sound(P, pages, par, root) && n.id in pages && n.page == pages[n.id] && i < |n.page.entries|
    requires IsBox(query, P.dim) && Proper(query) && AllProper(Data(pages))
    requires bound <= Distance2(query, n.page.mbr) || bound == 0.0
    requires IsBox(n.page.mbr, P.dim)
    ensures
      var e := n.page.entries[i];
      && IsBox(query, |query.low|) && IsBox(e.mbr, |query.low|)
      && (n.page.level == 0 ==> Far(query, e) == Distance2(query, e.mbr) && bound <= Far(query, e))
      && (n.page.level > 0 ==>
            e.id in pages && pages[e.id].level == n.page.level - 1 && bound <= Distance2(query, e.mbr)
            && Sensible(P, pages, query, NodeItem(e.id, Distance2(query, e.mbr))))
  {
    var e := n.page.entries[i];
    assert PageOk(P, n.page) && Fresh(n.page, pages, {});
    if n.page.level == 0 {
      assert e in Leafs(n.page);
      DataMember(pages, pages.Keys, e);
    } else {
      assert e.id in Kids(n.page);
      BoxProper(P, pages, par, root, e.id);
    }
    DistanceMonotone(query, n.page.mbr, e.mbr, |query.low|);
  }

  /** All elements from position `from` on are sensible and not nearer than `bound`. */
  ghost predicate NewItems(P: Params, pages: map<Id, Page>, query: Region, queue: seq<NNEntry>, from: nat, bound: real) {
    forall i :: from <= i < |queue| ==> Sensible(P, pages, query, queue[i]) && bound <= queue[i].minDist
  }

  /** Reads a node and pushes everything on it with its distance from the query. */
  method Expand(t: RTree, query: Region, n: Held, queue: seq<NNEntry>, ghost bound: real) returns (queue': seq<NNEntry>)
    requires Sound(t.P, t.pages, t.par, t.rootID) && n.id in t.pages && n.page == t.pages[n.id]
    requires IsBox(query, t.P.dim) && Proper(query) && AllProper(Data(t.pages)) && IsBox(n.page.mbr, t.P.dim)
    requires bound <= Distance2(query, n.page.mbr) || bound == 0.0
    ensures |queue| <= |queue'| && queue'[..|queue|] == queue && NewItems(t.P, t.pages, query, queue', |queue|, bound)
    ensures Pending(t.pages, queue') == Pending(t.pages, queue) + Behind(t.pages, NodeItem(n.id, bound))
    ensures Load(t.pages, queue') < Load(t.pages, queue) + Weight(t.pages, NodeItem(n.id, bound))
  {
    hide *;
    queue' := queue;
    ghost var es, sum, work := n.page.entries, Pending(t.pages, queue), Load(t.pages, queue);
    ExpandStart(t.P, t.pages, query, n, queue, bound, sum);
    for cChild := 0 to |n.page.entries|
      invariant |queue| <= |queue'| && queue'[..|queue|] == queue && NewItems(t.P, t.pages, query, queue', |queue|, bound)
      invariant Pending(t.pages, queue') == sum + Partial(t.pages, n, cChild)
      invariant Load(t.pages, queue') == work + Cost(t.pages, n, cChild)
    {
      ChildSensible(t.P, t.pages, t.par, t.rootID, query, n, cChild, bound);
      var e := n.page.entries[cChild];
      var minDist := MinimumDistance2(query, e.mbr);
      var item := if n.page.level == 0 then DataItem(e, minDist) else NodeItem(e.id, minDist);
      ExpandNext(t.P, t.pages, query, n, queue', |queue|, bound, cChild, item, sum);
      QueuePush(t.pages, queue', item);
      queue' := queue' + [item];
    }
    ExpandEnd(t.pages, n, bound);
  }

  /** The weight of what the first `k` entries of a node push. */
  ghost function Cost(pages: map<Id, Page>, n: Held, k: nat): nat
    requires k <= |n.page.entries|
  {
    if n.page.level == 0 then k else SizeAll(pages, n.page.entries[..k], n.page.level - 1)
  }

  lemma ExpandStart(P: Params, pages: map<Id, Page>, query: Region, n: Held, queue: seq<NNEntry>, bound: real, sum: multiset<Entry>)
    ensures NewItems(P, pages, query, queue, |queue|, bound)
    ensures sum + Partial(pages, n, 0) == sum && Cost(pages, n, 0) == 0
  {
  }

  lemma ExpandNext(P: Params, pages: map<Id, Page>, query: Region, n: Held, queue: seq<NNEntry>, from: nat, bound: real,
                   k: nat, item: NNEntry, sum: multiset<Entry>)
    requires k < |n.page.entries| && from <= |queue| && NewItems(P, pages, query, queue, from, bound)
    requires
      var e := n.page.entries[k];
      && IsBox(query, |query.low|) && IsBox(e.mbr, |query.low|)
      && item == (if n.page.level == 0 then DataItem(e, Distance2(query, e.mbr)) else NodeItem(e.id, Distance2(query, e.mbr)))
      && (n.page.level == 0 ==> Far(query, e) == Distance2(query, e.mbr) && bound <= Far(query, e))
      && (n.page.level > 0 ==>
            e.id in pages && pages[e.id].level == n.page.level - 1 && bound <= Distance2(query, e.mbr)
            && Sensible(P, pages, query, NodeItem(e.id, Distance2(query, e.mbr))))
    ensures NewItems(P, pages, query, queue + [item], from, bound)
    ensures (sum + Partial(pages, n, k)) + Behind(pages, item) == sum + Partial(pages, n, k + 1)
    ensures Cost(pages, n, k + 1) == Cost(pages, n, k) + Weight(pages, item)
  {
    Regroup(sum, Partial(pages, n, k), Behind(pages, item));
    if n.page.level == 0 {
      assert n.page.entries[..k+1] == n.page.entries[..k] + [n.page.entries[k]];
    } else {
      AllNext(pages, n.page.entries, n.page.level - 1, k);
    }
  }

  lemma ExpandEnd(pages: map<Id, Page>, n: Held, bound: real)
    requires n.id in pages && n.page == pages[n.id]
    ensures Partial(pages, n, |n.page.entries|) == Behind(pages, NodeItem(n.id, bound))
    ensures Cost(pages, n, |n.page.entries|) < Weight(pages, NodeItem(n.id, bound))
  {
    assert n.page.entries[..|n.page.entries|] == n.page.entries;
  }

  /** The top of the priority queue: some element of least distance. */
  method Top(queue: seq<NNEntry>) returns (i: nat)
    requires queue != []
    ensures i < |queue| && forall j :: 0 <= j < |queue| ==> queue[i].minDist <= queue[j].minDist
  {
    LeastExists(queue);
    i :| 0 <= i < |queue| && forall j :: 0 <= j < |queue| ==> queue[i].minDist <= queue[j].minDist;
  }

  lemma {:induction false} LeastExists(queue: seq<NNEntry>)
    requires queue != []
    ensures exists i :: 0 <= i < |queue| && forall j :: 0 <= j < |queue| ==> queue[i].minDist <= queue[j].minDist
  {
    var least := 0;
    for k := 1 to |queue|
      invariant least < k && forall j :: 0 <= j < k ==> queue[least].minDist <= queue[j].minDist
    {
      if queue[k].minDist < queue[least].minDist {
        least := k;
      }
    }
  }

  // ---------------------------------------------------------------- the loop

  lemma SearchStart(t: RTree, query: Region, k: nat)
    requires Sound(t.P, t.pages, t.par, t.rootID) && IsBox(query, t.P.dim)
    ensures Searching(t.P, t.pages, query, k, [], [NodeItem(t.rootID, 0.0)], 0.0)
  {
    QueryFacts(t);
    var item := NodeItem(t.rootID, 0.0);
    QueuePush(t.pages, [], item);
    assert [] + [item] == [item];
    assert multiset{} + Behind(t.pages, item) == Behind(t.pages, item);
  }

  /** The facts about the element at the top, once it is taken off the queue. */
  lemma TopFacts(P: Params, pages: map<Id, Page>, query: Region, k: nat, results: seq<Entry>, queue: seq<NNEntry>, knearest: real, i: nat)
    requires Searching(P, pages, query, k, results, queue, knearest) && i < |queue|
    requires forall j :: 0 <= j < |queue| ==> queue[i].minDist <= queue[j].minDist
    ensures Sensible(P, pages, query, queue[i])
    ensures multiset(results) + (Pending(pages, queue[..i] + queue[i+1..]) + Behind(pages, queue[i])) == Data(pages)
    ensures Load(pages, queue) == Load(pages, queue[..i] + queue[i+1..]) + Weight(pages, queue[i])
    ensures NewItems(P, pages, query, queue[..i] + queue[i+1..], 0, queue[i].minDist)
    ensures forall j :: 0 <= j < |results| ==> Far(query, results[j]) <= queue[i].minDist
    ensures Ranked(query, k, results, knearest)
  {
    hide Ranked, Sensible, Pending, Behind, Load, Weight, Data, Far;
    var rest := queue[..i] + queue[i+1..];
    forall j | 0 <= j < |rest| ensures Sensible(P, pages, query, rest[j]) && queue[i].minDist <= rest[j].minDist {
      assert rest[j] == queue[if j < i then j else j + 1];
    }
    QueuePop(pages, queue, i);
  }

  /** A node was taken off and expanded. */
  lemma ExpandedStep(P: Params, pages: map<Id, Page>, query: Region, k: nat, results: seq<Entry>, rest: seq<NNEntry>,
                     queue: seq<NNEntry>, knearest: real, top: NNEntry)
    requires multiset(results) + (Pending(pages, rest) + Behind(pages, top)) == Data(pages)
    requires NewItems(P, pages, query, rest, 0, top.minDist) && NewItems(P, pages, query, queue, |rest|, top.minDist)
    requires |rest| <= |queue| && queue[..|rest|] == rest
    requires Pending(pages, queue) == Pending(pages, rest) + Behind(pages, top)
    requires (forall j :: 0 <= j < |results| ==> Far(query, results[j]) <= top.minDist) && Ranked(query, k, results, knearest)
    ensures Searching(P, pages, query, k, results, queue, knearest)
  {
    forall i | 0 <= i < |queue| ensures Sensible(P, pages, query, queue[i]) && top.minDist <= queue[i].minDist {
      if i < |rest| {
        assert queue[i] == rest[i];
      }
    }
  }

  /** A data entry was taken off and reported. */
  lemma ReportedStep(P: Params, pages: map<Id, Page>, query: Region, k: nat, results: seq<Entry>, rest: seq<NNEntry>,
                     knearest: real, top: NNEntry)
    requires top.DataItem? && Sensible(P, pages, query, top)
    requires multiset(results) + (Pending(pages, rest) + Behind(pages, top)) == Data(pages)
    requires NewItems(P, pages, query, rest, 0, top.minDist)
    requires (forall j :: 0 <= j < |results| ==> Far(query, results[j]) <= top.minDist) && Ranked(query, k, results, knearest)
    requires |results| < k || top.minDist <= knearest
    ensures Searching(P, pages, query, k, results + [top.e], rest, top.minDist)
  {
    hide Pending, Far, Data;
    assert Behind(pages, top) == multiset{top.e};
    Regroup(multiset(results), Pending(pages, rest), multiset{top.e});
    assert multiset(results + [top.e]) == multiset(results) + multiset{top.e};
  }

  /** The search stops: everything left is farther. */
  lemma StopFound(P: Params, pages: map<Id, Page>, par: map<Id, Id>, root: Id, query: Region, k: nat, results: seq<Entry>,
                  queue: seq<NNEntry>, knearest: real)
    requires Sound(P, pages, par, root) && IsBox(query, P.dim) && Proper(query) && AllProper(Data(pages))
    requires Searching(P, pages, query, k, results, queue, knearest)
    requires queue == [] || (|results| >= k && forall j :: 0 <= j < |queue| ==> queue[j].minDist > knearest)
    ensures Found(pages, query, k, results, Pending(pages, queue))
  {
    var rest := Pending(pages, queue);
    forall x | x in rest ensures |results| >= k && Far(query, x) > knearest {
      PendingMember(pages, queue, x);
      var i :| 0 <= i < |queue| && x in Behind(pages, queue[i]);
      SensibleBound(P, pages, par, root, query, queue[i], x);
    }
    if rest != multiset{} {
      var x :| x in rest;
    }
  }

  /** The search loop of `nearestNeighborQuery`. */
  method Search(t: RTree, k: nat, query: Region) returns (results: seq<Entry>, ghost rest: multiset<Entry>)
    requires Sound(t.P, t.pages, t.par, t.rootID) && IsBox(query, t.P.dim) && Proper(query) && AllProper(Data(t.pages))
    ensures Found(t.pages, query, k, results, rest)
  {
    hide *;
    SearchStart(t, query, k);
    var queue := [NodeItem(t.rootID, 0.0)];
    var count, knearest := 0, 0.0;
    results := [];
    while queue != []
      invariant Searching(t.P, t.pages, query, k, results, queue, knearest) && count == |results|
      decreases Load(t.pages, queue)
    {
      var i := Top(queue);
      var first := queue[i];
      if count >= k && first.minDist > knearest {
        break;
      }
      TopFacts(t.P, t.pages, query, k, results, queue, knearest, i);
      var others := queue[..i] + queue[i+1..];
      WeightPositive(t.pages, first);
      match first
      case NodeItem(id, minDist) =>
        SensibleNode(t.P, t.pages, query, first);
        var n := ReadPage(t, id);
        queue := Expand(t, query, n, others, minDist);
        ExpandedStep(t.P, t.pages, query, k, results, others, queue, knearest, first);
      case DataItem(e, minDist) =>
        ReportedStep(t.P, t.pages, query, k, results, others, knearest, first);
        queue := others;
        results := results + [e];
        count := count + 1;
        knearest := minDist;
    }
    StopFound(t.P, t.pages, t.par, t.rootID, query, k, results, queue, knearest);
    rest := Pending(t.pages, queue);
  }

  lemma WeightPositive(pages: map<Id, Page>, item: NNEntry)
    ensures Weight(pages, item) >= 1
  {
  }

  lemma SensibleNode(P: Params, pages: map<Id, Page>, query: Region, item: NNEntry)
    requires item.NodeItem? && Sensible(P, pages, query, item)
    ensures item.id in pages && IsBox(query, P.dim) && IsBox(pages[item.id].mbr, P.dim)
    ensures IsBox(query, |query.low|) && IsBox(pages[item.id].mbr, |query.low|)
    ensures item.minDist <= Distance2(query, pages[item.id].mbr)
  {
  }

  /** `nearestNeighborQuery`: refused when the query has the wrong number of dimensions; otherwise the
      entries come in order of distance, and an entry is among them exactly if fewer than `k` stored
      entries have a point strictly nearer to the query (for `k` zero: exactly if it shares a point with
      the query). */
  method NearestNeighborQuery(t: RTree, k: nat, query: Region) returns (ok: bool, results: seq<Entry>)
    requires Sound(t.P, t.pages, t.par, t.rootID) && Proper(query) && AllProper(Data(t.pages))
    ensures ok <==> |query.low| == t.P.dim
    ensures ok ==> forall i, j :: 0 <= i < j < |results| ==> !Closer(query, results[j], results[i])
    ensures ok ==> forall x :: multiset(results)[x] == if Closest(Data(t.pages), query, k, x) then Data(t.pages)[x] else 0
  {
    hide *;
    ok, results := |query.low| == t.P.dim, [];
    if ok {
      ghost var rest;
      DataShaped(t.P, t.pages, t.par, t.rootID);
      QueryBox(query, t.P.dim);
      results, rest := Search(t, k, query);
      FoundOrder(t.pages, query, k, results, rest);
      forall x ensures multiset(results)[x] == if Closest(Data(t.pages), query, k, x) then Data(t.pages)[x] else 0 {
        FoundExact(t.pages, query, k, results, rest, x);
        if x in Data(t.pages) {
          ClosestFar(Data(t.pages), query, k, x);
        }
      }
      forall i, j | 0 <= i < j < |results| ensures !Closer(query, results[j], results[i]) {
        FoundProper(t.pages, query, k, results, rest, i);
        FoundProper(t.pages, query, k, results, rest, j);
        CloserFar(query, results[j], results[i]);
      }
    }
  }

  lemma QueryBox(query: Region, dim: nat)
    requires Proper(query) && |query.low| == dim
    ensures IsBox(query, dim)
  {
  }

  lemma FoundProper(pages: map<Id, Page>, query: Region, k: nat, results: seq<Entry>, rest: multiset<Entry>, i: nat)
    requires Found(pages, query, k, results, rest) && i < |results| && AllProper(Data(pages))
    ensures results[i] in Data(pages) && Proper(results[i].mbr)
  {
    hide Data;
    assert results[i] in multiset(results);
  }

  lemma DataShaped(P: Params, pages: map<Id, Page>, par: map<Id, Id>, root: Id)
    requires Sound(P, pages, par, root)
    ensures forall x :: x in Data(pages) ==> |x.mbr.low| == P.dim
  {
    forall x | x in Data(pages) ensures |x.mbr.low| == P.dim {
      DataMember(pages, pages.Keys, x);
      var p :| p in pages.Keys && x in Leafs(pages[p]);
      assert PageOk(P, pages[p]);
    }
  }

  lemma FoundOrder(pages: map<Id, Page>, query: Region, k: nat, results: seq<Entry>, rest: multiset<Entry>)
    requires Found(pages, query, k, results, rest)
    ensures forall i, j :: 0 <= i < j < |results| ==> Far(query, results[i]) <= Far(query, results[j])
  {
  }
}
