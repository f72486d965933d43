/** The queries: each is a loop over a stack or a priority queue of nodes, measured against what a
    scan over all stored entries would pick out. */
module RTreeQueries {
  import opened Geometry
  import opened Pages
  import opened RTreeNode
  import opened RTreeModel
  import opened Subtrees

  // ---------------------------------------------------------------- picking out entries

  /** The entries of `m` that satisfy `f`, each as often as it is there. */
  ghost function Pick(m: multiset<Entry>, f: Entry -> bool): multiset<Entry>
    decreases |m|
  {
    if m == multiset{} then multiset{}
    else
      var x :| x in m;
      var rest := m - multiset{x};
      if f(x) then Pick(rest, f) + multiset{x} else Pick(rest, f)
  }

  lemma {:induction false} PickEach(m: multiset<Entry>, f: Entry -> bool, x: Entry)
    ensures Pick(m, f)[x] == if f(x) then m[x] else 0
    decreases |m|
  {
    if m != multiset{} {
      var y :| y in m && Pick(m, f) == if f(y) then Pick(m - multiset{y}, f) + multiset{y} else Pick(m - multiset{y}, f);
      PickEach(m - multiset{y}, f, x);
    }
  }

  lemma PickSum(a: multiset<Entry>, b: multiset<Entry>, f: Entry -> bool)
    ensures Pick(a + b, f) == Pick(a, f) + Pick(b, f)
  {
    forall x ensures Pick(a + b, f)[x] == (Pick(a, f) + Pick(b, f))[x] {
      PickEach(a + b, f, x);
      PickEach(a, f, x);
      PickEach(b, f, x);
    }
  }

  lemma PickNone(a: multiset<Entry>, f: Entry -> bool)
    requires forall x :: x in a ==> !f(x)
    ensures Pick(a, f) == multiset{}
  {
    forall x ensures Pick(a, f)[x] == 0 {
      PickEach(a, f, x);
    }
  }

  lemma PickOne(x: Entry, f: Entry -> bool)
    ensures Pick(multiset{x}, f) == if f(x) then multiset{x} else multiset{}
  {
    forall y ensures Pick(multiset{x}, f)[y] == (if f(x) then multiset{x} else multiset{})[y] {
      PickEach(multiset{x}, f, y);
    }
  }

  /** Regrouping a sum of three. */
  lemma Regroup(a: multiset<Entry>, b: multiset<Entry>, c: multiset<Entry>)
    ensures (a + b) + c == a + (b + c) && (a + b) + c == (a + c) + b
  {
  }

  /** What lies below the nodes of a stack. */
  ghost function Content(pages: map<Id, Page>, st: seq<Held>): multiset<Entry> {
    if st == [] then multiset{}
    else Content(pages, st[..|st|-1]) + multiset(Under(pages, st[|st|-1].id, st[|st|-1].page.level))
  }

  /** The number of nodes at and below page `id`, and of the data entries there. */
  ghost function Size(pages: map<Id, Page>, id: Id, level: nat): nat
    decreases level, 0, 0
  {
    if id !in pages || pages[id].level != level then 1
    else if level == 0 then 1 + |pages[id].entries|
    else 1 + SizeAll(pages, pages[id].entries, level - 1)
  }

  ghost function SizeAll(pages: map<Id, Page>, es: seq<Entry>, level: nat): nat
    decreases level, 1, |es|
  {
    if es == [] then 0
    else SizeAll(pages, es[..|es|-1], level) + Size(pages, es[|es|-1].id, level)
  }

  ghost function Work(pages: map<Id, Page>, st: seq<Held>): nat {
    if st == [] then 0
    else Work(pages, st[..|st|-1]) + Size(pages, st[|st|-1].id, st[|st|-1].page.level)
  }

  lemma StackPush(pages: map<Id, Page>, st: seq<Held>, h: Held)
    ensures Content(pages, st + [h]) == Content(pages, st) + multiset(Under(pages, h.id, h.page.level))
    ensures Work(pages, st + [h]) == Work(pages, st) + Size(pages, h.id, h.page.level)
  {
    assert (st + [h])[..|st|] == st;
  }

  lemma AllNext(pages: map<Id, Page>, es: seq<Entry>, level: nat, k: nat)
    requires k < |es|
    ensures UnderAll(pages, es[..k+1], level) == UnderAll(pages, es[..k], level) + Under(pages, es[k].id, level)
    ensures SizeAll(pages, es[..k+1], level) == SizeAll(pages, es[..k], level) + Size(pages, es[k].id, level)
  {
    assert es[..k+1][..k] == es[..k];
  }

  /** The data entries behind the first `k` entries of a node. */
  ghost function Partial(pages: map<Id, Page>, n: Held, k: nat): multiset<Entry>
    requires k <= |n.page.entries|
  {
    if n.page.level == 0 then multiset(n.page.entries[..k])
    else multiset(UnderAll(pages, n.page.entries[..k], n.page.level - 1))
  }

  /** Every node on the stack is a page of the tree. */
  ghost predicate Read(pages: map<Id, Page>, st: seq<Held>) {
    forall i :: 0 <= i < |st| ==> st[i].id in pages && st[i].page == pages[st[i].id]
  }

  /** Reads a node for a stack. */
  method ReadPage(t: RTree, id: Id) returns (h: Held)
    requires id in t.pages
    ensures h == Held(id, t.pages[id])
  {
    var n := t.ReadNode(id);
    h := Held(n.identifier, Page(n.level, n.mbr, n.entries));
  }

  // ---------------------------------------------------------------- rangeQuery

  datatype RangeQueryType = ContainmentQuery | IntersectionQuery

  ghost predicate Hit(kind: RangeQueryType, query: Region, x: Entry) {
    && IsBox(query, |query.low|) && IsBox(x.mbr, |query.low|)
    && if kind == ContainmentQuery then Contains(query, x.mbr) else Intersects(query, x.mbr)
  }

  ghost function Hits(kind: RangeQueryType, query: Region): Entry -> bool {
    x => Hit(kind, query, x)
  }

  /** Stored boxes are not inverted. */
  ghost predicate AllProper(data: multiset<Entry>) {
    forall x :: x in data ==> Proper(x.mbr)
  }

  /** What a query needs to know about the root. */
  lemma QueryFacts(t: RTree)
    requires Sound(t.P, t.pages, t.par, t.rootID)
    ensures t.rootID in t.pages
    ensures multiset(Under(t.pages, t.rootID, t.pages[t.rootID].level)) == Data(t.pages)
    ensures PageOk(t.P, t.pages[t.rootID])
  {
    UnderRootIsAll(t.P, t.pages, t.par, t.rootID);
  }

  /** A subtree whose box the query misses holds nothing to report. */
  lemma Pruned(P: Params, pages: map<Id, Page>, par: map<Id, Id>, root: Id, id: Id, kind: RangeQueryType, query: Region)
    requires Sound(P, pages, par, root) && id in pages && IsBox(query, P.dim)
    requires IsBox(pages[id].mbr, P.dim) && !Intersects(query, pages[id].mbr)
    requires kind == ContainmentQuery ==> AllProper(Data(pages))
    ensures Pick(multiset(Under(pages, id, pages[id].level)), Hits(kind, query)) == multiset{}
  {
    var below := multiset(Under(pages, id, pages[id].level));
    forall x | x in below ensures !Hits(kind, query)(x) {
      UnderInside(P, pages, par, root, id, x);
      UnderStored(pages, id, pages[id].level, x);
      if Hit(kind, query, x) {
        if kind == ContainmentQuery {
          ContainmentIntersects(query, x.mbr);
        }
        IntersectsOutward(query, pages[id].mbr, x.mbr);
      }
    }
    PickNone(below, Hits(kind, query));
  }

  /** The facts about child `i` of an index node. */
  lemma ChildRead(P: Params, pages: map<Id, Page>, par: map<Id, Id>, root: Id, n: Held, i: nat)
    requires Sound(P, pages, par, root) && n.id in pages && n.page == pages[n.id]
    requires n.page.level > 0 && i < |n.page.entries|
    ensures
      var e := n.page.entries[i];
      e.id in pages && e.mbr == pages[e.id].mbr && IsBox(e.mbr, P.dim) && pages[e.id].level == n.page.level - 1
  {
    assert n.page.entries[i].id in Kids(n.page);
    assert PageOk(P, n.page) && Fresh(n.page, pages, {});
  }

  /** The leaf branch: the entries of a leaf that the query hits are reported. */
  method ReportHits(n: Page, kind: RangeQueryType, query: Region, results: seq<Entry>) returns (results': seq<Entry>)
    requires Boxes(n.entries, |query.low|) && IsBox(query, |query.low|)
    ensures multiset(results') == multiset(results) + Pick(multiset(n.entries), Hits(kind, query))
  {
    results' := results;
    ghost var f, all := Hits(kind, query), n.entries;
    hide *;
    assert n.entries[..0] == [];
    PickEmpty(f);
    for cChild := 0 to |n.entries|
      invariant multiset(results') == multiset(results) + Pick(multiset(all[..cChild]), f)
    {
      ghost var before := results';
      results' := ReportHit(n, cChild, kind, query, results');
      ReportNext(all, cChild, f);
      Regroup(multiset(results), Pick(multiset(all[..cChild]), f), Pick(multiset{all[cChild]}, f));
    }
    assert all[..|all|] == all;
  }

  lemma ReportNext(es: seq<Entry>, k: nat, f: Entry -> bool)
    requires k < |es|
    ensures Pick(multiset(es[..k+1]), f) == Pick(multiset(es[..k]), f) + Pick(multiset{es[k]}, f)
  {
    assert es[..k+1] == es[..k] + [es[k]];
    PickSum(multiset(es[..k]), multiset{es[k]}, f);
  }

  method ReportHit(n: Page, cChild: nat, kind: RangeQueryType, query: Region, results: seq<Entry>) returns (results': seq<Entry>)
    requires Boxes(n.entries, |query.low|) && IsBox(query, |query.low|) && cChild < |n.entries|
    ensures multiset(results') == multiset(results) + Pick(multiset{n.entries[cChild]}, Hits(kind, query))
  {
    var e := n.entries[cChild];
    PickOne(e, Hits(kind, query));
    var b;
    if kind == ContainmentQuery {
      b := Contains(query, e.mbr);
    } else {
      b := Intersects(query, e.mbr);
    }
    assert b == Hits(kind, query)(e);
    results' := if b then results + [e] else results;
  }

  /** What the nodes of a stack, one subtree, or the children of a node still owe to the result. */
  ghost function Owed(pages: map<Id, Page>, st: seq<Held>, f: Entry -> bool): multiset<Entry> {
    Pick(Content(pages, st), f)
  }

  ghost function OwedAt(pages: map<Id, Page>, id: Id, level: nat, f: Entry -> bool): multiset<Entry> {
    Pick(multiset(Under(pages, id, level)), f)
  }

  ghost function OwedBelow(pages: map<Id, Page>, es: seq<Entry>, level: nat, f: Entry -> bool): multiset<Entry> {
    Pick(multiset(UnderAll(pages, es, level)), f)
  }

  lemma OwedPush(pages: map<Id, Page>, st: seq<Held>, h: Held, f: Entry -> bool)
    ensures Owed(pages, st + [h], f) == Owed(pages, st, f) + OwedAt(pages, h.id, h.page.level, f)
    ensures Work(pages, st + [h]) == Work(pages, st) + Size(pages, h.id, h.page.level)
  {
    StackPush(pages, st, h);
    PickSum(Content(pages, st), multiset(Under(pages, h.id, h.page.level)), f);
  }

  /** The children of an index node, one at a time. */
  lemma OwedNext(pages: map<Id, Page>, es: seq<Entry>, level: nat, k: nat, f: Entry -> bool, sum: multiset<Entry>)
    requires k < |es|
    ensures (sum + OwedBelow(pages, es[..k], level, f)) + OwedAt(pages, es[k].id, level, f) == sum + OwedBelow(pages, es[..k+1], level, f)
    ensures SizeAll(pages, es[..k+1], level) == SizeAll(pages, es[..k], level) + Size(pages, es[k].id, level)
  {
    AllNext(pages, es, level, k);
    PickSum(multiset(UnderAll(pages, es[..k], level)), multiset(Under(pages, es[k].id, level)), f);
    Regroup(sum, OwedBelow(pages, es[..k], level, f), OwedAt(pages, es[k].id, level, f));
  }

  lemma OwedStart(pages: map<Id, Page>, n: Held, f: Entry -> bool, sum: multiset<Entry>)
    requires n.id in pages && n.page == pages[n.id] && n.page.level > 0
    ensures sum + OwedBelow(pages, n.page.entries[..0], n.page.level - 1, f) == sum
    ensures SizeAll(pages, n.page.entries[..0], n.page.level - 1) == 0
    ensures OwedBelow(pages, n.page.entries, n.page.level - 1, f) == OwedAt(pages, n.id, n.page.level, f)
    ensures Size(pages, n.id, n.page.level) == 1 + SizeAll(pages, n.page.entries, n.page.level - 1)
    ensures n.page.entries[..|n.page.entries|] == n.page.entries
  {
    PickEmpty(f);
  }

  /** The index branch: the children whose box the query meets are read and pushed. */
  method PushHits(t: RTree, n: Held, kind: RangeQueryType, query: Region, st: seq<Held>) returns (st': seq<Held>)
    requires Sound(t.P, t.pages, t.par, t.rootID) && IsBox(query, t.P.dim)
    requires n.id in t.pages && n.page == t.pages[n.id] && n.page.level > 0 && Read(t.pages, st)
    requires kind == ContainmentQuery ==> AllProper(Data(t.pages))
    ensures Read(t.pages, st') && Work(t.pages, st') < Work(t.pages, st) + Size(t.pages, n.id, n.page.level)
    ensures Owed(t.pages, st', Hits(kind, query))
         == Owed(t.pages, st, Hits(kind, query)) + OwedAt(t.pages, n.id, n.page.level, Hits(kind, query))
  {
    hide *;
    st' := st;
    ghost var f, es, level := Hits(kind, query), n.page.entries, n.page.level - 1;
    ghost var sum, work := Owed(t.pages, st, f), Work(t.pages, st);
    OwedStart(t.pages, n, f, sum);
    for cChild := 0 to |n.page.entries|
      invariant Read(t.pages, st')
      invariant Work(t.pages, st') <= work + SizeAll(t.pages, es[..cChild], level)
      invariant Owed(t.pages, st', f) == sum + OwedBelow(t.pages, es[..cChild], level, f)
    {
      OwedNext(t.pages, es, level, cChild, f, sum);
      st' := PushHit(t, n, cChild, kind, query, st');
    }
  }

  /** One turn of the loop over the children. */
  method PushHit(t: RTree, n: Held, cChild: nat, kind: RangeQueryType, query: Region, st: seq<Held>) returns (st': seq<Held>)
    requires Sound(t.P, t.pages, t.par, t.rootID) && IsBox(query, t.P.dim)
    requires n.id in t.pages && n.page == t.pages[n.id] && n.page.level > 0 && Read(t.pages, st) && cChild < |n.page.entries|
    requires kind == ContainmentQuery ==> AllProper(Data(t.pages))
    ensures Read(t.pages, st')
    ensures Work(t.pages, st') <= Work(t.pages, st) + Size(t.pages, n.page.entries[cChild].id, n.page.level - 1)
    ensures Owed(t.pages, st', Hits(kind, query))
         == Owed(t.pages, st, Hits(kind, query)) + OwedAt(t.pages, n.page.entries[cChild].id, n.page.level - 1, Hits(kind, query))
  {
    hide *;
    ghost var c, f := n.page.entries[cChild].id, Hits(kind, query);
    ChildRead(t.P, t.pages, t.par, t.rootID, n, cChild);
    BoxFacts(t.P, query, n.page.entries[cChild].mbr);
    st' := st;
    if Intersects(query, n.page.entries[cChild].mbr) {
      var held := ReadPage(t, n.page.entries[cChild].id);
      OwedPush(t.pages, st, held, f);
      ReadPush(t.pages, st, held);
      st' := st + [held];
    } else {
      Pruned(t.P, t.pages, t.par, t.rootID, c, kind, query);
      OwedNothing(t.pages, c, n.page.level - 1, f, Owed(t.pages, st, f));
    }
  }

  lemma BoxFacts(P: Params, query: Region, box: Region)
    requires IsBox(query, P.dim) && IsBox(box, P.dim)
    ensures IsBox(query, |query.low|) && IsBox(box, |query.low|)
  {
  }

  lemma ReadPush(pages: map<Id, Page>, st: seq<Held>, h: Held)
    requires Read(pages, st) && h.id in pages && h.page == pages[h.id]
    ensures Read(pages, st + [h])
  {
  }

  lemma OwedNothing(pages: map<Id, Page>, id: Id, level: nat, f: Entry -> bool, sum: multiset<Entry>)
    requires Pick(multiset(Under(pages, id, level)), f) == multiset{}
    ensures sum + OwedAt(pages, id, level, f) == sum
  {
  }

  /** The loop of `rangeQuery`. */
  method RangeLoop(t: RTree, kind: RangeQueryType, query: Region) returns (results: seq<Entry>)
    requires Sound(t.P, t.pages, t.par, t.rootID) && IsBox(query, t.P.dim)
    requires kind == ContainmentQuery ==> AllProper(Data(t.pages))
    ensures multiset(results) == Pick(Data(t.pages), Hits(kind, query))
  {
    hide *;
    ghost var f, goal := Hits(kind, query), Pick(Data(t.pages), Hits(kind, query));
    var st := StartRange(t, kind, query);
    results := [];
    OwedEnd(t.pages, f, goal);
    while st != []
      invariant Read(t.pages, st)
      invariant multiset(results) + Owed(t.pages, st, f) == goal
      decreases Work(t.pages, st)
    {
      assert st == st[..|st|-1] + [st[|st|-1]];
      var n := st[|st|-1];
      st := st[..|st|-1];
      PopFacts(t, st, n, query);
      OwedPush(t.pages, st, n, f);
      Regroup(multiset(results), Owed(t.pages, st, f), OwedAt(t.pages, n.id, n.page.level, f));
      if n.page.level == 0 {
        OwedLeaf(t.pages, n, f);
        results := ReportHits(n.page, kind, query, results);
      } else {
        st := PushHits(t, n, kind, query, st);
      }
    }
    OwedEnd(t.pages, f, multiset(results));
  }

  lemma OwedLeaf(pages: map<Id, Page>, n: Held, f: Entry -> bool)
    requires n.id in pages && n.page == pages[n.id] && n.page.level == 0
    ensures OwedAt(pages, n.id, n.page.level, f) == Pick(multiset(n.page.entries), f)
  {
  }

  lemma OwedEnd(pages: map<Id, Page>, f: Entry -> bool, sum: multiset<Entry>)
    ensures sum + Owed(pages, [], f) == sum
  {
    PickEmpty(f);
  }

  /** The root is pushed if it has entries and the query meets it. */
  method StartRange(t: RTree, kind: RangeQueryType, query: Region) returns (st: seq<Held>)
    requires Sound(t.P, t.pages, t.par, t.rootID) && IsBox(query, t.P.dim)
    requires kind == ContainmentQuery ==> AllProper(Data(t.pages))
    ensures Read(t.pages, st) && Owed(t.pages, st, Hits(kind, query)) == Pick(Data(t.pages), Hits(kind, query))
  {
    QueryFacts(t);
    BoxFacts(t.P, query, t.pages[t.rootID].mbr);
    ReadNone(t.pages);
    hide *;
    st := [];
    var held := ReadPage(t, t.rootID);
    if |held.page.entries| > 0 && Intersects(query, held.page.mbr) {
      OwedRoot(t.pages, held, Hits(kind, query));
      ReadPush(t.pages, [], held);
      st := [] + [held];
    } else {
      RootMissed(t, kind, query);
    }
  }

  lemma ReadNone(pages: map<Id, Page>)
    ensures Read(pages, [])
  {
  }

  lemma OwedRoot(pages: map<Id, Page>, h: Held, f: Entry -> bool)
    ensures Owed(pages, [] + [h], f) == OwedAt(pages, h.id, h.page.level, f)
    ensures OwedAt(pages, h.id, h.page.level, f) == Pick(multiset(Under(pages, h.id, h.page.level)), f)
  {
    StackPush(pages, [], h);
    assert multiset{} + multiset(Under(pages, h.id, h.page.level)) == multiset(Under(pages, h.id, h.page.level));
  }

  lemma PickEmpty(f: Entry -> bool)
    ensures Pick(multiset{}, f) == multiset{}
  {
  }

  lemma RootMissed(t: RTree, kind: RangeQueryType, query: Region)
    requires Sound(t.P, t.pages, t.par, t.rootID) && IsBox(query, t.P.dim) && t.rootID in t.pages
    requires kind == ContainmentQuery ==> AllProper(Data(t.pages))
    requires PageOk(t.P, t.pages[t.rootID])
    requires |t.pages[t.rootID].entries| == 0 || !Intersects(query, t.pages[t.rootID].mbr)
    ensures Owed(t.pages, [], Hits(kind, query)) == Pick(Data(t.pages), Hits(kind, query))
  {
    QueryFacts(t);
    PickEmpty(Hits(kind, query));
    if |t.pages[t.rootID].entries| > 0 {
      Pruned(t.P, t.pages, t.par, t.rootID, t.rootID, kind, query);
    }
  }

  lemma PopFacts(t: RTree, st: seq<Held>, n: Held, query: Region)
    requires Sound(t.P, t.pages, t.par, t.rootID) && Read(t.pages, st + [n]) && IsBox(query, t.P.dim)
    ensures n.id in t.pages && n.page == t.pages[n.id] && Read(t.pages, st) && Boxes(n.page.entries, |query.low|)
    ensures IsBox(query, |query.low|)
    ensures Work(t.pages, st + [n]) == Work(t.pages, st) + Size(t.pages, n.id, n.page.level) > Work(t.pages, st)
  {
    var all := st + [n];
    assert all[|st|] == n;
    assert forall i :: 0 <= i < |st| ==> all[i] == st[i];
    StackPush(t.pages, st, n);
    assert PageOk(t.P, t.pages[n.id]);
  }

  /** `containsWhatQuery` and `intersectsWithQuery`: refused when the query has the wrong number of
      dimensions; otherwise every stored entry that the query contains, or meets, is reported exactly
      as often as it is stored, and nothing else is. */
  method RangeQuery(t: RTree, kind: RangeQueryType, query: Region) returns (ok: bool, results: seq<Entry>)
    requires Sound(t.P, t.pages, t.par, t.rootID) && |query.low| == |query.high|
    requires kind == ContainmentQuery ==> AllProper(Data(t.pages))
    ensures ok <==> |query.low| == t.P.dim
    ensures !ok ==> results == []
    ensures ok ==> forall x :: multiset(results)[x] == if Hit(kind, query, x) then Data(t.pages)[x] else 0
  {
    hide Sound;
    ok, results := |query.low| == t.P.dim, [];
    if ok {
      results := RangeLoop(t, kind, query);
      forall x ensures multiset(results)[x] == if Hit(kind, query, x) then Data(t.pages)[x] else 0 {
        PickEach(Data(t.pages), Hits(kind, query), x);
      }
    }
  }

  /** `pointLocationQuery`: the entries whose box covers the point. */
  method PointLocationQuery(t: RTree, point: seq<real>) returns (ok: bool, results: seq<Entry>)
    requires Sound(t.P, t.pages, t.par, t.rootID)
    ensures ok <==> |point| == t.P.dim
    ensures ok ==> forall x :: multiset(results)[x] == if Covers(x.mbr, point) then Data(t.pages)[x] else 0
  {
    hide Sound;
    ok, results := RangeQuery(t, IntersectionQuery, Region(point, point));
    forall x ensures Hit(IntersectionQuery, Region(point, point), x) <==> Covers(x.mbr, point) {
    }
  }

  ghost predicate Covers(r: Region, point: seq<real>) {
    IsBox(r, |point|) && forall d :: 0 <= d < |point| ==> r.low[d] <= point[d] <= r.high[d]
  }
}
