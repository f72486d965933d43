/** The self-join query: a simultaneous descent into pairs of subtrees with a query that is narrowed
    at every level. */
module RTreeSelfJoin {
  import opened Geometry
  import opened Pages
  import opened RTreeNode
  import opened RTreeModel
  import opened Subtrees
  import opened RTreeQueries
  import RTreeNeighbors
  import RTreeRuns

  type Pair = (Entry, Entry)

  /** Two entries of different ids whose boxes meet the query and each other. */
  ghost predicate Join(r: Region, x: Entry, y: Entry) {
    && x.id != y.id
    && IsBox(r, |r.low|) && IsBox(x.mbr, |r.low|) && IsBox(y.mbr, |r.low|)
    && Intersects(r, x.mbr) && Intersects(r, y.mbr) && Intersects(x.mbr, y.mbr)
  }

  // ---------------------------------------------------------------- all pairs, by a double scan

  ghost function Row(x: Entry, b: multiset<Entry>, r: Region): multiset<Pair>
    decreases |b|
  {
    if b == multiset{} then multiset{}
    else
      var y :| y in b;
      if Join(r, x, y) then Row(x, b - multiset{y}, r) + multiset{(x, y)} else Row(x, b - multiset{y}, r)
  }

  /** All joining pairs of an entry of `a` and an entry of `b`. */
  ghost function Cross(a: multiset<Entry>, b: multiset<Entry>, r: Region): multiset<Pair>
    decreases |a|
  {
    if a == multiset{} then multiset{}
    else
      var x :| x in a;
      Cross(a - multiset{x}, b, r) + Row(x, b, r)
  }

  lemma {:induction false} RowEach(x: Entry, b: multiset<Entry>, r: Region, u: Entry, v: Entry)
    ensures Row(x, b, r)[(u, v)] == if u == x && Join(r, u, v) then b[v] else 0
    decreases |b|
  {
    if b != multiset{} {
      var y :| y in b && Row(x, b, r) == if Join(r, x, y) then Row(x, b - multiset{y}, r) + multiset{(x, y)} else Row(x, b - multiset{y}, r);
      RowEach(x, b - multiset{y}, r, u, v);
    }
  }

  /** A joining pair comes as often as its entries are there together. */
  lemma {:induction false} CrossEach(a: multiset<Entry>, b: multiset<Entry>, r: Region, u: Entry, v: Entry)
    ensures Cross(a, b, r)[(u, v)] == if Join(r, u, v) then a[u] * b[v] else 0
    decreases |a|
  {
    if a != multiset{} {
      var x :| x in a && Cross(a, b, r) == Cross(a - multiset{x}, b, r) + Row(x, b, r);
      var rest := a - multiset{x};
      hide Join;
      CrossEach(rest, b, r, u, v);
      RowEach(x, b, r, u, v);
      var once := if u == x then 1 else 0;
      assert a[u] == rest[u] + once;
      Distribute(rest[u], once, b[v]);
      assert Cross(a, b, r)[(u, v)] == Cross(rest, b, r)[(u, v)] + Row(x, b, r)[(u, v)];
    }
  }

  lemma Distribute(x: int, y: int, z: int)
    ensures (x + y) * z == x * z + y * z && z * (x + y) == z * x + z * y
  {
  }

  lemma CrossSame(a: multiset<Entry>, b: multiset<Entry>, r: Region, r': Region)
    requires forall x, y :: x in a && y in b ==> (Join(r, x, y) <==> Join(r', x, y))
    ensures Cross(a, b, r) == Cross(a, b, r')
  {
    forall p: Pair ensures Cross(a, b, r)[p] == Cross(a, b, r')[p] {
      CrossEach(a, b, r, p.0, p.1);
      CrossEach(a, b, r', p.0, p.1);
      if p.0 !in a || p.1 !in b {
        assert a[p.0] * b[p.1] == 0;
      }
    }
  }

  lemma CrossNone(a: multiset<Entry>, b: multiset<Entry>, r: Region)
    requires forall x, y :: x in a && y in b ==> !Join(r, x, y)
    ensures Cross(a, b, r) == multiset{}
  {
    forall p: Pair ensures Cross(a, b, r)[p] == 0 {
      CrossEach(a, b, r, p.0, p.1);
      if p.0 !in a || p.1 !in b {
        assert a[p.0] * b[p.1] == 0;
      }
    }
  }

  lemma CrossLeft(a: multiset<Entry>, a': multiset<Entry>, b: multiset<Entry>, r: Region)
    ensures Cross(a + a', b, r) == Cross(a, b, r) + Cross(a', b, r)
  {
    hide Cross, Join;
    forall p: Pair ensures Cross(a + a', b, r)[p] == (Cross(a, b, r) + Cross(a', b, r))[p] {
      CrossEach(a, b, r, p.0, p.1);
      CrossEach(a', b, r, p.0, p.1);
      CrossEach(a + a', b, r, p.0, p.1);
      Distribute(a[p.0], a'[p.0], b[p.1]);
    }
  }

  lemma CrossRight(a: multiset<Entry>, b: multiset<Entry>, b': multiset<Entry>, r: Region)
    ensures Cross(a, b + b', r) == Cross(a, b, r) + Cross(a, b', r)
  {
    hide Cross, Join;
    forall p: Pair ensures Cross(a, b + b', r)[p] == (Cross(a, b, r) + Cross(a, b', r))[p] {
      CrossEach(a, b, r, p.0, p.1);
      CrossEach(a, b', r, p.0, p.1);
      CrossEach(a, b + b', r, p.0, p.1);
      Distribute(b[p.1], b'[p.1], a[p.0]);
    }
  }

  lemma CrossOne(x: Entry, y: Entry, r: Region)
    ensures Cross(multiset{x}, multiset{y}, r) == if Join(r, x, y) then multiset{(x, y)} else multiset{}
  {
    hide Cross, Join;
    forall p: Pair ensures Cross(multiset{x}, multiset{y}, r)[p] == (if Join(r, x, y) then multiset{(x, y)} else multiset{})[p] {
      CrossEach(multiset{x}, multiset{y}, r, p.0, p.1);
    }
  }

  // ---------------------------------------------------------------- the descent

  /** The data entries behind one entry of a node. */
  ghost function Part(pages: map<Id, Page>, n: Held, i: nat): multiset<Entry>
    requires i < |n.page.entries|
  {
    if n.page.level == 0 then multiset{n.page.entries[i]}
    else multiset(Under(pages, n.page.entries[i].id, n.page.level - 1))
  }

  ghost function Whole(pages: map<Id, Page>, n: Held): multiset<Entry> {
    multiset(Under(pages, n.id, n.page.level))
  }

  lemma PartialNext(pages: map<Id, Page>, n: Held, k: nat)
    requires k < |n.page.entries|
    ensures Partial(pages, n, k + 1) == Partial(pages, n, k) + Part(pages, n, k)
  {
    if n.page.level == 0 {
      assert n.page.entries[..k+1] == n.page.entries[..k] + [n.page.entries[k]];
    } else {
      AllNext(pages, n.page.entries, n.page.level - 1, k);
    }
  }

  lemma PartialAll(pages: map<Id, Page>, n: Held)
    requires n.id in pages && n.page == pages[n.id]
    ensures Partial(pages, n, 0) == multiset{} && Partial(pages, n, |n.page.entries|) == Whole(pages, n)
  {
    assert n.page.entries[..|n.page.entries|] == n.page.entries;
  }

  /** What is behind an entry of a node lies inside the entry's box and is stored. */
  lemma PartInside(P: Params, pages: map<Id, Page>, par: map<Id, Id>, root: Id, n: Held, i: nat, x: Entry)
    requires Sound(P, pages, par, root) && n.id in pages && n.page == pages[n.id]
    requires i < |n.page.entries| && x in Part(pages, n, i) && AllProper(Data(pages))
    ensures IsBox(n.page.entries[i].mbr, P.dim) && IsBox(x.mbr, P.dim) && Contains(n.page.entries[i].mbr, x.mbr)
    ensures Proper(x.mbr) && Proper(n.page.entries[i].mbr)
  {
    var e := n.page.entries[i];
    if n.page.level == 0 {
      assert PageOk(P, n.page);
      assert e in Leafs(n.page);
      DataMember(pages, pages.Keys, e);
    } else {
      ChildRead(P, pages, par, root, n, i);
      UnderInside(P, pages, par, root, e.id, x);
      UnderStored(pages, e.id, n.page.level - 1, x);
    }
  }

  /** Boxes of node entries have the dimension of the tree, and those of children are not inverted. */
  lemma EntryBox(P: Params, pages: map<Id, Page>, par: map<Id, Id>, root: Id, n: Held, i: nat)
    requires Sound(P, pages, par, root) && n.id in pages && n.page == pages[n.id]
    requires i < |n.page.entries| && AllProper(Data(pages))
    ensures IsBox(n.page.entries[i].mbr, P.dim) && Proper(n.page.entries[i].mbr)
    ensures n.page.level > 0 ==> n.page.entries[i].id in pages && pages[n.page.entries[i].id].level == n.page.level - 1
  {
    assert PageOk(P, n.page);
    if n.page.level == 0 {
      assert n.page.entries[i] in Leafs(n.page);
      DataMember(pages, pages.Keys, n.page.entries[i]);
    } else {
      ChildRead(P, pages, par, root, n, i);
      RTreeNeighbors.BoxProper(P, pages, par, root, n.page.entries[i].id);
    }
  }

  /** A first entry that misses the query joins with nothing. */
  lemma RowMissed(P: Params, pages: map<Id, Page>, par: map<Id, Id>, root: Id, n: Held, i: nat, b: multiset<Entry>, r: Region)
    requires Sound(P, pages, par, root) && n.id in pages && n.page == pages[n.id] && IsBox(r, P.dim)
    requires i < |n.page.entries| && AllProper(Data(pages)) && IsBox(n.page.entries[i].mbr, P.dim)
    requires !Intersects(r, n.page.entries[i].mbr)
    ensures Cross(Part(pages, n, i), b, r) == multiset{}
  {
    forall x, y | x in Part(pages, n, i) && y in b ensures !Join(r, x, y) {
      PartInside(P, pages, par, root, n, i, x);
      if Intersects(r, x.mbr) {
        IntersectsOutward(r, n.page.entries[i].mbr, x.mbr);
      }
    }
    CrossNone(Part(pages, n, i), b, r);
  }

  /** Two entries that miss the query or each other have nothing behind them that joins. */
  lemma PairMissed(P: Params, pages: map<Id, Page>, par: map<Id, Id>, root: Id, n1: Held, i: nat, n2: Held, j: nat, r: Region)
    requires Sound(P, pages, par, root) && AllProper(Data(pages)) && IsBox(r, P.dim)
    requires n1.id in pages && n1.page == pages[n1.id] && i < |n1.page.entries| && IsBox(n1.page.entries[i].mbr, P.dim)
    requires n2.id in pages && n2.page == pages[n2.id] && j < |n2.page.entries| && IsBox(n2.page.entries[j].mbr, P.dim)
    requires !(Intersects(r, n2.page.entries[j].mbr) && Intersects(n1.page.entries[i].mbr, n2.page.entries[j].mbr))
    ensures Cross(Part(pages, n1, i), Part(pages, n2, j), r) == multiset{}
  {
    var a, b := Part(pages, n1, i), Part(pages, n2, j);
    hide Part, Cross, Sound, AllProper, Join;
    forall x, y | x in a && y in b ensures !Join(r, x, y) {
      PartInside(P, pages, par, root, n1, i, x);
      PartInside(P, pages, par, root, n2, j, y);
      if Join(r, x, y) {
        OutwardPair(r, n1.page.entries[i].mbr, n2.page.entries[j].mbr, x, y);
      }
    }
    CrossNone(a, b, r);
  }

  lemma OutwardPair(r: Region, a: Region, b: Region, x: Entry, y: Entry)
    requires IsBox(r, |r.low|) && IsBox(a, |r.low|) && IsBox(b, |r.low|) && IsBox(x.mbr, |r.low|) && IsBox(y.mbr, |r.low|)
    requires Contains(a, x.mbr) && Contains(b, y.mbr) && Join(r, x, y)
    ensures Intersects(r, a) && Intersects(r, b) && Intersects(a, b)
  {
  }

  /** Narrowing the query to what the two boxes have in common changes nothing for pairs below them. */
  lemma Narrowed(P: Params, pages: map<Id, Page>, par: map<Id, Id>, root: Id, n1: Held, i: nat, n2: Held, j: nat, r: Region)
    requires Sound(P, pages, par, root) && AllProper(Data(pages)) && IsBox(r, P.dim) && Proper(r)
    requires n1.id in pages && n1.page == pages[n1.id] && i < |n1.page.entries| && IsBox(n1.page.entries[i].mbr, P.dim)
    requires n2.id in pages && n2.page == pages[n2.id] && j < |n2.page.entries| && IsBox(n2.page.entries[j].mbr, P.dim)
    requires Proper(n1.page.entries[i].mbr) && Proper(n2.page.entries[j].mbr)
    requires Intersects(r, n1.page.entries[i].mbr) && Intersects(r, n2.page.entries[j].mbr)
    requires Intersects(n1.page.entries[i].mbr, n2.page.entries[j].mbr)
    ensures
      var rr := Intersection(r, Intersection(n1.page.entries[i].mbr, n2.page.entries[j].mbr));
      && IsBox(rr, P.dim) && Proper(rr)
      && Cross(Part(pages, n1, i), Part(pages, n2, j), rr) == Cross(Part(pages, n1, i), Part(pages, n2, j), r)
  {
    var a, b := n1.page.entries[i].mbr, n2.page.entries[j].mbr;
    var rr := Intersection(r, Intersection(a, b));
    Helly(r, a, b);
    var s, u := Part(pages, n1, i), Part(pages, n2, j);
    hide Intersection;
    forall x, y | x in s && y in u ensures Join(rr, x, y) <==> Join(r, x, y) {
      PartInside(P, pages, par, root, n1, i, x);
      PartInside(P, pages, par, root, n2, j, y);
      NarrowingExact(r, a, b, x.mbr, y.mbr);
    }
    CrossSame(s, u, rr, r);
  }

  /** `selfJoinQuery` on two nodes of one level. */
  method JoinNodes(t: RTree, id1: Id, id2: Id, r: Region) returns (pairs: seq<Pair>)
    requires Sound(t.P, t.pages, t.par, t.rootID) && AllProper(Data(t.pages)) && IsBox(r, t.P.dim) && Proper(r)
    requires id1 in t.pages && id2 in t.pages && t.pages[id1].level == t.pages[id2].level
    decreases t.pages[id1].level, 2
    ensures multiset(pairs) == Cross(Whole(t.pages, Held(id1, t.pages[id1])), Whole(t.pages, Held(id2, t.pages[id2])), r)
  {
    hide *;
    var n1 := ReadPage(t, id1);
    var n2 := ReadPage(t, id2);
    PartialAll(t.pages, n1);
    pairs := [];
    ghost var all := Whole(t.pages, n2);
    CrossEmpty(all, r);
    for cChild1 := 0 to |n1.page.entries|
      invariant multiset(pairs) == Cross(Partial(t.pages, n1, cChild1), all, r)
    {
      PartialNext(t.pages, n1, cChild1);
      CrossLeft(Partial(t.pages, n1, cChild1), Part(t.pages, n1, cChild1), all, r);
      var more := JoinRow(t, n1, n2, cChild1, r);
      pairs := pairs + more;
    }
  }

  lemma CrossEmpty(b: multiset<Entry>, r: Region)
    ensures Cross(multiset{}, b, r) == multiset{}
  {
  }

  method JoinRow(t: RTree, n1: Held, n2: Held, cChild1: nat, r: Region) returns (pairs: seq<Pair>)
    requires Sound(t.P, t.pages, t.par, t.rootID) && AllProper(Data(t.pages)) && IsBox(r, t.P.dim) && Proper(r)
    requires n1.id in t.pages && n1.page == t.pages[n1.id] && cChild1 < |n1.page.entries|
    requires n2.id in t.pages && n2.page == t.pages[n2.id] && n1.page.level == n2.page.level
    decreases n1.page.level, 1
    ensures multiset(pairs) == Cross(Part(t.pages, n1, cChild1), Whole(t.pages, n2), r)
  {
    hide *;
    pairs := [];
    ghost var part := Part(t.pages, n1, cChild1);
    EntryBox(t.P, t.pages, t.par, t.rootID, n1, cChild1);
    BoxFacts(t.P, r, n1.page.entries[cChild1].mbr);
    PartialAll(t.pages, n2);
    CrossNothing(part, r);
    if Intersects(r, n1.page.entries[cChild1].mbr) {
      for cChild2 := 0 to |n2.page.entries|
        invariant multiset(pairs) == Cross(part, Partial(t.pages, n2, cChild2), r)
      {
        PartialNext(t.pages, n2, cChild2);
        CrossRight(part, Partial(t.pages, n2, cChild2), Part(t.pages, n2, cChild2), r);
        var more := JoinPair(t, n1, n2, cChild1, cChild2, r);
        pairs := pairs + more;
      }
    } else {
      RowMissed(t.P, t.pages, t.par, t.rootID, n1, cChild1, Whole(t.pages, n2), r);
    }
  }

  lemma CrossNothing(a: multiset<Entry>, r: Region)
    ensures Cross(a, multiset{}, r) == multiset{}
  {
    CrossNone(a, multiset{}, r);
  }

  method JoinPair(t: RTree, n1: Held, n2: Held, cChild1: nat, cChild2: nat, r: Region) returns (pairs: seq<Pair>)
    requires Sound(t.P, t.pages, t.par, t.rootID) && AllProper(Data(t.pages)) && IsBox(r, t.P.dim) && Proper(r)
    requires n1.id in t.pages && n1.page == t.pages[n1.id] && cChild1 < |n1.page.entries|
    requires n2.id in t.pages && n2.page == t.pages[n2.id] && cChild2 < |n2.page.entries| && n1.page.level == n2.page.level
    requires IsBox(r, |r.low|) && IsBox(n1.page.entries[cChild1].mbr, |r.low|) && Intersects(r, n1.page.entries[cChild1].mbr)
    decreases n1.page.level, 0
    ensures multiset(pairs) == Cross(Part(t.pages, n1, cChild1), Part(t.pages, n2, cChild2), r)
  {
    hide *;
    pairs := [];
    var e1, e2 := n1.page.entries[cChild1], n2.page.entries[cChild2];
    EntryBox(t.P, t.pages, t.par, t.rootID, n1, cChild1);
    EntryBox(t.P, t.pages, t.par, t.rootID, n2, cChild2);
    PairFacts(t.P, r, e1.mbr, e2.mbr);
    if Intersects(r, e2.mbr) && Intersects(e1.mbr, e2.mbr) {
      if n1.page.level == 0 {
        LeafPair(t.pages, n1, cChild1, n2, cChild2, r);
        if e1.id != e2.id {
          pairs := [(e1, e2)];
        }
      } else {
        Narrowed(t.P, t.pages, t.par, t.rootID, n1, cChild1, n2, cChild2, r);
        PartWhole(t.pages, n1, cChild1);
        PartWhole(t.pages, n2, cChild2);
        var rr := Intersection(r, Intersection(e1.mbr, e2.mbr));
        pairs := JoinNodes(t, e1.id, e2.id, rr);
      }
    } else {
      PairMissed(t.P, t.pages, t.par, t.rootID, n1, cChild1, n2, cChild2, r);
    }
  }

  lemma PairFacts(P: Params, r: Region, a: Region, b: Region)
    requires IsBox(r, P.dim) && IsBox(a, P.dim) && IsBox(b, P.dim)
    ensures IsBox(r, |r.low|) && IsBox(a, |r.low|) && IsBox(b, |r.low|)
    ensures IsBox(a, |a.low|) && IsBox(b, |a.low|) && IsBox(Intersection(a, b), |r.low|)
  {
  }

  lemma PartWhole(pages: map<Id, Page>, n: Held, i: nat)
    requires i < |n.page.entries| && n.page.level > 0
    requires n.page.entries[i].id in pages && pages[n.page.entries[i].id].level == n.page.level - 1
    ensures var c := n.page.entries[i].id; Part(pages, n, i) == Whole(pages, Held(c, pages[c]))
  {
  }

  lemma LeafPair(pages: map<Id, Page>, n1: Held, i: nat, n2: Held, j: nat, r: Region)
    requires n1.page.level == n2.page.level == 0 && i < |n1.page.entries| && j < |n2.page.entries|
    requires
      var a, b := n1.page.entries[i].mbr, n2.page.entries[j].mbr;
      && IsBox(r, |r.low|) && IsBox(a, |r.low|) && IsBox(b, |r.low|)
      && Intersects(r, a) && Intersects(r, b) && Intersects(a, b)
    ensures Cross(Part(pages, n1, i), Part(pages, n2, j), r)
         == if n1.page.entries[i].id != n2.page.entries[j].id then multiset{(n1.page.entries[i], n2.page.entries[j])} else multiset{}
  {
    CrossOne(n1.page.entries[i], n2.page.entries[j], r);
  }

  /** How often two entries are stored together. */
  ghost function Together(data: multiset<Entry>, x: Entry, y: Entry): nat {
    data[x] * data[y]
  }

  /** `selfJoinQuery`: refused when the query has the wrong number of dimensions; otherwise every
      ordered pair of stored entries with different ids whose boxes meet the query and each other is
      reported, as often as the two are stored together, and no other pair is. */
  method SelfJoinQuery(t: RTree, query: Region) returns (ok: bool, pairs: seq<Pair>)
    requires Sound(t.P, t.pages, t.par, t.rootID) && Proper(query) && AllProper(Data(t.pages))
    ensures ok <==> |query.low| == t.P.dim
    ensures ok ==> forall x, y :: multiset(pairs)[(x, y)] == if Join(query, x, y) then Together(Data(t.pages), x, y) else 0
  {
    hide Sound, AllProper, Data, Cross, Join;
    ok, pairs := |query.low| == t.P.dim, [];
    if ok {
      pairs := JoinAll(t, query);
      forall x, y ensures multiset(pairs)[(x, y)] == if Join(query, x, y) then Together(Data(t.pages), x, y) else 0 {
        CrossEach(Data(t.pages), Data(t.pages), query, x, y);
      }
    }
  }

  method JoinAll(t: RTree, query: Region) returns (pairs: seq<Pair>)
    requires Sound(t.P, t.pages, t.par, t.rootID) && Proper(query) && AllProper(Data(t.pages)) && IsBox(query, t.P.dim)
    ensures multiset(pairs) == Cross(Data(t.pages), Data(t.pages), query)
  {
    hide *;
    QueryFacts(t);
    WholeRoot(t);
    pairs := JoinNodes(t, t.rootID, t.rootID, query);
  }

  lemma WholeRoot(t: RTree)
    requires Sound(t.P, t.pages, t.par, t.rootID)
    ensures t.rootID in t.pages && Whole(t.pages, Held(t.rootID, t.pages[t.rootID])) == Data(t.pages)
  {
    QueryFacts(t);
  }

  /** With unique ids every joining pair is reported exactly once. */
  lemma JoinedOnce(data: multiset<Entry>, x: Entry, y: Entry)
    requires RTreeRuns.UniqueIds(data) && x in data && y in data
    ensures Together(data, x, y) == 1
  {
  }
}
