/** What a bulk-loaded tree is good for: searches see exactly what was loaded, insertions and deletions go
    on from there, and the tree's own check then says when the counter that the loader leaves behind shows. */
module LoadedTrees {
  import opened Geometry
  import opened Pages
  import opened RTreeNode
  import opened RTreeModel
  import opened RTreeDeletion
  import opened RTreeValidity
  import opened RTreeQueries
  import opened RTreeNeighbors
  import opened RTreeSelfJoin
  import opened BulkLoading
  import opened Subtrees
  import RTreeRuns

  // ---------------------------------------------------------------- loading, inserting, searching

  /** The new entries are inserted one after the other. */
  method InsertAll(t: RTree, more: seq<Entry>)
    requires t.Working() && forall i :: 0 <= i < |more| ==> IsBox(more[i].mbr, t.P.dim)
    modifies t
    ensures t.Working() && (old(t.Ragged()) ==> t.Ragged()) && Data(t.pages) == old(Data(t.pages)) + multiset(more)
    ensures t.treeHeight >= old(t.treeHeight) && t.Lag() == Raised(old(t.Lag()), t.treeHeight - old(t.treeHeight))
  {
    hide *;
    ghost var lag, height := t.Lag(), t.treeHeight;
    RaisedNone(lag);
    NoneYet(more, Data(t.pages));
    for i := 0 to |more|
      invariant t.Working() && (old(t.Ragged()) ==> t.Ragged()) && Data(t.pages) == old(Data(t.pages)) + multiset(more[..i])
      invariant t.treeHeight >= height && t.Lag() == Raised(lag, t.treeHeight - height)
    {
      ghost var before := t.treeHeight;
      BoxSides(more[i].mbr, t.P.dim);
      OneMore(more, i, old(Data(t.pages)));
      var ok := t.Insert(more[i].data, more[i].mbr, more[i].id);
      RaisedAgain(lag, before - height, t.treeHeight - before);
    }
    assert more[..|more|] == more;
  }

  lemma NoneYet(more: seq<Entry>, data: multiset<Entry>)
    ensures data == data + multiset(more[..0])
  {
  }

  lemma OneMore(more: seq<Entry>, i: nat, data: multiset<Entry>)
    requires i < |more|
    ensures (data + multiset(more[..i])) + multiset{Entry(more[i].mbr, more[i].id, more[i].data)} == data + multiset(more[..i+1])
  {
    assert more[..i+1] == more[..i] + [more[i]];
  }

  lemma BoxSides(r: Region, dim: nat)
    requires IsBox(r, dim)
    ensures |r.low| == |r.high| == dim
  {
  }

  lemma {:induction false} RaisedAgain(lag: Lag, m: nat, n: nat)
    ensures Raised(Raised(lag, m), n) == Raised(lag, m + n)
  {
    if n > 0 {
      RaisedAgain(lag, m, n - 1);
    }
  }

  /** The four searches against scans over the stored entries. */
  method SearchAll(t: RTree, kind: RangeQueryType, query: Region, point: seq<real>, k: nat)
    returns (range: seq<Entry>, located: seq<Entry>, nearest: seq<Entry>, pairs: seq<Pair>)
    requires t.Working() && |query.low| == |point| == t.P.dim && Proper(query) && AllProper(Data(t.pages))
    ensures forall x :: multiset(range)[x] == if Hit(kind, query, x) then Data(t.pages)[x] else 0
    ensures forall x :: multiset(located)[x] == if Covers(x.mbr, point) then Data(t.pages)[x] else 0
    ensures forall x :: multiset(nearest)[x] == if Closest(Data(t.pages), query, k, x) then Data(t.pages)[x] else 0
    ensures forall i, j :: 0 <= i < j < |nearest| ==> !Closer(query, nearest[j], nearest[i])
    ensures forall x, y :: multiset(pairs)[(x, y)] == if Join(query, x, y) then Together(Data(t.pages), x, y) else 0
  {
    hide *;
    ProperSides(query);
    WorkingSound(t);
    var ok;
    ok, range := RangeQuery(t, kind, query);
    ok, located := PointLocationQuery(t, point);
    ok, nearest := NearestNeighborQuery(t, k, query);
    ok, pairs := SelfJoinQuery(t, query);
  }

  /** After bulk loading and any insertions, every search answers as a scan over the loaded and the
      inserted entries does. */
  method LoadAndSearch(t: RTree, stream: seq<Entry>, more: seq<Entry>, bindex: nat, bleaf: nat, pageSize: nat, numberOfPages: nat,
                       kind: RangeQueryType, query: Region, point: seq<real>, k: nat)
    returns (range: seq<Entry>, located: seq<Entry>, nearest: seq<Entry>, pairs: seq<Pair>, ghost all: multiset<Entry>)
    requires t.Valid() && t.treeHeight == 1 && t.P.dim >= 1 && stream != []
    requires forall i :: 0 <= i < |stream| ==> IsBox(stream[i].mbr, t.P.dim)
    requires forall i :: 0 <= i < |more| ==> IsBox(more[i].mbr, t.P.dim)
    requires 1 <= bleaf <= t.P.leafCapacity && 2 <= bindex <= t.P.indexCapacity && pageSize >= 1 && numberOfPages >= 2
    requires |query.low| == |point| == t.P.dim && Proper(query)
    requires AllProper(multiset(stream) + multiset(more))
    modifies t
    ensures all == multiset(stream) + multiset(more)
    ensures forall x :: multiset(range)[x] == if Hit(kind, query, x) then all[x] else 0
    ensures forall x :: multiset(located)[x] == if Covers(x.mbr, point) then all[x] else 0
    ensures forall x :: multiset(nearest)[x] == if Closest(all, query, k, x) then all[x] else 0
    ensures forall i, j :: 0 <= i < j < |nearest| ==> !Closer(query, nearest[j], nearest[i])
    ensures forall x, y :: multiset(pairs)[(x, y)] == if Join(query, x, y) then Together(all, x, y) else 0
  {
    hide *;
    var loaded := BulkLoadUsingSTR(t, stream, bindex, bleaf, pageSize, numberOfPages);
    LoadedParts(t.P, t.pages, t.par, t.rootID, multiset(stream), t.nodes, t.nodesInLevel, t.treeHeight);
    t.RaggedWorking();
    InsertAll(t, more);
    all := Data(t.pages);
    range, located, nearest, pairs := SearchAll(t, kind, query, point, k);
  }

  /** After bulk loading and any run of insertions and deletions, ids being unique: the answers of the run
      and of the searches are those of a scan, and the tree's own check says how its counters stand. */
  method LoadAndRun(t: RTree, stream: seq<Entry>, ops: seq<RTreeRuns.Op>, bindex: nat, bleaf: nat, pageSize: nat, numberOfPages: nat,
                    kind: RangeQueryType, query: Region, point: seq<real>, k: nat)
    returns (rets: seq<bool>, valid: bool, range: seq<Entry>, located: seq<Entry>, nearest: seq<Entry>, pairs: seq<Pair>, ghost all: multiset<Entry>)
    requires t.Valid() && t.treeHeight == 1 && t.P.dim >= 1 && stream != []
    requires forall i :: 0 <= i < |stream| ==> IsBox(stream[i].mbr, t.P.dim)
    requires RTreeRuns.UniqueIds(multiset(stream)) && RTreeRuns.Proceeds(multiset(stream), ops, t.P.dim)
    requires 1 <= bleaf <= t.P.leafCapacity && 2 <= bindex <= t.P.indexCapacity && pageSize >= 1 && numberOfPages >= 2
    requires |query.low| == |point| == t.P.dim && Proper(query)
    requires AllProper(RTreeRuns.ScanAll(multiset(stream), ops, t.P.dim))
    modifies t
    ensures all == RTreeRuns.ScanAll(multiset(stream), ops, t.P.dim)
    ensures |rets| == |ops| && forall i :: 0 <= i < |ops| ==>
      (rets[i] <==> RTreeRuns.Answer(RTreeRuns.ScanAll(multiset(stream), ops[..i], t.P.dim), ops[i], t.P.dim))
    ensures t.P.tight ==> (valid <==> CountersRight(t.pages, t.nodes, t.nodesInLevel, t.treeHeight))
    ensures forall x :: multiset(range)[x] == if Hit(kind, query, x) then all[x] else 0
    ensures forall x :: multiset(located)[x] == if Covers(x.mbr, point) then all[x] else 0
    ensures forall x :: multiset(nearest)[x] == if Closest(all, query, k, x) then all[x] else 0
    ensures forall i, j :: 0 <= i < j < |nearest| ==> !Closer(query, nearest[j], nearest[i])
    ensures forall x, y :: multiset(pairs)[(x, y)] == if Join(query, x, y) then Together(all, x, y) else 0
  {
    hide *;
    var loaded := BulkLoadUsingSTR(t, stream, bindex, bleaf, pageSize, numberOfPages);
    LoadedParts(t.P, t.pages, t.par, t.rootID, multiset(stream), t.nodes, t.nodesInLevel, t.treeHeight);
    rets := RTreeRuns.RunOn(t, ops);
    t.RaggedWorking();
    all := Data(t.pages);
    WorkingPasses(t);
    valid := IsIndexValid(t);
    range, located, nearest, pairs := SearchAll(t, kind, query, point, k);
  }

  lemma ProperSides(query: Region)
    requires Proper(query)
    ensures |query.low| == |query.high|
  {
  }

  // ---------------------------------------------------------------- the loader's extra counter

  /** The counter that the loader leaves behind is in the way exactly while the root has been raised
      once since. */
  lemma {:induction false} RaisedSpare(times: nat)
    ensures Raised(SpareZero, times) == if times == 0 then SpareZero else if times == 1 then Behind else SpareOne
  {
    if times > 0 {
      RaisedSpare(times - 1);
    }
  }

  /** Insertions into a loaded tree: afterwards the level counters are right exactly if the tree is not
      one level higher than it was loaded. */
  method InsertIntoLoaded(t: RTree, more: seq<Entry>)
    requires t.Working() && t.Lag() == SpareZero && forall i :: 0 <= i < |more| ==> IsBox(more[i].mbr, t.P.dim)
    modifies t
    ensures t.Working() && Data(t.pages) == old(Data(t.pages)) + multiset(more)
    ensures CountersRight(t.pages, t.nodes, t.nodesInLevel, t.treeHeight) <==> t.treeHeight != old(t.treeHeight) + 1
  {
    hide *;
    InsertAll(t, more);
    RaisedSpare(t.treeHeight - old(t.treeHeight));
    WorkingPasses(t);
  }

  /** A deletion that lowers the tree makes the counters right again. */
  method DeleteAndCatchUp(t: RTree, mbr: Region, id: Id) returns (ret: bool)
    requires t.Ragged() && |mbr.low| == |mbr.high|
    modifies t
    ensures t.Ragged()
    ensures t.treeHeight < old(t.treeHeight) ==> CountersRight(t.pages, t.nodes, t.nodesInLevel, t.treeHeight)
  {
    hide *;
    var ok;
    ghost var gone;
    ok, ret, gone := Delete(t, mbr, id);
    t.RaggedWorking();
    WorkingPasses(t);
    if t.treeHeight < old(t.treeHeight) {
      LowerCatchesUp(old(t.Lag()), old(t.treeHeight), t.Lag(), t.treeHeight);
    }
  }

  // ---------------------------------------------------------------- a load and an insertion that fail the check

  /** In a full tree every page holds at least two entries for each level down to the leaves. */
  lemma {:induction false} UnderLarge(P: Params, pages: map<Id, Page>, par: map<Id, Id>, root: Id, id: Id)
    requires Tree(P, pages, par, root, {}, {}, {}) && id in pages && (id == root ==> pages[id].level > 0)
    ensures |Under(pages, id, pages[id].level)| >= 2 * (pages[id].level + 1)
    decreases pages[id].level
  {
    var n := pages[id];
    TwoKids(P, pages, par, root, id);
    hide Tree;
    if n.level > 0 {
      forall i | 0 <= i < |n.entries| ensures |Under(pages, n.entries[i].id, n.level - 1)| >= 2 * n.level {
        UnderLarge(P, pages, par, root, n.entries[i].id);
      }
      AllLarge(pages, n.entries, n.level - 1, 2 * n.level);
      TwiceOrMore(|n.entries|, 2 * n.level);
    }
  }

  lemma TwoKids(P: Params, pages: map<Id, Page>, par: map<Id, Id>, root: Id, id: Id)
    requires Tree(P, pages, par, root, {}, {}, {}) && id in pages && (id == root ==> pages[id].level > 0)
    ensures |pages[id].entries| >= 2
    ensures pages[id].level > 0 ==> forall i :: 0 <= i < |pages[id].entries| ==>
      var c := pages[id].entries[i].id; c in pages && c != root && pages[c].level + 1 == pages[id].level
  {
    hide PageOk, Fresh;
    var n := pages[id];
    assert n.level > 0 ==> forall i :: 0 <= i < |n.entries| ==> n.entries[i].id in Kids(n);
  }

  lemma TwiceOrMore(k: nat, m: nat)
    requires k >= 2
    ensures k * m >= 2 * m
  {
    assert (k - 2) * m >= 0;
  }

  lemma {:induction false} AllLarge(pages: map<Id, Page>, es: seq<Entry>, level: nat, m: nat)
    requires forall i :: 0 <= i < |es| ==> |Under(pages, es[i].id, level)| >= m
    ensures |UnderAll(pages, es, level)| >= |es| * m
  {
    if es != [] {
      var most := es[..|es|-1];
      AllLarge(pages, most, level, m);
      assert |es| * m == |most| * m + m;
    }
  }

  /** How much a full tree holds: one leaf at most, or at least two entries for each of its levels. */
  lemma FullHolds(t: RTree)
    requires t.Full()
    ensures if t.treeHeight <= 1 then |Data(t.pages)| <= t.P.leafCapacity else |Data(t.pages)| >= 2 * t.treeHeight
  {
    FilledSound(t.P, t.pages, t.par, t.rootID);
    UnderRootIsAll(t.P, t.pages, t.par, t.rootID);
    var root := t.pages[t.rootID];
    assert PageOk(t.P, root);
    if root.level > 0 {
      UnderLarge(t.P, t.pages, t.par, t.rootID, t.rootID);
    }
  }

  /** A tree of one level is full. */
  lemma OneLevelFull(t: RTree)
    requires t.Working() && t.treeHeight == 1
    ensures t.Full()
  {
    hide Forest, RTree.Follows, Data;
    assert forall p :: p in t.pages ==> p == t.rootID;
    assert t.pages.Keys - {t.rootID} == {};
  }

  lemma OneNodeLoaded(n: nat, b: nat, height: nat, pages: map<Id, Page>)
    requires 1 <= n <= b && b >= 2 && height >= 1 && TiledBelow(pages, height, n, b, b)
    ensures height == 1
  {
    CeilDivIs(n, b, 1);
    hide CeilDiv, Tiled;
    assert Inputs(n, b, b, 1) == CeilDiv(Inputs(n, b, b, 0), b) == 1;
  }

  function Point(x: real): Region { Region([x], [x]) }

  function Dot(i: nat): Entry { Entry(Point(i as real), i, []) }

  function SmallTree(): Params { Params(1, Linear, 4, 4, 0.5, 0.5, 0.5, true) }

  lemma SmallSane()
    ensures SmallTree().Sane() && forall i: nat :: IsBox(Dot(i).mbr, 1)
  {
    assert 4.0 * 0.5 == 2.0;
  }

  /** Four points fill the one leaf that is loaded; the fifth one splits it, and the tree then fails its
      own check. */
  method LoadFourInsertOne() returns (valid: bool)
    ensures !valid
  {
    hide *;
    SmallSane();
    var P := SmallTree();
    SmallFacts();
    var t := new RTree(P, 0);
    var stream := [Dot(0), Dot(1), Dot(2), Dot(3)];
    var loaded := BulkLoadUsingSTR(t, stream, 4, 4, 1, 2);
    LoadedParts(t.P, t.pages, t.par, t.rootID, multiset(stream), t.nodes, t.nodesInLevel, t.treeHeight);
    OneNodeLoaded(4, 4, t.treeHeight, t.pages);
    t.RaggedWorking();
    OneLevelFull(t);
    RaisedNone(SpareZero);
    var ok := t.Insert([], Point(4.0), 4);
    FiveStored(Data(t.pages));
    FullHolds(t);
    RaisedSpare(1);
    WorkingPasses(t);
    valid := IsIndexValid(t);
  }

  lemma SmallFacts()
    ensures SmallTree().dim == 1 && SmallTree().leafCapacity == SmallTree().indexCapacity == 4
    ensures |Point(4.0).low| == |Point(4.0).high| == 1
  {
  }

  lemma FiveStored(data: multiset<Entry>)
    requires data == multiset([Dot(0), Dot(1), Dot(2), Dot(3)]) + multiset{Entry(Point(4.0), 4, [])}
    ensures |data| == 5
  {
  }
}
