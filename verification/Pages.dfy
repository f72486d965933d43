/** The pages of an R-tree as plain values: what one page says, what makes a set of pages a forest,
    and what each way of rewriting, adding or removing a page does to it. */
module Pages {
  import opened Geometry

  type Id = int

  datatype Entry = Entry(mbr: Region, id: Id, data: seq<bv8>)

  datatype Page = Page(level: nat, mbr: Region, entries: seq<Entry>)

  datatype Variant = Linear | Quadratic | RStar

  datatype Params = Params(dim: nat, variant: Variant, indexCapacity: nat, leafCapacity: nat,
                           fillFactor: real, splitFactor: real, reinsertFactor: real, tight: bool)
  {
    function Capacity(level: nat): nat {
      if level == 0 then leafCapacity else indexCapacity
    }

    /** Nodes with fewer entries than this are dissolved after a deletion. */
    function MinimumLoad(capacity: nat): int {
      (capacity as real * fillFactor).Floor
    }

    /** The smallest first group that the R* split considers. */
    function SplitLoad(capacity: nat): int {
      ((capacity + 1) as real * splitFactor).Floor
    }

    /** How many entries an overflowing R* node gives back. */
    function ReinsertCount(capacity: nat): int {
      ((capacity + 1) as real * reinsertFactor).Floor
    }

    predicate SaneFor(capacity: nat) {
      && capacity >= 4
      && MinimumLoad(capacity) >= 2
      && (variant != RStar ==> fillFactor <= 0.5)
      && (variant == RStar ==> SplitLoad(capacity) >= 3 && 2 * SplitLoad(capacity) <= capacity + 2)
      && (variant == RStar ==> 1 <= ReinsertCount(capacity) <= capacity - 1)
    }

    /** Parameters under which no operation can produce a node with fewer than two entries. */
    predicate Sane() {
      SaneFor(leafCapacity) && SaneFor(indexCapacity)
    }
  }

  /** The fold of `combineRegion` over the entries, starting from the infinite region. */
  function Cover(es: seq<Entry>, dim: nat): (r: Region)
    requires forall i :: 0 <= i < |es| ==> IsBox(es[i].mbr, dim)
    ensures IsBox(r, dim)
    ensures forall i :: 0 <= i < |es| ==> Contains(r, es[i].mbr)
  {
    if es == [] then Infinite(dim)
    else
      var r := Cover(es[..|es|-1], dim);
      assert forall i :: 0 <= i < |es| - 1 ==> es[..|es|-1][i] == es[i];
      Combine(r, es[|es|-1].mbr)
  }

  /** The box of some entries is the least one around them: each side is a side of one of them. Only the
      starting value stands out, which lies beyond every finite coordinate. */
  lemma {:induction false} CoverLeast(es: seq<Entry>, dim: nat, d: nat)
    requires es != [] && d < dim && forall i :: 0 <= i < |es| ==> IsBox(es[i].mbr, dim)
    requires forall i :: 0 <= i < |es| ==> IsBox(es[i].mbr, dim) && es[i].mbr.low[d] <= MAX_DOUBLE && -MAX_DOUBLE <= es[i].mbr.high[d]
    ensures forall i :: 0 <= i < |es| ==> Cover(es, dim).low[d] <= es[i].mbr.low[d] && es[i].mbr.high[d] <= Cover(es, dim).high[d]
    ensures exists i :: 0 <= i < |es| && IsBox(es[i].mbr, dim) && es[i].mbr.low[d] == Cover(es, dim).low[d]
    ensures exists i :: 0 <= i < |es| && IsBox(es[i].mbr, dim) && es[i].mbr.high[d] == Cover(es, dim).high[d]
  {
    hide Cover;
    var n := |es| - 1;
    assert forall i :: 0 <= i < n ==> es[..n][i] == es[i];
    CoverStep(es, dim, d);
    if n > 0 {
      CoverLeast(es[..n], dim, d);
      var i :| 0 <= i < n && es[..n][i].mbr.low[d] == Cover(es[..n], dim).low[d];
      var j :| 0 <= j < n && es[..n][j].mbr.high[d] == Cover(es[..n], dim).high[d];
      assert es[i].mbr.low[d] == Cover(es, dim).low[d] || es[n].mbr.low[d] == Cover(es, dim).low[d];
      assert es[j].mbr.high[d] == Cover(es, dim).high[d] || es[n].mbr.high[d] == Cover(es, dim).high[d];
    } else {
      assert es[0].mbr.low[d] == Cover(es, dim).low[d] && es[0].mbr.high[d] == Cover(es, dim).high[d];
    }
  }

  lemma CoverStep(es: seq<Entry>, dim: nat, d: nat)
    requires es != [] && d < dim && forall i :: 0 <= i < |es| ==> IsBox(es[i].mbr, dim)
    ensures
      var n := |es| - 1;
      && (forall i :: 0 <= i < n ==> IsBox(es[..n][i].mbr, dim))
      && Cover(es, dim).low[d] == Min(Cover(es[..n], dim).low[d], es[n].mbr.low[d])
      && Cover(es, dim).high[d] == Max(Cover(es[..n], dim).high[d], es[n].mbr.high[d])
      && (n == 0 ==> Cover(es[..n], dim).low[d] == MAX_DOUBLE && Cover(es[..n], dim).high[d] == -MAX_DOUBLE)
  {
  }

  /** `r` is a box around all of `es`, and exactly their union in a tight tree. */
  ghost predicate Bounds(P: Params, r: Region, es: seq<Entry>) {
    && IsBox(r, P.dim)
    && (forall i :: 0 <= i < |es| ==> IsBox(es[i].mbr, P.dim) && Contains(r, es[i].mbr))
    && (P.tight ==> r == Cover(es, P.dim))
  }

  ghost predicate PageOk(P: Params, n: Page) {
    && |n.entries| <= P.Capacity(n.level)
    && Bounds(P, n.mbr, n.entries)
    && (n.level > 0 ==> DistinctIds(n.entries))
  }

  ghost predicate DistinctIds(es: seq<Entry>) {
    forall i, j :: 0 <= i < j < |es| ==> es[i].id != es[j].id
  }

  ghost function Ids(es: seq<Entry>): set<Id> {
    set i | 0 <= i < |es| :: es[i].id
  }

  /** The pages that page `n` points to. */
  ghost function Kids(n: Page): set<Id> {
    if n.level == 0 then {} else Ids(n.entries)
  }

  /** The boxes that an index page stores are its children's boxes, except for the stale ones. */
  ghost predicate Fresh(n: Page, pages: map<Id, Page>, stale: set<Id>) {
    n.level > 0 ==> forall i :: 0 <= i < |n.entries| ==>
      var e := n.entries[i];
      e.id in pages && (e.id in stale || e.mbr == pages[e.id].mbr)
  }

  /** `pages` is a forest: every page is well formed; `tops` are the pages that nothing points to;
      every other page c is pointed to exactly once, from page `par[c]`, which lies one level above;
      and stored boxes agree with the children's own boxes outside `stale`. */
  ghost predicate Forest(P: Params, pages: map<Id, Page>, par: map<Id, Id>, tops: set<Id>, stale: set<Id>) {
    && (forall p :: p in pages ==> PageOk(P, pages[p]))
    && Linked(pages, par, tops)
    && (forall p :: p in pages ==> Fresh(pages[p], pages, stale))
  }

  ghost predicate Linked(pages: map<Id, Page>, par: map<Id, Id>, tops: set<Id>) {
    && tops <= pages.Keys
    && par.Keys == pages.Keys - tops
    && (forall p, c {:trigger c in Kids(pages[p])} :: p in pages && c in Kids(pages[p]) ==>
          c in par && par[c] == p && pages[c].level + 1 == pages[p].level)
    && (forall c {:trigger c in par} {:trigger par[c]} :: c in par ==> par[c] in pages && c in Kids(pages[par[c]]))
  }

  /** `root` is the one page on the highest level. */
  ghost predicate UnderRoot(pages: map<Id, Page>, root: Id) {
    root in pages && forall p :: p in pages && p != root ==> pages[p].level < pages[root].level
  }

  /** Every page outside `loose` holds two entries or more, except a root that is a leaf. */
  ghost predicate Filled(pages: map<Id, Page>, root: Id, loose: set<Id>) {
    forall p :: p in pages ==>
      p in loose || (p == root && pages[p].level == 0) || |pages[p].entries| >= 2
  }

  /** The state between two steps of an insertion or deletion: pages below `root` and parentless
      subtrees `orphans` that wait to be put back; only `loose` pages may be nearly empty. */
  ghost predicate Grove(P: Params, pages: map<Id, Page>, par: map<Id, Id>, root: Id,
                        orphans: set<Id>, stale: set<Id>, loose: set<Id>) {
    && root !in orphans
    && Forest(P, pages, par, orphans + {root}, stale)
    && Filled(pages, root, loose)
  }

  /** A grove whose root is above all other pages. */
  ghost predicate Tree(P: Params, pages: map<Id, Page>, par: map<Id, Id>, root: Id,
                       orphans: set<Id>, stale: set<Id>, loose: set<Id>) {
    Grove(P, pages, par, root, orphans, stale, loose) && UnderRoot(pages, root)
  }

  // ---------------------------------------------------------------- stored data

  /** The data entries that one page holds. */
  ghost function Leafs(n: Page): multiset<Entry> {
    if n.level == 0 then multiset(n.entries) else multiset{}
  }

  ghost function Any<T>(s: set<T>): (x: T)
    requires s != {}
    ensures x in s
  {
    var x :| x in s; x
  }

  ghost function Gather(pages: map<Id, Page>, keys: set<Id>): multiset<Entry>
    requires keys <= pages.Keys
  {
    if keys == {} then multiset{}
    else
      var k := Any(keys);
      Leafs(pages[k]) + Gather(pages, keys - {k})
  }

  /** All the data entries stored on any page. */
  ghost function Data(pages: map<Id, Page>): multiset<Entry> {
    Gather(pages, pages.Keys)
  }

  lemma {:induction false} GatherSplit(pages: map<Id, Page>, keys: set<Id>, p: Id)
    requires keys <= pages.Keys && p in keys
    ensures Gather(pages, keys) == Leafs(pages[p]) + Gather(pages, keys - {p})
  {
    var k := Any(keys);
    if k != p {
      GatherSplit(pages, keys - {k}, p);
      GatherSplit(pages, keys - {p}, k);
      assert keys - {k} - {p} == keys - {p} - {k};
    }
  }

  lemma {:induction false} GatherFrame(a: map<Id, Page>, b: map<Id, Page>, keys: set<Id>)
    requires keys <= a.Keys && keys <= b.Keys
    requires forall k :: k in keys ==> Leafs(a[k]) == Leafs(b[k])
    ensures Gather(a, keys) == Gather(b, keys)
  {
    if keys != {} {
      var k := Any(keys);
      GatherFrame(a, b, keys - {k});
      GatherSplit(a, keys, k);
      GatherSplit(b, keys, k);
    }
  }

  lemma DataUpdate(pages: map<Id, Page>, p: Id, n: Page)
    requires p in pages
    ensures Data(pages[p := n]) + Leafs(pages[p]) == Data(pages) + Leafs(n)
  {
    var after := pages[p := n];
    assert after.Keys == pages.Keys;
    GatherSplit(pages, pages.Keys, p);
    GatherSplit(after, pages.Keys, p);
    GatherFrame(pages, after, pages.Keys - {p});
  }

  lemma DataAdd(pages: map<Id, Page>, p: Id, n: Page)
    requires p !in pages
    ensures Data(pages[p := n]) == Data(pages) + Leafs(n)
  {
    var after := pages[p := n];
    GatherSplit(after, after.Keys, p);
    assert after.Keys - {p} == pages.Keys;
    GatherFrame(pages, after, pages.Keys);
  }

  lemma DataRemove(pages: map<Id, Page>, p: Id)
    requires p in pages
    ensures Data(pages) == Data(pages - {p}) + Leafs(pages[p])
  {
    var after := pages - {p};
    GatherSplit(pages, pages.Keys, p);
    assert after.Keys == pages.Keys - {p};
    GatherFrame(pages, after, after.Keys);
  }

  /** An entry is stored exactly if some leaf page holds it. */
  lemma {:induction false} DataMember(pages: map<Id, Page>, keys: set<Id>, e: Entry)
    requires keys <= pages.Keys
    ensures e in Gather(pages, keys) <==> exists p :: p in keys && e in Leafs(pages[p])
  {
    if keys != {} {
      var k := Any(keys);
      GatherSplit(pages, keys, k);
      DataMember(pages, keys - {k}, e);
      if p :| p in keys && e in Leafs(pages[p]) {
        assert p == k || p in keys - {k};
      }
    }
  }

  // ---------------------------------------------------------------- page counters

  ghost function AtLevel(pages: map<Id, Page>, level: nat): set<Id> {
    set p | p in pages && pages[p].level == level
  }

  /** The statistics the tree keeps: the number of pages, and of pages on each level. */
  ghost predicate Counted(pages: map<Id, Page>, nodes: int, nodesInLevel: seq<int>) {
    && nodes == |pages|
    && forall l :: 0 <= l < |nodesInLevel| ==> nodesInLevel[l] == |AtLevel(pages, l)|
  }

  /** The root is alone on its level. */
  lemma OneRoot(pages: map<Id, Page>, root: Id)
    requires UnderRoot(pages, root)
    ensures |AtLevel(pages, pages[root].level)| == 1
  {
    forall p ensures p in AtLevel(pages, pages[root].level) <==> p in {root} {
    }
    assert AtLevel(pages, pages[root].level) == {root};
  }

  lemma CountUpdate(pages: map<Id, Page>, p: Id, n: Page, nodes: int, inLevel: seq<int>)
    requires p in pages && pages[p].level == n.level && Counted(pages, nodes, inLevel)
    ensures Counted(pages[p := n], nodes, inLevel)
  {
    assert pages[p := n].Keys == pages.Keys;
    forall l | 0 <= l < |inLevel| ensures AtLevel(pages[p := n], l) == AtLevel(pages, l) {
    }
  }

  lemma CountAdd(pages: map<Id, Page>, p: Id, n: Page, nodes: int, inLevel: seq<int>)
    requires p !in pages && n.level < |inLevel| && Counted(pages, nodes, inLevel)
    ensures Counted(pages[p := n], nodes + 1, inLevel[n.level := inLevel[n.level] + 1])
  {
    var after := pages[p := n];
    assert after.Keys == pages.Keys + {p};
    hide AtLevel;
    forall l | 0 <= l < |inLevel| ensures |AtLevel(after, l)| == |AtLevel(pages, l)| + (if l == n.level then 1 else 0) {
      LevelAdd(pages, p, n, l);
    }
  }

  lemma LevelAdd(pages: map<Id, Page>, p: Id, n: Page, l: nat)
    requires p !in pages
    ensures |AtLevel(pages[p := n], l)| == |AtLevel(pages, l)| + (if l == n.level then 1 else 0)
  {
    assert AtLevel(pages[p := n], l) == if l == n.level then AtLevel(pages, l) + {p} else AtLevel(pages, l);
  }

  lemma CountRemove(pages: map<Id, Page>, p: Id, nodes: int, inLevel: seq<int>)
    requires p in pages && pages[p].level < |inLevel| && Counted(pages, nodes, inLevel)
    ensures Counted(pages - {p}, nodes - 1, inLevel[pages[p].level := inLevel[pages[p].level] - 1])
  {
    var after := pages - {p};
    assert after.Keys == pages.Keys - {p};
    forall l | 0 <= l < |inLevel|
      ensures AtLevel(after, l) == if l == pages[p].level then AtLevel(pages, l) - {p} else AtLevel(pages, l) {
    }
  }

  // ---------------------------------------------------------------- rewriting a forest

  /** Parents after a page `p` with children `was` comes to hold exactly the children of `n`. */
  ghost function Adopt(par: map<Id, Id>, was: set<Id>, p: Id, n: Page): map<Id, Id> {
    map c | c in par.Keys + Kids(n) && (c in Kids(n) || c !in was) :: if c in Kids(n) then p else par[c]
  }

  ghost function TopsAfter(tops: set<Id>, was: set<Id>, n: Page): set<Id> {
    tops + (was - Kids(n)) - (Kids(n) - was)
  }

  ghost predicate LevelsBelow(n: Page, pages: map<Id, Page>) {
    forall c :: c in Kids(n) ==> c in pages && pages[c].level + 1 == n.level
  }

  /** Page `p` is overwritten by `n`: children it drops become parentless, children it gains were
      parentless. */
  lemma Rewrite(P: Params, pages: map<Id, Page>, par: map<Id, Id>, tops: set<Id>, stale: set<Id>,
                p: Id, n: Page, stale': set<Id>)
    requires Forest(P, pages, par, tops, stale)
    requires p in pages && n.level == pages[p].level && PageOk(P, n)
    requires Kids(n) <= Kids(pages[p]) + (tops - {p}) && LevelsBelow(n, pages)
    requires Fresh(n, pages, stale') && stale <= stale' + Kids(n) + Kids(pages[p])
    requires p in tops || p in stale' || (n.mbr == pages[p].mbr && p !in stale)
    ensures Forest(P, pages[p := n], Adopt(par, Kids(pages[p]), p, n), TopsAfter(tops, Kids(pages[p]), n), stale')
  {
    RewriteLinks(pages, par, tops, p, n);
    forall q | q in pages ensures Fresh(pages[p := n][q], pages[p := n], stale') {
      RewriteFresh(pages, par, tops, stale, p, n, stale', q);
    }
  }

  lemma RewriteLinks(pages: map<Id, Page>, par: map<Id, Id>, tops: set<Id>, p: Id, n: Page)
    requires Linked(pages, par, tops)
    requires p in pages && n.level == pages[p].level
    requires Kids(n) <= Kids(pages[p]) + (tops - {p}) && LevelsBelow(n, pages)
    ensures Linked(pages[p := n], Adopt(par, Kids(pages[p]), p, n), TopsAfter(tops, Kids(pages[p]), n))
  {
    hide Kids;
    var after, was := pages[p := n], Kids(pages[p]);
    var parAfter, topsAfter := Adopt(par, was, p, n), TopsAfter(tops, was, n);
    assert p !in Kids(n) && p !in was;
    forall c | c in topsAfter ensures c in after.Keys {
      assert c in was ==> c in par.Keys;
    }
    forall c ensures c in parAfter <==> c in after && c !in topsAfter {
    }
    assert parAfter.Keys == after.Keys - topsAfter;
    forall q, c | q in after && c in Kids(after[q])
      ensures c in parAfter && parAfter[c] == q && after[c].level + 1 == after[q].level {
      assert q != p ==> c in Kids(pages[q]);
    }
    forall c | c in parAfter ensures parAfter[c] in after && c in Kids(after[parAfter[c]]) {
      assert c !in Kids(n) ==> c in Kids(pages[par[c]]);
    }
  }

  lemma RewriteFresh(pages: map<Id, Page>, par: map<Id, Id>, tops: set<Id>, stale: set<Id>,
                     p: Id, n: Page, stale': set<Id>, q: Id)
    requires Linked(pages, par, tops)
    requires p in pages && n.level == pages[p].level
    requires Kids(n) <= Kids(pages[p]) + (tops - {p}) && LevelsBelow(n, pages)
    requires Fresh(n, pages, stale') && q in pages && Fresh(pages[q], pages, stale)
    requires stale <= stale' + Kids(n) + Kids(pages[p])
    requires p in tops || p in stale' || (n.mbr == pages[p].mbr && p !in stale)
    ensures Fresh(pages[p := n][q], pages[p := n], stale')
  {
    var m := pages[p := n][q];
    if m.level > 0 {
      forall i | 0 <= i < |m.entries|
        ensures var e := m.entries[i]; e.id in pages && (e.id in stale' || e.mbr == pages[p := n][e.id].mbr) {
        assert m.entries[i].id in Kids(m);
        assert q != p ==> m.entries[i].id !in Kids(pages[p]);
      }
    }
  }

  /** A new page `q` takes over parentless pages as its children and is parentless itself. */
  lemma AddPage(P: Params, pages: map<Id, Page>, par: map<Id, Id>, tops: set<Id>, stale: set<Id>,
                q: Id, n: Page, stale': set<Id>)
    requires Forest(P, pages, par, tops, stale)
    requires q !in pages && PageOk(P, n)
    requires Kids(n) <= tops && LevelsBelow(n, pages)
    requires Fresh(n, pages, stale') && stale <= stale' + Kids(n)
    ensures Forest(P, pages[q := n], Adopt(par, {}, q, n), TopsAfter(tops, {}, n) + {q}, stale')
  {
    AddLinks(pages, par, tops, q, n);
    var after := pages[q := n];
    forall p | p in after ensures Fresh(after[p], after, stale') {
      AddFresh(pages, par, tops, stale, q, n, stale', p);
    }
  }

  lemma AddLinks(pages: map<Id, Page>, par: map<Id, Id>, tops: set<Id>, q: Id, n: Page)
    requires Linked(pages, par, tops)
    requires q !in pages && Kids(n) <= tops && LevelsBelow(n, pages)
    ensures Linked(pages[q := n], Adopt(par, {}, q, n), TopsAfter(tops, {}, n) + {q})
  {
    hide Kids;
    var after, parAfter, topsAfter := pages[q := n], Adopt(par, {}, q, n), TopsAfter(tops, {}, n) + {q};
    forall c ensures c in parAfter <==> c in after && c !in topsAfter {
    }
    assert parAfter.Keys == after.Keys - topsAfter;
    forall p, c | p in after && c in Kids(after[p])
      ensures c in parAfter && parAfter[c] == p && after[c].level + 1 == after[p].level {
      assert p != q ==> c in Kids(pages[p]);
    }
    forall c | c in parAfter ensures parAfter[c] in after && c in Kids(after[parAfter[c]]) {
      assert c !in Kids(n) ==> c in Kids(pages[par[c]]);
    }
  }

  lemma AddFresh(pages: map<Id, Page>, par: map<Id, Id>, tops: set<Id>, stale: set<Id>,
                 q: Id, n: Page, stale': set<Id>, p: Id)
    requires Linked(pages, par, tops)
    requires q !in pages && Kids(n) <= tops
    requires Fresh(n, pages, stale') && (p in pages ==> Fresh(pages[p], pages, stale))
    requires stale <= stale' + Kids(n) && p in pages[q := n]
    ensures Fresh(pages[q := n][p], pages[q := n], stale')
  {
    var m := pages[q := n][p];
    if m.level > 0 {
      forall i | 0 <= i < |m.entries|
        ensures var e := m.entries[i]; e.id in pages && (e.id in stale' || e.mbr == pages[q := n][e.id].mbr) {
        assert m.entries[i].id in Kids(m);
      }
    }
  }

  /** A parentless page `p` is removed and its children become parentless. */
  lemma RemovePage(P: Params, pages: map<Id, Page>, par: map<Id, Id>, tops: set<Id>, stale: set<Id>, p: Id)
    requires Forest(P, pages, par, tops, stale) && p in tops
    ensures Forest(P, pages - {p}, par - Kids(pages[p]), tops - {p} + Kids(pages[p]), stale)
  {
    var after, parAfter, topsAfter := pages - {p}, par - Kids(pages[p]), tops - {p} + Kids(pages[p]);
    assert Linked(after, parAfter, topsAfter) by {
      hide Kids, Fresh, PageOk;
      assert p !in Kids(pages[p]);
      forall c | c in topsAfter ensures c in after.Keys {
        assert c in Kids(pages[p]) ==> c in par.Keys;
      }
      forall c ensures c in parAfter <==> c in after && c !in topsAfter {
      }
      assert parAfter.Keys == after.Keys - topsAfter;
      forall q, c | q in after && c in Kids(after[q])
        ensures c in parAfter && parAfter[c] == q && after[c].level + 1 == after[q].level {
        assert c in Kids(pages[q]) && c !in Kids(pages[p]);
      }
      forall c | c in parAfter ensures parAfter[c] in after && c in Kids(after[parAfter[c]]) {
        assert c in Kids(pages[par[c]]);
      }
    }
    forall q | q in after ensures Fresh(after[q], after, stale) {
      if after[q].level > 0 {
        forall i | 0 <= i < |after[q].entries|
          ensures var e := after[q].entries[i]; e.id in after && (e.id in stale || e.mbr == after[e.id].mbr) {
          assert after[q].entries[i].id in Kids(pages[q]);
        }
      }
    }
  }
}
