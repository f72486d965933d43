/** The index's own consistency check, proved to decide the invariant on any pages that form a tree. */
module RTreeValidity {
  import opened Geometry
  import opened Pages
  import opened IndexLists
  import opened RTreeNode
  import opened RTreeModel
  import opened RTreeDeletion

  // ---------------------------------------------------------------- isIndexValid

  /** A node on the validation stack and the box its parent stores for it. */
  datatype ValidateEntry = ValidateEntry(parentMBR: Region, id: Id, page: Page)

  /** What makes a set of pages a tree, apart from its boxes and its counters: every page but the root is
      pointed to exactly once, from one level above, and the root is above all others. */
  ghost predicate Shaped(P: Params, pages: map<Id, Page>, par: map<Id, Id>, root: Id) {
    && Linked(pages, par, {root}) && UnderRoot(pages, root)
    && forall p :: p in pages ==> Boxes(pages[p].entries, P.dim) && (pages[p].level > 0 ==> DistinctIds(pages[p].entries))
  }

  /** `mbr` is the box that is stored for page `p`: its own one if it is the root, its parent's copy otherwise. */
  ghost predicate StoredAs(pages: map<Id, Page>, par: map<Id, Id>, root: Id, p: Id, mbr: Region) {
    if p == root then root in pages && mbr == pages[root].mbr
    else p in par && par[p] in pages && forall i :: 0 <= i < |pages[par[p]].entries| && pages[par[p]].entries[i].id == p ==>
           pages[par[p]].entries[i].mbr == mbr
  }

  ghost function StackIds(st: seq<ValidateEntry>): set<Id> {
    set i | 0 <= i < |st| :: st[i].id
  }

  /** `done` are the pages looked at, the stack holds exactly their other children. */
  ghost predicate Frontier(pages: map<Id, Page>, par: map<Id, Id>, root: Id, done: set<Id>, st: seq<ValidateEntry>) {
    && done <= pages.Keys && done !! StackIds(st)
    && (forall i, j :: 0 <= i < j < |st| ==> st[i].id != st[j].id)
    && (forall i :: 0 <= i < |st| ==> st[i].id in pages && st[i].page == pages[st[i].id] && StoredAs(pages, par, root, st[i].id, st[i].parentMBR))
    && root in done + StackIds(st)
    && (forall c :: c in par ==> (c in done + StackIds(st) <==> par[c] in done))
  }

  /** The counters of the check: pages met so far on each level. */
  ghost predicate Tallied(pages: map<Id, Page>, met: set<Id>, counts: map<nat, int>) {
    forall l: nat :: (if l in counts then counts[l] else 0) == |MetAt(pages, met, l)|
  }

  ghost function MetAt(pages: map<Id, Page>, met: set<Id>, level: nat): set<Id> {
    set p | p in met && p in pages && pages[p].level == level
  }

  method CountLevel(counts: map<nat, int>, level: nat) returns (counts': map<nat, int>)
    ensures counts' == counts[level := (if level in counts then counts[level] else 0) + 1]
  {
    if level !in counts {
      counts' := counts[level := 1];
    } else {
      counts' := counts[level := counts[level] + 1];
    }
  }

  lemma TallyOne(pages: map<Id, Page>, met: set<Id>, counts: map<nat, int>, c: Id)
    requires Tallied(pages, met, counts) && c in pages && c !in met
    ensures
      var l := pages[c].level;
      Tallied(pages, met + {c}, counts[l := (if l in counts then counts[l] else 0) + 1])
  {
    forall l: nat ensures MetAt(pages, met + {c}, l) == if l == pages[c].level then MetAt(pages, met, l) + {c} else MetAt(pages, met, l) {
    }
  }

  ghost function Pushed(pages: map<Id, Page>, es: seq<Entry>): seq<ValidateEntry>
    requires forall i :: 0 <= i < |es| ==> es[i].id in pages
  {
    seq(|es|, i requires 0 <= i < |es| => ValidateEntry(es[i].mbr, es[i].id, pages[es[i].id]))
  }

  lemma IdsNext(es: seq<Entry>, k: nat)
    requires k < |es|
    ensures Ids(es[..k+1]) == Ids(es[..k]) + {es[k].id}
  {
    assert forall j :: 0 <= j < k ==> es[..k+1][j] == es[..k][j];
    assert es[..k+1][k] == es[k];
    forall c | c in Ids(es[..k]) ensures c in Ids(es[..k+1]) {
      var j :| 0 <= j < k && es[..k][j].id == c;
      assert es[..k+1][j].id == c;
    }
  }

  lemma DistinctAt(es: seq<Entry>, k: nat)
    requires DistinctIds(es) && k < |es|
    ensures es[k].id !in Ids(es[..k])
  {
  }

  lemma NextChild(es: seq<Entry>, k: nat, met: set<Id>)
    requires DistinctIds(es) && Ids(es) !! met && k < |es|
    ensures es[k].id !in met + Ids(es[..k]) && met + Ids(es[..k]) + {es[k].id} == met + Ids(es[..k+1])
  {
    IdsNext(es, k);
    DistinctAt(es, k);
    assert es[k].id in Ids(es);
  }

  /** Reads every child of an index node, counts it on its level and pushes it. */
  method PushChildren(t: RTree, page: Page, st: seq<ValidateEntry>, counts: map<nat, int>, ghost met: set<Id>)
    returns (st': seq<ValidateEntry>, counts': map<nat, int>)
    requires forall i :: 0 <= i < |page.entries| ==> page.entries[i].id in t.pages
    requires DistinctIds(page.entries) && Ids(page.entries) !! met && Tallied(t.pages, met, counts)
    ensures st' == st + Pushed(t.pages, page.entries)
    ensures Tallied(t.pages, met + Ids(page.entries), counts')
  {
    hide Tallied;
    ghost var es := page.entries;
    st', counts' := st, counts;
    assert met + Ids(es[..0]) == met;
    for cChild := 0 to |page.entries|
      invariant st' == st + Pushed(t.pages, es)[..cChild]
      invariant Tallied(t.pages, met + Ids(es[..cChild]), counts')
    {
      var ptrN := t.ReadNode(page.entries[cChild].id);
      NextChild(es, cChild, met);
      TallyOne(t.pages, met + Ids(es[..cChild]), counts', es[cChild].id);
      counts' := CountLevel(counts', ptrN.level);
      st' := st' + [ValidateEntry(page.entries[cChild].mbr, ptrN.identifier, Page(ptrN.level, ptrN.mbr, ptrN.entries))];
    }
    assert es[..|es|] == es;
  }

  lemma StackSplit(a: seq<ValidateEntry>, b: seq<ValidateEntry>)
    ensures StackIds(a + b) == StackIds(a) + StackIds(b)
  {
    forall k | k in StackIds(a) ensures k in StackIds(a + b) {
      var i :| 0 <= i < |a| && a[i].id == k;
      assert (a + b)[i].id == k;
    }
    forall k | k in StackIds(b) ensures k in StackIds(a + b) {
      var i :| 0 <= i < |b| && b[i].id == k;
      assert (a + b)[|a| + i].id == k;
    }
  }

  lemma PushedIds(pages: map<Id, Page>, es: seq<Entry>)
    requires forall i :: 0 <= i < |es| ==> es[i].id in pages
    ensures StackIds(Pushed(pages, es)) == Ids(es)
  {
    var pushed := Pushed(pages, es);
    forall k | k in Ids(es) ensures k in StackIds(pushed) {
      var i :| 0 <= i < |es| && es[i].id == k;
      assert pushed[i].id == k;
    }
  }

  /** The children of a page are those whose parent it is. */
  lemma ParentsKids(P: Params, pages: map<Id, Page>, par: map<Id, Id>, root: Id, p: Id)
    requires Shaped(P, pages, par, root) && p in pages
    ensures forall c :: c in par ==> (c in Kids(pages[p]) <==> par[c] == p)
    ensures Kids(pages[p]) <= par.Keys <= pages.Keys && root !in par && Boxes(pages[p].entries, P.dim)
    ensures Kids(pages[p]) == if pages[p].level == 0 then {} else Ids(pages[p].entries)
    ensures pages[p].level > 0 ==> DistinctIds(pages[p].entries)
  {
    assert forall c :: c in Kids(pages[p]) ==> c in par;
  }

  /** What the check knows about the node it pops. */
  lemma PopFacts(P: Params, pages: map<Id, Page>, par: map<Id, Id>, root: Id, done: set<Id>, st: seq<ValidateEntry>, e: ValidateEntry)
    requires Shaped(P, pages, par, root) && Frontier(pages, par, root, done, st + [e])
    ensures e.id in pages && e.page == pages[e.id] && StoredAs(pages, par, root, e.id, e.parentMBR)
    ensures e.id !in done && done <= pages.Keys && Boxes(e.page.entries, P.dim)
    ensures done + {e.id} + StackIds(st) == done + StackIds(st + [e])
    ensures e.page.level > 0 ==> DistinctIds(e.page.entries) && Ids(e.page.entries) !! done + StackIds(st + [e])
    ensures e.page.level > 0 ==> forall i :: 0 <= i < |e.page.entries| ==> e.page.entries[i].id in pages
  {
    hide Shaped, StoredAs, Kids, Boxes;
    var all := st + [e];
    assert all[|st|] == e;
    StackSplit(st, [e]);
    assert StackIds([e]) == {e.id} by {
      assert [e][0] == e;
    }
    ParentsKids(P, pages, par, root, e.id);
    forall c | c in Kids(e.page) ensures c !in done + StackIds(all) {
      assert par[c] == e.id;
    }
    if e.page.level > 0 {
      forall i | 0 <= i < |e.page.entries| ensures e.page.entries[i].id in pages {
        assert e.page.entries[i].id in Ids(e.page.entries);
      }
    }
  }

  /** The copies of the children's boxes go on the stack. */
  lemma PushedStored(P: Params, pages: map<Id, Page>, par: map<Id, Id>, root: Id, p: Id)
    requires Shaped(P, pages, par, root) && p in pages && pages[p].level > 0
    requires forall i :: 0 <= i < |pages[p].entries| ==> pages[p].entries[i].id in pages
    ensures
      var es := pages[p].entries;
      forall i :: 0 <= i < |es| ==> StoredAs(pages, par, root, Pushed(pages, es)[i].id, Pushed(pages, es)[i].parentMBR)
  {
    ParentsKids(P, pages, par, root, p);
    var es := pages[p].entries;
    forall i | 0 <= i < |es| ensures StoredAs(pages, par, root, es[i].id, es[i].mbr) {
      assert es[i].id in Kids(pages[p]);
    }
  }

  lemma FrontierStep(P: Params, pages: map<Id, Page>, par: map<Id, Id>, root: Id, done: set<Id>, st: seq<ValidateEntry>, e: ValidateEntry)
    requires Shaped(P, pages, par, root) && Frontier(pages, par, root, done, st + [e])
    requires e.id in pages && e.page == pages[e.id]
    requires e.page.level > 0 ==> forall i :: 0 <= i < |e.page.entries| ==> e.page.entries[i].id in pages
    ensures
      var st' := if e.page.level > 0 then st + Pushed(pages, e.page.entries) else st;
      && Frontier(pages, par, root, done + {e.id}, st')
      && done + {e.id} + StackIds(st') == done + StackIds(st + [e]) + Kids(e.page)
  {
    hide Shaped, StoredAs, Kids;
    PopFacts(P, pages, par, root, done, st, e);
    ParentsKids(P, pages, par, root, e.id);
    var all, es := st + [e], e.page.entries;
    var st' := if e.page.level > 0 then st + Pushed(pages, es) else st;
    assert forall i :: 0 <= i < |st| ==> all[i] == st[i];
    assert all[|st|] == e;
    if e.page.level > 0 {
      StackSplit(st, Pushed(pages, es));
      PushedIds(pages, es);
      PushedStored(P, pages, par, root, e.id);
    }
    assert StackIds(st') == StackIds(st) + Kids(e.page);
    assert e.id !in StackIds(st);
    FrontierOrder(pages, st, st', e, done);
    forall c | c in par ensures c in done + {e.id} + StackIds(st') <==> par[c] in done + {e.id} {
    }
  }

  lemma FrontierOrder(pages: map<Id, Page>, st: seq<ValidateEntry>, st': seq<ValidateEntry>, e: ValidateEntry, done: set<Id>)
    requires e.page.level > 0 ==> forall i :: 0 <= i < |e.page.entries| ==> e.page.entries[i].id in pages
    requires st' == if e.page.level > 0 then st + Pushed(pages, e.page.entries) else st
    requires forall i, j :: 0 <= i < j < |st| ==> st[i].id != st[j].id
    requires e.page.level > 0 ==> DistinctIds(e.page.entries) && Ids(e.page.entries) !! StackIds(st)
    ensures forall i, j :: 0 <= i < j < |st'| ==> st'[i].id != st'[j].id
  {
    forall i, j | 0 <= i < j < |st'| ensures st'[i].id != st'[j].id {
      if i < |st| <= j {
        assert st'[i].id in StackIds(st);
        assert st'[j].id == e.page.entries[j - |st|].id;
      } else if |st| <= i {
        assert st'[i].id == e.page.entries[i - |st|].id && st'[j].id == e.page.entries[j - |st|].id;
      }
    }
  }

  /** The box of the page is the exact union of its entries. */
  ghost predicate Exact(P: Params, n: Page) {
    Boxes(n.entries, P.dim) && n.mbr == Cover(n.entries, P.dim)
  }

  /** Nothing is left to push: every page was looked at. */
  lemma {:induction false} AllDone(P: Params, pages: map<Id, Page>, par: map<Id, Id>, root: Id, done: set<Id>, p: Id)
    requires Shaped(P, pages, par, root) && Frontier(pages, par, root, done, []) && p in pages
    requires root in pages && pages[p].level <= pages[root].level
    ensures p in done
    decreases pages[root].level - pages[p].level
  {
    if p != root {
      assert p in par;
      assert p in Kids(pages[par[p]]);
      AllDone(P, pages, par, root, done, par[p]);
    }
  }

  ghost function LowerPages(pages: map<Id, Page>, level: nat): set<Id> {
    set p | p in pages && pages[p].level < level
  }

  lemma LowerEnds(pages: map<Id, Page>, root: Id, height: nat)
    requires UnderRoot(pages, root) && height == pages[root].level + 1
    ensures LowerPages(pages, 0) == {} && LowerPages(pages, height) == pages.Keys
  {
    forall p ensures p in LowerPages(pages, height) <==> p in pages {
    }
    forall p ensures p !in LowerPages(pages, 0) {
      assert p in pages ==> pages[p].level >= 0;
    }
  }

  lemma LowerStep(pages: map<Id, Page>, level: nat)
    ensures |LowerPages(pages, level + 1)| == |LowerPages(pages, level)| + |AtLevel(pages, level)|
  {
    assert LowerPages(pages, level + 1) == LowerPages(pages, level) + AtLevel(pages, level);
    assert LowerPages(pages, level) !! AtLevel(pages, level);
  }

  /** One node of the check: its own box, then the box its parent stores. */
  method CheckNode(e: ValidateEntry, dim: nat) returns (good: bool)
    requires Boxes(e.page.entries, dim)
    ensures good <==> Cover(e.page.entries, dim) == e.page.mbr && e.page.mbr == e.parentMBR
  {
    var tmpRegion := Cover(e.page.entries, dim);
    good := true;
    if tmpRegion != e.page.mbr {
      good := false;
    } else if tmpRegion != e.parentMBR {
      good := false;
    }
  }

  /** The root goes on the stack. */
  method StartCheck(t: RTree) returns (st: seq<ValidateEntry>, nodesInLevel: map<nat, int>)
    requires Shaped(t.P, t.pages, t.par, t.rootID) && t.rootID in t.pages
    ensures Frontier(t.pages, t.par, t.rootID, {}, st) && Tallied(t.pages, {} + StackIds(st), nodesInLevel)
  {
    var root := t.ReadNode(t.rootID);
    nodesInLevel := map[root.level := 1];
    hide Shaped, Tallied, Frontier;
    st := [ValidateEntry(root.mbr, root.identifier, Page(root.level, root.mbr, root.entries))];
    StartFrontier(t.P, t.pages, t.par, t.rootID, st, nodesInLevel);
  }

  /** The page's box is exact and so is the copy of it. */
  ghost predicate Passes(P: Params, pages: map<Id, Page>, par: map<Id, Id>, root: Id, p: Id) {
    p in pages && Exact(P, pages[p]) && StoredAs(pages, par, root, p, pages[p].mbr)
  }

  /** The loop of the check over all nodes. */
  method CheckNodes(t: RTree) returns (ret: bool, nodesInLevel: map<nat, int>)
    requires Shaped(t.P, t.pages, t.par, t.rootID) && t.rootID in t.pages
    ensures ret <==> forall p :: p in t.pages ==> Passes(t.P, t.pages, t.par, t.rootID, p)
    ensures Tallied(t.pages, t.pages.Keys, nodesInLevel)
  {
    hide *;
    var st;
    st, nodesInLevel := StartCheck(t);
    ghost var done: set<Id> := {};
    ret := true;
    while st != []
      invariant Frontier(t.pages, t.par, t.rootID, done, st)
      invariant Tallied(t.pages, done + StackIds(st), nodesInLevel)
      invariant done <= t.pages.Keys
      invariant ret <==> forall p :: p in done ==> Passes(t.P, t.pages, t.par, t.rootID, p)
      decreases t.pages.Keys - done
    {
      ghost var all, counted := st, done + StackIds(st);
      var e := st[|st|-1];
      st := st[..|st|-1];
      assert all == st + [e];
      PopFacts(t.P, t.pages, t.par, t.rootID, done, st, e);
      FrontierStep(t.P, t.pages, t.par, t.rootID, done, st, e);
      KidsFacts(e.page);
      ExactFacts(t.P, t.pages, t.par, t.rootID, e);
      var good := CheckNode(e, t.P.dim);
      if !good {
        ret := false;
      }
      if e.page.level != 0 {
        st, nodesInLevel := PushChildren(t, e.page, st, nodesInLevel, counted);
      }
      done := done + {e.id};
    }
    EndFrontier(t.P, t.pages, t.par, t.rootID, done);
    assert StackIds([]) == {} by { StackNone(); }
    assert done + StackIds([]) == t.pages.Keys;
  }

  lemma StackNone()
    ensures StackIds([]) == {}
  {
  }

  lemma KidsFacts(n: Page)
    ensures n.level != 0 ==> Kids(n) == Ids(n.entries)
    ensures n.level == 0 ==> Kids(n) == {}
  {
  }

  /** The two comparisons of `CheckNode` decide whether the page is sound. */
  lemma ExactFacts(P: Params, pages: map<Id, Page>, par: map<Id, Id>, root: Id, e: ValidateEntry)
    requires Shaped(P, pages, par, root) && Boxes(e.page.entries, P.dim) && e.id in pages && e.page == pages[e.id]
    requires StoredAs(pages, par, root, e.id, e.parentMBR)
    ensures Passes(P, pages, par, root, e.id) <==> Cover(e.page.entries, P.dim) == e.page.mbr && e.page.mbr == e.parentMBR
  {
    hide Cover;
    if e.id != root {
      assert e.id in Kids(pages[par[e.id]]);
      var i :| 0 <= i < |pages[par[e.id]].entries| && pages[par[e.id]].entries[i].id == e.id;
    }
  }

  lemma StartFrontier(P: Params, pages: map<Id, Page>, par: map<Id, Id>, root: Id, st: seq<ValidateEntry>, counts: map<nat, int>)
    requires Shaped(P, pages, par, root) && root in pages
    requires st == [ValidateEntry(pages[root].mbr, root, pages[root])] && counts == map[pages[root].level := 1]
    ensures Frontier(pages, par, root, {}, st) && Tallied(pages, {} + StackIds(st), counts)
  {
    assert st[0].id == root;
    assert StackIds(st) == {root} && {} + {root} == {root};
    assert root !in par;
    forall l: nat ensures (if l in counts then counts[l] else 0) == |MetAt(pages, {root}, l)| {
      assert MetAt(pages, {root}, l) == if l == pages[root].level then {root} else {};
    }
  }

  lemma EndFrontier(P: Params, pages: map<Id, Page>, par: map<Id, Id>, root: Id, done: set<Id>)
    requires Shaped(P, pages, par, root) && Frontier(pages, par, root, done, [])
    ensures done == pages.Keys
  {
    forall p | p in pages ensures p in done {
      AllDone(P, pages, par, root, done, p);
    }
  }

  /** The counters of all levels below the height are right, and so is the total. */
  ghost predicate CountersRight(pages: map<Id, Page>, nodes: int, inLevel: seq<int>, height: nat) {
    height <= |inLevel| && nodes == |pages| && forall l :: 0 <= l < height ==> inLevel[l] == |AtLevel(pages, l)|
  }

  /** The final comparison of the counters with the statistics. */
  method CheckCounters(t: RTree, nodesInLevel: map<nat, int>) returns (good: bool)
    requires UnderRoot(t.pages, t.rootID) && t.treeHeight == t.pages[t.rootID].level + 1 && t.treeHeight <= |t.nodesInLevel|
    requires Tallied(t.pages, t.pages.Keys, nodesInLevel)
    ensures good <==> CountersRight(t.pages, t.nodes, t.nodesInLevel, t.treeHeight)
  {
    assert forall l: nat :: MetAt(t.pages, t.pages.Keys, l) == AtLevel(t.pages, l);
    LowerEnds(t.pages, t.rootID, t.treeHeight);
    good := true;
    var nodes := 0;
    for cLevel := 0 to t.treeHeight
      invariant good <==> forall l :: 0 <= l < cLevel ==> t.nodesInLevel[l] == |AtLevel(t.pages, l)|
      invariant good ==> nodes == |LowerPages(t.pages, cLevel)|
    {
      LowerStep(t.pages, cLevel);
      if (if cLevel in nodesInLevel then nodesInLevel[cLevel] else 0) != t.nodesInLevel[cLevel] {
        good := false;
      }
      nodes := nodes + t.nodesInLevel[cLevel];
    }
    if nodes != t.nodes {
      good := false;
    }
  }

  /** `isIndexValid`, on any pages that form a tree, whatever their boxes and the counters say: the answer
      is yes exactly if the height is right, every page's box is the exact union of its entries, every copy
      of a box is up to date, and all counters are right. */
  method IsIndexValid(t: RTree) returns (ret: bool)
    requires Shaped(t.P, t.pages, t.par, t.rootID) && t.treeHeight <= |t.nodesInLevel|
    ensures t.rootID in t.pages
    ensures ret <==>
      && t.treeHeight == t.pages[t.rootID].level + 1
      && (forall p :: p in t.pages ==> Exact(t.P, t.pages[p]) && Fresh(t.pages[p], t.pages, {}))
      && CountersRight(t.pages, t.nodes, t.nodesInLevel, t.treeHeight)
  {
    var root := t.ReadNode(t.rootID);
    if root.level != t.treeHeight - 1 {
      return false;
    }
    var nodesInLevel;
    hide Shaped, Exact, Passes, CountersRight, Fresh;
    ret, nodesInLevel := CheckNodes(t);
    var good := CheckCounters(t, nodesInLevel);
    AllSound(t.P, t.pages, t.par, t.rootID);
    ret := ret && good;
  }

  /** The copies agree page by page exactly if they agree entry by entry. */
  lemma AllSound(P: Params, pages: map<Id, Page>, par: map<Id, Id>, root: Id)
    requires Shaped(P, pages, par, root)
    ensures (forall p :: p in pages ==> Passes(P, pages, par, root, p)) <==>
            (forall p :: p in pages ==> Exact(P, pages[p]) && Fresh(pages[p], pages, {}))
  {
    hide Exact;
    if forall p :: p in pages ==> Passes(P, pages, par, root, p) {
      forall p | p in pages ensures Fresh(pages[p], pages, {}) {
        CopiesFresh(P, pages, par, root, p);
      }
    }
    if forall p :: p in pages ==> Exact(P, pages[p]) && Fresh(pages[p], pages, {}) {
      forall p | p in pages ensures Passes(P, pages, par, root, p) {
        assert p != root ==> p in par && par[p] in pages && p in Kids(pages[par[p]]) && Fresh(pages[par[p]], pages, {});
      }
    }
  }

  lemma CopiesFresh(P: Params, pages: map<Id, Page>, par: map<Id, Id>, root: Id, p: Id)
    requires Shaped(P, pages, par, root) && p in pages && forall q :: q in pages ==> Passes(P, pages, par, root, q)
    ensures Fresh(pages[p], pages, {})
  {
    hide Exact;
    ParentsKids(P, pages, par, root, p);
    var n := pages[p];
    if n.level > 0 {
      forall i | 0 <= i < |n.entries| ensures n.entries[i].id in pages && n.entries[i].mbr == pages[n.entries[i].id].mbr {
        var c := n.entries[i].id;
        assert c in Kids(n);
        assert Passes(P, pages, par, root, c);
      }
    }
  }

  /** A tree between two operations is shaped; its boxes pass the check exactly if they are exact, and its
      counters exactly if they do not lag behind. */
  lemma WorkingPasses(t: RTree)
    requires t.Working()
    ensures Shaped(t.P, t.pages, t.par, t.rootID) && t.treeHeight <= |t.nodesInLevel|
    ensures t.rootID in t.pages && t.treeHeight == t.pages[t.rootID].level + 1
    ensures forall p :: p in t.pages ==> Fresh(t.pages[p], t.pages, {})
    ensures CountersRight(t.pages, t.nodes, t.nodesInLevel, t.treeHeight) <==> t.Lag() != Behind
    ensures t.P.tight ==> forall p :: p in t.pages ==> Exact(t.P, t.pages[p])
  {
    hide Cover, Data, Raised;
    assert {} + {t.rootID} == {t.rootID};
    forall p | p in t.pages ensures Boxes(t.pages[p].entries, t.P.dim) && (t.pages[p].level > 0 ==> DistinctIds(t.pages[p].entries)) {
      assert PageOk(t.P, t.pages[p]);
    }
    LagDecides(t.pages, t.nodes, t.levels, t.Lag());
  }

  lemma LagDecides(pages: map<Id, Page>, nodes: int, levels: seq<int>, lag: Lag)
    requires Counted(pages, nodes, levels) && levels != []
    ensures |levels| <= |Counters(lag, levels)|
    ensures CountersRight(pages, nodes, Counters(lag, levels), |levels|) <==> lag != Behind
  {
    hide AtLevel;
    var c := Counters(lag, levels);
    if lag == Behind {
      assert c[|levels|-1] != levels[|levels|-1];
    } else {
      assert forall l :: 0 <= l < |levels| ==> c[l] == levels[l];
    }
  }

  /** A tree that was not bulk loaded passes the check exactly if its boxes are exact. */
  lemma ValidPasses(t: RTree)
    requires t.Valid()
    ensures Shaped(t.P, t.pages, t.par, t.rootID) && t.treeHeight <= |t.nodesInLevel|
    ensures t.rootID in t.pages && t.treeHeight == t.pages[t.rootID].level + 1
    ensures (forall p :: p in t.pages ==> Fresh(t.pages[p], t.pages, {})) && CountersRight(t.pages, t.nodes, t.nodesInLevel, t.treeHeight)
    ensures t.P.tight ==> forall p :: p in t.pages ==> Exact(t.P, t.pages[p])
  {
    hide RTree.Working, CountersRight, Shaped, Exact, Fresh;
    t.FullRagged();
    WorkingPasses(t);
  }
}
