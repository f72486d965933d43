/** The R-tree itself: pages in a store, the root, the statistics, and the operations that rewrite
    pages one node at a time. */
module RTreeModel {
  import opened Geometry
  import opened Pages
  import opened IndexLists
  import opened Lists
  import opened RTreeNode
  import opened TreeSteps

  // ---------------------------------------------------------------- paths

  /** `path` is the stack of ancestors of page `id`, the root at the bottom. */
  ghost predicate PathTo(par: map<Id, Id>, root: Id, path: seq<Id>, id: Id) {
    if path == [] then id == root
    else id in par && par[id] == path[|path|-1] && PathTo(par, root, path[..|path|-1], path[|path|-1])
  }

  /** Two parent maps that agree on a page and its ancestors give it the same path. */
  lemma {:induction false} PathFrame(par: map<Id, Id>, par': map<Id, Id>, root: Id, path: seq<Id>, id: Id)
    requires PathTo(par, root, path, id)
    requires forall c :: c in par && (c == id || c in path) ==> c in par' && par'[c] == par[c]
    ensures PathTo(par', root, path, id)
  {
    if path != [] {
      PathFrame(par, par', root, path[..|path|-1], path[|path|-1]);
    }
  }

  /** Ancestors lie on higher levels. */
  lemma {:induction false} PathAbove(P: Params, pages: map<Id, Page>, par: map<Id, Id>, root: Id, orphans: set<Id>,
                  stale: set<Id>, loose: set<Id>, path: seq<Id>, id: Id)
    requires Grove(P, pages, par, root, orphans, stale, loose)
    requires PathTo(par, root, path, id) && id in pages
    ensures forall c :: c in path ==> c in pages && c !in orphans && pages[c].level > pages[id].level
    ensures id !in orphans
  {
    if path != [] {
      var up := path[|path|-1];
      assert id in Kids(pages[up]);
      PathAbove(P, pages, par, root, orphans, stale, loose, path[..|path|-1], up);
      assert path == path[..|path|-1] + [up];
    }
  }

  // ---------------------------------------------------------------- overflow marks

  ghost function Unmarked(ov: seq<bool>): nat {
    if ov == [] then 0 else (if ov[|ov|-1] then 0 else 1) + Unmarked(ov[..|ov|-1])
  }

  ghost predicate MoreMarked(a: seq<bool>, b: seq<bool>) {
    |a| == |b| && forall l :: 0 <= l < |a| && a[l] ==> b[l]
  }

  lemma {:induction false} UnmarkedMonotone(a: seq<bool>, b: seq<bool>)
    requires MoreMarked(a, b)
    ensures Unmarked(b) <= Unmarked(a)
    ensures forall l :: 0 <= l < |a| && !a[l] && b[l] ==> Unmarked(b) < Unmarked(a)
  {
    if a != [] {
      UnmarkedMonotone(a[..|a|-1], b[..|b|-1]);
    }
  }

  /** From marks `a` and log `x` to marks `b` and log `y`: the levels logged in between are exactly
      the levels marked in between, each of them once. */
  ghost predicate Logged(a: seq<bool>, b: seq<bool>, x: seq<nat>, y: seq<nat>) {
    && MoreMarked(a, b)
    && x <= y
    && NoDuplicates(y[|x|..])
    && (forall l :: l in y[|x|..] ==> l < |a| && !a[l] && b[l])
    && (forall l :: 0 <= l < |a| && !a[l] && b[l] ==> l in y[|x|..])
  }

  /** After `before` the log goes on with `level`, which is marked now. */
  ghost predicate Started(level: nat, before: seq<nat>, after: seq<nat>, marks: seq<bool>) {
    |before| < |after| && before <= after && after[|before|] == level && level < |marks| && marks[level]
  }

  lemma StartedMade(level: nat, a: seq<bool>, b: seq<bool>, x: seq<nat>, y: seq<nat>)
    requires Logged(a, b, x + [level], y) && level < |a| && a[level]
    ensures Started(level, x, y, b)
  {
    assert y[|x|] == (x + [level])[|x|];
    assert x == (x + [level])[..|x|] == y[..|x|];
  }

  lemma LoggedTransitive(a: seq<bool>, b: seq<bool>, c: seq<bool>, x: seq<nat>, y: seq<nat>, z: seq<nat>)
    requires Logged(a, b, x, y) && Logged(b, c, y, z)
    ensures Logged(a, c, x, z)
  {
    var first, second := y[|x|..], z[|y|..];
    assert z[|x|..] == first + second;
    forall i, j | 0 <= i < j < |first + second| ensures (first + second)[i] != (first + second)[j] {
      if i < |first| <= j {
        assert first[i] in first && second[j - |first|] in second;
      }
    }
  }

  lemma LoggedMark(a: seq<bool>, l: nat, x: seq<nat>)
    requires l < |a| && !a[l]
    ensures Logged(a, a[l := true], x, x + [l])
    ensures Unmarked(a[l := true]) < Unmarked(a)
  {
    assert (x + [l])[|x|..] == [l];
    UnmarkedMonotone(a, a[l := true]);
  }

  // ---------------------------------------------------------------- entries that wait

  /** The entries `es` wait for insertion at `level` while `base` are the other parentless pages. */
  ghost predicate Waiting(P: Params, pages: map<Id, Page>, base: set<Id>, level: nat, es: seq<Entry>) {
    && (forall i :: 0 <= i < |es| ==> Insertable(P, pages, base + Pieces(level, es), level, es[i]))
    && (level > 0 ==> DistinctIds(es))
    && Pieces(level, es) !! base
  }

  lemma WaitingStep(P: Params, pages: map<Id, Page>, pages': map<Id, Page>, base: set<Id>, level: nat, es: seq<Entry>)
    requires Waiting(P, pages, base, level, es) && |es| > 0
    requires forall q :: q in base + Pieces(level, es) - Piece(level, es[0]) && q in pages ==> q in pages' && pages'[q] == pages[q]
    ensures base + Pieces(level, es) - Piece(level, es[0]) == base + Pieces(level, es[1..])
    ensures Waiting(P, pages', base, level, es[1..])
    ensures Loads(level, es) == Gain(level, es[0]) + Loads(level, es[1..])
  {
    var rest := es[1..];
    assert es == [es[0]] + rest;
    assert forall i :: 0 <= i < |rest| ==> rest[i] == es[i+1];
    assert Ids(es) == {es[0].id} + Ids(rest) by {
      forall k | k in Ids(es) ensures k in {es[0].id} + Ids(rest) {
        var i :| 0 <= i < |es| && es[i].id == k;
        assert i > 0 ==> rest[i-1].id == k;
      }
    }
    assert level > 0 ==> es[0].id !in Ids(rest);
    forall i | 0 <= i < |rest| ensures Insertable(P, pages', base + Pieces(level, rest), level, rest[i]) {
      assert rest[i] == es[i+1];
      assert rest[i].id in Ids(rest);
    }
  }

  /** Page numbers are non-negative, and node counts, levels and height are those of `now`. */
  ghost predicate StatisticsOf(now: map<Id, Page>, root: Id, nodes: int, nodesInLevel: seq<int>, height: nat) {
    && Counted(now, nodes, nodesInLevel)
    && root in now && height == |nodesInLevel| == now[root].level + 1
    && forall p :: p in now ==> p >= 0
  }

  /** A tree with parentless pieces, stale boxes and nearly empty pages as given, and its statistics. */
  ghost predicate BetweenAt(P: Params, now: map<Id, Page>, par: map<Id, Id>, root: Id, orphans: set<Id>, stale: set<Id>,
                            loose: set<Id>, nodes: int, inLevel: seq<int>, height: nat) {
    && P.Sane() && Solid(now, orphans, loose)
    && Tree(P, now, par, root, orphans, stale, loose)
    && StatisticsOf(now, root, nodes, inLevel, height)
  }

  // ---------------------------------------------------------------- nearly empty pages

  /** The pages below the root with fewer than two entries. */
  ghost function Thin(pages: map<Id, Page>, root: Id): set<Id> {
    set p | p in pages && p != root && |pages[p].entries| < 2
  }

  /** Above the leaves, no two of these pages are on the same level. */
  ghost predicate Apart(pages: map<Id, Page>, thin: set<Id>) {
    forall p, q {:trigger p in thin, q in thin} :: p in thin && q in thin && p in pages && q in pages && p != q && pages[p].level > 0 ==>
      pages[p].level != pages[q].level
  }

  lemma ApartLater(before: map<Id, Page>, after: map<Id, Page>, root: Id, thin: set<Id>, thin': set<Id>)
    requires Apart(before, thin) && Levels(before, after, root) && thin' <= thin <= before.Keys - {root}
    ensures Apart(after, thin')
  {
  }

  // ---------------------------------------------------------------- level counters

  /** How the level counters stand to the number of nodes on each level: equal; with one counter too
      many at the end, which says 0 or 1; or with the counter of the root's level one too low and one
      counter too many after it. */
  datatype Lag = InStep | SpareZero | SpareOne | Behind

  ghost function Counters(lag: Lag, levels: seq<int>): seq<int> {
    match lag
    case InStep => levels
    case SpareZero => levels + [0]
    case SpareOne => levels + [1]
    case Behind => if levels == [] then [] else levels[|levels|-1 := levels[|levels|-1] - 1] + [1]
  }

  /** What a new root does to it: the old root's counter is set to two and a one is appended. */
  ghost function AfterRaise(lag: Lag): Lag {
    match lag
    case InStep => InStep
    case SpareZero => Behind
    case SpareOne => SpareOne
    case Behind => SpareOne
  }

  /** What a lost root does to it: the last counter goes, and the new root's counter is set to two. */
  ghost function AfterLower(lag: Lag): Lag {
    match lag
    case InStep => InStep
    case SpareZero => SpareOne
    case SpareOne => SpareOne
    case Behind => SpareZero
  }

  ghost function Raised(lag: Lag, times: nat): Lag {
    if times == 0 then lag else AfterRaise(Raised(lag, times - 1))
  }

  ghost function Bumped(levels: seq<int>, l: nat, d: int): seq<int> {
    if l < |levels| then levels[l := levels[l] + d] else levels
  }

  lemma CountersBumped(lag: Lag, levels: seq<int>, l: nat, d: int)
    requires l < |levels|
    ensures Counters(lag, Bumped(levels, l, d)) == Bumped(Counters(lag, levels), l, d)
    ensures |levels| <= |Counters(lag, levels)|
  {
  }

  lemma CountersRaised(lag: Lag, levels: seq<int>)
    requires levels != []
    ensures |levels| <= |Counters(lag, levels)|
    ensures Counters(AfterRaise(lag), levels[|levels|-1 := 2] + [1]) == Counters(lag, levels)[|levels|-1 := 2] + [1]
  {
  }

  lemma CountersLowered(lag: Lag, levels: seq<int>)
    requires |levels| >= 2 && levels[|levels|-1] == 1
    ensures |levels| <= |Counters(lag, levels)|
    ensures
      var c := Counters(lag, levels);
      c[..|c|-1][|levels|-2 := 2] == Counters(AfterLower(lag), levels[..|levels|-1][|levels|-2 := 2])
  {
  }

  // ---------------------------------------------------------------- the tree

  /** The page is on `level` and takes another entry. */
  ghost predicate Roomy(P: Params, n: Page, level: nat) {
    n.level == level && |n.entries| < P.Capacity(level)
  }

  /** A node as it waits on a stack: its page number and its contents. */
  datatype Held = Held(id: Id, page: Page)

  class RTree {
    const P: Params
    var pages: map<Id, Page>
    var rootID: Id
    var nodes: int
    var nodesInLevel: seq<int>
    var treeHeight: nat
    var dataCount: int
    ghost var par: map<Id, Id>
    ghost var reinsertions: seq<nat>
    ghost var levels: seq<int>
    ghost var mark: Lag
    ghost var markHeight: nat

    /** How the counters stand: as they stood at the mark, and then the root was raised some times. */
    ghost function Lag(): Lag
      reads `treeHeight, `mark, `markHeight
    {
      Raised(mark, if markHeight <= treeHeight then treeHeight - markHeight else 0)
    }

    /** The level counters follow the numbers of nodes on the levels, with that lag. */
    ghost predicate Follows()
      reads `nodesInLevel, `treeHeight, `levels, `mark, `markHeight
    {
      markHeight <= treeHeight && nodesInLevel == Counters(Lag(), levels)
    }

    /** The statistics agree with the pages `now`. */
    ghost predicate Statistics(now: map<Id, Page>)
      reads `nodes, `levels, `treeHeight, `rootID
    {
      StatisticsOf(now, rootID, nodes, levels, treeHeight)
    }

    /** A state between two steps of an update, seen as the pages `now` with parents `par`. */
    ghost predicate Between(now: map<Id, Page>, par: map<Id, Id>, orphans: set<Id>, stale: set<Id>, loose: set<Id>)
      reads `nodes, `nodesInLevel, `treeHeight, `rootID, `levels, `mark, `markHeight
    {
      BetweenAt(P, now, par, rootID, orphans, stale, loose, nodes, levels, treeHeight) && Follows()
    }

    /** Between two operations: one tree, nothing stale, nothing waiting, and no page is empty except a
        root that is a leaf. */
    ghost predicate Working()
      reads this
    {
      Between(pages, par, {}, {}, pages.Keys - {rootID}) && dataCount == |Data(pages)|
    }

    /** And on no level above the leaves more than one page has a single entry: the state of every tree
        that was bulk loaded, with index nodes of two entries or more, and then changed. */
    ghost predicate Ragged()
      reads this
    {
      Working() && Apart(pages, Thin(pages, rootID))
    }

    /** And no page has fewer than two entries, except a root that is a leaf. */
    ghost predicate Full()
      reads this
    {
      Between(pages, par, {}, {}, {}) && dataCount == |Data(pages)|
    }

    /** And the level counters are exact: the state of every tree that was not bulk loaded. */
    ghost predicate Valid()
      reads this
    {
      Full() && Lag() == InStep
    }

    /** The pages as they would be with the in-memory node `n` written back. */
    ghost function With(n: Node): map<Id, Page>
      reads this, n
    {
      pages[n.identifier := n.Rec()]
    }

    /** `n` is an in-memory copy, possibly changed, of an existing page. */
    ghost predicate Loaded(n: Node)
      reads `pages, n`level, n`identifier
    {
      n.P == P && n.identifier in pages && n.level == pages[n.identifier].level
    }

    /** A new index: its root is an empty leaf on page `root`. */
    constructor (P: Params, root: Id)
      requires P.Sane() && root >= 0
      ensures Valid() && this.P == P && Data(pages) == multiset{} && treeHeight == 1
      ensures rootID == root && pages == map[root := Page(0, Infinite(P.dim), [])]
    {
      this.P, rootID := P, root;
      pages := map[root := Page(0, Infinite(P.dim), [])];
      nodes, nodesInLevel, treeHeight, dataCount := 1, [1], 1, 0;
      par, reinsertions := map[], [];
      levels, mark, markHeight := [1], InStep, 1;
      new;
      EmptyTree(P, root);
    }

    /** A page number the storage manager has not given out. */
    method NewPage() returns (page: Id)
      ensures page >= 0 && page !in pages
    {
      UnusedId(pages.Keys);
      page :| page >= 0 && page !in pages;
    }

    method ReadNode(page: Id) returns (n: Node)
      requires page in pages
      ensures fresh(n) && n.P == P && n.identifier == page && n.Rec() == pages[page]
    {
      n := new Node.Load(P, page, pages[page]);
    }

    /** `writeNode` for a node that has a page. */
    method WriteNode(n: Node)
      requires n.identifier >= 0
      modifies this`pages
      ensures pages == old(pages)[n.identifier := n.Rec()]
    {
      pages := pages[n.identifier := Page(n.level, n.mbr, n.entries)];
    }

    /** `writeNode` for a node whose identifier is negative: it gets a new page and is counted. */
    method WriteNewNode(n: Node)
      requires n.identifier < 0 && n.level < |nodesInLevel|
      modifies this`pages, this`nodes, this`nodesInLevel, this`levels, n`identifier
      ensures n.identifier >= 0 && n.identifier !in old(pages)
      ensures pages == old(pages)[n.identifier := n.Rec()]
      ensures nodes == old(nodes) + 1
      ensures nodesInLevel == old(nodesInLevel)[n.level := old(nodesInLevel)[n.level] + 1]
      ensures levels == Bumped(old(levels), n.level, 1)
    {
      var page := NewPage();
      pages := pages[page := Page(n.level, n.mbr, n.entries)];
      n.identifier := page;
      nodes := nodes + 1;
      nodesInLevel := nodesInLevel[n.level := nodesInLevel[n.level] + 1];
      levels := Bumped(levels, n.level, 1);
    }

    method DeleteNode(n: Node)
      requires n.identifier in pages && n.level < |nodesInLevel|
      modifies this`pages, this`nodes, this`nodesInLevel, this`levels
      ensures pages == old(pages) - {n.identifier}
      ensures nodes == old(nodes) - 1
      ensures nodesInLevel == old(nodesInLevel)[n.level := old(nodesInLevel)[n.level] - 1]
      ensures levels == Bumped(old(levels), n.level, -1)
    {
      pages := pages - {n.identifier};
      nodes := nodes - 1;
      nodesInLevel := nodesInLevel[n.level := nodesInLevel[n.level] - 1];
      levels := Bumped(levels, n.level, -1);
    }

    // -------------------------------------------------------------- adjusting boxes upwards

    /** The first half of both `adjustTree` forms: index node `p` takes over the box of its child
        `n`, and recomputes its own box if the new box is not contained or the old one touched. */
    method TakeBox(p: Node, n: Node, ghost orphans: set<Id>, ghost stale: set<Id>, ghost loose: set<Id>)
      returns (bRecompute: bool, ghost stale': set<Id>)
      requires Between(pages, par, orphans, stale, loose) && stale <= {n.identifier}
      requires Loaded(p) && p.Rec() == pages[p.identifier] && p.identifier !in orphans
      requires n.identifier in par && n.identifier in pages && n.mbr == pages[n.identifier].mbr
      requires n.identifier in Kids(p.Rec()) && p.level > 0 && n != p
      requires PageOk(P, p.Rec()) && IsBox(n.mbr, P.dim)
      modifies p`entries, p`mbr
      ensures stale' <= {p.identifier} - {rootID}
      ensures !bRecompute || p.identifier == rootID ==> stale' == {}
      ensures Between(With(p), par, orphans, stale', loose)
      ensures OnlyBoxes(pages, With(p), orphans) && p.identifier >= 0
    {
      hide Between, Tree, Kids, OnlyBoxes, Cover, Bounds, PageOk, Contains, Touches;
      OkBoxes(P, p.Rec());
      var child := FindChild(p, n.identifier);
      var bContained := Contains(p.mbr, n.mbr);
      var bTouches := Touches(p.mbr, p.entries[child].mbr);
      bRecompute := !bContained || (bTouches && P.tight);
      TouchesAlways(p.mbr, p.entries[child].mbr);
      ghost var before := p.Rec();
      p.entries := p.entries[child := Entry(n.mbr, n.identifier, p.entries[child].data)];
      if bRecompute {
        p.Recompute();
      }
      RefitBounds(P, before, child, n.mbr, p.Rec());
      stale' := RefitBetween(pages, orphans, stale, loose, p.identifier, child, p.Rec());
    }

    lemma RefitBetween(now: map<Id, Page>, orphans: set<Id>, stale: set<Id>, loose: set<Id>, p: Id, i: nat, n': Page)
      returns (stale': set<Id>)
      requires Between(now, par, orphans, stale, loose)
      requires p in now && p !in orphans && now[p].level > 0 && i < |now[p].entries|
      requires
        var c := now[p].entries[i].id;
        && stale <= {c} && c in now
        && n'.level == now[p].level
        && n'.entries == now[p].entries[i := Entry(now[c].mbr, c, now[p].entries[i].data)]
      requires Bounds(P, n'.mbr, n'.entries)
      ensures stale' == if p == rootID || n'.mbr == now[p].mbr then {} else {p}
      ensures Between(now[p := n'], par, orphans, stale', loose)
      ensures OnlyBoxes(now, now[p := n'], orphans) && p >= 0
    {
      stale' := Refit(P, now, par, rootID, orphans, stale, loose, p, i, n', orphans);
      SolidUpdate(now, orphans, loose, p, n');
      hide Tree;
      OnlyBoxesSame(now, now[p := n'], orphans, nodes, levels);
    }

    /** `adjustTree` for one child: index node `p` takes over the new box of its child `n`, and the
        change travels up along `path` as long as boxes are recomputed. */
    method AdjustTree(p: Node, n: Node, path: seq<Id>, ghost orphans: set<Id>, ghost stale: set<Id>, ghost loose: set<Id>)
      requires Between(pages, par, orphans, stale, loose) && stale <= {n.identifier}
      requires Loaded(p) && p.Rec() == pages[p.identifier]
      requires n.identifier in pages && n.mbr == pages[n.identifier].mbr
      requires n.identifier in par && par[n.identifier] == p.identifier
      requires PathTo(par, rootID, path, p.identifier)
      requires n != p
      modifies this`pages, p`entries, p`mbr
      decreases |path|
      ensures Between(pages, par, orphans, {}, loose)
      ensures OnlyBoxes(old(pages), pages, orphans)
    {
      hide Between, PageOk, Kids, OnlyBoxes, PathTo, Boxes, Tree;
      AdjustFacts(pages, orphans, stale, loose, p.identifier, n.identifier, path);
      ghost var was := pages;
      var bRecompute;
      ghost var stale';
      bRecompute, stale' := TakeBox(p, n, orphans, stale, loose);
      WriteNode(p);
      if bRecompute && path != [] {
        var ptrN := ReadNode(path[|path|-1]);
        ghost var mid := pages;
        AdjustTree(ptrN, p, path[..|path|-1], orphans, stale', loose);
        OnlyBoxesTransitive(was, mid, pages, orphans);
      }
    }

    lemma AdjustFacts(now: map<Id, Page>, orphans: set<Id>, stale: set<Id>, loose: set<Id>, p: Id, c: Id, path: seq<Id>)
      requires Between(now, par, orphans, stale, loose)
      requires c in par && par[c] == p && p in now && PathTo(par, rootID, path, p)
      ensures Tree(P, now, par, rootID, orphans, stale, loose)
      ensures c in Kids(now[p]) && c in now && p !in orphans && now[p].level == now[c].level + 1 && p >= 0
      ensures PageOk(P, now[p]) && PageOk(P, now[c])
      ensures IsBox(now[p].mbr, P.dim) && Boxes(now[p].entries, P.dim) && IsBox(now[c].mbr, P.dim)
      ensures if path == [] then p == rootID else
        && path[|path|-1] in now && p in par && par[p] == path[|path|-1]
        && PathTo(par, rootID, path[..|path|-1], path[|path|-1])
    {
      PathAbove(P, now, par, rootID, orphans, stale, loose, path, p);
    }

    /** The scan for the entry of an index node that points to page `id`. */
    method FindChild(p: Node, id: Id) returns (child: nat)
      requires p.level > 0 && id in Kids(p.Rec())
      ensures child < |p.entries| && p.entries[child].id == id
    {
      child := 0;
      while p.entries[child].id != id
        invariant child < |p.entries|
        invariant forall i :: 0 <= i < child ==> p.entries[i].id != id
        decreases |p.entries| - child
      {
        if child == |p.entries| - 1 {
          var i :| 0 <= i < |p.entries| && p.entries[i].id == id;
          assert false;
        }
        child := child + 1;
      }
    }

    // -------------------------------------------------------------- insertion

    /** Node `n`, perhaps not yet written back, is about to take the entry `e`; `path` leads to it. */
    ghost predicate Ready(n: Node, e: Entry, path: seq<Id>, orphans: set<Id>, stale: set<Id>, loose: set<Id>)
      reads this, n
    {
      && Loaded(n) && n.identifier !in orphans
      && Between(With(n), par, orphans, stale, loose) && stale <= {n.identifier} - {rootID}
      && PathTo(par, rootID, path, n.identifier)
      && Insertable(P, With(n), orphans, n.level, e)
    }

    lemma ReadyFacts(n: Node, e: Entry, path: seq<Id>, orphans: set<Id>, stale: set<Id>, loose: set<Id>)
      requires Ready(n, e, path, orphans, stale, loose)
      ensures Tree(P, With(n), par, rootID, orphans, stale, loose) && Solid(With(n), orphans, loose) && P.Sane()
      ensures PageOk(P, n.Rec()) && IsBox(n.mbr, P.dim) && Boxes(n.entries, P.dim) && IsBox(e.mbr, P.dim)
      ensures |n.entries| <= P.Capacity(n.level) && n.identifier >= 0
      ensures |n.entries| >= 1 || (n.identifier == rootID && n.level == 0)
      ensures n.level < |levels| && Statistics(With(n)) && Follows()
      ensures Between(With(n), par, orphans, stale, loose)
      ensures Loaded(n) && n.identifier !in orphans && stale <= {n.identifier} - {rootID}
      ensures Insertable(P, With(n), orphans, n.level, e) && PathTo(par, rootID, path, n.identifier)
      ensures if path == [] then n.identifier == rootID else
        && n.identifier != rootID && n.identifier in par && par[n.identifier] == path[|path|-1]
        && path[|path|-1] in pages && path[|path|-1] != n.identifier
        && PathTo(par, rootID, path[..|path|-1], path[|path|-1])
    {
      Inspect(P, With(n), par, rootID, orphans, stale, loose, n.identifier);
      PathAbove(P, With(n), par, rootID, orphans, stale, loose, path, n.identifier);
    }

    /** Ghost bookkeeping of one more entry on page `p`. */
    lemma AttachBetween(now: map<Id, Page>, orphans: set<Id>, stale: set<Id>, loose: set<Id>, path: seq<Id>, p: Id, e: Entry)
      returns (par': map<Id, Id>, stale': set<Id>)
      requires Between(now, par, orphans, stale, loose)
      requires p in now && p !in orphans && PageOk(P, now[p]) && |now[p].entries| < P.Capacity(now[p].level)
      requires |now[p].entries| >= 1 || (p == rootID && now[p].level == 0)
      requires Insertable(P, now, orphans, now[p].level, e)
      requires p == rootID ==> p !in stale
      requires PathTo(par, rootID, path, p)
      ensures stale' == if p == rootID || Contains(now[p].mbr, e.mbr) then stale else stale + {p}
      ensures Between(now[p := Extended(now[p], e)], par', orphans - Piece(now[p].level, e), stale', loose)
      ensures Grown(now, now[p := Extended(now[p], e)], rootID, orphans - Piece(now[p].level, e), Gain(now[p].level, e))
      ensures PathTo(par', rootID, path, p)
    {
      BetweenParts(now, orphans, stale, loose);
      SolidAfter(P, now, now[p := Extended(now[p], e)], orphans, orphans - Piece(now[p].level, e), loose, p, now[p].level, e);
      hide *;
      var pages';
      pages', par', stale' := Attach(P, now, par, rootID, orphans, stale, loose, p, e);
      UpdateStatistics(now, p, pages'[p]);
      PathFrame(par, par', rootID, path, p);
      GrownUpdate(now, p, pages'[p], rootID, orphans - Piece(now[p].level, e), Gain(now[p].level, e));
      AssembleBetween(pages', par', orphans - Piece(now[p].level, e), stale', loose);
    }

    lemma BetweenParts(now: map<Id, Page>, orphans: set<Id>, stale: set<Id>, loose: set<Id>)
      requires Between(now, par, orphans, stale, loose)
      ensures P.Sane() && Solid(now, orphans, loose) && rootID in now
      ensures Tree(P, now, par, rootID, orphans, stale, loose) && Statistics(now) && Follows()
    {
    }

    lemma UpdateStatistics(now: map<Id, Page>, p: Id, n: Page)
      requires Statistics(now) && p in now && n.level == now[p].level
      ensures Statistics(now[p := n])
    {
      CountUpdate(now, p, n, nodes, levels);
    }

    /** Stores one more entry in `n` and writes the node; only its parent's copy of the box may now
        be out of date. */
    method StoreEntry(n: Node, e: Entry, path: seq<Id>, ghost orphans: set<Id>, ghost stale: set<Id>, ghost loose: set<Id>)
      returns (ghost stale': set<Id>)
      requires Ready(n, e, path, orphans, stale, loose) && |n.entries| < P.Capacity(n.level)
      modifies this`pages, this`par, n`entries, n`mbr
      ensures old(IsBox(n.mbr, P.dim)) && IsBox(e.mbr, P.dim)
      ensures stale' == if path == [] || old(Contains(n.mbr, e.mbr)) then stale else stale + {n.identifier}
      ensures Between(pages, par, orphans - Piece(n.level, e), stale', loose)
      ensures Grown(old(With(n)), pages, rootID, orphans - Piece(n.level, e), Gain(n.level, e))
      ensures Written(n, path)
      ensures pages == old(pages)[n.identifier := Extended(old(n.Rec()), e)]
    {
      hide Between, Tree, PageOk, PathTo, Grown, Ready, Insertable;
      ReadyFacts(n, e, path, orphans, stale, loose);
      ghost var before := With(n);
      ghost var par';
      par', stale' := AttachBetween(before, orphans, stale, loose, path, n.identifier, e);
      n.InsertEntry(e);
      WriteNode(n);
      assert pages == before[n.identifier := Extended(before[n.identifier], e)];
      par := par';
    }

    /** The room branch of `insertData`: the change travels up unless the node's box already
        contained the entry's box. */
    method InsertRoom(n: Node, e: Entry, path: seq<Id>, ghost orphans: set<Id>, ghost stale: set<Id>, ghost loose: set<Id>)
      returns (adjusted: bool)
      requires Ready(n, e, path, orphans, stale, loose) && |n.entries| < P.Capacity(n.level)
      modifies this`pages, this`par, n`entries, n`mbr
      ensures Between(pages, par, orphans - Piece(n.level, e), if adjusted then {} else stale, loose)
      ensures Grown(old(With(n)), pages, rootID, orphans - Piece(n.level, e), Gain(n.level, e))
      ensures !adjusted ==> Written(n, path)
      ensures old(IsBox(n.mbr, P.dim)) && IsBox(e.mbr, P.dim)
      ensures path == [] ==> pages == old(pages)[n.identifier := Extended(old(n.Rec()), e)]
    {
      hide Tree, Between, PageOk, PathTo, Grown, Ready, Insertable;
      ReadyFacts(n, e, path, orphans, stale, loose);
      ghost var before := With(n);
      var b := Contains(n.mbr, e.mbr);
      ghost var stale' := StoreEntry(n, e, path, orphans, stale, loose);
      adjusted := false;
      if !b && path != [] {
        var ptrN := ReadNode(path[|path|-1]);
        ghost var mid := pages;
        PathStep(par, rootID, path, n.identifier);
        AdjustTree(ptrN, n, path[..|path|-1], orphans - Piece(n.level, e), stale', loose);
        GrownBoxes(before, mid, pages, rootID, orphans - Piece(n.level, e), Gain(n.level, e));
        adjusted := true;
      }
    }

    /** Forced reinsertion, first half: `n` keeps part of its entries and the new one, the rest is
        taken out and waits. */
    method CutNode(n: Node, e: Entry, path: seq<Id>, ghost orphans: set<Id>, ghost stale: set<Id>, ghost loose: set<Id>)
      returns (out: seq<Entry>)
      requires Ready(n, e, path, orphans, stale, loose)
      requires P.variant == RStar && |n.entries| == P.Capacity(n.level) && path != []
      modifies this`pages, this`par, n`entries, n`mbr
      ensures Between(pages, par, orphans - Piece(n.level, e) + Pieces(n.level, out), {n.identifier}, loose)
      ensures Waiting(P, pages, orphans - Piece(n.level, e), n.level, out)
      ensures GrownBut(old(With(n)), pages, rootID, orphans - Piece(n.level, e), Gain(n.level, e), Loads(n.level, out))
      ensures Written(n, path)
    {
      ReadyFacts(n, e, path, orphans, stale, loose);
      ghost var before := With(n);
      hide Between, PageOk, PathTo, Ready, Waiting, GrownBut, Divided, Insertable;
      out := n.TakeOut(e);
      WriteCut(n, before, e, out, path, orphans, stale, loose);
    }

    /** Writes the node that was cut; its parent's copy of the box is out of date now. */
    method WriteCut(n: Node, ghost before: map<Id, Page>, ghost e: Entry, ghost out: seq<Entry>, ghost path: seq<Id>,
                    ghost orphans: set<Id>, ghost stale: set<Id>, ghost loose: set<Id>)
      requires n.P == P && n.identifier in before && pages.Keys == before.Keys && before == pages[n.identifier := before[n.identifier]]
      requires Between(before, par, orphans, stale, loose)
      requires n.identifier !in orphans && stale <= {n.identifier} - {rootID} && n.identifier != rootID
      requires PathTo(par, rootID, path, n.identifier) && n.identifier >= 0 && (path != [] ==> path[|path|-1] in pages)
      requires n.level == before[n.identifier].level && Insertable(P, before, orphans, n.level, e)
      requires Divided(before[n.identifier], e, n.entries, out) && 2 <= |n.entries| <= P.Capacity(n.level)
      requires Boxes(n.entries, P.dim) && n.Rec() == Packed(n.level, n.entries, P.dim)
      modifies this`pages, this`par
      ensures Between(pages, par, orphans - Piece(n.level, e) + Pieces(n.level, out), {n.identifier}, loose)
      ensures Waiting(P, pages, orphans - Piece(n.level, e), n.level, out)
      ensures GrownBut(before, pages, rootID, orphans - Piece(n.level, e), Gain(n.level, e), Loads(n.level, out))
      ensures Written(n, path)
    {
      hide Between, Waiting, GrownBut, Divided, Insertable, PathTo;
      ghost var par' := CutBetween(before, orphans, stale, loose, n.identifier, e, path, n.entries, out);
      WriteNode(n);
      par := par';
      assert pages == before[n.identifier := Packed(n.level, n.entries, P.dim)];
    }

    lemma CutFacts(now: map<Id, Page>, orphans: set<Id>, stale: set<Id>, loose: set<Id>, p: Id, path: seq<Id>)
      requires Between(now, par, orphans, stale, loose) && p in now && PathTo(par, rootID, path, p) && p != rootID
      ensures P.Sane() && Solid(now, orphans, loose) && rootID in now && p in par
      ensures Tree(P, now, par, rootID, orphans, stale, loose) && Statistics(now) && Follows()
      ensures forall c :: c in Kids(now[p]) ==> c in now && now[c].level < now[p].level
      ensures forall c :: c in path ==> c in now && c !in orphans && now[c].level > now[p].level
    {
      PathAbove(P, now, par, rootID, orphans, stale, loose, path, p);
      Inspect(P, now, par, rootID, orphans, stale, loose, p);
    }

    lemma CutBetween(now: map<Id, Page>, orphans: set<Id>, stale: set<Id>, loose: set<Id>, p: Id, e: Entry,
                     path: seq<Id>, keep: seq<Entry>, out: seq<Entry>)
      returns (par': map<Id, Id>)
      requires Between(now, par, orphans, stale, loose)
      requires p in now && p !in orphans && stale <= {p} - {rootID} && p != rootID
      requires PathTo(par, rootID, path, p)
      requires Insertable(P, now, orphans, now[p].level, e)
      requires Divided(now[p], e, keep, out) && 2 <= |keep| <= P.Capacity(now[p].level)
      ensures Boxes(keep, P.dim)
      ensures
        var level, now' := now[p].level, now[p := Packed(now[p].level, keep, P.dim)];
        var base := orphans - Piece(level, e);
        && Between(now', par', base + Pieces(level, out), {p}, loose)
        && Waiting(P, now', base, level, out)
        && GrownBut(now, now', rootID, base, Gain(level, e), Loads(level, out))
        && PathTo(par', rootID, path, p)
    {
      hide *;
      var level := now[p].level;
      CutFacts(now, orphans, stale, loose, p, path);
      var now', orphans';
      now', par', orphans' := Cut(P, now, par, rootID, orphans, stale, loose, p, e, keep, out);
      assert {p} - {rootID} == {p};
      PathFrame(par, par', rootID, path, p);
      CutWaiting(P, now, now', orphans, orphans', level, e, out, rootID, p, keep);
      UpdateStatistics(now, p, now'[p]);
      AssembleBetween(now', par', orphans', {p}, loose);
    }

    /** Descends from `n` to a node of `level`, pushing the pages passed on the way; which child is
        taken at each step is left open. */
    method ChooseSubtree(n: Node, level: nat, path: seq<Id>, ghost orphans: set<Id>, ghost loose: set<Id>)
      returns (r: Node, path': seq<Id>)
      requires Between(pages, par, orphans, {}, loose) && Written(n, path)
      requires level <= n.level
      ensures r == n || fresh(r)
      ensures Written(r, path') && r.level == level && (n.level == level ==> r == n && path' == path)
      decreases n.level
    {
      if n.level == level {
        return n, path;
      }
      DescendFacts(n, path, orphans, loose);
      hide Between, PathTo;
      var child :| 0 <= child < |n.entries|;
      var next := ReadNode(n.entries[child].id);
      PathPush(par, rootID, path, n.identifier, next.identifier);
      r, path' := ChooseSubtree(next, level, path + [n.identifier], orphans, loose);
    }

    lemma DescendFacts(n: Node, path: seq<Id>, orphans: set<Id>, loose: set<Id>)
      requires Between(pages, par, orphans, {}, loose) && Written(n, path) && n.level > 0
      ensures n.identifier !in orphans && n.entries != []
      ensures forall i :: 0 <= i < |n.entries| ==>
        var c := n.entries[i].id;
        c in pages && c in par && par[c] == n.identifier && pages[c].level + 1 == n.level
    {
      PathAbove(P, pages, par, rootID, orphans, {}, loose, path, n.identifier);
      Inspect(P, pages, par, rootID, orphans, {}, loose, n.identifier);
      forall i | 0 <= i < |n.entries|
        ensures
          var c := n.entries[i].id;
          c in pages && c in par && par[c] == n.identifier && pages[c].level + 1 == n.level {
        assert n.entries[i].id in Kids(pages[n.identifier]);
      }
    }

    /** The split branch below the root: `n` keeps one half on its page, the other half gets a new
        page, which nothing points to yet. */
    method SplitInner(n: Node, e: Entry, path: seq<Id>, ghost orphans: set<Id>, ghost stale: set<Id>, ghost loose: set<Id>)
      returns (left: Node, right: Node)
      requires Ready(n, e, path, orphans, stale, loose)
      requires |n.entries| == P.Capacity(n.level) && path != []
      modifies this`pages, this`par, this`nodes, this`nodesInLevel, this`levels
      ensures fresh(left) && fresh(right)
      ensures left.identifier == n.identifier && left.level == n.level && Written(left, path)
      ensures right.identifier !in orphans && right.identifier != rootID && right.level == n.level
      ensures right.identifier in pages && pages[right.identifier] == right.Rec() && right.entries != []
      ensures Between(pages, par, orphans - Piece(n.level, e) + {right.identifier}, {n.identifier}, loose)
      ensures Grown(old(With(n)), pages, rootID, orphans - Piece(n.level, e), Gain(n.level, e))
    {
      hide Between, PageOk, PathTo, Ready, Grown, Divided, Insertable, Cover;
      ReadyFacts(n, e, path, orphans, stale, loose);
      ghost var before := With(n);
      left, right := n.Split(e);
      left.identifier := n.identifier;
      WriteSplit(left, right, before, e, path, orphans, stale, loose);
    }

    method WriteSplit(left: Node, right: Node, ghost before: map<Id, Page>, ghost e: Entry, ghost path: seq<Id>,
                      ghost orphans: set<Id>, ghost stale: set<Id>, ghost loose: set<Id>)
      requires left != right && left.P == P && right.P == P && left.identifier in before && right.identifier == -1
      requires pages.Keys == before.Keys && before == pages[left.identifier := before[left.identifier]]
      requires Between(before, par, orphans, stale, loose)
      requires left.identifier !in orphans && stale <= {left.identifier} - {rootID} && left.identifier != rootID
      requires PathTo(par, rootID, path, left.identifier) && left.identifier >= 0 && (path != [] ==> path[|path|-1] in pages)
      requires left.level == right.level == before[left.identifier].level < |levels|
      requires Insertable(P, before, orphans, left.level, e)
      requires Divided(before[left.identifier], e, left.entries, right.entries)
      requires 2 <= |left.entries| <= P.Capacity(left.level) && 2 <= |right.entries| <= P.Capacity(left.level)
      requires Boxes(left.entries, P.dim) && left.Rec() == Packed(left.level, left.entries, P.dim)
      requires Boxes(right.entries, P.dim) && right.Rec() == Packed(left.level, right.entries, P.dim)
      modifies this`pages, this`par, this`nodes, this`nodesInLevel, this`levels, right`identifier
      ensures Written(left, path)
      ensures right.identifier !in before && right.identifier in pages && pages[right.identifier] == right.Rec()
      ensures Between(pages, par, orphans - Piece(left.level, e) + {right.identifier}, {left.identifier}, loose)
      ensures Grown(before, pages, rootID, orphans - Piece(left.level, e), Gain(left.level, e))
    {
      hide BetweenAt, Grown, Divided, Insertable, PathTo, Counters, Raised;
      CountersBumped(Lag(), levels, left.level, 1);
      WriteNode(left);
      WriteNewNode(right);
      ghost var par' := SplitTree(before, orphans, stale, loose, left.identifier, e, path, left.entries, right.entries,
                                  right.identifier, old(nodes), old(levels));
      par := par';
      assert pages == before[left.identifier := Packed(left.level, left.entries, P.dim)]
                            [right.identifier := Packed(left.level, right.entries, P.dim)];
    }

    lemma SplitTree(now: map<Id, Page>, orphans: set<Id>, stale: set<Id>, loose: set<Id>, p: Id, e: Entry, path: seq<Id>,
                    left: seq<Entry>, right: seq<Entry>, q: Id, nodes: int, inLevel: seq<int>)
      returns (par': map<Id, Id>)
      requires BetweenAt(P, now, par, rootID, orphans, stale, loose, nodes, inLevel, treeHeight)
      requires p in now && p !in orphans && stale <= {p} - {rootID} && p != rootID && q !in now && q >= 0
      requires PathTo(par, rootID, path, p) && Insertable(P, now, orphans, now[p].level, e)
      requires Divided(now[p], e, left, right)
      requires 2 <= |left| <= P.Capacity(now[p].level) && 2 <= |right| <= P.Capacity(now[p].level)
      ensures Boxes(left, P.dim) && Boxes(right, P.dim) && now[p].level < |inLevel|
      ensures
        var level := now[p].level;
        var now' := now[p := Packed(level, left, P.dim)][q := Packed(level, right, P.dim)];
        var base := orphans - Piece(level, e);
        && BetweenAt(P, now', par', rootID, base + {q}, {p}, loose, nodes + 1, inLevel[level := inLevel[level] + 1], treeHeight)
        && Grown(now, now', rootID, base, Gain(level, e))
        && PathTo(par', rootID, path, p)
    {
      hide *;
      var level := now[p].level;
      SplitFacts(now, orphans, stale, loose, p, e, path, nodes, inLevel);
      var now';
      now', par' := SplitNode(P, now, par, rootID, orphans, stale, loose, p, e, left, right, q);
      PackedFacts(level, left, P.dim);
      PackedFacts(level, right, P.dim);
      PathFrame(par, par', rootID, path, p);
      SplitStatistics(now, p, now'[p], q, now'[q], rootID, orphans - Piece(level, e), Gain(level, e), nodes, inLevel, treeHeight);
      assert now' == now[p := now'[p]][q := now'[q]];
      AssembleAt(P, now', par', rootID, orphans - Piece(level, e) + {q}, {p}, loose, nodes + 1, inLevel[level := inLevel[level] + 1], treeHeight);
    }

    lemma SplitFacts(now: map<Id, Page>, orphans: set<Id>, stale: set<Id>, loose: set<Id>, p: Id, e: Entry, path: seq<Id>,
                     nodes: int, inLevel: seq<int>)
      requires BetweenAt(P, now, par, rootID, orphans, stale, loose, nodes, inLevel, treeHeight)
      requires p in now && PathTo(par, rootID, path, p) && p != rootID && Insertable(P, now, orphans, now[p].level, e)
      ensures
        var level := now[p].level;
        && (forall c :: c in Kids(now[p]) ==> c in now && now[c].level < level)
        && (forall c :: c in path ==> c in now && c !in orphans && now[c].level > level)
        && Solid(now, orphans, loose) && {p} - {rootID} == {p}
        && UnderRoot(now, rootID) && level < |inLevel| && P.Sane()
        && Tree(P, now, par, rootID, orphans, stale, loose) && StatisticsOf(now, rootID, nodes, inLevel, treeHeight)
        && Grove(P, now, par, rootID, orphans, stale, loose)
    {
      PathAbove(P, now, par, rootID, orphans, stale, loose, path, p);
      Inspect(P, now, par, rootID, orphans, stale, loose, p);
    }

    /** The split branch at the root: both halves get new pages and the root page, which keeps its
        number, becomes an index node above them. */
    method GrowRoot(n: Node, e: Entry, ghost orphans: set<Id>, ghost stale: set<Id>, ghost loose: set<Id>)
      requires Ready(n, e, [], orphans, stale, loose) && |n.entries| == P.Capacity(n.level)
      modifies this`pages, this`par, this`nodes, this`nodesInLevel, this`levels, this`treeHeight
      ensures Between(pages, par, orphans - Piece(n.level, e), {}, loose)
      ensures Grown(old(With(n)), pages, rootID, orphans - Piece(n.level, e), Gain(n.level, e))
    {
      ReadyFacts(n, e, [], orphans, stale, loose);
      ghost var before := With(n);
      hide Between, PageOk, PathTo, Ready, Grown, Divided, Insertable;
      assert stale == {};
      var left, right := n.Split(e);
      WriteRoot(left, right, before, e, orphans, loose);
    }

    /** The index node above the two halves of the old root. */
    method MakeRoot(left: Node, right: Node) returns (ptrR: Node)
      requires IsBox(left.mbr, P.dim) && IsBox(right.mbr, P.dim) && P.Capacity(left.level + 1) >= 2
      ensures fresh(ptrR) && ptrR.identifier == rootID
      ensures ptrR.Rec() == NewRoot(P, left.Rec(), left.identifier, right.Rec(), right.identifier)
    {
      ptrR := new Node(P, left.level + 1, rootID);
      ptrR.InsertEntry(Entry(left.mbr, left.identifier, []));
      ptrR.InsertEntry(Entry(right.mbr, right.identifier, []));
      NewRootPage(P, left.Rec(), left.identifier, right.Rec(), right.identifier);
    }

    method WriteRoot(left: Node, right: Node, ghost before: map<Id, Page>, ghost e: Entry, ghost orphans: set<Id>, ghost loose: set<Id>)
      requires left != right && left.P == P && right.P == P && left.identifier == -1 && right.identifier == -1
      requires pages.Keys == before.Keys && rootID in before && (forall q :: q in before && q != rootID ==> pages[q] == before[q])
      requires Between(before, par, orphans, {}, loose) && rootID !in orphans && rootID >= 0
      requires left.level == right.level == before[rootID].level
      requires Insertable(P, before, orphans, left.level, e)
      requires Divided(before[rootID], e, left.entries, right.entries)
      requires 2 <= |left.entries| <= P.Capacity(left.level) && 2 <= |right.entries| <= P.Capacity(left.level)
      requires Boxes(left.entries, P.dim) && left.Rec() == Packed(left.level, left.entries, P.dim)
      requires Boxes(right.entries, P.dim) && right.Rec() == Packed(left.level, right.entries, P.dim)
      modifies this`pages, this`par, this`nodes, this`nodesInLevel, this`levels, this`treeHeight, left`identifier, right`identifier
      ensures Between(pages, par, orphans - Piece(left.level, e), {}, loose)
      ensures Grown(before, pages, rootID, orphans - Piece(left.level, e), Gain(left.level, e))
    {
      hide BetweenAt, Follows, Grown, Divided, Insertable, Boxes, NewRoot, Cover;
      BetweenParts(before, orphans, {}, loose);
      GrowFacts(before, orphans, loose);
      PutRoot(left, right);
      assert pages == before[left.identifier := left.Rec()][right.identifier := right.Rec()][rootID := pages[rootID]];
      ghost var par' := GrowTree(P, before, par, rootID, orphans, loose, e, left.entries, right.entries,
                                 left.identifier, right.identifier, old(nodes), old(levels), old(treeHeight));
      par := par';
    }

    /** Writes both halves to new pages and the new root over the old one, and sets the statistics. */
    method PutRoot(left: Node, right: Node)
      requires left != right && left.identifier < 0 && right.identifier < 0 && left.level == right.level
      requires IsBox(left.mbr, P.dim) && IsBox(right.mbr, P.dim) && P.Capacity(left.level + 1) >= 2
      requires |levels| == treeHeight == left.level + 1 && Follows() && rootID in pages && rootID >= 0
      modifies this`pages, this`nodes, this`nodesInLevel, this`levels, this`treeHeight, left`identifier, right`identifier
      ensures left.identifier != right.identifier && left.identifier !in old(pages) && right.identifier !in old(pages)
      ensures left.identifier >= 0 && right.identifier >= 0
      ensures pages == old(pages)[left.identifier := left.Rec()][right.identifier := right.Rec()]
                       [rootID := NewRoot(P, left.Rec(), left.identifier, right.Rec(), right.identifier)]
      ensures nodes == old(nodes) + 2 && treeHeight == left.level + 2
      ensures levels == old(levels)[left.level := 2] + [1] && Follows()
    {
      hide NewRoot, Cover, Counters, Raised, Follows, Bumped;
      ghost var lag := Lag();
      FollowsFacts(left.level);
      PutHalves(left, right);
      var ptrR := MakeRoot(left, right);
      WriteNode(ptrR);
      nodesInLevel := nodesInLevel[left.level := 2];
      nodesInLevel := nodesInLevel + [1];
      levels := levels[left.level := 2] + [1];
      treeHeight := left.level + 2;
      FollowsRaised(old(levels), lag);
    }

    /** Both halves get pages and are counted. */
    method PutHalves(left: Node, right: Node)
      requires left != right && left.identifier < 0 && right.identifier < 0 && left.level == right.level
      requires left.level < |levels| <= |nodesInLevel|
      modifies this`pages, this`nodes, this`nodesInLevel, this`levels, left`identifier, right`identifier
      ensures left.identifier != right.identifier && left.identifier !in old(pages) && right.identifier !in old(pages)
      ensures left.identifier >= 0 && right.identifier >= 0
      ensures pages == old(pages)[left.identifier := left.Rec()][right.identifier := right.Rec()]
      ensures nodes == old(nodes) + 2 && |levels| == old(|levels|) && |nodesInLevel| == old(|nodesInLevel|)
      ensures forall l :: 0 <= l < |levels| && l != left.level ==> levels[l] == old(levels)[l]
      ensures forall l :: 0 <= l < |nodesInLevel| && l != left.level ==> nodesInLevel[l] == old(nodesInLevel)[l]
    {
      WriteNewNode(left);
      WriteNewNode(right);
    }

    lemma FollowsFacts(top: nat)
      requires Follows() && |levels| == treeHeight == top + 1
      ensures |levels| <= |nodesInLevel| && nodesInLevel == Counters(Lag(), levels)
      ensures markHeight <= treeHeight && Lag() == Raised(mark, treeHeight - markHeight)
    {
      CountersRaised(Lag(), levels);
    }

    lemma FollowsRaised(was: seq<int>, lag: Lag)
      requires was != [] && markHeight < treeHeight && lag == Raised(mark, treeHeight - 1 - markHeight)
      requires levels == was[|was|-1 := 2] + [1] && |was| <= |Counters(lag, was)|
      requires nodesInLevel == Counters(lag, was)[|was|-1 := 2] + [1]
      ensures Follows()
    {
      CountersRaised(lag, was);
    }

    lemma GrowFacts(now: map<Id, Page>, orphans: set<Id>, loose: set<Id>)
      requires Between(now, par, orphans, {}, loose)
      ensures P.Sane() && P.Capacity(now[rootID].level + 1) >= 2 && |levels| == now[rootID].level + 1 == treeHeight && Follows()
    {
    }

    /** `insertData` of a node: room, forced reinsertion or split. Whether the caller still has to
        adjust the boxes above is returned. */
    method InsertData(n: Node, e: Entry, path: seq<Id>, ov: array<bool>,
                      ghost orphans: set<Id>, ghost stale: set<Id>, ghost loose: set<Id>)
      returns (adjusted: bool)
      requires Ready(n, e, path, orphans, stale, loose)
      modifies this`pages, this`par, this`nodes, this`nodesInLevel, this`levels, this`treeHeight, this`reinsertions, n`entries, n`mbr, ov
      decreases Unmarked(ov[..]), 0, |path|, 1
      ensures Between(pages, par, orphans - Piece(n.level, e), if adjusted then {} else stale, loose)
      ensures Grown(old(With(n)), pages, rootID, orphans - Piece(n.level, e), Gain(n.level, e))
      ensures !adjusted ==> Written(n, path)
      ensures Logged(old(ov[..]), ov[..], old(reinsertions), reinsertions)
      ensures old(IsBox(n.mbr, P.dim)) && IsBox(e.mbr, P.dim)
      ensures path == [] && old(|n.entries|) < P.Capacity(n.level) ==> pages == old(pages)[n.identifier := Extended(old(n.Rec()), e)]
      ensures old(|n.entries|) < P.Capacity(n.level) ==> reinsertions == old(reinsertions) && ov[..] == old(ov[..])
      ensures old(|n.entries|) == P.Capacity(n.level) && P.variant == RStar && path != [] && n.level < ov.Length && !old(ov[n.level]) ==>
        Started(n.level, old(reinsertions), reinsertions, ov[..])
    {
      hide Between, Ready, Grown, Written, Started;
      assert |n.entries| <= P.Capacity(n.level) && IsBox(n.mbr, P.dim) && IsBox(e.mbr, P.dim) by {
        ReadyFacts(n, e, path, orphans, stale, loose);
      }
      if |n.entries| < P.Capacity(n.level) {
        adjusted := InsertRoom(n, e, path, orphans, stale, loose);
        assert Logged(old(ov[..]), ov[..], old(reinsertions), reinsertions);
      } else if P.variant == RStar && path != [] && n.level < ov.Length && !ov[n.level] {
        InsertReinsert(n, e, path, ov, orphans, stale, loose);
        adjusted := true;
      } else {
        if path == [] {
          GrowRoot(n, e, orphans, stale, loose);
          assert Logged(old(ov[..]), ov[..], old(reinsertions), reinsertions);
        } else {
          InsertSplit(n, e, path, ov, orphans, stale, loose);
        }
        adjusted := true;
      }
    }

    /** The forced reinsertion branch: the level is marked, the node is cut, the path above is
        adjusted, and only then what was taken out is inserted again from the root. */
    method InsertReinsert(n: Node, e: Entry, path: seq<Id>, ov: array<bool>,
                          ghost orphans: set<Id>, ghost stale: set<Id>, ghost loose: set<Id>)
      requires Ready(n, e, path, orphans, stale, loose) && |n.entries| == P.Capacity(n.level)
      requires P.variant == RStar && path != [] && n.level < ov.Length && !ov[n.level]
      modifies this`pages, this`par, this`nodes, this`nodesInLevel, this`levels, this`treeHeight, this`reinsertions, n`entries, n`mbr, ov
      decreases Unmarked(ov[..]), 0, |path|, 0
      ensures Started(n.level, old(reinsertions), reinsertions, ov[..])
      ensures Between(pages, par, orphans - Piece(n.level, e), {}, loose)
      ensures Grown(old(With(n)), pages, rootID, orphans - Piece(n.level, e), Gain(n.level, e))
      ensures Logged(old(ov[..]), ov[..], old(reinsertions), reinsertions)
    {
      hide *;
      ghost var before, marks, log := With(n), ov[..], reinsertions;
      ghost var base := orphans - Piece(n.level, e);
      var out;
      ghost var mid;
      out, mid := ReinsertCut(n, e, path, orphans, stale, loose);
      ov[n.level] := true;
      reinsertions := reinsertions + [n.level];
      assert ov[..] == marks[n.level := true];
      LoggedMark(marks, n.level, log);
      ghost var marks1, log1 := ov[..], reinsertions;
      ReinsertAll(out, n.level, ov, base, loose);
      StartedMade(n.level, marks1, ov[..], log, reinsertions);
      LoggedTransitive(marks, marks1, ov[..], log, log1, reinsertions);
      GrownRepaid(before, mid, pages, rootID, base, Gain(n.level, e), Loads(n.level, out));
    }

    /** Forced reinsertion up to the point where the boxes above are right again. */
    method ReinsertCut(n: Node, e: Entry, path: seq<Id>, ghost orphans: set<Id>, ghost stale: set<Id>, ghost loose: set<Id>)
      returns (out: seq<Entry>, ghost mid: map<Id, Page>)
      requires Ready(n, e, path, orphans, stale, loose) && |n.entries| == P.Capacity(n.level)
      requires P.variant == RStar && path != []
      modifies this`pages, this`par, n`entries, n`mbr
      ensures mid == pages
      ensures Between(pages, par, orphans - Piece(n.level, e) + Pieces(n.level, out), {}, loose)
      ensures Waiting(P, pages, orphans - Piece(n.level, e), n.level, out)
      ensures GrownBut(old(With(n)), pages, rootID, orphans - Piece(n.level, e), Gain(n.level, e), Loads(n.level, out))
      ensures rootID in pages && n.level <= pages[rootID].level
    {
      hide Between, Waiting, PathTo, Ready, GrownBut, OnlyBoxes, Pieces, Piece, Gain, Loads, Kids;
      ghost var before := With(n);
      ReinsertFacts(n, e, path, orphans, stale, loose);
      ghost var base := orphans - Piece(n.level, e);
      out := CutNode(n, e, path, orphans, stale, loose);
      ghost var cut := pages;
      PathStep(par, rootID, path, n.identifier);
      var ptrN := ReadNode(path[|path|-1]);
      AdjustTree(ptrN, n, path[..|path|-1], base + Pieces(n.level, out), {n.identifier}, loose);
      WaitingBoxes(P, cut, pages, base, n.level, out);
      GrownButBoxes(before, cut, pages, rootID, base, base + Pieces(n.level, out), Gain(n.level, e), Loads(n.level, out));
      mid := pages;
    }

    lemma ReinsertFacts(n: Node, e: Entry, path: seq<Id>, orphans: set<Id>, stale: set<Id>, loose: set<Id>)
      requires Ready(n, e, path, orphans, stale, loose) && path != []
      ensures rootID in With(n) && n.level <= With(n)[rootID].level && path[|path|-1] in pages
    {
      ReadyFacts(n, e, path, orphans, stale, loose);
    }

    /** The loop that inserts again, one by one, what an overflowing node gave back. */
    method ReinsertAll(out: seq<Entry>, level: nat, ov: array<bool>, ghost base: set<Id>, ghost loose: set<Id>)
      requires Between(pages, par, base + Pieces(level, out), {}, loose)
      requires Waiting(P, pages, base, level, out)
      requires rootID in pages && level <= pages[rootID].level
      modifies this`pages, this`par, this`nodes, this`nodesInLevel, this`levels, this`treeHeight, this`reinsertions, ov
      decreases Unmarked(ov[..]), 2, 0, 0
      ensures Between(pages, par, base, {}, loose)
      ensures Grown(old(pages), pages, rootID, base, Loads(level, out))
      ensures Logged(old(ov[..]), ov[..], old(reinsertions), reinsertions)
    {
      ghost var before, marks, log := pages, ov[..], reinsertions;
      WaitingStart(before, rootID, base, level, out, marks, log);
      hide Between, Grown, Waiting, Logged, Pieces, Loads;
      for cIndex := 0 to |out|
        invariant rootID in pages && level <= pages[rootID].level
        invariant Between(pages, par, base + Pieces(level, out[cIndex..]), {}, loose)
        invariant Waiting(P, pages, base, level, out[cIndex..])
        invariant GrownBut(before, pages, rootID, base, Loads(level, out), Loads(level, out[cIndex..]))
        invariant Logged(marks, ov[..], log, reinsertions)
        invariant Unmarked(ov[..]) <= Unmarked(marks)
      {
        ghost var es, was, marks1, log1 := out[cIndex..], pages, ov[..], reinsertions;
        assert es[0] == out[cIndex] && es[1..] == out[cIndex+1..];
        WaitingHead(P, pages, base, level, es);
        InsertAt(out[cIndex], level, ov, base + Pieces(level, es), loose);
        ReinsertStep(P, before, was, pages, rootID, base, level, es, Loads(level, out));
        LoggedTransitive(marks, marks1, ov[..], log, log1, reinsertions);
        LoggedFewer(marks, ov[..], log, reinsertions);
      }
      WaitingEnd(before, pages, rootID, base, level, out, out[|out|..]);
    }

    /** Insertion of an entry at a given level, from the root (`insertData_impl`). */
    method InsertAt(e: Entry, level: nat, ov: array<bool>, ghost orphans: set<Id>, ghost loose: set<Id>)
      requires Between(pages, par, orphans, {}, loose) && Insertable(P, pages, orphans, level, e)
      requires rootID in pages && level <= pages[rootID].level
      modifies this`pages, this`par, this`nodes, this`nodesInLevel, this`levels, this`treeHeight, this`reinsertions, ov
      decreases Unmarked(ov[..]), 1, 0, 0
      ensures Between(pages, par, orphans - Piece(level, e), {}, loose)
      ensures Grown(old(pages), pages, rootID, orphans - Piece(level, e), Gain(level, e))
      ensures Logged(old(ov[..]), ov[..], old(reinsertions), reinsertions)
      ensures IsBox(old(pages)[rootID].mbr, P.dim) && IsBox(e.mbr, P.dim)
      ensures Roomy(P, old(pages)[rootID], level) ==> pages == old(pages)[rootID := Extended(old(pages)[rootID], e)]
    {
      ghost var before := pages;
      hide *;
      RootBox(orphans, loose, level, e);
      var root := ReadNode(rootID);
      RootWritten(root);
      var n, path := ChooseSubtree(root, level, [], orphans, loose);
      ReadyHere(n, e, path, orphans, loose);
      RoomFacts(n, P, old(pages)[rootID], level);
      var adjusted := InsertData(n, e, path, ov, orphans, {}, loose);
    }

    lemma RootWritten(root: Node)
      requires root.P == P && root.identifier == rootID && rootID in pages && root.Rec() == pages[rootID]
      ensures Written(root, []) && root.level == pages[rootID].level
    {
    }

    lemma ReadyHere(n: Node, e: Entry, path: seq<Id>, orphans: set<Id>, loose: set<Id>)
      requires Between(pages, par, orphans, {}, loose) && Written(n, path) && Insertable(P, pages, orphans, n.level, e)
      ensures With(n) == pages && Ready(n, e, path, orphans, {}, loose)
    {
      BetweenParts(pages, orphans, {}, loose);
      PathAbove(P, pages, par, rootID, orphans, {}, loose, path, n.identifier);
      assert With(n) == pages;
    }

    lemma RoomFacts(n: Node, P: Params, page: Page, level: nat)
      ensures Roomy(P, page, level) && n.Rec() == page ==> n.level == level && |n.entries| < P.Capacity(level)
      ensures Roomy(P, page, level) ==> page.level == level
    {
    }

    lemma RootBox(orphans: set<Id>, loose: set<Id>, level: nat, e: Entry)
      requires Between(pages, par, orphans, {}, loose) && Insertable(P, pages, orphans, level, e)
      ensures rootID in pages && IsBox(pages[rootID].mbr, P.dim) && IsBox(e.mbr, P.dim)
    {
    }

    /** The split branch below the root: the halves replace `n`, and the parent takes the new one. */
    method InsertSplit(n: Node, e: Entry, path: seq<Id>, ov: array<bool>,
                       ghost orphans: set<Id>, ghost stale: set<Id>, ghost loose: set<Id>)
      requires Ready(n, e, path, orphans, stale, loose) && |n.entries| == P.Capacity(n.level) && path != []
      modifies this`pages, this`par, this`nodes, this`nodesInLevel, this`levels, this`treeHeight, this`reinsertions, ov
      decreases Unmarked(ov[..]), 0, |path|, 0
      ensures Between(pages, par, orphans - Piece(n.level, e), {}, loose)
      ensures Grown(old(With(n)), pages, rootID, orphans - Piece(n.level, e), Gain(n.level, e))
      ensures Logged(old(ov[..]), ov[..], old(reinsertions), reinsertions)
    {
      hide Between, Tree, PageOk, Insertable, Grown, Ready, PathTo, Logged, Gain;
      ghost var before, base := With(n), orphans - Piece(n.level, e);
      assert path[|path|-1] in pages by {
        ReadyFacts(n, e, path, orphans, stale, loose);
      }
      var left, right := SplitInner(n, e, path, orphans, stale, loose);
      ghost var mid := pages;
      PathStep(par, rootID, path, left.identifier);
      var ptrN := ReadNode(path[|path|-1]);
      AdjustTreeSplit(ptrN, left, right, path[..|path|-1], ov, base, loose);
      GrownTransitive(before, mid, pages, rootID, base, base, Gain(n.level, e), multiset{});
    }

    /** `adjustTree` for two nodes: index node `p` takes over the new box of `n1` and a new entry for
        its twin `n2`; if that neither split nor reinserted, a changed box still travels up. */
    method AdjustTreeSplit(p: Node, n1: Node, n2: Node, path: seq<Id>, ov: array<bool>, ghost orphans: set<Id>, ghost loose: set<Id>)
      requires Between(pages, par, orphans + {n2.identifier}, {n1.identifier}, loose)
      requires n2.identifier !in orphans && n2.entries != []
      requires Loaded(p) && p.Rec() == pages[p.identifier] && p != n1 && p != n2
      requires n1.identifier in pages && n1.mbr == pages[n1.identifier].mbr
      requires n1.identifier in par && par[n1.identifier] == p.identifier
      requires n2.identifier in pages && n2.Rec() == pages[n2.identifier] && n2.level == pages[n1.identifier].level
      requires PathTo(par, rootID, path, p.identifier)
      modifies this`pages, this`par, this`nodes, this`nodesInLevel, this`levels, this`treeHeight, this`reinsertions, p`entries, p`mbr, ov
      decreases Unmarked(ov[..]), 0, |path|, 3
      ensures Between(pages, par, orphans, {}, loose)
      ensures Grown(old(pages), pages, rootID, orphans, multiset{})
      ensures Logged(old(ov[..]), ov[..], old(reinsertions), reinsertions)
    {
      ghost var before := pages;
      hide Between, PathTo, Grown, Logged;
      var adjusted, bRecompute;
      ghost var stale';
      adjusted, bRecompute, stale' := TakeTwin(p, n1, n2, path, ov, orphans, loose);
      if !adjusted && bRecompute && path != [] {
        ghost var last := pages;
        PathStep(par, rootID, path, p.identifier);
        var ptrN := ReadNode(path[|path|-1]);
        AdjustTree(ptrN, p, path[..|path|-1], orphans, stale', loose);
        GrownBoxes(before, last, pages, rootID, orphans, multiset{});
      }
    }

    /** The changes to `p` itself: the box of `n1`, and the entry for `n2`. */
    method TakeTwin(p: Node, n1: Node, n2: Node, path: seq<Id>, ov: array<bool>, ghost orphans: set<Id>, ghost loose: set<Id>)
      returns (adjusted: bool, bRecompute: bool, ghost stale': set<Id>)
      requires Between(pages, par, orphans + {n2.identifier}, {n1.identifier}, loose)
      requires n2.identifier !in orphans && n2.entries != []
      requires Loaded(p) && p.Rec() == pages[p.identifier] && p != n1 && p != n2
      requires n1.identifier in pages && n1.mbr == pages[n1.identifier].mbr
      requires n1.identifier in par && par[n1.identifier] == p.identifier
      requires n2.identifier in pages && n2.Rec() == pages[n2.identifier] && n2.level == pages[n1.identifier].level
      requires PathTo(par, rootID, path, p.identifier)
      modifies this`pages, this`par, this`nodes, this`nodesInLevel, this`levels, this`treeHeight, this`reinsertions, p`entries, p`mbr, ov
      decreases Unmarked(ov[..]), 0, |path|, 2
      ensures stale' <= {p.identifier} && (!bRecompute || path == [] ==> stale' == {})
      ensures Between(pages, par, orphans, if adjusted then {} else stale', loose)
      ensures Grown(old(pages), pages, rootID, orphans, multiset{})
      ensures !adjusted ==> Written(p, path)
      ensures Logged(old(ov[..]), ov[..], old(reinsertions), reinsertions)
    {
      hide Between, Tree, PageOk, Kids, OnlyBoxes, PathTo, Grown, Logged, Insertable;
      ghost var before, all := pages, orphans + {n2.identifier};
      AdjustFacts(pages, all, {n1.identifier}, loose, p.identifier, n1.identifier, path);
      PageFacts(pages, all, {n1.identifier}, loose, n2.identifier);
      bRecompute, stale' := TakeBox(p, n1, all, {n1.identifier}, loose);
      ghost var mid := With(p);
      var e := Entry(n2.mbr, n2.identifier, []);
      TwinInsertable(P, before, mid, orphans, p.level, e);
      adjusted := InsertData(p, e, path, ov, all, stale', loose);
      GrownAfterBoxes(before, mid, pages, rootID, all, orphans);
    }

    lemma PageFacts(now: map<Id, Page>, orphans: set<Id>, stale: set<Id>, loose: set<Id>, q: Id)
      requires Between(now, par, orphans, stale, loose) && q in now
      ensures PageOk(P, now[q]) && rootID in now
    {
    }

    lemma AssembleBetween(now: map<Id, Page>, par: map<Id, Id>, orphans: set<Id>, stale: set<Id>, loose: set<Id>)
      requires P.Sane() && Solid(now, orphans, loose) && Follows()
      requires Tree(P, now, par, rootID, orphans, stale, loose) && Statistics(now)
      ensures Between(now, par, orphans, stale, loose)
    {
    }

    /** Node `n` agrees with its page and `path` still leads to it. */
    ghost predicate Written(n: Node, path: seq<Id>)
      reads this, n
    {
      && Loaded(n) && n.Rec() == pages[n.identifier]
      && PathTo(par, rootID, path, n.identifier) && (path != [] ==> path[|path|-1] in pages)
    }

    /** Whatever allowance below the root a tree has, it needs one for its thin pages only, and it has
        one for all pages there. */
    lemma AnyLoose(now: map<Id, Page>, loose: set<Id>)
      requires Between(now, par, {}, {}, loose) && rootID !in loose
      ensures Between(now, par, {}, {}, now.Keys - {rootID}) && Between(now, par, {}, {}, Thin(now, rootID)) && Thin(now, rootID) <= loose
    {
      hide Follows, Forest;
      forall p | p in now && p != rootID ensures now[p].entries != [] && (|now[p].entries| >= 2 || p in loose) {
        assert p in loose || |now[p].entries| >= 2;
      }
    }

    lemma ValidFull()
      requires Valid()
      ensures Full()
    {
    }

    lemma FullRagged()
      requires Full()
      ensures Ragged() && Working()
    {
      hide Between, Data;
      AnyLoose(pages, {});
    }

    lemma RaggedWorking()
      requires Ragged()
      ensures Working()
    {
    }

    /** Inserts one entry: refused when the box has the wrong number of dimensions, otherwise stored
        from the root down with a table that marks no level of the current tree; a level that appears
        while the insertion runs lies outside the table. Every new root moves the lag of the level
        counters on. */
    method Insert(data: seq<bv8>, mbr: Region, id: Id) returns (ok: bool)
      requires Working() && |mbr.low| == |mbr.high|
      modifies this
      ensures Working() && (old(Ragged()) ==> Ragged()) && (old(Full()) ==> Full()) && (old(Valid()) ==> Valid())
      ensures treeHeight >= old(treeHeight) && Lag() == Raised(old(Lag()), treeHeight - old(treeHeight))
      ensures ok <==> |mbr.low| == P.dim
      ensures Data(pages) == if ok then old(Data(pages)) + multiset{Entry(mbr, id, data)} else old(Data(pages))
      ensures rootID == old(rootID) && (!ok ==> pages == old(pages))
      ensures old(reinsertions) <= reinsertions && NoDuplicates(reinsertions[|old(reinsertions)|..])
      ensures rootID in old(pages) && (ok ==> IsBox(old(pages)[rootID].mbr, P.dim) && IsBox(mbr, P.dim))
      ensures ok && Roomy(P, old(pages)[rootID], 0) ==> pages == old(pages)[rootID := Extended(old(pages)[rootID], Entry(mbr, id, data))]
      ensures forall l :: l in reinsertions[|old(reinsertions)|..] ==> l < old(pages[rootID].level)
    {
      hide *;
      ghost var loose := Thin(pages, rootID);
      InsertFacts(loose);
      if |mbr.low| != P.dim {
        return false;
      }
      ghost var before, height, lag := pages, treeHeight, Lag();
      var e := Entry(mbr, id, data);
      DataInsertable(P, pages, e);
      var root := ReadNode(rootID);
      RecLevel(root);
      var overflowTable := new bool[root.level](_ => false);
      ghost var marks := overflowTable[..];
      mark, markHeight := lag, height;
      Marked(loose, lag);
      InsertAt(e, 0, overflowTable, {}, loose);
      dataCount := dataCount + 1;
      ok := true;
      GrownOne(before, pages, rootID, e);
      LoggedBelow(marks, overflowTable[..], old(reinsertions), reinsertions);
      InsertDone(before, loose, height, lag);
    }

    /** No leaf page holds more entries than the capacity of leaves, and no index page more than that of
        index nodes; only the root may be empty. */
    lemma WithinCapacity()
      requires Working()
      ensures forall p :: p in pages ==> |pages[p].entries| <= if pages[p].level == 0 then P.leafCapacity else P.indexCapacity
      ensures forall p :: p in pages && p != rootID ==> pages[p].entries != []
    {
      hide Bounds, Data, RTree.Follows, Counted;
      forall p | p in pages ensures |pages[p].entries| <= if pages[p].level == 0 then P.leafCapacity else P.indexCapacity {
        assert PageOk(P, pages[p]);
      }
    }

    lemma InsertFacts(loose: set<Id>)
      requires Working() && loose == Thin(pages, rootID)
      ensures BetweenAt(P, pages, par, rootID, {}, {}, loose, nodes, levels, treeHeight) && nodesInLevel == Counters(Lag(), levels)
      ensures (Full() ==> loose == {}) && (Ragged() ==> Apart(pages, loose)) && loose <= pages.Keys - {rootID}
      ensures rootID in pages && dataCount == |Data(pages)| && Raised(Lag(), 0) == Lag()
      ensures Valid() ==> Full() && Lag() == InStep
      ensures reinsertions[|reinsertions|..] == [] && NoDuplicates<nat>([])
    {
      hide Forest, Data, Follows;
      assert nodesInLevel == Counters(Lag(), levels) by {
        hide *;
        CountersFollow();
      }
      AnyLoose(pages, pages.Keys - {rootID});
      if Full() {
        AnyLoose(pages, {});
      }
    }

    lemma CountersFollow()
      requires Working()
      ensures nodesInLevel == Counters(Lag(), levels)
    {
    }

    lemma Marked(loose: set<Id>, lag: Lag)
      requires BetweenAt(P, pages, par, rootID, {}, {}, loose, nodes, levels, treeHeight) && nodesInLevel == Counters(lag, levels)
      requires mark == lag && markHeight == treeHeight
      ensures Between(pages, par, {}, {}, loose) && rootID in pages && 0 <= pages[rootID].level
    {
    }

    lemma InsertDone(before: map<Id, Page>, loose: set<Id>, height: nat, lag: Lag)
      requires Between(pages, par, {}, {}, loose) && dataCount == |Data(pages)| && mark == lag && markHeight == height
      requires Levels(before, pages, rootID) && loose <= before.Keys - {rootID}
      ensures Working() && (Apart(before, loose) ==> Ragged()) && (loose == {} ==> Full()) && (loose == {} && lag == InStep ==> Valid())
      ensures height <= treeHeight && Lag() == Raised(lag, treeHeight - height)
    {
      AnyLoose(pages, loose);
      hide BetweenAt, Data;
      if Apart(before, loose) {
        ApartLater(before, pages, rootID, loose, Thin(pages, rootID));
      }
      RaisedInStep(treeHeight - height);
    }
  }

  lemma EmptyTree(P: Params, root: Id)
    requires P.Sane() && root >= 0
    ensures
      var pages := map[root := Page(0, Infinite(P.dim), [])];
      BetweenAt(P, pages, map[], root, {}, {}, {}, 1, [1], 1) && Data(pages) == multiset{}
  {
    var pages := map[root := Page(0, Infinite(P.dim), [])];
    assert pages.Keys == {root};
    GatherSplit(pages, pages.Keys, root);
    assert pages.Keys - {root} == {};
    assert AtLevel(pages, 0) == {root} by {
      forall p ensures p in AtLevel(pages, 0) <==> p in {root} {
      }
    }
    assert Linked(pages, map[], {root});
  }

  lemma PathStep(par: map<Id, Id>, root: Id, path: seq<Id>, id: Id)
    requires PathTo(par, root, path, id) && path != []
    ensures id in par && par[id] == path[|path|-1] && PathTo(par, root, path[..|path|-1], path[|path|-1])
  {
  }

  lemma AssembleAt(P: Params, now: map<Id, Page>, par: map<Id, Id>, root: Id, orphans: set<Id>, stale: set<Id>,
                   loose: set<Id>, nodes: int, inLevel: seq<int>, height: nat)
    requires P.Sane() && Solid(now, orphans, loose)
    requires Grove(P, now, par, root, orphans, stale, loose) && UnderRoot(now, root)
    requires StatisticsOf(now, root, nodes, inLevel, height)
    ensures BetweenAt(P, now, par, root, orphans, stale, loose, nodes, inLevel, height)
  {
  }

  /** Statistics and levels after page `p` was overwritten on its level and page `q` added to it. */
  lemma SplitStatistics(now: map<Id, Page>, p: Id, a: Page, q: Id, b: Page, root: Id, kept: set<Id>, gain: multiset<Entry>,
                        nodes: int, inLevel: seq<int>, height: nat)
    requires StatisticsOf(now, root, nodes, inLevel, height) && UnderRoot(now, root)
    requires p in now && p != root && q !in now && q >= 0 && p !in kept
    requires a.level == b.level == now[p].level
    requires Data(now[p := a][q := b]) == Data(now) + gain
    ensures a.level < |inLevel|
    ensures StatisticsOf(now[p := a][q := b], root, nodes + 1, inLevel[a.level := inLevel[a.level] + 1], height)
    ensures UnderRoot(now[p := a][q := b], root)
    ensures Grown(now, now[p := a][q := b], root, kept, gain)
  {
    CountUpdate(now, p, a, nodes, inLevel);
    CountAdd(now[p := a], q, b, nodes, inLevel);
  }

  /** Two insertions into an empty index node make the page of a grown root. */
  lemma NewRootPage(P: Params, left: Page, a: Id, right: Page, b: Id)
    requires IsBox(left.mbr, P.dim) && IsBox(right.mbr, P.dim)
    ensures
      var none := Packed(left.level + 1, [], P.dim);
      Extended(Extended(none, Entry(left.mbr, a, [])), Entry(right.mbr, b, [])) == NewRoot(P, left, a, right, b)
  {
    var one, two := Entry(left.mbr, a, []), Entry(right.mbr, b, []);
    CoverNext([], one, P.dim);
    CoverNext([one], two, P.dim);
    assert [] + [one] == [one] && [one] + [two] == [one, two];
  }

  /** The whole tree after its root was divided and raised by one level. */
  lemma GrowTree(P: Params, now: map<Id, Page>, par: map<Id, Id>, root: Id, orphans: set<Id>, loose: set<Id>, e: Entry,
                 left: seq<Entry>, right: seq<Entry>, a: Id, b: Id, nodes: int, inLevel: seq<int>, height: nat)
    returns (par': map<Id, Id>)
    requires BetweenAt(P, now, par, root, orphans, {}, loose, nodes, inLevel, height)
    requires a !in now && b !in now && a != b && a >= 0 && b >= 0 && root in now
    requires Insertable(P, now, orphans, now[root].level, e) && Divided(now[root], e, left, right)
    requires 2 <= |left| <= P.Capacity(now[root].level) && 2 <= |right| <= P.Capacity(now[root].level)
    ensures Boxes(left, P.dim) && Boxes(right, P.dim) && now[root].level < |inLevel|
    ensures
      var level := now[root].level;
      var l, r := Packed(level, left, P.dim), Packed(level, right, P.dim);
      var now' := now[a := l][b := r][root := NewRoot(P, l, a, r, b)];
      && BetweenAt(P, now', par', root, orphans - Piece(level, e), {}, loose, nodes + 2, inLevel[level := 2] + [1], level + 2)
      && Grown(now, now', root, orphans - Piece(level, e), Gain(level, e))
  {
    hide *;
    var level, base := now[root].level, orphans - Piece(now[root].level, e);
    GrowFacts(P, now, par, root, orphans, loose, e, b, nodes, inLevel, height);
    RaiseFacts(P, now, root, left, right, a, b);
    var now1, par1 := SplitNode(P, now, par, root, orphans, {}, loose, root, e, left, right, b);
    PackedFacts(level, left, P.dim);
    PackedFacts(level, right, P.dim);
    par' := RaiseRoot(P, now1, par1, root, base, loose, a, b);
    var l, r := Packed(level, left, P.dim), Packed(level, right, P.dim);
    var now' := now[a := l][b := r][root := NewRoot(P, l, a, r, b)];
    SolidAfter(P, now, now', orphans, base, loose, root, level, e);
    GrowStatistics(now, root, a, l, b, r, NewRoot(P, l, a, r, b), nodes, inLevel, height);
    GrowAssemble(P, now, now', par', root, base, loose, Gain(level, e), nodes + 2, inLevel[level := 2] + [1], level + 2);
  }

  lemma GrowFacts(P: Params, now: map<Id, Page>, par: map<Id, Id>, root: Id, orphans: set<Id>, loose: set<Id>, e: Entry,
                  b: Id, nodes: int, inLevel: seq<int>, height: nat)
    requires BetweenAt(P, now, par, root, orphans, {}, loose, nodes, inLevel, height) && root in now && b !in now
    requires Insertable(P, now, orphans, now[root].level, e)
    ensures
      var level, base := now[root].level, orphans - Piece(now[root].level, e);
      && Tree(P, now, par, root, orphans, {}, loose) && StatisticsOf(now, root, nodes, inLevel, height)
      && P.Sane() && UnderRoot(now, root) && Solid(now, orphans, loose) && level < |inLevel| && b !in base
      && Grove(P, now, par, root, orphans, {}, loose) && root !in orphans
      && (forall c :: c in Kids(now[root]) ==> c in now && now[c].level < level)
    ensures {root} - {root} == {}
  {
    Inspect(P, now, par, root, orphans, {}, loose, root);
  }

  lemma RaiseFacts(P: Params, now: map<Id, Page>, root: Id, left: seq<Entry>, right: seq<Entry>, a: Id, b: Id)
    requires UnderRoot(now, root) && a !in now && b !in now && a != b
    ensures
      Boxes(left, P.dim) && Boxes(right, P.dim) ==>
        var level := now[root].level;
        var l, r := Packed(level, left, P.dim), Packed(level, right, P.dim);
        var now1 := now[root := l][b := r];
        var top := NewRoot(P, l, a, r, b);
        var now' := now[a := l][b := r][root := top];
        && now1[root] == l && now1[b] == r && l.level == r.level == level && l.entries == left
        && (forall q :: q in now1 && q != root && q != b ==> now1[q].level < level)
        && now1[a := l][root := top] == now' && top.level == level + 1 && now'[root] == top && top.entries != []
        && (forall q :: q in now && q != root ==> q in now' && now'[q] == now[q])
  {
    hide Cover, Boxes;
  }

  lemma GrowAssemble(P: Params, now: map<Id, Page>, now': map<Id, Page>, par': map<Id, Id>, root: Id, base: set<Id>, loose: set<Id>,
                     gain: multiset<Entry>, nodes: int, inLevel: seq<int>, height: nat)
    requires P.Sane() && Solid(now', base, loose) && Tree(P, now', par', root, base, {}, loose)
    requires StatisticsOf(now', root, nodes, inLevel, height)
    requires Data(now') == Data(now) + gain && root in now && now[root].level <= now'[root].level
    requires forall q :: q in now && q != root ==> q in now' && now'[q] == now[q]
    ensures BetweenAt(P, now', par', root, base, {}, loose, nodes, inLevel, height)
    ensures Grown(now, now', root, base, gain)
  {
  }

  lemma GrowStatistics(now: map<Id, Page>, root: Id, a: Id, l: Page, b: Id, r: Page, top: Page,
                       nodes: int, inLevel: seq<int>, height: nat)
    requires StatisticsOf(now, root, nodes, inLevel, height) && UnderRoot(now, root)
    requires a !in now && b !in now && a != b && a >= 0 && b >= 0
    requires l.level == r.level == now[root].level && top.level == l.level + 1
    ensures StatisticsOf(now[a := l][b := r][root := top], root, nodes + 2, inLevel[l.level := 2] + [1], l.level + 2)
  {
    var now', level := now[a := l][b := r][root := top], l.level;
    assert now'.Keys == now.Keys + {a, b};
    forall k | 0 <= k < level + 2 ensures |AtLevel(now', k)| == (inLevel[level := 2] + [1])[k] {
      if k == level + 1 {
        forall q ensures q in AtLevel(now', k) <==> q in {root} {
        }
        assert AtLevel(now', k) == {root};
      } else if k == level {
        forall q ensures q in AtLevel(now', k) <==> q in {a, b} {
        }
        assert AtLevel(now', k) == {a, b};
      } else {
        assert AtLevel(now', k) == AtLevel(now, k);
      }
    }
  }

  lemma WaitingBoxes(P: Params, a: map<Id, Page>, b: map<Id, Page>, base: set<Id>, level: nat, es: seq<Entry>)
    requires Waiting(P, a, base, level, es) && OnlyBoxes(a, b, base + Pieces(level, es))
    ensures Waiting(P, b, base, level, es)
  {
    assert level > 0 ==> forall i :: 0 <= i < |es| ==> es[i].id in Pieces(level, es);
  }

  lemma GrownButBoxes(a: map<Id, Page>, b: map<Id, Page>, c: map<Id, Page>, root: Id, kept: set<Id>, more: set<Id>,
                      gain: multiset<Entry>, owed: multiset<Entry>)
    requires GrownBut(a, b, root, kept, gain, owed) && OnlyBoxes(b, c, more) && kept <= more
    ensures GrownBut(a, c, root, kept, gain, owed)
  {
    OnlyBoxesSame(b, c, more, 0, []);
  }

  lemma GrownRepaid(a: map<Id, Page>, b: map<Id, Page>, c: map<Id, Page>, root: Id, kept: set<Id>,
                    gain: multiset<Entry>, owed: multiset<Entry>)
    requires GrownBut(a, b, root, kept, gain, owed) && Grown(b, c, root, kept, owed)
    ensures Grown(a, c, root, kept, gain)
  {
  }

  lemma GrownAfterBoxes(a: map<Id, Page>, b: map<Id, Page>, c: map<Id, Page>, root: Id, all: set<Id>, kept: set<Id>)
    requires OnlyBoxes(a, b, all) && kept <= all && root in a
    requires Grown(b, c, root, kept, multiset{})
    ensures Grown(a, c, root, kept, multiset{})
  {
    OnlyBoxesSame(a, b, all, 0, []);
  }

  lemma WaitingStart(before: map<Id, Page>, root: Id, base: set<Id>, level: nat, out: seq<Entry>, marks: seq<bool>, log: seq<nat>)
    requires root in before
    ensures out[0..] == out && Logged(marks, marks, log, log)
    ensures GrownBut(before, before, root, base, Loads(level, out), Loads(level, out))
  {
  }

  lemma WaitingHead(P: Params, pages: map<Id, Page>, base: set<Id>, level: nat, es: seq<Entry>)
    requires Waiting(P, pages, base, level, es) && |es| > 0
    ensures Insertable(P, pages, base + Pieces(level, es), level, es[0])
  {
  }

  /** One entry of the waiting list went in. */
  lemma ReinsertStep(P: Params, before: map<Id, Page>, was: map<Id, Page>, now: map<Id, Page>, root: Id, base: set<Id>,
                     level: nat, es: seq<Entry>, total: multiset<Entry>)
    requires Waiting(P, was, base, level, es) && |es| > 0
    requires GrownBut(before, was, root, base, total, Loads(level, es))
    requires Grown(was, now, root, base + Pieces(level, es) - Piece(level, es[0]), Gain(level, es[0]))
    ensures base + Pieces(level, es) - Piece(level, es[0]) == base + Pieces(level, es[1..])
    ensures Waiting(P, now, base, level, es[1..])
    ensures GrownBut(before, now, root, base, total, Loads(level, es[1..]))
    ensures root in now && root in was && was[root].level <= now[root].level
  {
    WaitingApart(P, was, base, level, es);
    assert forall q :: q in base + Pieces(level, es) - Piece(level, es[0]) && q in was ==> q in now && now[q] == was[q];
    hide *;
    WaitingStep(P, was, now, base, level, es);
    GrownStep(before, was, now, root, base, base + Pieces(level, es) - Piece(level, es[0]), total,
              Gain(level, es[0]), Loads(level, es), Loads(level, es[1..]));
  }

  lemma GrownStep(a: map<Id, Page>, b: map<Id, Page>, c: map<Id, Page>, root: Id, kept: set<Id>, more: set<Id>,
                  total: multiset<Entry>, gain: multiset<Entry>, owed: multiset<Entry>, rest: multiset<Entry>)
    requires GrownBut(a, b, root, kept, total, owed) && Grown(b, c, root, more, gain)
    requires kept <= more && owed == gain + rest
    ensures GrownBut(a, c, root, kept, total, rest)
    ensures root in b && root in c && b[root].level <= c[root].level
  {
  }

  lemma WaitingApart(P: Params, pages: map<Id, Page>, base: set<Id>, level: nat, es: seq<Entry>)
    requires Waiting(P, pages, base, level, es) && |es| > 0
    ensures base <= base + Pieces(level, es) - Piece(level, es[0])
  {
    assert level > 0 ==> es[0].id in Pieces(level, es);
  }

  lemma WaitingEnd(before: map<Id, Page>, now: map<Id, Page>, root: Id, base: set<Id>, level: nat, out: seq<Entry>, none: seq<Entry>)
    requires none == [] && GrownBut(before, now, root, base, Loads(level, out), Loads(level, none))
    ensures base + Pieces(level, none) == base
    ensures Grown(before, now, root, base, Loads(level, out))
  {
  }

  lemma LoggedFewer(a: seq<bool>, b: seq<bool>, x: seq<nat>, y: seq<nat>)
    requires Logged(a, b, x, y)
    ensures Unmarked(b) <= Unmarked(a)
  {
    UnmarkedMonotone(a, b);
  }

  lemma TwinInsertable(P: Params, before: map<Id, Page>, mid: map<Id, Page>, orphans: set<Id>, level: nat, e: Entry)
    requires OnlyBoxes(before, mid, orphans + {e.id}) && e.id !in orphans
    requires e.id in before && before[e.id].entries != [] && before[e.id].level + 1 == level && before[e.id].mbr == e.mbr && PageOk(P, before[e.id])
    ensures Insertable(P, mid, orphans + {e.id}, level, e)
    ensures orphans + {e.id} - Piece(level, e) == orphans && Gain(level, e) == multiset{}
  {
  }

  lemma PathPush(par: map<Id, Id>, root: Id, path: seq<Id>, p: Id, c: Id)
    requires PathTo(par, root, path, p) && c in par && par[c] == p
    ensures PathTo(par, root, path + [p], c)
  {
    assert (path + [p])[..|path|] == path;
  }

  /** No page went away, and only the root may have changed its level. */
  ghost predicate Levels(before: map<Id, Page>, after: map<Id, Page>, root: Id) {
    forall q :: q in before && q != root ==> q in after && after[q].level == before[q].level
  }

  /** From pages `before` to pages `after`, the data grew by `gain`, the parentless pages `kept`
      stayed as they were, no page went away, and the tree did not get lower. */
  ghost predicate Grown(before: map<Id, Page>, after: map<Id, Page>, root: Id, kept: set<Id>, gain: multiset<Entry>) {
    && Data(after) == Data(before) + gain
    && (forall q :: q in kept && q in before ==> q in after && after[q] == before[q])
    && root in before && root in after && before[root].level <= after[root].level
    && Levels(before, after, root)
  }

  lemma GrownUpdate(now: map<Id, Page>, p: Id, n: Page, root: Id, kept: set<Id>, gain: multiset<Entry>)
    requires p in now && n.level == now[p].level && p !in kept && root in now
    requires Data(now[p := n]) == Data(now) + gain
    ensures Grown(now, now[p := n], root, kept, gain)
  {
  }

  /** Like `Grown`, while `owed` has still to be put back. */
  ghost predicate GrownBut(before: map<Id, Page>, after: map<Id, Page>, root: Id, kept: set<Id>,
                           gain: multiset<Entry>, owed: multiset<Entry>) {
    && Data(after) + owed == Data(before) + gain
    && (forall q :: q in kept && q in before ==> q in after && after[q] == before[q])
    && root in before && root in after && before[root].level <= after[root].level
    && Levels(before, after, root)
  }

  lemma CutWaiting(P: Params, now: map<Id, Page>, now': map<Id, Page>, orphans: set<Id>, orphans': set<Id>,
                   level: nat, e: Entry, out: seq<Entry>, root: Id, p: Id, keep: seq<Entry>)
    requires IsCut(P, now, now', orphans, orphans', level, e, out)
    requires p in now && level == now[p].level && Boxes(keep, P.dim) && p !in orphans && root in now
    requires now' == now[p := Packed(level, keep, P.dim)]
    ensures Waiting(P, now', orphans - Piece(level, e), level, out)
    ensures GrownBut(now, now', root, orphans - Piece(level, e), Gain(level, e), Loads(level, out))
    ensures orphans' == orphans - Piece(level, e) + Pieces(level, out)
    ensures now'[p].level == now[p].level
  {
    hide Insertable, Data;
  }

  lemma GrownBoxes(a: map<Id, Page>, b: map<Id, Page>, c: map<Id, Page>, root: Id, kept: set<Id>, gain: multiset<Entry>)
    requires Grown(a, b, root, kept, gain) && OnlyBoxes(b, c, kept)
    ensures Grown(a, c, root, kept, gain)
  {
    OnlyBoxesSame(b, c, kept, 0, []);
  }

  lemma GrownTransitive(a: map<Id, Page>, b: map<Id, Page>, c: map<Id, Page>, root: Id, k1: set<Id>, k2: set<Id>,
                        g1: multiset<Entry>, g2: multiset<Entry>)
    requires Grown(a, b, root, k1, g1) && Grown(b, c, root, k2, g2) && k2 <= k1
    ensures Grown(a, c, root, k2, g1 + g2) && g1 + multiset{} == g1
  {
  }

  lemma UnusedId(keys: set<Id>)
    ensures exists id :: id >= 0 && id !in keys
  {
    var bound := 0;
    var rest := keys;
    while rest != {}
      invariant bound >= 0 && rest <= keys
      invariant forall k :: k in keys && k !in rest ==> k < bound
      decreases rest
    {
      var k := Any(rest);
      rest := rest - {k};
      bound := if k < bound then bound else k + 1;
    }
    assert bound !in keys;
  }

  /** The box an index node has after it took a child's new box, recomputed or not, fits. */
  lemma RefitBounds(P: Params, n: Page, i: nat, box: Region, n': Page)
    requires PageOk(P, n) && i < |n.entries| && IsBox(box, P.dim)
    requires n'.entries == n.entries[i := Entry(box, n.entries[i].id, n.entries[i].data)]
    requires n'.mbr == n.mbr || (Boxes(n'.entries, P.dim) && n'.mbr == Cover(n'.entries, P.dim))
    requires n'.mbr == n.mbr ==> (Contains(n.mbr, box) && !P.tight) || (Boxes(n'.entries, P.dim) && n'.mbr == Cover(n'.entries, P.dim))
    ensures Bounds(P, n'.mbr, n'.entries)
  {
  }

  lemma {:induction false} RaisedInStep(times: nat)
    ensures Raised(InStep, times) == InStep
  {
    if times > 0 {
      RaisedInStep(times - 1);
    }
  }

  lemma OkBoxes(P: Params, n: Page)
    requires PageOk(P, n)
    ensures IsBox(n.mbr, P.dim) && Boxes(n.entries, P.dim)
  {
  }

  lemma RecLevel(n: Node)
    ensures n.Rec().level == n.level
  {
  }

  lemma DataInsertable(P: Params, pages: map<Id, Page>, e: Entry)
    requires |e.mbr.low| == |e.mbr.high| == P.dim
    ensures Insertable(P, pages, {}, 0, e) && {} - Piece(0, e) == {} && Gain(0, e) == multiset{e}
  {
  }

  lemma GrownOne(before: map<Id, Page>, after: map<Id, Page>, root: Id, e: Entry)
    requires Grown(before, after, root, {} - Piece(0, e), Gain(0, e))
    ensures Data(after) == Data(before) + multiset{e} && |Data(after)| == |Data(before)| + 1 && Levels(before, after, root)
  {
  }

  lemma LoggedBelow(a: seq<bool>, b: seq<bool>, x: seq<nat>, y: seq<nat>)
    requires Logged(a, b, x, y)
    ensures x <= y && NoDuplicates(y[|x|..]) && forall l :: l in y[|x|..] ==> l < |a|
  {
  }
}
