/** The time-parameterized tree: insertions, deletions and range queries over moving boxes, each at the
    current time `now` of the tree. All that is said about the boxes holds from a time `t` on, the latest
    time that was ever current; `now` is before it when the clock has been set back. */
module TPRTrees {
  import opened Geometry
  import opened Moving
  import opened Pages
  import opened IndexLists
  import opened TPRNodes
  import opened RTreeNode

  // ---------------------------------------------------------------- sound trees

  /** From time `t` on every box on the way down encloses what lies directly below it; stored boxes are the
      children's own boxes, all leaves are on level 0, and no node but a root leaf has fewer than two
      entries. */
  ghost predicate Sound(n: MNode, P: Params, t: real)
    decreases n
  {
    && Encloses(n.box, n.entries, P.dim, t)
    && forall i :: 0 <= i < |n.entries| ==> EntryOk(n.entries[i], n.level, P, t)
  }

  ghost predicate EntryOk(e: MEntry, level: nat, P: Params, t: real)
    decreases e
  {
    if level == 0 then e.Item? && Steady(e.mbr, P.dim)
    else e.Sub? && e.mbr == e.node.box && e.node.level + 1 == level && 2 <= |e.node.entries| <= P.Capacity(e.node.level) && Sound(e.node, P, t)
  }

  /** A node that may be the root, or stand below others if `inner`. */
  ghost predicate Fit(n: MNode, inner: bool, P: Params, t: real) {
    && Sound(n, P, t) && |n.entries| <= P.Capacity(n.level)
    && (inner || n.level > 0 ==> |n.entries| >= 2)
    && (n.entries == [] ==> n.box.start == -MAX_DOUBLE)
  }

  // ---------------------------------------------------------------- stored items

  ghost function Below(es: seq<MEntry>): multiset<MEntry>
    decreases es
  {
    if es == [] then multiset{} else Below(es[..|es|-1]) + Of(es[|es|-1])
  }

  ghost function Of(e: MEntry): multiset<MEntry>
    decreases e
  {
    match e
    case Item(_, _, _) => multiset{e}
    case Sub(_, n) => Below(n.entries)
  }

  lemma {:induction false} BelowSplit(a: seq<MEntry>, b: seq<MEntry>)
    ensures Below(a + b) == Below(a) + Below(b)
  {
    hide *;
    if b == [] {
      assert a + b == a;
      BelowNone();
    } else {
      BelowSplit(a, b[..|b|-1]);
      assert (a + b)[..|a + b|-1] == a + b[..|b|-1];
      BelowLast(a + b);
      BelowLast(b);
      assert (a + b)[|a + b|-1] == b[|b|-1];
    }
  }

  lemma BelowNone()
    ensures Below([]) == multiset{}
  {
  }

  lemma BelowLast(es: seq<MEntry>)
    requires es != []
    ensures Below(es) == Below(es[..|es|-1]) + Of(es[|es|-1])
  {
  }

  lemma BelowMiddle(a: seq<MEntry>, x: MEntry, b: seq<MEntry>)
    ensures Below(a + [x] + b) == Below(a + b) + Of(x)
  {
    BelowSplit(a + [x], b);
    BelowSplit(a, b);
    assert (a + [x])[..|a|] == a;
  }

  /** The order of the entries does not matter. */
  lemma {:induction false} BelowPermuted(a: seq<MEntry>, b: seq<MEntry>)
    requires multiset(a) == multiset(b)
    ensures Below(a) == Below(b)
  {
    if a == [] {
      assert |multiset(b)| == 0;
      assert b == [];
    } else {
      var k := SameElsewhere(a, b);
      BelowPermuted(a[..|a|-1], b[..k] + b[k+1..]);
      BelowMiddle(b[..k], b[k], b[k+1..]);
      assert b == b[..k] + [b[k]] + b[k+1..];
    }
  }

  /** Where the last element of `a` stands in `b`, and what is left without it. */
  lemma SameElsewhere(a: seq<MEntry>, b: seq<MEntry>) returns (k: nat)
    requires a != [] && multiset(a) == multiset(b)
    ensures k < |b| && b[k] == a[|a|-1] && multiset(a[..|a|-1]) == multiset(b[..k] + b[k+1..])
  {
    var x := a[|a|-1];
    assert a == a[..|a|-1] + [x];
    assert x in multiset(b);
    k :| 0 <= k < |b| && b[k] == x;
    var rest := b[..k] + b[k+1..];
    assert b == b[..k] + [x] + b[k+1..];
    assert multiset(b) - multiset{x} == multiset(rest);
    assert multiset(a) - multiset{x} == multiset(a[..|a|-1]);
  }

  lemma BelowWithout(es: seq<MEntry>, i: nat)
    requires i < |es|
    ensures Below(es) == Below(Without(es, i)) + Of(es[i])
  {
    var rest := Without(es, i);
    assert multiset(rest + [es[i]]) == multiset(rest) + multiset{es[i]};
    BelowPermuted(es, rest + [es[i]]);
    assert (rest + [es[i]])[..|rest|] == rest;
  }

  lemma BelowReplaced(es: seq<MEntry>, i: nat, e: MEntry)
    requires i < |es|
    ensures Below(es[i := e]) == Below(Without(es, i)) + Of(e)
  {
    hide Below, Of, Without;
    var now := es[i := e];
    assert es == es[..i] + [es[i]] + es[i+1..];
    assert now == es[..i] + [e] + es[i+1..];
    BelowMiddle(es[..i], es[i], es[i+1..]);
    BelowMiddle(es[..i], e, es[i+1..]);
    BelowWithout(es, i);
    assert es[..i] == now[..i] && es[i+1..] == now[i+1..];
    CancelRight(Below(Without(es, i)), Below(es[..i] + es[i+1..]), Of(es[i]));
  }

  lemma CancelRight(a: multiset<MEntry>, b: multiset<MEntry>, c: multiset<MEntry>)
    requires a + c == b + c
    ensures a == b
  {
    assert (a + c) - c == a && (b + c) - c == b;
  }

  lemma BelowDivided(es: seq<MEntry>, g1: seq<nat>, g2: seq<nat>)
    requires Partition(g1, g2, |es|)
    ensures (forall i :: 0 <= i < |g1| ==> g1[i] < |es|) && (forall i :: 0 <= i < |g2| ==> g2[i] < |es|)
    ensures Below(Select(es, g1)) + Below(Select(es, g2)) == Below(es)
  {
    SelectPartition(es, g1, g2);
    BelowSplit(Select(es, g1), Select(es, g2));
    assert multiset(Select(es, g1) + Select(es, g2)) == multiset(es);
    BelowPermuted(Select(es, g1) + Select(es, g2), es);
  }

  /** Everything below a sound node is an item, and the node's box covers it. */
  lemma {:induction false} ItemCovered(n: MNode, P: Params, t: real, x: MEntry)
    requires Sound(n, P, t) && x in Below(n.entries)
    ensures x.Item? && EnclosesOne(n.box, x.mbr, P.dim, t)
    decreases n
  {
    var i := BelowMember(n.entries, x);
    var e := n.entries[i];
    assert EntryOk(e, n.level, P, t) && EnclosesOne(n.box, e.mbr, P.dim, t);
    if e.Sub? {
      ItemCovered(e.node, P, t, x);
      hide CoversTill;
      CoversTransitive(n.box, e.node.box, x.mbr, P.dim, t);
    }
  }

  lemma {:induction false} BelowMember(es: seq<MEntry>, x: MEntry) returns (i: nat)
    requires x in Below(es)
    ensures i < |es| && x in Of(es[i])
  {
    if x in Of(es[|es|-1]) {
      i := |es| - 1;
    } else {
      i := BelowMember(es[..|es|-1], x);
    }
  }

  // ---------------------------------------------------------------- paths

  /** A node on the way down and the position of the child that was taken. */
  datatype Frame = Frame(node: MNode, child: nat)

  /** The stack of ancestors of a node of `level`, the root at the bottom. */
  ghost predicate PathOk(level: nat, path: seq<Frame>, P: Params, t: real)
    decreases |path|
  {
    path == [] || (
      var f := path[|path|-1];
      f.node.level == level + 1 && f.child < |f.node.entries| && Fit(f.node, true, P, t) && PathOk(level + 1, path[..|path|-1], P, t))
  }

  /** The items that hang off the path. */
  ghost function Aside(path: seq<Frame>): multiset<MEntry> {
    if path == [] then multiset{}
    else
      var f := path[|path|-1];
      (if f.child < |f.node.entries| then Below(Without(f.node.entries, f.child)) else multiset{}) + Aside(path[..|path|-1])
  }

  lemma PathTop(level: nat, path: seq<Frame>, P: Params, t: real)
    requires PathOk(level, path, P, t) && path != []
    ensures
      var f, rest := path[|path|-1], path[..|path|-1];
      && f.node.level == level + 1 && f.child < |f.node.entries| && Fit(f.node, true, P, t) && PathOk(level + 1, rest, P, t)
      && Aside(path) == Below(Without(f.node.entries, f.child)) + Aside(rest)
  {
  }

  lemma PathPush(n: MNode, child: nat, path: seq<Frame>, P: Params, t: real)
    requires Fit(n, path != [], P, t) && n.level > 0 && child < |n.entries| && PathOk(n.level, path, P, t)
    ensures
      var e, more := n.entries[child], path + [Frame(n, child)];
      && e.Sub? && e.node.level + 1 == n.level && Fit(e.node, true, P, t) && PathOk(e.node.level, more, P, t)
      && Below(e.node.entries) + Aside(more) == Below(n.entries) + Aside(path)
      && EnclosesOne(n.box, e.mbr, P.dim, t) && e.mbr == e.node.box
  {
    hide Sound, Encloses, Below, Without;
    var e, more := n.entries[child], path + [Frame(n, child)];
    ChildFacts(n, path != [], child, P, t);
    assert more[..|path|] == path;
    BelowWithout(n.entries, child);
  }

  lemma ChildFacts(n: MNode, inner: bool, child: nat, P: Params, t: real)
    requires Fit(n, inner, P, t) && n.level > 0 && child < |n.entries|
    ensures
      var e := n.entries[child];
      && e.Sub? && e.node.level + 1 == n.level && Fit(e.node, true, P, t) && Fit(n, true, P, t)
      && EnclosesOne(n.box, e.mbr, P.dim, t) && e.mbr == e.node.box && Of(e) == Below(e.node.entries)
  {
    var e := n.entries[child];
    assert EntryOk(e, n.level, P, t) && EnclosesOne(n.box, e.mbr, P.dim, t);
  }

  // ---------------------------------------------------------------- adjusting upwards

  /** An entry for node `n`. */
  lemma EntryFor(n: MNode, P: Params, t: real)
    requires Sound(n, P, t) && 2 <= |n.entries| <= P.Capacity(n.level)
    ensures EntryOk(Sub(n.box, n), n.level + 1, P, t) && Lives(n.box, P.dim, t) && Of(Sub(n.box, n)) == Below(n.entries)
  {
  }

  /** The parent takes over the box of its child `n` and recomputes its own at the current time. */
  method TakeBox(f: Frame, n: MNode, P: Params, now: real, ghost t: real) returns (p: TPRNode)
    requires f.node.level == n.level + 1 && f.child < |f.node.entries| && Fit(f.node, true, P, t) && Fit(n, true, P, t) && now <= t < MAX_DOUBLE
    ensures fresh(p) && p.dim == P.dim && p.capacity == P.Capacity(p.level) && p.level == f.node.level
    ensures Fit(p.Value(), true, P, t) && |p.entries| == |f.node.entries| && p.mbr.start == now
    ensures Below(p.entries) == Below(Without(f.node.entries, f.child)) + Below(n.entries)
  {
    hide Encloses, Lives, Below, Without, EntryOk;
    FitFacts(f.node, true, P, t);
    FitFacts(n, true, P, t);
    EntryFor(n, P, t);
    BelowReplaced(f.node.entries, f.child, Sub(n.box, n));
    p := new TPRNode.Load(P.dim, P.Capacity(f.node.level), f.node);
    p.entries := p.entries[f.child := Sub(n.box, n)];
    CurrentReplaced(f.node.entries, f.child, Sub(n.box, n), P.dim, t);
    p.Recompute(now, t);
  }

  lemma FitFacts(n: MNode, inner: bool, P: Params, t: real)
    requires Fit(n, inner, P, t)
    ensures Encloses(n.box, n.entries, P.dim, t) && Current(n.entries, P.dim, t) && n.box.IsMoving(P.dim) && n.box.end == MAX_DOUBLE
    ensures forall i :: 0 <= i < |n.entries| ==> EntryOk(n.entries[i], n.level, P, t)
    ensures |n.entries| >= 1 ==> Lives(n.box, P.dim, t)
  {
    EnclosesCurrent(n.box, n.entries, P.dim, t);
  }

  lemma CurrentReplaced(es: seq<MEntry>, i: nat, e: MEntry, dim: nat, t: real)
    requires Current(es, dim, t) && i < |es| && Lives(e.mbr, dim, t)
    ensures Current(es[i := e], dim, t)
  {
  }

  /** `adjustTree` for one child, up to the root. */
  method AdjustTree(n: MNode, path: seq<Frame>, P: Params, now: real, ghost t: real) returns (root: MNode)
    requires Fit(n, path != [], P, t) && PathOk(n.level, path, P, t) && now <= t < MAX_DOUBLE
    decreases |path|
    ensures Fit(root, false, P, t) && root.level == n.level + |path| && (n.box.start == now ==> root.box.start == now)
    ensures Below(root.entries) == Below(n.entries) + Aside(path)
  {
    hide *;
    if path == [] {
      AsideNone();
      return n;
    }
    PathTop(n.level, path, P, t);
    var p := TakeBox(path[|path|-1], n, P, now, t);
    ValueIs(p);
    FitWeaker(p.Value(), path[..|path|-1] != [], P, t);
    root := AdjustTree(MNode(p.level, p.mbr, p.entries), path[..|path|-1], P, now, t);
  }

  lemma AsideNone()
    ensures Aside([]) == multiset{}
  {
  }

  lemma FitWeaker(n: MNode, inner: bool, P: Params, t: real)
    requires Fit(n, true, P, t)
    ensures Fit(n, inner, P, t)
  {
  }

  lemma ValueIs(p: TPRNode)
    ensures p.Value() == MNode(p.level, p.mbr, p.entries)
  {
  }

  // ---------------------------------------------------------------- splitting and inserting

  /** Fills a new node of `level` with the entries at the positions `g`, one after the other. */
  method FillNode(level: nat, all: seq<MEntry>, g: seq<nat>, P: Params, now: real, ghost t: real) returns (n: TPRNode)
    requires Current(all, P.dim, t) && -MAX_DOUBLE < now <= t < MAX_DOUBLE
    requires forall i :: 0 <= i < |g| ==> g[i] < |all|
    requires (forall i :: 0 <= i < |all| ==> EntryOk(all[i], level, P, t)) && 2 <= |g| <= P.Capacity(level)
    ensures fresh(n) && n.level == level && n.entries == Select(all, g) && Fit(n.Value(), true, P, t)
  {
    hide Encloses, EntryOk, Lives;
    n := new TPRNode(P.dim, P.Capacity(level), level);
    InfiniteEncloses(P.dim, t);
    for cIndex := 0 to |g|
      invariant n.level == level && n.dim == P.dim && n.capacity == P.Capacity(level)
      invariant n.entries == Select(all, g)[..cIndex] && Encloses(n.mbr, n.entries, P.dim, t)
      invariant n.mbr.start == if cIndex == 0 then -MAX_DOUBLE else now
    {
      n.InsertEntry(all[g[cIndex]], now, t);
    }
    assert Select(all, g)[..|g|] == Select(all, g);
  }

  lemma InfiniteEncloses(dim: nat, t: real)
    requires -MAX_DOUBLE <= t
    ensures Encloses(InfiniteRegion(dim), [], dim, t) && InfiniteRegion(dim).start == -MAX_DOUBLE && InfiniteRegion(dim).end == MAX_DOUBLE
  {
  }

  /** `split`: a full node and one more entry become two nodes. */
  method Split(n: MNode, e: MEntry, P: Params, now: real, ghost t: real) returns (left: TPRNode, right: TPRNode)
    requires P.Sane() && P.variant == RStar && Fit(n, false, P, t) && |n.entries| == P.Capacity(n.level)
    requires EntryOk(e, n.level, P, t) && Lives(e.mbr, P.dim, t) && -MAX_DOUBLE < now <= t < MAX_DOUBLE
    ensures fresh(left) && fresh(right) && left.level == right.level == n.level
    ensures Fit(left.Value(), true, P, t) && Fit(right.Value(), true, P, t)
    ensures Below(left.entries) + Below(right.entries) == Below(n.entries) + Of(e)
  {
    hide Encloses, EntryOk, Lives, Below, Of;
    FitFacts(n, false, P, t);
    var capacity, all := P.Capacity(n.level), n.entries + [e];
    var g1, g2 := RstarSplit(capacity, P.SplitLoad(capacity));
    CurrentMore(n.entries, e, P.dim, t);
    BelowDivided(all, g1, g2);
    BelowSplit(n.entries, [e]);
    BelowOne(e);
    left := FillNode(n.level, all, g1, P, now, t);
    right := FillNode(n.level, all, g2, P, now, t);
  }

  lemma BelowOne(e: MEntry)
    ensures Below([e]) == Of(e)
  {
    assert [e][..0] == [];
  }

  /** A new root above two nodes. */
  method RootAbove(left: MNode, right: MNode, P: Params, now: real, ghost t: real) returns (root: MNode)
    requires P.Sane() && left.level == right.level && Fit(left, true, P, t) && Fit(right, true, P, t) && -MAX_DOUBLE < now <= t < MAX_DOUBLE
    ensures Fit(root, false, P, t) && root.level == left.level + 1 && root.box.start == now
    ensures Below(root.entries) == Below(left.entries) + Below(right.entries)
  {
    hide Encloses, EntryOk, Lives, Below, Of;
    EntryFor(left, P, t);
    EntryFor(right, P, t);
    InfiniteEncloses(P.dim, t);
    var e1, e2 := Sub(left.box, left), Sub(right.box, right);
    var n := new TPRNode(P.dim, P.Capacity(left.level + 1), left.level + 1);
    n.InsertEntry(e1, now, t);
    n.InsertEntry(e2, now, t);
    BelowSplit([e1], [e2]);
    BelowOne(e1);
    BelowOne(e2);
    assert n.entries == [e1] + [e2];
    root := MNode(n.level, n.mbr, n.entries);
  }

  /** `insertData`: with room, the entry is stored and the boxes on the path are recomputed; a full node
      is split, and its twin goes into the parent, which may split in turn. */
  method InsertData(n: MNode, e: MEntry, path: seq<Frame>, P: Params, now: real, ghost t: real) returns (root: MNode)
    requires P.Sane() && P.variant == RStar && Fit(n, path != [], P, t) && PathOk(n.level, path, P, t)
    requires EntryOk(e, n.level, P, t) && Lives(e.mbr, P.dim, t) && -MAX_DOUBLE < now <= t < MAX_DOUBLE
    decreases |path|
    ensures Fit(root, false, P, t) && root.level >= n.level + |path| && root.box.start == now
    ensures Below(root.entries) == Below(n.entries) + Of(e) + Aside(path)
  {
    hide *;
    FitWeakened(n, path != [], P, t);
    if |n.entries| < P.Capacity(n.level) {
      var more := StoreEntry(n, e, path != [], P, now, t);
      root := AdjustTree(more, path, P, now, t);
      return;
    }
    var left, right := Split(n, e, P, now, t);
    ValueIs(left);
    ValueIs(right);
    var l, r := MNode(left.level, left.mbr, left.entries), MNode(right.level, right.mbr, right.entries);
    if path == [] {
      AsideNone();
      root := RootAbove(l, r, P, now, t);
    } else {
      PathTop(n.level, path, P, t);
      var rest := path[..|path|-1];
      var p := TakeBox(path[|path|-1], l, P, now, t);
      ValueIs(p);
      var parent := MNode(p.level, p.mbr, p.entries);
      FitWeaker(parent, rest != [], P, t);
      TwinEntry(r, P, t);
      root := InsertData(parent, Sub(r.box, r), rest, P, now, t);
      SumsUp(Below(l.entries), Below(r.entries), Below(n.entries), Of(e), Below(Without(path[|path|-1].node.entries, path[|path|-1].child)), Aside(rest));
    }
  }

  lemma SumsUp(l: multiset<MEntry>, r: multiset<MEntry>, n: multiset<MEntry>, e: multiset<MEntry>, w: multiset<MEntry>, a: multiset<MEntry>)
    requires l + r == n + e
    ensures w + l + r + a == n + e + (w + a)
  {
    assert w + l + r + a == (l + r) + (w + a);
  }

  lemma TwinEntry(r: MNode, P: Params, t: real)
    requires Fit(r, true, P, t)
    ensures EntryOk(Sub(r.box, r), r.level + 1, P, t) && Lives(Sub(r.box, r).mbr, P.dim, t)
    ensures Of(Sub(r.box, r)) == Below(r.entries)
  {
  }

  lemma FitWeakened(n: MNode, inner: bool, P: Params, t: real)
    requires Fit(n, inner, P, t)
    ensures Fit(n, false, P, t) && |n.entries| <= P.Capacity(n.level)
  {
  }

  /** The room branch: the entry is stored. */
  method StoreEntry(n: MNode, e: MEntry, inner: bool, P: Params, now: real, ghost t: real) returns (more: MNode)
    requires Fit(n, inner, P, t) && |n.entries| < P.Capacity(n.level)
    requires EntryOk(e, n.level, P, t) && Lives(e.mbr, P.dim, t) && -MAX_DOUBLE < now <= t < MAX_DOUBLE
    ensures Fit(more, inner, P, t) && more.level == n.level && more.box.start == now && Below(more.entries) == Below(n.entries) + Of(e)
  {
    hide Encloses, EntryOk, Lives, Below, Of;
    FitFacts(n, inner, P, t);
    var p := new TPRNode.Load(P.dim, P.Capacity(n.level), n);
    p.InsertEntry(e, now, t);
    BelowSplit(n.entries, [e]);
    BelowOne(e);
    more := MNode(p.level, p.mbr, p.entries);
    StoredFit(n, e, more, inner, P, t);
  }

  lemma StoredFit(n: MNode, e: MEntry, more: MNode, inner: bool, P: Params, t: real)
    requires Fit(n, inner, P, t) && |n.entries| < P.Capacity(n.level) && EntryOk(e, n.level, P, t)
    requires more.level == n.level && more.entries == n.entries + [e] && Encloses(more.box, more.entries, P.dim, t)
    ensures Fit(more, inner, P, t)
  {
    hide Encloses, EntryOk;
    forall i | 0 <= i < |more.entries| ensures EntryOk(more.entries[i], more.level, P, t) {
    }
  }

  /** Descends to a node of `level`; which child is taken at each step is left open. */
  method ChooseSubtree(n: MNode, level: nat, path: seq<Frame>, P: Params, ghost t: real) returns (r: MNode, path': seq<Frame>)
    requires Fit(n, path != [], P, t) && PathOk(n.level, path, P, t) && level <= n.level
    decreases n.level
    ensures r.level == level && Fit(r, path' != [], P, t) && PathOk(level, path', P, t) && |path'| + level == |path| + n.level
    ensures Below(r.entries) + Aside(path') == Below(n.entries) + Aside(path)
  {
    if n.level == level {
      return n, path;
    }
    ghost var least := Descends(n, path, P, t);
    hide Fit, PathOk, Below, Aside;
    var child :| 0 <= child < |n.entries|;
    PathPush(n, child, path, P, t);
    r, path' := ChooseSubtree(n.entries[child].node, level, path + [Frame(n, child)], P, t);
  }

  lemma Descends(n: MNode, path: seq<Frame>, P: Params, t: real) returns (least: nat)
    requires Fit(n, path != [], P, t) && n.level > 0
    ensures least < |n.entries|
  {
    least := 0;
  }

  /** `insertData_impl`: from the root down to `level`, and the insertion there. */
  method InsertAt(root: MNode, e: MEntry, level: nat, P: Params, now: real, ghost t: real) returns (root': MNode)
    requires P.Sane() && P.variant == RStar && Fit(root, false, P, t) && level <= root.level
    requires EntryOk(e, level, P, t) && Lives(e.mbr, P.dim, t) && -MAX_DOUBLE < now <= t < MAX_DOUBLE
    ensures Fit(root', false, P, t) && root'.level >= root.level && root'.box.start == now
    ensures Below(root'.entries) == Below(root.entries) + Of(e)
  {
    hide *;
    AsideNone();
    PathNone(root.level, P, t);
    var n, path := ChooseSubtree(root, level, [], P, t);
    root' := InsertData(n, e, path, P, now, t);
    assert Below(n.entries) + Of(e) + Aside(path) == (Below(n.entries) + Aside(path)) + Of(e);
  }

  lemma PathNone(level: nat, P: Params, t: real)
    ensures PathOk(level, [], P, t)
  {
  }

  // ---------------------------------------------------------------- finding a leaf

  /** The region under which an item was stored. */
  ghost predicate Matches(x: MEntry, mr: MovingRegion, id: Id) {
    x.Item? && x.id == id && x.mbr == mr
  }

  ghost predicate HasId(es: seq<MEntry>, id: Id) {
    exists i :: 0 <= i < |es| && es[i].Item? && es[i].id == id
  }

  /** `path'` continues `path` through children only whose boxes contain the region from `now` on. */
  ghost predicate Descended(path: seq<Frame>, path': seq<Frame>, mr: MovingRegion, now: real, dim: nat) {
    && |path| <= |path'| && path'[..|path|] == path
    && forall i :: |path| <= i < |path'| ==> Holds(path'[i], mr, now, dim)
  }

  ghost predicate Holds(f: Frame, mr: MovingRegion, now: real, dim: nat) {
    && f.child < |f.node.entries| && f.node.entries[f.child].mbr.IsMoving(dim) && mr.IsMoving(dim)
    && InsideAfter(f.node.entries[f.child].mbr, now, mr, dim)
  }

  lemma DescendedMore(path: seq<Frame>, f: Frame, path': seq<Frame>, mr: MovingRegion, now: real, dim: nat)
    requires Holds(f, mr, now, dim) && Descended(path + [f], path', mr, now, dim)
    ensures Descended(path, path', mr, now, dim)
  {
    assert path'[..|path|] == path'[..|path| + 1][..|path|] && path == (path + [f])[..|path|];
    assert path'[|path|] == path'[..|path| + 1][|path|] == f;
  }

  lemma HoldsMade(n: MNode, child: nat, mr: MovingRegion, now: real, dim: nat)
    requires child < |n.entries| && n.entries[child].mbr.IsMoving(dim) && mr.IsMoving(dim) && InsideAfter(n.entries[child].mbr, now, mr, dim)
    ensures Holds(Frame(n, child), mr, now, dim)
  {
  }

  /** `findLeaf`: on a leaf the first entry with the id will do; on an index node the descent goes into
      every child whose box contains the region from `now` on. Since boxes cover what lies below them from
      `t` on, a region that is stored is not missed when the clock has not been set back. */
  method FindLeaf(n: MNode, mr: MovingRegion, id: Id, path: seq<Frame>, P: Params, now: real, ghost t: real)
    returns (found: bool, l: MNode, path': seq<Frame>)
    requires Fit(n, path != [], P, t) && PathOk(n.level, path, P, t) && Steady(mr, P.dim) && now <= t < MAX_DOUBLE && mr.start < MAX_DOUBLE
    decreases n.level, 1
    ensures found ==> l.level == 0 && Fit(l, path' != [], P, t) && PathOk(0, path', P, t) && HasId(l.entries, id)
    ensures found ==> Below(l.entries) + Aside(path') == Below(n.entries) + Aside(path)
    ensures found ==> Descended(path, path', mr, now, P.dim)
    ensures !found && now == t ==> forall x :: x in Below(n.entries) ==> !Matches(x, mr, id)
  {
    found, l, path' := false, n, path;
    if n.level == 0 {
      LeafItems(n, P, t);
      for cChild := 0 to |n.entries|
        invariant forall i :: 0 <= i < cChild ==> n.entries[i].id != id
      {
        if n.entries[cChild].id == id {
          return true, n, path;
        }
      }
      LeafMissing(n, P, t, mr, id);
    } else {
      found, l, path' := FindBelow(n, mr, id, path, P, now, t);
    }
  }

  lemma LeafItems(n: MNode, P: Params, t: real)
    requires Sound(n, P, t) && n.level == 0
    ensures forall i :: 0 <= i < |n.entries| ==> n.entries[i].Item?
  {
    forall i | 0 <= i < |n.entries| ensures n.entries[i].Item? {
      assert EntryOk(n.entries[i], n.level, P, t);
    }
  }

  lemma LeafMissing(n: MNode, P: Params, t: real, mr: MovingRegion, id: Id)
    requires Sound(n, P, t) && n.level == 0 && forall i :: 0 <= i < |n.entries| ==> n.entries[i].Item? && n.entries[i].id != id
    ensures forall x :: x in Below(n.entries) ==> !Matches(x, mr, id)
  {
    forall x | x in Below(n.entries) ensures !Matches(x, mr, id) {
      var i := BelowMember(n.entries, x);
      assert x == n.entries[i];
    }
  }

  /** The loop of `Index::findLeaf`. */
  method FindBelow(n: MNode, mr: MovingRegion, id: Id, path: seq<Frame>, P: Params, now: real, ghost t: real)
    returns (found: bool, l: MNode, path': seq<Frame>)
    requires Fit(n, path != [], P, t) && PathOk(n.level, path, P, t) && Steady(mr, P.dim) && now <= t < MAX_DOUBLE && mr.start < MAX_DOUBLE
    requires n.level > 0
    decreases n.level, 0
    ensures found ==> l.level == 0 && Fit(l, path' != [], P, t) && PathOk(0, path', P, t) && HasId(l.entries, id)
    ensures found ==> Below(l.entries) + Aside(path') == Below(n.entries) + Aside(path)
    ensures found ==> Descended(path, path', mr, now, P.dim)
    ensures !found && now == t ==> forall x :: x in Below(n.entries) ==> !Matches(x, mr, id)
  {
    found, l, path' := false, n, path;
    hide *;
    for cChild := 0 to |n.entries|
      invariant !found && (now == t ==> forall i :: 0 <= i < cChild ==> NoMatch(n.entries[i], mr, id))
    {
      PathPush(n, cChild, path, P, t);
      SteadyMoves(mr, P.dim);
      BoxMoves(n.entries[cChild].mbr, n.box, P.dim, t);
      var inside := ContainsRegionAfterTime(n.entries[cChild].mbr, now, mr, P.dim);
      if inside {
        found, l, path' := FindLeaf(n.entries[cChild].node, mr, id, path + [Frame(n, cChild)], P, now, t);
        if found {
          HoldsMade(n, cChild, mr, now, P.dim);
          DescendedMore(path, Frame(n, cChild), path', mr, now, P.dim);
          return;
        }
        if now == t {
          NothingBelow(n.entries[cChild], mr, id);
        }
      } else if now == t {
        OutsideMissing(n.entries[cChild], mr, id, P, t);
      }
    }
    if now == t {
      NoneMatch(n.entries, mr, id);
    }
  }

  ghost predicate NoMatch(e: MEntry, mr: MovingRegion, id: Id) {
    forall x :: x in Of(e) ==> !Matches(x, mr, id)
  }

  lemma SteadyMoves(x: MovingRegion, dim: nat)
    requires Steady(x, dim)
    ensures x.IsMoving(dim)
  {
  }

  lemma BoxMoves(x: MovingRegion, m: MovingRegion, dim: nat, t: real)
    requires EnclosesOne(m, x, dim, t)
    ensures x.IsMoving(dim)
  {
  }

  lemma NothingBelow(e: MEntry, mr: MovingRegion, id: Id)
    requires e.Sub? && forall x :: x in Below(e.node.entries) ==> !Matches(x, mr, id)
    ensures NoMatch(e, mr, id)
  {
  }

  lemma NoneMatch(es: seq<MEntry>, mr: MovingRegion, id: Id)
    requires forall i :: 0 <= i < |es| ==> NoMatch(es[i], mr, id)
    ensures forall x :: x in Below(es) ==> !Matches(x, mr, id)
  {
    forall x | x in Below(es) ensures !Matches(x, mr, id) {
      var i := BelowMember(es, x);
      assert NoMatch(es[i], mr, id);
    }
  }

  /** A child whose box does not contain the region from `t` on does not hold it. */
  lemma OutsideMissing(e: MEntry, mr: MovingRegion, id: Id, P: Params, t: real)
    requires e.Sub? && e.mbr == e.node.box && Fit(e.node, true, P, t) && Steady(mr, P.dim) && t < MAX_DOUBLE && mr.start < MAX_DOUBLE
    requires e.mbr.IsMoving(P.dim)
    requires mr.IsMoving(P.dim) && !InsideAfter(e.mbr, t, mr, P.dim)
    ensures NoMatch(e, mr, id)
  {
    forall x | x in Of(e) ensures !Matches(x, mr, id) {
      if Matches(x, mr, id) {
        ItemCovered(e.node, P, t, x);
        forall u | Common(Interval(t, mr.end), mr, u) ensures e.mbr.start <= u <= e.mbr.end && InsideAt(e.mbr, mr, P.dim, u) {
          CoversInside(e.mbr, mr, P.dim, t, u);
        }
      }
    }
  }

  // ---------------------------------------------------------------- condensing

  /** What waits to be inserted again. */
  ghost function Held(todo: seq<MNode>): multiset<MEntry> {
    if todo == [] then multiset{} else Held(todo[..|todo|-1]) + Below(todo[|todo|-1].entries)
  }

  /** A node after a deletion below or on it: sound, perhaps underfull. */
  ghost predicate Thin(n: MNode, inner: bool, P: Params, t: real) {
    && Sound(n, P, t) && |n.entries| <= P.Capacity(n.level)
    && (inner || n.level > 0 ==> |n.entries| >= 1)
    && (n.entries == [] ==> n.box.start == -MAX_DOUBLE)
  }

  /** Dissolved nodes, all below `level`. */
  ghost predicate Waiting(todo: seq<MNode>, level: nat, P: Params, t: real) {
    forall i :: 0 <= i < |todo| ==> Thin(todo[i], true, P, t) && todo[i].level < level
  }

  /** A node with fewer entries than the fill factor's part of its capacity. */
  ghost predicate Underfull(n: MNode, P: Params) {
    |n.entries| < ((if n.level == 0 then P.leafCapacity else P.indexCapacity) as real * P.fillFactor).Floor
  }

  lemma UnderfullMeans(n: MNode, P: Params)
    ensures Underfull(n, P) <==> |n.entries| < P.MinimumLoad(P.Capacity(n.level))
  {
  }

  /** Nodes were added to the stack, all of them underfull. */
  ghost predicate Piled(todo: seq<MNode>, more: seq<MNode>, P: Params) {
    todo <= more && forall i :: |todo| <= i < |more| ==> Underfull(more[i], P)
  }

  lemma PiledNone(todo: seq<MNode>, P: Params)
    ensures Piled(todo, todo, P)
  {
  }

  lemma PiledOn(todo: seq<MNode>, x: MNode, now: seq<MNode>, more: seq<MNode>, P: Params)
    requires now == todo || (now == todo + [x] && Underfull(x, P))
    requires Piled(now, more, P)
    ensures Piled(todo, more, P) && (now == todo + [x] ==> |todo| < |more| && more[|todo|] == x)
  {
    if now == todo + [x] {
      assert todo == now[..|todo|] == more[..|now|][..|todo|] == more[..|todo|];
      assert more[|todo|] == more[..|now|][|todo|] == now[|todo|] == x;
    }
  }

  /** `condenseTree`: an underfull node is taken out of its parent and put on the stack, a sound one has
      its box taken over; at the top, a root with one child gives way to it. */
  method CondenseTree(n: MNode, path: seq<Frame>, todo: seq<MNode>, P: Params, now: real, ghost t: real) returns (root: MNode, todo': seq<MNode>)
    requires P.Sane() && Thin(n, path != [], P, t) && PathOk(n.level, path, P, t) && Waiting(todo, n.level, P, t) && -MAX_DOUBLE < now <= t < MAX_DOUBLE
    decreases |path|
    ensures Fit(root, false, P, t) && Waiting(todo', root.level + 1, P, t)
    ensures Below(root.entries) + Held(todo') == Below(n.entries) + Aside(path) + Held(todo)
    ensures Piled(todo, todo', P) && (path != [] && Underfull(n, P) ==> |todo'| > |todo| && todo'[|todo|] == n)
  {
    hide *;
    UnderfullMeans(n, P);
    if path == [] {
      AsideNone();
      root := EliminateRoot(n, P, t);
      PiledNone(todo, P);
      WaitingBelow(todo, n.level, root.level + 1, P, t);
      todo' := todo;
      return;
    }
    PathTop(n.level, path, P, t);
    var f, rest := path[|path|-1], path[..|path|-1];
    var p: TPRNode;
    var more := todo;
    if |n.entries| < P.MinimumLoad(P.Capacity(n.level)) {
      p := DropChild(f, P, now, t);
      more := todo + [n];
      WaitingPush(todo, n, P, t);
    } else {
      ThinFit(n, P, t);
      p := TakeBox(f, n, P, now, t);
      WaitingBelow(todo, n.level, n.level + 1, P, t);
    }
    ValueIs(p);
    var parent := MNode(p.level, p.mbr, p.entries);
    ParentThin(parent, rest != [], P, t);
    root, todo' := CondenseTree(parent, rest, more, P, now, t);
    PiledOn(todo, n, more, todo', P);
    if |n.entries| < P.MinimumLoad(P.Capacity(n.level)) {
      Regroup1(Below(Without(f.node.entries, f.child)), Aside(rest), Held(todo), Below(n.entries));
    } else {
      Regroup2(Below(Without(f.node.entries, f.child)), Aside(rest), Held(todo), Below(n.entries));
    }
  }

  lemma Regroup1(w: multiset<MEntry>, a: multiset<MEntry>, h: multiset<MEntry>, n: multiset<MEntry>)
    ensures w + a + (h + n) == n + (w + a) + h
  {
  }

  lemma Regroup2(w: multiset<MEntry>, a: multiset<MEntry>, h: multiset<MEntry>, n: multiset<MEntry>)
    ensures (w + n) + a + h == n + (w + a) + h
  {
  }

  lemma WaitingBelow(todo: seq<MNode>, level: nat, level': nat, P: Params, t: real)
    requires Waiting(todo, level, P, t) && level <= level'
    ensures Waiting(todo, level', P, t)
  {
  }

  lemma WaitingPush(todo: seq<MNode>, n: MNode, P: Params, t: real)
    requires Waiting(todo, n.level, P, t) && Thin(n, true, P, t)
    ensures Waiting(todo + [n], n.level + 1, P, t) && Held(todo + [n]) == Held(todo) + Below(n.entries)
  {
    assert (todo + [n])[..|todo|] == todo;
  }

  lemma ThinFit(n: MNode, P: Params, t: real)
    requires P.Sane() && Thin(n, true, P, t) && |n.entries| >= P.MinimumLoad(P.Capacity(n.level))
    ensures Fit(n, true, P, t)
  {
  }

  /** After a child was dropped or its box taken over. */
  lemma ParentThin(p: MNode, inner: bool, P: Params, t: real)
    requires Thin(p, true, P, t) || Fit(p, true, P, t)
    ensures Thin(p, inner, P, t)
  {
  }

  /** The eliminated child leaves its parent, whose box is recomputed. */
  method DropChild(f: Frame, P: Params, now: real, ghost t: real) returns (p: TPRNode)
    requires f.node.level > 0 && f.child < |f.node.entries| && Fit(f.node, true, P, t) && -MAX_DOUBLE < now <= t < MAX_DOUBLE
    ensures fresh(p) && p.level == f.node.level && Thin(p.Value(), true, P, t)
    ensures p.entries == Without(f.node.entries, f.child)
  {
    hide Encloses, EntryOk;
    FitFacts(f.node, true, P, t);
    p := new TPRNode.Load(P.dim, P.Capacity(f.node.level), f.node);
    p.DeleteEntry(f.child, now, t);
  }

  /** A root index node with one child gives way to the child. */
  method EliminateRoot(n: MNode, P: Params, ghost t: real) returns (root: MNode)
    requires Thin(n, false, P, t)
    ensures Fit(root, false, P, t) && Below(root.entries) == Below(n.entries) && root.level + 1 >= n.level
  {
    if n.level != 0 && |n.entries| == 1 {
      assert EntryOk(n.entries[0], n.level, P, t) && EnclosesOne(n.box, n.entries[0].mbr, P.dim, t);
      assert n.entries == [n.entries[0]];
      BelowOne(n.entries[0]);
      root := n.entries[0].node;
    } else {
      root := n;
    }
  }

  // ---------------------------------------------------------------- deleting

  /** All entries of one dissolved node are inserted again on their own level. */
  method ReinsertNode(root: MNode, n: MNode, P: Params, now: real, ghost t: real) returns (root': MNode)
    requires P.Sane() && P.variant == RStar && Fit(root, false, P, t) && Thin(n, true, P, t) && n.level <= root.level
    requires -MAX_DOUBLE < now <= t < MAX_DOUBLE
    ensures Fit(root', false, P, t) && root'.level >= root.level
    ensures Below(root'.entries) == Below(root.entries) + Below(n.entries)
  {
    hide *;
    ThinFacts(n, P, t);
    root' := root;
    BelowStart(n.entries);
    for cChild := 0 to |n.entries|
      invariant Fit(root', false, P, t) && root'.level >= root.level
      invariant Below(root'.entries) == Below(root.entries) + Below(n.entries[..cChild])
    {
      BelowNext(n.entries, cChild);
      EntryCurrent(n.entries, cChild, P.dim, t);
      root' := InsertAt(root', n.entries[cChild], n.level, P, now, t);
    }
    assert n.entries[..|n.entries|] == n.entries;
  }

  lemma ThinFacts(n: MNode, P: Params, t: real)
    requires Thin(n, true, P, t)
    ensures Current(n.entries, P.dim, t) && forall i :: 0 <= i < |n.entries| ==> EntryOk(n.entries[i], n.level, P, t)
  {
    EnclosesCurrent(n.box, n.entries, P.dim, t);
  }

  lemma BelowStart(es: seq<MEntry>)
    ensures Below(es[..0]) == multiset{}
  {
  }

  lemma BelowNext(es: seq<MEntry>, k: nat)
    requires k < |es|
    ensures Below(es[..k+1]) == Below(es[..k]) + Of(es[k])
  {
    assert es[..k+1][..k] == es[..k];
  }

  lemma EntryCurrent(es: seq<MEntry>, i: nat, dim: nat, t: real)
    requires Current(es, dim, t) && i < |es|
    ensures Lives(es[i].mbr, dim, t)
  {
  }

  /** The loop that empties the stack of dissolved nodes. */
  method ReinsertAll(root: MNode, todo: seq<MNode>, P: Params, now: real, ghost t: real) returns (root': MNode)
    requires P.Sane() && P.variant == RStar && Fit(root, false, P, t) && Waiting(todo, root.level + 1, P, t) && -MAX_DOUBLE < now <= t < MAX_DOUBLE
    ensures Fit(root', false, P, t) && Below(root'.entries) == Below(root.entries) + Held(todo)
  {
    hide *;
    root' := root;
    var st := todo;
    while st != []
      invariant Fit(root', false, P, t) && Waiting(st, root'.level + 1, P, t)
      invariant Below(root'.entries) + Held(st) == Below(root.entries) + Held(todo)
      decreases |st|
    {
      var n, rest := st[|st|-1], st[..|st|-1];
      WaitingPop(st, root'.level + 1, P, t);
      ghost var before := root'.level;
      root' := ReinsertNode(root', n, P, now, t);
      WaitingBelow(rest, before + 1, root'.level + 1, P, t);
      st := rest;
    }
    HeldNone();
  }

  lemma WaitingPop(st: seq<MNode>, level: nat, P: Params, t: real)
    requires Waiting(st, level, P, t) && st != []
    ensures
      var n, rest := st[|st|-1], st[..|st|-1];
      Thin(n, true, P, t) && n.level < level && Waiting(rest, level, P, t) && Held(st) == Held(rest) + Below(n.entries)
  {
  }

  lemma HeldNone()
    ensures Held([]) == multiset{}
  {
  }

  /** `Leaf::deleteData`: the first entry with the id goes, the tree is condensed, and what was dissolved
      is inserted again. */
  method DeleteData(l: MNode, id: Id, path: seq<Frame>, P: Params, now: real, ghost t: real) returns (root: MNode, ghost gone: MEntry)
    requires P.Sane() && P.variant == RStar && Fit(l, path != [], P, t) && l.level == 0 && PathOk(0, path, P, t)
    requires HasId(l.entries, id) && -MAX_DOUBLE < now <= t < MAX_DOUBLE
    ensures Fit(root, false, P, t) && gone.Item? && gone.id == id
    ensures Below(root.entries) + multiset{gone} == Below(l.entries) + Aside(path)
  {
    hide *;
    LeafFacts(l, path != [], P, t, id);
    var child := 0;
    while l.entries[child].id != id
      invariant child < |l.entries| && forall i :: 0 <= i < child ==> l.entries[i].id != id
      decreases |l.entries| - child
    {
      SomeLater(l.entries, child, id);
      child := child + 1;
    }
    gone := l.entries[child];
    BelowWithout(l.entries, child);
    ItemOnly(gone);
    var n := TakeOut(l, child, path != [], P, now, t);
    WaitingNone(0, P, t);
    HeldNone();
    var root1, todo := CondenseTree(n, path, [], P, now, t);
    root := ReinsertAll(root1, todo, P, now, t);
    Regroup3(Below(root.entries), multiset{gone}, Below(n.entries), Aside(path), Below(l.entries));
  }

  lemma Regroup3(r: multiset<MEntry>, g: multiset<MEntry>, n: multiset<MEntry>, a: multiset<MEntry>, l: multiset<MEntry>)
    requires r == n + a + multiset{} && l == n + g
    ensures r + g == l + a
  {
  }

  lemma ItemOnly(e: MEntry)
    requires e.Item?
    ensures Of(e) == multiset{e}
  {
  }

  lemma SomeLater(es: seq<MEntry>, child: nat, id: Id)
    requires HasId(es, id) && child < |es| && es[child].Item? && es[child].id != id
    requires forall i :: 0 <= i < |es| ==> es[i].Item?
    requires forall i :: 0 <= i < child ==> es[i].id != id
    ensures child + 1 < |es|
  {
    var i :| 0 <= i < |es| && es[i].Item? && es[i].id == id;
  }

  lemma LeafFacts(l: MNode, inner: bool, P: Params, t: real, id: Id)
    requires Fit(l, inner, P, t) && l.level == 0 && HasId(l.entries, id)
    ensures |l.entries| > 0 && forall i :: 0 <= i < |l.entries| ==> l.entries[i].Item?
  {
    LeafItems(l, P, t);
  }

  lemma WaitingNone(level: nat, P: Params, t: real)
    ensures Waiting([], level, P, t)
  {
  }

  method TakeOut(l: MNode, child: nat, inner: bool, P: Params, now: real, ghost t: real) returns (n: MNode)
    requires Fit(l, inner, P, t) && l.level == 0 && child < |l.entries| && -MAX_DOUBLE < now <= t < MAX_DOUBLE
    ensures Thin(n, inner, P, t) && n.level == 0 && n.entries == Without(l.entries, child)
  {
    hide Encloses, EntryOk;
    FitFacts(l, inner, P, t);
    var p := new TPRNode.Load(P.dim, P.Capacity(0), l);
    p.DeleteEntry(child, now, t);
    n := MNode(p.level, p.mbr, p.entries);
  }
}
