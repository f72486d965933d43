/** Deletion from the R-tree: finding the leaf, removing the entry, dissolving nodes that fall below
    the minimum load on the way up, shrinking the root, and putting back what was dissolved. */
module RTreeDeletion {
  import opened Geometry
  import opened Pages
  import opened IndexLists
  import opened Lists
  import opened RTreeNode
  import opened TreeSteps
  import opened RTreeModel
  import opened Subtrees

  ghost function HeldIds(todo: seq<Held>): set<Id> {
    set i | 0 <= i < |todo| :: todo[i].id
  }

  /** Every node on the stack lies on a higher level than the one pushed before it, all of them below
      `level`, and their pages are still stored. */
  ghost predicate Stacked(now: map<Id, Page>, todo: seq<Held>, level: nat) {
    && (forall i :: 0 <= i < |todo| ==>
          todo[i].id in now && now[todo[i].id] == todo[i].page && todo[i].page.level < level)
    && (forall i, j :: 0 <= i < j < |todo| ==> todo[i].page.level < todo[j].page.level)
  }

  /** The state of `condenseTree` at page `p`: the nodes on the stack are parentless, page `p` has
      lost an entry or refreshed one, and only its parent's copy of its box may be out of date. */
  ghost predicate CondensingAt(P: Params, now: map<Id, Page>, par: map<Id, Id>, root: Id, nodes: int, inLevel: seq<int>,
                               height: nat, p: Id, todo: seq<Held>, stale: set<Id>, thin: set<Id>) {
    && P.Sane() && p in now && Stacked(now, todo, now[p].level)
    && Tree(P, now, par, root, HeldIds(todo), stale, HeldIds(todo) + {p} + thin)
    && StatisticsOf(now, root, nodes, inLevel, height)
    && stale <= {p} - {root}
    && (!P.tight && now[p].entries != [] ==> stale == {})
    && Edge(now, root, todo, thin) && Unshared(now, todo, thin) && NoneEmpty(now, thin - {p})
    && (now[p].level > 0 ==> Thinned(now[p], todo, p in thin))
  }

  /** The nearly empty pages `thin` are below the root, on no stack, and above the leaves on different
      levels. */
  ghost predicate Edge(now: map<Id, Page>, root: Id, todo: seq<Held>, thin: set<Id>) {
    thin <= now.Keys - HeldIds(todo) - {root} && Apart(now, thin)
  }

  /** An index node that was pushed on the stack empty was the only nearly empty one on its level. */
  ghost predicate Unshared(now: map<Id, Page>, todo: seq<Held>, thin: set<Id>) {
    forall i, q :: 0 <= i < |todo| && q in thin && q in now && todo[i].page.level > 0 && todo[i].page.entries == [] ==>
      now[q].level != todo[i].page.level
  }

  ghost predicate NoneEmpty(now: map<Id, Page>, thin: set<Id>) {
    forall q :: q in thin && q in now ==> now[q].entries != []
  }

  /** An index page on the way up has two entries, or was nearly empty before, or has one entry just
      after its last but one child was pushed on the stack. */
  ghost predicate Thinned(n: Page, todo: seq<Held>, wasThin: bool) {
    |n.entries| >= 2 || wasThin || (|n.entries| == 1 && todo != [] && todo[|todo|-1].page.level + 1 == n.level)
  }

  /** The root page, while it is an index page with a single entry. */
  ghost function Lone(now: map<Id, Page>, root: Id): set<Id> {
    if root in now && now[root].level > 0 && |now[root].entries| < 2 then {root} else {}
  }

  /** After the last step of `condenseTree`: only the stack is left to put back. A stacked node may
      now lie on the root's own level; one does, and holds something, if the root has a single child. */
  ghost predicate CondensedAt(P: Params, now: map<Id, Page>, par: map<Id, Id>, root: Id, nodes: int, inLevel: seq<int>,
                              height: nat, todo: seq<Held>, thin: set<Id>) {
    && P.Sane()
    && Grove(P, now, par, root, HeldIds(todo), {}, HeldIds(todo) + thin + Lone(now, root))
    && StatisticsOf(now, root, nodes, inLevel, height)
    && (forall p :: p in now && p != root && p !in HeldIds(todo) ==> now[p].level < now[root].level)
    && Stacked(now, todo, now[root].level + 1)
    && Edge(now, root, todo, thin) && NoneEmpty(now, thin) && (Lone(now, root) != {} ==> Repaid(now[root], todo))
  }

  ghost predicate Repaid(n: Page, todo: seq<Held>) {
    && |n.entries| == 1 && todo != []
    && todo[|todo|-1].page.level == n.level && todo[|todo|-1].page.entries != []
  }

  lemma HeldPush(todo: seq<Held>, h: Held)
    ensures HeldIds(todo + [h]) == HeldIds(todo) + {h.id}
  {
    var more := todo + [h];
    assert more[|todo|] == h;
    forall k | k in HeldIds(todo) ensures k in HeldIds(more) {
      var i :| 0 <= i < |todo| && todo[i].id == k;
      assert more[i].id == k;
    }
  }

  /** What the code does to the parent when its child stays: it stores the child's box, and in a
      tight tree recomputes its own. */
  ghost function Refitted(P: Params, n: Page, i: nat, box: Region): Page
    requires i < |n.entries| && Boxes(n.entries, P.dim) && IsBox(box, P.dim)
  {
    var es := n.entries[i := Entry(box, n.entries[i].id, n.entries[i].data)];
    Page(n.level, if P.tight then Cover(es, P.dim) else n.mbr, es)
  }

  /** Facts about the page that is being condensed and its parent. */
  lemma StepFacts(P: Params, now: map<Id, Page>, par: map<Id, Id>, root: Id, nodes: int, inLevel: seq<int>,
                  height: nat, n: Id, todo: seq<Held>, stale: set<Id>, thin: set<Id>, path: seq<Id>)
    requires CondensingAt(P, now, par, root, nodes, inLevel, height, n, todo, stale, thin)
    requires PathTo(par, root, path, n) && path != []
    ensures Edge(now, root, todo, thin) && Unshared(now, todo, thin) && NoneEmpty(now, thin - {n})
    ensures
      var p := path[|path|-1];
      && n in par && par[n] == p && p in now && n in now && n in Kids(now[p]) && now[p].level == now[n].level + 1
      && PathTo(par, root, path[..|path|-1], p)
      && p !in HeldIds(todo) && n !in HeldIds(todo) && n != root && p != n
      && PageOk(P, now[p]) && PageOk(P, now[n]) && Boxes(now[p].entries, P.dim) && IsBox(now[n].mbr, P.dim)
      && IsBox(now[p].mbr, P.dim)
      && (|now[p].entries| >= 2 || (p in thin && now[p].entries != [])) && (now[n].level > 0 && now[n].entries == [] ==> n in thin)
      && DistinctIds(now[p].entries) && Fresh(now[p], now, stale)
      && Grove(P, now, par, root, HeldIds(todo), stale, HeldIds(todo) + {n} + thin) && UnderRoot(now, root)
      && StatisticsOf(now, root, nodes, inLevel, height) && P.Sane()
      && n !in path[..|path|-1]
  {
    var p := path[|path|-1];
    PathAbove(P, now, par, root, HeldIds(todo), stale, HeldIds(todo) + {n} + thin, path, n);
    assert p in path;
    Inspect(P, now, par, root, HeldIds(todo), stale, HeldIds(todo) + {n} + thin, p);
    assert n in Kids(now[p]);
    assert n in path[..|path|-1] ==> n in path;
  }

  /** A node below the minimum load is taken out of its parent and pushed on the stack. */
  lemma DropStep(P: Params, now: map<Id, Page>, par: map<Id, Id>, root: Id, nodes: int, inLevel: seq<int>,
                 height: nat, n: Id, todo: seq<Held>, stale: set<Id>, thin: set<Id>, path: seq<Id>, i: nat)
    returns (par': map<Id, Id>, stale': set<Id>)
    requires CondensingAt(P, now, par, root, nodes, inLevel, height, n, todo, stale, thin)
    requires PathTo(par, root, path, n) && path != [] && path[|path|-1] in now
    requires i < |now[path[|path|-1]].entries| && now[path[|path|-1]].entries[i].id == n
    ensures Boxes(now[path[|path|-1]].entries, P.dim) && n in now
    ensures
      var p := path[|path|-1];
      var now' := now[p := Shrunk(P, now[p], i)];
      && CondensingAt(P, now', par', root, nodes, inLevel, height, p, todo + [Held(n, now[n])], stale', thin - {n})
      && PathTo(par', root, path[..|path|-1], p)
      && Data(now') == Data(now)
  {
    hide *;
    StepFacts(P, now, par, root, nodes, inLevel, height, n, todo, stale, thin, path);
    var p := path[|path|-1];
    DropFacts(P, now, par, root, nodes, inLevel, height, n, todo, stale, thin, p, i);
    DropLevels(P, now, n, p, todo, i, p in thin);
    DropEdge(now, root, n, p, todo, thin, Shrunk(P, now[p], i));
    var ids, more := HeldIds(todo), todo + [Held(n, now[n])];
    var now';
    now', par', stale' := Detach(P, now, par, root, ids, stale, ids + {n} + thin, p, i);
    PathFrame(par, par', root, path[..|path|-1], p);
    assert ids + {n} + thin + {p} == HeldIds(more) + {p} + (thin - {n});
    DropAssemble(P, now, now', par', root, nodes, inLevel, height, p, more, stale', thin - {n}, Shrunk(P, now[p], i));
  }

  lemma DropFacts(P: Params, now: map<Id, Page>, par: map<Id, Id>, root: Id, nodes: int, inLevel: seq<int>,
                  height: nat, n: Id, todo: seq<Held>, stale: set<Id>, thin: set<Id>, p: Id, i: nat)
    requires CondensingAt(P, now, par, root, nodes, inLevel, height, n, todo, stale, thin)
    requires p in now && now[p].level == now[n].level + 1 && i < |now[p].entries| && now[p].entries[i].id == n
    ensures HeldIds(todo + [Held(n, now[n])]) == HeldIds(todo) + {n} && Stacked(now, todo, now[n].level)
    ensures Piece(now[p].level, now[p].entries[i]) == {n} && Gain(now[p].level, now[p].entries[i]) == multiset{}
    ensures stale <= {n} && Shrunk(P, now[p], i).level == now[p].level
  {
    HeldPush(todo, Held(n, now[n]));
  }

  /** The nearly empty pages when page `n` goes on the stack. */
  lemma DropEdge(now: map<Id, Page>, root: Id, n: Id, p: Id, todo: seq<Held>, thin: set<Id>, n': Page)
    requires n in now && p in now && p != n && n'.level == now[p].level
    requires Edge(now, root, todo, thin) && Unshared(now, todo, thin) && NoneEmpty(now, thin - {n})
    requires now[n].level > 0 && now[n].entries == [] ==> n in thin
    ensures
      var now', more := now[p := n'], todo + [Held(n, now[n])];
      Edge(now', root, more, thin - {n}) && Unshared(now', more, thin - {n}) && NoneEmpty(now', thin - {n} - {p})
  {
    HeldPush(todo, Held(n, now[n]));
  }

  lemma DropLevels(P: Params, now: map<Id, Page>, n: Id, p: Id, todo: seq<Held>, i: nat, wasThin: bool)
    requires n in now && p in now && now[p].level == now[n].level + 1 && Stacked(now, todo, now[n].level)
    requires i < |now[p].entries| && Boxes(now[p].entries, P.dim) && (|now[p].entries| >= 2 || wasThin)
    requires p !in HeldIds(todo)
    ensures
      var n', more := Shrunk(P, now[p], i), todo + [Held(n, now[n])];
      && Stacked(now[p := n'], more, n'.level) && n'.level == now[p].level
      && Thinned(n', more, wasThin) && (!P.tight && n'.entries != [] ==> n'.mbr == now[p].mbr)
  {
    var more := todo + [Held(n, now[n])];
    assert forall j :: 0 <= j < |todo| ==> more[j] == todo[j] && todo[j].id in HeldIds(todo);
    hide Cover;
  }

  lemma DropAssemble(P: Params, now: map<Id, Page>, now': map<Id, Page>, par': map<Id, Id>, root: Id, nodes: int, inLevel: seq<int>,
                     height: nat, p: Id, more: seq<Held>, stale': set<Id>, thin: set<Id>, n': Page)
    requires P.Sane() && p in now && now' == now[p := n'] && n'.level == now[p].level && UnderRoot(now, root)
    requires StatisticsOf(now, root, nodes, inLevel, height)
    requires Stacked(now', more, n'.level) && (n'.level > 0 ==> Thinned(n', more, p in thin))
    requires Edge(now', root, more, thin) && Unshared(now', more, thin) && NoneEmpty(now', thin - {p})
    requires !P.tight && n'.entries != [] ==> n'.mbr == now[p].mbr
    requires stale' == if p == root || now'[p].mbr == now[p].mbr then {} else {p}
    requires Grove(P, now', par', root, HeldIds(more), stale', HeldIds(more) + {p} + thin)
    ensures CondensingAt(P, now', par', root, nodes, inLevel, height, p, more, stale', thin)
  {
    hide Grove, Stacked, Edge, Unshared, NoneEmpty;
    CountUpdate(now, p, n', nodes, inLevel);
  }

  /** A node that keeps enough entries stays, and its parent takes over its box. */
  lemma KeepStep(P: Params, now: map<Id, Page>, par: map<Id, Id>, root: Id, nodes: int, inLevel: seq<int>,
                 height: nat, n: Id, todo: seq<Held>, stale: set<Id>, thin: set<Id>, path: seq<Id>, i: nat)
    returns (stale': set<Id>)
    requires CondensingAt(P, now, par, root, nodes, inLevel, height, n, todo, stale, thin)
    requires PathTo(par, root, path, n) && path != [] && path[|path|-1] in now
    requires i < |now[path[|path|-1]].entries| && now[path[|path|-1]].entries[i].id == n
    requires |now[n].entries| >= 2
    ensures Boxes(now[path[|path|-1]].entries, P.dim) && n in now && IsBox(now[n].mbr, P.dim)
    ensures
      var p := path[|path|-1];
      var now' := now[p := Refitted(P, now[p], i, now[n].mbr)];
      && CondensingAt(P, now', par, root, nodes, inLevel, height, p, todo, stale', thin)
      && PathTo(par, root, path[..|path|-1], p)
      && Data(now') == Data(now)
  {
    StepFacts(P, now, par, root, nodes, inLevel, height, n, todo, stale, thin, path);
    var p, ids := path[|path|-1], HeldIds(todo);
    var n' := Refitted(P, now[p], i, now[n].mbr);
    KeepPage(P, now, n, p, todo, stale, i, p in thin);
    KeepEdge(now, root, n, p, todo, thin, n');
    assert Filled(now, root, ids + {p} + thin);
    assert Grove(P, now, par, root, ids, stale, ids + {p} + thin);
    assert Tree(P, now, par, root, ids, stale, ids + {p} + thin);
    hide *;
    stale' := Refit(P, now, par, root, ids, stale, ids + {p} + thin, p, i, n', {});
    OnlyBoxesSame(now, now[p := n'], {}, nodes, inLevel);
    KeepAssemble(P, now, par, root, nodes, inLevel, height, p, todo, stale', thin, n');
  }

  lemma KeepEdge(now: map<Id, Page>, root: Id, n: Id, p: Id, todo: seq<Held>, thin: set<Id>, n': Page)
    requires n in now && p in now && n'.level == now[p].level && now[n].entries != []
    requires Edge(now, root, todo, thin) && Unshared(now, todo, thin) && NoneEmpty(now, thin - {n})
    ensures Edge(now[p := n'], root, todo, thin) && Unshared(now[p := n'], todo, thin) && NoneEmpty(now[p := n'], thin - {p})
  {
  }

  lemma KeepPage(P: Params, now: map<Id, Page>, n: Id, p: Id, todo: seq<Held>, stale: set<Id>, i: nat, wasThin: bool)
    requires n in now && p in now && now[p].level == now[n].level + 1 && Stacked(now, todo, now[n].level)
    requires PageOk(P, now[p]) && PageOk(P, now[n]) && Boxes(now[p].entries, P.dim) && IsBox(now[n].mbr, P.dim)
    requires i < |now[p].entries| && now[p].entries[i].id == n && (|now[p].entries| >= 2 || wasThin)
    requires Fresh(now[p], now, stale) && (!P.tight ==> stale == {}) && stale <= {n}
    requires p !in HeldIds(todo)
    ensures
      var n' := Refitted(P, now[p], i, now[n].mbr);
      && n'.level == now[p].level && |n'.entries| == |now[p].entries|
      && n'.entries == now[p].entries[i := Entry(now[n].mbr, n, now[p].entries[i].data)]
      && Bounds(P, n'.mbr, n'.entries) && (!P.tight ==> n'.mbr == now[p].mbr)
      && Stacked(now[p := n'], todo, n'.level) && Thinned(n', todo, wasThin)
  {
    var n' := Refitted(P, now[p], i, now[n].mbr);
    assert Boxes(n'.entries, P.dim);
    assert forall j :: 0 <= j < |todo| ==> todo[j].id in HeldIds(todo);
  }

  lemma KeepAssemble(P: Params, now: map<Id, Page>, par: map<Id, Id>, root: Id, nodes: int, inLevel: seq<int>,
                     height: nat, p: Id, todo: seq<Held>, stale': set<Id>, thin: set<Id>, n': Page)
    requires P.Sane() && p in now && n'.level == now[p].level && |n'.entries| >= 1
    requires Stacked(now[p := n'], todo, n'.level) && Thinned(n', todo, p in thin)
    requires Edge(now[p := n'], root, todo, thin) && Unshared(now[p := n'], todo, thin) && NoneEmpty(now[p := n'], thin - {p})
    requires StatisticsOf(now, root, nodes, inLevel, height)
    requires stale' == if p == root || n'.mbr == now[p].mbr then {} else {p}
    requires !P.tight ==> n'.mbr == now[p].mbr
    requires Tree(P, now[p := n'], par, root, HeldIds(todo), stale', HeldIds(todo) + {p} + thin)
    ensures CondensingAt(P, now[p := n'], par, root, nodes, inLevel, height, p, todo, stale', thin)
  {
    hide Tree, Stacked, Edge, Unshared, NoneEmpty;
    CountUpdate(now, p, n', nodes, inLevel);
  }

  // ---------------------------------------------------------------- the root

  /** `condenseTree` has reached a root that keeps its level. */
  lemma RootStays(P: Params, now: map<Id, Page>, par: map<Id, Id>, root: Id, nodes: int, inLevel: seq<int>,
                  height: nat, todo: seq<Held>, stale: set<Id>, thin: set<Id>)
    requires CondensingAt(P, now, par, root, nodes, inLevel, height, root, todo, stale, thin)
    requires now[root].level == 0 || |now[root].entries| != 1
    ensures CondensedAt(P, now, par, root, nodes, inLevel, height, todo, thin)
  {
  }

  /** The facts behind the shrinking of a root with one child. */
  lemma ShrinkFacts(P: Params, now: map<Id, Page>, par: map<Id, Id>, root: Id, nodes: int, inLevel: seq<int>,
                    height: nat, todo: seq<Held>, stale: set<Id>, thin: set<Id>)
    requires CondensingAt(P, now, par, root, nodes, inLevel, height, root, todo, stale, thin)
    requires now[root].level > 0 && |now[root].entries| == 1
    ensures P.Sane() && stale == {} && todo != [] && height == |inLevel| == now[root].level + 1 && inLevel[height-1] == 1
    ensures Grove(P, now, par, root, HeldIds(todo), {}, HeldIds(todo) + {root} + thin)
    ensures Edge(now, root, todo, thin) && Unshared(now, todo, thin) && NoneEmpty(now, thin) && Stacked(now, todo, now[root].level)
    ensures
      var c, o := now[root].entries[0].id, todo[|todo|-1].id;
      && Kids(now[root]) == {c} && c in now && c != root && c !in HeldIds(todo) && now[c].level + 1 == now[root].level
      && o in now && now[o].level == now[c].level && o != c && o != root && now[c].level + 1 < |inLevel|
      && (forall q :: q in now && q != c && q != root && q != o ==> now[q].level < now[c].level)
      && (now[c].level == 0 || |now[c].entries| >= 2 || c in thin)
  {
    var c, o := now[root].entries[0].id, todo[|todo|-1].id;
    assert Kids(now[root]) == {c};
    assert c in Kids(now[root]);
    assert o in HeldIds(todo);
    OneRoot(now, root);
    forall q | q in now && q != c && q != root && q != o ensures now[q].level < now[c].level {
      if q in HeldIds(todo) {
        var i :| 0 <= i < |todo| && todo[i].id == q;
        assert i < |todo| - 1;
        assert todo[i].page.level < todo[|todo|-1].page.level;
      } else {
        assert q in par && q in Kids(now[par[q]]);
        assert par[q] != root;
      }
    }
  }

  /** Root shrink, with the counter of the new top level set to two in advance: one for the root and
      one for the node on the stack that lies on the same level. */
  lemma ShrinkRoot(P: Params, now: map<Id, Page>, par: map<Id, Id>, root: Id, nodes: int, inLevel: seq<int>,
                   height: nat, todo: seq<Held>, stale: set<Id>, thin: set<Id>)
    returns (par': map<Id, Id>)
    requires CondensingAt(P, now, par, root, nodes, inLevel, height, root, todo, stale, thin)
    requires now[root].level > 0 && |now[root].entries| == 1
    ensures now[root].entries[0].id in now && height >= 2 && |inLevel| == height
    ensures
      var c := now[root].entries[0].id;
      var now' := (now - {c})[root := now[c]];
      && CondensedAt(P, now', par', root, nodes - 1, inLevel[..height-1][height-2 := 2], height - 1, todo, thin - {c})
      && Data(now') == Data(now)
  {
    ShrinkFacts(P, now, par, root, nodes, inLevel, height, todo, stale, thin);
    var c, o := now[root].entries[0].id, todo[|todo|-1].id;
    var now' := (now - {c})[root := now[c]];
    assert StatisticsOf(now, root, nodes, inLevel, height);
    ShrinkStack(now, todo, root, c);
    ShrinkEdge(now, todo, root, c, thin);
    hide *;
    par' := LowerRoot(P, now, par, root, HeldIds(todo), HeldIds(todo) + {root} + thin, c, HeldIds(todo) + (thin - {c}) + Lone(now', root));
    ShrinkStatistics(now, root, c, o, nodes, inLevel, height);
    ShrinkAssemble(P, now', par', root, nodes - 1, inLevel[..height-1][height-2 := 2], height - 1, todo, thin - {c});
  }

  /** If the new root has a single child, then the dissolved sibling of its page holds something, since
      no two index pages of one level were nearly empty. */
  lemma ShrinkEdge(now: map<Id, Page>, todo: seq<Held>, root: Id, c: Id, thin: set<Id>)
    requires root in now && c in now && c != root && todo != [] && todo[|todo|-1].page.level == now[c].level
    requires Edge(now, root, todo, thin) && Unshared(now, todo, thin) && NoneEmpty(now, thin)
    requires now[c].level == 0 || |now[c].entries| >= 2 || c in thin
    ensures
      var now' := (now - {c})[root := now[c]];
      && Edge(now', root, todo, thin - {c}) && NoneEmpty(now', thin - {c})
      && (Lone(now', root) != {} ==> Repaid(now'[root], todo))
      && (root in Lone(now', root) || now[c].level == 0 || |now[c].entries| >= 2)
  {
  }

  lemma ShrinkStack(now: map<Id, Page>, todo: seq<Held>, root: Id, c: Id)
    requires root in now && c in now && c != root && Stacked(now, todo, now[root].level) && c !in HeldIds(todo)
    requires now[c].level + 1 == now[root].level
    requires todo != [] && forall q :: q in now && q != c && q != root && q != todo[|todo|-1].id ==> now[q].level < now[c].level
    ensures Stacked((now - {c})[root := now[c]], todo, now[c].level + 1)
    ensures forall p :: p in (now - {c})[root := now[c]] && p != root && p !in HeldIds(todo) ==> (now - {c})[root := now[c]][p].level < now[c].level
  {
    assert forall i :: 0 <= i < |todo| ==> todo[i].id in HeldIds(todo);
    forall i | 0 <= i < |todo| ensures todo[i].id != root {
    }
  }

  lemma ShrinkAssemble(P: Params, now: map<Id, Page>, par: map<Id, Id>, root: Id, nodes: int, inLevel: seq<int>,
                       height: nat, todo: seq<Held>, thin: set<Id>)
    requires P.Sane() && StatisticsOf(now, root, nodes, inLevel, height)
    requires Grove(P, now, par, root, HeldIds(todo), {}, HeldIds(todo) + thin + Lone(now, root))
    requires Stacked(now, todo, now[root].level + 1)
    requires Edge(now, root, todo, thin) && NoneEmpty(now, thin) && (Lone(now, root) != {} ==> Repaid(now[root], todo))
    requires forall p :: p in now && p != root && p !in HeldIds(todo) ==> now[p].level < now[root].level
    ensures CondensedAt(P, now, par, root, nodes, inLevel, height, todo, thin)
  {
  }

  lemma ShrinkStatistics(now: map<Id, Page>, root: Id, c: Id, o: Id, nodes: int, inLevel: seq<int>, height: nat)
    requires StatisticsOf(now, root, nodes, inLevel, height)
    requires c in now && o in now && c != root && o != root && o != c
    requires now[c].level == now[o].level && now[c].level + 1 == now[root].level
    requires forall q :: q in now && q != c && q != root && q != o ==> now[q].level < now[c].level
    ensures height >= 2 && |inLevel| == height
    ensures StatisticsOf((now - {c})[root := now[c]], root, nodes - 1, inLevel[..height-1][height-2 := 2], height - 1)
  {
    var now', top := (now - {c})[root := now[c]], height - 2;
    var less := inLevel[..height-1][top := 2];
    assert now'.Keys == now.Keys - {c};
    forall l | 0 <= l < |less| ensures less[l] == |AtLevel(now', l)| {
      if l == top {
        forall q ensures q in AtLevel(now', l) <==> q in {root, o} {
        }
        assert AtLevel(now', l) == {root, o};
      } else {
        assert AtLevel(now', l) == AtLevel(now, l);
      }
    }
  }

  // ---------------------------------------------------------------- putting the stack back

  lemma HeldPop(rest: seq<Held>, o: Held)
    ensures HeldIds(rest + [o]) == HeldIds(rest) + {o.id}
    ensures o.id in HeldIds(rest + [o])
  {
    HeldPush(rest, o);
  }

  /** The topmost node of the stack is dissolved: its page goes away, its entries wait. */
  lemma DissolveTop(P: Params, now: map<Id, Page>, par: map<Id, Id>, root: Id, nodes: int, inLevel: seq<int>,
                    height: nat, rest: seq<Held>, o: Held, thin: set<Id>)
    returns (par': map<Id, Id>)
    requires CondensedAt(P, now, par, root, nodes, inLevel, height, rest + [o], thin)
    ensures o.id in now && o.page == now[o.id] && o.page.level < |inLevel| && o.id != root && root in now
    ensures o.page.level <= now[root].level
    ensures
      var level, now' := o.page.level, now - {o.id};
      && BetweenAt(P, now', par', root, HeldIds(rest) + Pieces(level, o.page.entries), {}, HeldIds(rest) + thin + Lone(now, root),
                   nodes - 1, inLevel[level := inLevel[level] - 1], height)
      && Edge(now', root, rest, thin) && root !in HeldIds(rest) + thin && (Lone(now, root) != {} ==> Repaid(now[root], rest + [o]))
      && Waiting(P, now', HeldIds(rest), level, o.page.entries)
      && Data(now') + Loads(level, o.page.entries) == Data(now)
      && Stacked(now', rest, level)
  {
    HeldPop(rest, o);
    hide *;
    TopFacts(P, now, par, root, nodes, inLevel, height, rest, o, thin);
    var ids, base, now' := HeldIds(rest + [o]), HeldIds(rest), now - {o.id};
    var level, es, loose := o.page.level, o.page.entries, HeldIds(rest) + thin + Lone(now, root);
    par' := Dissolve(P, now, par, root, ids, ids + thin + Lone(now, root), o.id);
    TopStatistics(now, root, o.id, nodes, inLevel, height);
    TopWaiting(P, now', base, level, es, Kids(o.page));
    AssembleAt(P, now', par', root, base + Pieces(level, es), {}, loose, nodes - 1, inLevel[level := inLevel[level] - 1], height);
  }

  lemma TopFacts(P: Params, now: map<Id, Page>, par: map<Id, Id>, root: Id, nodes: int, inLevel: seq<int>,
                 height: nat, rest: seq<Held>, o: Held, thin: set<Id>)
    requires CondensedAt(P, now, par, root, nodes, inLevel, height, rest + [o], thin)
    ensures o.id in now && o.page == now[o.id] && o.id in HeldIds(rest + [o]) && o.page.level < |inLevel| && P.Sane()
    ensures o.id != root && root in now && o.page.level <= now[root].level
    ensures
      var ids, loose := HeldIds(rest + [o]), HeldIds(rest + [o]) + thin + Lone(now, root);
      && Grove(P, now, par, root, ids, {}, loose) && Solid(now, ids, loose)
      && loose - {o.id} == HeldIds(rest) + thin + Lone(now, root)
    ensures Edge(now - {o.id}, root, rest, thin) && root !in HeldIds(rest) + thin
    ensures Lone(now, root) != {} ==> Repaid(now[root], rest + [o])
    ensures StatisticsOf(now, root, nodes, inLevel, height)
    ensures UnderRoot(now - {o.id}, root) && Stacked(now - {o.id}, rest, o.page.level)
    ensures HeldIds(rest + [o]) - {o.id} == HeldIds(rest)
    ensures Kids(o.page) == Pieces(o.page.level, o.page.entries)
    ensures Kids(o.page) !! HeldIds(rest + [o])
  {
    hide *;
    CondensedParts(P, now, par, root, nodes, inLevel, height, rest + [o], thin);
    TopStack(now, root, rest, o);
    TopEdge(now, root, rest, o, thin);
    Inspect(P, now, par, root, HeldIds(rest + [o]), {}, HeldIds(rest + [o]) + thin + Lone(now, root), o.id);
    KidsPieces(o.page);
  }

  lemma KidsPieces(n: Page)
    ensures Kids(n) == Pieces(n.level, n.entries)
  {
  }

  lemma CondensedParts(P: Params, now: map<Id, Page>, par: map<Id, Id>, root: Id, nodes: int, inLevel: seq<int>,
                       height: nat, todo: seq<Held>, thin: set<Id>)
    requires CondensedAt(P, now, par, root, nodes, inLevel, height, todo, thin)
    ensures P.Sane() && root in now && root !in HeldIds(todo) && |inLevel| == now[root].level + 1
    ensures Grove(P, now, par, root, HeldIds(todo), {}, HeldIds(todo) + thin + Lone(now, root)) && StatisticsOf(now, root, nodes, inLevel, height)
    ensures forall p :: p in now && p != root && p !in HeldIds(todo) ==> now[p].level < now[root].level
    ensures Stacked(now, todo, now[root].level + 1)
    ensures Edge(now, root, todo, thin) && NoneEmpty(now, thin) && (Lone(now, root) != {} ==> Repaid(now[root], todo))
  {
  }

  lemma TopStack(now: map<Id, Page>, root: Id, rest: seq<Held>, o: Held)
    requires root in now && Stacked(now, rest + [o], now[root].level + 1) && root !in HeldIds(rest + [o])
    requires forall p :: p in now && p != root && p !in HeldIds(rest + [o]) ==> now[p].level < now[root].level
    ensures o.id in now && now[o.id] == o.page && o.id in HeldIds(rest + [o]) && o.id != root && o.page.level <= now[root].level
    ensures UnderRoot(now - {o.id}, root) && Stacked(now - {o.id}, rest, o.page.level)
    ensures HeldIds(rest + [o]) - {o.id} == HeldIds(rest)
  {
    HeldPop(rest, o);
    var more := rest + [o];
    assert more[|rest|] == o;
    assert forall i :: 0 <= i < |rest| ==> more[i] == rest[i];
    assert forall i :: 0 <= i < |rest| ==> rest[i].page.level < o.page.level && now[rest[i].id] == rest[i].page;
    assert o.id !in HeldIds(rest);
    forall q | q in now - {o.id} && q != root ensures now[q].level < now[root].level {
      if q in HeldIds(more) {
        var i :| 0 <= i < |rest| && rest[i].id == q;
      }
    }
  }

  lemma TopEdge(now: map<Id, Page>, root: Id, rest: seq<Held>, o: Held, thin: set<Id>)
    requires root in now && Stacked(now, rest + [o], now[root].level + 1) && root !in HeldIds(rest + [o])
    requires Edge(now, root, rest + [o], thin) && NoneEmpty(now, thin) && (Lone(now, root) != {} ==> Repaid(now[root], rest + [o]))
    ensures Edge(now - {o.id}, root, rest, thin) && o.id !in HeldIds(rest) && root !in HeldIds(rest) + thin
    ensures
      var ids, loose := HeldIds(rest + [o]), HeldIds(rest + [o]) + thin + Lone(now, root);
      Solid(now, ids, loose) && loose - {o.id} == HeldIds(rest) + thin + Lone(now, root)
  {
    HeldPop(rest, o);
    var more := rest + [o];
    assert more[|rest|] == o;
    assert forall i :: 0 <= i < |rest| ==> more[i] == rest[i];
    hide Repaid;
    assert Lone(now, root) != {} ==> now[root].entries != [] by {
      if Lone(now, root) != {} {
        SingleEntry(now[root], more);
      }
    }
  }

  lemma SingleEntry(n: Page, todo: seq<Held>)
    requires Repaid(n, todo)
    ensures n.entries != []
  {
  }

  lemma TopStatistics(now: map<Id, Page>, root: Id, o: Id, nodes: int, inLevel: seq<int>, height: nat)
    requires StatisticsOf(now, root, nodes, inLevel, height) && o in now && o != root && now[o].level < |inLevel|
    ensures StatisticsOf(now - {o}, root, nodes - 1, inLevel[now[o].level := inLevel[now[o].level] - 1], height)
  {
    CountRemove(now, o, nodes, inLevel);
  }

  lemma TopWaiting(P: Params, now: map<Id, Page>, base: set<Id>, level: nat, es: seq<Entry>, kids: set<Id>)
    requires forall i :: 0 <= i < |es| ==> Insertable(P, now, base + kids, level, es[i])
    requires kids == Pieces(level, es) && kids !! base && (level > 0 ==> DistinctIds(es))
    ensures Waiting(P, now, base, level, es)
  {
  }

  /** The stack below a node that was put back is still as it was. */
  lemma StackKept(before: map<Id, Page>, after: map<Id, Page>, root: Id, rest: seq<Held>, level: nat, gain: multiset<Entry>,
                  thin: set<Id>, loose: set<Id>)
    requires Stacked(before, rest, level) && Grown(before, after, root, HeldIds(rest), gain) && level <= before[root].level
    requires Edge(before, root, rest, thin) && HeldIds(rest) + thin - {root} <= loose <= HeldIds(rest) + thin && root !in HeldIds(rest)
    ensures Stacked(after, rest, after[root].level + 1) && Edge(after, root, rest, thin) && loose == HeldIds(rest) + thin
  {
    assert forall q :: q in thin ==> q in before && q in after;
    assert forall i :: 0 <= i < |rest| ==> rest[i].id in HeldIds(rest);
    ApartLater(before, after, root, thin, thin);
  }

  lemma BetweenCondensed(P: Params, now: map<Id, Page>, par: map<Id, Id>, root: Id, nodes: int, inLevel: seq<int>,
                         height: nat, todo: seq<Held>, thin: set<Id>)
    requires BetweenAt(P, now, par, root, HeldIds(todo), {}, HeldIds(todo) + thin, nodes, inLevel, height)
    requires Stacked(now, todo, now[root].level + 1) && Edge(now, root, todo, thin)
    ensures CondensedAt(P, now, par, root, nodes, inLevel, height, todo, thin)
  {
    assert Filled(now, root, HeldIds(todo) + thin) && root !in HeldIds(todo) + thin;
    assert Lone(now, root) == {};
    assert HeldIds(todo) + thin + {} == HeldIds(todo) + thin;
  }

  lemma CondensedDone(P: Params, now: map<Id, Page>, par: map<Id, Id>, root: Id, nodes: int, inLevel: seq<int>, height: nat, thin: set<Id>)
    requires CondensedAt(P, now, par, root, nodes, inLevel, height, [], thin)
    ensures BetweenAt(P, now, par, root, {}, {}, thin, nodes, inLevel, height) && Apart(now, thin) && root !in thin
  {
    assert HeldIds([]) == {} && Lone(now, root) == {};
    assert HeldIds([]) + thin + Lone(now, root) == thin;
    assert UnderRoot(now, root);
  }

  // ---------------------------------------------------------------- condensing

  ghost predicate Condensing(t: RTree, p: Id, todo: seq<Held>, stale: set<Id>, thin: set<Id>)
    reads t`pages, t`par, t`rootID, t`nodes, t`nodesInLevel, t`treeHeight, t`levels, t`mark, t`markHeight
  {
    CondensingAt(t.P, t.pages, t.par, t.rootID, t.nodes, t.levels, t.treeHeight, p, todo, stale, thin) && t.Follows()
  }

  ghost predicate Condensed(t: RTree, todo: seq<Held>, thin: set<Id>)
    reads t`pages, t`par, t`rootID, t`nodes, t`nodesInLevel, t`treeHeight, t`levels, t`mark, t`markHeight
  {
    CondensedAt(t.P, t.pages, t.par, t.rootID, t.nodes, t.levels, t.treeHeight, todo, thin) && t.Follows()
  }

  /** A node of `level` with `count` entries holds less than the fill factor's part of its capacity. */
  ghost predicate Underfull(level: nat, count: nat, P: Params) {
    count < ((if level == 0 then P.leafCapacity else P.indexCapacity) as real * P.fillFactor).Floor
  }

  lemma UnderfullMeans(level: nat, count: nat, P: Params)
    ensures Underfull(level, count, P) <==> count < P.MinimumLoad(P.Capacity(level))
  {
  }

  /** Nodes were added to the stack, all of them underfull. */
  ghost predicate Piled(todo: seq<Held>, more: seq<Held>, P: Params) {
    todo <= more && forall i :: |todo| <= i < |more| ==> Underfull(more[i].page.level, |more[i].page.entries|, P)
  }

  lemma PiledOn(todo: seq<Held>, x: Held, now: seq<Held>, more: seq<Held>, P: Params)
    requires now == todo || (now == todo + [x] && Underfull(x.page.level, |x.page.entries|, P))
    requires Piled(now, more, P)
    ensures Piled(todo, more, P) && (now == todo + [x] ==> |todo| < |more| && more[|todo|] == x)
  {
    if now == todo + [x] {
      assert todo == now[..|todo|] == more[..|now|][..|todo|] == more[..|todo|];
      assert more[|todo|] == more[..|now|][|todo|] == now[|todo|] == x;
    }
  }

  /** `condenseTree`: from node `n`, which has lost an entry, up to the root. */
  method CondenseTree(t: RTree, n: Node, path: seq<Id>, todo: seq<Held>, ghost stale: set<Id>, ghost thin: set<Id>)
    returns (toReinsert: seq<Held>, ghost thin': set<Id>)
    requires Condensing(t, n.identifier, todo, stale, thin) && t.Written(n, path)
    modifies t`pages, t`par, t`nodes, t`nodesInLevel, t`levels, t`treeHeight, t`mark, t`markHeight
    decreases |path|
    ensures Condensed(t, toReinsert, thin') && thin' <= thin
    ensures Data(t.pages) == old(Data(t.pages))
    ensures Piled(todo, toReinsert, t.P)
    ensures path != [] && Underfull(n.level, |n.entries|, t.P) ==>
      |toReinsert| > |todo| && toReinsert[|todo|] == Held(n.identifier, Page(n.level, n.mbr, n.entries))
    ensures if t.treeHeight == old(t.treeHeight) then t.mark == old(t.mark) && t.markHeight == old(t.markHeight)
            else t.markHeight == t.treeHeight == old(t.treeHeight) - 1 && t.mark == AfterLower(old(t.Lag()))
  {
    hide CondensingAt, CondensedAt, Data, Underfull;
    if path == [] {
      toReinsert := todo;
      thin' := EliminateRoot(t, n, todo, stale, thin);
    } else {
      var ptrParent;
      ghost var stale';
      ptrParent, toReinsert, stale', thin' := CondenseParent(t, n, path, todo, stale, thin);
      ghost var now := toReinsert;
      toReinsert, thin' := CondenseTree(t, ptrParent, path[..|path|-1], toReinsert, stale', thin');
      PiledOn(todo, Held(n.identifier, Page(n.level, n.mbr, n.entries)), now, toReinsert, t.P);
    }
  }

  /** What the step from node `n` to its parent needs to know. */
  lemma ParentFacts(t: RTree, n: Node, path: seq<Id>, todo: seq<Held>, stale: set<Id>, thin: set<Id>)
    requires Condensing(t, n.identifier, todo, stale, thin) && t.Written(n, path) && path != []
    ensures
      var p := path[|path|-1];
      && p >= 0 && p in t.pages && t.pages[p].level > 0 && n.identifier in Kids(t.pages[p]) && n.identifier in t.pages
      && Boxes(t.pages[p].entries, t.P.dim) && IsBox(t.pages[p].mbr, t.P.dim) && IsBox(n.mbr, t.P.dim)
      && (path[..|path|-1] != [] ==> path[|path|-2] in t.pages)
    ensures t.P.MinimumLoad(t.P.Capacity(n.level)) >= 2
    ensures PathTo(t.par, t.rootID, path, n.identifier) && n.Rec() == t.pages[n.identifier]
  {
    StepFacts(t.P, t.pages, t.par, t.rootID, t.nodes, t.levels, t.treeHeight, n.identifier, todo, stale, thin, path);
    PathAbove(t.P, t.pages, t.par, t.rootID, HeldIds(todo), stale, HeldIds(todo) + {n.identifier} + thin, path, n.identifier);
    assert |path| >= 2 ==> path[|path|-2] in path;
  }

  /** The step from node `n` to its parent: `n` is dropped or its box is refreshed there. */
  method CondenseParent(t: RTree, n: Node, path: seq<Id>, todo: seq<Held>, ghost stale: set<Id>, ghost thin: set<Id>)
    returns (p: Node, todo': seq<Held>, ghost stale': set<Id>, ghost thin': set<Id>)
    requires Condensing(t, n.identifier, todo, stale, thin) && t.Written(n, path) && path != []
    modifies t`pages, t`par
    ensures fresh(p) && Condensing(t, p.identifier, todo', stale', thin') && thin' <= thin && t.Written(p, path[..|path|-1])
    ensures Data(t.pages) == old(Data(t.pages))
    ensures todo' == if Underfull(n.level, |n.entries|, t.P) then todo + [Held(n.identifier, Page(n.level, n.mbr, n.entries))] else todo
  {
    ParentFacts(t, n, path, todo, stale, thin);
    UnderfullMeans(n.level, |n.entries|, t.P);
    thin' := thin;
    hide CondensingAt, Data, PathTo, Kids, Boxes, Underfull, Params.MinimumLoad, Params.Capacity;
    p := t.ReadNode(path[|path|-1]);
    var child := t.FindChild(p, n.identifier);
    var minimumLoad := t.P.MinimumLoad(t.P.Capacity(n.level));
    if |n.entries| < minimumLoad {
      stale' := DropChild(t, p, child, n, path, todo, stale, thin);
      thin' := thin - {n.identifier};
      todo' := todo + [Held(n.identifier, Page(n.level, n.mbr, n.entries))];
    } else {
      stale' := RefreshChild(t, p, child, n, path, todo, stale, thin);
      todo' := todo;
    }
  }

  method DropChild(t: RTree, p: Node, child: nat, n: Node, ghost path: seq<Id>, ghost todo: seq<Held>, ghost stale: set<Id>, ghost thin: set<Id>)
    returns (ghost stale': set<Id>)
    requires Condensing(t, n.identifier, todo, stale, thin) && path != [] && PathTo(t.par, t.rootID, path, n.identifier)
    requires n.identifier in t.pages && n.Rec() == t.pages[n.identifier] && p != n
    requires p.P == t.P && p.identifier == path[|path|-1] && p.identifier in t.pages && p.Rec() == t.pages[p.identifier] && p.identifier >= 0
    requires IsBox(p.mbr, t.P.dim) && Boxes(p.entries, t.P.dim)
    requires child < |p.entries| && p.entries[child].id == n.identifier
    requires path[..|path|-1] != [] ==> path[|path|-2] in t.pages
    modifies t`pages, t`par, p`entries, p`mbr
    ensures Condensing(t, p.identifier, todo + [Held(n.identifier, n.Rec())], stale', thin - {n.identifier}) && t.Written(p, path[..|path|-1])
    ensures Data(t.pages) == old(Data(t.pages))
  {
    hide CondensingAt, RTree.Follows, Data, PathTo, Boxes, Bounds, Cover, HeldIds, Kids, Shrunk, Node.Rec;
    RecParts(n);
    RecParts(p);
    ghost var par';
    par', stale' := DropStep(t.P, t.pages, t.par, t.rootID, t.nodes, t.levels, t.treeHeight, n.identifier, todo, stale, thin, path, child);
    p.DeleteEntry(child);
    RecParts(p);
    t.WriteNode(p);
    t.par := par';
  }

  lemma RecParts(n: Node)
    ensures n.Rec() == Page(n.level, n.mbr, n.entries)
  {
  }

  method RefreshChild(t: RTree, p: Node, child: nat, n: Node, ghost path: seq<Id>, ghost todo: seq<Held>, ghost stale: set<Id>, ghost thin: set<Id>)
    returns (ghost stale': set<Id>)
    requires Condensing(t, n.identifier, todo, stale, thin) && path != [] && PathTo(t.par, t.rootID, path, n.identifier)
    requires n.identifier in t.pages && n.Rec() == t.pages[n.identifier] && p != n && |n.entries| >= 2
    requires p.P == t.P && p.identifier == path[|path|-1] && p.identifier in t.pages && p.Rec() == t.pages[p.identifier] && p.identifier >= 0
    requires IsBox(p.mbr, t.P.dim) && Boxes(p.entries, t.P.dim) && IsBox(n.mbr, t.P.dim)
    requires child < |p.entries| && p.entries[child].id == n.identifier
    requires path[..|path|-1] != [] ==> path[|path|-2] in t.pages
    modifies t`pages, p`entries, p`mbr
    ensures Condensing(t, p.identifier, todo, stale', thin) && t.Written(p, path[..|path|-1])
    ensures Data(t.pages) == old(Data(t.pages))
  {
    hide CondensingAt, Data, PathTo;
    stale' := KeepStep(t.P, t.pages, t.par, t.rootID, t.nodes, t.levels, t.treeHeight, n.identifier, todo, stale, thin, path, child);
    p.entries := p.entries[child := Entry(n.mbr, n.identifier, p.entries[child].data)];
    if t.P.tight {
      p.Recompute();
    }
    t.WriteNode(p);
  }

  lemma RootFacts(t: RTree, n: Node, todo: seq<Held>, stale: set<Id>, thin: set<Id>)
    requires Condensing(t, n.identifier, todo, stale, thin) && t.Written(n, [])
    ensures n.identifier == t.rootID && t.rootID in t.pages && t.pages[t.rootID] == n.Rec() && t.rootID >= 0
    ensures |t.levels| == t.treeHeight && n.P == t.P && n.level == t.pages[t.rootID].level && n.entries == t.pages[t.rootID].entries
    ensures CondensingAt(t.P, t.pages, t.par, t.rootID, t.nodes, t.levels, t.treeHeight, t.rootID, todo, stale, thin) && t.Follows()
    ensures n.level > 0 && |n.entries| == 1 ==>
      && n.entries[0].id != t.rootID
      && n.entries[0].id in t.pages && t.pages[n.entries[0].id].level + 1 == n.level && t.treeHeight == n.level + 1
      && t.levels[t.treeHeight - 1] == 1
  {
    if n.level > 0 && |n.entries| == 1 {
      ShrinkFacts(t.P, t.pages, t.par, t.rootID, t.nodes, t.levels, t.treeHeight, todo, stale, thin);
    }
  }

  lemma CondensedMade(t: RTree, todo: seq<Held>, thin: set<Id>)
    requires CondensedAt(t.P, t.pages, t.par, t.rootID, t.nodes, t.levels, t.treeHeight, todo, thin) && t.Follows()
    ensures Condensed(t, todo, thin)
  {
  }

  /** The end of `condenseTree` at the root. */
  method EliminateRoot(t: RTree, n: Node, todo: seq<Held>, ghost stale: set<Id>, ghost thin: set<Id>) returns (ghost thin': set<Id>)
    requires Condensing(t, n.identifier, todo, stale, thin) && t.Written(n, [])
    modifies t`pages, t`par, t`nodes, t`nodesInLevel, t`levels, t`treeHeight, t`mark, t`markHeight
    ensures Condensed(t, todo, thin') && thin' <= thin
    ensures Data(t.pages) == old(Data(t.pages))
    ensures if t.treeHeight == old(t.treeHeight) then t.mark == old(t.mark) && t.markHeight == old(t.markHeight)
            else t.markHeight == t.treeHeight == old(t.treeHeight) - 1 && t.mark == AfterLower(old(t.Lag()))
  {
    hide *;
    RootFacts(t, n, todo, stale, thin);
    thin' := thin;
    if n.level != 0 && |n.entries| == 1 {
      ghost var par' := ShrinkRoot(t.P, t.pages, t.par, t.rootID, t.nodes, t.levels, t.treeHeight, todo, stale, thin);
      LowerOnto(t, n.entries[0].id);
      thin' := thin - {n.entries[0].id};
      t.par := par';
    } else {
      RootStays(t.P, t.pages, t.par, t.rootID, t.nodes, t.levels, t.treeHeight, todo, stale, thin);
    }
    CondensedMade(t, todo, thin');
  }

  /** Copies page `c` onto the root page, gives `c` back and sets the statistics. */
  method LowerOnto(t: RTree, c: Id)
    requires c in t.pages && t.rootID in t.pages && c != t.rootID && t.rootID >= 0
    requires t.treeHeight == |t.levels| == t.pages[c].level + 2 && t.Follows() && t.levels[t.treeHeight - 1] == 1
    modifies t`pages, t`nodes, t`nodesInLevel, t`levels, t`treeHeight, t`mark, t`markHeight
    ensures t.pages == (old(t.pages) - {c})[t.rootID := old(t.pages)[c]]
    ensures t.nodes == old(t.nodes) - 1 && t.treeHeight == old(t.treeHeight) - 1
    ensures t.levels == old(t.levels)[..old(t.treeHeight)-1][old(t.treeHeight)-2 := 2]
    ensures t.Follows() && t.markHeight == t.treeHeight && t.mark == AfterLower(old(t.Lag()))
  {
    hide Counters, Raised, RTree.Follows, Bumped;
    ghost var lag, c0, l0 := t.Lag(), t.nodesInLevel, t.levels;
    FollowsParts(t);
    CountersLowered(lag, l0);
    var ptrN := t.ReadNode(c);
    t.DeleteNode(ptrN);
    ptrN.identifier := t.rootID;
    t.WriteNode(ptrN);
    t.nodesInLevel := t.nodesInLevel[..|t.nodesInLevel|-1];
    t.treeHeight := t.treeHeight - 1;
    // the pending deletion of the stacked node on this level decreases the counter later on
    t.nodesInLevel := t.nodesInLevel[t.treeHeight - 1 := 2];
    t.levels := l0[..|l0|-1][|l0|-2 := 2];
    t.mark, t.markHeight := AfterLower(lag), t.treeHeight;
    assert t.nodesInLevel == c0[..|c0|-1][|l0|-2 := 2];
    FollowsMarked(t);
  }

  lemma FollowsParts(t: RTree)
    requires t.Follows()
    ensures t.nodesInLevel == Counters(t.Lag(), t.levels)
  {
  }

  lemma FollowsMarked(t: RTree)
    requires t.markHeight == t.treeHeight && t.nodesInLevel == Counters(t.mark, t.levels)
    ensures t.Follows() && t.Lag() == t.mark
  {
  }

  // ---------------------------------------------------------------- reinsertion

  /** The loop over the stack: the highest node first, since it was pushed last. */
  method ReinsertHeld(t: RTree, toReinsert: seq<Held>, ghost thin: set<Id>)
    requires Condensed(t, toReinsert, thin)
    modifies t`pages, t`par, t`nodes, t`nodesInLevel, t`levels, t`treeHeight, t`reinsertions
    ensures t.Between(t.pages, t.par, {}, {}, thin) && Apart(t.pages, thin) && t.rootID !in thin
    ensures Data(t.pages) == old(Data(t.pages))
  {
    hide CondensedAt, BetweenAt, Data;
    var todo := toReinsert;
    while todo != []
      invariant Condensed(t, todo, thin)
      invariant Data(t.pages) == old(Data(t.pages))
      decreases |todo|
    {
      var n := todo[|todo|-1];
      assert todo == todo[..|todo|-1] + [n];
      todo := todo[..|todo|-1];
      ReinsertNode(t, todo, n, thin);
    }
    CondensedDone(t.P, t.pages, t.par, t.rootID, t.nodes, t.levels, t.treeHeight, thin);
  }

  /** One node of the stack: its page is given back and its entries are inserted again on its level,
      each with an overflow table of its own, since the height may change in between. */
  method ReinsertNode(t: RTree, rest: seq<Held>, n: Held, ghost thin: set<Id>)
    requires Condensed(t, rest + [n], thin)
    modifies t`pages, t`par, t`nodes, t`nodesInLevel, t`levels, t`treeHeight, t`reinsertions
    ensures Condensed(t, rest, thin)
    ensures Data(t.pages) == old(Data(t.pages))
  {
    hide *;
    ghost var base := HeldIds(rest);
    var level, es := n.page.level, n.page.entries;
    ghost var lone := GiveBack(t, rest, n, thin);
    ghost var before := t.pages;
    InsertEntries(t, es, level, base, base + thin + lone);
    GrownTotal(before, t.pages, t.rootID, base, Loads(level, es));
    StackKept(before, t.pages, t.rootID, rest, level, Loads(level, es), thin, base + thin + lone - {t.rootID});
    CondensedAgain(t, rest, thin, base + thin + lone - {t.rootID});
  }

  /** The page of a stacked node is deleted. */
  method GiveBack(t: RTree, ghost rest: seq<Held>, n: Held, ghost thin: set<Id>) returns (ghost lone: set<Id>)
    requires Condensed(t, rest + [n], thin)
    modifies t`pages, t`par, t`nodes, t`nodesInLevel, t`levels
    ensures
      var level, es := n.page.level, n.page.entries;
      && lone <= {t.rootID} && t.Between(t.pages, t.par, HeldIds(rest) + Pieces(level, es), {}, HeldIds(rest) + thin + lone)
      && (lone != {} ==> es != [] && Narrow(t.pages, t.rootID, level)) && Edge(t.pages, t.rootID, rest, thin)
      && Waiting(t.P, t.pages, HeldIds(rest), level, es)
      && Data(t.pages) + Loads(level, es) == old(Data(t.pages))
      && Stacked(t.pages, rest, level) && t.rootID in t.pages && level <= t.pages[t.rootID].level && t.rootID !in HeldIds(rest) + thin
  {
    hide CondensedAt, BetweenAt, Data, Waiting, Stacked, Edge, Pieces, Loads, Counters, Raised;
    lone := Lone(t.pages, t.rootID);
    ghost var par' := DissolveTop(t.P, t.pages, t.par, t.rootID, t.nodes, t.levels, t.treeHeight, rest, n, thin);
    CountersBumped(t.Lag(), t.levels, n.page.level, -1);
    var node := new Node.Load(t.P, n.id, n.page);
    t.DeleteNode(node);
    t.par := par';
  }

  /** The root is on `level` and has a single entry. */
  ghost predicate Narrow(now: map<Id, Page>, root: Id, level: nat) {
    root in now && now[root].level == level && |now[root].entries| == 1
  }

  lemma CondensedAgain(t: RTree, rest: seq<Held>, thin: set<Id>, loose: set<Id>)
    requires t.Between(t.pages, t.par, HeldIds(rest), {}, loose) && Stacked(t.pages, rest, t.pages[t.rootID].level + 1)
    requires Edge(t.pages, t.rootID, rest, thin) && loose == HeldIds(rest) + thin
    ensures Condensed(t, rest, thin)
  {
    hide RTree.Follows;
    BetweenCondensed(t.P, t.pages, t.par, t.rootID, t.nodes, t.levels, t.treeHeight, rest, thin);
  }

  lemma GrownTotal(before: map<Id, Page>, after: map<Id, Page>, root: Id, kept: set<Id>, gain: multiset<Entry>)
    requires Grown(before, after, root, kept, gain)
    ensures Data(after) == Data(before) + gain
  {
  }

  /** The entries go in one by one; the first of them ends up in the root if that had a single child. */
  method InsertEntries(t: RTree, es: seq<Entry>, level: nat, ghost base: set<Id>, ghost loose: set<Id>)
    requires t.Between(t.pages, t.par, base + Pieces(level, es), {}, loose)
    requires Waiting(t.P, t.pages, base, level, es)
    requires t.rootID in t.pages && level <= t.pages[t.rootID].level
    requires t.rootID in loose ==> es != [] && Narrow(t.pages, t.rootID, level)
    modifies t`pages, t`par, t`nodes, t`nodesInLevel, t`levels, t`treeHeight, t`reinsertions
    ensures t.Between(t.pages, t.par, base, {}, loose - {t.rootID})
    ensures Grown(old(t.pages), t.pages, t.rootID, base, Loads(level, es))
  {
    hide *;
    ghost var before, now := t.pages, loose;
    WaitingStart(before, t.rootID, base, level, es, [], []);
    for cChild := 0 to |es|
      invariant t.rootID in t.pages && level <= t.pages[t.rootID].level
      invariant now == if cChild == 0 then loose else loose - {t.rootID}
      invariant t.rootID in now ==> Narrow(t.pages, t.rootID, level)
      invariant t.Between(t.pages, t.par, base + Pieces(level, es[cChild..]), {}, now)
      invariant Waiting(t.P, t.pages, base, level, es[cChild..])
      invariant GrownBut(before, t.pages, t.rootID, base, Loads(level, es), Loads(level, es[cChild..]))
    {
      assert es[cChild..][0] == es[cChild] && es[cChild..][1..] == es[cChild+1..];
      InsertFirst(t, es[cChild], es[cChild..], level, base, now, before, Loads(level, es));
      assert now - {t.rootID} == loose - {t.rootID};
      now := loose - {t.rootID};
    }
    assert now == loose - {t.rootID};
    WaitingEnd(before, t.pages, t.rootID, base, level, es, es[|es|..]);
  }

  /** One turn of that loop, with an overflow table of its own. */
  method InsertFirst(t: RTree, e: Entry, ghost left: seq<Entry>, level: nat, ghost base: set<Id>, ghost loose: set<Id>,
                     ghost before: map<Id, Page>, ghost total: multiset<Entry>)
    requires left != [] && left[0] == e && t.Between(t.pages, t.par, base + Pieces(level, left), {}, loose)
    requires Waiting(t.P, t.pages, base, level, left) && t.rootID in t.pages && level <= t.pages[t.rootID].level
    requires t.rootID in loose ==> Narrow(t.pages, t.rootID, level)
    requires GrownBut(before, t.pages, t.rootID, base, total, Loads(level, left))
    modifies t`pages, t`par, t`nodes, t`nodesInLevel, t`levels, t`treeHeight, t`reinsertions
    ensures t.Between(t.pages, t.par, base + Pieces(level, left[1..]), {}, loose - {t.rootID})
    ensures Waiting(t.P, t.pages, base, level, left[1..]) && t.rootID in t.pages && level <= t.pages[t.rootID].level
    ensures GrownBut(before, t.pages, t.rootID, base, total, Loads(level, left[1..]))
  {
    hide *;
    ghost var was := t.pages;
    WaitingHead(t.P, t.pages, base, level, left);
    var overflowTable := new bool[t.treeHeight](_ => false);
    t.InsertAt(e, level, overflowTable, base + Pieces(level, left), loose);
    RootFilled(t, was, level, e, base + Pieces(level, left) - Piece(level, e), loose);
    ReinsertStep(t.P, before, was, t.pages, t.rootID, base, level, left, total);
  }

  /** A root that had a single entry and took another one needs no allowance. */
  lemma RootFilled(t: RTree, was: map<Id, Page>, level: nat, e: Entry, orphans: set<Id>, loose: set<Id>)
    requires t.Between(t.pages, t.par, orphans, {}, loose) && t.rootID in was && IsBox(was[t.rootID].mbr, t.P.dim) && IsBox(e.mbr, t.P.dim)
    requires t.rootID in loose ==> Narrow(was, t.rootID, level)
    requires Roomy(t.P, was[t.rootID], level) ==> t.pages == was[t.rootID := Extended(was[t.rootID], e)]
    ensures t.Between(t.pages, t.par, orphans, {}, loose - {t.rootID})
  {
    hide RTree.Follows, Forest;
    if t.rootID in loose {
      assert |t.pages[t.rootID].entries| == 2;
    }
    assert Filled(t.pages, t.rootID, loose - {t.rootID});
  }

  // ---------------------------------------------------------------- finding the leaf

  ghost predicate Matches(x: Entry, mbr: Region, id: Id) {
    x.id == id && x.mbr == mbr
  }

  ghost predicate Holds(es: seq<Entry>, mbr: Region, id: Id) {
    exists i :: 0 <= i < |es| && Matches(es[i], mbr, id)
  }

  /** The first leaf below page `p` that stores this id with this box, the children taken in the order
      of the entries. */
  ghost function FirstLeaf(pages: map<Id, Page>, p: Id, level: nat, mbr: Region, id: Id): Option<Id>
    decreases level, 0, 0
  {
    if p !in pages || pages[p].level != level then None
    else if level > 0 then FirstBelow(pages, pages[p].entries, level - 1, mbr, id)
    else if Holds(pages[p].entries, mbr, id) then Some(p) else None
  }

  ghost function FirstBelow(pages: map<Id, Page>, es: seq<Entry>, level: nat, mbr: Region, id: Id): Option<Id>
    decreases level, 1, |es|
  {
    if es == [] then None
    else
      var first := FirstBelow(pages, es[..|es|-1], level, mbr, id);
      if first.Some? then first else FirstLeaf(pages, es[|es|-1].id, level, mbr, id)
  }

  lemma {:induction false} FirstFound(pages: map<Id, Page>, p: Id, level: nat, mbr: Region, id: Id)
    ensures FirstLeaf(pages, p, level, mbr, id).Some? <==> Holds(Under(pages, p, level), mbr, id)
    decreases level, 0, 0
  {
    if p in pages && pages[p].level == level > 0 {
      FirstFoundBelow(pages, pages[p].entries, level - 1, mbr, id);
    }
  }

  lemma {:induction false} FirstFoundBelow(pages: map<Id, Page>, es: seq<Entry>, level: nat, mbr: Region, id: Id)
    ensures FirstBelow(pages, es, level, mbr, id).Some? <==> Holds(UnderAll(pages, es, level), mbr, id)
    decreases level, 1, |es|
  {
    if es != [] {
      FirstFoundBelow(pages, es[..|es|-1], level, mbr, id);
      FirstFound(pages, es[|es|-1].id, level, mbr, id);
      HoldsSum(UnderAll(pages, es[..|es|-1], level), Under(pages, es[|es|-1].id, level), mbr, id);
    }
  }

  lemma HoldsSum(a: seq<Entry>, b: seq<Entry>, mbr: Region, id: Id)
    ensures Holds(a + b, mbr, id) <==> Holds(a, mbr, id) || Holds(b, mbr, id)
  {
    var ab := a + b;
    if i :| 0 <= i < |a| && Matches(a[i], mbr, id) {
      assert ab[i] == a[i];
    }
    if i :| 0 <= i < |b| && Matches(b[i], mbr, id) {
      assert ab[|a| + i] == b[i];
    }
  }

  /** The first child that leads to a leaf decides. */
  lemma {:induction false} FirstChild(pages: map<Id, Page>, es: seq<Entry>, level: nat, mbr: Region, id: Id, k: nat)
    requires k < |es| && FirstLeaf(pages, es[k].id, level, mbr, id).Some?
    requires forall i :: 0 <= i < k ==> FirstLeaf(pages, es[i].id, level, mbr, id) == None
    ensures FirstBelow(pages, es, level, mbr, id) == FirstLeaf(pages, es[k].id, level, mbr, id)
    decreases |es|
  {
    if k < |es| - 1 {
      FirstChild(pages, es[..|es|-1], level, mbr, id, k);
    } else {
      NoChild(pages, es[..k], level, mbr, id);
    }
  }

  lemma {:induction false} NoChild(pages: map<Id, Page>, es: seq<Entry>, level: nat, mbr: Region, id: Id)
    requires forall i :: 0 <= i < |es| ==> FirstLeaf(pages, es[i].id, level, mbr, id) == None
    ensures FirstBelow(pages, es, level, mbr, id) == None
  {
    if es != [] {
      NoChild(pages, es[..|es|-1], level, mbr, id);
    }
  }

  /** `findLeaf`: on a leaf, the scan for exactly this id and box; on an index node, the descent into
      every child whose box contains the box looked for. `path'` leads to the first leaf that has them. */
  method FindLeaf(t: RTree, n: Node, mbr: Region, id: Id, path: seq<Id>) returns (found: bool, l: Node, path': seq<Id>)
    requires Sound(t.P, t.pages, t.par, t.rootID) && t.Written(n, path) && IsBox(mbr, t.P.dim)
    decreases n.level, 2
    ensures found <==> Holds(Under(t.pages, n.identifier, n.level), mbr, id)
    ensures found ==> t.Written(l, path') && l.level == 0 && Holds(l.entries, mbr, id)
    ensures found ==> FirstLeaf(t.pages, n.identifier, n.level, mbr, id) == Some(l.identifier)
    ensures l == n || fresh(l)
  {
    if n.level == 0 {
      found, l, path' := false, n, path;
      for cChild := 0 to |n.entries|
        invariant forall i :: 0 <= i < cChild ==> !Matches(n.entries[i], mbr, id)
      {
        if n.entries[cChild].id == id && mbr == n.entries[cChild].mbr {
          assert Matches(n.entries[cChild], mbr, id);
          return true, n, path;
        }
      }
    } else {
      found, l, path' := FindLeafBelow(t, n, mbr, id, path);
    }
  }

  method FindLeafBelow(t: RTree, n: Node, mbr: Region, id: Id, path: seq<Id>) returns (found: bool, l: Node, path': seq<Id>)
    requires Sound(t.P, t.pages, t.par, t.rootID) && t.Written(n, path) && IsBox(mbr, t.P.dim) && n.level > 0
    decreases n.level, 1
    ensures found <==> Holds(Under(t.pages, n.identifier, n.level), mbr, id)
    ensures found ==> t.Written(l, path') && l.level == 0 && Holds(l.entries, mbr, id)
    ensures found ==> FirstLeaf(t.pages, n.identifier, n.level, mbr, id) == Some(l.identifier)
    ensures l == n || fresh(l)
  {
    hide *;
    UnderNode(t, n, path);
    found, l, path' := false, n, path;
    for cChild := 0 to |n.entries|
      invariant forall i :: 0 <= i < cChild ==> !Holds(Under(t.pages, n.entries[i].id, n.level - 1), mbr, id)
      invariant l == n || fresh(l)
      invariant !found
    {
      found, l, path' := FindLeafIn(t, n, cChild, mbr, id, path);
      if found {
        FoundChild(t, n, path, cChild, mbr, id);
        break;
      }
    }
    UnderHolds(t.pages, n.entries, n.level - 1, mbr, id);
  }

  lemma FoundChild(t: RTree, n: Node, path: seq<Id>, k: nat, mbr: Region, id: Id)
    requires t.Written(n, path) && n.level > 0 && k < |n.entries|
    requires forall i :: 0 <= i < k ==> !Holds(Under(t.pages, n.entries[i].id, n.level - 1), mbr, id)
    requires Holds(Under(t.pages, n.entries[k].id, n.level - 1), mbr, id)
    ensures FirstLeaf(t.pages, n.identifier, n.level, mbr, id) == FirstLeaf(t.pages, n.entries[k].id, n.level - 1, mbr, id)
  {
    hide Holds, Under;
    forall i | 0 <= i <= k
      ensures FirstLeaf(t.pages, n.entries[i].id, n.level - 1, mbr, id).Some? <==> Holds(Under(t.pages, n.entries[i].id, n.level - 1), mbr, id) {
      FirstFound(t.pages, n.entries[i].id, n.level - 1, mbr, id);
    }
    FirstChild(t.pages, n.entries, n.level - 1, mbr, id, k);
  }

  lemma UnderNode(t: RTree, n: Node, path: seq<Id>)
    requires t.Written(n, path) && n.level > 0
    ensures Under(t.pages, n.identifier, n.level) == UnderAll(t.pages, n.entries, n.level - 1)
  {
  }

  /** One turn of the loop in `Index::findLeaf`. */
  method FindLeafIn(t: RTree, n: Node, cChild: nat, mbr: Region, id: Id, path: seq<Id>)
    returns (found: bool, l: Node, path': seq<Id>)
    requires Sound(t.P, t.pages, t.par, t.rootID) && t.Written(n, path) && IsBox(mbr, t.P.dim) && n.level > 0
    requires cChild < |n.entries|
    decreases n.level, 0
    ensures found <==> Holds(Under(t.pages, n.entries[cChild].id, n.level - 1), mbr, id)
    ensures found ==> t.Written(l, path') && l.level == 0 && Holds(l.entries, mbr, id)
    ensures found ==> FirstLeaf(t.pages, n.entries[cChild].id, n.level - 1, mbr, id) == Some(l.identifier)
    ensures l == n || fresh(l)
  {
    ChildFacts(t, n, path, cChild, mbr, id);
    hide Sound, Under, PathTo, Holds;
    found, l, path' := false, n, path;
    if Contains(n.entries[cChild].mbr, mbr) {
      var next := t.ReadNode(n.entries[cChild].id);
      PathPush(t.par, t.rootID, path, n.identifier, next.identifier);
      found, l, path' := FindLeaf(t, next, mbr, id, path + [n.identifier]);
    }
  }

  lemma ChildFacts(t: RTree, n: Node, path: seq<Id>, i: nat, mbr: Region, id: Id)
    requires Sound(t.P, t.pages, t.par, t.rootID) && t.Written(n, path) && IsBox(mbr, t.P.dim)
    requires n.level > 0 && i < |n.entries|
    ensures
      var c := n.entries[i].id;
      && c in t.pages && c in t.par && t.par[c] == n.identifier && t.pages[c].level + 1 == n.level
      && n.identifier in t.pages && IsBox(n.entries[i].mbr, t.P.dim)
      && (!Contains(n.entries[i].mbr, mbr) ==> !Holds(Under(t.pages, c, n.level - 1), mbr, id))
  {
    var c := n.entries[i].id;
    assert c in Kids(t.pages[n.identifier]);
    assert PageOk(t.P, n.Rec()) && Fresh(n.Rec(), t.pages, {});
    var under := Under(t.pages, c, n.level - 1);
    if Holds(under, mbr, id) {
      var j :| 0 <= j < |under| && Matches(under[j], mbr, id);
      UnderInside(t.P, t.pages, t.par, t.rootID, c, under[j]);
    }
  }

  lemma UnderHolds(pages: map<Id, Page>, es: seq<Entry>, level: nat, mbr: Region, id: Id)
    ensures Holds(UnderAll(pages, es, level), mbr, id) <==>
            exists i :: 0 <= i < |es| && Holds(Under(pages, es[i].id, level), mbr, id)
  {
    var all := UnderAll(pages, es, level);
    if Holds(all, mbr, id) {
      var j :| 0 <= j < |all| && Matches(all[j], mbr, id);
      UnderAllMember(pages, es, level, all[j]);
      var i :| 0 <= i < |es| && all[j] in Under(pages, es[i].id, level);
      var k :| 0 <= k < |Under(pages, es[i].id, level)| && Under(pages, es[i].id, level)[k] == all[j];
      assert Holds(Under(pages, es[i].id, level), mbr, id);
    }
    if i :| 0 <= i < |es| && Holds(Under(pages, es[i].id, level), mbr, id) {
      var under := Under(pages, es[i].id, level);
      var j :| 0 <= j < |under| && Matches(under[j], mbr, id);
      UnderAllMember(pages, es, level, under[j]);
    }
  }

  // ---------------------------------------------------------------- deletion

  /** The position of the first entry with this id: the one `Leaf::deleteData` removes. */
  ghost function FirstWith(es: seq<Entry>, id: Id): (i: nat)
    ensures i <= |es|
    ensures i < |es| ==> es[i].id == id
    ensures forall j :: 0 <= j < i ==> es[j].id != id
  {
    if es == [] || es[0].id == id then 0 else FirstWith(es[1..], id) + 1
  }

  /** A leaf lost one entry: condensing can start there. */
  lemma StartCondense(P: Params, now: map<Id, Page>, par: map<Id, Id>, root: Id, nodes: int, inLevel: seq<int>,
                      height: nat, p: Id, path: seq<Id>, i: nat, thin: set<Id>)
    returns (par': map<Id, Id>, stale: set<Id>)
    requires BetweenAt(P, now, par, root, {}, {}, thin, nodes, inLevel, height) && Apart(now, thin) && root !in thin
    requires p in now && now[p].level == 0 && i < |now[p].entries| && PathTo(par, root, path, p)
    ensures Boxes(now[p].entries, P.dim)
    ensures
      var now' := now[p := Shrunk(P, now[p], i)];
      && CondensingAt(P, now', par', root, nodes, inLevel, height, p, [], stale, thin)
      && PathTo(par', root, path, p)
      && Data(now') + multiset{now[p].entries[i]} == Data(now)
  {
    StartFacts(P, now, par, root, nodes, inLevel, height, p, i, thin);
    StartEdge(now, root, p, thin, Shrunk(P, now[p], i));
    hide *;
    var now';
    now', par', stale := Detach(P, now, par, root, {}, {}, thin, p, i);
    PathFrame(par, par', root, path, p);
    StartAssemble(P, now, now', par', root, nodes, inLevel, height, p, stale, thin, Shrunk(P, now[p], i));
  }

  lemma StartEdge(now: map<Id, Page>, root: Id, p: Id, thin: set<Id>, n': Page)
    requires Apart(now, thin) && Solid(now, {}, thin) && root !in thin && p in now && n'.level == now[p].level
    ensures Edge(now[p := n'], root, [], thin) && Unshared(now[p := n'], [], thin) && NoneEmpty(now[p := n'], thin - {p})
  {
    assert HeldIds([]) == {};
  }

  lemma StartFacts(P: Params, now: map<Id, Page>, par: map<Id, Id>, root: Id, nodes: int, inLevel: seq<int>,
                   height: nat, p: Id, i: nat, thin: set<Id>)
    requires BetweenAt(P, now, par, root, {}, {}, thin, nodes, inLevel, height)
    requires p in now && now[p].level == 0 && i < |now[p].entries|
    ensures Grove(P, now, par, root, {}, {}, thin) && UnderRoot(now, root) && P.Sane()
    ensures StatisticsOf(now, root, nodes, inLevel, height) && HeldIds([]) == {}
    ensures Piece(0, now[p].entries[i]) == {} && Gain(0, now[p].entries[i]) == multiset{now[p].entries[i]}
    ensures {} + Piece(0, now[p].entries[i]) == {} && Boxes(now[p].entries, P.dim)
    ensures !P.tight && Shrunk(P, now[p], i).entries != [] ==> Shrunk(P, now[p], i).mbr == now[p].mbr
    ensures Shrunk(P, now[p], i).level == 0
    ensures forall c :: c in par ==> c !in Piece(0, now[p].entries[i])
    ensures p !in {} && {} <= Piece(0, now[p].entries[i])
  {
    assert PageOk(P, now[p]);
  }

  lemma StartAssemble(P: Params, now: map<Id, Page>, now': map<Id, Page>, par': map<Id, Id>, root: Id, nodes: int, inLevel: seq<int>,
                      height: nat, p: Id, stale: set<Id>, thin: set<Id>, n': Page)
    requires P.Sane() && p in now && now[p].level == 0 && now' == now[p := n'] && n'.level == 0 && UnderRoot(now, root)
    requires StatisticsOf(now, root, nodes, inLevel, height)
    requires !P.tight && n'.entries != [] ==> n'.mbr == now[p].mbr
    requires stale == if p == root || n'.mbr == now[p].mbr then {} else {p}
    requires Edge(now', root, [], thin) && Unshared(now', [], thin) && NoneEmpty(now', thin - {p})
    requires Grove(P, now', par', root, {}, stale, thin + {p})
    ensures CondensingAt(P, now', par', root, nodes, inLevel, height, p, [], stale, thin)
  {
    hide Grove, Edge, Unshared, NoneEmpty;
    assert HeldIds([]) == {} && {} + {p} + thin == thin + {p};
    CountUpdate(now, p, n', nodes, inLevel);
  }

  /** The scan for the first entry with this id. */
  method FindEntry(l: Node, id: Id) returns (child: nat)
    requires FirstWith(l.entries, id) < |l.entries|
    ensures child == FirstWith(l.entries, id)
  {
    ghost var first := FirstWith(l.entries, id);
    hide FirstWith;
    child := 0;
    while child < |l.entries| && l.entries[child].id != id
      invariant 0 <= child <= first
    {
      child := child + 1;
    }
  }

  /** `Leaf::deleteData`: removes the first entry of leaf `l` with this id, condenses the tree and
      puts back the entries of the dissolved nodes. */
  method DeleteData(t: RTree, l: Node, id: Id, path: seq<Id>, ghost thin: set<Id>) returns (ghost thin': set<Id>)
    requires t.Between(t.pages, t.par, {}, {}, thin) && Apart(t.pages, thin) && t.rootID !in thin
    requires t.Written(l, path) && l.level == 0
    requires FirstWith(l.entries, id) < |l.entries|
    modifies t`pages, t`par, t`nodes, t`nodesInLevel, t`levels, t`treeHeight, t`mark, t`markHeight, t`reinsertions, l`entries, l`mbr
    ensures t.Between(t.pages, t.par, {}, {}, thin') && Apart(t.pages, thin') && t.rootID !in thin' && thin' <= thin
    ensures Data(t.pages) + multiset{old(l.entries[FirstWith(l.entries, id)])} == old(Data(t.pages))
    ensures LagAfter(old(t.Lag()), old(t.treeHeight), t.Lag(), t.treeHeight)
  {
    hide *;
    var child := FindEntry(l, id);
    LeafFacts(t, l, path, thin);
    ghost var lag, height := t.Lag(), t.treeHeight;
    t.mark, t.markHeight := lag, height;
    BetweenMarked(t, thin);
    WrittenMade(t, l, path);
    ghost var stale := TakeFromLeaf(t, l, child, path, thin);
    var toReinsert;
    toReinsert, thin' := CondenseTree(t, l, path, [], stale, thin);
    ReinsertHeld(t, toReinsert, thin');
    BetweenFollows(t, thin');
    LagFacts(t);
    LagKnown(lag, height, t.mark, t.markHeight, t.Lag(), t.treeHeight);
  }

  lemma BetweenMarked(t: RTree, thin: set<Id>)
    requires BetweenAt(t.P, t.pages, t.par, t.rootID, {}, {}, thin, t.nodes, t.levels, t.treeHeight)
    requires t.markHeight == t.treeHeight && t.nodesInLevel == Counters(t.mark, t.levels)
    ensures t.Between(t.pages, t.par, {}, {}, thin) && t.Lag() == t.mark
  {
  }

  lemma WrittenMade(t: RTree, l: Node, path: seq<Id>)
    requires l.identifier in t.pages && l.Rec() == t.pages[l.identifier] && l.P == t.P && PathTo(t.par, t.rootID, path, l.identifier)
    requires path != [] ==> path[|path|-1] in t.pages
    ensures t.Written(l, path)
  {
  }

  lemma BetweenFollows(t: RTree, thin: set<Id>)
    requires t.Between(t.pages, t.par, {}, {}, thin)
    ensures t.Follows()
  {
  }

  lemma LagKnown(lag: Lag, height: nat, mark: Lag, markHeight: nat, lag': Lag, height': nat)
    requires markHeight <= height' && lag' == Raised(mark, height' - markHeight)
    requires (mark == lag && markHeight == height) || (markHeight + 1 == height && mark == AfterLower(lag))
    ensures LagAfter(lag, height, lag', height')
  {
  }

  /** The entry leaves the leaf. */
  method TakeFromLeaf(t: RTree, l: Node, child: nat, ghost path: seq<Id>, ghost thin: set<Id>) returns (ghost stale: set<Id>)
    requires t.Between(t.pages, t.par, {}, {}, thin) && Apart(t.pages, thin) && t.rootID !in thin
    requires t.Written(l, path) && l.level == 0 && child < |l.entries|
    modifies t`pages, t`par, l`entries, l`mbr
    ensures Condensing(t, l.identifier, [], stale, thin) && t.Written(l, path)
    ensures Data(t.pages) + multiset{old(l.entries)[child]} == old(Data(t.pages))
  {
    hide *;
    LeafFacts(t, l, path, thin);
    BetweenFollows(t, thin);
    ghost var before := t.pages;
    ghost var par';
    par', stale := StartCondense(t.P, t.pages, t.par, t.rootID, t.nodes, t.levels, t.treeHeight, l.identifier, path, child, thin);
    l.DeleteEntry(child);
    t.WriteNode(l);
    t.par := par';
    assert t.pages == before[l.identifier := Shrunk(t.P, before[l.identifier], child)];
    CondensingMade(t, l.identifier, [], stale, thin);
    WrittenMade(t, l, path);
  }

  lemma CondensingMade(t: RTree, p: Id, todo: seq<Held>, stale: set<Id>, thin: set<Id>)
    requires CondensingAt(t.P, t.pages, t.par, t.rootID, t.nodes, t.levels, t.treeHeight, p, todo, stale, thin) && t.Follows()
    ensures Condensing(t, p, todo, stale, thin)
  {
  }

  /** How the lag of the level counters may change while the height changes from `height` to `height'`:
      the root was raised some times, perhaps after it was lowered once. */
  ghost predicate LagAfter(lag: Lag, height: nat, lag': Lag, height': nat) {
    || (height' >= height && lag' == Raised(lag, height' - height))
    || (height' + 1 >= height && lag' == Raised(AfterLower(lag), height' + 1 - height))
  }

  lemma RaisedNone(lag: Lag)
    ensures Raised(lag, 0) == lag
  {
  }

  lemma LagFacts(t: RTree)
    requires t.Follows()
    ensures t.markHeight <= t.treeHeight && t.Lag() == Raised(t.mark, t.treeHeight - t.markHeight)
  {
  }

  /** A deletion that leaves the tree lower leaves counters that do not lag behind. */
  lemma LowerCatchesUp(lag: Lag, height: nat, lag': Lag, height': nat)
    requires LagAfter(lag, height, lag', height') && height' < height
    ensures lag' == AfterLower(lag) != Behind
  {
  }

  lemma LagStays(height: nat, lag': Lag, height': nat)
    requires LagAfter(InStep, height, lag', height')
    ensures lag' == InStep
  {
    if height' >= height {
      RaisedInStep(height' - height);
    }
    if height' + 1 >= height {
      RaisedInStep(height' + 1 - height);
    }
  }

  lemma LeafFacts(t: RTree, l: Node, path: seq<Id>, thin: set<Id>)
    requires t.Between(t.pages, t.par, {}, {}, thin) && t.Written(l, path)
    ensures l.identifier >= 0 && IsBox(l.mbr, t.P.dim) && Boxes(l.entries, t.P.dim)
    ensures path != [] ==> path[|path|-1] in t.pages
    ensures l.identifier in t.pages && PathTo(t.par, t.rootID, path, l.identifier) && l.P == t.P && l.Rec() == t.pages[l.identifier]
    ensures l.level == t.pages[l.identifier].level && l.entries == t.pages[l.identifier].entries
    ensures BetweenAt(t.P, t.pages, t.par, t.rootID, {}, {}, thin, t.nodes, t.levels, t.treeHeight)
    ensures t.nodesInLevel == Counters(t.Lag(), t.levels)
  {
    assert PageOk(t.P, t.pages[l.identifier]);
  }

  /** Some stored entry has this id and this box. */
  ghost predicate Stored(data: multiset<Entry>, mbr: Region, id: Id) {
    exists x :: x in data && Matches(x, mbr, id)
  }

  lemma HoldsStored(es: seq<Entry>, data: multiset<Entry>, mbr: Region, id: Id)
    requires multiset(es) == data
    ensures Holds(es, mbr, id) <==> Stored(data, mbr, id)
  {
    if x :| x in data && Matches(x, mbr, id) {
      assert x in es;
    }
    if i :| 0 <= i < |es| && Matches(es[i], mbr, id) {
      assert es[i] in multiset(es);
    }
  }

  /** The entry that a deletion takes: the first one with the asked id on the first leaf that stores the
      asked id and box together. */
  ghost predicate Taken(pages: map<Id, Page>, root: Id, mbr: Region, id: Id, gone: Entry) {
    && root in pages
    && var leaf := FirstLeaf(pages, root, pages[root].level, mbr, id);
       leaf.Some? && leaf.value in pages && TakenFrom(pages[leaf.value], mbr, id, gone)
  }

  ghost predicate TakenFrom(n: Page, mbr: Region, id: Id, gone: Entry) {
    && n.level == 0 && Holds(n.entries, mbr, id)
    && FirstWith(n.entries, id) < |n.entries| && gone == n.entries[FirstWith(n.entries, id)]
  }

  /** `deleteData`: refused when the box has the wrong number of dimensions; otherwise true exactly if
      the id is stored with this box, and then one entry with the id leaves the tree and no other. */
  method Delete(t: RTree, mbr: Region, id: Id) returns (ok: bool, ret: bool, ghost gone: Entry)
    requires t.Ragged() && |mbr.low| == |mbr.high|
    modifies t
    ensures t.Ragged() && (old(t.Full()) ==> t.Full()) && (old(t.Valid()) ==> t.Valid())
    ensures LagAfter(old(t.Lag()), old(t.treeHeight), t.Lag(), t.treeHeight)
    ensures ok <==> |mbr.low| == t.P.dim
    ensures ret <==> ok && Stored(old(Data(t.pages)), mbr, id)
    ensures ret ==> Taken(old(t.pages), t.rootID, mbr, id, gone)
    ensures ret ==> Data(t.pages) + multiset{gone} == old(Data(t.pages))
    ensures !ret ==> t.pages == old(t.pages)
    ensures t.rootID == old(t.rootID)
  {
    hide *;
    ok, ret, gone := |mbr.low| == t.P.dim, false, Entry(mbr, id, []);
    ghost var lag, height := t.Lag(), t.treeHeight;
    Unlagged(lag, height);
    ghost var thin := Thin(t.pages, t.rootID);
    RaggedParts(t);
    if ok {
      BoxOf(mbr, t.P.dim);
      ret, gone, thin := DeleteImpl(t, mbr, id);
      if ret {
        t.dataCount := t.dataCount - 1;
        OneLess(Data(t.pages), gone, old(Data(t.pages)));
      }
      if lag == InStep {
        LagStays(height, t.Lag(), t.treeHeight);
      }
      RaggedMade(t, thin);
    }
  }

  lemma RaggedParts(t: RTree)
    requires t.Ragged()
    ensures
      var thin := Thin(t.pages, t.rootID);
      t.Between(t.pages, t.par, {}, {}, thin) && Apart(t.pages, thin) && t.rootID !in thin && (t.Full() ==> thin == {})
    ensures t.dataCount == |Data(t.pages)| && (t.Valid() ==> t.Full() && t.Lag() == InStep)
  {
    hide BetweenAt, Data, RTree.Follows;
    t.AnyLoose(t.pages, t.pages.Keys - {t.rootID});
    if t.Full() {
      t.AnyLoose(t.pages, {});
    }
  }

  lemma RaggedMade(t: RTree, thin: set<Id>)
    requires t.Between(t.pages, t.par, {}, {}, thin) && Apart(t.pages, thin) && t.rootID !in thin && t.dataCount == |Data(t.pages)|
    ensures t.Ragged() && (thin == {} ==> t.Full()) && (thin == {} && t.Lag() == InStep ==> t.Valid())
  {
    hide BetweenAt, Data, RTree.Follows;
    t.AnyLoose(t.pages, thin);
  }

  lemma BoxOf(r: Region, dim: nat)
    requires |r.low| == |r.high| == dim
    ensures IsBox(r, dim)
  {
  }

  lemma Unlagged(lag: Lag, height: nat)
    ensures LagAfter(lag, height, lag, height)
  {
  }

  /** The search and, if it succeeds, the deletion on the leaf found. */
  method DeleteImpl(t: RTree, mbr: Region, id: Id) returns (ret: bool, ghost gone: Entry, ghost thin: set<Id>)
    requires t.Ragged() && IsBox(mbr, t.P.dim)
    modifies t`pages, t`par, t`nodes, t`nodesInLevel, t`levels, t`treeHeight, t`mark, t`markHeight, t`reinsertions
    ensures t.Between(t.pages, t.par, {}, {}, thin) && Apart(t.pages, thin) && t.rootID !in thin && (old(t.Full()) ==> thin == {})
    ensures LagAfter(old(t.Lag()), old(t.treeHeight), t.Lag(), t.treeHeight)
    ensures ret <==> Stored(old(Data(t.pages)), mbr, id)
    ensures ret ==> Taken(old(t.pages), t.rootID, mbr, id, gone)
    ensures ret ==> Data(t.pages) + multiset{gone} == old(Data(t.pages))
    ensures !ret ==> t.pages == old(t.pages) && t.Lag() == old(t.Lag()) && t.treeHeight == old(t.treeHeight)
  {
    hide *;
    SearchFacts(t);
    RaggedParts(t);
    thin := Thin(t.pages, t.rootID);
    Unlagged(t.Lag(), t.treeHeight);
    var root := t.ReadNode(t.rootID);
    var l: Node, path: seq<Id>;
    t.RootWritten(root);
    ret, l, path := FindLeaf(t, root, mbr, id, []);
    HoldsStored(Under(t.pages, t.rootID, t.pages[t.rootID].level), Data(t.pages), mbr, id);
    gone := Entry(mbr, id, []);
    if ret {
      gone := TakenFirst(t, l, path, mbr, id);
      thin := DeleteData(t, l, id, path, thin);
    }
  }

  lemma OneLess(a: multiset<Entry>, x: Entry, b: multiset<Entry>)
    requires a + multiset{x} == b
    ensures |a| == |b| - 1
  {
  }

  lemma WorkingSound(t: RTree)
    requires t.Working()
    ensures Sound(t.P, t.pages, t.par, t.rootID)
  {
    hide Forest, RTree.Follows;
    forall p | p in t.pages && p != t.rootID ensures t.pages[p].entries != [] {
    }
  }

  lemma SearchFacts(t: RTree)
    requires t.Ragged()
    ensures Sound(t.P, t.pages, t.par, t.rootID) && t.rootID in t.pages && PathTo(t.par, t.rootID, [], t.rootID)
    ensures multiset(Under(t.pages, t.rootID, t.pages[t.rootID].level)) == Data(t.pages)
  {
    WorkingSound(t);
    UnderRootIsAll(t.P, t.pages, t.par, t.rootID);
  }

  lemma TakenFirst(t: RTree, l: Node, path: seq<Id>, mbr: Region, id: Id) returns (gone: Entry)
    requires t.Written(l, path) && l.level == 0 && Holds(l.entries, mbr, id) && t.rootID in t.pages
    requires FirstLeaf(t.pages, t.rootID, t.pages[t.rootID].level, mbr, id) == Some(l.identifier)
    ensures FirstWith(l.entries, id) < |l.entries| && gone == l.entries[FirstWith(l.entries, id)]
    ensures Taken(t.pages, t.rootID, mbr, id, gone)
  {
    var i :| 0 <= i < |l.entries| && Matches(l.entries[i], mbr, id);
    gone := l.entries[FirstWith(l.entries, id)];
    assert TakenFrom(l.Rec(), mbr, id, gone);
  }
}
