/** What each elementary change of an insertion or deletion does to the tree: it stays a tree with
    known parentless pieces, and the stored data changes by exactly what the step says. */
module TreeSteps {
  import opened Geometry
  import opened Pages
  import opened IndexLists
  import opened RTreeNode

  /** What inserting `e` at `level` adds to the stored data. */
  ghost function Gain(level: nat, e: Entry): multiset<Entry> {
    if level == 0 then multiset{e} else multiset{}
  }

  /** The parentless page that inserting `e` at `level` attaches. */
  ghost function Piece(level: nat, e: Entry): set<Id> {
    if level == 0 then {} else {e.id}
  }

  /** `e` may be inserted into a node of `level`: it is a data entry, or it points to a parentless
      page one level below, which is not empty, and carries its box. */
  ghost predicate Insertable(P: Params, pages: map<Id, Page>, orphans: set<Id>, level: nat, e: Entry) {
    && IsBox(e.mbr, P.dim)
    && (level > 0 ==> e.id in orphans && e.id in pages && pages[e.id].entries != []
                      && pages[e.id].level + 1 == level && pages[e.id].mbr == e.mbr)
  }

  /** Of the nearly empty pages, only the parentless ones may be empty. */
  ghost predicate Solid(pages: map<Id, Page>, orphans: set<Id>, loose: set<Id>) {
    && loose <= pages.Keys
    && forall p :: p in loose && p !in orphans ==> pages[p].entries != []
  }

  lemma SolidUpdate(pages: map<Id, Page>, orphans: set<Id>, loose: set<Id>, p: Id, n: Page)
    requires Solid(pages, orphans, loose) && p in pages && n.entries != []
    ensures Solid(pages[p := n], orphans, loose)
  {
  }

  /** Page `p` is rewritten and pages are added while `e` is put in. */
  lemma SolidAfter(P: Params, pages: map<Id, Page>, after: map<Id, Page>, orphans: set<Id>, orphans': set<Id>, loose: set<Id>,
                   p: Id, level: nat, e: Entry)
    requires Solid(pages, orphans, loose) && Insertable(P, pages, orphans, level, e) && orphans - Piece(level, e) <= orphans'
    requires p in after && after[p].entries != [] && forall q :: q in pages && q != p ==> q in after && after[q] == pages[q]
    ensures Solid(after, orphans', loose)
  {
  }

  /** Only boxes changed, and only on index pages outside `kept`. */
  ghost predicate OnlyBoxes(before: map<Id, Page>, after: map<Id, Page>, kept: set<Id>) {
    && before.Keys == after.Keys
    && (forall p :: p in before ==> before[p].level == after[p].level)
    && (forall p :: p in before && (before[p].level == 0 || p in kept) ==> after[p] == before[p])
  }

  lemma OnlyBoxesSame(a: map<Id, Page>, b: map<Id, Page>, kept: set<Id>, nodes: int, inLevel: seq<int>)
    requires OnlyBoxes(a, b, kept)
    ensures Data(a) == Data(b)
    ensures Counted(a, nodes, inLevel) ==> Counted(b, nodes, inLevel)
  {
    GatherFrame(a, b, a.Keys);
    if Counted(a, nodes, inLevel) {
      assert |a.Keys| == |b.Keys|;
      forall l | 0 <= l < |inLevel| ensures AtLevel(b, l) == AtLevel(a, l) {
        forall p ensures p in AtLevel(a, l) <==> p in AtLevel(b, l) {
        }
      }
    }
  }

  lemma OnlyBoxesTransitive(a: map<Id, Page>, b: map<Id, Page>, c: map<Id, Page>, kept: set<Id>)
    requires OnlyBoxes(a, b, kept) && OnlyBoxes(b, c, kept)
    ensures OnlyBoxes(a, c, kept)
  {
  }

  lemma KidsOfExtended(n: Page, e: Entry)
    requires IsBox(n.mbr, |n.mbr.low|) && IsBox(e.mbr, |n.mbr.low|)
    ensures Kids(Extended(n, e)) == Kids(n) + Piece(n.level, e)
  {
    var es := n.entries + [e];
    assert Ids(es) == Ids(n.entries) + {e.id} by {
      assert es[|n.entries|] == e;
      forall k | k in Ids(n.entries) ensures k in Ids(es) {
        var i :| 0 <= i < |n.entries| && n.entries[i].id == k;
        assert es[i].id == k;
      }
    }
  }

  lemma ExtendedOk(P: Params, n: Page, e: Entry)
    requires PageOk(P, n) && |n.entries| < P.Capacity(n.level) && IsBox(e.mbr, P.dim)
    requires n.level > 0 ==> e.id !in Ids(n.entries)
    ensures PageOk(P, Extended(n, e))
  {
    CoverNext(n.entries, e, P.dim);
    var es := n.entries + [e];
    forall i | 0 <= i < |es| ensures IsBox(es[i].mbr, P.dim) && Contains(Combine(n.mbr, e.mbr), es[i].mbr) {
      if i < |n.entries| {
        assert es[i] == n.entries[i];
      }
    }
  }

  lemma Cancel<T>(a: multiset<T>, b: multiset<T>, c: multiset<T>)
    requires a + c == b + c
    ensures a == b
  {
    forall x ensures a[x] == b[x] {
      assert (a + c)[x] == (b + c)[x];
    }
  }

  /** Overwriting page `p` of a grove: the pieces it drops or takes move in or out of `orphans`. */
  lemma RewriteGrove(P: Params, pages: map<Id, Page>, par: map<Id, Id>, root: Id, orphans: set<Id>,
                     stale: set<Id>, loose: set<Id>, p: Id, n: Page, stale': set<Id>, loose': set<Id>)
    requires Grove(P, pages, par, root, orphans, stale, loose)
    requires p in pages && n.level == pages[p].level && PageOk(P, n)
    requires Kids(n) <= Kids(pages[p]) + orphans && LevelsBelow(n, pages)
    requires Fresh(n, pages, stale') && stale <= stale' + Kids(n) + Kids(pages[p])
    requires p in orphans || p == root || p in stale' || (n.mbr == pages[p].mbr && p !in stale)
    requires p in loose' || (p == root && n.level == 0) || |n.entries| >= 2
    requires loose <= loose' + {p}
    ensures Grove(P, pages[p := n], Adopt(par, Kids(pages[p]), p, n), root,
                  TopsAfter(orphans, Kids(pages[p]), n), stale', loose')
  {
    hide PageOk, Fresh;
    var was := Kids(pages[p]);
    assert root !in was && root !in Kids(n);
    assert p !in Kids(n);
    Rewrite(P, pages, par, orphans + {root}, stale, p, n, stale');
    assert TopsAfter(orphans + {root}, was, n) == TopsAfter(orphans, was, n) + {root};
  }

  /** A node of the tree takes one more entry. */
  lemma Attach(P: Params, pages: map<Id, Page>, par: map<Id, Id>, root: Id, orphans: set<Id>,
               stale: set<Id>, loose: set<Id>, p: Id, e: Entry)
    returns (pages': map<Id, Page>, par': map<Id, Id>, stale': set<Id>)
    requires Tree(P, pages, par, root, orphans, stale, loose)
    requires p in pages && p !in orphans && |pages[p].entries| < P.Capacity(pages[p].level)
    requires |pages[p].entries| >= 1 || (p == root && pages[p].level == 0)
    requires Insertable(P, pages, orphans, pages[p].level, e)
    requires p == root ==> p !in stale
    ensures PageOk(P, pages[p])
    ensures pages' == pages[p := Extended(pages[p], e)]
    ensures stale' == if p == root || Contains(pages[p].mbr, e.mbr) then stale else stale + {p}
    ensures Tree(P, pages', par', root, orphans - Piece(pages[p].level, e), stale', loose)
    ensures Data(pages') == Data(pages) + Gain(pages[p].level, e)
    ensures forall c :: c in par ==> c in par' && par'[c] == par[c]
  {
    var n := pages[p];
    assert PageOk(P, n);
    hide Fresh, Grove, LevelsBelow, Adopt, TopsAfter, Data, Insertable, Ids;
    var n' := Extended(n, e);
    pages', par' := pages[p := n'], Adopt(par, Kids(n), p, n');
    stale' := if p == root || Contains(n.mbr, e.mbr) then stale else stale + {p};
    AttachPage(P, pages, par, root, orphans, stale, loose, p, e, stale');
    RewriteGrove(P, pages, par, root, orphans, stale, loose, p, n', stale', loose);
    ExtendedData(pages, p, e);
  }

  lemma ExtendedData(pages: map<Id, Page>, p: Id, e: Entry)
    requires p in pages && IsBox(pages[p].mbr, |pages[p].mbr.low|) && IsBox(e.mbr, |pages[p].mbr.low|)
    ensures Data(pages[p := Extended(pages[p], e)]) == Data(pages) + Gain(pages[p].level, e)
  {
    var n, n' := pages[p], Extended(pages[p], e);
    DataUpdate(pages, p, n');
    assert Leafs(n') == Leafs(n) + Gain(n.level, e);
    Cancel(Data(pages[p := n']), Data(pages) + Gain(n.level, e), Leafs(n));
  }

  lemma AttachPage(P: Params, pages: map<Id, Page>, par: map<Id, Id>, root: Id, orphans: set<Id>,
                   stale: set<Id>, loose: set<Id>, p: Id, e: Entry, stale': set<Id>)
    requires Tree(P, pages, par, root, orphans, stale, loose)
    requires p in pages && p !in orphans && |pages[p].entries| < P.Capacity(pages[p].level)
    requires Insertable(P, pages, orphans, pages[p].level, e)
    requires stale <= stale'
    ensures PageOk(P, pages[p])
    ensures
      var n, n' := pages[p], Extended(pages[p], e);
      && PageOk(P, n')
      && Kids(n') == Kids(n) + Piece(n.level, e)
      && Kids(n') <= Kids(n) + orphans && LevelsBelow(n', pages)
      && Fresh(n', pages, stale')
      && TopsAfter(orphans, Kids(n), n') == orphans - Piece(n.level, e)
      && (Contains(n.mbr, e.mbr) ==> n'.mbr == n.mbr)
      && forall c :: c in par ==> c in Adopt(par, Kids(n), p, n') && Adopt(par, Kids(n), p, n')[c] == par[c]
  {
    var n := pages[p];
    assert n.level > 0 ==> e.id !in Ids(n.entries) by {
      assert e.id in Kids(n) ==> e.id in par.Keys;
    }
    ExtendedOk(P, n, e);
    KidsOfExtended(n, e);
    if Contains(n.mbr, e.mbr) { ContainedCombine(n.mbr, e.mbr); }
    assert forall c :: c in Kids(n) ==> c in par && par[c] == p && pages[c].level + 1 == n.level;
  }

  /** An index page refreshes the box it stores for child `i` and gets the box of `n'`. */
  lemma Refit(P: Params, pages: map<Id, Page>, par: map<Id, Id>, root: Id, orphans: set<Id>,
              stale: set<Id>, loose: set<Id>, p: Id, i: nat, n': Page, kept: set<Id>)
    returns (stale': set<Id>)
    requires Tree(P, pages, par, root, orphans, stale, loose)
    requires p in pages && p !in orphans && pages[p].level > 0 && i < |pages[p].entries|
    requires
      var c := pages[p].entries[i].id;
      && stale <= {c} && c in pages
      && n'.level == pages[p].level
      && n'.entries == pages[p].entries[i := Entry(pages[c].mbr, c, pages[p].entries[i].data)]
    requires Bounds(P, n'.mbr, n'.entries)
    requires kept <= orphans
    ensures stale' == if p == root || n'.mbr == pages[p].mbr then {} else {p}
    ensures Tree(P, pages[p := n'], par, root, orphans, stale', loose)
    ensures OnlyBoxes(pages, pages[p := n'], kept)
  {
    hide Cover, Bounds, Kids, Adopt, TopsAfter, Fresh, PageOk, Linked, LevelsBelow;
    var n := pages[p];
    stale' := if p == root || n'.mbr == n.mbr then {} else {p};
    RefitPage(P, pages, par, root, orphans, stale, loose, p, i, n', stale');
    RewriteGrove(P, pages, par, root, orphans, stale, loose, p, n', stale', loose);
  }

  lemma RefitPage(P: Params, pages: map<Id, Page>, par: map<Id, Id>, root: Id, orphans: set<Id>,
                  stale: set<Id>, loose: set<Id>, p: Id, i: nat, n': Page, stale': set<Id>)
    requires Tree(P, pages, par, root, orphans, stale, loose)
    requires p in pages && p !in orphans && pages[p].level > 0 && i < |pages[p].entries|
    requires
      var c := pages[p].entries[i].id;
      && stale <= {c} && c in pages
      && n'.level == pages[p].level
      && n'.entries == pages[p].entries[i := Entry(pages[c].mbr, c, pages[p].entries[i].data)]
    requires Bounds(P, n'.mbr, n'.entries)
    ensures PageOk(P, n') && Kids(n') == Kids(pages[p]) && LevelsBelow(n', pages)
    ensures Fresh(n', pages, stale') && p !in stale
    ensures TopsAfter(orphans, Kids(pages[p]), n') == orphans
    ensures Adopt(par, Kids(pages[p]), p, n') == par
    ensures stale <= Kids(n')
  {
    hide Bounds, Cover, Grove;
    Inspect(P, pages, par, root, orphans, stale, loose, p);
    var n := pages[p];
    var c := n.entries[i].id;
    assert Ids(n'.entries) == Ids(n.entries) by {
      assert forall j :: 0 <= j < |n.entries| ==> n'.entries[j].id == n.entries[j].id;
    }
    assert c in Kids(n);
    assert PageOk(P, n') by {
      assert forall j :: 0 <= j < |n.entries| ==> n'.entries[j].id == n.entries[j].id;
    }
    assert Fresh(n', pages, stale') by {
      forall j | 0 <= j < |n'.entries|
        ensures var e := n'.entries[j]; e.id in pages && e.mbr == pages[e.id].mbr {
        if j != i {
          assert n'.entries[j] == n.entries[j];
          assert n.entries[j].id != c;
        }
      }
    }
  }

  /** What a grove says about one of its pages. */
  lemma Inspect(P: Params, pages: map<Id, Page>, par: map<Id, Id>, root: Id, orphans: set<Id>,
                stale: set<Id>, loose: set<Id>, p: Id)
    requires Grove(P, pages, par, root, orphans, stale, loose) && p in pages
    ensures PageOk(P, pages[p]) && Fresh(pages[p], pages, stale) && LevelsBelow(pages[p], pages)
    ensures Kids(pages[p]) <= par.Keys <= pages.Keys && Kids(pages[p]) !! orphans + {root}
    ensures orphans <= pages.Keys && root in pages && par.Keys == pages.Keys - orphans - {root}
    ensures forall c :: c in Kids(pages[p]) ==> par[c] == p
    ensures pages[p].level > 0 ==> Kids(pages[p]) == Ids(pages[p].entries) && DistinctIds(pages[p].entries)
    ensures p in loose || (p == root && pages[p].level == 0) || |pages[p].entries| >= 2
  {
    assert forall c :: c in Kids(pages[p]) ==> c in par;
  }

  // ---------------------------------------------------------------- dividing an overflowing node

  /** The data that a list of entries of one level carries. */
  ghost function Loads(level: nat, es: seq<Entry>): multiset<Entry> {
    if level == 0 then multiset(es) else multiset{}
  }

  ghost function Pieces(level: nat, es: seq<Entry>): set<Id> {
    if level == 0 then {} else Ids(es)
  }

  lemma DividedMember(n: Page, e: Entry, a: seq<Entry>, b: seq<Entry>, x: Entry)
    requires Divided(n, e, a, b) && (x in a || x in b)
    ensures x == e || x in n.entries
  {
    assert x in multiset(a) + multiset(b);
    assert x in n.entries + [e];
  }

  lemma DividedKids(n: Page, e: Entry, a: seq<Entry>, b: seq<Entry>)
    requires Divided(n, e, a, b)
    requires n.level > 0 ==> DistinctIds(n.entries) && e.id !in Ids(n.entries)
    ensures n.level > 0 ==> DistinctIds(a) && DistinctIds(b)
    ensures Pieces(n.level, a) !! Pieces(n.level, b)
    ensures Pieces(n.level, a) + Pieces(n.level, b) == Kids(n) + Piece(n.level, e)
  {
    if n.level > 0 {
      var all := n.entries + [e];
      assert forall i :: 0 <= i < |n.entries| ==> all[i] == n.entries[i];
      assert DistinctIds(all);
      DistinctSplit(all, a, b);
      assert Ids(all) == Ids(n.entries) + {e.id} by {
        assert all[|n.entries|] == e;
        forall k | k in Ids(n.entries) ensures k in Ids(all) {
          var i :| 0 <= i < |n.entries| && n.entries[i].id == k;
          assert all[i].id == k;
        }
      }
    }
  }

  /** Either part of a divided node makes a well-formed page over pages that exist. */
  lemma PartOk(P: Params, pages: map<Id, Page>, par: map<Id, Id>, root: Id, orphans: set<Id>,
               stale: set<Id>, loose: set<Id>, p: Id, e: Entry, a: seq<Entry>, b: seq<Entry>, stale': set<Id>)
    requires Grove(P, pages, par, root, orphans, stale, loose)
    requires p in pages && stale <= {p} && |a| <= P.Capacity(pages[p].level)
    requires Insertable(P, pages, orphans, pages[p].level, e)
    requires Divided(pages[p], e, a, b) && (pages[p].level > 0 ==> DistinctIds(a))
    ensures Boxes(a, P.dim) && PageOk(P, Packed(pages[p].level, a, P.dim))
    ensures Fresh(Packed(pages[p].level, a, P.dim), pages, stale')
    ensures LevelsBelow(Packed(pages[p].level, a, P.dim), pages)
  {
    var n := pages[p];
    forall i | 0 <= i < |a|
      ensures IsBox(a[i].mbr, P.dim)
      ensures n.level > 0 ==> a[i].id in pages && pages[a[i].id].level + 1 == n.level && a[i].mbr == pages[a[i].id].mbr {
      DividedMember(n, e, a, b, a[i]);
      if a[i] != e {
        var j :| 0 <= j < |n.entries| && n.entries[j] == a[i];
        assert n.level > 0 ==> n.entries[j].id in Kids(n);
      }
    }
  }

  /** What holds after page `p` keeps `keep` and gives `out` back. */
  ghost predicate IsCut(P: Params, pages: map<Id, Page>, pages': map<Id, Page>, orphans: set<Id>, orphans': set<Id>,
                        level: nat, e: Entry, out: seq<Entry>) {
    && orphans' == orphans - Piece(level, e) + Pieces(level, out)
    && Pieces(level, out) !! orphans - Piece(level, e)
    && (level > 0 ==> DistinctIds(out))
    && Data(pages') + Loads(level, out) == Data(pages) + Gain(level, e)
    && (forall i :: 0 <= i < |out| ==> Insertable(P, pages', orphans', level, out[i]))
  }

  /** Forced reinsertion: node `p` and the new entry `e` are divided into what `p` keeps and what
      is taken out. */
  lemma Cut(P: Params, pages: map<Id, Page>, par: map<Id, Id>, root: Id, orphans: set<Id>,
            stale: set<Id>, loose: set<Id>, p: Id, e: Entry, keep: seq<Entry>, out: seq<Entry>)
    returns (pages': map<Id, Page>, par': map<Id, Id>, orphans': set<Id>)
    requires stale <= {p} - {root}
    requires Tree(P, pages, par, root, orphans, stale, loose) && Solid(pages, orphans, loose)
    requires p in pages && p !in orphans && stale <= {p}
    requires Insertable(P, pages, orphans, pages[p].level, e)
    requires Divided(pages[p], e, keep, out) && 2 <= |keep| <= P.Capacity(pages[p].level)
    ensures Boxes(keep, P.dim) && pages' == pages[p := Packed(pages[p].level, keep, P.dim)]
    ensures Tree(P, pages', par', root, orphans', {p} - {root}, loose) && Solid(pages', orphans', loose)
    ensures IsCut(P, pages, pages', orphans, orphans', pages[p].level, e, out)
    ensures forall c :: c in par && c !in Kids(pages[p]) ==> c in par' && par'[c] == par[c]
  {
    hide *;
    var n := pages[p];
    CutPage(P, pages, par, root, orphans, stale, loose, p, e, keep, out);
    TreeGrove(P, pages, par, root, orphans, stale, loose);
    var n' := Packed(n.level, keep, P.dim);
    pages', par' := pages[p := n'], Adopt(par, Kids(n), p, n');
    orphans' := TopsAfter(orphans, Kids(n), n');
    RewriteGrove(P, pages, par, root, orphans, stale, loose, p, n', {p} - {root}, loose);
    CutResult(P, pages, par, root, orphans, stale, loose, p, e, keep, out);
    GroveTree(P, pages', par', root, orphans', {p} - {root}, loose);
  }

  lemma TreeGrove(P: Params, pages: map<Id, Page>, par: map<Id, Id>, root: Id, orphans: set<Id>, stale: set<Id>, loose: set<Id>)
    requires Tree(P, pages, par, root, orphans, stale, loose)
    ensures Grove(P, pages, par, root, orphans, stale, loose) && UnderRoot(pages, root) && root in pages
  {
  }

  lemma GroveTree(P: Params, pages: map<Id, Page>, par: map<Id, Id>, root: Id, orphans: set<Id>, stale: set<Id>, loose: set<Id>)
    requires Grove(P, pages, par, root, orphans, stale, loose) && UnderRoot(pages, root)
    ensures Tree(P, pages, par, root, orphans, stale, loose)
  {
  }

  lemma CutPage(P: Params, pages: map<Id, Page>, par: map<Id, Id>, root: Id, orphans: set<Id>,
                stale: set<Id>, loose: set<Id>, p: Id, e: Entry, keep: seq<Entry>, out: seq<Entry>)
    requires stale <= {p} - {root}
    requires Tree(P, pages, par, root, orphans, stale, loose) && Solid(pages, orphans, loose)
    requires p in pages && p !in orphans
    requires Insertable(P, pages, orphans, pages[p].level, e)
    requires Divided(pages[p], e, keep, out) && 2 <= |keep| <= P.Capacity(pages[p].level)
    ensures Boxes(keep, P.dim)
    ensures
      var n, n' := pages[p], Packed(pages[p].level, keep, P.dim);
      && PageOk(P, n') && n'.level == n.level && |n'.entries| >= 2
      && Kids(n') <= Kids(n) + orphans && LevelsBelow(n', pages)
      && Fresh(n', pages, {p} - {root}) && stale <= {p} - {root} + Kids(n') + Kids(n)
      && loose <= loose + {p}
      && Pieces(n.level, keep) !! Pieces(n.level, out) && (n.level > 0 ==> DistinctIds(out))
      && Pieces(n.level, keep) + Pieces(n.level, out) == Kids(n) + Piece(n.level, e)
      && (p in orphans || p == root || p in {p} - {root})
      && forall c :: c in par && c !in Kids(n) ==>
           c in Adopt(par, Kids(n), p, n') && Adopt(par, Kids(n), p, n')[c] == par[c]
  {
    Inspect(P, pages, par, root, orphans, stale, loose, p);
    var n := pages[p];
    DividedKids(n, e, keep, out);
    PartOk(P, pages, par, root, orphans, stale, loose, p, e, keep, out, {p} - {root});
    hide Fresh, PageOk, LevelsBelow, Forest, Filled;
    assert Kids(Packed(n.level, keep, P.dim)) == Pieces(n.level, keep);
  }

  lemma CutResult(P: Params, pages: map<Id, Page>, par: map<Id, Id>, root: Id, orphans: set<Id>,
                  stale: set<Id>, loose: set<Id>, p: Id, e: Entry, keep: seq<Entry>, out: seq<Entry>)
    requires Tree(P, pages, par, root, orphans, stale, loose) && Solid(pages, orphans, loose)
    requires p in pages && p !in orphans && stale <= {p}
    requires Insertable(P, pages, orphans, pages[p].level, e)
    requires Divided(pages[p], e, keep, out) && Boxes(keep, P.dim)
    requires Pieces(pages[p].level, keep) !! Pieces(pages[p].level, out)
    requires Pieces(pages[p].level, keep) + Pieces(pages[p].level, out) == Kids(pages[p]) + Piece(pages[p].level, e)
    requires pages[p].level > 0 ==> DistinctIds(out)
    requires keep != []
    ensures
      var n' := Packed(pages[p].level, keep, P.dim);
      && IsCut(P, pages, pages[p := n'], orphans, TopsAfter(orphans, Kids(pages[p]), n'), pages[p].level, e, out)
      && Solid(pages[p := n'], TopsAfter(orphans, Kids(pages[p]), n'), loose)
  {
    var n := pages[p];
    var n' := Packed(n.level, keep, P.dim);
    var orphans' := TopsAfter(orphans, Kids(n), n');
    assert Kids(n) !! orphans by {
      assert forall c :: c in Kids(n) ==> c in par.Keys;
    }
    assert orphans' == orphans - Piece(n.level, e) + Pieces(n.level, out);
    CutData(pages, p, e, keep, out, P.dim);
    SolidAfter(P, pages, pages[p := n'], orphans, orphans', loose, p, n.level, e);
    forall i | 0 <= i < |out| ensures Insertable(P, pages[p := n'], orphans', n.level, out[i]) {
      CutInsertable(P, pages, par, root, orphans, stale, loose, p, e, keep, out, out[i], n', orphans');
    }
  }

  lemma CutInsertable(P: Params, pages: map<Id, Page>, par: map<Id, Id>, root: Id, orphans: set<Id>,
                      stale: set<Id>, loose: set<Id>, p: Id, e: Entry, keep: seq<Entry>, out: seq<Entry>,
                      x: Entry, n': Page, orphans': set<Id>)
    requires Tree(P, pages, par, root, orphans, stale, loose) && Solid(pages, orphans, loose)
    requires p in pages && p !in orphans && stale <= {p}
    requires Insertable(P, pages, orphans, pages[p].level, e)
    requires Divided(pages[p], e, keep, out) && x in out
    requires n'.level == pages[p].level
    requires orphans' == orphans - Piece(pages[p].level, e) + Pieces(pages[p].level, out)
    ensures Insertable(P, pages[p := n'], orphans', pages[p].level, x)
  {
    var n := pages[p];
    DividedMember(n, e, keep, out, x);
    assert n.level > 0 ==> x.id in Pieces(n.level, out) by {
      var i :| 0 <= i < |out| && out[i] == x;
      assert out[i].id in Ids(out);
    }
    if x != e {
      var j :| 0 <= j < |n.entries| && n.entries[j] == x;
      assert n.level > 0 ==> n.entries[j].id in Kids(n);
      assert n.level > 0 ==> x.id in par.Keys;
    }
  }

  lemma CutData(pages: map<Id, Page>, p: Id, e: Entry, keep: seq<Entry>, out: seq<Entry>, dim: nat)
    requires p in pages && Divided(pages[p], e, keep, out) && Boxes(keep, dim)
    ensures Data(pages[p := Packed(pages[p].level, keep, dim)]) + Loads(pages[p].level, out)
         == Data(pages) + Gain(pages[p].level, e)
  {
    var n, n' := pages[p], Packed(pages[p].level, keep, dim);
    DataUpdate(pages, p, n');
    assert Leafs(n') + Loads(n.level, out) == Leafs(n) + Gain(n.level, e);
    Balance(Data(pages[p := n']), Data(pages), Leafs(n), Leafs(n'), Loads(n.level, out), Gain(n.level, e));
  }

  lemma Balance<T>(a: multiset<T>, b: multiset<T>, l: multiset<T>, l': multiset<T>, x: multiset<T>, g: multiset<T>)
    requires a + l == b + l' && l' + x == l + g
    ensures a + x == b + g
  {
    forall t ensures (a + x)[t] == (b + g)[t] {
      assert (a + l)[t] == (b + l')[t] && (l' + x)[t] == (l + g)[t];
    }
  }

  // ---------------------------------------------------------------- splits

  /** A new parentless page is made of entries that wait for insertion. */
  lemma NewOrphan(P: Params, pages: map<Id, Page>, par: map<Id, Id>, root: Id, orphans: set<Id>,
                  stale: set<Id>, loose: set<Id>, q: Id, level: nat, es: seq<Entry>)
    returns (par': map<Id, Id>)
    requires Grove(P, pages, par, root, orphans, stale, loose)
    requires q !in pages && root in pages && 2 <= |es| <= P.Capacity(level)
    requires forall i :: 0 <= i < |es| ==> Insertable(P, pages, orphans, level, es[i])
    requires level > 0 ==> DistinctIds(es)
    ensures Boxes(es, P.dim)
    ensures Grove(P, pages[q := Packed(level, es, P.dim)], par', root, orphans - Pieces(level, es) + {q}, stale, loose)
    ensures Data(pages[q := Packed(level, es, P.dim)]) == Data(pages) + Loads(level, es)
    ensures forall c :: c in par && c !in Pieces(level, es) ==> c in par' && par'[c] == par[c]
    ensures Pieces(level, es) <= orphans
  {
    NewOrphanPage(P, pages, par, root, orphans, stale, loose, q, level, es);
    hide *;
    var n := Packed(level, es, P.dim);
    par' := Adopt(par, {}, q, n);
    AddPage(P, pages, par, orphans + {root}, stale, q, n, stale);
    NewOrphanGrove(P, pages, par, root, orphans, stale, loose, q, level, es);
    NewOrphanData(pages, q, n);
  }

  lemma NewOrphanPage(P: Params, pages: map<Id, Page>, par: map<Id, Id>, root: Id, orphans: set<Id>,
                      stale: set<Id>, loose: set<Id>, q: Id, level: nat, es: seq<Entry>)
    requires Grove(P, pages, par, root, orphans, stale, loose)
    requires q !in pages && root in pages && 2 <= |es| <= P.Capacity(level)
    requires forall i :: 0 <= i < |es| ==> Insertable(P, pages, orphans, level, es[i])
    requires level > 0 ==> DistinctIds(es)
    ensures Boxes(es, P.dim) && Forest(P, pages, par, orphans + {root}, stale)
    ensures
      var n := Packed(level, es, P.dim);
      && PageOk(P, n) && Kids(n) <= orphans + {root} && LevelsBelow(n, pages) && Fresh(n, pages, stale)
      && n.level == level && n.entries == es && stale <= stale + Kids(n)
  {
    hide Forest;
  }

  lemma NewOrphanGrove(P: Params, pages: map<Id, Page>, par: map<Id, Id>, root: Id, orphans: set<Id>,
                       stale: set<Id>, loose: set<Id>, q: Id, level: nat, es: seq<Entry>)
    requires Grove(P, pages, par, root, orphans, stale, loose)
    requires q !in pages && root in pages && 2 <= |es| && Boxes(es, P.dim)
    requires forall i :: 0 <= i < |es| ==> Insertable(P, pages, orphans, level, es[i])
    requires
      var n := Packed(level, es, P.dim);
      Forest(P, pages[q := n], Adopt(par, {}, q, n), TopsAfter(orphans + {root}, {}, n) + {q}, stale)
    ensures
      var n := Packed(level, es, P.dim);
      Grove(P, pages[q := n], Adopt(par, {}, q, n), root, orphans - Pieces(level, es) + {q}, stale, loose)
    ensures forall c :: c in par && c !in Pieces(level, es) ==>
      c in Adopt(par, {}, q, Packed(level, es, P.dim)) && Adopt(par, {}, q, Packed(level, es, P.dim))[c] == par[c]
    ensures Pieces(level, es) <= orphans
  {
    hide Forest, PageOk, Fresh;
    var n := Packed(level, es, P.dim);
    assert Kids(n) == Pieces(level, es);
    assert TopsAfter(orphans + {root}, {}, n) + {q} == orphans - Pieces(level, es) + {q} + {root};
  }

  lemma NewOrphanData(pages: map<Id, Page>, q: Id, n: Page)
    requires q !in pages
    ensures Data(pages[q := n]) == Data(pages) + Loads(n.level, n.entries)
  {
    DataAdd(pages, q, n);
  }

  /** What holds after the node `p` was divided into page `p` and the new parentless page `q`. */
  lemma SplitNode(P: Params, pages: map<Id, Page>, par: map<Id, Id>, root: Id, orphans: set<Id>,
                  stale: set<Id>, loose: set<Id>, p: Id, e: Entry, left: seq<Entry>, right: seq<Entry>, q: Id)
    returns (pages': map<Id, Page>, par': map<Id, Id>)
    requires Tree(P, pages, par, root, orphans, stale, loose) && Solid(pages, orphans, loose)
    requires p in pages && p !in orphans && stale <= {p} - {root} && q !in pages
    requires Insertable(P, pages, orphans, pages[p].level, e)
    requires Divided(pages[p], e, left, right)
    requires 2 <= |left| <= P.Capacity(pages[p].level) && 2 <= |right| <= P.Capacity(pages[p].level)
    ensures Boxes(left, P.dim) && Boxes(right, P.dim)
    ensures pages' == pages[p := Packed(pages[p].level, left, P.dim)][q := Packed(pages[p].level, right, P.dim)]
    ensures Grove(P, pages', par', root, orphans - Piece(pages[p].level, e) + {q}, {p} - {root}, loose)
    ensures Solid(pages', orphans - Piece(pages[p].level, e) + {q}, loose)
    ensures Data(pages') == Data(pages) + Gain(pages[p].level, e)
    ensures forall c :: c in par && c !in Kids(pages[p]) ==> c in par' && par'[c] == par[c]
  {
    hide *;
    var level := pages[p].level;
    SplitParts(P, pages, par, root, orphans, stale, loose, p, e, left, right);
    var pages1, par1, orphans1 := Cut(P, pages, par, root, orphans, stale, loose, p, e, left, right);
    TreeGrove(P, pages1, par1, root, orphans1, {p} - {root}, loose);
    SplitSets(P, pages, pages1, orphans, orphans1, level, e, left, right, pages[p]);
    par' := NewOrphan(P, pages1, par1, root, orphans1, {p} - {root}, loose, q, level, right);
    pages' := pages1[q := Packed(level, right, P.dim)];
    assert forall c :: c in par && c !in Kids(pages[p]) ==> c !in Pieces(level, right);
    PackedFacts(level, left, P.dim);
    SolidAfter(P, pages, pages', orphans, orphans - Piece(level, e) + {q}, loose, p, level, e);
  }

  lemma SplitParts(P: Params, pages: map<Id, Page>, par: map<Id, Id>, root: Id, orphans: set<Id>, stale: set<Id>,
                   loose: set<Id>, p: Id, e: Entry, left: seq<Entry>, right: seq<Entry>)
    requires Tree(P, pages, par, root, orphans, stale, loose) && p in pages
    requires Insertable(P, pages, orphans, pages[p].level, e) && Divided(pages[p], e, left, right)
    ensures
      var level := pages[p].level;
      && Kids(pages[p]) !! orphans && Piece(level, e) <= orphans
      && (level > 0 ==> DistinctIds(left) && DistinctIds(right))
      && Pieces(level, left) + Pieces(level, right) == Kids(pages[p]) + Piece(level, e)
      && forall c :: c in par && c !in Kids(pages[p]) ==> c !in Piece(level, e)
  {
    Inspect(P, pages, par, root, orphans, stale, loose, p);
    hide Forest;
    DividedKids(pages[p], e, left, right);
  }

  lemma SplitSets(P: Params, pages: map<Id, Page>, pages1: map<Id, Page>, orphans: set<Id>, orphans1: set<Id>,
                  level: nat, e: Entry, left: seq<Entry>, right: seq<Entry>, n: Page)
    requires IsCut(P, pages, pages1, orphans, orphans1, level, e, right)
    requires Kids(n) !! orphans && Piece(level, e) <= orphans
    requires Pieces(level, left) + Pieces(level, right) == Kids(n) + Piece(level, e)
    ensures forall q :: orphans1 - Pieces(level, right) + {q} == orphans - Piece(level, e) + {q}
    ensures forall i :: 0 <= i < |right| ==> Insertable(P, pages1, orphans1, level, right[i])
    ensures Data(pages1) + Loads(level, right) == Data(pages) + Gain(level, e)
    ensures Pieces(level, right) <= orphans1 && Pieces(level, right) <= Kids(n) + Piece(level, e)
  {
    hide Insertable, Data;
    assert orphans1 - Pieces(level, right) == orphans - Piece(level, e);
  }

  /** The index page that a root split leaves: two entries for the two halves. */
  ghost function NewRoot(P: Params, left: Page, a: Id, right: Page, b: Id): Page
    requires IsBox(left.mbr, P.dim) && IsBox(right.mbr, P.dim)
  {
    Packed(left.level + 1, [Entry(left.mbr, a, []), Entry(right.mbr, b, [])], P.dim)
  }

  /** Root growth: the root's content moves to the new page `a`, and the root page becomes an index
      page above `a` and its parentless twin `b`. */
  lemma RaiseRoot(P: Params, pages: map<Id, Page>, par: map<Id, Id>, root: Id, orphans: set<Id>,
                  loose: set<Id>, a: Id, b: Id)
    returns (par': map<Id, Id>)
    requires P.Sane()
    requires Grove(P, pages, par, root, orphans + {b}, {}, loose) && b !in orphans
    requires root in pages && a !in pages && b in pages
    requires pages[b].level == pages[root].level && |pages[root].entries| >= 2
    requires forall q :: q in pages && q != root && q != b ==> pages[q].level < pages[root].level
    ensures PageOk(P, pages[root]) && PageOk(P, pages[b])
    ensures
      var top := NewRoot(P, pages[root], a, pages[b], b);
      var pages' := pages[a := pages[root]][root := top];
      Tree(P, pages', par', root, orphans, {}, loose) && Data(pages') == Data(pages)
  {
    Inspect(P, pages, par, root, orphans + {b}, {}, loose, root);
    Inspect(P, pages, par, root, orphans + {b}, {}, loose, b);
    var n, top := pages[root], NewRoot(P, pages[root], a, pages[b], b);
    var pages' := pages[a := n][root := top];
    TwoEntries(P, n, a, pages[b], b);
    par' := RaiseForest(P, pages, par, root, orphans, loose, a, b);
    assert Filled(pages', root, loose);
    RaiseData(pages, root, n, a, top);
  }

  lemma RaiseData(pages: map<Id, Page>, root: Id, n: Page, a: Id, top: Page)
    requires root in pages && pages[root] == n && a !in pages && top.level > 0
    ensures Data(pages[a := n][root := top]) == Data(pages)
  {
    DataAdd(pages, a, n);
    DataUpdate(pages[a := n], root, top);
    assert Leafs(top) == multiset{};
    Cancel(Data(pages[a := n][root := top]), Data(pages), Leafs(n));
  }

  lemma RaiseForest(P: Params, pages: map<Id, Page>, par: map<Id, Id>, root: Id, orphans: set<Id>,
                    loose: set<Id>, a: Id, b: Id)
    returns (par': map<Id, Id>)
    requires Grove(P, pages, par, root, orphans + {b}, {}, loose) && b !in orphans
    requires root in pages && a !in pages && b in pages && pages[b].level == pages[root].level
    requires IsBox(pages[root].mbr, P.dim) && IsBox(pages[b].mbr, P.dim)
    requires
      var top := NewRoot(P, pages[root], a, pages[b], b);
      PageOk(P, top) && Kids(top) == {a, b}
    ensures
      var top := NewRoot(P, pages[root], a, pages[b], b);
      Forest(P, pages[a := pages[root]][root := top], par', orphans + {root}, {})
  {
    var n, top := pages[root], NewRoot(P, pages[root], a, pages[b], b);
    RaisePages(P, pages, par, root, orphans, loose, a, b);
    hide *;
    var tops := orphans + {b} + {root};
    var pages1, par1, tops1 := pages - {root}, par - Kids(n), tops - {root} + Kids(n);
    RemovePage(P, pages, par, tops, {}, root);
    var pages2, par2, tops2 := pages1[a := n], Adopt(par1, {}, a, n), orphans + {b} + {a};
    AddPage(P, pages1, par1, tops1, {}, a, n, {});
    AddPage(P, pages2, par2, tops2, {}, root, top, {});
    par' := Adopt(par2, {}, root, top);
    assert pages2[root := top] == pages[a := n][root := top];
  }

  lemma RaisePages(P: Params, pages: map<Id, Page>, par: map<Id, Id>, root: Id, orphans: set<Id>,
                   loose: set<Id>, a: Id, b: Id)
    requires Grove(P, pages, par, root, orphans + {b}, {}, loose) && b !in orphans
    requires root in pages && a !in pages && b in pages && pages[b].level == pages[root].level
    requires IsBox(pages[root].mbr, P.dim) && IsBox(pages[b].mbr, P.dim)
    requires Kids(NewRoot(P, pages[root], a, pages[b], b)) == {a, b}
    ensures PageOk(P, pages[root]) && Forest(P, pages, par, orphans + {b} + {root}, {})
    ensures
      var n, top := pages[root], NewRoot(P, pages[root], a, pages[b], b);
      var pages1, tops1, tops2 := pages - {root}, orphans + {b} + {root} - {root} + Kids(n), orphans + {b} + {a};
      && Kids(n) <= tops1 && LevelsBelow(n, pages1) && Fresh(n, pages1, {})
      && TopsAfter(tops1, {}, n) + {a} == tops2
      && Kids(top) <= tops2 && LevelsBelow(top, pages1[a := n]) && Fresh(top, pages1[a := n], {})
      && TopsAfter(tops2, {}, top) + {root} == orphans + {root}
  {
    Inspect(P, pages, par, root, orphans + {b}, {}, loose, root);
    var n, top := pages[root], NewRoot(P, pages[root], a, pages[b], b);
    hide Forest, PageOk;
    assert LevelsBelow(n, pages - {root}) && Fresh(n, pages - {root}, {}) by {
      assert n.level > 0 ==> forall i :: 0 <= i < |n.entries| ==> n.entries[i].id in Kids(n);
    }
    assert TopsAfter(orphans + {b} + {root} - {root} + Kids(n), {}, n) + {a} == orphans + {b} + {a};
    assert TopsAfter(orphans + {b} + {a}, {}, top) + {root} == orphans + {root};
  }

  lemma TwoEntries(P: Params, left: Page, a: Id, right: Page, b: Id)
    requires P.Sane() && a != b
    requires IsBox(left.mbr, P.dim) && IsBox(right.mbr, P.dim)
    ensures PageOk(P, NewRoot(P, left, a, right, b)) && Kids(NewRoot(P, left, a, right, b)) == {a, b}
  {
    var es := NewRoot(P, left, a, right, b).entries;
    assert es[0].id == a && es[1].id == b;
  }

  // ---------------------------------------------------------------- deletions

  lemma WithoutMember(es: seq<Entry>, i: nat, k: nat) returns (j: nat)
    requires i < |es| && k < |es| - 1
    ensures j < |es| && j != i && Without(es, i)[k] == es[j]
  {
    j := if k == i then |es| - 1 else k;
  }

  lemma ShrunkBounds(P: Params, n: Page, i: nat)
    requires PageOk(P, n) && i < |n.entries|
    ensures
      var n' := Shrunk(P, n, i);
      && n'.level == n.level && n'.entries == Without(n.entries, i) && |n'.entries| <= P.Capacity(n.level)
      && Bounds(P, n'.mbr, n'.entries)
  {
    forall k | 0 <= k < |n.entries| - 1 ensures Without(n.entries, i)[k] in n.entries {
      var j := WithoutMember(n.entries, i, k);
    }
  }

  /** Entries and ids after position `i` is gone. */
  lemma WithoutIds(es: seq<Entry>, i: nat)
    requires i < |es|
    ensures forall k :: 0 <= k < |Without(es, i)| ==> Without(es, i)[k] in es
    ensures DistinctIds(es) ==> DistinctIds(Without(es, i)) && Ids(Without(es, i)) == Ids(es) - {es[i].id}
  {
    var rest := Without(es, i);
    hide Without;
    forall k | 0 <= k < |rest| ensures rest[k] in es && (DistinctIds(es) ==> rest[k].id != es[i].id) {
      var j := WithoutMember(es, i, k);
    }
    if DistinctIds(es) {
      forall k, l | 0 <= k < l < |rest| ensures rest[k].id != rest[l].id {
        WithoutOrder(es, i, k, l);
      }
      forall c | c in Ids(es) && c != es[i].id ensures c in Ids(rest) {
        var j :| 0 <= j < |es| && es[j].id == c;
        WithoutAt(es, i, j);
      }
    }
  }

  lemma WithoutOrder(es: seq<Entry>, i: nat, k: nat, l: nat)
    requires i < |es| && k < l < |es| - 1 && DistinctIds(es)
    ensures Without(es, i)[k].id != Without(es, i)[l].id
  {
  }

  lemma WithoutAt(es: seq<Entry>, i: nat, j: nat)
    requires i < |es| && j < |es| && j != i
    ensures Without(es, i)[if j == |es| - 1 then i else j] == es[j]
  {
  }

  lemma ShrunkPage(P: Params, n: Page, i: nat)
    requires PageOk(P, n) && i < |n.entries|
    ensures PageOk(P, Shrunk(P, n, i))
    ensures Kids(Shrunk(P, n, i)) == Kids(n) - Piece(n.level, n.entries[i])
    ensures forall k :: 0 <= k < |Shrunk(P, n, i).entries| ==> Shrunk(P, n, i).entries[k] in n.entries
  {
    ShrunkBounds(P, n, i);
    WithoutIds(n.entries, i);
    hide Cover, Bounds, Without, Ids, DistinctIds;
  }

  /** A page loses one entry: a data entry leaves the tree, a child becomes parentless. */
  lemma Detach(P: Params, pages: map<Id, Page>, par: map<Id, Id>, root: Id, orphans: set<Id>,
               stale: set<Id>, loose: set<Id>, p: Id, i: nat)
    returns (pages': map<Id, Page>, par': map<Id, Id>, stale': set<Id>)
    requires Grove(P, pages, par, root, orphans, stale, loose)
    requires p in pages && p !in orphans && i < |pages[p].entries|
    requires stale <= Piece(pages[p].level, pages[p].entries[i])
    ensures Boxes(pages[p].entries, P.dim) && pages' == pages[p := Shrunk(P, pages[p], i)]
    ensures stale' == if p == root || pages'[p].mbr == pages[p].mbr then {} else {p}
    ensures Grove(P, pages', par', root, orphans + Piece(pages[p].level, pages[p].entries[i]), stale', loose + {p})
    ensures Data(pages') + Gain(pages[p].level, pages[p].entries[i]) == Data(pages)
    ensures forall c :: c in par && c !in Piece(pages[p].level, pages[p].entries[i]) ==> c in par' && par'[c] == par[c]
  {
    var n, e := pages[p], pages[p].entries[i];
    Inspect(P, pages, par, root, orphans, stale, loose, p);
    hide Grove;
    var n' := Shrunk(P, n, i);
    stale' := if p == root || n'.mbr == n.mbr then {} else {p};
    DetachPage(P, pages, par, root, orphans, stale, loose, p, i, stale');
    hide *;
    pages', par' := pages[p := n'], Adopt(par, Kids(n), p, n');
    RewriteGrove(P, pages, par, root, orphans, stale, loose, p, n', stale', loose + {p});
    DetachData(pages, p, n', i);
  }

  lemma DetachPage(P: Params, pages: map<Id, Page>, par: map<Id, Id>, root: Id, orphans: set<Id>,
                   stale: set<Id>, loose: set<Id>, p: Id, i: nat, stale': set<Id>)
    requires Grove(P, pages, par, root, orphans, stale, loose)
    requires p in pages && p !in orphans && i < |pages[p].entries|
    requires stale <= Piece(pages[p].level, pages[p].entries[i])
    ensures Boxes(pages[p].entries, P.dim)
    ensures
      var n, n', e := pages[p], Shrunk(P, pages[p], i), pages[p].entries[i];
      && PageOk(P, n') && n'.level == n.level
      && Kids(n') <= Kids(n) + orphans && LevelsBelow(n', pages)
      && Fresh(n', pages, stale') && stale <= stale' + Kids(n') + Kids(n) && p !in stale
      && TopsAfter(orphans, Kids(n), n') == orphans + Piece(n.level, e)
      && loose <= loose + {p} + {p}
      && multiset(n'.entries) + multiset{e} == multiset(n.entries)
      && forall c :: c in par && c !in Piece(n.level, e) ==>
           c in Adopt(par, Kids(n), p, n') && Adopt(par, Kids(n), p, n')[c] == par[c]
  {
    Inspect(P, pages, par, root, orphans, stale, loose, p);
    var n, e := pages[p], pages[p].entries[i];
    ShrunkPage(P, n, i);
    var n' := Shrunk(P, n, i);
    hide Forest, PageOk, Filled;
    assert n.level > 0 ==> e.id in Kids(n);
    assert Fresh(n', pages, stale') by {
      forall k | n.level > 0 && 0 <= k < |n'.entries|
        ensures n'.entries[k].id in pages && n'.entries[k].mbr == pages[n'.entries[k].id].mbr {
        assert n'.entries[k].id in Kids(n');
        assert n'.entries[k] in n.entries;
      }
    }
  }

  lemma DetachData(pages: map<Id, Page>, p: Id, n': Page, i: nat)
    requires p in pages && n'.level == pages[p].level && i < |pages[p].entries|
    requires multiset(n'.entries) + multiset{pages[p].entries[i]} == multiset(pages[p].entries)
    ensures Data(pages[p := n']) + Gain(pages[p].level, pages[p].entries[i]) == Data(pages)
  {
    var n := pages[p];
    DataUpdate(pages, p, n');
    Balance(Data(pages[p := n']), Data(pages), Leafs(n), Leafs(n'), Gain(n.level, n.entries[i]), multiset{});
  }

  /** A parentless page is dissolved: all it held waits for insertion again. */
  lemma Dissolve(P: Params, pages: map<Id, Page>, par: map<Id, Id>, root: Id, orphans: set<Id>,
                 loose: set<Id>, o: Id)
    returns (par': map<Id, Id>)
    requires Grove(P, pages, par, root, orphans, {}, loose) && Solid(pages, orphans, loose) && o in orphans
    ensures o in pages && Grove(P, pages - {o}, par', root, orphans - {o} + Kids(pages[o]), {}, loose - {o})
    ensures Solid(pages - {o}, orphans - {o} + Kids(pages[o]), loose - {o})
    ensures Data(pages - {o}) + Loads(pages[o].level, pages[o].entries) == Data(pages)
    ensures forall i :: 0 <= i < |pages[o].entries| ==>
      Insertable(P, pages - {o}, orphans - {o} + Kids(pages[o]), pages[o].level, pages[o].entries[i])
    ensures pages[o].level > 0 ==> DistinctIds(pages[o].entries)
  {
    Inspect(P, pages, par, root, orphans, {}, loose, root);
    Inspect(P, pages, par, root, orphans, {}, loose, o);
    DissolveEntries(P, pages, par, root, orphans, loose, o);
    par' := par - Kids(pages[o]);
    assert orphans + {root} - {o} + Kids(pages[o]) == orphans - {o} + Kids(pages[o]) + {root};
    assert Forest(P, pages, par, orphans + {root}, {});
    assert Filled(pages - {o}, root, loose - {o});
    hide Forest, PageOk, Fresh, Kids, Insertable, Filled;
    RemovePage(P, pages, par, orphans + {root}, {}, o);
    DataRemove(pages, o);
  }

  lemma DissolveEntries(P: Params, pages: map<Id, Page>, par: map<Id, Id>, root: Id, orphans: set<Id>,
                        loose: set<Id>, o: Id)
    requires Grove(P, pages, par, root, orphans, {}, loose) && Solid(pages, orphans, loose) && o in orphans && o in pages
    requires PageOk(P, pages[o]) && Fresh(pages[o], pages, {}) && LevelsBelow(pages[o], pages)
    requires Kids(pages[o]) !! orphans + {root}
    ensures forall i :: 0 <= i < |pages[o].entries| ==>
      Insertable(P, pages - {o}, orphans - {o} + Kids(pages[o]), pages[o].level, pages[o].entries[i])
  {
    assert Filled(pages, root, loose);
    hide Grove;
    forall i | 0 <= i < |pages[o].entries|
      ensures Insertable(P, pages - {o}, orphans - {o} + Kids(pages[o]), pages[o].level, pages[o].entries[i]) {
      assert pages[o].level > 0 ==> pages[o].entries[i].id in Kids(pages[o]);
    }
  }

  /** Root shrink: the root's only child is copied onto the root page and its own page goes away. */
  lemma LowerRoot(P: Params, pages: map<Id, Page>, par: map<Id, Id>, root: Id, orphans: set<Id>,
                  loose: set<Id>, c: Id, loose': set<Id>)
    returns (par': map<Id, Id>)
    requires Grove(P, pages, par, root, orphans, {}, loose) && loose - {root, c} <= loose'
    requires root in pages && pages[root].level > 0 && Kids(pages[root]) == {c}
    requires c in pages && (root in loose' || pages[c].level == 0 || |pages[c].entries| >= 2)
    ensures c in pages && c != root && c !in orphans
    ensures Grove(P, (pages - {c})[root := pages[c]], par', root, orphans, {}, loose')
    ensures Data((pages - {c})[root := pages[c]]) == Data(pages)
  {
    Inspect(P, pages, par, root, orphans, {}, loose, root);
    assert c in Kids(pages[root]) && c in pages && c !in orphans;
    Inspect(P, pages, par, root, orphans, {}, loose, c);
    assert c !in Kids(pages[c]) && root !in Kids(pages[c]);
    assert Forest(P, pages, par, orphans + {root}, {});
    var n := pages[c];
    var pages' := (pages - {c})[root := n];
    assert Filled(pages', root, loose');
    LowerPages(P, pages, par, root, orphans, loose, c);
    var pages1, par1 := pages - {root}, par - Kids(pages[root]);
    var tops1 := orphans + {root} - {root} + Kids(pages[root]);
    var pages2, par2, tops2 := pages1 - {c}, par1 - Kids(n), tops1 - {c} + Kids(n);
    hide Forest, PageOk, Fresh, Kids, LevelsBelow, Filled, TopsAfter;
    RemovePage(P, pages, par, orphans + {root}, {}, root);
    RemovePage(P, pages1, par1, tops1, {}, c);
    AddPage(P, pages2, par2, tops2, {}, root, n, {});
    par' := Adopt(par2, {}, root, n);
    assert pages2[root := n] == pages';
    LowerData(pages, root, c);
  }

  lemma LowerPages(P: Params, pages: map<Id, Page>, par: map<Id, Id>, root: Id, orphans: set<Id>,
                   loose: set<Id>, c: Id)
    requires Grove(P, pages, par, root, orphans, {}, loose)
    requires root in pages && Kids(pages[root]) == {c} && c in pages && c !in orphans && c != root
    ensures
      var n := pages[c];
      var tops1 := orphans + {root} - {root} + Kids(pages[root]);
      var tops2 := tops1 - {c} + Kids(n);
      && c in tops1 && root !in pages - {root} - {c} && Kids(n) <= tops2
      && LevelsBelow(n, pages - {root} - {c}) && Fresh(n, pages - {root} - {c}, {})
      && TopsAfter(tops2, {}, n) + {root} == orphans + {root}
  {
    Inspect(P, pages, par, root, orphans, {}, loose, c);
    var n := pages[c];
    hide Forest, PageOk;
    assert n.level > 0 ==> forall i :: 0 <= i < |n.entries| ==> n.entries[i].id in Kids(n);
  }

  lemma LowerData(pages: map<Id, Page>, root: Id, c: Id)
    requires root in pages && c in pages && c != root && pages[root].level > 0
    ensures Data((pages - {c})[root := pages[c]]) == Data(pages)
  {
    DataRemove(pages, c);
    DataUpdate(pages - {c}, root, pages[c]);
  }
}
