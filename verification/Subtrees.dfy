/** The data entries below one page, listed by descending the tree, and why the list below the root
    is all the stored data. */
module Subtrees {
  import opened Geometry
  import opened Pages

  /** The data entries below page `id`, which is on `level`. */
  ghost function Under(pages: map<Id, Page>, id: Id, level: nat): seq<Entry>
    decreases level, 0, 0
  {
    if id !in pages || pages[id].level != level then []
    else if level == 0 then pages[id].entries
    else UnderAll(pages, pages[id].entries, level - 1)
  }

  /** The data entries below all the pages that `es` point to. */
  ghost function UnderAll(pages: map<Id, Page>, es: seq<Entry>, level: nat): seq<Entry>
    decreases level, 1, |es|
  {
    if es == [] then []
    else UnderAll(pages, es[..|es|-1], level) + Under(pages, es[|es|-1].id, level)
  }

  /** What a search needs: the pages form one tree whose boxes are up to date, and only the root may
      be empty. */
  ghost predicate Sound(P: Params, pages: map<Id, Page>, par: map<Id, Id>, root: Id) {
    && Tree(P, pages, par, root, {}, {}, pages.Keys)
    && forall p :: p in pages && p != root ==> pages[p].entries != []
  }

  lemma FilledSound(P: Params, pages: map<Id, Page>, par: map<Id, Id>, root: Id)
    requires Tree(P, pages, par, root, {}, {}, {})
    ensures Sound(P, pages, par, root)
  {
  }

  lemma {:induction false} UnderAllMember(pages: map<Id, Page>, es: seq<Entry>, level: nat, x: Entry)
    ensures x in UnderAll(pages, es, level) <==> exists i :: 0 <= i < |es| && x in Under(pages, es[i].id, level)
  {
    if es != [] {
      var most := es[..|es|-1];
      UnderAllMember(pages, most, level, x);
      if i :| 0 <= i < |es| && x in Under(pages, es[i].id, level) {
        assert i < |es| - 1 ==> most[i] == es[i];
      }
      if i :| 0 <= i < |most| && x in Under(pages, most[i].id, level) {
        assert most[i] == es[i];
      }
    }
  }

  /** Whatever lies below a page lies inside the page's box. */
  lemma {:induction false} UnderInside(P: Params, pages: map<Id, Page>, par: map<Id, Id>, root: Id, id: Id, x: Entry)
    requires Sound(P, pages, par, root) && id in pages && x in Under(pages, id, pages[id].level)
    ensures IsBox(pages[id].mbr, P.dim) && IsBox(x.mbr, P.dim) && Contains(pages[id].mbr, x.mbr)
    decreases pages[id].level
  {
    var n := pages[id];
    assert PageOk(P, n) && Fresh(n, pages, {});
    if n.level > 0 {
      UnderAllMember(pages, n.entries, n.level - 1, x);
      var i :| 0 <= i < |n.entries| && x in Under(pages, n.entries[i].id, n.level - 1);
      assert n.entries[i].id in Kids(n);
      UnderInside(P, pages, par, root, n.entries[i].id, x);
    }
  }

  /** Whatever lies below a page is stored. */
  lemma {:induction false} UnderStored(pages: map<Id, Page>, id: Id, level: nat, x: Entry)
    requires x in Under(pages, id, level)
    ensures x in Data(pages)
    decreases level
  {
    if level > 0 {
      var es := pages[id].entries;
      UnderAllMember(pages, es, level - 1, x);
      var i :| 0 <= i < |es| && x in Under(pages, es[i].id, level - 1);
      UnderStored(pages, es[i].id, level - 1, x);
    } else {
      assert x in Leafs(pages[id]);
      DataMember(pages, pages.Keys, x);
    }
  }

  // ---------------------------------------------------------------- everything lies below the root

  ghost function Below(pages: map<Id, Page>, S: set<Id>, level: nat): multiset<Entry> {
    if S == {} then multiset{}
    else
      var p := Any(S);
      multiset(Under(pages, p, level)) + Below(pages, S - {p}, level)
  }

  lemma {:induction false} BelowSplit(pages: map<Id, Page>, S: set<Id>, level: nat, p: Id)
    requires p in S
    ensures Below(pages, S, level) == multiset(Under(pages, p, level)) + Below(pages, S - {p}, level)
  {
    var k := Any(S);
    if k != p {
      BelowSplit(pages, S - {k}, level, p);
      BelowSplit(pages, S - {p}, level, k);
      assert S - {k} - {p} == S - {p} - {k};
    }
  }

  lemma {:induction false} BelowUnion(pages: map<Id, Page>, A: set<Id>, B: set<Id>, level: nat)
    requires A !! B
    ensures Below(pages, A + B, level) == Below(pages, A, level) + Below(pages, B, level)
  {
    if A == {} {
      assert A + B == B;
    } else {
      var p := Any(A);
      BelowUnion(pages, A - {p}, B, level);
      BelowSplit(pages, A + B, level, p);
      assert A + B - {p} == (A - {p}) + B;
    }
  }

  lemma {:induction false} BelowKids(pages: map<Id, Page>, es: seq<Entry>, level: nat)
    requires DistinctIds(es)
    ensures multiset(UnderAll(pages, es, level)) == Below(pages, Ids(es), level)
  {
    if es != [] {
      var most, last := es[..|es|-1], es[|es|-1];
      assert DistinctIds(most);
      BelowKids(pages, most, level);
      assert forall i :: 0 <= i < |most| ==> most[i] == es[i];
      assert Ids(most) == Ids(es) - {last.id};
      BelowSplit(pages, Ids(es), level, last.id);
    } else {
      assert Ids(es) == {};
    }
  }

  ghost function KidsOf(pages: map<Id, Page>, S: set<Id>): set<Id>
    requires S <= pages.Keys
  {
    set p, c | p in S && c in Kids(pages[p]) :: c
  }

  lemma OkDistinct(P: Params, n: Page)
    requires PageOk(P, n) && n.level > 0
    ensures DistinctIds(n.entries)
  {
  }

  /** What lies below pages of one level lies below their children. */
  lemma {:induction false} BelowStep(P: Params, pages: map<Id, Page>, par: map<Id, Id>, root: Id, S: set<Id>, level: nat)
    requires Sound(P, pages, par, root) && S <= pages.Keys
    requires forall p :: p in S ==> pages[p].level == level + 1
    ensures Below(pages, S, level + 1) == Below(pages, KidsOf(pages, S), level)
  {
    hide PageOk, Fresh, Filled;
    if S == {} {
      assert KidsOf(pages, S) == {};
    } else {
      var p := Any(S);
      BelowStep(P, pages, par, root, S - {p}, level);
      BelowSplit(pages, S, level + 1, p);
      OkDistinct(P, pages[p]);
      BelowKids(pages, pages[p].entries, level);
      var rest := KidsOf(pages, S - {p});
      assert Kids(pages[p]) !! rest by {
        assert forall q, c {:trigger c in Kids(pages[q])} :: q in pages && c in Kids(pages[q]) ==> par[c] == q;
      }
      assert KidsOf(pages, S) == Kids(pages[p]) + rest;
      BelowUnion(pages, Kids(pages[p]), rest, level);
    }
  }

  /** Every page on a level below the root's has its parent one level up. */
  lemma ParentsAbove(P: Params, pages: map<Id, Page>, par: map<Id, Id>, root: Id, level: nat)
    requires Sound(P, pages, par, root) && 0 < level <= pages[root].level
    ensures AtLevel(pages, level) <= pages.Keys
    ensures KidsOf(pages, AtLevel(pages, level)) == AtLevel(pages, level - 1)
  {
    hide PageOk, Fresh, Filled, Kids;
    var S, T := AtLevel(pages, level), AtLevel(pages, level - 1);
    forall c | c in T ensures c in KidsOf(pages, S) {
      assert c in par && c in Kids(pages[par[c]]);
      var p := par[c];
      assert p in pages && c in Kids(pages[p]);
      assert pages[c].level + 1 == pages[p].level;
      assert p in S;
    }
    forall c | c in KidsOf(pages, S) ensures c in T {
      var p :| p in S && c in Kids(pages[p]);
    }
  }

  lemma {:induction false} BelowLevel(P: Params, pages: map<Id, Page>, par: map<Id, Id>, root: Id, level: nat)
    requires Sound(P, pages, par, root) && root in pages && level <= pages[root].level
    ensures Below(pages, AtLevel(pages, level), level) == Data(pages)
  {
    hide Sound, Below, KidsOf, Gather, Kids;
    if level == 0 {
      LeavesAll(pages, pages.Keys, AtLevel(pages, 0));
    } else {
      BelowLevel(P, pages, par, root, level - 1);
      ParentsAbove(P, pages, par, root, level);
      BelowStep(P, pages, par, root, AtLevel(pages, level), level - 1);
    }
  }

  lemma {:induction false} LeavesAll(pages: map<Id, Page>, keys: set<Id>, S: set<Id>)
    requires keys <= pages.Keys && S == set p | p in keys && pages[p].level == 0
    ensures Below(pages, S, 0) == Gather(pages, keys)
  {
    if keys == {} {
      assert S == {};
    } else {
      var k := Any(keys);
      LeavesAll(pages, keys - {k}, S - {k});
      GatherSplit(pages, keys, k);
      if pages[k].level == 0 {
        BelowSplit(pages, S, 0, k);
      } else {
        assert S - {k} == S;
      }
    }
  }

  /** All stored data, each entry as often as it is stored, lies below the root. */
  lemma UnderRootIsAll(P: Params, pages: map<Id, Page>, par: map<Id, Id>, root: Id)
    requires Sound(P, pages, par, root)
    ensures root in pages && multiset(Under(pages, root, pages[root].level)) == Data(pages)
  {
    var level := pages[root].level;
    BelowLevel(P, pages, par, root, level);
    forall p ensures p in AtLevel(pages, level) <==> p in {root} {
    }
    assert AtLevel(pages, level) == {root};
    BelowSplit(pages, {root}, level, root);
    assert {root} - {root} == {};
  }
}
