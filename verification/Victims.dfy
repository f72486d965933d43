/** Which entry a deletion takes when ids are not unique: the one asked for on every tree with the same
    data, exactly if no entry with that id has another box. */
module RTreeVictims {
  import opened Geometry
  import opened Lists
  import opened Pages
  import opened RTreeNode
  import opened RTreeModel
  import opened RTreeDeletion
  import opened Subtrees
  import BulkLoading
  import RTreeValidity

  // ---------------------------------------------------------------- the condition

  /** The pages of a tree on which a deletion may be called. */
  ghost predicate Deletable(P: Params, pages: map<Id, Page>, par: map<Id, Id>, root: Id) {
    && P.Sane() && Tree(P, pages, par, root, {}, {}, Thin(pages, root)) && NoneEmpty(pages, Thin(pages, root))
    && Apart(pages, Thin(pages, root)) && forall p :: p in pages ==> p >= 0
  }

  lemma RaggedDeletable(t: RTree)
    requires t.Ragged()
    ensures Deletable(t.P, t.pages, t.par, t.rootID)
  {
    RaggedParts(t);
    hide Forest, RTree.Follows;
  }

  lemma FullDeletable(P: Params, pages: map<Id, Page>, par: map<Id, Id>, root: Id)
    requires P.Sane() && Tree(P, pages, par, root, {}, {}, {}) && forall p :: p in pages ==> p >= 0
    ensures Deletable(P, pages, par, root)
  {
    hide Forest;
    assert Thin(pages, root) == {};
  }

  /** On this tree, if it holds `data`, the deletion takes an entry with the box asked for. */
  ghost predicate TakesBox(P: Params, pages: map<Id, Page>, par: map<Id, Id>, root: Id, data: multiset<Entry>, mbr: Region, id: Id) {
    Deletable(P, pages, par, root) && Data(pages) == data ==> forall gone :: Taken(pages, root, mbr, id, gone) ==> gone.mbr == mbr
  }

  ghost predicate OneBox(data: multiset<Entry>, mbr: Region, id: Id) {
    forall x :: x in data && x.id == id ==> x.mbr == mbr
  }

  /** A stored id and box is deleted from every tree with this data, whatever the tree looks like, exactly
      if all stored entries with this id have this box. */
  lemma TakenExactly(P: Params, data: multiset<Entry>, mbr: Region, id: Id)
    requires P.Sane() && Stored(data, mbr, id) && forall x :: x in data ==> IsBox(x.mbr, P.dim)
    ensures (forall pages, par, root :: TakesBox(P, pages, par, root, data, mbr, id)) <==> OneBox(data, mbr, id)
  {
    if OneBox(data, mbr, id) {
      forall pages, par, root ensures TakesBox(P, pages, par, root, data, mbr, id) {
        hide Deletable;
        forall gone | Data(pages) == data && Taken(pages, root, mbr, id, gone) ensures gone.mbr == mbr {
          TakenStored(pages, root, mbr, id, gone);
        }
      }
    } else {
      hide TakesBox;
      var pages, par, root, gone := OtherTaken(P, data, mbr, id);
      NotThere(P, pages, par, root, data, mbr, id, gone);
    }
  }

  lemma NotThere(P: Params, pages: map<Id, Page>, par: map<Id, Id>, root: Id, data: multiset<Entry>, mbr: Region, id: Id, gone: Entry)
    requires Deletable(P, pages, par, root) && Data(pages) == data && Taken(pages, root, mbr, id, gone) && gone.mbr != mbr
    ensures !TakesBox(P, pages, par, root, data, mbr, id)
  {
  }

  lemma TakenStored(pages: map<Id, Page>, root: Id, mbr: Region, id: Id, gone: Entry)
    requires Taken(pages, root, mbr, id, gone)
    ensures gone in Data(pages) && gone.id == id
  {
    var leaf := FirstLeaf(pages, root, pages[root].level, mbr, id).value;
    assert gone in Leafs(pages[leaf]);
    DataMember(pages, pages.Keys, gone);
  }

  // ---------------------------------------------------------------- a tree with a given first leaf

  /** The leftmost leaf below page `p` begins with `a` and `b`. */
  ghost predicate Begins(pages: map<Id, Page>, p: Id, level: nat, a: Entry, b: Entry)
    decreases level
  {
    && p in pages && pages[p].level == level && |pages[p].entries| >= 2
    && if level == 0 then pages[p].entries[0] == a && pages[p].entries[1] == b
       else Begins(pages, pages[p].entries[0].id, level - 1, a, b)
  }

  lemma {:induction false} BeginsFrame(pages: map<Id, Page>, after: map<Id, Page>, p: Id, level: nat, a: Entry, b: Entry)
    requires Begins(pages, p, level, a, b) && forall q :: q in pages ==> q in after && after[q] == pages[q]
    ensures Begins(after, p, level, a, b)
    decreases level
  {
    if level > 0 {
      BeginsFrame(pages, after, pages[p].entries[0].id, level - 1, a, b);
    }
  }

  /** A leaf that begins with another entry of the same id gives that one up. */
  lemma {:induction false} BeginsTaken(pages: map<Id, Page>, p: Id, level: nat, a: Entry, b: Entry, mbr: Region, id: Id)
    requires Begins(pages, p, level, a, b) && a.id == id && Matches(b, mbr, id)
    ensures
      var leaf := FirstLeaf(pages, p, level, mbr, id);
      leaf.Some? && leaf.value in pages && TakenFrom(pages[leaf.value], mbr, id, a)
    decreases level
  {
    if level > 0 {
      BeginsTaken(pages, pages[p].entries[0].id, level - 1, a, b, mbr, id);
      FirstChild(pages, pages[p].entries, level - 1, mbr, id, 0);
    } else {
      assert Matches(pages[p].entries[1], mbr, id);
    }
  }

  ghost predicate Twos(pages: map<Id, Page>) {
    forall p :: p in pages ==> |pages[p].entries| >= 2
  }

  /** What has been packed so far: pages, parents, the nodes made on this level, and the statistics. */
  datatype Packing = Packing(pages: map<Id, Page>, par: map<Id, Id>, outs: seq<Entry>, nodes: int, inLevel: seq<int>)

  /** One level: the entries are packed by twos, the last ones perhaps by three. */
  lemma {:induction false} PackLevel(P: Params, w: Packing, level: nat, rest: seq<Entry>, all: multiset<Entry>) returns (w': Packing)
    requires P.Sane() && |rest| != 1 && Twos(w.pages)
    requires BulkLoading.Building(P, w.pages, w.par, level, multiset(rest), multiset(w.outs), all, w.nodes, w.inLevel)
    ensures BulkLoading.Building(P, w'.pages, w'.par, level, multiset{}, multiset(w'.outs), all, w'.nodes, w'.inLevel)
    ensures Twos(w'.pages) && |w'.inLevel| == |w.inLevel| && w.outs <= w'.outs && |w'.outs| == |w.outs| + |rest| / 2
    ensures forall p :: p in w.pages ==> p in w'.pages && w'.pages[p] == w.pages[p]
    ensures rest != [] ==>
      var first := w'.outs[|w.outs|].id;
      first in w'.pages && w'.pages[first].level == level && rest[..2] <= w'.pages[first].entries
    decreases |rest|
  {
    hide *;
    if rest == [] {
      w' := w;
    } else {
      var k := if |rest| == 3 then 3 else 2;
      var w1 := PackNode(P, w, level, rest, k, all);
      w' := PackLevel(P, w1, level, rest[k..], all);
      Halves(|rest|, k);
      assert w'.outs[|w.outs|] == w1.outs[|w.outs|];
    }
  }

  lemma Halves(n: nat, k: nat)
    requires n >= 2 && k == if n == 3 then 3 else 2
    ensures n / 2 == (n - k) / 2 + 1
  {
  }

  /** The first `k` entries become a node. */
  lemma PackNode(P: Params, w: Packing, level: nat, rest: seq<Entry>, k: nat, all: multiset<Entry>) returns (w': Packing)
    requires P.Sane() && 2 <= k <= 3 && k <= |rest| && Twos(w.pages)
    requires BulkLoading.Building(P, w.pages, w.par, level, multiset(rest), multiset(w.outs), all, w.nodes, w.inLevel)
    ensures BulkLoading.Building(P, w'.pages, w'.par, level, multiset(rest[k..]), multiset(w'.outs), all, w'.nodes, w'.inLevel)
    ensures Twos(w'.pages) && |w'.inLevel| == |w.inLevel| && w.outs <= w'.outs && |w'.outs| == |w.outs| + 1
    ensures forall p :: p in w.pages ==> p in w'.pages && w'.pages[p] == w.pages[p]
    ensures
      var first := w'.outs[|w.outs|].id;
      first in w'.pages && w'.pages[first].level == level && rest[..2] <= w'.pages[first].entries
  {
    hide *;
    var es := rest[..k];
    FrontAndRest(rest, k);
    UnusedId(w.pages.Keys);
    var q :| q >= 0 && q !in w.pages;
    RoomForThree(P, level);
    var par' := BulkLoading.PackStep(P, w.pages, w.par, level, multiset(rest), multiset(w.outs), all, w.nodes, w.inLevel, es, q);
    var n := Packed(level, es, P.dim);
    PackedFacts(level, es, P.dim);
    w' := Packing(w.pages[q := n], par', w.outs + [Entry(n.mbr, q, [])], w.nodes + 1, w.inLevel[level := w.inLevel[level] + 1]);
    OneMoreOut(w.outs, Entry(n.mbr, q, []));
    TwosMore(w.pages, q, n);
  }

  lemma FrontAndRest(rest: seq<Entry>, k: nat)
    requires 2 <= k <= |rest|
    ensures multiset(rest[..k]) <= multiset(rest) && multiset(rest) - multiset(rest[..k]) == multiset(rest[k..])
    ensures rest[..2] <= rest[..k]
  {
    assert rest == rest[..k] + rest[k..];
  }

  lemma OneMoreOut(outs: seq<Entry>, out: Entry)
    ensures multiset(outs + [out]) == multiset(outs) + multiset{out}
    ensures outs <= outs + [out] && (outs + [out])[|outs|] == out
  {
  }

  lemma RoomForThree(P: Params, level: nat)
    requires P.Sane()
    ensures P.Capacity(level) >= 4
  {
  }

  lemma TwosMore(pages: map<Id, Page>, q: Id, n: Page)
    requires Twos(pages) && |n.entries| >= 2
    ensures Twos(pages[q := n])
  {
  }

  /** Level by level, until one page is left. */
  lemma {:induction false} PackUp(P: Params, w: Packing, level: nat, ins: seq<Entry>, all: multiset<Entry>, a: Entry, b: Entry)
    returns (pages: map<Id, Page>, par: map<Id, Id>, root: Id)
    requires P.Sane() && Twos(w.pages) && |ins| >= (if level == 0 then 2 else 1)
    requires BulkLoading.Levelled(P, w.pages, w.par, level, multiset(ins), all, w.nodes, w.inLevel)
    requires if level == 0 then ins[0] == a && ins[1] == b else Begins(w.pages, ins[0].id, level - 1, a, b)
    ensures Deletable(P, pages, par, root) && Data(pages) == all && root in pages && Begins(pages, root, pages[root].level, a, b)
    decreases |ins|
  {
    hide *;
    if |ins| == 1 {
      assert multiset(ins) == multiset{ins[0]} && level > 0;
      pages, par, root := w.pages, w.par, ins[0].id;
      OnePage(P, w, level, ins[0], all, a, b);
    } else {
      BulkLoading.StartLevel(P, w.pages, w.par, level, multiset(ins), all, w.nodes, w.inLevel);
      BulkLoading.LevelledFacts(P, w.pages, w.par, level, multiset(ins), all, w.nodes, w.inLevel);
      var w0 := Packing(w.pages, w.par, [], w.nodes, w.inLevel + [0]);
      assert multiset(w0.outs) == multiset{};
      var w1 := PackLevel(P, w0, level, ins, all);
      BulkLoading.EndLevel(P, w1.pages, w1.par, level, multiset(w1.outs), all, w1.nodes, w1.inLevel);
      NodeBegins(w.pages, w1.pages, w1.outs[0].id, level, ins, a, b);
      pages, par, root := PackUp(P, w1, level + 1, w1.outs, all, a, b);
    }
  }

  lemma NodeBegins(before: map<Id, Page>, pages: map<Id, Page>, q: Id, level: nat, ins: seq<Entry>, a: Entry, b: Entry)
    requires |ins| >= 2 && q in pages && pages[q].level == level && ins[..2] <= pages[q].entries
    requires forall p :: p in before ==> p in pages && pages[p] == before[p]
    requires if level == 0 then ins[0] == a && ins[1] == b else Begins(before, ins[0].id, level - 1, a, b)
    ensures Begins(pages, q, level, a, b)
  {
    assert pages[q].entries[0] == ins[..2][0] && pages[q].entries[1] == ins[..2][1];
    if level > 0 {
      BeginsFrame(before, pages, ins[0].id, level - 1, a, b);
    }
  }

  lemma OnePage(P: Params, w: Packing, level: nat, top: Entry, all: multiset<Entry>, a: Entry, b: Entry)
    requires P.Sane() && Twos(w.pages) && level > 0 && Begins(w.pages, top.id, level - 1, a, b)
    requires BulkLoading.Levelled(P, w.pages, w.par, level, multiset{top}, all, w.nodes, w.inLevel)
    ensures Deletable(P, w.pages, w.par, top.id) && Data(w.pages) == all
    ensures top.id in w.pages && Begins(w.pages, top.id, w.pages[top.id].level, a, b)
  {
    hide *;
    BeginsThere(w.pages, top.id, level - 1, a, b);
    AloneThere(P, w, level, top, all);
    BulkLoading.EndLoading(P, w.pages, w.par, level - 1, multiset{top}, all, w.nodes, w.inLevel, top.id);
    LoadedTwos(P, w.pages, w.par, top.id, all, w.nodes, w.inLevel, level);
    FullDeletable(P, w.pages, w.par, top.id);
  }

  lemma BeginsThere(pages: map<Id, Page>, p: Id, level: nat, a: Entry, b: Entry)
    requires Begins(pages, p, level, a, b)
    ensures p in pages && pages[p].level == level
  {
  }

  lemma LoadedTwos(P: Params, pages: map<Id, Page>, par: map<Id, Id>, root: Id, all: multiset<Entry>, nodes: int, inLevel: seq<int>, height: nat)
    requires BulkLoading.Loaded(P, pages, par, root, all, nodes, inLevel, height) && Twos(pages)
    ensures Tree(P, pages, par, root, {}, {}, {}) && Data(pages) == all && forall p :: p in pages ==> p >= 0
  {
    hide PageOk, Fresh, RTreeValidity.Exact, Linked, Counted, Data, Cover;
  }

  lemma AloneThere(P: Params, w: Packing, level: nat, top: Entry, all: multiset<Entry>)
    requires level > 0 && top.id in w.pages && w.pages[top.id].level == level - 1
    requires BulkLoading.Levelled(P, w.pages, w.par, level, multiset{top}, all, w.nodes, w.inLevel)
    ensures AtLevel(w.pages, level - 1) == {top.id}
  {
    hide PageOk, Fresh, BulkLoading.Ready, BulkLoading.Complete, Counted, Data, Kids;
    assert BulkLoading.Tops(multiset{top}, level) == {top.id};
    forall p | p in w.pages && w.pages[p].level == level - 1 ensures p == top.id {
      BulkLoading.TopOrBelow(w.pages, w.par, {top.id}, p);
    }
  }

  lemma {:induction false} Listed(m: multiset<Entry>) returns (es: seq<Entry>)
    ensures multiset(es) == m
    decreases |m|
  {
    if m == multiset{} {
      es := [];
    } else {
      var x :| x in m;
      var rest := Listed(m - multiset{x});
      es := rest + [x];
    }
  }

  /** If an entry with the id has another box, a tree with the same data exists on which the deletion takes
      that one. */
  lemma OtherTaken(P: Params, data: multiset<Entry>, mbr: Region, id: Id)
    returns (pages: map<Id, Page>, par: map<Id, Id>, root: Id, gone: Entry)
    requires P.Sane() && Stored(data, mbr, id) && !OneBox(data, mbr, id) && forall x :: x in data ==> IsBox(x.mbr, P.dim)
    ensures Deletable(P, pages, par, root) && Data(pages) == data && Taken(pages, root, mbr, id, gone) && gone.mbr != mbr
  {
    var a :| a in data && a.id == id && a.mbr != mbr;
    var b :| b in data && Matches(b, mbr, id);
    var others := Listed(data - multiset{a} - multiset{b});
    var es := [a, b] + others;
    assert multiset(es) == data;
    BulkLoading.StartLoading(P, data);
    pages, par, root := PackUp(P, Packing(map[], map[], [], 0, [0]), 0, es, data, a, b);
    hide Deletable;
    BeginsTaken(pages, root, pages[root].level, a, b, mbr, id);
    gone := a;
  }

  // ---------------------------------------------------------------- a run that takes the wrong entry

  function Point(x: real): Region { Region([x], [x]) }

  /** The root leaf after the two insertions. */
  lemma TwoInserted(P: Params, a: Entry, b: Entry)
    requires P.Sane() && IsBox(a.mbr, P.dim) && IsBox(b.mbr, P.dim)
    ensures
      var none := Page(0, Infinite(P.dim), []);
      && Roomy(P, none, 0) && Roomy(P, Extended(none, a), 0)
      && Extended(Extended(none, a), b).level == 0 && Extended(Extended(none, a), b).entries == [a, b]
  {
    assert [] + [a] == [a] && [a] + [b] == [a, b];
  }

  lemma FirstOfTwo(pages: map<Id, Page>, root: Id, a: Entry, b: Entry, gone: Entry)
    requires root in pages && pages[root].level == 0 && pages[root].entries == [a, b] && a.id == b.id
    requires Taken(pages, root, b.mbr, b.id, gone)
    ensures gone == a
  {
    assert FirstWith([a, b], a.id) == 0;
  }

  lemma OneLeft(a: Entry, b: Entry, gone: Entry, before: multiset<Entry>, after: multiset<Entry>)
    requires before == multiset{} + multiset{a} + multiset{b} && after + multiset{gone} == before && gone == a
    ensures after == multiset{b}
  {
    forall x ensures after[x] == multiset{b}[x] {
      assert (after + multiset{gone})[x] == before[x];
    }
  }

  lemma BothStored(a: Entry, b: Entry, data: multiset<Entry>)
    requires data == multiset{} + multiset{a} + multiset{b}
    ensures Stored(data, b.mbr, b.id)
  {
    assert b in data && Matches(b, b.mbr, b.id);
  }

  lemma PointBox(x: real)
    ensures IsBox(Point(x), 1) && |Point(x).low| == |Point(x).high| == 1
  {
  }

  /** Two entries with the id 7 are inserted; the deletion of the second one takes the first. */
  method WrongBoxTaken(P: Params, root: Id) returns (t: RTree, ret: bool)
    requires P.Sane() && P.dim == 1 && root >= 0
    ensures ret && Data(t.pages) == multiset{Entry(Point(1.0), 7, [])}
  {
    hide *;
    t := new RTree(P, root);
    t.ValidFull();
    t.FullRagged();
    PointBox(0.0);
    PointBox(1.0);
    ghost var a, b := Entry(Point(0.0), 7, []), Entry(Point(1.0), 7, []);
    TwoInserted(P, a, b);
    var ok := t.Insert([], Point(0.0), 7);
    ok := t.Insert([], Point(1.0), 7);
    ghost var was, data := t.pages, Data(t.pages);
    BothStored(a, b, data);
    ghost var gone;
    ok, ret, gone := Delete(t, Point(1.0), 7);
    FirstOfTwo(was, root, a, b, gone);
    OneLeft(a, b, gone, data, Data(t.pages));
  }
}
