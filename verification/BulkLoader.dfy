/** Bulk loading by sort-tile-recursive packing: one level after the other, each cut into slabs by the
    external sorter and packed into full nodes. */
module BulkLoading {
  import opened Geometry
  import opened Pages
  import opened IndexLists
  import opened Lists
  import opened RTreeNode
  import opened RTreeModel
  import opened ExternalSorting
  import opened RTreeValidity
  import opened TileLayout

  // ---------------------------------------------------------------- counting nodes

  function CeilDiv(n: nat, b: nat): nat
    requires b > 0
  {
    (n + b - 1) / b
  }

  lemma CeilDivIs(n: nat, b: nat, q: nat)
    requires b > 0 && q * b >= n && (q == 0 || (q - 1) * b < n)
    ensures CeilDiv(n, b) == q
  {
    var x := n + b - 1;
    var k := x / b;
    Quotient(x, b);
    assert (q + 1) * b == q * b + b;
    if k < q {
      TimesMonotone(k, q - 1, b);
    } else if k > q {
      TimesMonotone(q + 1, k, b);
    }
  }

  lemma Quotient(x: nat, b: nat)
    requires b > 0
    ensures (x / b) * b <= x < (x / b) * b + b
  {
  }

  lemma TimesMonotone(x: int, y: int, b: nat)
    requires x <= y
    ensures x * b <= y * b
  {
    assert (y - x) * b >= 0;
    assert y * b == x * b + (y - x) * b;
  }

  lemma CeilDivBounds(n: nat, b: nat)
    requires b > 0
    ensures CeilDiv(n, b) * b >= n && (n > 0 ==> (CeilDiv(n, b) - 1) * b < n)
    ensures CeilDiv(n, b) == 0 <==> n == 0
  {
    var k := (n + b - 1) / b;
    Quotient(n + b - 1, b);
    assert (k - 1) * b == k * b - b;
  }

  /** `s` full nodes more. */
  lemma CeilDivMore(n: nat, b: nat, s: nat)
    requires b > 0
    ensures CeilDiv(s * b + n, b) == s + CeilDiv(n, b)
  {
    CeilDivBounds(n, b);
    var c := CeilDiv(n, b);
    assert (s + c) * b == s * b + c * b;
    if s + c > 0 {
      assert (s + c - 1) * b == s * b + c * b - b;
      assert c > 0 ==> (c - 1) * b == c * b - b;
    }
    CeilDivIs(s * b + n, b, s + c);
  }

  /** The ceiling of the square root. */
  method CeilSqrt(p: nat) returns (s: nat)
    ensures s * s >= p && (s == 0 || (s - 1) * (s - 1) < p)
  {
    s := 0;
    while s * s < p
      invariant s == 0 || (s - 1) * (s - 1) < p
      decreases p - s * s
    {
      assert (s + 1) * (s + 1) == s * s + 2 * s + 1;
      s := s + 1;
    }
  }

  // ---------------------------------------------------------------- records and entries

  /** The records `m` are the entries `es`, all tagged with sorting dimension `s`. */
  ghost predicate Tagged(m: multiset<Record>, s: nat, es: multiset<Entry>) {
    && (forall r :: r in m ==> r.s == s)
    && (forall x :: es[x] == m[Record(x, s)])
  }

  lemma TaggedAdd(m: multiset<Record>, s: nat, es: multiset<Entry>, x: Entry)
    requires Tagged(m, s, es)
    ensures Tagged(m + multiset{Record(x, s)}, s, es + multiset{x})
  {
  }

  lemma TaggedHead(order: seq<Record>, s: nat, es: multiset<Entry>)
    requires Tagged(multiset(order), s, es) && order != []
    ensures order[0].s == s && order[0].e in es && Tagged(multiset(order[1..]), s, es - multiset{order[0].e})
  {
    var r := order[0];
    assert order == [r] + order[1..];
    assert r in multiset(order) && r == Record(r.e, s);
    forall x ensures (es - multiset{r.e})[x] == multiset(order[1..])[Record(x, s)] {
    }
    forall q | q in multiset(order[1..]) ensures q.s == s {
      assert q in multiset(order);
    }
  }

  lemma TaggedNone(s: nat, es: multiset<Entry>)
    requires Tagged(multiset{}, s, es)
    ensures es == multiset{}
  {
    assert forall x :: es[x] == 0;
  }

  lemma {:induction false} TaggedPlain(order: seq<Record>, s: nat, es: multiset<Entry>)
    requires Tagged(multiset(order), s, es)
    ensures multiset(Plain(order)) == es && forall r :: r in order ==> r.s == s
    decreases |order|
  {
    hide *;
    if order == [] {
      TaggedNone(s, es);
    } else {
      TaggedHead(order, s, es);
      TaggedPlain(order[1..], s, es - multiset{order[0].e});
      PlainTail(order);
      HeadCounted(Plain(order), es);
      assert order == [order[0]] + order[1..];
    }
  }

  lemma HeadCounted(s: seq<Entry>, es: multiset<Entry>)
    requires s != [] && s[0] in es && multiset(s[1..]) == es - multiset{s[0]}
    ensures multiset(s) == es
  {
    assert s == [s[0]] + s[1..];
  }

  // ---------------------------------------------------------------- a level under construction

  /** `x` may be packed into a node of `level`: its box has the right dimension, and above the leaves it
      stands for a page one level below. */
  ghost predicate Packable(P: Params, pages: map<Id, Page>, level: nat, x: Entry) {
    && IsBox(x.mbr, P.dim)
    && (level > 0 ==> x.id in pages && pages[x.id].level + 1 == level && x == Entry(pages[x.id].mbr, x.id, []))
  }

  /** Entries that wait to be packed into nodes of `level`, no page twice. */
  ghost predicate Ready(P: Params, pages: map<Id, Page>, es: multiset<Entry>, level: nat) {
    forall x :: x in es ==> Packable(P, pages, level, x) && (level > 0 ==> es[x] == 1)
  }

  ghost function Tops(es: multiset<Entry>, level: nat): set<Id> {
    if level == 0 then {} else set x | x in es :: x.id
  }

  ghost predicate Complete(P: Params, pages: map<Id, Page>, level: nat) {
    forall p :: p in pages ==> p >= 0 && pages[p].entries != [] && Exact(P, pages[p]) && pages[p].level <= level
  }

  /** While nodes of `level` are built: `ins` wait to be packed, `outs` stand for the nodes made so far,
      and every page is below one of these or is one of them; `all` is the data to be loaded. */
  ghost predicate Building(P: Params, pages: map<Id, Page>, par: map<Id, Id>, level: nat, ins: multiset<Entry>,
                           outs: multiset<Entry>, all: multiset<Entry>, nodes: int, inLevel: seq<int>) {
    && Forest(P, pages, par, Tops(ins, level) + Tops(outs, level + 1), {})
    && Ready(P, pages, ins, level) && Ready(P, pages, outs, level + 1)
    && Data(pages) + Loads(level, ins) == all
    && Counted(pages, nodes, inLevel) && level < |inLevel|
    && Complete(P, pages, level)
  }

  /** The data among the entries that wait. */
  ghost function Loads(level: nat, es: multiset<Entry>): multiset<Entry> {
    if level == 0 then es else multiset{}
  }

  lemma PackOk(P: Params, pages: map<Id, Page>, level: nat, ins: multiset<Entry>, es: seq<Entry>)
    requires Ready(P, pages, ins, level) && multiset(es) <= ins && es != [] && |es| <= P.Capacity(level)
    ensures Boxes(es, P.dim) && PageOk(P, Packed(level, es, P.dim))
    ensures Kids(Packed(level, es, P.dim)) <= Tops(ins, level) && LevelsBelow(Packed(level, es, P.dim), pages)
    ensures Fresh(Packed(level, es, P.dim), pages, {})
  {
    forall i | 0 <= i < |es| ensures es[i] in ins {
      assert es[i] in multiset(es);
    }
    if level > 0 {
      forall i, j | 0 <= i < j < |es| ensures es[i].id != es[j].id {
        if es[i].id == es[j].id {
          assert ins[es[i]] == 1 && ins[es[j]] == 1;
          TwiceIn(es, i, j);
          assert false;
        }
      }
    }
  }

  /** A node is packed from some of the waiting entries and gets page `q`. */
  lemma PackStep(P: Params, pages: map<Id, Page>, par: map<Id, Id>, level: nat, ins: multiset<Entry>, outs: multiset<Entry>,
                 all: multiset<Entry>, nodes: int, inLevel: seq<int>, es: seq<Entry>, q: Id)
    returns (par': map<Id, Id>)
    requires Building(P, pages, par, level, ins, outs, all, nodes, inLevel)
    requires multiset(es) <= ins && es != [] && |es| <= P.Capacity(level) && q !in pages && q >= 0
    ensures Boxes(es, P.dim) && level < |inLevel|
    ensures
      var n := Packed(level, es, P.dim);
      Building(P, pages[q := n], par', level, ins - multiset(es), outs + multiset{Entry(n.mbr, q, [])}, all,
               nodes + 1, inLevel[level := inLevel[level] + 1])
  {
    hide *;
    BuildingParts(P, pages, par, level, ins, outs, all, nodes, inLevel);
    PackOk(P, pages, level, ins, es);
    PackTops(P, pages, level, ins, outs, es, q);
    PackReady(P, pages, level, ins, outs, es, q);
    PackData(P, pages, level, ins, all, es, q);
    var n, tops := Packed(level, es, P.dim), Tops(ins, level) + Tops(outs, level + 1);
    PackComplete(P, pages, level, es, q);
    AddPage(P, pages, par, tops, {}, q, n, {});
    par' := Adopt(par, {}, q, n);
    CountAdd(pages, q, n, nodes, inLevel);
    BuildingMade(P, pages[q := n], par', level, ins - multiset(es), outs + multiset{Entry(n.mbr, q, [])}, all,
                 nodes + 1, inLevel[level := inLevel[level] + 1]);
  }

  lemma BuildingParts(P: Params, pages: map<Id, Page>, par: map<Id, Id>, level: nat, ins: multiset<Entry>, outs: multiset<Entry>,
                      all: multiset<Entry>, nodes: int, inLevel: seq<int>)
    requires Building(P, pages, par, level, ins, outs, all, nodes, inLevel)
    ensures Forest(P, pages, par, Tops(ins, level) + Tops(outs, level + 1), {})
    ensures Ready(P, pages, ins, level) && Ready(P, pages, outs, level + 1) && Data(pages) + Loads(level, ins) == all
    ensures Counted(pages, nodes, inLevel) && level < |inLevel| && Complete(P, pages, level)
    ensures Tops(ins, level) <= Tops(ins, level) + Tops(outs, level + 1)
  {
  }

  lemma BuildingMade(P: Params, pages: map<Id, Page>, par: map<Id, Id>, level: nat, ins: multiset<Entry>, outs: multiset<Entry>,
                     all: multiset<Entry>, nodes: int, inLevel: seq<int>)
    requires Forest(P, pages, par, Tops(ins, level) + Tops(outs, level + 1), {})
    requires Ready(P, pages, ins, level) && Ready(P, pages, outs, level + 1)
    requires Data(pages) + Loads(level, ins) == all
    requires Counted(pages, nodes, inLevel) && level < |inLevel| && Complete(P, pages, level)
    ensures Building(P, pages, par, level, ins, outs, all, nodes, inLevel)
  {
  }

  lemma TopsMinus(P: Params, pages: map<Id, Page>, level: nat, ins: multiset<Entry>, es: seq<Entry>)
    requires Ready(P, pages, ins, level) && multiset(es) <= ins && level > 0
    ensures Tops(ins - multiset(es), level) == Tops(ins, level) - Ids(es)
  {
    var rest := ins - multiset(es);
    forall x | x in ins && x.id !in Ids(es) ensures x in rest {
      assert x !in es;
    }
    forall x | x in rest ensures x in ins && x.id !in Ids(es) {
      assert x !in es by {
        assert ins[x] == 1;
        assert multiset(es)[x] == 0;
      }
      forall i | 0 <= i < |es| ensures es[i].id != x.id {
        assert es[i] in multiset(es) && es[i] in ins;
        assert Packable(P, pages, level, es[i]) && Packable(P, pages, level, x);
      }
    }
  }

  lemma TopsPlus(outs: multiset<Entry>, level: nat, out: Entry)
    requires level > 0
    ensures Tops(outs + multiset{out}, level) == Tops(outs, level) + {out.id}
  {
    var more := outs + multiset{out};
    assert forall x :: x in more <==> x in outs || x == out;
  }

  lemma PackTops(P: Params, pages: map<Id, Page>, level: nat, ins: multiset<Entry>, outs: multiset<Entry>, es: seq<Entry>, q: Id)
    requires Ready(P, pages, ins, level) && Ready(P, pages, outs, level + 1) && multiset(es) <= ins && Boxes(es, P.dim)
    ensures
      var n := Packed(level, es, P.dim);
      TopsAfter(Tops(ins, level) + Tops(outs, level + 1), {}, n) + {q}
      == Tops(ins - multiset(es), level) + Tops(outs + multiset{Entry(n.mbr, q, [])}, level + 1)
  {
    hide *;
    var n := Packed(level, es, P.dim);
    TopsPlus(outs, level + 1, Entry(n.mbr, q, []));
    PackedKids(P, level, es);
    if level > 0 {
      TopsMinus(P, pages, level, ins, es);
      KidsBelow(P, pages, level, ins, outs, es);
    } else {
      TopsNone(ins, ins - multiset(es));
    }
    TopsShuffle(Tops(ins, level), Tops(outs, level + 1), n, q);
  }

  lemma PackedKids(P: Params, level: nat, es: seq<Entry>)
    requires Boxes(es, P.dim)
    ensures Kids(Packed(level, es, P.dim)) == if level == 0 then {} else Ids(es)
  {
  }

  lemma TopsShuffle(a: set<Id>, b: set<Id>, n: Page, q: Id)
    requires Kids(n) !! b
    ensures TopsAfter(a + b, {}, n) + {q} == (a - Kids(n)) + (b + {q})
  {
    hide Kids;
  }

  lemma TopsNone(a: multiset<Entry>, b: multiset<Entry>)
    ensures Tops(a, 0) == Tops(b, 0)
  {
  }

  /** The pages that are packed are not among those made on this level. */
  lemma KidsBelow(P: Params, pages: map<Id, Page>, level: nat, ins: multiset<Entry>, outs: multiset<Entry>, es: seq<Entry>)
    requires Ready(P, pages, ins, level) && Ready(P, pages, outs, level + 1) && multiset(es) <= ins && level > 0
    ensures Ids(es) !! Tops(outs, level + 1)
  {
    forall i | 0 <= i < |es| ensures es[i].id !in Tops(outs, level + 1) {
      assert es[i] in multiset(es) && es[i] in ins;
      assert Packable(P, pages, level, es[i]);
      assert forall x :: x in outs ==> Packable(P, pages, level + 1, x);
    }
  }

  lemma PackReady(P: Params, pages: map<Id, Page>, level: nat, ins: multiset<Entry>, outs: multiset<Entry>, es: seq<Entry>, q: Id)
    requires Ready(P, pages, ins, level) && Ready(P, pages, outs, level + 1) && multiset(es) <= ins && Boxes(es, P.dim)
    requires q !in pages
    ensures
      var n := Packed(level, es, P.dim);
      && Ready(P, pages[q := n], ins - multiset(es), level)
      && Ready(P, pages[q := n], outs + multiset{Entry(n.mbr, q, [])}, level + 1)
  {
    hide Cover;
    var n := Packed(level, es, P.dim);
    var rest, out := ins - multiset(es), Entry(n.mbr, q, []);
    forall x | x in rest ensures Packable(P, pages[q := n], level, x) && (level > 0 ==> rest[x] == 1) {
      assert x in ins && rest[x] <= ins[x];
    }
    var more := outs + multiset{out};
    assert out !in outs by {
      assert forall x :: x in outs ==> Packable(P, pages, level + 1, x);
    }
    forall x | x in more ensures Packable(P, pages[q := n], level + 1, x) && more[x] == 1 {
      assert x in outs || x == out;
    }
  }

  lemma PackData(P: Params, pages: map<Id, Page>, level: nat, ins: multiset<Entry>, all: multiset<Entry>, es: seq<Entry>, q: Id)
    requires Data(pages) + Loads(level, ins) == all && multiset(es) <= ins && Boxes(es, P.dim) && q !in pages
    ensures Data(pages[q := Packed(level, es, P.dim)]) + Loads(level, ins - multiset(es)) == all
  {
    var n := Packed(level, es, P.dim);
    DataAdd(pages, q, n);
    if level == 0 {
      assert ins == multiset(es) + (ins - multiset(es));
    }
  }

  lemma PackComplete(P: Params, pages: map<Id, Page>, level: nat, es: seq<Entry>, q: Id)
    requires Complete(P, pages, level) && Boxes(es, P.dim) && es != [] && q >= 0
    ensures Complete(P, pages[q := Packed(level, es, P.dim)], level)
    ensures Packed(level, es, P.dim).level == level
  {
    hide Cover;
  }

  // ---------------------------------------------------------------- node sizes

  /** Packing `n` entries into nodes of `b`: full nodes, and one more for the rest. */
  ghost function SizesFor(n: nat, b: nat): (r: seq<nat>)
    requires b > 0
    ensures n > 0 ==> r != []
  {
    if n == 0 then [] else if n <= b then [n] else [b] + SizesFor(n - b, b)
  }

  /** The number of nodes is exactly the quotient rounded up, and all are full but the last. */
  lemma {:induction false} SizesExact(n: nat, b: nat)
    requires b > 0
    ensures |SizesFor(n, b)| == CeilDiv(n, b)
    ensures forall i :: 0 <= i < |SizesFor(n, b)| - 1 ==> SizesFor(n, b)[i] == b
    ensures n > 0 ==> 1 <= SizesFor(n, b)[|SizesFor(n, b)|-1] <= b
  {
    if n == 0 {
      CeilDivIs(0, b, 0);
    } else if n <= b {
      CeilDivIs(n, b, 1);
    } else {
      SizesExact(n - b, b);
      CeilDivMore(n - b, b, 1);
    }
  }

  /** Full slabs first, then the rest, give the same nodes as one long list. */
  lemma {:induction false} SizesMore(s: nat, n: nat, b: nat)
    requires b > 0
    ensures s * b + n >= 0 && s * b >= 0 && SizesFor(s * b + n, b) == SizesFor(s * b, b) + SizesFor(n, b)
  {
    if s == 0 {
      assert SizesFor(0, b) == [];
    } else {
      SizesMore(s - 1, n, b);
      assert s * b == (s - 1) * b + b;
      SizesHead((s - 1) * b, b);
      SizesHead((s - 1) * b + n, b);
    }
  }

  /** One full node first. */
  lemma SizesHead(n: nat, b: nat)
    requires b > 0
    ensures SizesFor(n + b, b) == [b] + SizesFor(n, b)
  {
    if n == 0 {
      assert SizesFor(0, b) == [];
    }
  }

  /** The nodes of `level`, in the order they were made, and their sizes. */
  ghost predicate MadeOf(pages: map<Id, Page>, level: nat, made: seq<Id>, sizes: seq<nat>) {
    && |made| == |sizes| == |AtLevel(pages, level)|
    && (forall i :: 0 <= i < |made| ==> made[i] in pages && pages[made[i]].level == level && |pages[made[i]].entries| == sizes[i])
    && NoDuplicates(made)
  }

  /** The pages that were made hold these entries. */
  ghost predicate NodesAt(pages: map<Id, Page>, made: seq<Id>, nodes: seq<seq<Entry>>) {
    |nodes| == |made| && forall i :: 0 <= i < |made| ==> made[i] in pages && pages[made[i]].entries == nodes[i]
  }

  lemma NodesMore(pages: map<Id, Page>, made: seq<Id>, nodes: seq<seq<Entry>>, q: Id, n: Page)
    requires NodesAt(pages, made, nodes) && q !in pages
    ensures NodesAt(pages[q := n], made + [q], nodes + [n.entries])
  {
  }

  lemma MadeOne(pages: map<Id, Page>, level: nat, made: seq<Id>, sizes: seq<nat>, q: Id, n: Page)
    requires MadeOf(pages, level, made, sizes) && q !in pages && n.level == level
    ensures MadeOf(pages[q := n], level, made + [q], sizes + [|n.entries|])
  {
    assert AtLevel(pages[q := n], level) == AtLevel(pages, level) + {q};
  }

  // ---------------------------------------------------------------- writing nodes

  /** `Building`, for the pages and counters of a tree. */
  ghost predicate At(t: RTree, level: nat, ins: multiset<Entry>, outs: multiset<Entry>, all: multiset<Entry>)
    reads t`pages, t`par, t`nodes, t`nodesInLevel
  {
    Building(t.P, t.pages, t.par, level, ins, outs, all, t.nodes, t.nodesInLevel)
  }

  /** The next level collects its records in `es2`. */
  ghost predicate Collects(es2: ExternalSorter, outs: multiset<Entry>)
    reads es2
  {
    es2.Valid() && es2.insertionPhase && Tagged(es2.Rest(), 0, outs)
  }

  method CreateNode(P: Params, es: seq<Entry>, level: nat) returns (n: Node)
    requires Boxes(es, P.dim) && |es| <= P.Capacity(level)
    ensures fresh(n) && n.P == P && n.identifier == -1 && n.Rec() == Packed(level, es, P.dim)
  {
    n := new Node(P, level, -1);
    for cChild := 0 to |es|
      invariant n.level == level && n.P == P && n.identifier == -1
      invariant n.entries == es[..cChild] && Boxes(n.entries, P.dim) && n.mbr == Cover(n.entries, P.dim)
    {
      CoverNext(n.entries, es[cChild], P.dim);
      assert es[..cChild+1] == es[..cChild] + [es[cChild]];
      n.InsertEntry(es[cChild]);
    }
    assert es[..|es|] == es;
  }

  /** What a level has produced so far: the records for the next level, the pages in the order they were
      written, their sizes and their entries; `all` is the data to be loaded. */
  datatype Job = Job(all: multiset<Entry>, outs: multiset<Entry>, made: seq<Id>, sizes: seq<nat>, nodes: seq<seq<Entry>>)

  /** The pages, the counters and the sorter of the next level agree with the job; `ins` still waits. */
  ghost predicate OnLevel(t: RTree, es2: ExternalSorter, level: nat, ins: multiset<Entry>, j: Job)
    reads t`pages, t`par, t`nodes, t`nodesInLevel, es2
  {
    && At(t, level, ins, j.outs, j.all) && Collects(es2, j.outs) && MadeOf(t.pages, level, j.made, j.sizes)
    && NodesAt(t.pages, j.made, j.nodes) && |j.made| == es2.totalEntries
  }

  /** Nodes of `b` entries are made from `n` more records, and the last of them is page `q`. */
  ghost predicate Packs(j: Job, j': Job, n: nat, b: nat, q: Id)
    requires b > 0
  {
    && j'.all == j.all && j.made <= j'.made && j'.sizes == j.sizes + SizesFor(n, b)
    && (n > 0 ==> j'.made != [] && j'.made[|j'.made|-1] == q)
  }

  ghost predicate FullNodes(n: nat, b: nat) {
    exists k: nat :: Times(k, b) == n
  }

  ghost function Times(k: nat, b: nat): nat {
    k * b
  }

  /** Packs a node, writes it, and hands its record to the next level; the last node written is the
      root, for now. */
  method EmitNode(t: RTree, node: seq<Entry>, level: nat, es2: ExternalSorter, ghost ins: multiset<Entry>, ghost j: Job)
    returns (ghost j': Job)
    requires OnLevel(t, es2, level, ins, j)
    requires multiset(node) <= ins && node != [] && |node| <= t.P.Capacity(level)
    modifies t`pages, t`par, t`nodes, t`nodesInLevel, t`levels, t`rootID, es2
    ensures OnLevel(t, es2, level, ins - multiset(node), j')
    ensures j'.all == j.all && j'.made == j.made + [t.rootID] && j'.sizes == j.sizes + [|node|] && j'.nodes == j.nodes + [node]
    ensures |t.nodesInLevel| == |old(t.nodesInLevel)| && Kept(old(t.pages), t.pages, level)
  {
    hide *;
    EmitFacts(t, es2, level, ins, j, node);
    ghost var before, nodes, inLevel := t.pages, t.nodes, t.nodesInLevel;
    var n := CreateNode(t.P, node, level);
    NodeFields(n, t.P, level, node);
    var mbr := n.mbr;
    t.WriteNewNode(n);
    var q := n.identifier;
    t.rootID := q;
    ghost var par' := PackStep(t.P, before, t.par, level, ins, j.outs, j.all, nodes, inLevel, node, q);
    t.par := par';
    MadeOne(before, level, j.made, j.sizes, q, Packed(level, node, t.P.dim));
    NodesMore(before, j.made, j.nodes, q, Packed(level, node, t.P.dim));
    KeptOne(before, q, Packed(level, node, t.P.dim), level);
    TaggedAdd(es2.Rest(), 0, j.outs, Entry(mbr, q, []));
    j' := Job(j.all, j.outs + multiset{Entry(mbr, q, [])}, j.made + [q], j.sizes + [|node|], j.nodes + [node]);
    var ok := es2.Insert(Record(Entry(mbr, q, []), 0));
    OnLevelMade(t, es2, level, ins - multiset(node), j');
  }

  lemma EmitFacts(t: RTree, es2: ExternalSorter, level: nat, ins: multiset<Entry>, j: Job, node: seq<Entry>)
    requires OnLevel(t, es2, level, ins, j) && multiset(node) <= ins && node != [] && |node| <= t.P.Capacity(level)
    ensures Building(t.P, t.pages, t.par, level, ins, j.outs, j.all, t.nodes, t.nodesInLevel)
    ensures MadeOf(t.pages, level, j.made, j.sizes) && NodesAt(t.pages, j.made, j.nodes) && |j.made| == es2.totalEntries
    ensures es2.Valid() && es2.insertionPhase && Tagged(es2.Rest(), 0, j.outs)
    ensures Boxes(node, t.P.dim) && level < |t.nodesInLevel|
    ensures Packed(level, node, t.P.dim).level == level && Packed(level, node, t.P.dim).entries == node
  {
    PackOk(t.P, t.pages, level, ins, node);
  }

  lemma OnLevelMade(t: RTree, es2: ExternalSorter, level: nat, ins: multiset<Entry>, j: Job)
    requires Building(t.P, t.pages, t.par, level, ins, j.outs, j.all, t.nodes, t.nodesInLevel)
    requires MadeOf(t.pages, level, j.made, j.sizes) && NodesAt(t.pages, j.made, j.nodes) && |j.made| == es2.totalEntries
    requires es2.Valid() && es2.insertionPhase && Tagged(es2.Rest(), 0, j.outs)
    ensures OnLevel(t, es2, level, ins, j)
  {
  }

  lemma NodeFields(n: Node, P: Params, level: nat, node: seq<Entry>)
    requires Boxes(node, P.dim) && n.Rec() == Packed(level, node, P.dim)
    ensures n.level == level && n.mbr == Packed(level, node, P.dim).mbr
  {
  }

  /** Pages of lower levels, and those that exist on this level, stay as they are. */
  ghost predicate Kept(before: map<Id, Page>, after: map<Id, Page>, level: nat) {
    && (forall p :: p in before ==> p in after && after[p] == before[p])
    && (forall p :: p in after && p !in before ==> after[p].level == level)
  }

  lemma KeptOne(before: map<Id, Page>, q: Id, n: Page, level: nat)
    requires q !in before && n.level == level
    ensures Kept(before, before[q := n], level)
  {
  }

  lemma KeptMore(a: map<Id, Page>, b: map<Id, Page>, c: map<Id, Page>, level: nat)
    requires Kept(a, b, level) && Kept(b, c, level)
    ensures Kept(a, c, level)
  {
  }

  // ---------------------------------------------------------------- one level

  /** A sorted stream that hands out the records of `have`, tagged `s`. */
  ghost predicate Feeds(es: ExternalSorter, s: nat, have: multiset<Entry>)
    reads es
  {
    es.Valid() && !es.insertionPhase && Tagged(multiset(es.Order()), s, have)
  }

  /** The next entry of a stream. */
  method NextEntry(es: ExternalSorter, ghost s: nat, ghost have: multiset<Entry>) returns (ok: bool, e: Entry)
    requires Feeds(es, s, have)
    modifies es
    ensures ok <==> old(es.Order()) != []
    ensures ok ==> e in have && Feeds(es, s, have - multiset{e}) && |es.Order()| == |old(es.Order())| - 1
    ensures ok ==> Plain(old(es.Order()))[0] == e && Plain(es.Order()) == Plain(old(es.Order()))[1..]
    ensures !ok ==> have == multiset{} && Feeds(es, s, have) && es.Order() == []
    ensures es.totalEntries == old(es.totalEntries)
  {
    ghost var order := es.Order();
    if order != [] {
      TaggedHead(order, s, have);
      PlainTail(order);
    } else {
      TaggedNone(s, have);
    }
    hide *;
    FeedsFacts(es, s, have);
    var r;
    ok, r := es.GetNextRecord();
    e := r.e;
    if ok {
      FeedsMade(es, s, have - multiset{e});
    } else {
      FeedsMade(es, s, have);
    }
  }

  lemma FeedsFacts(es: ExternalSorter, s: nat, have: multiset<Entry>)
    requires Feeds(es, s, have)
    ensures es.Valid() && !es.insertionPhase && Tagged(multiset(es.Order()), s, have)
  {
  }

  lemma FeedsMade(es: ExternalSorter, s: nat, have: multiset<Entry>)
    requires es.Valid() && !es.insertionPhase && Tagged(multiset(es.Order()), s, have)
    ensures Feeds(es, s, have)
  {
  }

  /** One more node in the packing loop: after full nodes with `done` entries since the start `j`. */
  method NextNode(t: RTree, node: seq<Entry>, level: nat, b: nat, es2: ExternalSorter,
                  ghost ins: multiset<Entry>, ghost j: Job, ghost now: Job, ghost done: nat, ghost was: map<Id, Page>)
    returns (ghost j': Job)
    requires OnLevel(t, es2, level, ins, now) && multiset(node) <= ins && 0 < |node| <= b <= t.P.Capacity(level)
    requires FullNodes(done, b) && Packs(j, now, done, b, t.rootID) && Kept(was, t.pages, level)
    modifies t`pages, t`par, t`nodes, t`nodesInLevel, t`levels, t`rootID, es2
    ensures OnLevel(t, es2, level, ins - multiset(node), j')
    ensures FullNodes(done + b, b) && Packs(j, j', done + |node|, b, t.rootID) && Kept(was, t.pages, level)
    ensures j'.nodes == now.nodes + [node]
    ensures |t.nodesInLevel| == |old(t.nodesInLevel)|
  {
    hide *;
    ghost var last := t.rootID;
    assert node != [];
    j' := EmitNode(t, node, level, es2, ins, now);
    KeptMore(was, old(t.pages), t.pages, level);
    PackedMore(j, now, last, j', done, b, |node|, t.rootID);
  }

  /** How far the packing loop is: the job as it stands, the nodes made in this loop, what waits for a page
      and what is still to be read, how many entries the `k` full nodes hold. */
  datatype Turn = Turn(job: Job, part: seq<seq<Entry>>, rest: multiset<Entry>, left: multiset<Entry>, done: nat, k: nat)

  /** Of `order`, the front went into full nodes, `node` was read, and `coming` is still to be read. */
  ghost predicate Progress(ins: multiset<Entry>, have: multiset<Entry>, j: Job, order: seq<Entry>, b: nat, root: Id,
                           node: seq<Entry>, coming: seq<Entry>, q: Id, now: Turn) {
    && b > 0 && TakenOut(ins, have, now.rest, now.left, node) && |order| == now.done + |node| + |coming|
    && Packs(j, now.job, now.done, b, q) && FullNodes(now.done, b) && (now.done == 0 ==> now.job == j && q == root)
    && Extends(j, now.job, now.part) && Cutting(now.part, order, b, now.k, node, coming)
  }

  lemma ProgressStart(pages: map<Id, Page>, level: nat, ins: multiset<Entry>, have: multiset<Entry>, j: Job, order: seq<Entry>, b: nat, root: Id)
    requires have <= ins && b > 0
    ensures Progress(ins, have, j, order, b, root, [], order, root, Turn(j, [], ins, have, 0, 0))
    ensures Kept(pages, pages, level)
  {
    hide Packs, FullNodes, Cutting, Extends, TakenOut, Kept;
    PackStart(pages, level, b, j, root);
    OutStart(ins, have);
    CutStart(order, b);
    ExtendsNone(j);
  }

  lemma ProgressTake(ins: multiset<Entry>, have: multiset<Entry>, j: Job, order: seq<Entry>, b: nat, root: Id,
                     node: seq<Entry>, coming: seq<Entry>, q: Id, now: Turn, e: Entry)
    requires Progress(ins, have, j, order, b, root, node, coming, q, now) && e in now.left && coming != [] && coming[0] == e
    ensures Progress(ins, have, j, order, b, root, node + [e], coming[1..], q, now.(left := now.left - multiset{e}))
  {
    hide Packs, FullNodes, Cutting, Extends, TakenOut;
    OutTake(ins, have, now.rest, now.left, node, e);
    CutTake(now.part, order, b, now.k, node, coming, e);
  }

  lemma ProgressParts(ins: multiset<Entry>, have: multiset<Entry>, j: Job, order: seq<Entry>, b: nat, root: Id,
                      node: seq<Entry>, coming: seq<Entry>, q: Id, now: Turn)
    requires Progress(ins, have, j, order, b, root, node, coming, q, now)
    ensures b > 0 && multiset(node) <= now.rest && Packs(j, now.job, now.done, b, q) && FullNodes(now.done, b)
  {
    hide Packs, FullNodes, Cutting, Extends;
    OutPack(ins, have, now.rest, now.left, node);
  }

  lemma ProgressPack(ins: multiset<Entry>, have: multiset<Entry>, j: Job, order: seq<Entry>, b: nat, root: Id,
                     node: seq<Entry>, coming: seq<Entry>, q: Id, now: Turn, j': Job, q': Id)
    requires Progress(ins, have, j, order, b, root, node, coming, q, now) && |node| == b > 0
    requires FullNodes(now.done + b, b) && Packs(j, j', now.done + b, b, q') && j'.nodes == now.job.nodes + [node]
    ensures Progress(ins, have, j, order, b, root, [], coming, q',
                     Turn(j', now.part + [node], now.rest - multiset(node), now.left, now.done + b, now.k + 1))
  {
    hide Packs, FullNodes, Cutting, Extends, TakenOut;
    OutPack(ins, have, now.rest, now.left, node);
    CutPack(now.part, order, b, now.k, node, coming);
    ExtendsOne(j, now.job, j', now.part, node);
  }

  /** The last node, which may be short. */
  lemma ProgressLast(ins: multiset<Entry>, have: multiset<Entry>, j: Job, order: seq<Entry>, b: nat, root: Id,
                     node: seq<Entry>, q: Id, now: Turn, j': Job)
    requires Progress(ins, have, j, order, b, root, node, [], q, now) && now.left == multiset{} && 0 < |node| <= b
    requires j'.nodes == now.job.nodes + [node]
    ensures now.rest - multiset(node) == ins - have && now.done + |node| == |order| && order != []
    ensures Extends(j, j', now.part + [node]) && Chunked(now.part + [node], order, b)
  {
    hide Packs, FullNodes, Cutting, Extends, TakenOut, Chunked;
    OutPack(ins, have, now.rest, now.left, node);
    CutLast(now.part, order, b, now.k, node);
    ExtendsOne(j, now.job, j', now.part, node);
  }

  lemma ProgressDone(ins: multiset<Entry>, have: multiset<Entry>, j: Job, order: seq<Entry>, b: nat, root: Id, q: Id, now: Turn)
    requires Progress(ins, have, j, order, b, root, [], [], q, now) && now.left == multiset{}
    ensures now.rest == ins - have && Packs(j, now.job, |order|, b, q) && (order == [] ==> now.job == j && q == root)
    ensures b > 0 && Extends(j, now.job, now.part) && Chunked(now.part, order, b)
  {
    hide Packs, FullNodes, Extends, TakenOut, Chunked, CutAt;
    assert b > 0;
    hide Cutting;
    OutPack(ins, have, now.rest, now.left, []);
    CutDone(now.part, order, b, now.k);
  }

  /** The packing loop: nodes of `b` entries as long as there are that many, then one for the rest. */
  method PackNodes(t: RTree, es: ExternalSorter, level: nat, b: nat, es2: ExternalSorter,
                   ghost s: nat, ghost have: multiset<Entry>, ghost ins: multiset<Entry>, ghost j: Job)
    returns (ghost j': Job, ghost part: seq<seq<Entry>>)
    requires OnLevel(t, es2, level, ins, j) && Feeds(es, s, have) && have <= ins && es != es2
    requires 1 <= b <= t.P.Capacity(level)
    modifies t`pages, t`par, t`nodes, t`nodesInLevel, t`levels, t`rootID, es, es2
    ensures OnLevel(t, es2, level, ins - have, j') && Packs(j, j', |old(es.Order())|, b, t.rootID)
    ensures old(es.Order()) == [] ==> j' == j && t.rootID == old(t.rootID)
    ensures |t.nodesInLevel| == |old(t.nodesInLevel)| && Kept(old(t.pages), t.pages, level)
    ensures Extends(j, j', part) && Chunked(part, Plain(old(es.Order())), b)
  {
    hide *;
    var node: seq<Entry> := [];
    ghost var order, root := Plain(es.Order()), t.rootID;
    ghost var now := Turn(j, [], ins, have, 0, 0);
    ProgressStart(t.pages, level, ins, have, j, order, b, root);
    while true
      invariant OnLevel(t, es2, level, now.rest, now.job) && Feeds(es, s, now.left) && |node| < b
      invariant Progress(ins, have, j, order, b, root, node, Plain(es.Order()), t.rootID, now)
      invariant |t.nodesInLevel| == |old(t.nodesInLevel)| && Kept(old(t.pages), t.pages, level)
      decreases |es.Order()|
    {
      ghost var coming := Plain(es.Order());
      var ok, e := NextEntry(es, s, now.left);
      if !ok {
        break;
      }
      ProgressTake(ins, have, j, order, b, root, node, coming, t.rootID, now, e);
      node := node + [e];
      now := now.(left := now.left - multiset{e});
      if |node| == b {
        now := PackFull(t, es, level, b, es2, ins, have, j, order, root, node, now, old(t.pages));
        node := [];
      }
    }
    PlainNone(es.Order());
    j', part := now.job, now.part;
    if node != [] {
      ghost var q := t.rootID;
      ProgressParts(ins, have, j, order, b, root, node, [], q, now);
      j' := NextNode(t, node, level, b, es2, now.rest, j, now.job, now.done, old(t.pages));
      ProgressLast(ins, have, j, order, b, root, node, q, now, j');
      part := part + [node];
    } else {
      ProgressDone(ins, have, j, order, b, root, t.rootID, now);
    }
  }

  lemma PlainNone(rs: seq<Record>)
    ensures rs == [] ==> Plain(rs) == []
    ensures Plain(rs) == [] ==> rs == []
  {
  }

  /** A full node in the packing loop. */
  method PackFull(t: RTree, es: ExternalSorter, level: nat, b: nat, es2: ExternalSorter, ghost ins: multiset<Entry>, ghost have: multiset<Entry>,
                  ghost j: Job, ghost order: seq<Entry>, ghost root: Id, node: seq<Entry>, ghost now: Turn, ghost was: map<Id, Page>)
    returns (ghost now': Turn)
    requires OnLevel(t, es2, level, now.rest, now.job) && Kept(was, t.pages, level) && |node| == b && 1 <= b <= t.P.Capacity(level) && es != es2
    requires Progress(ins, have, j, order, b, root, node, Plain(es.Order()), t.rootID, now)
    modifies t`pages, t`par, t`nodes, t`nodesInLevel, t`levels, t`rootID, es2
    ensures OnLevel(t, es2, level, now'.rest, now'.job) && now'.left == now.left && Kept(was, t.pages, level)
    ensures Progress(ins, have, j, order, b, root, [], Plain(es.Order()), t.rootID, now')
    ensures |t.nodesInLevel| == |old(t.nodesInLevel)|
  {
    hide *;
    ghost var q := t.rootID;
    ProgressParts(ins, have, j, order, b, root, node, Plain(es.Order()), q, now);
    ghost var j' := NextNode(t, node, level, b, es2, now.rest, j, now.job, now.done, was);
    ProgressPack(ins, have, j, order, b, root, node, Plain(es.Order()), q, now, j', t.rootID);
    now' := Turn(j', now.part + [node], now.rest - multiset(node), now.left, now.done + b, now.k + 1);
  }

  /** The nodes `part` came after those of `j`. */
  ghost predicate Extends(j: Job, j': Job, part: seq<seq<Entry>>) {
    j'.nodes == j.nodes + part
  }

  lemma ExtendsNone(j: Job)
    ensures Extends(j, j, [])
  {
    assert j.nodes + [] == j.nodes;
  }

  lemma ExtendsAll(j: Job, j': Job, part: seq<seq<Entry>>)
    requires Extends(j, j', part) && j.nodes == []
    ensures j'.nodes == part
  {
    assert [] + part == part;
  }

  lemma ExtendsOne(j: Job, now: Job, j': Job, part: seq<seq<Entry>>, node: seq<Entry>)
    requires Extends(j, now, part) && j'.nodes == now.nodes + [node]
    ensures Extends(j, j', part + [node])
  {
    assert (j.nodes + part) + [node] == j.nodes + (part + [node]);
  }

  lemma ExtendsMore(j: Job, now: Job, j': Job, part: seq<seq<Entry>>, more: seq<seq<Entry>>)
    requires Extends(j, now, part) && Extends(now, j', more)
    ensures Extends(j, j', part + more)
    ensures now == j' ==> more == []
  {
    assert (j.nodes + part) + more == j.nodes + (part + more);
  }

  /** Full nodes were cut off the front of `order`, then `node`; `coming` is still to come. */
  ghost predicate Cutting(part: seq<seq<Entry>>, order: seq<Entry>, b: nat, k: nat, node: seq<Entry>, coming: seq<Entry>) {
    && b > 0 && exists front: seq<Entry> :: CutAt(part, order, b, k, node, coming, front)
  }

  ghost predicate CutAt(part: seq<seq<Entry>>, order: seq<Entry>, b: nat, k: nat, node: seq<Entry>, coming: seq<Entry>, front: seq<Entry>)
    requires b > 0
  {
    order == front + node + coming && |front| == k * b && Chunked(part, front, b)
  }

  lemma CutStart(order: seq<Entry>, b: nat)
    requires b > 0
    ensures Cutting([], order, b, 0, [], order)
  {
    assert order == [] + [] + order;
    assert CutAt([], order, b, 0, [], order, []);
  }

  lemma CutTake(part: seq<seq<Entry>>, order: seq<Entry>, b: nat, k: nat, node: seq<Entry>, coming: seq<Entry>, e: Entry)
    requires Cutting(part, order, b, k, node, coming) && coming != [] && coming[0] == e
    ensures Cutting(part, order, b, k, node + [e], coming[1..])
  {
    hide Chunked;
    var front :| CutAt(part, order, b, k, node, coming, front);
    assert front + node + coming == front + (node + [e]) + coming[1..];
    assert CutAt(part, order, b, k, node + [e], coming[1..], front);
  }

  lemma CutPack(part: seq<seq<Entry>>, order: seq<Entry>, b: nat, k: nat, node: seq<Entry>, coming: seq<Entry>)
    requires Cutting(part, order, b, k, node, coming) && |node| == b
    ensures Cutting(part + [node], order, b, k + 1, [], coming)
  {
    hide Chunked;
    var front :| CutAt(part, order, b, k, node, coming, front);
    ChunkMore(part, front, b, node, k);
    assert front + node + coming == (front + node) + [] + coming;
    assert (k + 1) * b == k * b + b;
    assert CutAt(part + [node], order, b, k + 1, [], coming, front + node);
  }

  lemma CutLast(part: seq<seq<Entry>>, order: seq<Entry>, b: nat, k: nat, node: seq<Entry>)
    requires Cutting(part, order, b, k, node, []) && 0 < |node| <= b
    ensures Chunked(part + [node], order, b)
  {
    hide Chunked;
    var front :| CutAt(part, order, b, k, node, [], front);
    ChunkMore(part, front, b, node, k);
    assert front + node + [] == front + node;
  }

  lemma CutDone(part: seq<seq<Entry>>, order: seq<Entry>, b: nat, k: nat)
    requires Cutting(part, order, b, k, [], [])
    ensures Chunked(part, order, b)
  {
    hide Chunked;
    var front :| CutAt(part, order, b, k, [], [], front);
    assert front + [] + [] == front;
  }

  /** Of `have`, `node` is taken off the stream and `left` is still to come; `rest` waits, and nothing
      outside `have` is touched. */
  ghost predicate TakenOut(ins: multiset<Entry>, have: multiset<Entry>, rest: multiset<Entry>, left: multiset<Entry>, node: seq<Entry>) {
    left + multiset(node) <= rest && rest - multiset(node) - left == ins - have
  }

  lemma OutStart(ins: multiset<Entry>, have: multiset<Entry>)
    requires have <= ins
    ensures TakenOut(ins, have, ins, have, [])
  {
  }

  lemma OutTake(ins: multiset<Entry>, have: multiset<Entry>, rest: multiset<Entry>, left: multiset<Entry>, node: seq<Entry>, e: Entry)
    requires TakenOut(ins, have, rest, left, node) && e in left
    ensures TakenOut(ins, have, rest, left - multiset{e}, node + [e])
  {
    assert multiset(node + [e]) == multiset(node) + multiset{e};
  }

  lemma OutPack(ins: multiset<Entry>, have: multiset<Entry>, rest: multiset<Entry>, left: multiset<Entry>, node: seq<Entry>)
    requires TakenOut(ins, have, rest, left, node)
    ensures multiset(node) <= rest && TakenOut(ins, have, rest - multiset(node), left, [])
    ensures left == multiset{} ==> rest - multiset(node) == ins - have && (node == [] ==> rest == ins - have)
  {
  }

  lemma PackStart(pages: map<Id, Page>, level: nat, b: nat, j: Job, q: Id)
    requires b > 0
    ensures Packs(j, j, 0, b, q) && FullNodes(0, b) && Kept(pages, pages, level)
  {
    assert Times(0, b) == 0;
  }

  /** After full nodes, one more of `x` entries. */
  lemma PackedMore(j: Job, a: Job, last: Id, c: Job, done: nat, b: nat, x: nat, q: Id)
    requires 0 < x <= b && FullNodes(done, b) && Packs(j, a, done, b, last)
    requires c.all == a.all && c.made == a.made + [q] && c.sizes == a.sizes + [x]
    ensures Packs(j, c, done + x, b, q)
    ensures FullNodes(done + b, b)
  {
    var k: nat :| Times(k, b) == done;
    SizesMore(k, x, b);
    assert SizesFor(x, b) == [x];
    assert Times(k + 1, b) == done + b;
  }

  /** The next slab: `most` records, or as many as are left, sorted by the next dimension. */
  method TakeSlab(es: ExternalSorter, most: nat, dimension: nat, pageSize: nat, numberOfPages: nat, ghost have: multiset<Entry>)
    returns (es3: ExternalSorter, bMore: bool, ghost slab: multiset<Entry>)
    requires Feeds(es, dimension, have) && pageSize >= 1 && numberOfPages >= 2
    modifies es
    ensures fresh(es3) && slab <= have && Feeds(es, dimension, have - slab) && Feeds(es3, dimension + 1, slab)
    ensures es3.totalEntries == |es3.Order()| && |es.Order()| + |es3.Order()| == |old(es.Order())|
    ensures |es3.Order()| <= most && (bMore ==> |es3.Order()| == most)
    ensures !bMore ==> es.Order() == []
    ensures |es3.Order()| <= |old(es.Order())| && Plain(es.Order()) == Plain(old(es.Order()))[|es3.Order()|..]
    ensures multiset(Plain(es3.Order())) == multiset(Plain(old(es.Order()))[..|es3.Order()|])
    ensures SortedBy(Plain(es3.Order()), dimension + 1, pageSize * numberOfPages)
  {
    hide *;
    es3 := new ExternalSorter(pageSize, numberOfPages);
    slab, bMore := multiset{}, true;
    SlabStart(dimension + 1, have);
    ghost var order := Plain(es.Order());
    var i := 0;
    FillsMade(es3, dimension + 1, slab, i);
    SlabNone(have, order);
    while i < most
      invariant i <= most && Feeds(es, dimension, have - slab) && Fills(es3, dimension + 1, slab, i)
      invariant |es.Order()| + i == |old(es.Order())| && SlabOf(have, slab, order, Plain(es.Order()), i)
    {
      var ok;
      ok, slab := TakeRecord(es, es3, dimension, have, slab, order, i);
      if !ok {
        bMore := false;
        break;
      }
      i := i + 1;
    }
    FillsParts(es3, dimension + 1, slab, i);
    SlabParts(have, slab, order, Plain(es.Order()), i);
    var sorted := es3.Sort();
    FeedsMade(es3, dimension + 1, slab);
    TaggedPlain(es3.Order(), dimension + 1, slab);
    SortedRecords(es3.Order(), dimension + 1, pageSize * numberOfPages);
  }

  /** A sorter that is being filled holds the records of `slab`, `i` of them. */
  ghost predicate Fills(es3: ExternalSorter, s: nat, slab: multiset<Entry>, i: nat)
    reads es3
  {
    es3.Valid() && es3.insertionPhase && Tagged(es3.Rest(), s, slab) && es3.totalEntries == i
  }

  lemma FillsMade(es3: ExternalSorter, s: nat, slab: multiset<Entry>, i: nat)
    requires es3.Valid() && es3.insertionPhase && Tagged(es3.Rest(), s, slab) && es3.totalEntries == i
    ensures Fills(es3, s, slab, i)
  {
  }

  lemma FillsParts(es3: ExternalSorter, s: nat, slab: multiset<Entry>, i: nat)
    requires Fills(es3, s, slab, i)
    ensures es3.Valid() && es3.insertionPhase && Tagged(es3.Rest(), s, slab) && es3.totalEntries == i
  {
  }

  /** `slab` are the first `i` entries of `order`, and `coming` the others. */
  ghost predicate SlabOf(have: multiset<Entry>, slab: multiset<Entry>, order: seq<Entry>, coming: seq<Entry>, i: nat) {
    slab <= have && i <= |order| && coming == order[i..] && slab == multiset(order[..i])
  }

  lemma SlabNone(have: multiset<Entry>, order: seq<Entry>)
    ensures SlabOf(have, multiset{}, order, order, 0)
  {
    assert multiset(order[..0]) == multiset{};
  }

  lemma SlabParts(have: multiset<Entry>, slab: multiset<Entry>, order: seq<Entry>, coming: seq<Entry>, i: nat)
    requires SlabOf(have, slab, order, coming, i)
    ensures slab <= have && i <= |order| && coming == order[i..] && slab == multiset(order[..i])
  {
  }

  lemma SlabRead(have: multiset<Entry>, slab: multiset<Entry>, order: seq<Entry>, coming: seq<Entry>, i: nat, e: Entry)
    requires SlabOf(have, slab, order, coming, i) && coming != [] && coming[0] == e && e in have - slab
    ensures SlabOf(have, slab + multiset{e}, order, coming[1..], i + 1)
    ensures have - slab - multiset{e} == have - (slab + multiset{e})
  {
    SlabTake(have, slab, e);
    OrderTake(order, i, e);
  }

  /** One turn of the loop: a record moves to the sorter of the slab and is tagged with its dimension. */
  method TakeRecord(es: ExternalSorter, es3: ExternalSorter, dimension: nat, ghost have: multiset<Entry>, ghost slab: multiset<Entry>,
                    ghost order: seq<Entry>, ghost i: nat)
    returns (ok: bool, ghost slab': multiset<Entry>)
    requires Feeds(es, dimension, have - slab) && Fills(es3, dimension + 1, slab, i) && es != es3
    requires SlabOf(have, slab, order, Plain(es.Order()), i)
    modifies es, es3
    ensures Feeds(es, dimension, have - slab') && Fills(es3, dimension + 1, slab', if ok then i + 1 else i)
    ensures SlabOf(have, slab', order, Plain(es.Order()), if ok then i + 1 else i)
    ensures ok ==> |es.Order()| == |old(es.Order())| - 1
    ensures !ok ==> es.Order() == old(es.Order()) == []
  {
    hide *;
    slab' := slab;
    ghost var coming := Plain(es.Order());
    PlainNone(es.Order());
    var e;
    ok, e := NextEntry(es, dimension, have - slab);
    if ok {
      SlabRead(have, slab, order, coming, i, e);
      FillsParts(es3, dimension + 1, slab, i);
      TaggedAdd(es3.Rest(), dimension + 1, slab, e);
      var inserted := es3.Insert(Record(e, dimension + 1));
      slab' := slab + multiset{e};
      FillsMade(es3, dimension + 1, slab', i + 1);
    }
  }

  lemma OrderTake(order: seq<Entry>, i: nat, e: Entry)
    requires i < |order| && order[i..][0] == e
    ensures order[i..][1..] == order[i+1..] && multiset(order[..i+1]) == multiset(order[..i]) + multiset{e}
  {
    assert order[..i+1] == order[..i] + [e];
  }

  lemma SlabStart(s: nat, have: multiset<Entry>)
    ensures Tagged(multiset{}, s, multiset{}) && have - multiset{} == have
  {
  }

  lemma SlabTake(have: multiset<Entry>, slab: multiset<Entry>, e: Entry)
    requires slab <= have && e in have - slab
    ensures slab + multiset{e} <= have && have - slab - multiset{e} == have - (slab + multiset{e})
  {
  }

  lemma SizesEmpty(b: nat)
    requires b > 0
    ensures SizesFor(0, b) == []
  {
  }

  /** One more slab of `m` records, after full nodes. */
  lemma SlabMore(j: Job, a: Job, c: Job, done: nat, m: nat, b: nat, qa: Id, qc: Id)
    requires b > 0 && FullNodes(done, b) && Packs(j, a, done, b, qa) && Packs(a, c, m, b, qc)
    requires m == 0 ==> c == a && qc == qa
    ensures Packs(j, c, done + m, b, qc)
    ensures FullNodes(m, b) ==> FullNodes(done + m, b)
  {
    hide SizesFor;
    var k: nat :| Times(k, b) == done;
    SizesMore(k, m, b);
    SizesEmpty(b);
    if FullNodes(m, b) {
      var x: nat :| Times(x, b) == m;
      assert Times(k + x, b) == done + m;
    }
  }

  lemma SlabOut(ins: multiset<Entry>, have: multiset<Entry>, rest: multiset<Entry>, left: multiset<Entry>, slab: multiset<Entry>)
    requires TakenOut(ins, have, rest, left, []) && slab <= left
    ensures slab <= rest && TakenOut(ins, have, rest - slab, left - slab, [])
    ensures left == slab ==> rest - slab == ins - have
  {
  }

  /** Slabs are not empty when there is anything to cut. */
  lemma SlabSize(n: nat, b: nat, nodes: nat, S: nat)
    requires b > 0 && nodes == CeilDiv(n, b) && S * S >= nodes && (S == 0 || (S - 1) * (S - 1) < nodes) && S * b != n
    ensures n > 0 && S * b > 0 && FullNodes(S * b, b)
  {
    CeilDivBounds(n, b);
    assert Times(S, b) == S * b;
    if S > 0 {
      TimesMonotone(1, S, b);
    }
  }

  function NodeSize(level: nat, bleaf: nat, bindex: nat): nat {
    if level == 0 then bleaf else bindex
  }

  /** The entries of one level are cut into slabs of S * b by one dimension after the other, S being the
      square root of the number of nodes rounded up: `part` are the nodes in the order they are made. Whatever
      the slabs, the sizes are those of one long packing: all full but the last. */
  method CreateLevel(t: RTree, es: ExternalSorter, dimension: nat, bleaf: nat, bindex: nat, level: nat, es2: ExternalSorter,
                     pageSize: nat, numberOfPages: nat, ghost have: multiset<Entry>, ghost ins: multiset<Entry>, ghost j: Job)
    returns (ghost j': Job, ghost part: seq<seq<Entry>>)
    requires OnLevel(t, es2, level, ins, j) && Feeds(es, dimension, have) && have <= ins && es != es2
    requires es.totalEntries == |es.Order()| && dimension < t.P.dim && pageSize >= 1 && numberOfPages >= 2
    requires 1 <= NodeSize(level, bleaf, bindex) <= t.P.Capacity(level)
    modifies t`pages, t`par, t`nodes, t`nodesInLevel, t`levels, t`rootID, es, es2
    decreases t.P.dim - dimension
    ensures OnLevel(t, es2, level, ins - have, j')
    ensures Packs(j, j', |old(es.Order())|, NodeSize(level, bleaf, bindex), t.rootID)
    ensures old(es.Order()) == [] ==> j' == j && t.rootID == old(t.rootID)
    ensures |t.nodesInLevel| == |old(t.nodesInLevel)| && Kept(old(t.pages), t.pages, level)
    ensures Extends(j, j', part)
    ensures Laid(part, Plain(old(es.Order())), dimension, t.P.dim, NodeSize(level, bleaf, bindex), pageSize * numberOfPages)
  {
    hide *;
    var b := NodeSize(level, bleaf, bindex);
    var P := CeilDiv(es.totalEntries, b);
    var S := CeilSqrt(P);
    var most := S * b;
    ghost var order, buffer := Plain(es.Order()), pageSize * numberOfPages;
    SlabCounted(es.totalEntries, b, P, S);
    if S == 1 || dimension == t.P.dim - 1 || most == es.totalEntries {
      j', part := PackNodes(t, es, level, b, es2, dimension, have, ins, j);
    } else {
      SlabSize(es.totalEntries, b, P, S);
      var bMore := true;
      j' := j;
      ghost var rest, left, done, n := ins, have, 0, |es.Order()|;
      part := [];
      PackStart(t.pages, level, b, j, t.rootID);
      OutStart(ins, have);
      ExtendsNone(j);
      SlabbingStart(order, most, dimension, t.P.dim, b, buffer);
      while bMore
        invariant OnLevel(t, es2, level, rest, j') && Feeds(es, dimension, left)
        invariant TakenOut(ins, have, rest, left, [])
        invariant n == done + |es.Order()| && (bMore ==> FullNodes(done, b)) && (!bMore ==> es.Order() == [])
        invariant Packs(j, j', done, b, t.rootID) && Kept(old(t.pages), t.pages, level)
        invariant |t.nodesInLevel| == |old(t.nodesInLevel)|
        invariant Extends(j, j', part) && Slabbing(part, order, most, dimension, t.P.dim, b, buffer, bMore, Plain(es.Order()))
        decreases bMore, |es.Order()|
      {
        var es3;
        ghost var slab;
        ghost var more, coming := bMore, Plain(es.Order());
        es3, bMore, slab := TakeSlab(es, most, dimension, pageSize, numberOfPages, left);
        SlabOut(ins, have, rest, left, slab);
        ghost var was, last, m := t.pages, t.rootID, |es3.Order()|;
        ghost var laid := Plain(es3.Order());
        ghost var j1, tiles;
        j1, tiles := CreateLevel(t, es3, dimension + 1, bleaf, bindex, level, es2, pageSize, numberOfPages, slab, rest, j');
        ExtendsMore(j, j', j1, part, tiles);
        SlabbingNext(part, order, most, dimension, t.P.dim, b, buffer, bMore, coming, m, tiles, laid);
        part := part + tiles;
        KeptMore(old(t.pages), was, t.pages, level);
        SlabMore(j, j', j1, done, m, b, last, t.rootID);
        rest, left, done, j' := rest - slab, left - slab, done + m, j1;
      }
      SlabsDone(es, dimension, left, ins, have, rest);
      SlabbingDone(part, order, most, dimension, t.P.dim, b, buffer, bMore, Plain(es.Order()));
    }
    LaidOut(part, order, dimension, t.P.dim, b, buffer, S);
  }

  lemma SlabCounted(n: nat, b: nat, nodes: nat, S: nat)
    requires b > 0 && nodes == CeilDiv(n, b) && S * S >= nodes && (S == 0 || (S - 1) * (S - 1) < nodes)
    ensures SlabCount(n, b, S)
  {
    CeilDivBounds(n, b);
    RootOfNodes(n, b, nodes, S);
  }

  /** Slabs of `most` entries were taken off the front of `order` and laid out; `coming` is still to come. */
  ghost predicate Slabbing(part: seq<seq<Entry>>, order: seq<Entry>, most: nat, s: nat, dim: nat, b: nat, buffer: int,
                           more: bool, coming: seq<Entry>) {
    && b > 0 && most > 0 && s + 1 < dim
    && exists front: seq<Entry> :: SlabbingAt(part, order, most, s, dim, b, buffer, more, coming, front)
  }

  ghost predicate SlabbingAt(part: seq<seq<Entry>>, order: seq<Entry>, most: nat, s: nat, dim: nat, b: nat, buffer: int,
                             more: bool, coming: seq<Entry>, front: seq<Entry>)
    requires b > 0 && most > 0 && s + 1 < dim
  {
    && order == front + coming && (more ==> FullNodes(|front|, most)) && Slabs(part, front, most, s, dim, b, buffer)
  }

  lemma SlabbingStart(order: seq<Entry>, most: nat, s: nat, dim: nat, b: nat, buffer: int)
    requires b > 0 && most > 0 && s + 1 < dim
    ensures Slabbing([], order, most, s, dim, b, buffer, true, order)
  {
    hide Slabs;
    NoSlabs([], [], most, s, dim, b, buffer);
    assert Times(0, most) == 0 && order == [] + order;
    assert SlabbingAt([], order, most, s, dim, b, buffer, true, order, []);
  }

  lemma SlabbingNext(part: seq<seq<Entry>>, order: seq<Entry>, most: nat, s: nat, dim: nat, b: nat, buffer: int, more: bool,
                     coming: seq<Entry>, m: nat, tiles: seq<seq<Entry>>, laid: seq<Entry>)
    requires Slabbing(part, order, most, s, dim, b, buffer, true, coming) && m <= |coming| && m <= most && (more ==> m == most)
    requires multiset(laid) == multiset(coming[..m]) && SortedBy(laid, s + 1, buffer) && Laid(tiles, laid, s + 1, dim, b, buffer)
    requires m == 0 ==> tiles == []
    ensures Slabbing(part + tiles, order, most, s, dim, b, buffer, more, coming[m..])
  {
    hide Slabs, Laid, SortedBy;
    var front :| SlabbingAt(part, order, most, s, dim, b, buffer, true, coming, front);
    var k: nat :| Times(k, most) == |front|;
    var x := coming[..m];
    assert front + coming == (front + x) + coming[m..];
    if m == 0 {
      assert part + tiles == part && front + x == front;
    } else {
      SlabsMore(part, front, most, s, dim, b, buffer, k, tiles, x, laid);
    }
    assert more ==> FullNodes(|front + x|, most) by {
      assert (k + 1) * most == k * most + most;
      assert Times(k + 1, most) == k * most + most;
    }
    assert SlabbingAt(part + tiles, order, most, s, dim, b, buffer, more, coming[m..], front + x);
  }

  lemma SlabbingDone(part: seq<seq<Entry>>, order: seq<Entry>, most: nat, s: nat, dim: nat, b: nat, buffer: int, more: bool, coming: seq<Entry>)
    requires Slabbing(part, order, most, s, dim, b, buffer, more, coming) && coming == []
    ensures b > 0 && most > 0 && s + 1 < dim && Slabs(part, order, most, s, dim, b, buffer)
  {
    hide Slabs;
    var front :| SlabbingAt(part, order, most, s, dim, b, buffer, more, coming, front);
    assert front + coming == front;
  }

  lemma SlabsDone(es: ExternalSorter, s: nat, left: multiset<Entry>, ins: multiset<Entry>, have: multiset<Entry>, rest: multiset<Entry>)
    requires Feeds(es, s, left) && es.Order() == [] && TakenOut(ins, have, rest, left, [])
    ensures rest == ins - have
  {
    TaggedNone(s, left);
  }

  // ---------------------------------------------------------------- all levels

  /** How many records reach `level` when `n` are loaded. */
  ghost function Inputs(n: nat, bleaf: nat, bindex: nat, level: nat): nat
    requires bleaf > 0 && bindex > 0
  {
    if level == 0 then n else CeilDiv(Inputs(n, bleaf, bindex, level - 1), NodeSize(level - 1, bleaf, bindex))
  }

  /** The nodes of `level` are as many as its input needs, and all are full but the last. */
  ghost predicate Tiled(pages: map<Id, Page>, level: nat, n: nat, b: nat)
    requires b > 0
  {
    exists made :: MadeOf(pages, level, made, SizesFor(n, b))
  }

  /** The pages of `level`, in some order, hold the entries of the level as the packing lays them out, sorted
      by the first dimension to begin with. */
  ghost predicate Arranged(pages: map<Id, Page>, level: nat, dim: nat, b: nat, buffer: int) {
    exists made, nodes, order :: ArrangedAs(pages, level, dim, b, buffer, made, nodes, order)
  }

  ghost predicate ArrangedAs(pages: map<Id, Page>, level: nat, dim: nat, b: nat, buffer: int,
                             made: seq<Id>, nodes: seq<seq<Entry>>, order: seq<Entry>) {
    && b > 0 && dim > 0 && NoDuplicates(made)
    && (forall p :: p in made <==> p in pages && pages[p].level == level)
    && NodesAt(pages, made, nodes) && SortedBy(order, 0, buffer) && Laid(nodes, order, 0, dim, b, buffer)
  }

  lemma ArrangedMade(pages: map<Id, Page>, level: nat, dim: nat, b: nat, buffer: int, made: seq<Id>, nodes: seq<seq<Entry>>, order: seq<Entry>)
    requires b > 0 && dim > 0 && MadeOf(pages, level, made, SizesFor(|order|, b)) && NodesAt(pages, made, nodes)
    requires SortedBy(order, 0, buffer) && Laid(nodes, order, 0, dim, b, buffer)
    ensures Arranged(pages, level, dim, b, buffer)
  {
    hide SortedBy, Laid, NodesAt;
    ListsAll(made, AtLevel(pages, level));
    forall p ensures p in made <==> p in pages && pages[p].level == level {
      assert p in AtLevel(pages, level) <==> p in pages && pages[p].level == level;
    }
    assert ArrangedAs(pages, level, dim, b, buffer, made, nodes, order);
  }

  lemma NodesKept(before: map<Id, Page>, after: map<Id, Page>, level: nat, made: seq<Id>, nodes: seq<seq<Entry>>)
    requires Kept(before, after, level) && NodesAt(before, made, nodes)
    ensures NodesAt(after, made, nodes)
  {
    forall i | 0 <= i < |made| ensures made[i] in after && after[made[i]].entries == nodes[i] {
      KeptAt(before, after, level, made[i]);
    }
  }

  lemma ArrangedKept(before: map<Id, Page>, after: map<Id, Page>, level: nat, l: nat, dim: nat, b: nat, buffer: int)
    requires Kept(before, after, level) && l != level && Arranged(before, l, dim, b, buffer)
    ensures Arranged(after, l, dim, b, buffer)
  {
    hide SortedBy, Laid;
    var made, nodes, order :| ArrangedAs(before, l, dim, b, buffer, made, nodes, order);
    forall p ensures p in made <==> p in after && after[p].level == l {
      assert p in made <==> p in before && before[p].level == l;
    }
    NodesKept(before, after, level, made, nodes);
    assert ArrangedAs(after, l, dim, b, buffer, made, nodes, order);
  }

  /** All levels below `level` are arranged like that. */
  ghost predicate ArrangedBelow(pages: map<Id, Page>, level: nat, dim: nat, bleaf: nat, bindex: nat, buffer: int) {
    && (level > 0 ==> Arranged(pages, 0, dim, bleaf, buffer))
    && forall l :: 1 <= l < level ==> Arranged(pages, l, dim, bindex, buffer)
  }

  lemma ArrangedNext(before: map<Id, Page>, after: map<Id, Page>, level: nat, dim: nat, bleaf: nat, bindex: nat, buffer: int)
    requires Kept(before, after, level) && ArrangedBelow(before, level, dim, bleaf, bindex, buffer)
    requires Arranged(after, level, dim, NodeSize(level, bleaf, bindex), buffer)
    ensures ArrangedBelow(after, level + 1, dim, bleaf, bindex, buffer)
  {
    hide Arranged;
    if level > 0 {
      ArrangedKept(before, after, level, 0, dim, bleaf, buffer);
    }
    forall l | 1 <= l < level ensures Arranged(after, l, dim, bindex, buffer) {
      ArrangedKept(before, after, level, l, dim, bindex, buffer);
    }
  }

  lemma TiledCount(pages: map<Id, Page>, level: nat, n: nat, b: nat)
    requires b > 0 && Tiled(pages, level, n, b)
    ensures |AtLevel(pages, level)| == CeilDiv(n, b)
    ensures exists made: seq<Id> ::
      && |made| == CeilDiv(n, b) && NoDuplicates(made)
      && (forall i :: 0 <= i < |made| ==> made[i] in pages && pages[made[i]].level == level)
      && (forall i :: 0 <= i < |made| - 1 ==> |pages[made[i]].entries| == b)
  {
    var made :| MadeOf(pages, level, made, SizesFor(n, b));
    SizesExact(n, b);
    forall i | 0 <= i < |made| - 1 ensures |pages[made[i]].entries| == b {
    }
  }

  lemma TiledKept(before: map<Id, Page>, after: map<Id, Page>, level: nat, l: nat, n: nat, b: nat)
    requires b > 0 && Kept(before, after, level) && l != level && Tiled(before, l, n, b)
    ensures Tiled(after, l, n, b)
  {
    var made :| MadeOf(before, l, made, SizesFor(n, b));
    MadeKept(before, after, level, l, made, SizesFor(n, b));
  }

  lemma MadeKept(before: map<Id, Page>, after: map<Id, Page>, level: nat, l: nat, made: seq<Id>, sizes: seq<nat>)
    requires Kept(before, after, level) && l != level && MadeOf(before, l, made, sizes)
    ensures MadeOf(after, l, made, sizes)
  {
    assert AtLevel(after, l) == AtLevel(before, l) by {
      forall p ensures p in AtLevel(after, l) <==> p in AtLevel(before, l) {
      }
    }
    forall i | 0 <= i < |made| ensures made[i] in after && after[made[i]] == before[made[i]] {
      KeptAt(before, after, level, made[i]);
    }
  }

  lemma KeptAt(before: map<Id, Page>, after: map<Id, Page>, level: nat, p: Id)
    requires Kept(before, after, level) && p in before
    ensures p in after && after[p] == before[p]
  {
  }

  /** All levels below `level` are done. */
  ghost predicate TiledBelow(pages: map<Id, Page>, level: nat, n: nat, bleaf: nat, bindex: nat)
    requires bleaf > 0 && bindex > 0
  {
    && (forall l :: 0 <= l < level ==> Tiled(pages, l, Inputs(n, bleaf, bindex, l), NodeSize(l, bleaf, bindex)))
    && (forall l :: 0 < l < level ==> Inputs(n, bleaf, bindex, l) > 1)
  }

  /** Before `level` is built: `ins` stand for all parentless pages, or are the data. */
  ghost predicate Levelled(P: Params, pages: map<Id, Page>, par: map<Id, Id>, level: nat, ins: multiset<Entry>,
                           all: multiset<Entry>, nodes: int, inLevel: seq<int>) {
    && Forest(P, pages, par, Tops(ins, level), {})
    && Ready(P, pages, ins, level) && Data(pages) + Loads(level, ins) == all
    && Counted(pages, nodes, inLevel) && |inLevel| == level + 1
    && Complete(P, pages, level) && AtLevel(pages, level) == {}
  }

  /** A bulk-loaded tree holds exactly `all`, all boxes are exact, no page is empty, and the counters of
      all its levels are right. There is one counter more than there are levels. */
  ghost predicate Loaded(P: Params, pages: map<Id, Page>, par: map<Id, Id>, root: Id, all: multiset<Entry>,
                         nodes: int, inLevel: seq<int>, height: nat) {
    && Tree(P, pages, par, root, {}, {}, pages.Keys)
    && (forall p :: p in pages ==> p >= 0 && pages[p].entries != [] && Exact(P, pages[p]))
    && Data(pages) == all
    && Counted(pages, nodes, inLevel) && |inLevel| == height + 1 && height == pages[root].level + 1
  }

  /** The data is in the first sorter. */
  lemma StartLoading(P: Params, all: multiset<Entry>)
    requires forall x :: x in all ==> IsBox(x.mbr, P.dim)
    ensures Levelled(P, map[], map[], 0, all, all, 0, [0])
  {
    var none: map<Id, Page> := map[];
    assert Data(none) == multiset{};
    assert AtLevel(none, 0) == {};
    assert Tops(all, 0) == {};
  }

  lemma NoneAbove(P: Params, pages: map<Id, Page>, level: nat, nodes: int, inLevel: seq<int>)
    requires Complete(P, pages, level) && Counted(pages, nodes, inLevel) && |inLevel| == level + 1
    ensures AtLevel(pages, level + 1) == {} && Counted(pages, nodes, inLevel + [0])
  {
    hide Counted, Exact;
    CompleteMore(P, pages, level);
    CountedMore(pages, nodes, inLevel);
  }

  lemma CountedMore(pages: map<Id, Page>, nodes: int, inLevel: seq<int>)
    requires Counted(pages, nodes, inLevel) && AtLevel(pages, |inLevel|) == {}
    ensures Counted(pages, nodes, inLevel + [0])
  {
  }

  lemma StartLevel(P: Params, pages: map<Id, Page>, par: map<Id, Id>, level: nat, ins: multiset<Entry>, all: multiset<Entry>,
                   nodes: int, inLevel: seq<int>)
    requires Levelled(P, pages, par, level, ins, all, nodes, inLevel)
    ensures Building(P, pages, par, level, ins, multiset{}, all, nodes, inLevel + [0])
    ensures MadeOf(pages, level, [], [])
  {
    hide Forest, Ready, Data, Counted, Complete, Loads;
    NoneAbove(P, pages, level, nodes, inLevel);
    assert Tops(ins, level) + Tops(multiset{}, level + 1) == Tops(ins, level);
    ReadyNone(P, pages, level + 1);
  }

  lemma ReadyNone(P: Params, pages: map<Id, Page>, level: nat)
    ensures Ready(P, pages, multiset{}, level) && Tops(multiset{}, level) == {}
  {
  }

  lemma EndLevel(P: Params, pages: map<Id, Page>, par: map<Id, Id>, level: nat, outs: multiset<Entry>, all: multiset<Entry>,
                 nodes: int, inLevel: seq<int>)
    requires Building(P, pages, par, level, multiset{}, outs, all, nodes, inLevel) && |inLevel| == level + 2
    ensures Levelled(P, pages, par, level + 1, outs, all, nodes, inLevel)
  {
    hide *;
    BuildingParts(P, pages, par, level, multiset{}, outs, all, nodes, inLevel);
    CompleteMore(P, pages, level);
    ReadyNone(P, pages, level);
    assert Tops(multiset{}, level) + Tops(outs, level + 1) == Tops(outs, level + 1);
    LevelledMade(P, pages, par, level, outs, all, nodes, inLevel);
  }

  lemma LevelledMade(P: Params, pages: map<Id, Page>, par: map<Id, Id>, level: nat, outs: multiset<Entry>, all: multiset<Entry>,
                     nodes: int, inLevel: seq<int>)
    requires Forest(P, pages, par, Tops(outs, level + 1), {}) && Ready(P, pages, outs, level + 1)
    requires Data(pages) + Loads(level, multiset{}) == all && Counted(pages, nodes, inLevel) && |inLevel| == level + 2
    requires Complete(P, pages, level + 1) && AtLevel(pages, level + 1) == {}
    ensures Levelled(P, pages, par, level + 1, outs, all, nodes, inLevel)
  {
    hide Forest, Ready, Data, Counted, Complete, AtLevel;
  }

  lemma CompleteMore(P: Params, pages: map<Id, Page>, level: nat)
    requires Complete(P, pages, level)
    ensures Complete(P, pages, level + 1) && AtLevel(pages, level + 1) == {}
  {
    hide Exact;
    forall p | p in pages ensures pages[p].level != level + 1 {
    }
    assert AtLevel(pages, level + 1) == {};
  }

  /** The last level has one node: the root. */
  lemma EndLoading(P: Params, pages: map<Id, Page>, par: map<Id, Id>, level: nat, outs: multiset<Entry>, all: multiset<Entry>,
                   nodes: int, inLevel: seq<int>, root: Id)
    requires Levelled(P, pages, par, level + 1, outs, all, nodes, inLevel) && AtLevel(pages, level) == {root}
    ensures Loaded(P, pages, par, root, all, nodes, inLevel, level + 1)
  {
    hide Forest, Data, Counted, Exact, AtLevel;
    RootOnly(P, pages, par, level, outs, root);
    RootAbove(P, pages, level, root);
    assert {root} == {} + {root};
    assert Data(pages) + multiset{} == Data(pages);
  }

  lemma RootAbove(P: Params, pages: map<Id, Page>, level: nat, root: Id)
    requires Complete(P, pages, level + 1) && AtLevel(pages, level + 1) == {} && AtLevel(pages, level) == {root}
    ensures UnderRoot(pages, root) && pages[root].level == level
  {
    hide Exact;
    assert root in AtLevel(pages, level);
    forall p | p in pages && p != root ensures pages[p].level < level {
      assert p !in AtLevel(pages, level) && p !in AtLevel(pages, level + 1);
    }
  }

  lemma RootOnly(P: Params, pages: map<Id, Page>, par: map<Id, Id>, level: nat, outs: multiset<Entry>, root: Id)
    requires Forest(P, pages, par, Tops(outs, level + 1), {}) && Ready(P, pages, outs, level + 1)
    requires AtLevel(pages, level + 1) == {} && AtLevel(pages, level) == {root}
    ensures Tops(outs, level + 1) == {root}
  {
    hide PageOk, Fresh;
    forall x | x in outs ensures x.id == root {
      assert Packable(P, pages, level + 1, x);
      assert x.id in AtLevel(pages, level);
    }
    assert root in AtLevel(pages, level);
    TopOrBelow(pages, par, Tops(outs, level + 1), root);
  }

  /** A page that something points to has a page above it. */
  lemma TopOrBelow(pages: map<Id, Page>, par: map<Id, Id>, tops: set<Id>, c: Id)
    requires Linked(pages, par, tops) && c in pages
    ensures c in tops || (c in par && par[c] in AtLevel(pages, pages[c].level + 1))
  {
    if c !in tops {
      assert c in par;
      var up := par[c];
      assert up in pages && c in Kids(pages[up]);
    }
  }

  /** The old root goes away. */
  method DropRoot(t: RTree)
    requires t.Valid() && t.treeHeight == 1
    modifies t`pages, t`par, t`nodes, t`nodesInLevel, t`levels
    ensures t.pages == map[] && t.par == map[] && t.nodes == 0 && t.nodesInLevel == [0]
  {
    OneLeaf(t);
    var n := t.ReadNode(t.rootID);
    t.DeleteNode(n);
    t.par := map[];
  }

  lemma OneLeaf(t: RTree)
    requires t.Valid() && t.treeHeight == 1
    ensures t.rootID in t.pages && t.pages.Keys == {t.rootID} && t.pages[t.rootID].level == 0
    ensures t.nodes == 1 && t.nodesInLevel == [1]
  {
    assert t.pages[t.rootID].level == 0;
    assert forall p :: p in t.pages ==> p == t.rootID;
    assert AtLevel(t.pages, 0) == t.pages.Keys;
  }

  /** The data goes through the first sorter. */
  method SortData(stream: seq<Entry>, pageSize: nat, numberOfPages: nat) returns (es: ExternalSorter)
    requires pageSize >= 1 && numberOfPages >= 2
    ensures fresh(es) && Feeds(es, 0, multiset(stream)) && es.totalEntries == |es.Order()| == |stream|
    ensures SortedBy(Plain(es.Order()), 0, pageSize * numberOfPages)
  {
    hide *;
    es := new ExternalSorter(pageSize, numberOfPages);
    SlabStart(0, multiset{});
    for i := 0 to |stream|
      invariant es.Valid() && es.insertionPhase && Tagged(es.Rest(), 0, multiset(stream[..i])) && es.totalEntries == i
      invariant es.pageSize == pageSize && es.bufferPages == numberOfPages
    {
      assert stream[..i+1] == stream[..i] + [stream[i]];
      TaggedAdd(es.Rest(), 0, multiset(stream[..i]), stream[i]);
      var inserted := es.Insert(Record(stream[i], 0));
    }
    assert stream[..|stream|] == stream;
    var sorted := es.Sort();
    FeedsMade(es, 0, multiset(stream));
    TaggedPlain(es.Order(), 0, multiset(stream));
    SortedRecords(es.Order(), 0, pageSize * numberOfPages);
  }

  lemma TiledStart(pages: map<Id, Page>, n: nat, bleaf: nat, bindex: nat)
    requires bleaf > 0 && bindex > 0
    ensures TiledBelow(pages, 0, n, bleaf, bindex) && Inputs(n, bleaf, bindex, 0) == n
  {
  }

  lemma LevelledFacts(P: Params, pages: map<Id, Page>, par: map<Id, Id>, level: nat, ins: multiset<Entry>,
                      all: multiset<Entry>, nodes: int, inLevel: seq<int>)
    requires Levelled(P, pages, par, level, ins, all, nodes, inLevel)
    ensures |inLevel| == level + 1
  {
  }

  /** One level: the sorted records of the level below become nodes, and a new sorter holds theirs. */
  method NextLevel(t: RTree, es: ExternalSorter, bleaf: nat, bindex: nat, level: nat, pageSize: nat, numberOfPages: nat,
                   ghost n: nat, ghost ins: multiset<Entry>, ghost all: multiset<Entry>)
    returns (es2: ExternalSorter, ghost outs: multiset<Entry>)
    requires Levelled(t.P, t.pages, t.par, level, ins, all, t.nodes, t.nodesInLevel) && Feeds(es, 0, ins)
    requires 1 <= bleaf <= t.P.leafCapacity && 1 <= bindex <= t.P.indexCapacity
    requires es.totalEntries == |es.Order()| == Inputs(n, bleaf, bindex, level) && es.totalEntries >= 1
    requires level > 0 ==> es.totalEntries > 1
    requires SortedBy(Plain(es.Order()), 0, pageSize * numberOfPages)
    requires TiledBelow(t.pages, level, n, bleaf, bindex) && t.P.dim >= 1 && pageSize >= 1 && numberOfPages >= 2
    modifies t`pages, t`par, t`nodes, t`nodesInLevel, t`levels, t`rootID, es
    ensures fresh(es2) && es2.Valid() && es2.insertionPhase && Tagged(es2.Rest(), 0, outs)
    ensures es2.pageSize == pageSize && es2.bufferPages == numberOfPages
    ensures Arranged(t.pages, level, t.P.dim, NodeSize(level, bleaf, bindex), pageSize * numberOfPages) && Kept(old(t.pages), t.pages, level)
    ensures es2.totalEntries == Inputs(n, bleaf, bindex, level + 1) && es2.totalEntries >= 1
    ensures Levelled(t.P, t.pages, t.par, level + 1, outs, all, t.nodes, t.nodesInLevel)
    ensures TiledBelow(t.pages, level + 1, n, bleaf, bindex)
    ensures es2.totalEntries == 1 ==> AtLevel(t.pages, level) == {t.rootID}
  {
    hide *;
    LevelledFacts(t.P, t.pages, t.par, level, ins, all, t.nodes, t.nodesInLevel);
    StartLevel(t.P, t.pages, t.par, level, ins, all, t.nodes, t.nodesInLevel);
    NodeSizeOk(t.P, level, bleaf, bindex);
    SlabStart(0, ins);
    ghost var was, b := t.pages, NodeSize(level, bleaf, bindex);
    t.nodesInLevel := t.nodesInLevel + [0];
    es2 := new ExternalSorter(pageSize, numberOfPages);
    ghost var j := Job(all, multiset{}, [], [], []);
    OnLevelMade(t, es2, level, ins, j);
    ghost var m, order := |es.Order()|, Plain(es.Order());
    ghost var j', part := CreateLevel(t, es, 0, bleaf, bindex, level, es2, pageSize, numberOfPages, ins, ins, j);
    outs := j'.outs;
    assert ins - ins == multiset{};
    LevelFacts(t, es2, level, j, j', m, b);
    ExtendsAll(j, j', part);
    ArrangedMade(t.pages, level, t.P.dim, b, pageSize * numberOfPages, j'.made, part, order);
    EndLevel(t.P, t.pages, t.par, level, outs, all, t.nodes, t.nodesInLevel);
    TiledNext(was, t.pages, level, n, bleaf, bindex, j'.made);
    if es2.totalEntries == 1 {
      OnlyNode(t.pages, level, j'.made, j'.sizes, t.rootID);
    }
  }

  lemma NodeSizeOk(P: Params, level: nat, bleaf: nat, bindex: nat)
    requires 1 <= bleaf <= P.leafCapacity && 1 <= bindex <= P.indexCapacity
    ensures 1 <= NodeSize(level, bleaf, bindex) <= P.Capacity(level)
  {
  }

  lemma LevelFacts(t: RTree, es2: ExternalSorter, level: nat, j: Job, j': Job, m: nat, b: nat)
    requires OnLevel(t, es2, level, multiset{}, j') && b > 0 && m > 0
    requires Packs(j, j', m, b, t.rootID) && j.made == [] && j.sizes == []
    ensures Building(t.P, t.pages, t.par, level, multiset{}, j'.outs, j.all, t.nodes, t.nodesInLevel)
    ensures MadeOf(t.pages, level, j'.made, SizesFor(m, b)) && j'.sizes == SizesFor(m, b) && NodesAt(t.pages, j'.made, j'.nodes)
    ensures es2.Valid() && es2.insertionPhase && Tagged(es2.Rest(), 0, j'.outs)
    ensures es2.totalEntries == CeilDiv(m, b) == |j'.made| >= 1 && j'.made[|j'.made|-1] == t.rootID
  {
    SizesExact(m, b);
    assert [] + SizesFor(m, b) == SizesFor(m, b);
  }

  lemma TiledNext(was: map<Id, Page>, now: map<Id, Page>, level: nat, n: nat, bleaf: nat, bindex: nat, made: seq<Id>)
    requires bleaf > 0 && bindex > 0 && Kept(was, now, level) && TiledBelow(was, level, n, bleaf, bindex)
    requires MadeOf(now, level, made, SizesFor(Inputs(n, bleaf, bindex, level), NodeSize(level, bleaf, bindex)))
    requires level > 0 ==> Inputs(n, bleaf, bindex, level) > 1
    ensures TiledBelow(now, level + 1, n, bleaf, bindex)
    ensures Inputs(n, bleaf, bindex, level + 1) == CeilDiv(Inputs(n, bleaf, bindex, level), NodeSize(level, bleaf, bindex))
  {
    hide Kept, MadeOf, SizesFor, CeilDiv;
    forall l | 0 <= l < level ensures Tiled(now, l, Inputs(n, bleaf, bindex, l), NodeSize(l, bleaf, bindex)) {
      TiledKept(was, now, level, l, Inputs(n, bleaf, bindex, l), NodeSize(l, bleaf, bindex));
    }
  }

  lemma OnlyNode(pages: map<Id, Page>, level: nat, made: seq<Id>, sizes: seq<nat>, root: Id)
    requires MadeOf(pages, level, made, sizes) && |made| == 1 && made[0] == root
    ensures AtLevel(pages, level) == {root}
  {
    var all := AtLevel(pages, level);
    assert root in all;
    assert |all - {root}| == 0;
    assert all == {root} + (all - {root});
  }

  /** Above the leaves the number of records falls from level to level, so the loading ends. */
  lemma LevelShrinks(n: nat, bleaf: nat, bindex: nat, level: nat)
    requires bleaf > 0 && bindex >= 2 && level > 0 && Inputs(n, bleaf, bindex, level) >= 2
    ensures Inputs(n, bleaf, bindex, level + 1) < Inputs(n, bleaf, bindex, level)
  {
    Fewer(Inputs(n, bleaf, bindex, level), bindex);
  }

  lemma Fewer(m: nat, b: nat)
    requires m >= 2 && b >= 2
    ensures CeilDiv(m, b) < m
  {
    hide CeilDiv;
    CeilDivBounds(m, b);
    Twice(CeilDiv(m, b) - 1, b);
  }

  lemma Twice(c: nat, b: nat)
    requires b >= 2
    ensures c * b >= 2 * c
  {
    assert c * (b - 2) >= 0;
    assert c * b == c * 2 + c * (b - 2);
  }

  /** A stream of data entries is loaded into a new tree: the old root page is dropped, the data sorted
      and packed, and then each level from the one below, until a level has one node. */
  method BulkLoadUsingSTR(t: RTree, stream: seq<Entry>, bindex: nat, bleaf: nat, pageSize: nat, numberOfPages: nat) returns (ok: bool)
    requires t.Valid() && t.treeHeight == 1 && t.P.dim >= 1
    requires forall i :: 0 <= i < |stream| ==> IsBox(stream[i].mbr, t.P.dim)
    requires 1 <= bleaf <= t.P.leafCapacity && 2 <= bindex <= t.P.indexCapacity && pageSize >= 1 && numberOfPages >= 2
    modifies t
    ensures ok <==> stream != []
    ensures !ok ==> t.Valid() && t.pages == old(t.pages)
    ensures ok ==> Loaded(t.P, t.pages, t.par, t.rootID, multiset(stream), t.nodes, t.nodesInLevel, t.treeHeight)
    ensures ok ==> TiledBelow(t.pages, t.treeHeight, |stream|, bleaf, bindex) && Inputs(|stream|, bleaf, bindex, t.treeHeight) == 1
    ensures ok ==> ArrangedBelow(t.pages, t.treeHeight, t.P.dim, bleaf, bindex, pageSize * numberOfPages)
    ensures ok ==> t.dataCount == |stream| && t.Ragged() && t.Lag() == SpareZero
  {
    hide *;
    SaneNow(t);
    if stream == [] {
      return false;
    }
    ok := true;
    DropRoot(t);
    ghost var all := multiset(stream);
    var es := SortData(stream, pageSize, numberOfPages);
    t.dataCount := es.totalEntries;
    StartLoading(t.P, all);
    var level := 0;
    ghost var ins := all;
    TiledStart(t.pages, |stream|, bleaf, bindex);
    ArrangedNone(t.pages, t.P.dim, bleaf, bindex, pageSize * numberOfPages);
    while true
      invariant fresh(es) && Feeds(es, 0, ins) && es.totalEntries == |es.Order()| == Inputs(|stream|, bleaf, bindex, level)
      invariant Levelled(t.P, t.pages, t.par, level, ins, all, t.nodes, t.nodesInLevel)
      invariant TiledBelow(t.pages, level, |stream|, bleaf, bindex)
      invariant ArrangedBelow(t.pages, level, t.P.dim, bleaf, bindex, pageSize * numberOfPages)
      invariant SortedBy(Plain(es.Order()), 0, pageSize * numberOfPages)
      invariant es.totalEntries >= 1 && (level > 0 ==> es.totalEntries > 1)
      invariant t.dataCount == |stream|
      decreases if level == 0 then 1 else 0, es.totalEntries
    {
      if level > 0 {
        LevelShrinks(|stream|, bleaf, bindex, level);
      }
      var es2;
      ghost var outs;
      ghost var was := t.pages;
      es2, outs := NextLevel(t, es, bleaf, bindex, level, pageSize, numberOfPages, |stream|, ins, all);
      ArrangedNext(was, t.pages, level, t.P.dim, bleaf, bindex, pageSize * numberOfPages);
      level := level + 1;
      es, ins := es2, outs;
      if es.totalEntries == 1 {
        EndLoading(t.P, t.pages, t.par, level - 1, ins, all, t.nodes, t.nodesInLevel, t.rootID);
        break;
      }
      SortLevel(es, ins);
    }
    t.treeHeight := level;
    LoadedCounts(t.P, t.pages, t.par, t.rootID, all, t.nodes, t.nodesInLevel, level);
    t.levels, t.mark, t.markHeight := t.nodesInLevel[..|t.nodesInLevel|-1], SpareZero, level;
    LoadedWorking(t, all, |stream|, bleaf, bindex);
  }

  /** The records that the level below left are sorted by the first dimension. */
  method SortLevel(es: ExternalSorter, ghost ins: multiset<Entry>)
    requires es.Valid() && es.insertionPhase && Tagged(es.Rest(), 0, ins)
    modifies es
    ensures Feeds(es, 0, ins) && es.totalEntries == old(es.totalEntries) == |es.Order()|
    ensures SortedBy(Plain(es.Order()), 0, es.pageSize * es.bufferPages)
  {
    hide *;
    var sorted := es.Sort();
    FeedsMade(es, 0, ins);
    TaggedPlain(es.Order(), 0, ins);
    SortedRecords(es.Order(), 0, es.pageSize * es.bufferPages);
  }

  lemma ArrangedNone(pages: map<Id, Page>, dim: nat, bleaf: nat, bindex: nat, buffer: int)
    ensures ArrangedBelow(pages, 0, dim, bleaf, bindex, buffer)
  {
  }

  lemma SaneNow(t: RTree)
    requires t.Valid()
    ensures t.P.Sane()
  {
  }

  /** A loaded tree is as good as any other for searches, insertions and deletions; its level counters are
      right, with one counter too many. */
  lemma LoadedWorking(t: RTree, all: multiset<Entry>, n: nat, bleaf: nat, bindex: nat)
    requires bleaf > 0 && bindex > 1 && TiledBelow(t.pages, t.treeHeight, n, bleaf, bindex)
    requires t.P.Sane() && Loaded(t.P, t.pages, t.par, t.rootID, all, t.nodes, t.nodesInLevel, t.treeHeight)
    requires |t.nodesInLevel| >= 1 && t.levels == t.nodesInLevel[..|t.nodesInLevel|-1]
    requires t.mark == SpareZero && t.markHeight == t.treeHeight && t.dataCount == n == |all|
    ensures t.Ragged() && t.Lag() == SpareZero
  {
    hide *;
    LoadedCounts(t.P, t.pages, t.par, t.rootID, all, t.nodes, t.nodesInLevel, t.treeHeight);
    LoadedParts(t.P, t.pages, t.par, t.rootID, all, t.nodes, t.nodesInLevel, t.treeHeight);
    LoadedRoot(t.pages, t.rootID, t.treeHeight, n, bleaf, bindex);
    LoadedBetween(t.P, t.pages, t.par, t.rootID, all, t.nodes, t.nodesInLevel, t.treeHeight);
    LoadedApart(t.pages, t.rootID, t.treeHeight, n, bleaf, bindex);
    RaggedMade(t);
  }

  lemma RaggedMade(t: RTree)
    requires BetweenAt(t.P, t.pages, t.par, t.rootID, {}, {}, t.pages.Keys - {t.rootID}, t.nodes, t.levels, t.treeHeight)
    requires |t.nodesInLevel| >= 1 && t.levels == t.nodesInLevel[..|t.nodesInLevel|-1] && t.nodesInLevel[|t.nodesInLevel|-1] == 0
    requires t.mark == SpareZero && t.markHeight == t.treeHeight && t.dataCount == |Data(t.pages)| && Apart(t.pages, Thin(t.pages, t.rootID))
    ensures t.Ragged() && t.Lag() == SpareZero
  {
    hide BetweenAt, Data, Apart;
    assert t.nodesInLevel == t.levels + [0];
  }

  lemma LoadedBetween(P: Params, pages: map<Id, Page>, par: map<Id, Id>, root: Id, all: multiset<Entry>,
                      nodes: int, inLevel: seq<int>, height: nat)
    requires P.Sane() && Loaded(P, pages, par, root, all, nodes, inLevel, height) && root in pages
    requires pages[root].level > 0 ==> |pages[root].entries| >= 2
    requires |inLevel| == height + 1 && forall p :: p in pages ==> p >= 0
    ensures BetweenAt(P, pages, par, root, {}, {}, pages.Keys - {root}, nodes, inLevel[..height], height)
  {
    hide PageOk, Fresh, Exact, AtLevel, Linked;
  }

  lemma LoadedParts(P: Params, pages: map<Id, Page>, par: map<Id, Id>, root: Id, all: multiset<Entry>,
                    nodes: int, inLevel: seq<int>, height: nat)
    requires Loaded(P, pages, par, root, all, nodes, inLevel, height)
    ensures root in pages && UnderRoot(pages, root) && height == pages[root].level + 1 && |inLevel| == height + 1
    ensures Data(pages) == all && forall p :: p in pages ==> p >= 0
  {
    hide PageOk, Fresh, Exact, AtLevel, Linked;
  }

  /** A list without duplicates that is as long as a set it is drawn from lists all of the set. */
  lemma {:induction false} ListsAll(made: seq<Id>, s: set<Id>)
    requires NoDuplicates(made) && |made| == |s| && forall i :: 0 <= i < |made| ==> made[i] in s
    ensures forall p :: p in s ==> p in made
    decreases |made|
  {
    if made != [] {
      var last := made[|made|-1];
      ListsAll(made[..|made|-1], s - {last});
      assert made == made[..|made|-1] + [last];
    }
  }

  /** On a tiled level of nodes of two entries or more, at most one node has a single one: the last. */
  lemma OneThin(pages: map<Id, Page>, level: nat, n: nat, b: nat, p: Id, q: Id)
    requires b > 1 && Tiled(pages, level, n, b) && p in AtLevel(pages, level) && q in AtLevel(pages, level)
    requires |pages[p].entries| < 2 && |pages[q].entries| < 2
    ensures p == q
  {
    var made :| MadeOf(pages, level, made, SizesFor(n, b));
    SizesExact(n, b);
    ListsAll(made, AtLevel(pages, level));
    hide AtLevel;
    var i :| 0 <= i < |made| && made[i] == p;
    var j :| 0 <= j < |made| && made[j] == q;
    assert i == |made| - 1 && j == |made| - 1;
  }

  lemma LoadedApart(pages: map<Id, Page>, root: Id, height: nat, n: nat, bleaf: nat, bindex: nat)
    requires bleaf > 0 && bindex > 1 && TiledBelow(pages, height, n, bleaf, bindex)
    requires UnderRoot(pages, root) && height == pages[root].level + 1
    ensures Apart(pages, Thin(pages, root))
  {
    hide Tiled;
    var thin := Thin(pages, root);
    forall p, q | p in thin && q in thin && p in pages && q in pages && p != q && pages[p].level > 0 ensures pages[p].level != pages[q].level {
      var l := pages[p].level;
      assert Tiled(pages, l, Inputs(n, bleaf, bindex, l), NodeSize(l, bleaf, bindex));
      if pages[q].level == l {
        OneThin(pages, l, Inputs(n, bleaf, bindex, l), NodeSize(l, bleaf, bindex), p, q);
      }
    }
  }

  /** The last node made holds all the records of its level: the root has two entries or more, or is a
      leaf. */
  lemma LoadedRoot(pages: map<Id, Page>, root: Id, height: nat, n: nat, bleaf: nat, bindex: nat)
    requires bleaf > 0 && bindex > 0 && TiledBelow(pages, height, n, bleaf, bindex)
    requires UnderRoot(pages, root) && height == pages[root].level + 1
    ensures |pages[root].entries| == Inputs(n, bleaf, bindex, height - 1)
    ensures pages[root].level > 0 ==> |pages[root].entries| >= 2
  {
    var top := height - 1;
    var m, b := Inputs(n, bleaf, bindex, top), NodeSize(top, bleaf, bindex);
    OneRoot(pages, root);
    assert Tiled(pages, top, m, b);
    var made :| MadeOf(pages, top, made, SizesFor(m, b));
    assert made[0] == root;
    assert SizesFor(m, b) == [m];
  }

  /** A tree fresh from the loader passes `isIndexValid`: every condition under which the check says yes
      holds, the extra counter lying above all levels. */
  lemma LoadedPasses(t: RTree, all: multiset<Entry>)
    requires Loaded(t.P, t.pages, t.par, t.rootID, all, t.nodes, t.nodesInLevel, t.treeHeight)
    ensures Shaped(t.P, t.pages, t.par, t.rootID) && t.treeHeight <= |t.nodesInLevel|
    ensures t.rootID in t.pages && t.treeHeight == t.pages[t.rootID].level + 1
    ensures forall p :: p in t.pages ==> Exact(t.P, t.pages[p]) && Fresh(t.pages[p], t.pages, {})
    ensures CountersRight(t.pages, t.nodes, t.nodesInLevel, t.treeHeight)
  {
    LoadedCounts(t.P, t.pages, t.par, t.rootID, all, t.nodes, t.nodesInLevel, t.treeHeight);
    hide Cover;
    assert {} + {t.rootID} == {t.rootID};
    forall p | p in t.pages ensures Boxes(t.pages[p].entries, t.P.dim) && (t.pages[p].level > 0 ==> DistinctIds(t.pages[p].entries)) {
      assert PageOk(t.P, t.pages[p]);
    }
  }

  lemma LoadedCounts(P: Params, pages: map<Id, Page>, par: map<Id, Id>, root: Id, all: multiset<Entry>, nodes: int,
                     inLevel: seq<int>, height: nat)
    requires Loaded(P, pages, par, root, all, nodes, inLevel, height)
    ensures |inLevel| == height + 1 && inLevel[height] == 0 && forall l :: 0 <= l < height ==> inLevel[l] == |AtLevel(pages, l)|
  {
    forall p | p in pages ensures pages[p].level != height {
    }
    assert AtLevel(pages, height) == {};
  }
}
