/** How sort-tile-recursive packing lays out the entries of one level: cut into slabs by one dimension
    after the other, and into nodes at the end. */
module TileLayout {
  import opened Geometry
  import opened Pages
  import opened ExternalSorting

  /** The entries of some records. */
  ghost function Plain(rs: seq<Record>): (r: seq<Entry>)
    ensures |r| == |rs|
  {
    seq(|rs|, i requires 0 <= i < |rs| => rs[i].e)
  }

  lemma PlainTail(rs: seq<Record>)
    requires rs != []
    ensures Plain(rs) != [] && Plain(rs)[0] == rs[0].e && Plain(rs)[1..] == Plain(rs[1..])
  {
  }

  /** The centre of `x` in dimension `s` is not to the right of that of `y`. */
  ghost predicate CentreUpTo(x: Entry, y: Entry, s: nat) {
    s < |x.mbr.low| && s < |x.mbr.high| && s < |y.mbr.low| && s < |y.mbr.high| ==>
      (x.mbr.low[s] + x.mbr.high[s]) / 2.0 <= (y.mbr.low[s] + y.mbr.high[s]) / 2.0
  }

  /** If a sorter can hold the entries in its buffer, they are in order of their centres in dimension `s`. */
  ghost predicate SortedBy(order: seq<Entry>, s: nat, buffer: int) {
    |order| <= buffer ==> forall i, j :: 0 <= i < j < |order| ==> CentreUpTo(order[i], order[j], s)
  }

  lemma SortedRecords(rs: seq<Record>, s: nat, buffer: int)
    requires |rs| <= buffer ==> LeftToRight(rs)
    requires forall r :: r in rs ==> r.s == s
    ensures SortedBy(Plain(rs), s, buffer)
  {
    if |rs| <= buffer {
      forall i, j | 0 <= i < j < |rs| ensures CentreUpTo(Plain(rs)[i], Plain(rs)[j], s) {
        assert NotRight(rs[i], rs[j]) && rs[i] in rs && rs[j] in rs;
      }
    }
  }

  /** The nodes hold `b` entries each, in their order, and the last one what is left. */
  ghost predicate Chunked(nodes: seq<seq<Entry>>, order: seq<Entry>, b: nat)
    requires b > 0
    decreases |order|
  {
    if order == [] then nodes == []
    else if |order| <= b then nodes == [order]
    else nodes != [] && nodes[0] == order[..b] && Chunked(nodes[1..], order[b..], b)
  }

  /** `S` times `S` nodes of `b` are enough for `n` entries, and no smaller number will do. */
  ghost predicate SlabCount(n: nat, b: nat, S: nat) {
    S * S * b >= n && (S == 0 || (S - 1) * (S - 1) * b < n)
  }

  /** The entries `order`, which come sorted by dimension `s`, are laid out in nodes of `b`: in the last
      dimension, or when one slab would do, one node after the other; otherwise slab by slab. */
  ghost predicate Laid(nodes: seq<seq<Entry>>, order: seq<Entry>, s: nat, dim: nat, b: nat, buffer: int)
    requires b > 0 && s < dim
    decreases dim - s, 2, 0
  {
    exists S: nat :: LaidBy(nodes, order, s, dim, b, buffer, S)
  }

  ghost predicate LaidBy(nodes: seq<seq<Entry>>, order: seq<Entry>, s: nat, dim: nat, b: nat, buffer: int, S: nat)
    requires b > 0 && s < dim
    decreases dim - s, 1, 0
  {
    && SlabCount(|order|, b, S)
    && if S == 1 || s + 1 == dim || S * b == |order| then Chunked(nodes, order, b)
       else S * b > 0 && Slabs(nodes, order, S * b, s, dim, b, buffer)
  }

  /** The first `m` entries are sorted by the next dimension and laid out, and so are the next ones. */
  ghost predicate Slabs(nodes: seq<seq<Entry>>, order: seq<Entry>, m: nat, s: nat, dim: nat, b: nat, buffer: int)
    requires b > 0 && m > 0 && s + 1 < dim
    decreases dim - s, 0, |order|
  {
    if order == [] then nodes == []
    else
      var c := if |order| < m then |order| else m;
      exists k: nat, slab :: Slab(nodes, order[..c], k, slab, s, buffer) && Laid(nodes[..k], slab, s + 1, dim, b, buffer)
        && Slabs(nodes[k..], order[c..], m, s, dim, b, buffer)
  }

  /** `slab` has the entries `cut`, sorted by the dimension after `s`; the first `k` nodes are for it. */
  ghost predicate Slab(nodes: seq<seq<Entry>>, cut: seq<Entry>, k: nat, slab: seq<Entry>, s: nat, buffer: int) {
    k <= |nodes| && multiset(slab) == multiset(cut) && SortedBy(slab, s + 1, buffer)
  }

  /** One more node after full ones. */
  lemma {:induction false} ChunkMore(nodes: seq<seq<Entry>>, order: seq<Entry>, b: nat, x: seq<Entry>, k: nat)
    requires b > 0 && Chunked(nodes, order, b) && |order| == k * b && 0 < |x| <= b
    ensures Chunked(nodes + [x], order + x, b)
    decreases k
  {
    hide *;
    if k == 0 {
      assert order == [];
      NoChunk(nodes, order, b);
      assert order + x == x && nodes + [x] == [x];
      OneChunk(x, b);
    } else {
      assert k * b == (k - 1) * b + b && (k - 1) * b >= 0;
      FirstChunk(nodes, order, b);
      ChunkMore(nodes[1..], order[b..], b, x, k - 1);
      assert (order + x)[..b] == order[..b] && (order + x)[b..] == order[b..] + x;
      assert (nodes + [x])[1..] == nodes[1..] + [x];
      ChunkBefore(nodes + [x], order + x, b);
    }
  }

  lemma NoChunk(nodes: seq<seq<Entry>>, order: seq<Entry>, b: nat)
    requires b > 0 && Chunked(nodes, order, b) && order == []
    ensures nodes == []
  {
  }

  lemma OneChunk(x: seq<Entry>, b: nat)
    requires 0 < |x| <= b
    ensures Chunked([x], x, b)
  {
  }

  lemma FirstChunk(nodes: seq<seq<Entry>>, order: seq<Entry>, b: nat)
    requires b > 0 && Chunked(nodes, order, b) && |order| >= b
    ensures nodes != [] && nodes[0] == order[..b] && Chunked(nodes[1..], order[b..], b)
  {
    if |order| == b {
      assert order[..b] == order && order[b..] == [] && nodes[1..] == [];
    }
  }

  lemma ChunkBefore(nodes: seq<seq<Entry>>, order: seq<Entry>, b: nat)
    requires b > 0 && |order| > b && nodes != [] && nodes[0] == order[..b] && Chunked(nodes[1..], order[b..], b)
    ensures Chunked(nodes, order, b)
  {
  }

  /** One more slab after full ones. */
  lemma {:induction false} SlabsMore(nodes: seq<seq<Entry>>, order: seq<Entry>, m: nat, s: nat, dim: nat, b: nat, buffer: int, k: nat,
                                     more: seq<seq<Entry>>, x: seq<Entry>, slab: seq<Entry>)
    requires b > 0 && m > 0 && s + 1 < dim && Slabs(nodes, order, m, s, dim, b, buffer) && |order| == k * m && 0 < |x| <= m
    requires multiset(slab) == multiset(x) && SortedBy(slab, s + 1, buffer) && Laid(more, slab, s + 1, dim, b, buffer)
    ensures Slabs(nodes + more, order + x, m, s, dim, b, buffer)
    decreases k
  {
    hide *;
    if k == 0 {
      NoSlabs(nodes, order, m, s, dim, b, buffer);
      NoSlabs([], [], m, s, dim, b, buffer);
      assert order + x == x && nodes + more == more;
      assert more[..|more|] == more && more[|more|..] == [] && x[..|x|] == x && x[|x|..] == [];
      OneSlab(more, x, |more|, slab, m, s, dim, b, buffer);
    } else {
      assert k * m == (k - 1) * m + m && (k - 1) * m >= 0;
      var i, first := FirstSlab(nodes, order, m, s, dim, b, buffer);
      SlabsMore(nodes[i..], order[m..], m, s, dim, b, buffer, k - 1, more, x, slab);
      var all, rest := nodes + more, order + x;
      assert all[..i] == nodes[..i] && all[i..] == nodes[i..] + more && rest[..m] == order[..m] && rest[m..] == order[m..] + x;
      OneSlab(all, rest, i, first, m, s, dim, b, buffer);
    }
  }

  lemma NoSlabs(nodes: seq<seq<Entry>>, order: seq<Entry>, m: nat, s: nat, dim: nat, b: nat, buffer: int)
    requires b > 0 && m > 0 && s + 1 < dim && order == []
    ensures Slabs(nodes, order, m, s, dim, b, buffer) <==> nodes == []
  {
  }

  lemma SlabAt(nodes: seq<seq<Entry>>, order: seq<Entry>, m: nat, s: nat, dim: nat, b: nat, buffer: int)
    returns (c: nat, k: nat, slab: seq<Entry>)
    requires b > 0 && m > 0 && s + 1 < dim && Slabs(nodes, order, m, s, dim, b, buffer) && order != []
    ensures c == (if |order| < m then |order| else m) && k <= |nodes| && multiset(slab) == multiset(order[..c])
    ensures Laid(nodes[..k], slab, s + 1, dim, b, buffer) && Slabs(nodes[k..], order[c..], m, s, dim, b, buffer)
    ensures SortedBy(slab, s + 1, buffer)
  {
    hide Laid, SortedBy;
    c := if |order| < m then |order| else m;
    k, slab :| Slab(nodes, order[..c], k, slab, s, buffer) && Laid(nodes[..k], slab, s + 1, dim, b, buffer)
      && Slabs(nodes[k..], order[c..], m, s, dim, b, buffer);
  }

  lemma FirstSlab(nodes: seq<seq<Entry>>, order: seq<Entry>, m: nat, s: nat, dim: nat, b: nat, buffer: int) returns (k: nat, slab: seq<Entry>)
    requires b > 0 && m > 0 && s + 1 < dim && Slabs(nodes, order, m, s, dim, b, buffer) && |order| >= m
    ensures k <= |nodes| && multiset(slab) == multiset(order[..m]) && SortedBy(slab, s + 1, buffer)
    ensures Laid(nodes[..k], slab, s + 1, dim, b, buffer) && Slabs(nodes[k..], order[m..], m, s, dim, b, buffer)
  {
    hide *;
    var c;
    c, k, slab := SlabAt(nodes, order, m, s, dim, b, buffer);
  }

  lemma OneSlab(nodes: seq<seq<Entry>>, order: seq<Entry>, k: nat, slab: seq<Entry>, m: nat, s: nat, dim: nat, b: nat, buffer: int)
    requires b > 0 && m > 0 && s + 1 < dim && order != [] && k <= |nodes| && SortedBy(slab, s + 1, buffer)
    requires
      var c := if |order| < m then |order| else m;
      multiset(slab) == multiset(order[..c]) && Laid(nodes[..k], slab, s + 1, dim, b, buffer) && Slabs(nodes[k..], order[c..], m, s, dim, b, buffer)
    ensures Slabs(nodes, order, m, s, dim, b, buffer)
  {
    hide Laid, SortedBy;
    var c := if |order| < m then |order| else m;
    assert Slab(nodes, order[..c], k, slab, s, buffer);
  }

  lemma LaidOut(nodes: seq<seq<Entry>>, order: seq<Entry>, s: nat, dim: nat, b: nat, buffer: int, S: nat)
    requires b > 0 && s < dim && SlabCount(|order|, b, S)
    requires if S == 1 || s + 1 == dim || S * b == |order| then Chunked(nodes, order, b)
             else S * b > 0 && Slabs(nodes, order, S * b, s, dim, b, buffer)
    ensures Laid(nodes, order, s, dim, b, buffer)
  {
    assert LaidBy(nodes, order, s, dim, b, buffer, S);
  }

  /** The square root of the number of nodes, rounded up. */
  lemma RootOfNodes(n: nat, b: nat, nodes: nat, S: nat)
    requires b > 0 && nodes * b >= n && (nodes == 0 || (nodes - 1) * b < n)
    requires S * S >= nodes && (S == 0 || (S - 1) * (S - 1) < nodes)
    ensures SlabCount(n, b, S)
  {
    Scaled(nodes, S * S, b);
    if S > 0 {
      Scaled((S - 1) * (S - 1), nodes - 1, b);
    }
  }

  lemma Scaled(x: int, y: int, b: nat)
    requires x <= y
    ensures x * b <= y * b
  {
    assert (y - x) * b >= 0;
    assert y * b == x * b + (y - x) * b;
  }

  /** The entries of the nodes, one node after the other. */
  ghost function Flat(nodes: seq<seq<Entry>>): (r: seq<Entry>) {
    if nodes == [] then [] else nodes[0] + Flat(nodes[1..])
  }

  lemma FlatNone()
    ensures Flat([]) == []
  {
  }

  lemma {:induction false} FlatJoin(a: seq<seq<Entry>>, c: seq<seq<Entry>>)
    ensures Flat(a + c) == Flat(a) + Flat(c)
  {
    if a == [] {
      assert a + c == c;
    } else {
      assert (a + c)[0] == a[0] && (a + c)[1..] == a[1..] + c;
      FlatJoin(a[1..], c);
    }
  }

  lemma {:induction false} ChunkedKeeps(nodes: seq<seq<Entry>>, order: seq<Entry>, b: nat)
    requires b > 0 && Chunked(nodes, order, b)
    ensures Flat(nodes) == order
    decreases |order|
  {
    if |order| > b {
      ChunkedKeeps(nodes[1..], order[b..], b);
      assert order[..b] + order[b..] == order;
    }
  }

  /** A layout holds each entry as often as it was given. */
  lemma {:induction false} LaidKeeps(nodes: seq<seq<Entry>>, order: seq<Entry>, s: nat, dim: nat, b: nat, buffer: int)
    requires b > 0 && s < dim && Laid(nodes, order, s, dim, b, buffer)
    ensures multiset(Flat(nodes)) == multiset(order)
    decreases dim - s, 1, 0
  {
    hide SortedBy, Flat, SlabCount;
    var S: nat :| LaidBy(nodes, order, s, dim, b, buffer, S);
    if S == 1 || s + 1 == dim || S * b == |order| {
      ChunkedKeeps(nodes, order, b);
    } else {
      SlabsKeep(nodes, order, S * b, s, dim, b, buffer);
    }
  }

  lemma {:induction false} SlabsKeep(nodes: seq<seq<Entry>>, order: seq<Entry>, m: nat, s: nat, dim: nat, b: nat, buffer: int)
    requires b > 0 && m > 0 && s + 1 < dim && Slabs(nodes, order, m, s, dim, b, buffer)
    ensures multiset(Flat(nodes)) == multiset(order)
    decreases dim - s, 0, |order|
  {
    hide *;
    if order == [] {
      NoSlabs(nodes, order, m, s, dim, b, buffer);
      FlatNone();
    } else {
      var c, k, slab := SlabAt(nodes, order, m, s, dim, b, buffer);
      LaidKeeps(nodes[..k], slab, s + 1, dim, b, buffer);
      SlabsKeep(nodes[k..], order[c..], m, s, dim, b, buffer);
      FlatJoin(nodes[..k], nodes[k..]);
      assert nodes[..k] + nodes[k..] == nodes && order[..c] + order[c..] == order;
    }
  }

  /** If the entries fit the buffer, the first nodes hold the `m` entries furthest to the left: none of them
      has its centre to the right of that of an entry of a later node. */
  lemma FirstSlabLeft(nodes: seq<seq<Entry>>, order: seq<Entry>, m: nat, s: nat, dim: nat, b: nat, buffer: int) returns (k: nat)
    requires b > 0 && m > 0 && s + 1 < dim && Slabs(nodes, order, m, s, dim, b, buffer) && |order| >= m
    requires |order| <= buffer && SortedBy(order, s, buffer)
    ensures k <= |nodes| && |Flat(nodes[..k])| == m
    ensures forall x, y :: x in Flat(nodes[..k]) && y in Flat(nodes[k..]) ==> CentreUpTo(x, y, s)
  {
    hide Laid, Slabs, Flat, CentreUpTo, SortedBy;
    var slab;
    k, slab := FirstSlab(nodes, order, m, s, dim, b, buffer);
    LaidKeeps(nodes[..k], slab, s + 1, dim, b, buffer);
    SlabsKeep(nodes[k..], order[m..], m, s, dim, b, buffer);
    assert |multiset(Flat(nodes[..k]))| == |multiset(order[..m])|;
    forall x, y | x in Flat(nodes[..k]) && y in Flat(nodes[k..]) ensures CentreUpTo(x, y, s) {
      assert x in multiset(Flat(nodes[..k])) && y in multiset(Flat(nodes[k..]));
      assert x in order[..m] && y in order[m..];
      var i :| 0 <= i < m && order[..m][i] == x;
      var j :| 0 <= j < |order| - m && order[m..][j] == y;
      SortedAt(order, s, buffer, i, m + j);
    }
  }

  lemma SortedAt(order: seq<Entry>, s: nat, buffer: int, i: nat, j: nat)
    requires SortedBy(order, s, buffer) && |order| <= buffer && i < j < |order|
    ensures CentreUpTo(order[i], order[j], s)
  {
  }
}
