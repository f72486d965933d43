/** The in-memory node of the R-tree: the entry list, the bounding box it keeps, and the ways an
    overflowing node is divided. Every choice that the program makes by comparing areas, overlaps or
    margins (seeds, preferred group, sort order, split point) is an arbitrary choice here. */
module RTreeNode {
  import opened Geometry
  import opened Pages
  import opened IndexLists

  /** Entry lists whose boxes all have the dimension of the tree. */
  ghost predicate Boxes(es: seq<Entry>, dim: nat) {
    forall i :: 0 <= i < |es| ==> IsBox(es[i].mbr, dim)
  }

  /** A page after one more entry: the box grows by `combineRegion`. */
  ghost function Extended(n: Page, e: Entry): Page
    requires IsBox(n.mbr, |n.mbr.low|) && IsBox(e.mbr, |n.mbr.low|)
  {
    Page(n.level, Combine(n.mbr, e.mbr), n.entries + [e])
  }

  /** A page that holds exactly `es` under their tight cover. */
  ghost function Packed(level: nat, es: seq<Entry>, dim: nat): Page
    requires Boxes(es, dim)
  {
    Page(level, Cover(es, dim), es)
  }

  lemma PackedFacts(level: nat, es: seq<Entry>, dim: nat)
    requires Boxes(es, dim)
    ensures Packed(level, es, dim).level == level && Packed(level, es, dim).entries == es && IsBox(Packed(level, es, dim).mbr, dim)
  {
  }

  lemma CoverNone(dim: nat)
    ensures Cover([], dim) == Infinite(dim)
  {
  }

  lemma MoreBoxes(es: seq<Entry>, e: Entry, dim: nat)
    requires Boxes(es, dim) && IsBox(e.mbr, dim)
    ensures Boxes(es + [e], dim)
  {
  }

  /** `a` and `b` divide the entries of page `n` together with the new entry `e`. */
  ghost predicate Divided(n: Page, e: Entry, a: seq<Entry>, b: seq<Entry>) {
    multiset(a) + multiset(b) == multiset(n.entries + [e])
  }

  /** A page after losing entry `i`. */
  ghost function Shrunk(P: Params, n: Page, i: nat): Page
    requires i < |n.entries| && Boxes(n.entries, P.dim)
  {
    var es := Without(n.entries, i);
    WithoutBoxes(n.entries, i, P.dim);
    Page(n.level, if es == [] then Infinite(P.dim) else if P.tight then Cover(es, P.dim) else n.mbr, es)
  }

  lemma WithoutBoxes(es: seq<Entry>, i: nat, dim: nat)
    requires i < |es| && Boxes(es, dim)
    ensures Boxes(Without(es, i), dim)
  {
  }

  lemma SelectBoxes(es: seq<Entry>, g: seq<nat>, dim: nat)
    requires Boxes(es, dim) && forall i :: 0 <= i < |g| ==> g[i] < |es|
    ensures Boxes(Select(es, g), dim)
  {
  }

  lemma CoverPrefix(es: seq<Entry>, k: nat, dim: nat, d: nat)
    requires Boxes(es, dim) && k < |es| && d < dim
    ensures Boxes(es[..k], dim) && Boxes(es[..k+1], dim)
    ensures Cover(es[..k+1], dim).low[d] == Min(Cover(es[..k], dim).low[d], es[k].mbr.low[d])
    ensures Cover(es[..k+1], dim).high[d] == Max(Cover(es[..k], dim).high[d], es[k].mbr.high[d])
  {
    assert es[..k+1][..k] == es[..k];
  }

  // ---------------------------------------------------------------- growing the two groups

  lemma PushFirst(g1: seq<nat>, g2: seq<nat>, x: nat, n: nat)
    requires Positions(g1 + g2, n) && x < n && x !in g1 + g2
    ensures Positions((g1 + [x]) + g2, n)
  {
    InsertPosition(g1 + g2, |g1|, x, n);
    assert (g1 + g2)[..|g1|] + [x] + (g1 + g2)[|g1|..] == (g1 + [x]) + g2;
  }

  lemma PushSecond(g1: seq<nat>, g2: seq<nat>, x: nat, n: nat)
    requires Positions(g1 + g2, n) && x < n && x !in g1 + g2
    ensures Positions(g1 + (g2 + [x]), n)
  {
    assert g1 + (g2 + [x]) == (g1 + g2) + [x];
  }

  lemma InsertPosition(v: seq<nat>, j: nat, x: nat, n: nat)
    requires Positions(v, n) && j <= |v| && x < n && x !in v
    ensures Positions(v[..j] + [x] + v[j..], n)
  {
    var w := v[..j] + [x] + v[j..];
    forall a, b | 0 <= a < b < |w| ensures w[a] != w[b] {
      assert a < j ==> w[a] == v[a];
      assert a > j ==> w[a] == v[a-1];
      assert b < j ==> w[b] == v[b];
      assert b > j ==> w[b] == v[b-1];
    }
  }

  /** Some ordering of the positions below `n`: the outcome of sorting by any criterion. */
  method Arrange(n: nat) returns (v: seq<nat>)
    ensures Positions(v, n) && |v| == n
  {
    v := [];
    for i := 0 to n
      invariant Positions(v, i) && |v| == i
    {
      var j :| 0 <= j <= |v|;
      InsertPosition(v, j, i, i + 1);
      v := v[..j] + [i] + v[j..];
    }
  }

  /** Two seed positions among the `capacity + 1` entries: when the scan lands twice on the same
      one, the second is moved to a neighbour. */
  method PickSeeds(capacity: nat) returns (index1: nat, index2: nat)
    requires capacity >= 1
    ensures index1 <= capacity && index2 <= capacity && index1 != index2
  {
    index1 :| 0 <= index1 <= capacity;
    index2 :| 0 <= index2 <= capacity;
    if index1 == index2 {
      if index2 == 0 {
        index2 := index2 + 1;
      } else {
        index2 := index2 - 1;
      }
    }
  }

  ghost predicate Masked(g1: seq<nat>, g2: seq<nat>, mask: seq<bool>) {
    && Positions(g1 + g2, |mask|)
    && forall i :: 0 <= i < |mask| ==> (mask[i] <==> i in g1 + g2)
  }

  /** The linear and quadratic split: seeds first, then one entry at a time, until one group must
      take all the rest to reach the minimum load. */
  method RtreeSplit(capacity: nat, minimumLoad: int) returns (group1: seq<nat>, group2: seq<nat>)
    requires capacity >= 1 && minimumLoad >= 1 && 2 * minimumLoad <= capacity + 1
    ensures Partition(group1, group2, capacity + 1)
    ensures |group1| >= minimumLoad && |group2| >= minimumLoad
  {
    var mask := new bool[capacity + 1](_ => false);
    var seed1, seed2 := PickSeeds(capacity);
    group1, group2 := [seed1], [seed2];
    mask[seed1] := true;
    mask[seed2] := true;
    var cRemaining := capacity + 1 - 2;
    while cRemaining > 0
      invariant 0 <= cRemaining && |group1| + |group2| + cRemaining == capacity + 1
      invariant Masked(group1, group2, mask[..])
      invariant minimumLoad <= |group1| + cRemaining && minimumLoad <= |group2| + cRemaining
      decreases cRemaining
    {
      if minimumLoad - |group1| == cRemaining {
        // all remaining entries go to the first group to meet the minimum load
        ghost var before := |group1|;
        for u := 0 to capacity + 1
          invariant |group1| + |group2| + cRemaining == capacity + 1 && before <= |group1|
          invariant Masked(group1, group2, mask[..])
          invariant forall i :: 0 <= i < u ==> mask[i]
        {
          if !mask[u] {
            PushFirst(group1, group2, u, capacity + 1);
            group1 := group1 + [u];
            mask[u] := true;
            cRemaining := cRemaining - 1;
          }
        }
        AllMasked(group1, group2, mask[..]);
      } else if minimumLoad - |group2| == cRemaining {
        // all remaining entries go to the second group to meet the minimum load
        ghost var before := |group2|;
        for u := 0 to capacity + 1
          invariant |group1| + |group2| + cRemaining == capacity + 1 && before <= |group2|
          invariant Masked(group1, group2, mask[..])
          invariant forall i :: 0 <= i < u ==> mask[i]
        {
          if !mask[u] {
            PushSecond(group1, group2, u, capacity + 1);
            group2 := group2 + [u];
            mask[u] := true;
            cRemaining := cRemaining - 1;
          }
        }
        AllMasked(group1, group2, mask[..]);
      } else {
        SomeUnmasked(group1, group2, mask[..]);
        var sel :| 0 <= sel < mask.Length && !mask[sel];
        if * {
          PushFirst(group1, group2, sel, capacity + 1);
          group1 := group1 + [sel];
        } else {
          PushSecond(group1, group2, sel, capacity + 1);
          group2 := group2 + [sel];
        }
        mask[sel] := true;
        cRemaining := cRemaining - 1;
      }
    }
  }

  lemma AllMasked(g1: seq<nat>, g2: seq<nat>, mask: seq<bool>)
    requires Masked(g1, g2, mask) && forall i :: 0 <= i < |mask| ==> mask[i]
    ensures |g1| + |g2| == |mask|
  {
    var all := seq(|mask|, i requires 0 <= i => i);
    assert Positions(all, |mask|);
    var elements := ElementCount(g1 + g2);
    var every := ElementCount(all);
    assert forall i :: 0 <= i < |mask| ==> all[i] in elements;
    SmallerSet(every, elements);
    Pigeonhole(g1 + g2, |mask|);
  }

  lemma SomeUnmasked(g1: seq<nat>, g2: seq<nat>, mask: seq<bool>)
    requires Masked(g1, g2, mask) && |g1| + |g2| < |mask|
    ensures exists i :: 0 <= i < |mask| && !mask[i]
  {
    if forall i :: 0 <= i < |mask| ==> mask[i] {
      AllMasked(g1, g2, mask);
    }
  }

  /** The R* split: entries in some order, cut at a point between `m` and `capacity + 2 - m`. */
  method RstarSplit(capacity: nat, m: int) returns (group1: seq<nat>, group2: seq<nat>)
    requires m >= 1 && 2 * m <= capacity + 2
    ensures Partition(group1, group2, capacity + 1)
    ensures |group1| >= m && |group2| >= m - 1
  {
    var splitDistribution := (capacity + 1) - 2 * m + 2;
    var data := Arrange(capacity + 1);
    var splitPoint :| 1 <= splitPoint <= splitDistribution;
    var l1 := m - 1 + splitPoint;
    group1, group2 := [], [];
    for cIndex := 0 to l1
      invariant group1 == data[..cIndex]
    {
      group1 := group1 + [data[cIndex]];
    }
    for cIndex := l1 to capacity + 1
      invariant group2 == data[l1..cIndex]
    {
      group2 := group2 + [data[cIndex]];
    }
    assert group1 + group2 == data;
  }

  /** The reinsertion factor's part, rounded down, of the entries of a node with one too many. */
  ghost predicate ReinsertShare(P: Params, capacity: nat, out: nat) {
    out == ((capacity + 1) as real * P.reinsertFactor).Floor
  }

  /** The least shares of the two halves of a node that held `capacity` entries: the split factor's part of
      all, and one less, for the R* variant; the fill factor's part of the capacity for the others. */
  ghost predicate SplitShares(P: Params, capacity: nat, a: nat, b: nat) {
    if P.variant == RStar then
      var m := ((capacity + 1) as real * P.splitFactor).Floor;
      a >= m && b >= m - 1
    else
      var m := (capacity as real * P.fillFactor).Floor;
      a >= m && b >= m
  }

  class Node {
    const P: Params
    var level: nat
    var identifier: Id
    var entries: seq<Entry>
    var mbr: Region

    constructor (P: Params, level: nat, identifier: Id)
      ensures this.P == P && this.level == level && this.identifier == identifier
      ensures Rec() == Packed(level, [], P.dim)
    {
      this.P, this.level, this.identifier := P, level, identifier;
      this.entries, this.mbr := [], Infinite(P.dim);
    }

    constructor Load(P: Params, identifier: Id, page: Page)
      ensures this.P == P && this.identifier == identifier && Rec() == page
    {
      this.P, this.identifier := P, identifier;
      this.level, this.entries, this.mbr := page.level, page.entries, page.mbr;
    }

    /** What this node looks like when it is written to its page. */
    ghost function Rec(): Page
      reads `level, `mbr, `entries
    {
      Page(level, mbr, entries)
    }

    method InsertEntry(e: Entry)
      requires |entries| < P.Capacity(level)
      requires IsBox(mbr, P.dim) && IsBox(e.mbr, P.dim)
      modifies this`entries, this`mbr
      ensures Rec() == old(Extended(Rec(), e))
    {
      entries := entries + [e];
      mbr := Combine(mbr, e.mbr);
    }

    /** The nested loops that recompute the node's box from its entries. */
    method Recompute()
      requires IsBox(mbr, P.dim) && Boxes(entries, P.dim)
      modifies this`mbr
      ensures mbr == Cover(entries, P.dim)
    {
      for cDim := 0 to P.dim
        invariant IsBox(mbr, P.dim)
        invariant forall d :: 0 <= d < cDim ==>
          mbr.low[d] == Cover(entries, P.dim).low[d] && mbr.high[d] == Cover(entries, P.dim).high[d]
      {
        mbr := Region(mbr.low[cDim := MAX_DOUBLE], mbr.high[cDim := -MAX_DOUBLE]);
        ghost var done := mbr;
        for cChild := 0 to |entries|
          invariant IsBox(mbr, P.dim) && Boxes(entries[..cChild], P.dim)
          invariant mbr.low[cDim] == Cover(entries[..cChild], P.dim).low[cDim]
          invariant mbr.high[cDim] == Cover(entries[..cChild], P.dim).high[cDim]
          invariant forall d :: 0 <= d < P.dim && d != cDim ==> mbr.low[d] == done.low[d] && mbr.high[d] == done.high[d]
        {
          CoverPrefix(entries, cChild, P.dim, cDim);
          mbr := Region(mbr.low[cDim := Min(mbr.low[cDim], entries[cChild].mbr.low[cDim])],
                        mbr.high[cDim := Max(mbr.high[cDim], entries[cChild].mbr.high[cDim])]);
        }
        assert entries[..|entries|] == entries;
      }
      assert mbr.low == Cover(entries, P.dim).low && mbr.high == Cover(entries, P.dim).high;
    }

    /** Removes the entry at `index`; the last entry takes its place. */
    method DeleteEntry(index: nat)
      requires index < |entries|
      requires IsBox(mbr, P.dim) && Boxes(entries, P.dim)
      modifies this`entries, this`mbr
      ensures Rec() == old(Shrunk(P, Rec(), index))
      ensures |entries| == old(|entries|) - 1
      ensures forall i :: 0 <= i < |entries| ==> entries[i] == if i == index then old(entries)[|entries|] else old(entries)[i]
    {
      var gone := entries[index];
      WithoutBoxes(entries, index, P.dim);
      entries := Without(entries, index);
      TouchesAlways(mbr, gone.mbr);
      if |entries| == 0 {
        mbr := Infinite(P.dim);
      } else if P.tight && Touches(mbr, gone.mbr) {
        Recompute();
      }
    }

    /** Divides the entries of an overflowing R* node and the new one: some are given back for
        reinsertion, the rest is kept. */
    method ReinsertData(e: Entry) returns (reinsert: seq<nat>, keep: seq<nat>)
      requires P.variant == RStar && P.Sane()
      requires |entries| == P.Capacity(level)
      ensures Partition(reinsert, keep, |entries| + 1)
      ensures |reinsert| >= 1 && 2 <= |keep| <= P.Capacity(level)
      ensures ReinsertShare(P, |entries|, |reinsert|)
    {
      var capacity := P.Capacity(level);
      var v := Arrange(capacity + 1);
      var cReinsert := P.ReinsertCount(capacity);
      reinsert, keep := [], [];
      for cCount := 0 to cReinsert
        invariant reinsert == v[..cCount]
      {
        reinsert := reinsert + [v[cCount]];
      }
      for cCount := cReinsert to capacity + 1
        invariant keep == v[cReinsert..cCount]
      {
        keep := keep + [v[cCount]];
      }
      assert reinsert + keep == v;
    }

    /** The node gives back the entries chosen for reinsertion, keeps the others, and recomputes its
        box. */
    method TakeOut(e: Entry) returns (out: seq<Entry>)
      requires P.variant == RStar && P.Sane() && |entries| == P.Capacity(level)
      requires IsBox(mbr, P.dim) && Boxes(entries, P.dim) && IsBox(e.mbr, P.dim)
      modifies this`entries, this`mbr
      ensures Divided(old(Rec()), e, entries, out)
      ensures |out| >= 1 && 2 <= |entries| <= P.Capacity(level)
      ensures ReinsertShare(P, old(|entries|), |out|)
      ensures Boxes(entries, P.dim) && Rec() == Packed(level, entries, P.dim)
    {
      hide ReinsertShare, Params.Sane;
      var vReinsert, vKeep := ReinsertData(e);
      var all := entries + [e];
      SelectPartition(all, vReinsert, vKeep);
      SelectBoxes(all, vKeep, P.dim);
      out := Select(all, vReinsert);
      entries := Select(all, vKeep);
      Recompute();
    }

    /** Divides the full node and the new entry over two new nodes of the same level. */
    method Split(e: Entry) returns (left: Node, right: Node)
      requires P.Sane() && |entries| == P.Capacity(level)
      requires Boxes(entries, P.dim) && IsBox(e.mbr, P.dim)
      ensures fresh(left) && fresh(right) && left != right
      ensures left.P == P && right.P == P
      ensures left.identifier == -1 && right.identifier == -1
      ensures Boxes(left.entries, P.dim) && left.Rec() == Packed(level, left.entries, P.dim)
      ensures Boxes(right.entries, P.dim) && right.Rec() == Packed(level, right.entries, P.dim)
      ensures Divided(Rec(), e, left.entries, right.entries)
      ensures 2 <= |left.entries| <= P.Capacity(level) && 2 <= |right.entries| <= P.Capacity(level)
      ensures SplitShares(P, |entries|, |left.entries|, |right.entries|)
    {
      hide Cover;
      var g1, g2 := ChooseGroups();
      var all := entries + [e];
      CoverNone(P.dim);
      MoreBoxes(entries, e, P.dim);
      SelectPartition(all, g1, g2);
      SelectBoxes(all, g1, P.dim);
      SelectBoxes(all, g2, P.dim);
      left := new Node(P, level, -1);
      left.Fill(all, g1);
      right := new Node(P, level, -1);
      right.Fill(all, g2);
    }

    /** The split that the variant of the tree prescribes. */
    method ChooseGroups() returns (g1: seq<nat>, g2: seq<nat>)
      requires P.Sane()
      ensures Partition(g1, g2, P.Capacity(level) + 1)
      ensures 2 <= |g1| <= P.Capacity(level) && 2 <= |g2| <= P.Capacity(level)
      ensures SplitShares(P, P.Capacity(level), |g1|, |g2|)
    {
      var capacity := P.Capacity(level);
      if P.variant == RStar {
        g1, g2 := RstarSplit(capacity, P.SplitLoad(capacity));
      } else {
        LoadAtMostHalf(capacity, P.fillFactor);
        g1, g2 := RtreeSplit(capacity, P.MinimumLoad(capacity));
      }
    }

    /** Inserts the selected entries one by one into an empty node. */
    method Fill(all: seq<Entry>, g: seq<nat>)
      requires Boxes(all, P.dim) && forall i :: 0 <= i < |g| ==> g[i] < |all|
      requires |g| <= P.Capacity(level)
      requires entries == [] && mbr == Infinite(P.dim)
      modifies this`entries, this`mbr
      ensures entries == Select(all, g) && Boxes(entries, P.dim) && mbr == Cover(entries, P.dim)
    {
      for cIndex := 0 to |g|
        invariant entries == Select(all, g[..cIndex])
        invariant Boxes(entries, P.dim) && mbr == Cover(entries, P.dim)
      {
        CoverNext(entries, all[g[cIndex]], P.dim);
        InsertEntry(all[g[cIndex]]);
      }
      assert g[..|g|] == g;
    }
  }

  lemma LoadAtMostHalf(capacity: nat, fill: real)
    requires fill <= 0.5
    ensures 2 * (capacity as real * fill).Floor <= capacity
  {
    assert capacity as real * fill <= capacity as real * 0.5 by {
      assert capacity as real * (0.5 - fill) >= 0.0;
    }
  }
}
