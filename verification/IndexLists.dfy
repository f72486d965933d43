/** Lists of entry positions, as the splits build them: when two lists together name every position
    of a node once, the two halves hold exactly the node's entries. */
module IndexLists {
  import opened Lists
  import opened Pages

  /** `s` lists positions below `n`, none of them twice. */
  ghost predicate Positions(s: seq<nat>, n: nat) {
    NoDuplicates(s) && forall i :: 0 <= i < |s| ==> s[i] < n
  }

  /** `g1` and `g2` together list every position below `n` exactly once. */
  ghost predicate Partition(g1: seq<nat>, g2: seq<nat>, n: nat) {
    Positions(g1 + g2, n) && |g1| + |g2| == n
  }

  function Select<T>(es: seq<T>, g: seq<nat>): (r: seq<T>)
    requires forall i :: 0 <= i < |g| ==> g[i] < |es|
    ensures |r| == |g| && forall i :: 0 <= i < |g| ==> r[i] == es[g[i]]
  {
    seq(|g|, i requires 0 <= i < |g| => es[g[i]])
  }

  ghost function Below(n: nat): (r: set<nat>)
    ensures |r| == n && forall x: nat :: x in r <==> x < n
  {
    if n == 0 then {} else Below(n - 1) + {n - 1}
  }

  lemma {:induction false} ElementCount(s: seq<nat>) returns (elements: set<nat>)
    requires NoDuplicates(s)
    ensures |elements| == |s| && forall x :: x in elements <==> x in s
  {
    elements := {};
    if s != [] {
      var most, last := s[..|s|-1], s[|s|-1];
      elements := ElementCount(most);
      assert s == most + [last];
      elements := elements + {last};
    }
  }

  lemma {:induction false} SmallerSet(a: set<nat>, b: set<nat>)
    requires a <= b
    ensures |a| <= |b| && (|a| == |b| ==> a == b)
  {
    assert b == a + (b - a);
  }

  /** Pigeonhole: different positions below `n` number at most `n`, and `n` of them leave none out. */
  lemma Pigeonhole(s: seq<nat>, n: nat)
    requires Positions(s, n)
    ensures |s| <= n
    ensures |s| == n ==> forall x: nat :: x < n ==> x in s
  {
    var elements := ElementCount(s);
    SmallerSet(elements, Below(n));
  }

  lemma RemovePosition(g: seq<nat>, n: nat, k: nat)
    requires Positions(g, n) && k < |g| && g[k] == n - 1
    ensures Positions(g[..k] + g[k+1..], n - 1)
  {
    var rest := g[..k] + g[k+1..];
    forall i | 0 <= i < |rest| ensures rest[i] < n - 1 {
      var j := if i < k then i else i + 1;
      assert rest[i] == g[j] && g[j] != g[k];
    }
    forall i, j | 0 <= i < j < |rest| ensures rest[i] != rest[j] {
      assert rest[i] == g[if i < k then i else i + 1] && rest[j] == g[if j < k then j else j + 1];
    }
  }

  lemma {:induction false} SelectAll<T>(es: seq<T>, g: seq<nat>)
    requires Positions(g, |es|) && |g| == |es|
    ensures multiset(Select(es, g)) == multiset(es)
  {
    var n := |es|;
    if n > 0 {
      Pigeonhole(g, n);
      assert n - 1 in g;
      var k :| 0 <= k < n && g[k] == n - 1;
      RemovePosition(g, n, k);
      SelectAll(es[..n-1], g[..k] + g[k+1..]);
      SelectStep(es, g, k);
      assert es == es[..n-1] + [es[n-1]];
    } else {
      assert Select(es, g) == es;
    }
  }

  lemma SelectStep<T>(es: seq<T>, g: seq<nat>, k: nat)
    requires Positions(g, |es|) && k < |g| == |es| && g[k] == |es| - 1
    requires Positions(g[..k] + g[k+1..], |es| - 1)
    ensures multiset(Select(es, g)) == multiset(Select(es[..|es|-1], g[..k] + g[k+1..])) + multiset{es[|es|-1]}
  {
    var sel, most := Select(es, g), es[..|es|-1];
    assert sel == sel[..k] + [sel[k]] + sel[k+1..];
    var rest := g[..k] + g[k+1..];
    assert forall i :: 0 <= i < |rest| ==> rest[i] == g[if i < k then i else i + 1];
    assert sel[..k] + sel[k+1..] == Select(most, rest);
  }

  lemma SelectPartition<T>(es: seq<T>, g1: seq<nat>, g2: seq<nat>)
    requires Partition(g1, g2, |es|)
    ensures forall i :: 0 <= i < |g1| ==> g1[i] < |es|
    ensures forall i :: 0 <= i < |g2| ==> g2[i] < |es|
    ensures multiset(Select(es, g1)) + multiset(Select(es, g2)) == multiset(es)
  {
    assert forall i :: 0 <= i < |g1| ==> g1[i] == (g1 + g2)[i];
    assert forall i :: 0 <= i < |g2| ==> g2[i] == (g1 + g2)[|g1| + i];
    SelectAll(es, g1 + g2);
    assert Select(es, g1 + g2) == Select(es, g1) + Select(es, g2);
  }

  // ---------------------------------------------------------------- entry lists

  /** An entry list without position `i`, whose place the last entry takes. */
  function Without<T>(es: seq<T>, i: nat): (r: seq<T>)
    requires i < |es|
    ensures |r| == |es| - 1
    ensures multiset(r) + multiset{es[i]} == multiset(es)
  {
    var r := if i == |es| - 1 then es[..i] else es[..|es|-1][i := es[|es|-1]];
    assert multiset(r) + multiset{es[i]} == multiset(es) by {
      assert es == es[..|es|-1] + [es[|es|-1]];
      if i < |es| - 1 {
        var most := es[..|es|-1];
        assert most == most[..i] + [es[i]] + most[i+1..];
        assert r == most[..i] + [es[|es|-1]] + most[i+1..];
      }
    }
    r
  }

  lemma WithoutAt<T>(es: seq<T>, i: nat, j: nat)
    requires i < |es| && j < |es| - 1
    ensures Without(es, i)[j] == if j == i then es[|es|-1] else es[j]
  {
  }

  lemma CoverNext(es: seq<Entry>, e: Entry, dim: nat)
    requires forall i :: 0 <= i < |es| ==> Geometry.IsBox(es[i].mbr, dim)
    requires Geometry.IsBox(e.mbr, dim)
    ensures Cover(es + [e], dim) == Geometry.Combine(Cover(es, dim), e.mbr)
  {
    assert (es + [e])[..|es|] == es;
  }

  lemma IdsOfMultiset(a: seq<Entry>, b: seq<Entry>)
    requires multiset(a) <= multiset(b)
    ensures Ids(a) <= Ids(b)
  {
    forall i | 0 <= i < |a| ensures a[i].id in Ids(b) {
      assert a[i] in multiset(a);
      assert a[i] in b;
    }
  }

  /** Rearranging entries among two lists keeps their ids distinct, within and across the lists. */
  lemma DistinctSplit(es: seq<Entry>, a: seq<Entry>, b: seq<Entry>)
    requires DistinctIds(es) && multiset(a) + multiset(b) == multiset(es)
    ensures DistinctIds(a) && DistinctIds(b)
    ensures Ids(a) !! Ids(b) && Ids(a) + Ids(b) == Ids(es)
  {
    var ab := a + b;
    assert multiset(ab) == multiset(es);
    IdsOfMultiset(ab, es);
    IdsOfMultiset(es, ab);
    DistinctPermutation(es, ab);
    assert forall i :: 0 <= i < |a| ==> ab[i] == a[i];
    assert forall i :: 0 <= i < |b| ==> ab[|a| + i] == b[i];
    assert Ids(a) + Ids(b) == Ids(ab) by {
      forall k | k in Ids(ab) ensures k in Ids(a) + Ids(b) {
        var i :| 0 <= i < |ab| && ab[i].id == k;
        assert if i < |a| then a[i].id == k else b[i - |a|].id == k;
      }
    }
  }

  lemma DistinctPermutation(es: seq<Entry>, ab: seq<Entry>)
    requires DistinctIds(es) && multiset(ab) == multiset(es)
    ensures DistinctIds(ab)
  {
    forall i, j | 0 <= i < j < |ab| ensures ab[i].id != ab[j].id {
      if ab[i].id == ab[j].id {
        assert ab[i] in multiset(ab) && ab[j] in multiset(ab);
        var k :| 0 <= k < |es| && es[k] == ab[i];
        var l :| 0 <= l < |es| && es[l] == ab[j];
        assert k == l;
        TwiceIn(ab, i, j);
        OnceIn(es, k);
        assert false;
      }
    }
  }

  lemma OnceIn(es: seq<Entry>, k: nat)
    requires DistinctIds(es) && k < |es|
    ensures multiset(es)[es[k]] == 1
  {
    assert es == es[..k] + [es[k]] + es[k+1..];
    assert es[k] !in es[..k] && es[k] !in es[k+1..];
  }
}
