/** The borrow rule of the multiversion tree: a leaf left with too few live entries may take one over
    from a sibling, if the sibling keeps enough live entries at every instant at which the entry lives.
    The program decides this with counters over the intervals between sorted endpoints. */
module VersionBorrowing {
  import opened Geometry
  import opened Pages
  import opened IndexLists

  // ---------------------------------------------------------------- lifetimes

  /** An entry with the half-open period in which it lives. */
  datatype TimedEntry = TimedEntry(mbr: Region, id: Id, data: seq<bv8>, start: real, end: real)
  {
    predicate Alive() {
      !(end < MAX_DOUBLE)
    }

    ghost predicate LivesAt(t: real) {
      start <= t < end
    }
  }

  /** How many entries live at time `t`. */
  ghost function LiveAt(es: seq<TimedEntry>, t: real): nat {
    if es == [] then 0 else LiveAt(es[..|es|-1], t) + (if es[|es|-1].LivesAt(t) then 1 else 0)
  }

  /** How many entries live through the whole of [`lo`, `hi`). */
  ghost function Span(es: seq<TimedEntry>, lo: real, hi: real): nat {
    if es == [] then 0 else Span(es[..|es|-1], lo, hi) + (if es[|es|-1].start <= lo && es[|es|-1].end >= hi then 1 else 0)
  }

  ghost function AliveCount(es: seq<TimedEntry>): nat {
    if es == [] then 0 else AliveCount(es[..|es|-1]) + (if es[|es|-1].end >= MAX_DOUBLE then 1 else 0)
  }

  ghost predicate StrictlyAscending(s: seq<real>) {
    forall i, j :: 0 <= i < j < |s| ==> s[i] < s[j]
  }

  /** `s` are the starts and ends of the entries, sorted, each once. */
  ghost predicate EndpointsOf(s: seq<real>, es: seq<TimedEntry>) {
    && StrictlyAscending(s)
    && (forall i :: 0 <= i < |es| ==> es[i].start in s && es[i].end in s)
    && (forall x :: x in s ==> PointOf(es, |es|, x))
  }

  /** Inserts into a sorted set. */
  method InsertPoint(s: seq<real>, x: real) returns (r: seq<real>)
    requires StrictlyAscending(s)
    ensures StrictlyAscending(r) && (forall y :: y in r <==> y in s || y == x)
  {
    var k := 0;
    while k < |s| && s[k] < x
      invariant k <= |s| && forall i :: 0 <= i < k ==> s[i] < x
    {
      k := k + 1;
    }
    if k < |s| && s[k] == x {
      r := s;
    } else {
      r := s[..k] + [x] + s[k..];
      PointInserted(s, k, x);
    }
  }

  lemma PointInserted(s: seq<real>, k: nat, x: real)
    requires StrictlyAscending(s) && k <= |s| && (k > 0 ==> s[k-1] < x) && (k < |s| ==> x < s[k])
    ensures StrictlyAscending(s[..k] + [x] + s[k..])
    ensures forall y :: y in s[..k] + [x] + s[k..] <==> y in s || y == x
  {
    PointMembers(s, k, x);
    var r := s[..k] + [x] + s[k..];
    forall i, j | 0 <= i < j < |r| ensures r[i] < r[j] {
      if i < k {
        assert r[i] == s[i] && s[i] <= s[k-1];
      } else if j > k {
        assert r[j] == s[j-1] && s[k] <= s[j-1];
      }
    }
  }

  lemma PointMembers(s: seq<real>, k: nat, x: real)
    requires k <= |s|
    ensures forall y :: y in s[..k] + [x] + s[k..] <==> y in s || y == x
  {
    assert s == s[..k] + s[k..];
  }

  method Endpoints(es: seq<TimedEntry>) returns (s: seq<real>)
    ensures EndpointsOf(s, es) && (es != [] ==> s != [])
  {
    s := [];
    for cSiblingChild := 0 to |es|
      invariant StrictlyAscending(s) && PointsUpTo(es, cSiblingChild, s)
    {
      ghost var before := s;
      s := InsertPoint(s, es[cSiblingChild].start);
      s := InsertPoint(s, es[cSiblingChild].end);
      MorePoints(es, cSiblingChild, before, s);
    }
    if es != [] {
      assert es[0].start in s;
    }
    assert forall x :: x in s ==> PointOf(es, |es|, x);
  }

  ghost predicate PointOf(es: seq<TimedEntry>, k: nat, x: real)
    requires k <= |es|
  {
    exists i :: 0 <= i < k && (es[i].start == x || es[i].end == x)
  }

  /** `s` are the starts and ends of the first `k` entries. */
  ghost predicate PointsUpTo(es: seq<TimedEntry>, k: nat, s: seq<real>)
    requires k <= |es|
  {
    && (forall i :: 0 <= i < k ==> es[i].start in s && es[i].end in s)
    && (forall x :: x in s ==> PointOf(es, k, x))
  }

  lemma MorePoints(es: seq<TimedEntry>, k: nat, before: seq<real>, s: seq<real>)
    requires k < |es| && PointsUpTo(es, k, before)
    requires forall y :: y in s <==> y in before || y == es[k].start || y == es[k].end
    ensures PointsUpTo(es, k + 1, s)
  {
    forall x | x in s ensures PointOf(es, k + 1, x) {
      if x in before {
        var i :| 0 <= i < k && (es[i].start == x || es[i].end == x);
        assert 0 <= i < k + 1;
      } else {
        assert es[k].start == x || es[k].end == x;
      }
    }
  }

  /** The interval counters: for each interval between neighbouring endpoints, how many entries live
      through it. */
  method CountIntervals(es: seq<TimedEntry>, s: seq<real>) returns (counts: array<nat>)
    requires s != []
    ensures fresh(counts) && counts.Length == |s| - 1
    ensures forall c :: 0 <= c < |s| - 1 ==> counts[c] == Span(es, s[c], s[c+1])
  {
    hide Span;
    counts := new nat[|s| - 1](_ => 0);
    SpanNone(s);
    for cSiblingChild := 0 to |es|
      invariant forall c :: 0 <= c < |s| - 1 ==> counts[c] == Span(es[..cSiblingChild], s[c], s[c+1])
    {
      var e := es[cSiblingChild];
      for cIndex := 0 to |s| - 1
        invariant forall c :: 0 <= c < cIndex ==> counts[c] == Span(es[..cSiblingChild+1], s[c], s[c+1])
        invariant forall c :: cIndex <= c < |s| - 1 ==> counts[c] == Span(es[..cSiblingChild], s[c], s[c+1])
      {
        SpanMore(es, cSiblingChild, s[cIndex], s[cIndex+1]);
        if e.start <= s[cIndex] && e.end >= s[cIndex+1] {
          counts[cIndex] := counts[cIndex] + 1;
        }
      }
    }
    assert es[..|es|] == es;
  }

  lemma SpanNone(s: seq<real>)
    ensures forall c :: 0 <= c < |s| - 1 ==> Span([], s[c], s[c+1]) == 0
  {
  }

  lemma SpanMore(es: seq<TimedEntry>, k: nat, lo: real, hi: real)
    requires k < |es|
    ensures Span(es[..k+1], lo, hi) == Span(es[..k], lo, hi) + if es[k].start <= lo && es[k].end >= hi then 1 else 0
  {
    assert es[..k+1][..k] == es[..k];
  }

  /** No endpoint lies inside an interval, so an entry that lives at one of its instants lives through it. */
  lemma LivesThrough(s: seq<real>, e: TimedEntry, c: nat, t: real)
    requires StrictlyAscending(s) && e.start in s && e.end in s && c + 1 < |s| && s[c] <= t < s[c+1]
    ensures e.LivesAt(t) <==> e.start <= s[c] && e.end >= s[c+1]
  {
    var i :| 0 <= i < |s| && s[i] == e.start;
    var j :| 0 <= j < |s| && s[j] == e.end;
    assert i <= c || s[c+1] <= s[i];
    assert j >= c + 1 || s[j] <= s[c];
  }

  /** The counters are the number of live entries at every instant of their interval. */
  lemma {:induction false} CountersExact(s: seq<real>, es: seq<TimedEntry>, c: nat, t: real)
    requires StrictlyAscending(s) && forall i :: 0 <= i < |es| ==> es[i].start in s && es[i].end in s
    requires c + 1 < |s| && s[c] <= t < s[c+1]
    ensures LiveAt(es, t) == Span(es, s[c], s[c+1])
  {
    if es != [] {
      CountersExact(s, es[..|es|-1], c, t);
      LivesThrough(s, es[|es|-1], c, t);
    }
  }

  /** Every instant between two endpoints lies in one of the intervals. */
  lemma {:induction false} IntervalOf(s: seq<real>, a: nat, b: nat, t: real) returns (c: nat)
    requires StrictlyAscending(s) && a < b < |s| && s[a] <= t < s[b]
    ensures a <= c < b && s[c] <= t < s[c+1]
    decreases b - a
  {
    if b == a + 1 || t < s[a+1] {
      c := a;
    } else {
      c := IntervalOf(s, a + 1, b, t);
    }
  }

  // ---------------------------------------------------------------- the weak version condition

  /** More than `limit` entries live at every instant at which entry `k` lives. */
  ghost predicate Dispensable(es: seq<TimedEntry>, k: nat, limit: real)
    requires k < |es|
  {
    forall t :: es[k].LivesAt(t) ==> LiveAt(es, t) as real > limit
  }

  /** Counters above the limit throughout a life. */
  lemma CountersEnough(es: seq<TimedEntry>, k: nat, s: seq<real>, limit: real, t: real)
    requires k < |es| && EndpointsOf(s, es) && es[k].LivesAt(t)
    requires forall c :: 0 <= c < |s| - 1 && es[k].start <= s[c] && es[k].end >= s[c+1] ==> Span(es, s[c], s[c+1]) as real > limit
    ensures LiveAt(es, t) as real > limit
  {
    var e := es[k];
    var a :| 0 <= a < |s| && s[a] == e.start;
    var b :| 0 <= b < |s| && s[b] == e.end;
    assert a < b by {
      assert s[a] < s[b];
    }
    var c := IntervalOf(s, a, b, t);
    CountersExact(s, es, c, t);
    LivesThrough(s, e, c, t);
  }

  /** A counter at the limit within a life. */
  lemma CounterLow(es: seq<TimedEntry>, k: nat, s: seq<real>, limit: real, c: nat)
    requires k < |es| && EndpointsOf(s, es) && c + 1 < |s|
    requires es[k].start <= s[c] && es[k].end >= s[c+1] && Span(es, s[c], s[c+1]) as real <= limit
    ensures !Dispensable(es, k, limit)
  {
    CountersExact(s, es, c, s[c]);
    assert es[k].LivesAt(s[c]);
  }

  /** The check of one candidate looks at finitely many counters and decides about every instant. */
  method CheckCandidate(es: seq<TimedEntry>, k: nat, s: seq<real>, counts: array<nat>, limit: real) returns (good: bool)
    requires k < |es| && EndpointsOf(s, es) && counts.Length == |s| - 1
    requires forall c :: 0 <= c < |s| - 1 ==> counts[c] == Span(es, s[c], s[c+1])
    ensures good <==> Dispensable(es, k, limit)
  {
    hide LiveAt, Span, EndpointsOf;
    good := true;
    var e := es[k];
    for cIndex := 0 to |s| - 1
      invariant good
      invariant forall c :: 0 <= c < cIndex && e.start <= s[c] && e.end >= s[c+1] ==> counts[c] as real > limit
    {
      if e.start <= s[cIndex] && e.end >= s[cIndex+1] && counts[cIndex] as real <= limit {
        CounterLow(es, k, s, limit, cIndex);
        return false;
      }
    }
    forall t | e.LivesAt(t) ensures LiveAt(es, t) as real > limit {
      CountersEnough(es, k, s, limit, t);
    }
  }

  // ---------------------------------------------------------------- taking an entry away

  lemma {:induction false} LiveReplaced(es: seq<TimedEntry>, k: nat, e: TimedEntry, t: real)
    requires k < |es|
    ensures LiveAt(es[k := e], t) + (if es[k].LivesAt(t) then 1 else 0) == LiveAt(es, t) + (if e.LivesAt(t) then 1 else 0)
  {
    var most := es[..|es|-1];
    if k == |es| - 1 {
      assert es[k := e][..|es|-1] == most;
    } else {
      assert es[k := e][..|es|-1] == most[k := e];
      LiveReplaced(most, k, e, t);
    }
  }

  /** One entry less lives at the instants of the entry's life, and as many as before at all others. */
  lemma LiveRemoved(es: seq<TimedEntry>, k: nat, t: real)
    requires k < |es|
    ensures LiveAt(Without(es, k), t) + (if es[k].LivesAt(t) then 1 else 0) == LiveAt(es, t)
  {
    var most := es[..|es|-1];
    if k < |es| - 1 {
      LiveReplaced(most, k, es[|es|-1], t);
    }
  }

  // ---------------------------------------------------------------- choosing an entry

  /** The product of the first `n` side lengths. */
  function Extent(r: Region, n: nat): real
    requires n <= |r.low| && n <= |r.high|
  {
    if n == 0 then 1.0 else Extent(r, n - 1) * (r.high[n-1] - r.low[n-1])
  }

  function Area(r: Region): real
    requires IsBox(r, |r.low|)
  {
    Extent(r, |r.low|)
  }

  /** A box whose sides all have length one has area one. */
  lemma AreaUnit(r: Region)
    requires IsBox(r, |r.low|) && forall d :: 0 <= d < |r.low| ==> r.high[d] - r.low[d] == 1.0
    ensures Area(r) == 1.0
  {
    ExtentUnit(r, |r.low|);
  }

  lemma {:induction false} ExtentUnit(r: Region, n: nat)
    requires n <= |r.low| == |r.high| && forall d :: 0 <= d < n ==> r.high[d] - r.low[d] == 1.0
    ensures Extent(r, n) == 1.0
  {
    if n > 0 {
      ExtentUnit(r, n - 1);
    }
  }

  /** The box with side `d` moved to reach from `lo` to `hi`. */
  ghost function Resized(r: Region, d: nat, lo: real, hi: real): Region
    requires d < |r.low| == |r.high|
  {
    Region(r.low[d := lo], r.high[d := hi])
  }

  /** The area is the length of any side times the area of the box in which that side has length one. */
  lemma AreaSide(r: Region, d: nat)
    requires IsBox(r, |r.low|) && d < |r.low|
    ensures Area(r) == (r.high[d] - r.low[d]) * Area(Resized(r, d, 0.0, 1.0))
  {
    ExtentSide(r, d, |r.low|);
  }

  lemma {:induction false} ExtentSide(r: Region, d: nat, n: nat)
    requires IsBox(r, |r.low|) && d < |r.low| && n <= |r.low|
    ensures Extent(r, n) == if n <= d then Extent(Resized(r, d, 0.0, 1.0), n) else (r.high[d] - r.low[d]) * Extent(Resized(r, d, 0.0, 1.0), n)
  {
    var u := Resized(r, d, 0.0, 1.0);
    ExtentStep(r, n);
    ExtentStep(u, n);
    hide Extent;
    if n > 0 {
      ExtentSide(r, d, n - 1);
      if n - 1 == d {
        OneSide(Extent(u, d), r.high[d] - r.low[d]);
      } else if n - 1 > d {
        assert u.low[n-1] == r.low[n-1] && u.high[n-1] == r.high[n-1];
        SideAfter(r.high[d] - r.low[d], Extent(u, n - 1), r.high[n-1] - r.low[n-1]);
      }
    }
  }

  lemma ExtentStep(r: Region, n: nat)
    requires n <= |r.low| == |r.high|
    ensures Extent(r, n) == if n == 0 then 1.0 else Extent(r, n - 1) * (r.high[n-1] - r.low[n-1])
  {
  }

  lemma OneSide(e: real, x: real)
    ensures e * x == x * (e * 1.0) && 1.0 - 0.0 == 1.0
  {
  }

  lemma SideAfter(x: real, e: real, y: real)
    ensures (x * e) * y == x * (e * y)
  {
  }

  /** Cutting a box in two across any dimension divides its area. */
  lemma AreaCut(r: Region, d: nat, c: real)
    requires IsBox(r, |r.low|) && d < |r.low|
    ensures Area(r) == Area(Resized(r, d, r.low[d], c)) + Area(Resized(r, d, c, r.high[d]))
  {
    var a, b := Resized(r, d, r.low[d], c), Resized(r, d, c, r.high[d]);
    AreaSide(r, d);
    AreaSide(a, d);
    AreaSide(b, d);
    var u := Resized(r, d, 0.0, 1.0);
    assert Resized(a, d, 0.0, 1.0) == u && Resized(b, d, 0.0, 1.0) == u;
    hide Area;
    assert (r.high[d] - r.low[d]) * Area(u) == (c - r.low[d]) * Area(u) + (r.high[d] - c) * Area(u);
  }

  /** The area of the box `mbr` after taking in an entry. */
  function Enlarged(mbr: Region, e: TimedEntry): real
    requires IsBox(mbr, |mbr.low|) && IsBox(e.mbr, |mbr.low|)
  {
    Area(Combine(mbr, e.mbr))
  }

  ghost predicate BoxesOf(es: seq<TimedEntry>, dim: nat) {
    forall i :: 0 <= i < |es| ==> IsBox(es[i].mbr, dim)
  }

  /** Entry `k` may move into the node with box `mbr`, which is reachable since `since`: it is alive, not
      older than that, and enlarges the box by a tenth at most. */
  ghost predicate Candidate(es: seq<TimedEntry>, k: nat, mbr: Region, since: real)
    requires k < |es| && IsBox(mbr, |mbr.low|) && BoxesOf(es, |mbr.low|)
  {
    es[k].end >= MAX_DOUBLE && es[k].start >= since && Area(Combine(mbr, es[k].mbr)) <= Area(mbr) * 1.1
  }

  /** The sibling has one parent, in which it starts at `from`, and is not exactly one entry above the limit. */
  ghost predicate SiblingFits(es: seq<TimedEntry>, from: real, limit: real) {
    (forall i :: 0 <= i < |es| ==> es[i].start >= from) && AliveCount(es) as real != limit + 1.0
  }

  ghost predicate Lendable(es: seq<TimedEntry>, k: nat, mbr: Region, since: real, limit: real)
    requires IsBox(mbr, |mbr.low|) && BoxesOf(es, |mbr.low|)
  {
    k < |es| && Candidate(es, k, mbr, since) && Dispensable(es, k, limit)
  }

  /** Entry `k` can be lent, and no other that can be enlarges the box less. */
  ghost predicate LeastLendable(es: seq<TimedEntry>, k: nat, mbr: Region, since: real, limit: real)
    requires IsBox(mbr, |mbr.low|) && BoxesOf(es, |mbr.low|)
  {
    && Lendable(es, k, mbr, since, limit)
    && forall l: nat :: Lendable(es, l, mbr, since, limit) ==> Area(Combine(mbr, es[k].mbr)) <= Area(Combine(mbr, es[l].mbr))
  }

  method ScanSibling(es: seq<TimedEntry>, from: real, mbr: Region, since: real)
    returns (bSingleParent: bool, alive: nat, toCheck: seq<nat>)
    requires IsBox(mbr, |mbr.low|) && BoxesOf(es, |mbr.low|)
    ensures bSingleParent <==> forall i :: 0 <= i < |es| ==> es[i].start >= from
    ensures bSingleParent ==> alive == AliveCount(es)
    ensures forall i :: 0 <= i < |toCheck| ==> toCheck[i] < |es|
    ensures bSingleParent ==> forall k :: 0 <= k < |es| ==> (k in toCheck <==> Candidate(es, k, mbr, since))
  {
    bSingleParent, alive, toCheck := true, 0, [];
    for cSiblingChild := 0 to |es|
      invariant bSingleParent && forall i :: 0 <= i < cSiblingChild ==> es[i].start >= from
      invariant alive == AliveCount(es[..cSiblingChild])
      invariant forall i :: 0 <= i < |toCheck| ==> toCheck[i] < cSiblingChild
      invariant forall k :: 0 <= k < cSiblingChild ==> (k in toCheck <==> Candidate(es, k, mbr, since))
    {
      if es[cSiblingChild].start < from {
        return false, alive, toCheck;
      }
      assert es[..cSiblingChild+1][..cSiblingChild] == es[..cSiblingChild];
      if es[cSiblingChild].Alive() {
        alive := alive + 1;
        if es[cSiblingChild].start >= since && Enlarged(mbr, es[cSiblingChild]) <= Area(mbr) * 1.1 {
          toCheck := toCheck + [cSiblingChild];
        }
      }
    }
    assert es[..|es|] == es;
  }

  /** The candidates that can be lent. */
  method Filter(es: seq<TimedEntry>, toCheck: seq<nat>, limit: real) returns (Sdel: seq<nat>)
    requires es != [] && forall i :: 0 <= i < |toCheck| ==> toCheck[i] < |es|
    ensures forall i :: 0 <= i < |Sdel| ==> Sdel[i] < |es| && Sdel[i] in toCheck && Dispensable(es, Sdel[i], limit)
    ensures forall i :: 0 <= i < |toCheck| && Dispensable(es, toCheck[i], limit) ==> toCheck[i] in Sdel
  {
    var Si := Endpoints(es);
    var SiCounts := CountIntervals(es, Si);
    Sdel := CheckAll(es, toCheck, Si, SiCounts, limit);
  }

  method CheckAll(es: seq<TimedEntry>, toCheck: seq<nat>, Si: seq<real>, SiCounts: array<nat>, limit: real) returns (Sdel: seq<nat>)
    requires EndpointsOf(Si, es) && SiCounts.Length == |Si| - 1 && forall i :: 0 <= i < |toCheck| ==> toCheck[i] < |es|
    requires forall c :: 0 <= c < |Si| - 1 ==> SiCounts[c] == Span(es, Si[c], Si[c+1])
    ensures forall i :: 0 <= i < |Sdel| ==> Sdel[i] < |es| && Sdel[i] in toCheck && Dispensable(es, Sdel[i], limit)
    ensures forall i :: 0 <= i < |toCheck| && Dispensable(es, toCheck[i], limit) ==> toCheck[i] in Sdel
  {
    hide Dispensable, EndpointsOf, Span;
    Sdel := [];
    for cCheck := 0 to |toCheck|
      invariant forall i :: 0 <= i < |Sdel| ==> Sdel[i] < |es| && Sdel[i] in toCheck && Dispensable(es, Sdel[i], limit)
      invariant forall i :: 0 <= i < cCheck && Dispensable(es, toCheck[i], limit) ==> toCheck[i] in Sdel
    {
      var good := CheckCandidate(es, toCheck[cCheck], Si, SiCounts, limit);
      if good {
        Sdel := Sdel + [toCheck[cCheck]];
      }
    }
  }

  /** The first entry after sorting by enlargement; any of those that enlarge the box least may be it. */
  method Best(es: seq<TimedEntry>, mbr: Region, Sdel: seq<nat>) returns (entry: nat)
    requires IsBox(mbr, |mbr.low|) && BoxesOf(es, |mbr.low|) && Sdel != [] && forall i :: 0 <= i < |Sdel| ==> Sdel[i] < |es|
    ensures entry in Sdel && entry < |es|
    ensures forall i :: 0 <= i < |Sdel| ==> Area(Combine(mbr, es[entry].mbr)) <= Area(Combine(mbr, es[Sdel[i]].mbr))
  {
    hide Area, Combine;
    entry := Sdel[0];
    for i := 1 to |Sdel|
      invariant entry in Sdel && entry < |es|
      invariant forall c :: 0 <= c < i ==> Area(Combine(mbr, es[entry].mbr)) <= Area(Combine(mbr, es[Sdel[c]].mbr))
    {
      var tie := *;
      if Enlarged(mbr, es[Sdel[i]]) < Enlarged(mbr, es[entry]) || (tie && Enlarged(mbr, es[Sdel[i]]) == Enlarged(mbr, es[entry])) {
        entry := Sdel[i];
      }
    }
  }

  /** The search in one sibling: an entry that can be lent, with the least enlargement. */
  method ChooseEntry(es: seq<TimedEntry>, from: real, mbr: Region, since: real, limit: real) returns (found: bool, entry: nat)
    requires IsBox(mbr, |mbr.low|) && BoxesOf(es, |mbr.low|)
    ensures found <==> SiblingFits(es, from, limit) && exists k: nat :: Lendable(es, k, mbr, since, limit)
    ensures found ==> LeastLendable(es, entry, mbr, since, limit)
  {
    hide Dispensable, Candidate, AliveCount, Area, Combine;
    found, entry := false, 0;
    var bSingleParent, alive, toCheck := ScanSibling(es, from, mbr, since);
    if !bSingleParent || toCheck == [] || alive as real == limit + 1.0 {
      return;
    }
    assert toCheck[0] < |es|;
    var Sdel := Filter(es, toCheck, limit);
    forall k: nat | Lendable(es, k, mbr, since, limit) ensures k in Sdel {
      var c :| 0 <= c < |toCheck| && toCheck[c] == k;
    }
    if Sdel == [] {
      return;
    }
    entry := Best(es, mbr, Sdel);
    found := true;
    assert Lendable(es, entry, mbr, since, limit);
  }

  // ---------------------------------------------------------------- moving it

  function Regions(es: seq<TimedEntry>): (r: seq<Entry>)
    ensures |r| == |es| && forall i :: 0 <= i < |es| ==> r[i].mbr == es[i].mbr
  {
    seq(|es|, i requires 0 <= i < |es| => Entry(es[i].mbr, es[i].id, es[i].data))
  }

  class LeafNode {
    const dim: nat
    const capacity: nat
    const tight: bool
    var identifier: Id
    var mbr: Region
    var entries: seq<TimedEntry>

    /** The box of the node contains all its entries. */
    ghost predicate Valid()
      reads `mbr, `entries
    {
      && IsBox(mbr, dim) && BoxesOf(entries, dim) && |entries| <= capacity
      && forall i :: 0 <= i < |entries| ==> Contains(mbr, entries[i].mbr)
    }

    method InsertEntry(e: TimedEntry)
      requires Valid() && IsBox(e.mbr, dim) && |entries| < capacity
      modifies `mbr, `entries
      ensures Valid() && entries == old(entries) + [e] && mbr == Combine(old(mbr), e.mbr)
    {
      ghost var was := mbr;
      entries := entries + [e];
      mbr := Combine(mbr, e.mbr);
      forall i | 0 <= i < |entries| ensures Contains(mbr, entries[i].mbr) {
        if i < |entries| - 1 {
          ContainsTransitive(mbr, was, entries[i].mbr);
        }
      }
    }

    method DeleteEntry(index: nat)
      requires Valid() && index < |entries|
      modifies `mbr, `entries
      ensures Valid() && entries == Without(old(entries), index)
    {
      var gone := entries[index].mbr;
      var rest := Without(entries, index);
      assert forall i :: 0 <= i < |rest| ==> rest[i] == entries[if i == index then |entries| - 1 else i];
      entries := rest;
      if |entries| == 0 {
        mbr := Infinite(dim);
      } else if tight && Touches(mbr, gone) {
        mbr := Cover(Regions(entries), dim);
      }
    }
  }

  /** Nodes `a` and `b` after entry `k` moved from `b`, which held `es`, to `a`, which held `held`. */
  ghost predicate Moved(held: seq<TimedEntry>, es: seq<TimedEntry>, k: nat, a: seq<TimedEntry>, b: seq<TimedEntry>) {
    k < |es| && a == held + [es[k]] && b == Without(es, k)
  }

  /** No instant loses or gains a live entry by a move, and the lender keeps the minimum at every instant of
      the life of the entry. */
  lemma MovedExact(held: seq<TimedEntry>, es: seq<TimedEntry>, k: nat, a: seq<TimedEntry>, b: seq<TimedEntry>, limit: real, t: real)
    requires Moved(held, es, k, a, b) && Dispensable(es, k, limit)
    ensures multiset(a) + multiset(b) == multiset(held) + multiset(es)
    ensures LiveAt(a, t) + LiveAt(b, t) == LiveAt(held, t) + LiveAt(es, t)
    ensures es[k].LivesAt(t) ==> LiveAt(b, t) >= limit.Floor
    ensures !es[k].LivesAt(t) ==> LiveAt(b, t) == LiveAt(es, t)
  {
    LiveRemoved(es, k, t);
    assert a[..|held|] == held;
    assert multiset(held + [es[k]]) == multiset(held) + multiset{es[k]};
  }

  /** Sibling `i` of the parent can lend an entry to the node `id` with box `mbr`. */
  ghost predicate Lends(parent: seq<TimedEntry>, held: seq<seq<TimedEntry>>, i: nat, id: Id, mbr: Region, since: real, limit: real)
    requires IsBox(mbr, |mbr.low|) && BoxesOf(parent, |mbr.low|) && |parent| == |held|
    requires forall j :: 0 <= j < |held| ==> BoxesOf(held[j], |mbr.low|)
  {
    && i < |parent| && parent[i].id != id && parent[i].end >= MAX_DOUBLE && Intersects(parent[i].mbr, mbr)
    && SiblingFits(held[i], parent[i].start, limit)
    && exists k: nat :: Lendable(held[i], k, mbr, since, limit)
  }

  /** Sibling `i` can lend, and none before it can. */
  ghost predicate FirstLender(parent: seq<TimedEntry>, held: seq<seq<TimedEntry>>, i: nat, id: Id, mbr: Region, since: real, limit: real)
    requires IsBox(mbr, |mbr.low|) && BoxesOf(parent, |mbr.low|) && |parent| == |held|
    requires forall j :: 0 <= j < |held| ==> BoxesOf(held[j], |mbr.low|)
  {
    && Lends(parent, held, i, id, mbr, since, limit)
    && forall j: nat :: j < i ==> !Lends(parent, held, j, id, mbr, since, limit)
  }

  lemma LeastLent(es: seq<TimedEntry>, k: nat, mbr: Region, since: real, limit: real)
    requires IsBox(mbr, |mbr.low|) && BoxesOf(es, |mbr.low|) && LeastLendable(es, k, mbr, since, limit)
    ensures Lendable(es, k, mbr, since, limit)
  {
  }

  /** The scan over the siblings: the first one that can lend, and its best entry. */
  method FindLender(parent: seq<TimedEntry>, held: seq<seq<TimedEntry>>, id: Id, mbr: Region, since: real, limit: real)
    returns (found: bool, from: nat, entry: nat)
    requires IsBox(mbr, |mbr.low|) && BoxesOf(parent, |mbr.low|) && |parent| == |held|
    requires forall j :: 0 <= j < |held| ==> BoxesOf(held[j], |mbr.low|)
    ensures found <==> exists i: nat :: Lends(parent, held, i, id, mbr, since, limit)
    ensures found ==> FirstLender(parent, held, from, id, mbr, since, limit) && LeastLendable(held[from], entry, mbr, since, limit)
  {
    hide Lendable, LeastLendable, SiblingFits, Intersects;
    found, from, entry := false, 0, 0;
    for cSibling := 0 to |parent|
      invariant !found && forall i: nat :: i < cSibling ==> !Lends(parent, held, i, id, mbr, since, limit)
    {
      if parent[cSibling].id != id && parent[cSibling].Alive() && Intersects(parent[cSibling].mbr, mbr) {
        found, entry := ChooseEntry(held[cSibling], parent[cSibling].start, mbr, since, limit);
        if found {
          from := cSibling;
          assert Lends(parent, held, from, id, mbr, since, limit) by {
            LeastLent(held[from], entry, mbr, since, limit);
          }
          return;
        }
      }
    }
  }

  /** Borrowing: the node takes the entry, the sibling gives it up. */
  method Borrow(leaf: LeafNode, sibling: LeafNode, entry: nat)
    requires leaf != sibling && leaf.dim == sibling.dim && leaf.Valid() && sibling.Valid()
    requires |leaf.entries| < leaf.capacity && entry < |sibling.entries|
    modifies leaf`mbr, leaf`entries, sibling`mbr, sibling`entries
    ensures leaf.Valid() && sibling.Valid()
    ensures Moved(old(leaf.entries), old(sibling.entries), entry, leaf.entries, sibling.entries)
    ensures leaf.mbr == Combine(old(leaf.mbr), old(sibling.entries[entry].mbr))
  {
    leaf.InsertEntry(sibling.entries[entry]);
    sibling.DeleteEntry(entry);
  }

  /** More than one entry lives with an entry that can be spared, so the sibling is not emptied. */
  lemma LenderKeepsOne(es: seq<TimedEntry>, k: nat, limit: real)
    requires k < |es| && Dispensable(es, k, limit) && es[k].start < es[k].end && limit >= 1.0
    ensures |es| > 1
  {
    LiveAtMost(es, es[k].start);
    assert es[k].LivesAt(es[k].start);
  }

  lemma {:induction false} LiveAtMost(es: seq<TimedEntry>, t: real)
    ensures LiveAt(es, t) <= |es|
  {
    if es != [] {
      LiveAtMost(es[..|es|-1], t);
    }
  }

  /** What the nodes hold. */
  function EntriesOf(nodes: seq<LeafNode>): (held: seq<seq<TimedEntry>>)
    reads set i | 0 <= i < |nodes| :: nodes[i]
    ensures |held| == |nodes| && forall i :: 0 <= i < |nodes| ==> held[i] == nodes[i].entries
  {
    seq(|nodes|, i requires 0 <= i < |nodes| reads set j | 0 <= j < |nodes| :: nodes[j] => nodes[i].entries)
  }

  /** The entry `k` of sibling `i` is the one to borrow: the first sibling that can lend lends the entry that
      enlarges the box least, by a tenth at most. */
  ghost predicate Lent(parent: seq<TimedEntry>, held: seq<seq<TimedEntry>>, i: nat, k: nat, id: Id, mbr: Region, since: real, limit: real) {
    && IsBox(mbr, |mbr.low|) && BoxesOf(parent, |mbr.low|) && |parent| == |held|
    && (forall j :: 0 <= j < |held| ==> BoxesOf(held[j], |mbr.low|))
    && FirstLender(parent, held, i, id, mbr, since, limit) && LeastLendable(held[i], k, mbr, since, limit)
    && Area(Combine(mbr, held[i][k].mbr)) <= Area(mbr) * 1.1
  }

  /** Some sibling can lend an entry. */
  ghost predicate CanBorrow(parent: seq<TimedEntry>, held: seq<seq<TimedEntry>>, id: Id, mbr: Region, since: real, limit: real) {
    && IsBox(mbr, |mbr.low|) && BoxesOf(parent, |mbr.low|) && |parent| == |held|
    && (forall j :: 0 <= j < |held| ==> BoxesOf(held[j], |mbr.low|))
    && exists i: nat :: Lends(parent, held, i, id, mbr, since, limit)
  }

  lemma ShapesOf(leaf: LeafNode, parent: seq<TimedEntry>, nodes: seq<LeafNode>)
    requires leaf.Valid() && forall i :: 0 <= i < |nodes| ==> nodes[i].Valid() && nodes[i].dim == leaf.dim
    ensures IsBox(leaf.mbr, leaf.dim) && |leaf.mbr.low| == leaf.dim
    ensures forall i :: 0 <= i < |nodes| ==> BoxesOf(EntriesOf(nodes)[i], leaf.dim)
  {
  }

  /** The whole rule for a leaf that was left with too few live entries: `parent` are the parent's entries,
      `nodes` the nodes they point to, `since` is the start that the parent stores for the leaf. Something
      is borrowed exactly if some sibling can lend. */
  method BorrowFromSibling(leaf: LeafNode, parent: seq<TimedEntry>, nodes: seq<LeafNode>, since: real, versionUnderflow: real)
    returns (borrowed: bool, from: nat, entry: nat)
    requires leaf.Valid() && |leaf.entries| < leaf.capacity && |parent| == |nodes| && BoxesOf(parent, leaf.dim)
    requires forall i :: 0 <= i < |nodes| ==> nodes[i].Valid() && nodes[i].dim == leaf.dim
    requires forall i :: 0 <= i < |nodes| ==> (nodes[i] == leaf <==> parent[i].id == leaf.identifier)
    modifies leaf, set i | 0 <= i < |nodes| :: nodes[i]
    ensures borrowed <==> CanBorrow(parent, old(EntriesOf(nodes)), old(leaf.identifier), old(leaf.mbr), since, versionUnderflow * leaf.capacity as real)
    ensures !borrowed ==> leaf.entries == old(leaf.entries) && leaf.mbr == old(leaf.mbr) && EntriesOf(nodes) == old(EntriesOf(nodes))
    ensures borrowed ==> from < |nodes| && nodes[from] != leaf && leaf.Valid() && nodes[from].Valid()
    ensures borrowed ==> Moved(old(leaf.entries), old(EntriesOf(nodes)[from]), entry, leaf.entries, nodes[from].entries)
    ensures borrowed ==> Lent(parent, old(EntriesOf(nodes)), from, entry, old(leaf.identifier), old(leaf.mbr), since, versionUnderflow * leaf.capacity as real)
    ensures borrowed ==> Dispensable(old(EntriesOf(nodes)[from]), entry, versionUnderflow * leaf.capacity as real)
    ensures borrowed ==> forall i :: 0 <= i < |nodes| && nodes[i] != leaf && nodes[i] != nodes[from] ==> nodes[i].entries == old(EntriesOf(nodes)[i])
  {
    hide Lends, FirstLender, Lendable, LeastLendable, Lent, Dispensable, Moved, Contains;
    ShapesOf(leaf, parent, nodes);
    var held := EntriesOf(nodes);
    var limit := versionUnderflow * leaf.capacity as real;
    borrowed, from, entry := FindLender(parent, held, leaf.identifier, leaf.mbr, since, limit);
    if borrowed {
      LenderFacts(parent, held, from, leaf.identifier, leaf.mbr, since, limit, entry);
      Borrow(leaf, nodes[from], entry);
    }
  }

  lemma LenderFacts(parent: seq<TimedEntry>, held: seq<seq<TimedEntry>>, i: nat, id: Id, mbr: Region, since: real, limit: real, k: nat)
    requires IsBox(mbr, |mbr.low|) && BoxesOf(parent, |mbr.low|) && |parent| == |held|
    requires forall j :: 0 <= j < |held| ==> BoxesOf(held[j], |mbr.low|)
    requires FirstLender(parent, held, i, id, mbr, since, limit) && LeastLendable(held[i], k, mbr, since, limit)
    ensures Lent(parent, held, i, k, id, mbr, since, limit) && Lends(parent, held, i, id, mbr, since, limit)
    ensures i < |parent| && parent[i].id != id && k < |held[i]| && Dispensable(held[i], k, limit)
  {
  }
}
