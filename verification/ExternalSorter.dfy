/** The external sorter of the bulk loader: sorted runs, merged in passes with a priority queue whose
    comparator puts the largest head on top. */
module ExternalSorting {
  import opened Pages
  import opened IndexLists

  /** An entry and the dimension it is sorted by. */
  datatype Record = Record(e: Entry, s: nat)

  /** Twice the centre of the box in the sorting dimension. */
  function Key(r: Record): real {
    if r.s < |r.e.mbr.low| && r.s < |r.e.mbr.high| then r.e.mbr.high[r.s] + r.e.mbr.low[r.s] else 0.0
  }

  ghost predicate Ascending(s: seq<Record>) {
    forall i, j :: 0 <= i < j < |s| ==> Key(s[i]) <= Key(s[j])
  }

  /** The record has sides in its sorting dimension. */
  ghost predicate Sided(r: Record) {
    r.s < |r.e.mbr.low| && r.s < |r.e.mbr.high|
  }

  /** The centre of `x` in its sorting dimension is not to the right of that of `y` in its own. */
  ghost predicate NotRight(x: Record, y: Record) {
    Sided(x) && Sided(y) ==>
      (x.e.mbr.low[x.s] + x.e.mbr.high[x.s]) / 2.0 <= (y.e.mbr.low[y.s] + y.e.mbr.high[y.s]) / 2.0
  }

  ghost predicate LeftToRight(s: seq<Record>) {
    forall i, j :: 0 <= i < j < |s| ==> NotRight(s[i], s[j])
  }

  /** A record goes before another one exactly if its centre in the sorting dimension lies to the left. */
  lemma KeyCentre(x: Record, y: Record)
    requires x.s == y.s && Sided(x) && Sided(y)
    ensures Key(x) < Key(y) <==> (x.e.mbr.low[x.s] + x.e.mbr.high[x.s]) / 2.0 < (y.e.mbr.low[y.s] + y.e.mbr.high[y.s]) / 2.0
  {
  }

  /** Ascending keys are centres from left to right. */
  lemma AscendingCentres(s: seq<Record>)
    ensures Ascending(s) ==> LeftToRight(s)
    ensures LeftToRight(s) && (forall i :: 0 <= i < |s| ==> Sided(s[i])) ==> Ascending(s)
  {
    if LeftToRight(s) && forall i :: 0 <= i < |s| ==> Sided(s[i]) {
      forall i, j | 0 <= i < j < |s| ensures Key(s[i]) <= Key(s[j]) {
        assert NotRight(s[i], s[j]) && Sided(s[i]) && Sided(s[j]);
      }
    }
  }

  // ---------------------------------------------------------------- one run

  /** Sorting a run in memory: some ascending rearrangement. */
  method SortRun(run: seq<Record>) returns (out: seq<Record>)
    ensures multiset(out) == multiset(run) && |out| == |run| && Ascending(out) && LeftToRight(out)
  {
    out := [];
    for i := 0 to |run|
      invariant |out| == i && multiset(out) == multiset(run[..i]) && Ascending(out)
    {
      var k := Place(out, run[i]);
      assert run[..i+1] == run[..i] + [run[i]];
      PutIn(out, k, run[i]);
      out := out[..k] + [run[i]] + out[k..];
    }
    assert run[..|run|] == run;
    AscendingCentres(out);
  }

  lemma PutIn(run: seq<Record>, k: nat, r: Record)
    requires Ascending(run) && k <= |run|
    requires (forall i :: 0 <= i < k ==> Key(run[i]) <= Key(r)) && (forall i :: k <= i < |run| ==> Key(r) <= Key(run[i]))
    ensures var more := run[..k] + [r] + run[k..]; Ascending(more) && multiset(more) == multiset(run) + multiset{r} && |more| == |run| + 1
  {
    hide Key;
    assert run == run[..k] + run[k..];
  }

  /** A position at which a record may be put into an ascending run. */
  method Place(run: seq<Record>, r: Record) returns (k: nat)
    requires Ascending(run)
    ensures k <= |run|
    ensures (forall i :: 0 <= i < k ==> Key(run[i]) <= Key(r)) && (forall i :: k <= i < |run| ==> Key(r) <= Key(run[i]))
  {
    k := |run|;
    while k > 0 && Key(r) < Key(run[k-1])
      invariant k <= |run| && forall i :: k <= i < |run| ==> Key(r) <= Key(run[i])
    {
      k := k - 1;
    }
  }

  // ---------------------------------------------------------------- merging

  /** What the comparator of the queue puts on top: the largest head, as the code has it, or the
      smallest one, as one would expect. */
  datatype Comparator = LargestFirst | SmallestFirst

  /** Run `i` may be served next: no other head goes before its head. */
  ghost predicate Leads(c: Comparator, runs: seq<seq<Record>>, i: nat) {
    && i < |runs| && runs[i] != []
    && forall j :: 0 <= j < |runs| && runs[j] != [] ==> Ahead(c, runs[i][0], runs[j][0])
  }

  ghost predicate Ahead(c: Comparator, r: Record, other: Record) {
    if c == LargestFirst then Key(other) <= Key(r) else Key(r) <= Key(other)
  }

  ghost function Serve(runs: seq<seq<Record>>, i: nat): seq<seq<Record>>
    requires i < |runs| && runs[i] != []
  {
    runs[i := runs[i][1..]]
  }

  /** Serving leading heads turns `runs` into `now` and hands out `out`, for some choice among ties. */
  ghost predicate Merging(c: Comparator, runs: seq<seq<Record>>, out: seq<Record>, now: seq<seq<Record>>)
    decreases |out|
  {
    if out == [] then now == runs
    else exists before, i :: Leads(c, before, i) && before[i][0] == out[|out|-1] && now == Serve(before, i) && Merging(c, runs, out[..|out|-1], before)
  }

  ghost predicate Exhausted(runs: seq<seq<Record>>) {
    forall i :: 0 <= i < |runs| ==> runs[i] == []
  }

  /** `file` is a complete merge of `runs`. */
  ghost predicate Merged(c: Comparator, runs: seq<seq<Record>>, file: seq<Record>) {
    exists now :: Merging(c, runs, file, now) && Exhausted(now)
  }

  /** What the passes make of `runs`: while there are more runs than buffer pages, the first ones are
      merged and their merge goes to the end of the list. */
  ghost predicate Passes(c: Comparator, runs: seq<seq<Record>>, bufferPages: nat, file: seq<Record>)
    decreases |runs|
  {
    if |runs| == 1 then file == runs[0]
    else if |runs| <= bufferPages then Merged(c, runs, file)
    else bufferPages >= 2 && exists first :: Merged(c, runs[..bufferPages], first) && Passes(c, runs[bufferPages..] + [first], bufferPages, file)
  }

  ghost predicate Sorted(buffer: seq<Record>, run: seq<Record>) {
    Ascending(run) && multiset(run) == multiset(buffer)
  }

  /** What `sort` may leave: the sorted buffer, or, if runs were stored, what the passes make of them
      and of the sorted rest of the buffer. */
  ghost predicate Outcome(c: Comparator, runs: seq<seq<Record>>, buffer: seq<Record>, bufferPages: nat, out: seq<Record>) {
    if runs == [] then Sorted(buffer, out)
    else if buffer == [] then Passes(c, runs, bufferPages, out)
    else exists last :: Sorted(buffer, last) && Passes(c, runs + [last], bufferPages, out)
  }

  ghost predicate SameKeys(all: multiset<Record>) {
    forall x, y :: x in all && y in all ==> Key(x) == Key(y)
  }

  /** Runs as the sorter keeps them. */
  ghost predicate Runs(runs: seq<seq<Record>>) {
    forall i :: 0 <= i < |runs| ==> runs[i] != [] && Ascending(runs[i])
  }

  lemma RunsMore(runs: seq<seq<Record>>, run: seq<Record>, buffer: seq<Record>)
    requires Runs(runs) && buffer != [] && multiset(run) == multiset(buffer) && |run| == |buffer| && Ascending(run)
    ensures Runs(runs + [run]) && Everything(runs + [run]) == Everything(runs) + multiset(buffer)
  {
    assert (runs + [run])[..|runs|] == runs;
  }

  ghost function Everything(runs: seq<seq<Record>>): multiset<Record> {
    if runs == [] then multiset{} else Everything(runs[..|runs|-1]) + multiset(runs[|runs|-1])
  }

  lemma {:induction false} EverythingServed(runs: seq<seq<Record>>, i: nat)
    requires i < |runs| && runs[i] != []
    ensures Everything(runs) == Everything(Serve(runs, i)) + multiset{runs[i][0]}
  {
    var most, last := runs[..|runs|-1], runs[|runs|-1];
    var after := Serve(runs, i);
    if i == |runs| - 1 {
      assert after[..|after|-1] == most;
      assert last == [last[0]] + last[1..];
    } else {
      EverythingServed(most, i);
      assert after[..|after|-1] == Serve(most, i);
    }
  }

  lemma {:induction false} EverythingGone(runs: seq<seq<Record>>)
    requires Exhausted(runs)
    ensures Everything(runs) == multiset{}
  {
    if runs != [] {
      EverythingGone(runs[..|runs|-1]);
    }
  }

  /** Merging loses and invents nothing. */
  lemma {:induction false} MergingKeeps(c: Comparator, runs: seq<seq<Record>>, out: seq<Record>, now: seq<seq<Record>>)
    requires Merging(c, runs, out, now)
    ensures Everything(runs) == multiset(out) + Everything(now)
    decreases |out|
  {
    hide *;
    if out != [] {
      var before, i := MergingLast(c, runs, out, now);
      var most, last := out[..|out|-1], out[|out|-1];
      MergingKeeps(c, runs, most, before);
      EverythingServed(before, i);
      MoveOne(Everything(runs), out, most, last, Everything(before), Everything(now));
    } else {
      MergingNone(c, runs, out, now);
    }
  }

  /** The last record that was served. */
  lemma MergingLast(c: Comparator, runs: seq<seq<Record>>, out: seq<Record>, now: seq<seq<Record>>) returns (before: seq<seq<Record>>, i: nat)
    requires Merging(c, runs, out, now) && out != []
    ensures i < |before| && before[i] != [] && before[i][0] == out[|out|-1] && now == Serve(before, i)
    ensures Leads(c, before, i) && Merging(c, runs, out[..|out|-1], before)
  {
    var b, k :| Leads(c, b, k) && b[k][0] == out[|out|-1] && now == Serve(b, k) && Merging(c, runs, out[..|out|-1], b);
    before, i := b, k;
  }

  lemma MergingNone(c: Comparator, runs: seq<seq<Record>>, out: seq<Record>, now: seq<seq<Record>>)
    requires Merging(c, runs, out, now) && out == []
    ensures now == runs && Everything(runs) == multiset(out) + Everything(now)
  {
    assert multiset([]) + Everything(now) == Everything(now);
  }

  lemma LeadsHead(c: Comparator, runs: seq<seq<Record>>, i: nat)
    requires Leads(c, runs, i)
    ensures i < |runs| && runs[i] != []
  {
  }

  lemma MoveOne(all: multiset<Record>, out: seq<Record>, most: seq<Record>, last: Record, before: multiset<Record>, now: multiset<Record>)
    requires all == multiset(most) + before && before == now + multiset{last}
    requires out != [] && most == out[..|out|-1] && last == out[|out|-1]
    ensures all == multiset(out) + now
  {
    assert out == most + [last];
  }

  lemma MergingStep(c: Comparator, runs: seq<seq<Record>>, out: seq<Record>, now: seq<seq<Record>>, i: nat)
    requires Merging(c, runs, out, now) && Leads(c, now, i)
    ensures Merging(c, runs, out + [now[i][0]], Serve(now, i))
  {
    var more := out + [now[i][0]];
    assert more[..|more|-1] == out;
  }

  // ---------------------------------------------------------------- one merge pass

  datatype PQEntry = PQEntry(r: Record, index: nat)

  /** What run `i` still has: its head in the queue, its buffer, and its file. */
  ghost predicate Holding(now: seq<seq<Record>>, pq: seq<PQEntry>, buffers: seq<seq<Record>>, buckets: seq<seq<Record>>) {
    && |now| == |buffers| == |buckets|
    && (forall a, b :: 0 <= a < b < |pq| ==> pq[a].index != pq[b].index)
    && (forall a :: 0 <= a < |pq| ==> pq[a].index < |now| && now[pq[a].index] == [pq[a].r] + buffers[pq[a].index] + buckets[pq[a].index])
    && (forall i :: 0 <= i < |now| ==> (now[i] == [] && buffers[i] == [] && buckets[i] == []) || Queued(pq, i))
  }

  ghost predicate Queued(pq: seq<PQEntry>, i: nat) {
    exists a :: 0 <= a < |pq| && pq[a].index == i
  }

  /** Up to `count` records of a file. */
  method FillBuffer(bucket: seq<Record>, count: nat) returns (buffer: seq<Record>, rest: seq<Record>)
    ensures bucket == buffer + rest && (bucket != [] && count > 0 ==> buffer != [])
  {
    buffer, rest := [], bucket;
    for j := 0 to count
      invariant bucket == buffer + rest && |buffer| <= j && (bucket != [] && j > 0 ==> buffer != [])
    {
      if rest == [] {
        break;
      }
      buffer, rest := buffer + [rest[0]], rest[1..];
    }
  }

  /** The top of the queue: an entry that no other one exceeds. */
  method Top(pq: seq<PQEntry>) returns (a: nat)
    requires pq != []
    ensures a < |pq| && forall b :: 0 <= b < |pq| ==> Key(pq[b].r) <= Key(pq[a].r)
  {
    TopExists(pq);
    a :| 0 <= a < |pq| && forall b :: 0 <= b < |pq| ==> Key(pq[b].r) <= Key(pq[a].r);
  }

  lemma TopExists(pq: seq<PQEntry>)
    requires pq != []
    ensures exists a :: 0 <= a < |pq| && forall b :: 0 <= b < |pq| ==> Key(pq[b].r) <= Key(pq[a].r)
  {
    var best := 0;
    for k := 1 to |pq|
      invariant best < k && forall b :: 0 <= b < k ==> Key(pq[b].r) <= Key(pq[best].r)
    {
      if Key(pq[best].r) < Key(pq[k].r) {
        best := k;
      }
    }
  }

  /** Merges some runs, none of them empty, into one. */
  method MergeRuns(runs: seq<seq<Record>>, pageSize: nat) returns (out: seq<Record>)
    requires pageSize >= 1 && forall i :: 0 <= i < |runs| ==> runs[i] != []
    ensures Merged(LargestFirst, runs, out)
  {
    var pq: seq<PQEntry>, buffers: seq<seq<Record>>, buckets: seq<seq<Record>> := [], [], [];
    for i := 0 to |runs|
      invariant |pq| == |buffers| == |buckets| == i
      invariant forall a :: 0 <= a < i ==> pq[a].index == a && runs[a] == [pq[a].r] + buffers[a] + buckets[a]
    {
      var buffer, rest := FillBuffer(runs[i][1..], pageSize - 1);
      assert runs[i] == [runs[i][0]] + runs[i][1..];
      pq := pq + [PQEntry(runs[i][0], i)];
      buffers := buffers + [buffer];
      buckets := buckets + [rest];
    }
    out := [];
    ghost var now := runs;
    assert Holding(now, pq, buffers, buckets) by {
      forall i | 0 <= i < |now| ensures Queued(pq, i) {
        assert pq[i].index == i;
      }
    }
    while pq != []
      invariant Holding(now, pq, buffers, buckets) && Merging(LargestFirst, runs, out, now)
      decreases |Everything(now)|
    {
      var a := Top(pq);
      TopLargest(now, pq, buffers, buckets, a);
      EverythingServed(now, pq[a].index);
      MergingStep(LargestFirst, runs, out, now, pq[a].index);
      out := out + [pq[a].r];
      ghost var served := Serve(now, pq[a].index);
      pq, buffers, buckets := Advance(now, pq, buffers, buckets, a, pageSize);
      now := served;
    }
    AllExhausted(now, pq, buffers, buckets);
  }

  /** Takes entry `a` off the queue, reads more of its run when its buffer is empty, and queues the
      run's next record. */
  method Advance(ghost now: seq<seq<Record>>, pq: seq<PQEntry>, buffers: seq<seq<Record>>, buckets: seq<seq<Record>>, a: nat, pageSize: nat)
    returns (pq': seq<PQEntry>, buffers': seq<seq<Record>>, buckets': seq<seq<Record>>)
    requires Holding(now, pq, buffers, buckets) && a < |pq| && pageSize >= 1
    requires pq[a].index < |now| && now[pq[a].index] != []
    ensures Holding(Serve(now, pq[a].index), pq', buffers', buckets')
  {
    var k := pq[a].index;
    pq', buffers', buckets' := pq[..a] + pq[a+1..], buffers, buckets;
    if buckets[k] != [] && buffers[k] == [] {
      var buffer, rest := FillBuffer(buckets[k], pageSize);
      buffers', buckets' := buffers[k := buffer], buckets[k := rest];
    }
    assert now[k][1..] == buffers'[k] + buckets'[k];
    assert buffers'[k] == [] ==> buckets'[k] == [];
    if buffers'[k] != [] {
      pq' := pq' + [PQEntry(buffers'[k][0], k)];
      buffers' := buffers'[k := buffers'[k][1..]];
      HoldingNext(now, pq, buffers, buckets, a, pq', buffers', buckets');
    } else {
      HoldingLast(now, pq, buffers, buckets, a, pq', buffers', buckets');
    }
  }

  lemma TopLargest(now: seq<seq<Record>>, pq: seq<PQEntry>, buffers: seq<seq<Record>>, buckets: seq<seq<Record>>, a: nat)
    requires Holding(now, pq, buffers, buckets) && a < |pq|
    requires forall b :: 0 <= b < |pq| ==> Key(pq[b].r) <= Key(pq[a].r)
    ensures Leads(LargestFirst, now, pq[a].index) && now[pq[a].index][0] == pq[a].r
  {
    hide Key;
    forall j | 0 <= j < |now| && now[j] != [] ensures Key(now[j][0]) <= Key(pq[a].r) {
      assert Queued(pq, j);
      var b :| 0 <= b < |pq| && pq[b].index == j;
    }
  }

  lemma AllExhausted(now: seq<seq<Record>>, pq: seq<PQEntry>, buffers: seq<seq<Record>>, buckets: seq<seq<Record>>)
    requires Holding(now, pq, buffers, buckets) && pq == []
    ensures Exhausted(now)
  {
    assert forall i :: !Queued(pq, i);
  }

  lemma QueuedOther(pq: seq<PQEntry>, a: nat, i: nat, pq': seq<PQEntry>)
    requires a < |pq| && Queued(pq, i) && i != pq[a].index && pq[..a] + pq[a+1..] <= pq'
    ensures Queued(pq', i)
  {
    var b :| 0 <= b < |pq| && pq[b].index == i;
    var others := pq[..a] + pq[a+1..];
    assert others[if b < a then b else b - 1] == pq[b];
    assert pq'[if b < a then b else b - 1] == others[if b < a then b else b - 1];
  }

  lemma OthersAt(pq: seq<PQEntry>, a: nat)
    requires a < |pq| && forall b, c :: 0 <= b < c < |pq| ==> pq[b].index != pq[c].index
    ensures
      var others := pq[..a] + pq[a+1..];
      && (forall b, c :: 0 <= b < c < |others| ==> others[b].index != others[c].index)
      && (forall b :: 0 <= b < |others| ==> others[b] == pq[if b < a then b else b + 1] && others[b].index != pq[a].index)
  {
    var others := pq[..a] + pq[a+1..];
    assert forall b :: 0 <= b < |others| ==> others[b] == pq[if b < a then b else b + 1];
  }

  /** The run of the entry that was taken has another record, which is queued. */
  lemma HoldingNext(now: seq<seq<Record>>, pq: seq<PQEntry>, buffers: seq<seq<Record>>, buckets: seq<seq<Record>>, a: nat,
                    pq': seq<PQEntry>, buffers': seq<seq<Record>>, buckets': seq<seq<Record>>)
    requires Holding(now, pq, buffers, buckets) && a < |pq| && pq[a].index < |now| && now[pq[a].index] != []
    requires |buffers'| == |buckets'| == |now| && |pq'| == |pq| && pq'[|pq|-1].index == pq[a].index
    requires pq'[..|pq|-1] == pq[..a] + pq[a+1..]
    requires forall i :: 0 <= i < |now| && i != pq[a].index ==> buffers'[i] == buffers[i] && buckets'[i] == buckets[i]
    requires var k := pq[a].index; now[k][1..] == [pq'[|pq|-1].r] + buffers'[k] + buckets'[k]
    ensures Holding(Serve(now, pq[a].index), pq', buffers', buckets')
  {
    var k, n, others := pq[a].index, |pq| - 1, pq[..a] + pq[a+1..];
    var served := Serve(now, k);
    OthersAt(pq, a);
    assert forall b :: 0 <= b < n ==> pq'[b] == others[b];
    forall b | 0 <= b < n + 1
      ensures pq'[b].index < |now| && served[pq'[b].index] == [pq'[b].r] + buffers'[pq'[b].index] + buckets'[pq'[b].index] {
      if b < n {
        var c := if b < a then b else b + 1;
        assert pq'[b] == pq[c];
      }
    }
    forall i | 0 <= i < |now| && !(served[i] == [] && buffers'[i] == [] && buckets'[i] == []) ensures Queued(pq', i) {
      if i == k {
        assert pq'[n].index == k;
      } else {
        QueuedOther(pq, a, i, pq');
      }
    }
  }

  /** The run of the entry that was taken is used up. */
  lemma HoldingLast(now: seq<seq<Record>>, pq: seq<PQEntry>, buffers: seq<seq<Record>>, buckets: seq<seq<Record>>, a: nat,
                    pq': seq<PQEntry>, buffers': seq<seq<Record>>, buckets': seq<seq<Record>>)
    requires Holding(now, pq, buffers, buckets) && a < |pq| && pq[a].index < |now| && now[pq[a].index] != []
    requires |buffers'| == |buckets'| == |now| && pq' == pq[..a] + pq[a+1..]
    requires forall i :: 0 <= i < |now| && i != pq[a].index ==> buffers'[i] == buffers[i] && buckets'[i] == buckets[i]
    requires var k := pq[a].index; now[k][1..] == [] && buffers'[k] == [] && buckets'[k] == []
    ensures Holding(Serve(now, pq[a].index), pq', buffers', buckets')
  {
    var k := pq[a].index;
    assert forall b :: 0 <= b < |pq'| ==> pq'[b] == pq[if b < a then b else b + 1];
    forall i | 0 <= i < |now| && !(Serve(now, k)[i] == [] && buffers'[i] == [] && buckets'[i] == []) ensures Queued(pq', i) {
      QueuedOther(pq, a, i, pq');
    }
  }

  // ---------------------------------------------------------------- what merging does to the order

  lemma LeadsExists(c: Comparator, runs: seq<seq<Record>>) returns (i: nat)
    requires !Exhausted(runs)
    ensures Leads(c, runs, i)
  {
    i :| 0 <= i < |runs| && runs[i] != [];
    for k := 0 to |runs|
      invariant i < |runs| && runs[i] != []
      invariant forall j :: 0 <= j < k && runs[j] != [] ==> Ahead(c, runs[i][0], runs[j][0])
    {
      if runs[k] != [] && !Ahead(c, runs[i][0], runs[k][0]) {
        i := k;
      }
    }
  }

  /** A merge that has begun can be finished, and hands out everything that is left. */
  lemma {:induction false} Finish(c: Comparator, runs: seq<seq<Record>>, out: seq<Record>, now: seq<seq<Record>>)
    returns (out': seq<Record>, now': seq<seq<Record>>)
    requires Merging(c, runs, out, now)
    ensures Merging(c, runs, out', now') && Exhausted(now') && out <= out'
    decreases |Everything(now)|
  {
    if Exhausted(now) {
      out', now' := out, now;
    } else {
      var i := LeadsExists(c, now);
      EverythingServed(now, i);
      MergingStep(c, runs, out, now, i);
      out', now' := Finish(c, runs, out + [now[i][0]], Serve(now, i));
    }
  }

  lemma {:induction false} HeadIn(runs: seq<seq<Record>>, j: nat)
    requires j < |runs| && runs[j] != []
    ensures runs[j][0] in Everything(runs)
  {
    if j < |runs| - 1 {
      HeadIn(runs[..|runs|-1], j);
    }
  }

  /** When a record was handed out while a smaller one heads another run, the result is out of order. */
  lemma Overtaken(runs: seq<seq<Record>>, out: seq<Record>, now: seq<seq<Record>>, i: nat, j: nat)
    returns (out': seq<Record>, now': seq<seq<Record>>)
    requires Merging(LargestFirst, runs, out, now) && Leads(LargestFirst, now, i) && j < |now| && j != i && now[j] != []
    requires Key(now[j][0]) < Key(now[i][0])
    ensures Merging(LargestFirst, runs, out', now') && Exhausted(now') && !Ascending(out')
  {
    LeadsHead(LargestFirst, now, i);
    hide Merging, Exhausted, Everything, Leads, Key;
    var x, y, served := now[i][0], now[j][0], Serve(now, i);
    assert served[j] == now[j];
    MergingStep(LargestFirst, runs, out, now, i);
    out', now' := Finish(LargestFirst, runs, out + [x], served);
    HeadIn(served, j);
    Remaining(LargestFirst, runs, out + [x], served, out', now');
    assert y in multiset(out'[|out| + 1..]);
    var k :| 0 <= k < |out'| - (|out| + 1) && out'[|out| + 1..][k] == y;
    assert out'[|out|] == x && out'[|out| + 1 + k] == y;
  }

  /** What a finished merge hands out after `out` is what was left then. */
  lemma Remaining(c: Comparator, runs: seq<seq<Record>>, out: seq<Record>, now: seq<seq<Record>>, out': seq<Record>, now': seq<seq<Record>>)
    requires Merging(c, runs, out, now) && Merging(c, runs, out', now') && Exhausted(now') && out <= out'
    ensures multiset(out'[|out|..]) == Everything(now)
  {
    hide *;
    MergingKeeps(c, runs, out, now);
    MergingKeeps(c, runs, out', now');
    EverythingGone(now');
    assert out' == out + out'[|out|..];
    CancelLeft(multiset(out), multiset(out'[|out|..]), Everything(now));
  }

  lemma CancelLeft(a: multiset<Record>, b: multiset<Record>, c: multiset<Record>)
    requires a + b + multiset{} == a + c
    ensures b == c
  {
    forall x ensures b[x] == c[x] {
      assert (a + b + multiset{})[x] == (a + c)[x];
    }
  }

  /** All runs start with key `m`: the runs are served from run `i` until it starts with a larger key. */
  lemma {:induction false} DigUp(runs: seq<seq<Record>>, out: seq<Record>, now: seq<seq<Record>>, i: nat, m: real)
    returns (out': seq<Record>, now': seq<seq<Record>>)
    requires Merging(LargestFirst, runs, out, now) && i < |now| && Ascending(now[i]) && exists k :: 0 <= k < |now[i]| && Key(now[i][k]) > m
    requires forall j :: 0 <= j < |now| && j != i && now[j] != [] ==> Key(now[j][0]) == m
    requires Key(now[i][0]) >= m
    ensures Merging(LargestFirst, runs, out', now') && |now'| == |now| && now'[i] != [] && Key(now'[i][0]) > m
    ensures forall j :: 0 <= j < |now| && j != i ==> now'[j] == now[j]
    decreases |now[i]|
  {
    if Key(now[i][0]) > m {
      out', now' := out, now;
    } else {
      var k :| 0 <= k < |now[i]| && Key(now[i][k]) > m;
      assert k > 0 && now[i][1..][k-1] == now[i][k];
      MergingStep(LargestFirst, runs, out, now, i);
      var served := Serve(now, i);
      assert served[i] == now[i][1..];
      out', now' := DigUp(runs, out + [now[i][0]], served, i, m);
    }
  }

  /** Two runs or more: unless all keys are equal, some choice among ties gives a result that is out of
      order, since the largest head goes first. */
  lemma MergeDisorders(runs: seq<seq<Record>>, a: nat, b: nat, k: nat) returns (out: seq<Record>, now: seq<seq<Record>>)
    requires |runs| >= 2 && forall i :: 0 <= i < |runs| ==> runs[i] != [] && Ascending(runs[i])
    requires a < |runs| && b < |runs| && k < |runs[b]| && Key(runs[a][0]) != Key(runs[b][k])
    ensures Merging(LargestFirst, runs, out, now) && Exhausted(now) && !Ascending(out)
  {
    if j, i :| 0 <= j < |runs| && 0 <= i < |runs| && Key(runs[j][0]) != Key(runs[i][0]) {
      assert runs[0] != [];
      var top := LeadsExists(LargestFirst, runs);
      var low := if Key(runs[j][0]) != Key(runs[top][0]) then j else i;
      out, now := Overtaken(runs, [], runs, top, low);
    } else {
      var m := Key(runs[0][0]);
      assert Key(runs[a][0]) == m && Key(runs[b][0]) == m;
      assert Key(runs[b][k]) > m;
      var out1, now1 := DigUp(runs, [], runs, b, m);
      var other := if b == 0 then 1 else 0;
      assert Key(now1[other][0]) == m;
      out, now := Overtaken(runs, out1, now1, b, other);
    }
  }

  /** What was served of run `i` is its front, in order: a run that is out of order makes the merge so. */
  lemma {:induction false} Consumed(c: Comparator, runs: seq<seq<Record>>, out: seq<Record>, now: seq<seq<Record>>, i: nat)
    requires Merging(c, runs, out, now) && i < |runs|
    ensures |now| == |runs| && Fronted(runs[i], out, now[i])
    decreases |out|
  {
    hide *;
    if out != [] {
      var before, k := MergingLast(c, runs, out, now);
      var most, last := out[..|out|-1], out[|out|-1];
      Consumed(c, runs, most, before, i);
      ConsumedMore(runs[i], most, before, k, now, i);
      assert out == most + [last];
    } else {
      MergingNone(c, runs, out, now);
      NothingConsumed(runs[i], out);
    }
  }

  lemma NothingConsumed(run: seq<Record>, out: seq<Record>)
    ensures Fronted(run, out, run)
  {
    assert Ascending(run[..0]) && run[0..] == run;
  }

  /** The end of run `i` is left after `out`, which holds its front and is out of order if that is. */
  ghost predicate Fronted(run: seq<Record>, out: seq<Record>, left: seq<Record>) {
    && |left| <= |run|
    && var n := |run| - |left|;
       left == run[n..] && (forall k :: 0 <= k < n ==> run[k] in out) && (!Ascending(run[..n]) ==> !Ascending(out))
  }

  lemma ConsumedMore(run: seq<Record>, most: seq<Record>, before: seq<seq<Record>>, k: nat, now: seq<seq<Record>>, i: nat)
    requires k < |before| && before[k] != [] && now == Serve(before, k) && i < |before| && Fronted(run, most, before[i])
    ensures |now| == |before| && Fronted(run, most + [before[k][0]], now[i])
  {
    hide Key, Ascending;
    var n, last := |run| - |before[i]|, before[k][0];
    Appended(run[..n], most, last);
    if k == i {
      assert run[n] == last;
      assert run[..n+1] == run[..n] + [last];
    }
  }

  lemma Appended(front: seq<Record>, most: seq<Record>, last: Record)
    requires (forall k :: 0 <= k < |front| ==> front[k] in most) && (!Ascending(front) ==> !Ascending(most))
    ensures !Ascending(front + [last]) ==> !Ascending(most + [last])
    ensures !Ascending(front) ==> !Ascending(most + [last])
  {
    hide Key;
    var out := most + [last];
    if Ascending(out) {
      forall i, j | 0 <= i < j < |most| ensures Key(most[i]) <= Key(most[j]) {
        assert out[i] == most[i] && out[j] == most[j];
      }
      assert Ascending(most);
      forall k | 0 <= k < |front| ensures Key(front[k]) <= Key(last) {
        var a :| 0 <= a < |most| && most[a] == front[k];
        assert out[a] == front[k] && out[|most|] == last;
      }
      assert Ascending(front + [last]);
    }
  }

  /** A complete merge of lists that are not all in order is out of order. */
  lemma DisorderStays(c: Comparator, runs: seq<seq<Record>>, file: seq<Record>, i: nat)
    requires Merged(c, runs, file) && i < |runs| && !Ascending(runs[i])
    ensures !Ascending(file)
  {
    var now :| Merging(c, runs, file, now) && Exhausted(now);
    Consumed(c, runs, file, now, i);
    assert now[i] == [];
    assert runs[i][..|runs[i]|] == runs[i];
  }

  lemma {:induction false} FoundIn(runs: seq<seq<Record>>, x: Record) returns (i: nat, k: nat)
    requires x in Everything(runs)
    ensures i < |runs| && k < |runs[i]| && runs[i][k] == x
  {
    var last := runs[|runs|-1];
    if x in multiset(last) {
      i := |runs| - 1;
      k :| 0 <= k < |last| && last[k] == x;
    } else {
      i, k := FoundIn(runs[..|runs|-1], x);
    }
  }

  /** Every list of runs has a complete merge. */
  lemma MergeExists(c: Comparator, runs: seq<seq<Record>>) returns (file: seq<Record>)
    ensures Merged(c, runs, file)
  {
    var now;
    file, now := Finish(c, runs, [], runs);
  }

  lemma MergedKeeps(c: Comparator, runs: seq<seq<Record>>, file: seq<Record>)
    requires Merged(c, runs, file)
    ensures multiset(file) == Everything(runs)
  {
    var now :| Merging(c, runs, file, now) && Exhausted(now);
    hide *;
    MergingKeeps(c, runs, file, now);
    EverythingGone(now);
    assert multiset(file) + multiset{} == multiset(file);
  }

  /** One pass keeps the records, the number of lists that matters, and that none is empty. */
  lemma PassKeeps(c: Comparator, runs: seq<seq<Record>>, count: nat, file: seq<Record>)
    requires 1 <= count <= |runs| && Merged(c, runs[..count], file)
    requires forall i :: 0 <= i < |runs| ==> runs[i] != []
    ensures Everything(runs[count..] + [file]) == Everything(runs) && file != []
    ensures forall i :: 0 <= i < |runs[count..] + [file]| ==> (runs[count..] + [file])[i] != []
  {
    MergedAll(c, runs, count, file);
  }

  lemma {:induction false} PassesKeep(c: Comparator, runs: seq<seq<Record>>, bufferPages: nat, file: seq<Record>)
    requires runs != [] && Passes(c, runs, bufferPages, file) && forall i :: 0 <= i < |runs| ==> runs[i] != []
    ensures multiset(file) == Everything(runs)
    decreases |runs|
  {
    if |runs| == 1 {
      OneRun(runs);
    } else if |runs| <= bufferPages {
      MergedKeeps(c, runs, file);
    } else {
      var first :| Merged(c, runs[..bufferPages], first) && Passes(c, runs[bufferPages..] + [first], bufferPages, file);
      hide *;
      PassKeeps(c, runs, bufferPages, first);
      PassesKeep(c, runs[bufferPages..] + [first], bufferPages, file);
    }
  }

  /** Two lists or more and keys that differ: whatever the number of passes, some choice among ties
      ends out of order. */
  lemma {:induction false} PassesDisorder(runs: seq<seq<Record>>, bufferPages: nat) returns (file: seq<Record>)
    requires |runs| >= 2 && bufferPages >= 2 && !SameKeys(Everything(runs)) && forall i :: 0 <= i < |runs| ==> runs[i] != []
    ensures Passes(LargestFirst, runs, bufferPages, file) && !Ascending(file)
    decreases |runs|
  {
    if |runs| <= bufferPages {
      file := LastPassDisorders(runs);
    } else {
      var first := MergeExists(LargestFirst, runs[..bufferPages]);
      PassKeeps(LargestFirst, runs, bufferPages, first);
      file := PassesDisorder(runs[bufferPages..] + [first], bufferPages);
    }
  }

  lemma LastPassDisorders(runs: seq<seq<Record>>) returns (file: seq<Record>)
    requires |runs| >= 2 && !SameKeys(Everything(runs)) && forall i :: 0 <= i < |runs| ==> runs[i] != []
    ensures Merged(LargestFirst, runs, file) && !Ascending(file)
  {
    hide Everything, Key, Merging;
    if i :| 0 <= i < |runs| && !Ascending(runs[i]) {
      file := MergeExists(LargestFirst, runs);
      DisorderStays(LargestFirst, runs, file, i);
    } else {
      var x, y :| x in Everything(runs) && y in Everything(runs) && Key(x) != Key(y);
      var a, k := FoundIn(runs, x);
      var b, l := FoundIn(runs, y);
      var now;
      if Key(runs[a][0]) != Key(runs[b][l]) {
        file, now := MergeDisorders(runs, a, b, l);
      } else {
        file, now := MergeDisorders(runs, a, a, k);
      }
    }
  }

  /** With equal keys every result is in order. */
  lemma EqualKeysAscend(out: seq<Record>)
    requires SameKeys(multiset(out))
    ensures Ascending(out)
  {
    forall i, j | 0 <= i < j < |out| ensures Key(out[i]) == Key(out[j]) {
      assert out[i] in multiset(out) && out[j] in multiset(out);
    }
  }

  // ---------------------------------------------------------------- the smallest head first

  /** With the comparator one would expect, merging sorted runs gives a sorted result. */
  lemma {:induction false} SmallestMergeAscends(runs: seq<seq<Record>>, out: seq<Record>, now: seq<seq<Record>>)
    requires Merging(SmallestFirst, runs, out, now) && forall i :: 0 <= i < |runs| ==> Ascending(runs[i])
    ensures Ascending(out) && |now| == |runs| && forall i :: 0 <= i < |now| ==> Ascending(now[i])
    ensures out != [] ==> forall j :: 0 <= j < |now| && now[j] != [] ==> Key(out[|out|-1]) <= Key(now[j][0])
    decreases |out|
  {
    if out != [] {
      var before, i := MergingLast(SmallestFirst, runs, out, now);
      SmallestMergeAscends(runs, out[..|out|-1], before);
      SmallestStep(before, i, out[..|out|-1], out, now);
    }
  }

  lemma SmallestStep(before: seq<seq<Record>>, i: nat, most: seq<Record>, out: seq<Record>, now: seq<seq<Record>>)
    requires Leads(SmallestFirst, before, i) && out == most + [before[i][0]] && now == Serve(before, i)
    requires Ascending(most) && forall j :: 0 <= j < |before| ==> Ascending(before[j])
    requires most != [] ==> forall j :: 0 <= j < |before| && before[j] != [] ==> Key(most[|most|-1]) <= Key(before[j][0])
    ensures Ascending(out) && |now| == |before| && forall j :: 0 <= j < |now| ==> Ascending(now[j])
    ensures forall j :: 0 <= j < |now| && now[j] != [] ==> Key(out[|out|-1]) <= Key(now[j][0])
  {
    hide Key;
    assert forall k :: 0 <= k < |now[i]| ==> now[i][k] == before[i][k+1];
    forall j | 0 <= j < |now| && now[j] != [] ensures Key(before[i][0]) <= Key(now[j][0]) {
    }
    if most != [] {
      assert Key(most[|most|-1]) <= Key(before[i][0]);
      forall a | 0 <= a < |most| ensures Key(most[a]) <= Key(before[i][0]) {
        assert a < |most| - 1 ==> Key(most[a]) <= Key(most[|most|-1]);
      }
    }
  }

  /** And so do the passes, however many there are. */
  lemma {:induction false} SmallestFirstAscends(runs: seq<seq<Record>>, bufferPages: nat, file: seq<Record>)
    requires runs != [] && Runs(runs) && Passes(SmallestFirst, runs, bufferPages, file)
    ensures Ascending(file)
    decreases |runs|
  {
    if |runs| > bufferPages && |runs| > 1 {
      var first :| Merged(SmallestFirst, runs[..bufferPages], first) && Passes(SmallestFirst, runs[bufferPages..] + [first], bufferPages, file);
      var now :| Merging(SmallestFirst, runs[..bufferPages], first, now) && Exhausted(now);
      hide Merging, Ascending, Passes, Key, Everything, Merged, Exhausted;
      SmallestMergeAscends(runs[..bufferPages], first, now);
      assert Merged(SmallestFirst, runs[..bufferPages], first);
      PassKeeps(SmallestFirst, runs, bufferPages, first);
      SmallestFirstAscends(runs[bufferPages..] + [first], bufferPages, file);
    } else if |runs| > 1 {
      var now :| Merging(SmallestFirst, runs, file, now) && Exhausted(now);
      SmallestMergeAscends(runs, file, now);
    }
  }

  // ---------------------------------------------------------------- when the sorter sorts

  /** Some ascending rearrangement. */
  lemma {:induction false} SortExists(buffer: seq<Record>) returns (run: seq<Record>)
    ensures Sorted(buffer, run) && |run| == |buffer|
  {
    run := [];
    if buffer != [] {
      var most, last := buffer[..|buffer|-1], buffer[|buffer|-1];
      var rest := SortExists(most);
      var k := PlaceExists(rest, last);
      run := rest[..k] + [last] + rest[k..];
      PutIn(rest, k, last);
      assert buffer == most + [last];
    }
  }

  lemma {:induction false} PlaceExists(run: seq<Record>, r: Record) returns (k: nat)
    requires Ascending(run)
    ensures k <= |run|
    ensures (forall i :: 0 <= i < k ==> Key(run[i]) <= Key(r)) && (forall i :: k <= i < |run| ==> Key(r) <= Key(run[i]))
  {
    k := |run|;
    if run != [] && Key(r) < Key(run[|run|-1]) {
      k := PlaceExists(run[..|run|-1], r);
    }
  }

  /** The lists that are merged: the stored runs and the sorted rest of the buffer. */
  lemma OutcomeLists(c: Comparator, runs: seq<seq<Record>>, buffer: seq<Record>, bufferPages: nat, out: seq<Record>)
    returns (all: seq<seq<Record>>)
    requires runs != [] && Runs(runs) && Outcome(c, runs, buffer, bufferPages, out)
    ensures all != [] && Runs(all) && Passes(c, all, bufferPages, out) && Everything(all) == Everything(runs) + multiset(buffer)
  {
    if buffer == [] {
      all := runs;
    } else {
      var last :| Sorted(buffer, last) && Passes(c, runs + [last], bufferPages, out);
      all := runs + [last];
      LastListed(runs, buffer, last);
    }
  }

  lemma LastListed(runs: seq<seq<Record>>, buffer: seq<Record>, last: seq<Record>)
    requires Runs(runs) && Sorted(buffer, last) && buffer != []
    ensures Runs(runs + [last]) && Everything(runs + [last]) == Everything(runs) + multiset(buffer)
  {
    assert (runs + [last])[..|runs + [last]| - 1] == runs;
    assert buffer[0] in multiset(last);
  }

  /** Every choice among ties gives an ascending result exactly if there was at most one list to merge
      or all keys are equal. */
  lemma AscendingExactly(runs: seq<seq<Record>>, buffer: seq<Record>, bufferPages: nat)
    requires Runs(runs) && bufferPages >= 2
    ensures (forall out :: Outcome(LargestFirst, runs, buffer, bufferPages, out) ==> Ascending(out)) <==>
      (runs == [] || (|runs| == 1 && buffer == []) || SameKeys(Everything(runs) + multiset(buffer)))
  {
    hide Key, Ascending, Merged, Everything, SameKeys;
    if runs == [] {
      assert forall out :: Outcome(LargestFirst, runs, buffer, bufferPages, out) ==> Ascending(out);
    } else if |runs| == 1 && buffer == [] {
      assert forall out :: Outcome(LargestFirst, runs, buffer, bufferPages, out) ==> Ascending(out);
    } else if SameKeys(Everything(runs) + multiset(buffer)) {
      forall out | Outcome(LargestFirst, runs, buffer, bufferPages, out) ensures Ascending(out) {
        var all := OutcomeLists(LargestFirst, runs, buffer, bufferPages, out);
        PassesKeep(LargestFirst, all, bufferPages, out);
        EqualKeysAscend(out);
      }
    } else {
      var out := SomeDisorder(runs, buffer, bufferPages);
    }
  }

  lemma SomeDisorder(runs: seq<seq<Record>>, buffer: seq<Record>, bufferPages: nat) returns (out: seq<Record>)
    requires Runs(runs) && bufferPages >= 2 && runs != [] && (|runs| >= 2 || buffer != [])
    requires !SameKeys(Everything(runs) + multiset(buffer))
    ensures Outcome(LargestFirst, runs, buffer, bufferPages, out) && !Ascending(out)
  {
    hide Key, Ascending, Merged, Passes, SameKeys;
    if buffer == [] {
      assert Everything(runs) + multiset(buffer) == Everything(runs);
      out := PassesDisorder(runs, bufferPages);
    } else {
      var last := SortExists(buffer);
      LastListed(runs, buffer, last);
      out := PassesDisorder(runs + [last], bufferPages);
    }
  }

  lemma SmallestAlways(runs: seq<seq<Record>>, buffer: seq<Record>, bufferPages: nat, out: seq<Record>)
    requires Runs(runs) && Outcome(SmallestFirst, runs, buffer, bufferPages, out)
    ensures Ascending(out)
  {
    if runs != [] {
      var all := OutcomeLists(SmallestFirst, runs, buffer, bufferPages, out);
      SmallestFirstAscends(all, bufferPages, out);
    }
  }

  // ---------------------------------------------------------------- the sorter

  class ExternalSorter {
    const pageSize: nat
    const bufferPages: nat
    var insertionPhase: bool
    var totalEntries: nat
    var buffer: seq<Record>
    var stI: nat
    var runs: seq<seq<Record>>
    var sorted: bool
    var sortedFile: seq<Record>

    ghost predicate Consistent()
      reads this
    {
      && pageSize >= 1 && bufferPages >= 2 && stI <= |buffer| && Runs(runs)
      && (insertionPhase ==> !sorted && stI == 0 && totalEntries == |Rest()|)
    }

    ghost predicate Valid()
      reads this
    {
      Consistent() && (insertionPhase ==> FullRuns(runs, pageSize * bufferPages) && |buffer| < pageSize * bufferPages)
    }

    /** All records that have not been handed out. */
    ghost function Rest(): multiset<Record>
      reads this
    {
      if insertionPhase then Everything(runs) + multiset(buffer) else multiset(Order())
    }

    /** After sorting: what is still to be handed out, in this order. */
    ghost function Order(): seq<Record>
      reads this
    {
      if sorted then sortedFile else if stI <= |buffer| then buffer[stI..] else []
    }

    constructor (pageSize: nat, bufferPages: nat)
      requires pageSize >= 1 && bufferPages >= 2
      ensures Valid() && insertionPhase && Rest() == multiset{} && totalEntries == 0 && runs == [] && buffer == []
      ensures this.pageSize == pageSize && this.bufferPages == bufferPages
    {
      this.pageSize, this.bufferPages := pageSize, bufferPages;
      insertionPhase, totalEntries, buffer, stI, runs, sorted, sortedFile := true, 0, [], 0, [], false, [];
      RunSizePositive(pageSize, bufferPages);
    }

    /** `insert`: refused once the input is sorted; a full buffer becomes a sorted run. */
    method Insert(r: Record) returns (ok: bool)
      requires Valid()
      modifies this
      ensures Valid() && (ok <==> old(insertionPhase)) && insertionPhase == old(insertionPhase)
      ensures ok ==> Rest() == old(Rest()) + multiset{r} && totalEntries == old(totalEntries) + 1
      ensures !ok ==> Order() == old(Order()) && totalEntries == old(totalEntries)
    {
      hide *;
      if !insertionPhase {
        Handing(this);
        return false;
      }
      ok := true;
      InsertFacts(this);
      buffer := buffer + [r];
      totalEntries := totalEntries + 1;
      Buffered(this, old(buffer), r, old(Rest()));
      if |buffer| >= pageSize * bufferPages {
        StoreRun();
        OneMoreFull(old(runs), runs[|runs|-1], pageSize * bufferPages);
      }
      Refilled(this);
    }

    /** The buffer is sorted and becomes a run. */
    method StoreRun()
      requires Consistent() && insertionPhase && buffer != []
      modifies this`runs, this`buffer
      ensures Consistent() && insertionPhase && Rest() == old(Rest()) && buffer == [] && |runs| == |old(runs)| + 1
      ensures runs == old(runs) + [runs[|runs|-1]] && Sorted(old(buffer), runs[|runs|-1]) && |runs[|runs|-1]| == |old(buffer)|
    {
      hide LeftToRight, Ascending, Runs, Everything;
      var run := SortRun(buffer);
      RunsMore(runs, run, buffer);
      runs := runs + [run];
      buffer := [];
      assert multiset(buffer) == multiset{};
    }

    /** `sort`: refused the second time. What is handed out afterwards is a rearrangement of what was
        inserted, and one of the outcomes of the merge passes. */
    method Sort() returns (ok: bool)
      requires Valid()
      modifies this
      ensures Valid() && !insertionPhase && (ok <==> old(insertionPhase)) && totalEntries == old(totalEntries)
      ensures ok ==> multiset(Order()) == old(Rest()) && |Order()| == totalEntries
      ensures ok ==> Outcome(LargestFirst, old(runs), old(buffer), bufferPages, Order())
      ensures ok && totalEntries <= pageSize * bufferPages ==> Ascending(Order()) && LeftToRight(Order())
      ensures !ok ==> Order() == old(Order())
    {
      if !insertionPhase {
        return false;
      }
      ok := true;
      SortsExactly(this);
      if runs == [] {
        SortInMemory();
      } else {
        SortRuns();
      }
      AscendingCentres(Order());
    }

    /** The data fits in memory. */
    method SortInMemory()
      requires Consistent() && insertionPhase && runs == []
      modifies this`buffer, this`insertionPhase
      ensures Valid() && !insertionPhase && multiset(Order()) == old(Rest()) && |Order()| == totalEntries
      ensures Sorted(old(buffer), Order())
    {
      assert Everything([]) + multiset(buffer) == multiset(buffer);
      buffer := SortRun(buffer);
      insertionPhase := false;
      assert buffer[0..] == buffer;
    }

    /** The rest of the buffer becomes the last run, and the runs are merged. */
    method SortRuns()
      requires Consistent() && insertionPhase && runs != []
      modifies this`buffer, this`insertionPhase, this`runs, this`sorted, this`sortedFile
      ensures Valid() && !insertionPhase && multiset(Order()) == old(Rest()) && |Order()| == totalEntries
      ensures Outcome(LargestFirst, old(runs), old(buffer), bufferPages, Order())
    {
      hide Everything, Merging, Ascending, Merged, Sorted, Outcome, Passes;
      if |buffer| > 0 {
        StoreRun();
      }
      OneRunFacts(this);
      OutcomeMade(LargestFirst, old(runs), old(buffer), bufferPages, runs);
      if |runs| == 1 {
        sortedFile := runs[0];
      } else {
        sortedFile := MergeAll();
      }
      sorted := true;
      insertionPhase := false;
    }

    /** The merge passes. Every pass takes some runs off the front and puts one back at the end, so with
        two buffer pages or more there are fewer runs after each pass. */
    method MergeAll() returns (file: seq<Record>)
      requires pageSize >= 1 && bufferPages >= 2 && |runs| >= 2 && forall i :: 0 <= i < |runs| ==> runs[i] != []
      modifies this`runs
      ensures Passes(LargestFirst, old(runs), bufferPages, file)
      ensures multiset(file) == old(Everything(runs)) && runs == []
    {
      hide *;
      file := [];
      while true
        invariant |runs| >= 2 && forall i :: 0 <= i < |runs| ==> runs[i] != []
        invariant Everything(runs) == old(Everything(runs))
        invariant forall f :: Passes(LargestFirst, runs, bufferPages, f) ==> Passes(LargestFirst, old(runs), bufferPages, f)
        decreases |runs|
      {
        ghost var before := runs;
        file := MergePass();
        PassesStep(LargestFirst, before, bufferPages, file);
        if runs == [] {
          break;
        }
        runs := runs + [file];
      }
    }

    /** One pass over the first runs of the list, as many as there are buffer pages. */
    method MergePass() returns (file: seq<Record>)
      requires pageSize >= 1 && bufferPages >= 2 && |runs| >= 2 && forall i :: 0 <= i < |runs| ==> runs[i] != []
      modifies this`runs
      ensures file != [] && |runs| + 2 <= |old(runs)| && forall i :: 0 <= i < |runs| ==> runs[i] != []
      ensures Everything(runs + [file]) == old(Everything(runs)) && (runs == [] ==> multiset(file) == old(Everything(runs)))
      ensures runs == old(runs)[Group(old(runs), bufferPages)..]
      ensures Merged(LargestFirst, old(runs)[..Group(old(runs), bufferPages)], file)
    {
      hide *;
      var u32Count := Group(runs, bufferPages);
      GroupBounds(runs, bufferPages);
      file := MergeRuns(runs[..u32Count], pageSize);
      MergedAll(LargestFirst, runs, u32Count, file);
      assert runs[..|runs|] == runs;
      runs := runs[u32Count..];
    }

    /** `getNextRecord`: refused before sorting and at the end of the input. */
    method GetNextRecord() returns (ok: bool, r: Record)
      requires Valid()
      modifies this`stI, this`sortedFile
      ensures Valid() && insertionPhase == old(insertionPhase) && totalEntries == old(totalEntries)
      ensures ok <==> !insertionPhase && old(Order()) != []
      ensures ok ==> r == old(Order()[0]) && Order() == old(Order())[1..]
      ensures !ok ==> Order() == old(Order())
    {
      r := Record(Entry(Geometry.Infinite(0), 0, []), 0);
      if insertionPhase {
        return false, r;
      }
      if !sorted {
        if stI < |buffer| {
          r := buffer[stI];
          stI := stI + 1;
          return true, r;
        }
        return false, r;
      }
      if sortedFile == [] {
        return false, r;
      }
      r := sortedFile[0];
      sortedFile := sortedFile[1..];
      ok := true;
    }
  }

  /** How many runs a pass merges. */
  function Group(runs: seq<seq<Record>>, bufferPages: nat): nat {
    if |runs| < bufferPages then |runs| else bufferPages
  }

  lemma GroupBounds(runs: seq<seq<Record>>, bufferPages: nat)
    requires |runs| >= 2 && bufferPages >= 2
    ensures 2 <= Group(runs, bufferPages) <= |runs|
  {
  }

  lemma PassesStep(c: Comparator, runs: seq<seq<Record>>, bufferPages: nat, file: seq<Record>)
    requires |runs| >= 2 && bufferPages >= 2 && Merged(c, runs[..Group(runs, bufferPages)], file)
    ensures var rest := runs[Group(runs, bufferPages)..];
      if rest == [] then Passes(c, runs, bufferPages, file)
      else forall f :: Passes(c, rest + [file], bufferPages, f) ==> Passes(c, runs, bufferPages, f)
  {
    hide Merged;
    if |runs| <= bufferPages {
      assert runs[..|runs|] == runs;
    }
  }

  ghost predicate FullRuns(runs: seq<seq<Record>>, size: nat) {
    forall i :: 0 <= i < |runs| ==> |runs[i]| == size
  }

  lemma RunSizePositive(pageSize: nat, bufferPages: nat)
    requires pageSize >= 1 && bufferPages >= 2
    ensures pageSize * bufferPages >= 2
  {
  }

  lemma {:induction false} FullRunsHold(runs: seq<seq<Record>>, size: nat)
    requires FullRuns(runs, size)
    ensures runs == [] ==> |Everything(runs)| == 0
    ensures |runs| == 1 ==> |Everything(runs)| == size
    ensures |runs| >= 2 ==> |Everything(runs)| >= 2 * size
  {
    if runs != [] {
      FullRunsHold(runs[..|runs|-1], size);
    }
  }

  /** Before `sort`: every outcome is ascending exactly if no more was inserted than the buffer holds,
      or all keys are equal. */
  lemma SortsExactly(d: ExternalSorter)
    requires d.Valid() && d.insertionPhase
    ensures (forall out :: Outcome(LargestFirst, d.runs, d.buffer, d.bufferPages, out) ==> Ascending(out)) <==>
      (d.totalEntries <= d.pageSize * d.bufferPages || SameKeys(d.Rest()))
  {
    RunSizePositive(d.pageSize, d.bufferPages);
    FullRunsHold(d.runs, d.pageSize * d.bufferPages);
    AscendingExactly(d.runs, d.buffer, d.bufferPages);
  }

  lemma Handing(d: ExternalSorter)
    requires d.Valid() && !d.insertionPhase
    ensures d.Valid() && d.Rest() == multiset(d.Order())
  {
  }

  lemma InsertFacts(d: ExternalSorter)
    requires d.Valid() && d.insertionPhase
    ensures d.Consistent() && FullRuns(d.runs, d.pageSize * d.bufferPages) && |d.buffer| < d.pageSize * d.bufferPages
    ensures d.pageSize >= 1 && d.bufferPages >= 2 && Runs(d.runs) && !d.sorted && d.stI == 0 && d.totalEntries == |d.Rest()|
    ensures d.Rest() == Everything(d.runs) + multiset(d.buffer)
  {
  }

  lemma Buffered(d: ExternalSorter, buffer: seq<Record>, r: Record, rest: multiset<Record>)
    requires d.pageSize >= 1 && d.bufferPages >= 2 && Runs(d.runs) && d.insertionPhase && !d.sorted && d.stI == 0
    requires d.buffer == buffer + [r] && rest == Everything(d.runs) + multiset(buffer) && d.totalEntries == |rest| + 1
    ensures d.Consistent() && d.Rest() == rest + multiset{r} && d.buffer != []
  {
    assert Everything(d.runs) + multiset(d.buffer) == (Everything(d.runs) + multiset(buffer)) + multiset{r};
  }

  lemma OneMoreFull(runs: seq<seq<Record>>, run: seq<Record>, size: nat)
    requires FullRuns(runs, size) && |run| == size
    ensures FullRuns(runs + [run], size)
  {
  }

  lemma Refilled(d: ExternalSorter)
    requires d.Consistent() && FullRuns(d.runs, d.pageSize * d.bufferPages)
    requires |d.buffer| < d.pageSize * d.bufferPages || d.buffer == []
    ensures d.Valid()
  {
    RunSizePositive(d.pageSize, d.bufferPages);
  }

  lemma OneRunFacts(d: ExternalSorter)
    requires d.Consistent() && d.insertionPhase && d.buffer == []
    ensures d.Rest() == Everything(d.runs) && |Everything(d.runs)| == d.totalEntries
    ensures |d.runs| == 1 ==> Everything(d.runs) == multiset(d.runs[0]) && Ascending(d.runs[0])
  {
    assert Everything(d.runs) + multiset([]) == Everything(d.runs);
    if |d.runs| == 1 {
      OneRun(d.runs);
    }
  }

  /** The outcomes when the rest of the buffer has become the last run. */
  lemma OutcomeMade(c: Comparator, runs: seq<seq<Record>>, buffer: seq<Record>, bufferPages: nat, now: seq<seq<Record>>)
    requires runs != [] && if buffer == [] then now == runs else now != [] && now == runs + [now[|now|-1]] && Sorted(buffer, now[|now|-1])
    ensures forall file :: Passes(c, now, bufferPages, file) ==> Outcome(c, runs, buffer, bufferPages, file)
    ensures |now| == 1 ==> Passes(c, now, bufferPages, now[0])
  {
    hide Sorted;
  }

  lemma OneRun(runs: seq<seq<Record>>)
    requires |runs| == 1
    ensures Everything(runs) == multiset(runs[0]) && Everything(runs) + multiset([]) == multiset(runs[0])
  {
    assert runs[..0] == [];
  }

  lemma {:induction false} EverythingSplit(a: seq<seq<Record>>, b: seq<seq<Record>>)
    ensures Everything(a + b) == Everything(a) + Everything(b)
  {
    if b == [] {
      assert a + b == a;
    } else {
      var most := b[..|b|-1];
      EverythingSplit(a, most);
      assert (a + b)[..|a + b|-1] == a + most;
    }
  }

  lemma MergedAll(c: Comparator, runs: seq<seq<Record>>, count: nat, file: seq<Record>)
    requires 1 <= count <= |runs| && Merged(c, runs[..count], file)
    requires forall i :: 0 <= i < |runs| ==> runs[i] != []
    ensures Everything(runs[count..] + [file]) == Everything(runs) && file != []
    ensures count == |runs| ==> multiset(file) == Everything(runs)
  {
    MergedKeeps(c, runs[..count], file);
    EverythingSplit(runs[..count], runs[count..]);
    assert runs == runs[..count] + runs[count..];
    EverythingSplit(runs[count..], [file]);
    OneRun([file]);
    HeadIn(runs[..count], 0);
    assert Everything(runs[..count]) == multiset(file);
    assert count == |runs| ==> runs[count..] == [];
  }
}
