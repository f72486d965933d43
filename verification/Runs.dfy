/** Whole runs of insertions and deletions against a linear scan over the stored entries. */
module RTreeRuns {
  import opened Geometry
  import opened Pages
  import opened RTreeNode
  import opened RTreeModel
  import opened RTreeDeletion
  import opened RTreeValidity

  datatype Op = Insert(mbr: Region, id: Id, data: seq<bv8>) | Delete(mbr: Region, id: Id)

  /** No two stored entries share an id. */
  ghost predicate UniqueIds(data: multiset<Entry>) {
    && (forall x, y {:trigger data[x], data[y]} :: x in data && y in data && x.id == y.id ==> x == y)
    && (forall x :: x in data ==> data[x] == 1)
  }

  /** The linear scan: an insertion adds its entry, a deletion takes the entry that matches. */
  ghost function Scan(data: multiset<Entry>, op: Op, dim: nat): multiset<Entry> {
    if |op.mbr.low| != dim then data
    else match op
      case Insert(mbr, id, bytes) => data + multiset{Entry(mbr, id, bytes)}
      case Delete(mbr, id) =>
        if x :| x in data && Matches(x, mbr, id) then data - multiset{x} else data
  }

  ghost function ScanAll(start: multiset<Entry>, ops: seq<Op>, dim: nat): multiset<Entry> {
    if ops == [] then start else Scan(ScanAll(start, ops[..|ops|-1], dim), ops[|ops|-1], dim)
  }

  /** What the scan answers: whether the insertion was accepted, whether the deletion found it. */
  ghost predicate Answer(data: multiset<Entry>, op: Op, dim: nat) {
    |op.mbr.low| == dim && (op.Delete? ==> Stored(data, op.mbr, op.id))
  }

  /** Every box is a box, and no insertion reuses an id that is stored at that moment. */
  ghost predicate Proceeds(start: multiset<Entry>, ops: seq<Op>, dim: nat) {
    && (forall i :: 0 <= i < |ops| ==> |ops[i].mbr.low| == |ops[i].mbr.high|)
    && (forall i :: 0 <= i < |ops| && ops[i].Insert? ==> Unused(ScanAll(start, ops[..i], dim), ops[i].id))
  }

  ghost predicate Unused(data: multiset<Entry>, id: Id) {
    forall x :: x in data ==> x.id != id
  }

  lemma ScanUnique(data: multiset<Entry>, op: Op, dim: nat)
    requires UniqueIds(data) && (op.Insert? ==> Unused(data, op.id))
    ensures UniqueIds(Scan(data, op, dim))
  {
    var after := Scan(data, op, dim);
    if op.Insert? && |op.mbr.low| == dim {
      var e := Entry(op.mbr, op.id, op.data);
      assert e !in data && after == data + multiset{e};
      assert forall x :: x in after ==> x in data || x == e;
      assert forall x :: after[x] == data[x] + (if x == e then 1 else 0);
    } else {
      assert forall x :: after[x] <= data[x];
      assert forall x :: x in after ==> x in data;
    }
  }

  /** With unique ids, whichever entry with the id leaves, it is the one the scan takes. */
  lemma DeleteAgrees(data: multiset<Entry>, mbr: Region, id: Id, dim: nat, gone: Entry, rest: multiset<Entry>)
    requires UniqueIds(data) && Stored(data, mbr, id) && |mbr.low| == dim
    requires gone.id == id && rest + multiset{gone} == data
    ensures Matches(gone, mbr, id) && rest == Scan(data, Delete(mbr, id), dim)
  {
    var x :| x in data && Matches(x, mbr, id);
    assert gone in data;
    assert data[x] == 1 && data[gone] == 1;
    assert rest == data - multiset{gone};
  }

  lemma TakenId(pages: map<Id, Page>, root: Id, mbr: Region, id: Id, gone: Entry)
    requires Taken(pages, root, mbr, id, gone)
    ensures gone.id == id
  {
  }

  lemma ProceedsAt(start: multiset<Entry>, ops: seq<Op>, dim: nat, i: nat)
    requires Proceeds(start, ops, dim) && i < |ops|
    ensures |ops[i].mbr.low| == |ops[i].mbr.high| && ops[..i+1][..i] == ops[..i] && ops[..i+1][i] == ops[i]
    ensures ops[i].Insert? ==> Unused(ScanAll(start, ops[..i], dim), ops[i].id)
    ensures ScanAll(start, ops[..i+1], dim) == Scan(ScanAll(start, ops[..i], dim), ops[i], dim)
  {
    assert ops[..i+1][..i] == ops[..i];
  }

  /** One operation on the tree, and what the scan does. */
  method Apply(t: RTree, op: Op) returns (ret: bool)
    requires t.Ragged() && UniqueIds(Data(t.pages)) && |op.mbr.low| == |op.mbr.high|
    requires op.Insert? ==> Unused(Data(t.pages), op.id)
    modifies t
    ensures t.Ragged() && (old(t.Valid()) ==> t.Valid()) && Data(t.pages) == Scan(old(Data(t.pages)), op, t.P.dim)
    ensures ret <==> Answer(old(Data(t.pages)), op, t.P.dim)
  {
    ghost var before, was := t.pages, Data(t.pages);
    hide RTree.Between, Data, UniqueIds, Unused, Stored, Taken;
    t.RaggedWorking();
    match op
    case Insert(mbr, id, bytes) =>
      ret := t.Insert(bytes, mbr, id);
    case Delete(mbr, id) =>
      var ok;
      ghost var gone;
      ok, ret, gone := RTreeDeletion.Delete(t, mbr, id);
      if ret {
        TakenId(before, t.rootID, mbr, id, gone);
        DeleteAgrees(was, mbr, id, t.P.dim, gone, Data(t.pages));
      } else {
        NothingTaken(was, mbr, id, t.P.dim);
      }
  }

  lemma NothingTaken(data: multiset<Entry>, mbr: Region, id: Id, dim: nat)
    requires |mbr.low| != dim || !Stored(data, mbr, id)
    ensures Scan(data, Delete(mbr, id), dim) == data
  {
  }

  lemma ScanNone(start: multiset<Entry>, ops: seq<Op>, dim: nat)
    ensures ScanAll(start, ops[..0], dim) == start && UniqueIds(multiset{})
  {
  }

  /** A run on a tree that holds some data already: the tree is kept in order all along, it stores what a
      linear scan stores, and its answers are the scan's answers. */
  method RunOn(t: RTree, ops: seq<Op>) returns (rets: seq<bool>)
    requires t.Ragged() && UniqueIds(Data(t.pages)) && Proceeds(Data(t.pages), ops, t.P.dim)
    modifies t
    ensures t.Ragged() && (old(t.Valid()) ==> t.Valid())
    ensures Data(t.pages) == ScanAll(old(Data(t.pages)), ops, t.P.dim) && UniqueIds(Data(t.pages))
    ensures |rets| == |ops| && forall i :: 0 <= i < |ops| ==> (rets[i] <==> Answer(ScanAll(old(Data(t.pages)), ops[..i], t.P.dim), ops[i], t.P.dim))
  {
    hide *;
    ghost var start := Data(t.pages);
    ScanNone(start, ops, t.P.dim);
    rets := [];
    for i := 0 to |ops|
      invariant t.Ragged() && (old(t.Valid()) ==> t.Valid())
      invariant Data(t.pages) == ScanAll(start, ops[..i], t.P.dim) && UniqueIds(Data(t.pages))
      invariant |rets| == i && forall j :: 0 <= j < i ==> (rets[j] <==> Answer(ScanAll(start, ops[..j], t.P.dim), ops[j], t.P.dim))
    {
      ProceedsAt(start, ops, t.P.dim, i);
      ScanUnique(Data(t.pages), ops[i], t.P.dim);
      var ret := Apply(t, ops[i]);
      rets := rets + [ret];
    }
    assert ops[..|ops|] == ops;
  }

  /** Every run from an empty tree: besides, a tight tree passes its own check afterwards. */
  method Run(P: Params, root: Id, ops: seq<Op>) returns (t: RTree, rets: seq<bool>, valid: bool)
    requires P.Sane() && root >= 0 && Proceeds(multiset{}, ops, P.dim)
    ensures fresh(t) && t.Valid() && t.P == P && (valid <==> forall p :: p in t.pages ==> Exact(P, t.pages[p])) && (P.tight ==> valid)
    ensures Data(t.pages) == ScanAll(multiset{}, ops, P.dim) && UniqueIds(Data(t.pages))
    ensures |rets| == |ops| && forall i :: 0 <= i < |ops| ==> (rets[i] <==> Answer(ScanAll(multiset{}, ops[..i], P.dim), ops[i], P.dim))
  {
    hide *;
    ScanNone(multiset{}, ops, P.dim);
    t := new RTree(P, root);
    t.ValidFull();
    t.FullRagged();
    rets := RunOn(t, ops);
    ValidPasses(t);
    valid := IsIndexValid(t);
  }
}
