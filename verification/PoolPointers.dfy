/** Shared ownership without counters: all copies of a pool pointer are linked in one ring, and the
    last one to leave gives the object back to its pool. */
module PoolPointers {
  import opened Lists

  /** An object that pointers refer to. */
  class Obj {
    constructor () {}
  }

  class PointerPool {
    const capacity: nat
    var pool: seq<Obj>
    ghost var deleted: set<Obj>

    constructor (capacity: nat)
      ensures this.capacity == capacity && pool == [] && deleted == {}
    {
      this.capacity := capacity;
      pool := [];
      deleted := {};
    }

    /** Takes the object on top of the stack, or makes a new one. */
    method Acquire() returns (p: Obj)
      modifies this`pool
      ensures if old(pool) == [] then fresh(p) && pool == [] else old(pool) == pool + [p]
    {
      if pool != [] {
        p := pool[|pool|-1];
        pool := pool[..|pool|-1];
      } else {
        p := new Obj();
      }
    }

    /** Keeps the object for later, or deletes it when the stack is full. */
    method Release(p: Obj)
      modifies this`pool, this`deleted
      ensures if |old(pool)| < capacity then pool == old(pool) + [p] && deleted == old(deleted)
              else pool == old(pool) && deleted == old(deleted) + {p}
    {
      if |pool| < capacity {
        pool := pool + [p];
      } else {
        deleted := deleted + {p};
      }
    }
  }

  function After(i: nat, n: nat): (j: nat)
    requires i < n
    ensures j < n
  {
    if i + 1 == n then 0 else i + 1
  }

  function Before(i: nat, n: nat): (j: nat)
    requires i < n
    ensures j < n
  {
    if i == 0 then n - 1 else i - 1
  }

  /** The links of the i-th pointer of a list. */
  ghost function NextOf(r: seq<PoolPointer>, i: nat): PoolPointer?
    requires i < |r|
    reads r`next
  {
    r[i].next
  }

  ghost function PrevOf(r: seq<PoolPointer>, i: nat): PoolPointer?
    requires i < |r|
    reads r`prev
  {
    r[i].prev
  }

  ghost predicate NextRight(r: seq<PoolPointer>)
    reads r`next
  {
    forall i {:trigger NextOf(r, i)} :: 0 <= i < |r| ==> NextOf(r, i) == r[After(i, |r|)]
  }

  ghost predicate PrevRight(r: seq<PoolPointer>)
    reads r`prev
  {
    forall i {:trigger PrevOf(r, i)} :: 0 <= i < |r| ==> PrevOf(r, i) == r[Before(i, |r|)]
  }

  class PoolPointer {
    var pointer: Obj?
    var prev: PoolPointer?
    var next: PoolPointer?
    var pool: PointerPool?
    ghost var ring: seq<PoolPointer>

    /** `r` is a circular doubly linked ring of different pointers, all to the same object of the same
        pool. */
    static ghost predicate IsRing(r: seq<PoolPointer>, pointer: Obj?, pool: PointerPool?)
      reads r
    {
      && NoDuplicates(r)
      && (forall m :: m in r ==> m.ring == r && m.pointer == pointer && m.pool == pool)
      && NextRight(r) && PrevRight(r)
    }

    /** Either a member of a ring, or detached and pointing to nothing. */
    ghost predicate Valid()
      reads this, ring
    {
      && (pool != null ==> pointer != null)
      && if ring == [] then prev == null && next == null && pointer == null && pool == null
         else this in ring && IsRing(ring, pointer, pool)
    }

    /** Like `Valid`, but this pointer may already have let go of the object that the rest of its ring,
        with owner `o` and pool `pl`, refers to. */
    ghost predicate Loose(o: Obj?, pl: PointerPool?)
      reads this, ring
    {
      && (pool != null ==> pointer != null)
      && if ring == [] then prev == null && next == null && pointer == null && pool == null
         else
           && this in ring && NoDuplicates(ring) && NextRight(ring) && PrevRight(ring)
           && (forall m :: m in ring ==> m.ring == ring && (m != this ==> m.pointer == o && m.pool == pl))
    }

    constructor (p: Obj?, pool: PointerPool?)
      requires pool != null ==> p != null
      ensures Valid() && ring == [this] && pointer == p && this.pool == pool
    {
      pointer, this.pool := p, pool;
      prev, next := this, this;
      ring := [this];
    }

    /** Storage for a pointer that has not acquired anything yet. */
    constructor Blank()
      ensures Valid() && ring == [] && pointer == null
    {
      pointer, pool, prev, next, ring := null, null, null, null, [];
    }

    method Unique(ghost o: Obj?, ghost pl: PointerPool?) returns (b: bool)
      requires Loose(o, pl)
      ensures b <==> |ring| <= 1
    {
      b := if prev != null then prev == this else true;
      ghost var k: nat := 0;
      if ring != [] {
        k :| 0 <= k < |ring| && ring[k] == this;
        assert PrevOf(ring, k) == ring[Before(k, |ring|)];
        assert Before(k, |ring|) != k || |ring| == 1;
      }
    }

    /** Links this pointer into the ring of `p`, right behind `p`. A detached `p` has no neighbour:
        the code then writes through a null pointer, so the step fails. */
    method Acquire(p: PoolPointer) returns (ok: bool)
      requires Valid() && |ring| <= 1 && p.Valid() && p != this
      modifies this, p.ring
      ensures ok <==> old(p.ring) != []
      ensures ok ==> Joined(old(p.ring), p, this, old(p.pointer), old(p.pool))
      ensures ok ==> pointer == old(p.pointer) && pool == old(p.pool)
    {
      hide *;
      p.NextNull();
      if p.next == null {
        return false;
      }
      ok := true;
      ghost var r := p.ring;
      p.LooseValid();
      ghost var k := p.Place(p.pointer, p.pool);
      OutsideRing(this, p);
      ghost var s := Linked(r, k, this);
      LinkedAt(r, k, this);
      pool := p.pool;
      pointer := p.pointer;
      Insert(r, k, p, p.next);
      forall m | m in s {
        m.ring := s;
      }
      assert r[k] in r;
      forall m | m in s ensures m.pointer == pointer && m.pool == pool {
        LinkedMember(r, k, this, m);
      }
      RingMade(s, pointer, pool);
      JoinedAt(r, k, this, pointer, pool);
    }

    /** The pointer writes: this pointer is linked between `p` and what followed it. */
    method Insert(ghost r: seq<PoolPointer>, ghost k: nat, p: PoolPointer, after: PoolPointer)
      requires k < |r| && r[k] == p && NoDuplicates(r) && this !in r && NextRight(r) && PrevRight(r)
      requires after == p.next == r[After(k, |r|)]
      modifies this`prev, this`next, p`next, after`prev
      ensures NextRight(Linked(r, k, this)) && PrevRight(Linked(r, k, this))
    {
      hide NoDuplicates, Linked, After, Before;
      ghost var s := Linked(r, k, this);
      next := after;
      after.prev := this;
      prev := p;
      p.next := this;
      forall i | 0 <= i < |r| + 1 ensures NextOf(s, i) == s[After(i, |r| + 1)] {
        LinkedNeighbours(r, k, this, i);
        ghost var j := if i <= k then i else i - 1;
        assert r[j] in r && old(NextOf(r, j)) == r[After(j, |r|)];
      }
      forall i | 0 <= i < |r| + 1 ensures PrevOf(s, i) == s[Before(i, |r| + 1)] {
        LinkedNeighbours(r, k, this, i);
        ghost var j := if i <= k then i else i - 1;
        assert r[j] in r && old(PrevOf(r, j)) == r[Before(j, |r|)];
      }
    }

    /** `release` of the only pointer to an object of a pool: the pool gets it back. */
    method ReturnLast(ghost o: Obj?, ghost pl: PointerPool?)
      requires Loose(o, pl) && |ring| <= 1 && pool != null
      modifies this`pointer, this`pool, pool
      ensures Valid() && pointer == null && pool == null
      ensures Returned(old(pool), old(pointer), old(pool.pool), old(pool.deleted))
    {
      pool.Release(pointer);
      pointer := null;
      pool := null;
    }

    /** `release` of the only pointer to an object without a pool, which deletes the object. */
    method DropLast(ghost o: Obj?, ghost pl: PointerPool?)
      requires Loose(o, pl) && |ring| <= 1 && pool == null
      modifies this`pointer
      ensures Valid() && pointer == null
    {
      pointer := null;
    }

    /** `relinquish` of the only pointer to an object: nothing is given back. */
    method Forget()
      requires Valid() && |ring| <= 1
      modifies this`pointer, this`pool
      ensures Valid() && pointer == null && pool == null
    {
      pool := null;
      pointer := null;
    }

    /** `release` of a pointer that shares its object: it leaves a ring of at least two. */
    method Unlink(ghost o: Obj?, ghost pl: PointerPool?)
      requires Loose(o, pl) && |ring| > 1
      modifies this, ring
      ensures Valid() && ring == [] && pointer == null && pool == null
      ensures Left(old(ring), this, o, pl)
    {
      hide *;
      ghost var r := ring;
      ghost var k := Place(o, pl);
      ghost var s := Unlinked(r, k);
      UnlinkedAt(r, k);
      Bypass(r, k, prev, next);
      forall m | m in s {
        m.ring := s;
      }
      ring := [];
      pointer := null;
      pool := null;
      forall m | m in s ensures m.pointer == o && m.pool == pl {
        UnlinkedMember(r, k, m);
      }
      RingMade(s, o, pl);
      LeftAt(r, k, o, pl);
      DetachedValid(this);
    }

    /** Leaves a shared object; a pointer that is relinquished forgets the object first. */
    method Part(relinquished: bool)
      requires Valid() && |ring| > 1
      modifies this, ring
      ensures Valid() && ring == [] && pointer == null && pool == null
      ensures Left(old(ring), this, old(pointer), old(pool))
    {
      ghost var o, pl := pointer, pool;
      if relinquished {
        pool := null;
        pointer := null;
      }
      Unlink(o, pl);
    }

    /** The pointer writes: both neighbours are linked to each other. */
    method Bypass(ghost r: seq<PoolPointer>, ghost k: nat, before: PoolPointer, after: PoolPointer)
      requires k < |r| && |r| > 1 && r[k] == this && NoDuplicates(r) && NextRight(r) && PrevRight(r)
      requires before == prev == r[Before(k, |r|)] && after == next == r[After(k, |r|)]
      modifies this`prev, this`next, before`next, after`prev
      ensures prev == null && next == null
      ensures NextRight(Unlinked(r, k)) && PrevRight(Unlinked(r, k))
    {
      hide NoDuplicates, Unlinked, After, Before;
      ghost var s := Unlinked(r, k);
      before.next := after;
      after.prev := before;
      prev, next := null, null;
      forall i | 0 <= i < |r| - 1 ensures NextOf(s, i) == s[After(i, |r| - 1)] {
        UnlinkedNeighbours(r, k, i);
        ghost var j := if i < k then i else i + 1;
        assert old(NextOf(r, j)) == r[After(j, |r|)];
      }
      forall i | 0 <= i < |r| - 1 ensures PrevOf(s, i) == s[Before(i, |r| - 1)] {
        UnlinkedNeighbours(r, k, i);
        ghost var j := if i < k then i else i + 1;
        assert old(PrevOf(r, j)) == r[Before(j, |r|)];
      }
    }

    /** The pointers that share this one's object, itself among them. */
    ghost function Members(): set<PoolPointer>
      reads this`ring
    {
      set m | m in ring
    }

    lemma NextNull()
      requires Valid()
      ensures next == null <==> ring == []
    {
      if ring != [] {
        LooseValid();
        var k := Place(pointer, pool);
      }
    }

    lemma LooseValid()
      ensures Valid() <==> Loose(pointer, pool)
    {
    }

    /** The position of this pointer in its ring, and its neighbours there. */
    lemma Place(o: Obj?, pl: PointerPool?) returns (k: nat)
      requires Loose(o, pl) && ring != []
      ensures k < |ring| && ring[k] == this && NoDuplicates(ring)
      ensures next == ring[After(k, |ring|)] && prev == ring[Before(k, |ring|)]
      ensures forall m :: m in ring ==> m.ring == ring && (m != this ==> m.pointer == o && m.pool == pl)
      ensures NextRight(ring) && PrevRight(ring)
    {
      k :| 0 <= k < |ring| && ring[k] == this;
      assert NextOf(ring, k) == ring[After(k, |ring|)] && PrevOf(ring, k) == ring[Before(k, |ring|)];
    }
  }

  lemma DetachedValid(x: PoolPointer)
    requires x.ring == [] && x.prev == null && x.next == null && x.pointer == null && x.pool == null
    ensures x.Valid()
  {
  }

  lemma JoinedAt(r: seq<PoolPointer>, k: nat, x: PoolPointer, pointer: Obj?, pool: PointerPool?)
    requires k < |r| && PoolPointer.IsRing(Linked(r, k, x), pointer, pool)
    ensures Joined(r, r[k], x, pointer, pool)
  {
  }

  lemma LeftAt(r: seq<PoolPointer>, k: nat, pointer: Obj?, pool: PointerPool?)
    requires k < |r| && PoolPointer.IsRing(Unlinked(r, k), pointer, pool)
    ensures Left(r, r[k], pointer, pool)
  {
  }

  lemma RingMade(r: seq<PoolPointer>, pointer: Obj?, pool: PointerPool?)
    requires NoDuplicates(r)
    requires NextRight(r) && PrevRight(r)
    requires forall m :: m in r ==> m.ring == r && m.pointer == pointer && m.pool == pool
    ensures PoolPointer.IsRing(r, pointer, pool)
  {
  }

  lemma OutsideRing(x: PoolPointer, p: PoolPointer)
    requires x.Valid() && |x.ring| <= 1 && p.Valid() && p.ring != [] && p != x
    ensures x !in p.ring
  {
    assert p in p.ring && forall m :: m in p.ring ==> m.ring == p.ring;
    if |p.ring| == 1 {
      assert p.ring == [p];
    }
  }

  /** What giving an object back does to its pool. */
  ghost predicate Returned(pool: PointerPool, o: Obj?, was: seq<Obj>, deleted: set<Obj>)
    reads pool
  {
    o != null
    && if |was| < pool.capacity then pool.pool == was + [o] && pool.deleted == deleted
       else pool.pool == was && pool.deleted == deleted + {o}
  }

  /** `x` has joined the ring `r` right behind `p`. */
  ghost predicate Joined(r: seq<PoolPointer>, p: PoolPointer, x: PoolPointer, pointer: Obj?, pool: PointerPool?)
    reads r, x
  {
    exists k :: 0 <= k < |r| && r[k] == p && PoolPointer.IsRing(Linked(r, k, x), pointer, pool)
  }

  /** `x` has left the ring `r`, and the others still form one. */
  ghost predicate Left(r: seq<PoolPointer>, x: PoolPointer, pointer: Obj?, pool: PointerPool?)
    reads r
  {
    exists k :: 0 <= k < |r| && r[k] == x && PoolPointer.IsRing(Unlinked(r, k), pointer, pool)
  }

  ghost function Linked(r: seq<PoolPointer>, k: nat, x: PoolPointer): (s: seq<PoolPointer>)
    requires k < |r|
    ensures |s| == |r| + 1
  {
    r[..k+1] + [x] + r[k+1..]
  }

  lemma LinkedAt(r: seq<PoolPointer>, k: nat, x: PoolPointer)
    requires k < |r| && NoDuplicates(r) && x !in r
    ensures |Linked(r, k, x)| == |r| + 1 && NoDuplicates(Linked(r, k, x))
    ensures forall m :: m in Linked(r, k, x) <==> m in r || m == x
  {
    var s := Linked(r, k, x);
    forall m | m in r ensures m in s {
      var i :| 0 <= i < |r| && r[i] == m;
      assert s[if i <= k then i else i + 1] == m;
    }
  }

  lemma LeftFacts(r: seq<PoolPointer>, x: PoolPointer, o: Obj?, pl: PointerPool?) returns (k: nat)
    requires Left(r, x, o, pl) && NoDuplicates(r) && |r| > 1 && (pl != null ==> o != null)
    ensures k < |r| && r[k] == x
    ensures forall m :: m in Unlinked(r, k) <==> m in r && m != x
    ensures forall m :: m in Unlinked(r, k) ==> m.ring == Unlinked(r, k) && m.pointer == o && m.pool == pl && m.Valid()
  {
    k :| 0 <= k < |r| && r[k] == x && PoolPointer.IsRing(Unlinked(r, k), o, pl);
    UnlinkedAt(r, k);
  }

  lemma JoinedFacts(r: seq<PoolPointer>, p: PoolPointer, x: PoolPointer, o: Obj?, pl: PointerPool?) returns (k: nat)
    requires Joined(r, p, x, o, pl) && x !in r && NoDuplicates(r) && (pl != null ==> o != null)
    ensures k < |r| && r[k] == p
    ensures forall m :: m in Linked(r, k, x) <==> m in r || m == x
    ensures forall m :: m in Linked(r, k, x) ==> m.ring == Linked(r, k, x) && m.pointer == o && m.pool == pl && m.Valid()
  {
    k :| 0 <= k < |r| && r[k] == p && PoolPointer.IsRing(Linked(r, k, x), o, pl);
    LinkedAt(r, k, x);
  }

  lemma LinkedMember(r: seq<PoolPointer>, k: nat, x: PoolPointer, m: PoolPointer)
    requires k < |r| && m in Linked(r, k, x)
    ensures m in r || m == x
  {
  }

  /** The neighbours in the longer ring: `x` stands between `r[k]` and what followed it. */
  lemma LinkedNeighbours(r: seq<PoolPointer>, k: nat, x: PoolPointer, i: nat)
    requires k < |r| && i <= |r| && NoDuplicates(r) && x !in r
    ensures
      var s, n, j := Linked(r, k, x), |r| + 1, if i <= k then i else i - 1;
      && |s| == n && (i == k + 1 <==> s[i] == x) && (i != k + 1 ==> s[i] == r[j])
      && (i != k + 1 ==> (s[i] == r[k] <==> j == k) && (s[i] == r[After(k, |r|)] <==> j == After(k, |r|)))
      && s[After(i, n)] == (if i == k then x else if i == k + 1 then r[After(k, |r|)] else r[After(j, |r|)])
      && s[Before(i, n)] == (if i == k + 1 then r[k] else if j == After(k, |r|) then x else r[Before(j, |r|)])
  {
  }

  ghost function Unlinked(r: seq<PoolPointer>, k: nat): (s: seq<PoolPointer>)
    requires k < |r|
    ensures |s| == |r| - 1
  {
    r[..k] + r[k+1..]
  }

  lemma UnlinkedAt(r: seq<PoolPointer>, k: nat)
    requires k < |r| && NoDuplicates(r)
    ensures |Unlinked(r, k)| == |r| - 1 && NoDuplicates(Unlinked(r, k))
    ensures forall m :: m in Unlinked(r, k) <==> m in r && m != r[k]
  {
    var s := Unlinked(r, k);
    forall m | m in r && m != r[k] ensures m in s {
      var i :| 0 <= i < |r| && r[i] == m;
      assert s[if i < k then i else i - 1] == m;
    }
    forall m | m in s ensures m in r && m != r[k] {
      var i :| 0 <= i < |s| && s[i] == m;
    }
  }

  lemma UnlinkedMember(r: seq<PoolPointer>, k: nat, m: PoolPointer)
    requires k < |r| && NoDuplicates(r) && m in Unlinked(r, k)
    ensures m in r && m != r[k]
  {
    UnlinkedAt(r, k);
  }

  /** The neighbours in the shorter ring: what stood before and after `r[k]` are neighbours now. */
  lemma UnlinkedNeighbours(r: seq<PoolPointer>, k: nat, i: nat)
    requires k < |r| && i < |r| - 1 && NoDuplicates(r)
    ensures |Unlinked(r, k)| == |r| - 1 && Unlinked(r, k)[i] != r[k]
    ensures
      var s, n, j := Unlinked(r, k), |r| - 1, if i < k then i else i + 1;
      && |s| == n && s[i] == r[j]
      && s[After(i, n)] == (if j == Before(k, |r|) then r[After(k, |r|)] else r[After(j, |r|)])
      && s[Before(i, n)] == (if j == After(k, |r|) then r[Before(k, |r|)] else r[Before(j, |r|)])
      && (s[i] == r[Before(k, |r|)] <==> j == Before(k, |r|)) && (s[i] == r[After(k, |r|)] <==> j == After(k, |r|))
  {
    hide Unlinked, NoDuplicates;
    var n, j := |r| - 1, if i < k then i else i + 1;
    UnlinkedIndex(r, k, i);
    UnlinkedIndex(r, k, After(i, n));
    UnlinkedIndex(r, k, Before(i, n));
    SameMember(r, j, k);
    SameMember(r, j, Before(k, |r|));
    SameMember(r, j, After(k, |r|));
  }

  lemma UnlinkedIndex(r: seq<PoolPointer>, k: nat, i: nat)
    requires k < |r| && i < |r| - 1
    ensures |Unlinked(r, k)| == |r| - 1 && Unlinked(r, k)[i] == r[if i < k then i else i + 1]
  {
  }

  lemma SameMember(r: seq<PoolPointer>, a: nat, b: nat)
    requires NoDuplicates(r) && a < |r| && b < |r|
    ensures r[a] == r[b] <==> a == b
  {
  }

  // ---------------------------------------------------------------- whole programs

  /** Where an object is: referred to by the pointers of one ring, on the stack of a pool, deleted, or
      let go of for good by `relinquish`. */
  datatype Place = Held(ring: seq<PoolPointer>) | Pooled(pool: PointerPool) | Deleted | Lost

  /** A pool's stack holds different objects, all marked as pooled there, and what it deleted is marked
      as deleted. */
  ghost predicate StackAt(pl: PointerPool, stack: seq<Obj>, deleted: set<Obj>, place: map<Obj, Place>) {
    && |stack| <= pl.capacity
    && (forall i, j :: 0 <= i < j < |stack| ==> stack[i] != stack[j])
    && (forall o :: o in stack ==> o in place && place[o] == Pooled(pl))
    && (forall o :: o in deleted ==> o in place && place[o].Deleted?)
  }

  /** A held object stays held, moves to a stack, or is deleted. */
  lemma StackMoved(pl: PointerPool, stack: seq<Obj>, deleted: set<Obj>, place: map<Obj, Place>, o: Obj, to: Place)
    requires StackAt(pl, stack, deleted, place) && o in place && place[o].Held?
    ensures StackAt(pl, stack, deleted, place[o := to])
    ensures to == Pooled(pl) && |stack| < pl.capacity ==> StackAt(pl, stack + [o], deleted, place[o := to])
    ensures to == Deleted ==> StackAt(pl, stack, deleted + {o}, place[o := to])
  {
    assert o !in stack;
  }

  lemma StackTop(pl: PointerPool, stack: seq<Obj>, deleted: set<Obj>, place: map<Obj, Place>)
    requires StackAt(pl, stack, deleted, place) && stack != []
    ensures stack[|stack|-1] in place && place[stack[|stack|-1]] == Pooled(pl)
  {
    assert stack[|stack|-1] in stack;
  }

  /** An object is taken off the stack of pool `from`, or is new. */
  lemma StackTaken(pl: PointerPool, stack: seq<Obj>, deleted: set<Obj>, place: map<Obj, Place>, o: Obj, from: PointerPool, to: Place)
    requires o !in place || place[o] == Pooled(from)
    requires StackAt(pl, if pl == from && o in place then stack + [o] else stack, deleted, place)
    ensures StackAt(pl, stack, deleted, place[o := to])
  {
    if pl == from && o in place {
      var all := stack + [o];
      assert forall i :: 0 <= i < |stack| ==> all[i] == stack[i];
      assert all[|stack|] == o;
      assert forall x :: x in stack ==> x in all && x != o;
    }
  }

  /** The ring `r` without its member `x`. */
  ghost function Rest(r: seq<PoolPointer>, x: PoolPointer): seq<PoolPointer> {
    if x in r then
      var k :| 0 <= k < |r| && r[k] == x;
      Unlinked(r, k)
    else r
  }

  lemma RestAt(r: seq<PoolPointer>, x: PoolPointer, k: nat)
    requires NoDuplicates(r) && k < |r| && r[k] == x
    ensures x in r && Rest(r, x) == Unlinked(r, k)
  {
  }

  /** All the live pointers and pools of a program, and where every object made so far is. */
  class Program {
    ghost var live: set<PoolPointer>
    ghost var pools: set<PointerPool>
    ghost var place: map<Obj, Place>

    /** Every live pointer stands in a ring of live pointers, or is detached. */
    ghost predicate Rings()
      reads this`live, this`pools, live
    {
      forall m :: m in live ==> (forall x :: x in m.ring ==> x in live) && m.Valid() && (m.pool != null ==> m.pool in pools)
    }

    /** An object that a live pointer refers to is held by that pointer's ring, hence by one ring. */
    ghost predicate Holds()
      reads this, live
    {
      forall m :: m in live && m.pointer != null ==> m.pointer in place && place[m.pointer] == Held(m.ring)
    }

    /** The stacks of the pools are in order. */
    ghost predicate Stacks()
      reads this, pools
    {
      forall pl :: pl in pools ==> StackAt(pl, pl.pool, pl.deleted, place)
    }

    /** No object is forgotten: a held object has live pointers, a pooled one is on its stack. */
    ghost predicate Accounted()
      reads this, live, pools
    {
      forall o :: o in place ==>
        && (place[o].Held? ==> place[o].ring != [] && place[o].ring[0] in live && place[o].ring[0].pointer == o)
        && (place[o].Pooled? ==> place[o].pool in pools && o in place[o].pool.pool)
    }

    ghost predicate Valid()
      reads this, live, pools
    {
      Rings() && Holds() && Stacks() && Accounted()
    }

    constructor ()
      ensures Valid() && live == {} && pools == {} && place == map[]
    {
      live, pools, place := {}, {}, map[];
    }

    /** Where the objects are once `x` has left its ring: while other pointers refer to the object of
        `x`, they hold it; after the last one it is on its pool's stack, or deleted when the stack is
        full or there is no pool. */
    ghost function Parted(x: PoolPointer): map<Obj, Place>
      reads this, x, x.pool
    {
      if x.pointer == null then place
      else if |x.ring| > 1 then place[x.pointer := Held(Rest(x.ring, x))]
      else if x.pool == null || |x.pool.pool| >= x.pool.capacity then place[x.pointer := Deleted]
      else place[x.pointer := Pooled(x.pool)]
    }

    /** What the ring of `x` looks like from outside. */
    lemma RingFacts(x: PoolPointer)
      requires Valid() && x in live
      ensures x.Loose(x.pointer, x.pool) && x.Valid() && (x.pool != null ==> x.pointer != null && x.pool in pools)
      ensures forall m :: m in x.ring ==> m in live && m.ring == x.ring && m.pointer == x.pointer && m.pool == x.pool
      ensures forall m :: m in live && m !in x.ring ==> forall y :: y in m.ring ==> y !in x.ring
      ensures (x.ring == [] || x in x.ring) && NoDuplicates(x.ring)
      ensures |x.ring| <= 1 ==> forall m :: m in live && m != x ==> x !in m.ring
      ensures x.pointer != null ==> forall m :: m in live && m.pointer == x.pointer ==> m in x.ring
      ensures x.pointer != null ==> x.ring != []
    {
      assert |x.ring| == 1 ==> x.ring[0] in x.ring;
    }

    /** A pointer that is not detached is a member of its own ring. */
    lemma Sharing(x: PoolPointer)
      requires Valid() && x in live
      ensures x.ring == [] <==> x.Members() == {}
      ensures x.ring != [] ==> x in x.Members() && x in x.ring
      ensures forall m :: m in x.ring <==> m in x.Members()
    {
      if x.ring != [] {
        assert x.Valid() && x.ring[0] in x.Members();
      }
    }

    /** `release`: pointer `x` leaves its ring. */
    method Leave(x: PoolPointer)
      requires Valid() && x in live
      modifies this`place, live, pools
      ensures Valid() && x.pointer == null && x.ring == if old(|x.ring|) > 1 then [] else old(x.ring)
      ensures forall m :: m in live && m != x ==> m.pointer == old(m.pointer) && m.pool == old(m.pool)
      ensures forall m :: m in live && m != x ==> m.Members() == old(m.Members()) - {x}
      ensures place == old(Parted(x))
    {
      x.LooseValid();
      var unique := x.Unique(x.pointer, x.pool);
      if unique {
        if x.pool != null {
          LeavePooled(x);
        } else {
          LeaveBare(x);
        }
      } else {
        LeaveShared(x, false);
      }
    }

    /** A pointer that shares its object leaves; when it is relinquished it lets go of the object first. */
    method LeaveShared(x: PoolPointer, relinquished: bool)
      requires Valid() && x in live && |x.ring| > 1 && x in x.ring
      modifies this`place, live
      ensures Valid() && x.pointer == null && x.ring == []
      ensures forall m :: m in live && m != x ==> m.pointer == old(m.pointer) && m.pool == old(m.pool)
      ensures forall m :: m in live && m != x ==> m.Members() == old(m.Members()) - {x}
      ensures place == old(Parted(x))
    {
      hide PoolPointer.IsRing, PoolPointer.Loose, PoolPointer.Valid, NoDuplicates, StackAt, Rest, Rings;
      ghost var o, r := x.pointer, x.ring;
      RingFacts(x);
      PartRing(x, relinquished);
      ghost var s := Rest(r, x);
      if o != null {
        place := place[o := Held(s)];
      }
      assert s[0] in r && s[0] != x;
      assert Holds() by {
        forall m | m in live && m.pointer != null ensures m.pointer in place && place[m.pointer] == Held(m.ring) {
          assert m != x && old(m.pointer) == m.pointer && (m.pointer != o ==> m !in r);
        }
      }
      assert Accounted() by {
        forall q | q in place && place[q].Held?
          ensures place[q].ring != [] && place[q].ring[0] in live && place[q].ring[0].pointer == q {
          if q != o {
            assert old(place)[q] == place[q] && old(place[q].ring[0].pointer) == q;
          }
        }
      }
      forall p | p in pools ensures StackAt(p, p.pool, p.deleted, place) {
        assert old(StackAt(p, p.pool, p.deleted, place));
        if o != null {
          StackMoved(p, p.pool, p.deleted, old(place), o, Held(s));
        }
      }
    }

    /** The rings after one pointer has left its own. */
    method PartRing(x: PoolPointer, relinquished: bool)
      requires Valid() && x in live && |x.ring| > 1 && x in x.ring
      modifies live
      ensures Rings() && x.pointer == null && x.pool == null && x.ring == []
      ensures forall m :: m in live && m != x ==> m.pointer == old(m.pointer) && m.pool == old(m.pool)
      ensures forall m :: m in live && m != x ==> m.ring == if m in old(x.ring) then Rest(old(x.ring), x) else old(m.ring)
      ensures forall m :: m in live && m != x ==> m.Members() == old(m.Members()) - {x}
      ensures |Rest(old(x.ring), x)| >= 1 && Rest(old(x.ring), x)[0] in old(x.ring) && Rest(old(x.ring), x)[0] != x
    {
      hide PoolPointer.IsRing, PoolPointer.Loose, PoolPointer.Valid, Unlinked, NoDuplicates, Rest;
      ghost var o, pl, r := x.pointer, x.pool, x.ring;
      RingFacts(x);
      x.Part(relinquished);
      ghost var k := LeftFacts(r, x, o, pl);
      RestAt(r, x, k);
      forall m | m in live
        ensures (forall y :: y in m.ring ==> y in live) && m.Valid() && (m.pool != null ==> m.pool in pools) {
        if m in r && m != x {
          assert m in Unlinked(r, k);
        } else if m != x {
          assert forall i :: 0 <= i < |m.ring| ==> m.ring[i] in old(m.ring);
          assert forall j :: 0 <= j < |r| ==> r[j] in r;
          assert old(m.Valid());
        }
      }
      ghost var first := Unlinked(r, k)[0];
      UnlinkedMember(r, k, first);
    }

    method LeavePooled(x: PoolPointer)
      requires Valid() && x in live && |x.ring| <= 1 && x.pool != null
      modifies this`place, x, pools
      ensures Valid() && x.pointer == null && x.ring == old(x.ring)
      ensures forall m :: m in live && m != x ==> m.pointer == old(m.pointer) && m.pool == old(m.pool)
      ensures forall m :: m in live && m != x ==> m.Members() == old(m.Members()) - {x}
      ensures place == old(Parted(x))
    {
      hide PoolPointer.IsRing, PoolPointer.Loose, PoolPointer.Valid, NoDuplicates, StackAt, Rest;
      ghost var o, pl := x.pointer, x.pool;
      RingFacts(x);
      x.ReturnLast(o, pl);
      place := place[o := if |old(x.pool.pool)| < pl.capacity then Pooled(pl) else Deleted];
      forall p | p in pools ensures StackAt(p, p.pool, p.deleted, place) {
        assert old(StackAt(p, p.pool, p.deleted, place));
        StackMoved(p, old(p.pool), old(p.deleted), old(place), o, place[o]);
      }
    }

    method LeaveBare(x: PoolPointer)
      requires Valid() && x in live && |x.ring| <= 1 && x.pool == null
      modifies this`place, x
      ensures Valid() && x.pointer == null && x.ring == old(x.ring)
      ensures forall m :: m in live && m != x ==> m.pointer == old(m.pointer) && m.pool == old(m.pool)
      ensures forall m :: m in live && m != x ==> m.Members() == old(m.Members()) - {x}
      ensures place == old(Parted(x))
    {
      hide PoolPointer.IsRing, PoolPointer.Loose, PoolPointer.Valid, NoDuplicates, StackAt, Rest;
      ghost var o := x.pointer;
      RingFacts(x);
      x.DropLast(o, null);
      if o != null {
        place := place[o := Deleted];
        forall p | p in pools ensures StackAt(p, p.pool, p.deleted, place) {
          assert old(StackAt(p, p.pool, p.deleted, place));
          StackMoved(p, p.pool, p.deleted, old(place), o, Deleted);
        }
      }
    }

    /** `acquire`: pointer `x`, which refers to nothing, joins the ring of `p`. */
    method Join(x: PoolPointer, p: PoolPointer) returns (ok: bool)
      requires Valid() && x in live && p in live && x != p && |x.ring| <= 1 && x.pointer == null
      modifies this`place, live
      ensures ok <==> old(p.ring) != []
      ensures ok ==> Valid() && x.pointer == p.pointer == old(p.pointer) && x.pool == p.pool && x in p.ring
      ensures ok ==> forall m :: m in live && m != x ==> m.pointer == old(m.pointer) && m.pool == old(m.pool)
      ensures ok ==> forall m :: m in live ==> m.Members() == if m in old(p.ring) || m == x then old(p.Members()) + {x} else old(m.Members())
      ensures ok ==> place == if p.pointer == null then old(place) else old(place)[p.pointer := Held(p.ring)]
    {
      hide PoolPointer.IsRing, PoolPointer.Loose, PoolPointer.Valid, NoDuplicates, StackAt, Rings;
      ghost var o := p.pointer;
      RingFacts(p);
      ok := JoinRing(x, p);
      if !ok {
        return;
      }
      if o != null {
        place := place[o := Held(p.ring)];
      }
      assert Holds() by {
        forall m | m in live && m.pointer != null ensures m.pointer in place && place[m.pointer] == Held(m.ring) {
          if m != x {
            assert old(m.pointer) == m.pointer && (m.pointer != o ==> m !in old(p.ring));
          }
        }
      }
      assert Accounted() by {
        forall q | q in place && place[q].Held?
          ensures place[q].ring != [] && place[q].ring[0] in live && place[q].ring[0].pointer == q {
          if q != o {
            assert old(place)[q] == place[q] && old(place[q].ring[0].pointer) == q;
          }
        }
      }
      forall q | q in pools ensures StackAt(q, q.pool, q.deleted, place) {
        assert old(StackAt(q, q.pool, q.deleted, place));
        if o != null {
          StackMoved(q, q.pool, q.deleted, old(place), o, Held(p.ring));
        }
      }
    }

    /** The rings after one pointer has joined another one's. */
    method JoinRing(x: PoolPointer, p: PoolPointer) returns (ok: bool)
      requires Valid() && x in live && p in live && x != p && |x.ring| <= 1 && x.pointer == null
      modifies live
      ensures ok <==> old(p.ring) != []
      ensures ok ==> Rings() && x.pointer == p.pointer == old(p.pointer) && x.pool == p.pool && x in p.ring && x !in old(p.ring)
      ensures ok ==> forall m :: m in live && m != x ==> m.pointer == old(m.pointer) && m.pool == old(m.pool)
      ensures ok ==> forall m :: m in live ==> m.ring == if m in old(p.ring) || m == x then p.ring else old(m.ring)
      ensures ok ==> forall m :: m in live ==> m.Members() == if m in old(p.ring) || m == x then old(p.Members()) + {x} else old(m.Members())
      ensures ok ==> p.ring != [] && (p.ring[0] in old(p.ring) || p.ring[0] == x)
    {
      hide PoolPointer.IsRing, PoolPointer.Loose, PoolPointer.Valid, Linked, NoDuplicates, Joined;
      ghost var o, pl, r := p.pointer, p.pool, p.ring;
      RingFacts(p);
      RingFacts(x);
      assert x !in r;
      ok := x.Acquire(p);
      if !ok {
        return;
      }
      ghost var k := JoinedFacts(r, p, x, o, pl);
      assert p in Linked(r, k, x) && x in Linked(r, k, x);
      forall m | m in live
        ensures (forall y :: y in m.ring ==> y in live) && m.Valid() && (m.pool != null ==> m.pool in pools) {
        if m in r || m == x {
          assert m in Linked(r, k, x);
        } else {
          assert forall i :: 0 <= i < |m.ring| ==> m.ring[i] in old(m.ring);
          assert forall j :: 0 <= j < |r| ==> r[j] in r;
          assert old(m.Valid());
        }
      }
      assert Linked(r, k, x)[0] in Linked(r, k, x);
    }

    method NewPool(capacity: nat) returns (pl: PointerPool)
      requires Valid()
      modifies this`pools
      ensures Valid() && fresh(pl) && pools == old(pools) + {pl} && pl.capacity == capacity && pl.pool == []
    {
      pl := new PointerPool(capacity);
      pools := pools + {pl};
    }

    /** `PointerPool::acquire`: a pointer to the object on top of the stack, or to a new object. */
    method AcquireFrom(pl: PointerPool) returns (x: PoolPointer)
      requires Valid() && pl in pools
      modifies this`place, this`live, pl`pool
      ensures Valid() && fresh(x) && live == old(live) + {x} && x.ring == [x]
      ensures x.pointer != null && x.pool == pl && place == old(place)[x.pointer := Held([x])]
      ensures fresh(x.pointer) || (x.pointer in old(place) && old(place)[x.pointer] == Pooled(pl))
    {
      hide PoolPointer.IsRing, PoolPointer.Loose, PoolPointer.Valid, NoDuplicates, StackAt, Holds;
      ghost var was, wasLive := place, live;
      HoldsAll();
      if pl.pool != [] {
        StackTop(pl, pl.pool, pl.deleted, place);
      }
      var p := pl.Acquire();
      x := new PoolPointer(p, pl);
      assert p in was ==> was[p] == Pooled(pl) && old(pl.pool) == pl.pool + [p];
      live := live + {x};
      place := place[p := Held([x])];
      forall q | q in pools ensures StackAt(q, q.pool, q.deleted, place) {
        assert old(StackAt(q, q.pool, q.deleted, place));
        StackTaken(q, q.pool, q.deleted, was, p, pl, Held([x]));
      }
      assert Rings();
      HoldsMore(wasLive, was, x);
    }

    lemma HoldsAll()
      requires Holds()
      ensures forall m :: m in live && m.pointer != null ==> m.pointer in place && place[m.pointer] == Held(m.ring)
    {
    }

    lemma HoldsMore(wasLive: set<PoolPointer>, was: map<Obj, Place>, x: PoolPointer)
      requires live == wasLive + {x} && x.pointer != null && x.ring == [x] && place == was[x.pointer := Held([x])]
      requires forall m :: m in wasLive && m.pointer != null ==> m.pointer in was && was[m.pointer] == Held(m.ring)
      requires x.pointer in was ==> was[x.pointer].Pooled?
      ensures Holds()
    {
    }

    /** The copy constructor; it fails on a detached source. */
    method Copy(p: PoolPointer) returns (ok: bool, x: PoolPointer)
      requires Valid() && p in live
      modifies this`place, this`live, live
      ensures fresh(x) && live == old(live) + {x} && (ok <==> old(p.ring) != [])
      ensures ok ==> Valid() && x in p.ring && x.pointer == p.pointer == old(p.pointer) && x.pool == p.pool
      ensures ok ==> forall m :: m in old(live) ==> m.pointer == old(m.pointer) && m.pool == old(m.pool)
      ensures ok ==> x.Members() == old(p.Members()) + {x}
      ensures ok ==> forall m :: m in old(live) ==> m.Members() == if m in old(p.ring) then old(p.Members()) + {x} else old(m.Members())
      ensures ok ==> place == if p.pointer == null then old(place) else old(place)[p.pointer := Held(p.ring)]
    {
      hide PoolPointer.Valid, Rings, Holds, Stacks, Accounted, Rest;
      x := new PoolPointer.Blank();
      AddEmpty(x);
      ok := Join(x, p);
    }

    /** The default constructor: a pointer to nothing, in a ring of its own. */
    method Default() returns (x: PoolPointer)
      requires Valid()
      modifies this`live
      ensures Valid() && fresh(x) && live == old(live) + {x} && x.ring == [x] && x.pointer == null
    {
      hide PoolPointer.Valid, Rings, Holds, Stacks, Accounted;
      x := new PoolPointer(null, null);
      AddEmpty(x);
    }

    ghost method AddEmpty(x: PoolPointer)
      requires Valid() && x !in live && x.Valid() && x.ring <= [x] && x.pointer == null && x.pool == null
      modifies this`live
      ensures Valid() && live == old(live) + {x}
    {
      hide PoolPointer.IsRing, PoolPointer.Loose, PoolPointer.Valid, NoDuplicates, StackAt;
      live := live + {x};
    }

    /** The assignment operator: nothing happens when a pointer is assigned to itself; otherwise `x`
        leaves its ring and joins that of `p`, which fails when `p` is detached. */
    method Assign(x: PoolPointer, p: PoolPointer) returns (ok: bool)
      requires Valid() && x in live && p in live
      modifies this`place, live, pools
      ensures ok <==> x == p || old(p.ring) != []
      ensures ok ==> Valid() && live == old(live) && x.pointer == p.pointer == old(p.pointer) && (x != p ==> x in p.ring)
      ensures ok ==> forall m :: m in live && m != x ==> m.pointer == old(m.pointer)
      ensures ok && x == p ==> forall m :: m in live ==> m.Members() == old(m.Members())
      ensures ok && x != p ==> forall m :: m in live ==>
        m.Members() == if m in old(p.ring) || m == x then old(p.Members()) + {x} else old(m.Members()) - {x}
      ensures ok ==> place == if x == p then old(place) else if p.pointer == null then old(Parted(x)) else old(Parted(x))[p.pointer := Held(p.ring)]
    {
      ok := true;
      if x != p {
        hide PoolPointer.IsRing, PoolPointer.Loose, PoolPointer.Valid, NoDuplicates, StackAt, Rings, Holds, Stacks, Accounted, Rest;
        Sharing(p);
        Leave(x);
        Sharing(p);
        ghost var group := p.Members();
        assert group == old(p.Members()) - {x} && group + {x} == old(p.Members()) + {x};
        ok := Join(x, p);
      }
    }

    /** The destructor. */
    method Destroy(x: PoolPointer)
      requires Valid() && x in live
      modifies this`place, this`live, live, pools
      ensures Valid() && live == old(live) - {x} && place == old(Parted(x))
      ensures forall m :: m in live ==> m.pointer == old(m.pointer) && m.Members() == old(m.Members()) - {x}
    {
      Leave(x);
      RemoveEmpty(x);
    }

    ghost method RemoveEmpty(x: PoolPointer)
      requires Valid() && x in live && x.pointer == null && |x.ring| <= 1
      modifies this`live
      ensures Valid() && live == old(live) - {x}
    {
      hide PoolPointer.IsRing, PoolPointer.Loose, PoolPointer.Valid, NoDuplicates, StackAt;
      RingFacts(x);
      live := live - {x};
    }

    /** `relinquish`: the pointer lets go of its object without giving it back; when it was the last one,
        no pool ever gets the object. */
    method Relinquish(x: PoolPointer)
      requires Valid() && x in live
      modifies this`place, live
      ensures Valid() && x.pointer == null && live == old(live)
      ensures x.ring == if old(|x.ring|) > 1 then [] else old(x.ring)
      ensures forall m :: m in live && m != x ==> m.pointer == old(m.pointer) && m.Members() == old(m.Members()) - {x}
      ensures place == if old(|x.ring|) > 1 then old(Parted(x)) else if old(x.pointer) == null then old(place) else old(place)[old(x.pointer) := Lost]
    {
      x.LooseValid();
      var unique := x.Unique(x.pointer, x.pool);
      if unique {
        LoseLast(x);
      } else {
        LeaveShared(x, true);
      }
    }

    method LoseLast(x: PoolPointer)
      requires Valid() && x in live && |x.ring| <= 1
      modifies this`place, x
      ensures Valid() && x.pointer == null && x.ring == old(x.ring)
      ensures forall m :: m in live && m != x ==> m.pointer == old(m.pointer) && m.pool == old(m.pool)
      ensures forall m :: m in live && m != x ==> m.Members() == old(m.Members()) - {x}
      ensures place == if old(x.pointer) == null then old(place) else old(place)[old(x.pointer) := Lost]
    {
      hide PoolPointer.IsRing, PoolPointer.Loose, PoolPointer.Valid, NoDuplicates, StackAt, Rest;
      ghost var o := x.pointer;
      RingFacts(x);
      x.Forget();
      if o != null {
        place := place[o := Lost];
        forall p | p in pools ensures StackAt(p, p.pool, p.deleted, place) {
          assert old(StackAt(p, p.pool, p.deleted, place));
          StackMoved(p, p.pool, p.deleted, old(place), o, Lost);
        }
      }
    }

    /** An object on a pool's stack, deleted or lost is referred to by no live pointer, and an object on
        a stack is there once. */
    lemma NeverShared(m: PoolPointer, o: Obj)
      requires Valid() && m in live && o in place && !place[o].Held?
      ensures m.pointer != o
    {
    }
  }
}
