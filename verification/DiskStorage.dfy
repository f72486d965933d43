/** The paged file store (`DiskStorageManager`): byte arrays cut into pages of one file, a queue of
    free pages, and an index that is written out and read back. */
module DiskStorage {
  import opened Lists

  type Byte = bv8

  // ---------------------------------------------------------------- chunks

  /** A byte array cut into pieces of `size` bytes, the last one possibly shorter. */
  ghost function Chunks(b: seq<Byte>, size: nat): (r: seq<seq<Byte>>)
    requires size > 0
    ensures b != [] ==> r != []
    ensures forall i :: 0 <= i < |r| ==> 0 < |r[i]| <= size
    decreases |b|
  {
    if b == [] then []
    else if |b| <= size then [b]
    else [b[..size]] + Chunks(b[size..], size)
  }

  ghost function Joined(parts: seq<seq<Byte>>): seq<Byte> {
    if parts == [] then [] else Joined(parts[..|parts|-1]) + parts[|parts|-1]
  }

  lemma {:induction false} JoinedSplit(a: seq<seq<Byte>>, b: seq<seq<Byte>>)
    ensures Joined(a + b) == Joined(a) + Joined(b)
  {
    if b == [] {
      assert a + b == a;
    } else {
      var most := b[..|b|-1];
      JoinedSplit(a, most);
      assert (a + b)[..|a + b|-1] == a + most;
      assert Joined(a) + (Joined(most) + b[|b|-1]) == (Joined(a) + Joined(most)) + b[|b|-1];
    }
  }

  /** Nothing is lost by cutting. */
  lemma {:induction false} JoinedChunks(b: seq<Byte>, size: nat)
    requires size > 0
    ensures Joined(Chunks(b, size)) == b
    decreases |b|
  {
    if b == [] {
    } else if |b| <= size {
      assert [b][..0] == [] && Joined([b]) == Joined([b][..0]) + b;
    } else {
      JoinedChunks(b[size..], size);
      JoinedSplit([b[..size]], Chunks(b[size..], size));
      assert [b[..size]][..0] == [];
      assert Joined([b[..size]]) == b[..size];
      assert b == b[..size] + b[size..];
    }
  }

  /** Lengths of the pieces: only the last one may be short. */
  lemma {:induction false} ChunkSizes(b: seq<Byte>, size: nat, i: nat)
    requires size > 0 && i < |Chunks(b, size)|
    ensures i * size + |Chunks(b, size)[i]| <= |b|
    ensures |Chunks(b, size)[i]| == if |b| - i * size > size then size else |b| - i * size
    decreases |b|
  {
    if |b| > size && i > 0 {
      ChunkSizes(b[size..], size, i - 1);
      assert (i - 1) * size + size == i * size;
    }
  }

  // ---------------------------------------------------------------- the data file

  /** Page `p` of the file. */
  function PageOf(file: seq<Byte>, p: nat, size: nat): (r: seq<Byte>)
    requires (p + 1) * size <= |file|
    ensures |r| == size
  {
    PageBounds(p, size);
    file[p * size..(p + 1) * size]
  }

  lemma PageBounds(p: nat, size: nat)
    ensures 0 <= p * size && (p + 1) * size == p * size + size
  {
  }

  /** Overwrites page `p`, or appends it right behind the last one. */
  function Written(file: seq<Byte>, p: nat, size: nat, page: seq<Byte>): (r: seq<Byte>)
    requires |page| == size && p * size <= |file|
    ensures |r| == if (p + 1) * size <= |file| then |file| else (p + 1) * size
  {
    PageBounds(p, size);
    file[..p * size] + page + (if (p + 1) * size <= |file| then file[(p + 1) * size..] else [])
  }

  lemma PagesApart(p: nat, q: nat, size: nat)
    requires p < q
    ensures (p + 1) * size <= q * size
  {
    assert (q - p - 1) * size >= 0;
    assert (p + 1) * size + (q - p - 1) * size == q * size;
  }

  lemma WrittenSame(file: seq<Byte>, p: nat, size: nat, page: seq<Byte>)
    requires |page| == size && p * size <= |file|
    ensures (p + 1) * size <= |Written(file, p, size, page)| && PageOf(Written(file, p, size, page), p, size) == page
  {
    PageBounds(p, size);
  }

  lemma WrittenOther(file: seq<Byte>, p: nat, size: nat, page: seq<Byte>, q: nat)
    requires |page| == size && p * size <= |file| && q != p && (q + 1) * size <= |file|
    ensures (q + 1) * size <= |Written(file, p, size, page)| && PageOf(Written(file, p, size, page), q, size) == PageOf(file, q, size)
  {
    PageBounds(p, size);
    PageBounds(q, size);
    if q < p {
      PagesApart(q, p, size);
    } else {
      PagesApart(p, q, size);
    }
  }

  lemma ChunksStep(b: seq<Byte>, size: nat, n: nat)
    requires size > 0 && b != [] && n == if |b| > size then size else |b|
    ensures Chunks(b, size) == [b[..n]] + Chunks(b[n..], size)
  {
    assert n == |b| ==> b[..n] == b && b[n..] == [];
  }

  /** The pages of an entry hold the pieces of its bytes. */
  ghost predicate Stored(file: seq<Byte>, size: nat, pages: seq<nat>, parts: seq<seq<Byte>>) {
    && |pages| <= |parts|
    && forall i {:trigger pages[i]} :: 0 <= i < |pages| ==>
         PieceAt(file, size, pages[i], parts[i])
  }

  /** Page `p` starts with `part`. */
  ghost predicate PieceAt(file: seq<Byte>, size: nat, p: nat, part: seq<Byte>) {
    |part| <= size && (p + 1) * size <= |file| && PageOf(file, p, size)[..|part|] == part
  }

  lemma StoredNext(file: seq<Byte>, size: nat, pages: seq<nat>, parts: seq<seq<Byte>>, p: nat, page: seq<Byte>)
    requires Stored(file, size, pages, parts) && |pages| < |parts| && |page| == size && p * size <= |file|
    requires |parts[|pages|]| <= size && page[..|parts[|pages|]|] == parts[|pages|] && p !in pages
    ensures Stored(Written(file, p, size, page), size, pages + [p], parts)
  {
    StoredKept(file, size, pages, parts, p, page);
    WrittenSame(file, p, size, page);
  }

  /** Writing a page that an entry does not use leaves the entry as it is. */
  lemma StoredKept(file: seq<Byte>, size: nat, pages: seq<nat>, parts: seq<seq<Byte>>, p: nat, page: seq<Byte>)
    requires Stored(file, size, pages, parts) && |page| == size && p * size <= |file| && p !in pages
    ensures Stored(Written(file, p, size, page), size, pages, parts)
  {
    forall i {:trigger pages[i]} | 0 <= i < |pages| ensures PieceAt(Written(file, p, size, page), size, pages[i], parts[i]) {
      StoredAt(file, size, pages, parts, i);
      assert pages[i] in pages;
      WrittenOther(file, p, size, page, pages[i]);
    }
  }

  // ---------------------------------------------------------------- who owns a page

  datatype Owner = Free | Of(id: int, pos: nat)

  /** Every page below `next` is in the free queue, once, or is page number `pos` of entry `id`, and of
      no other. */
  ghost predicate Owned(next: nat, empty: seq<nat>, held: map<int, seq<nat>>, owner: seq<Owner>) {
    && |owner| == next
    && NoDuplicates(empty)
    && (forall p :: p in empty ==> p < next && owner[p] == Free)
    && (forall p :: 0 <= p < next && owner[p] == Free ==> p in empty)
    && (forall id, i {:trigger held[id][i]} :: id in held && 0 <= i < |held[id]| ==>
          held[id][i] < next && owner[held[id][i]] == Of(id, i))
    && (forall p :: 0 <= p < next && owner[p].Of? ==>
          owner[p].id in held && owner[p].pos < |held[owner[p].id]| && held[owner[p].id][owner[p].pos] == p)
  }

  ghost function Pages(held: map<int, seq<nat>>, id: int): seq<nat> {
    if id in held then held[id] else []
  }

  /** An entry takes a page out of the free queue. */
  lemma TakeFree(next: nat, empty: seq<nat>, held: map<int, seq<nat>>, owner: seq<Owner>, k: nat, id: int)
    requires Owned(next, empty, held, owner) && k < |empty|
    ensures empty[k] < next && empty[k] !in Pages(held, id)
    ensures Owned(next, empty[..k] + empty[k+1..], held[id := Pages(held, id) + [empty[k]]], owner[empty[k] := Of(id, |Pages(held, id)|)])
  {
    var p, rest := empty[k], empty[..k] + empty[k+1..];
    assert p in empty;
    assert forall i :: 0 <= i < |rest| ==> rest[i] == empty[if i < k then i else i + 1];
    forall q | q in empty && q != p ensures q in rest {
      var i :| 0 <= i < |empty| && empty[i] == q;
      assert rest[if i < k then i else i - 1] == q;
    }
    forall q | q in rest ensures q in empty && q != p {
      var i :| 0 <= i < |rest| && rest[i] == q;
      assert empty[if i < k then i else i + 1] == q;
    }
    var held', owner' := held[id := Pages(held, id) + [p]], owner[p := Of(id, |Pages(held, id)|)];
    forall key, i {:trigger held'[key][i]} | key in held' && 0 <= i < |held'[key]|
      ensures held'[key][i] < next && owner'[held'[key][i]] == Of(key, i) {
      if key != id || i < |Pages(held, id)| {
        assert held'[key][i] == held[key][i];
      }
    }
    forall q | 0 <= q < next && owner'[q].Of?
      ensures owner'[q].id in held' && owner'[q].pos < |held'[owner'[q].id]| && held'[owner'[q].id][owner'[q].pos] == q {
    }
    if id in held {
      assert forall i :: 0 <= i < |held[id]| ==> owner[held[id][i]] == Of(id, i);
    }
  }

  /** An entry takes the next page behind the end of the file. */
  lemma TakeNewAt(next: nat, held: map<int, seq<nat>>, held': map<int, seq<nat>>, owner: seq<Owner>, id: int, key: int, i: nat)
    requires |owner| == next && held' == held[id := Pages(held, id) + [next]] && key in held' && i < |held'[key]|
    requires key in held && i < |held[key]| ==> held[key][i] < next && owner[held[key][i]] == Of(key, i)
    ensures held'[key][i] < next + 1 && (owner + [Of(id, |Pages(held, id)|)])[held'[key][i]] == Of(key, i)
  {
    if key != id || i < |Pages(held, id)| {
      assert key in held && held'[key][i] == held[key][i];
    }
  }

  lemma TakeNew(next: nat, empty: seq<nat>, held: map<int, seq<nat>>, owner: seq<Owner>, id: int)
    requires Owned(next, empty, held, owner)
    ensures next !in Pages(held, id)
    ensures Owned(next + 1, empty, held[id := Pages(held, id) + [next]], owner + [Of(id, |Pages(held, id)|)])
  {
    if id in held {
      assert forall i :: 0 <= i < |held[id]| ==> held[id][i] < next;
    }
    var held', owner' := held[id := Pages(held, id) + [next]], owner + [Of(id, |Pages(held, id)|)];
    forall key, i {:trigger held'[key][i]} | key in held' && 0 <= i < |held'[key]|
      ensures held'[key][i] < next + 1 && owner'[held'[key][i]] == Of(key, i) {
      TakeNewAt(next, held, held', owner, id, key, i);
    }
    forall q | 0 <= q < next + 1 && owner'[q].Of?
      ensures owner'[q].id in held' && owner'[q].pos < |held'[owner'[q].id]| && held'[owner'[q].id][owner'[q].pos] == q {
      assert q < next ==> owner'[q] == owner[q];
    }
  }

  ghost function Freed(owner: seq<Owner>, tail: seq<nat>): (r: seq<Owner>)
    ensures |r| == |owner|
  {
    seq(|owner|, p requires 0 <= p < |owner| => if p in tail then Free else owner[p])
  }

  /** An entry gives back all its pages from position `c` on. */
  lemma GiveBack(next: nat, empty: seq<nat>, held: map<int, seq<nat>>, owner: seq<Owner>, id: int, c: nat)
    requires Owned(next, empty, held, owner) && id in held && c <= |held[id]|
    ensures Owned(next, empty + held[id][c..], held[id := held[id][..c]], Freed(owner, held[id][c..]))
  {
    var tail := held[id][c..];
    var more, after := empty + tail, Freed(owner, tail);
    assert forall i :: 0 <= i < |tail| ==> tail[i] == held[id][c + i];
    assert forall q :: q in tail ==> q < next && owner[q].Of? && owner[q].id == id && owner[q].pos >= c;
    assert forall i :: 0 <= i < |empty| ==> empty[i] in empty;
    assert forall i :: 0 <= i < |tail| ==> tail[i] in tail && owner[tail[i]] == Of(id, c + i);
    forall i, j | 0 <= i < j < |more| ensures more[i] != more[j] {
      if i < |empty| <= j {
        assert owner[more[i]] == Free;
      } else if |empty| <= i {
        assert owner[more[i]] == Of(id, c + i - |empty|) && owner[more[j]] == Of(id, c + j - |empty|);
      }
    }
    forall p | 0 <= p < next && owner[p].Of? && owner[p].id == id && owner[p].pos >= c ensures p in tail {
      assert tail[owner[p].pos - c] == p;
    }
    var held' := held[id := held[id][..c]];
    forall key, i {:trigger held'[key][i]} | key in held' && 0 <= i < |held'[key]|
      ensures held'[key][i] < next && after[held'[key][i]] == Of(key, i) {
      assert held'[key][i] == held[key][i];
    }
    forall q | q in more ensures q < next && after[q] == Free {
      if q !in tail {
        assert q in empty;
      }
    }
    forall q | 0 <= q < next && after[q] == Free ensures q in more {
      assert q in tail || q in empty;
    }
  }

  lemma DropEntry(next: nat, empty: seq<nat>, held: map<int, seq<nat>>, owner: seq<Owner>, id: int)
    requires Owned(next, empty, held, owner) && id in held && held[id] == []
    ensures Owned(next, empty, held - {id}, owner)
  {
    assert forall p :: 0 <= p < next && owner[p].Of? ==> owner[p].id != id;
  }

  // ---------------------------------------------------------------- the storage manager

  const NEW_PAGE: int := -1

  datatype Entry = Entry(length: nat, pages: seq<nat>)

  ghost function Held(index: map<int, Entry>): map<int, seq<nat>> {
    map id | id in index :: index[id].pages
  }

  /** The index describes exactly the byte arrays `contents`, each under the number of its first page. */
  ghost predicate Describes(index: map<int, Entry>, file: seq<Byte>, size: nat, contents: map<int, seq<Byte>>) {
    && size > 0 && index.Keys == contents.Keys
    && forall id :: id in index ==>
         && contents[id] != [] && index[id].length == |contents[id]|
         && |index[id].pages| == |Chunks(contents[id], size)| && index[id].pages[0] == id
         && Stored(file, size, index[id].pages, Chunks(contents[id], size))
  }

  /** The least element was taken out of the queue. */
  ghost predicate Popped(before: seq<nat>, after: seq<nat>, p: nat) {
    && (exists k :: 0 <= k < |before| && p == before[k] && after == before[..k] + before[k+1..])
    && (forall j :: 0 <= j < |before| ==> p <= before[j])
  }

  /** From next page `next` and free pages `free` some pages were taken: free ones first, the lowest ones,
      and new ones only when none was left. */
  ghost predicate Drawn(next: nat, free: seq<nat>, next': nat, free': seq<nat>) {
    && next <= next' && (next' > next ==> free' == []) && multiset(free') <= multiset(free)
    && forall p, q :: multiset(free)[p] > multiset(free')[p] && q in free' ==> p <= q
  }

  /** An entry that is overwritten keeps its pages from the front, as many as it still needs. */
  ghost predicate Reused(past: seq<nat>, pages: seq<nat>) {
    if |pages| <= |past| then pages <= past else past <= pages
  }

  lemma ReusedMade(past: seq<nat>, pages: seq<nat>)
    requires if |pages| <= |past| then pages <= past else past <= pages
    ensures Reused(past, pages)
  {
  }

  /** The lowest free page, or the next page of the file when none is free. */
  ghost predicate FirstChoice(p: nat, next: nat, free: seq<nat>) {
    if free == [] then p == next else p in free && forall q :: q in free ==> p <= q
  }

  lemma DrawnNone(next: nat, free: seq<nat>)
    ensures Drawn(next, free, next, free)
  {
  }

  lemma DrawnNew(next: nat)
    ensures Drawn(next, [], next + 1, []) && FirstChoice(next, next, [])
  {
  }

  lemma DrawnFree(next: nat, free: seq<nat>, free': seq<nat>, p: nat)
    requires Popped(free, free', p)
    ensures Drawn(next, free, next, free') && FirstChoice(p, next, free)
  {
    var k :| 0 <= k < |free| && p == free[k] && free' == free[..k] + free[k+1..];
    assert free == free[..k] + [p] + free[k+1..];
    assert multiset(free') == multiset(free) - multiset{p};
    forall q | q in free' ensures q in free {
      assert q in multiset(free') && q in multiset(free);
    }
  }

  lemma NothingWithin(a: seq<nat>, b: seq<nat>)
    requires multiset(a) <= multiset(b)
    ensures b == [] ==> a == []
  {
    if a != [] {
      var x := a[0];
      assert multiset(a)[x] <= multiset(b)[x];
    }
  }

  lemma DrawnUp(next: nat, free: seq<nat>, next': nat, free': seq<nat>)
    requires Drawn(next, free, next', free')
    ensures next' > next ==> free' == []
  {
  }

  lemma DrawnOn(next: nat, free: seq<nat>, next': nat, free': seq<nat>, next'': nat, free'': seq<nat>)
    requires Drawn(next, free, next', free') && Drawn(next', free', next'', free'')
    ensures Drawn(next, free, next'', free'')
  {
    if next' > next {
      NothingWithin(free'', free');
    }
    forall p, q | multiset(free)[p] > multiset(free'')[p] && q in free'' ensures p <= q {
      assert q in multiset(free'') && q in multiset(free');
      if multiset(free)[p] > multiset(free')[p] {
        assert multiset(free'')[q] <= multiset(free')[q] && q in free';
      } else {
        assert multiset(free')[p] > multiset(free'')[p];
      }
    }
  }

  ghost predicate NoIdTwice(es: seq<(int, Entry)>) {
    forall i, j :: 0 <= i < j < |es| ==> es[i].0 != es[j].0
  }

  /** Some element of a set that is not empty. */
  method Pick<T(==)>(s: set<T>) returns (x: T)
    requires s != {}
    ensures x in s
  {
    x :| x in s;
  }

  class DiskStorageManager {
    var pageSize: nat
    var nextPage: nat
    var emptyPages: seq<nat>
    var pageIndex: map<int, Entry>
    var dataFile: seq<Byte>
    var buffer: array<Byte>
    var indexFile: seq<int>
    ghost var contents: map<int, seq<Byte>>
    ghost var owner: seq<Owner>

    ghost predicate Valid()
      reads this, buffer
    {
      && buffer.Length == pageSize && |dataFile| == nextPage * pageSize
      && Owned(nextPage, emptyPages, Held(pageIndex), owner)
      && Describes(pageIndex, dataFile, pageSize, contents)
    }

    /** A new, empty store. */
    constructor (pageSize: nat)
      requires pageSize > 0
      ensures Valid() && contents == map[] && this.pageSize == pageSize && fresh(buffer)
    {
      this.pageSize := pageSize;
      nextPage, emptyPages, pageIndex, dataFile := 0, [], map[], [];
      buffer := new Byte[pageSize](_ => 0);
      indexFile, contents, owner := [], map[], [];
    }

    /** A store over files that exist: what was read from the index file. */
    constructor Reopened(pageSize: nat, nextPage: nat, emptyPages: seq<nat>, pageIndex: map<int, Entry>, indexFile: seq<int>, dataFile: seq<Byte>,
                         ghost contents: map<int, seq<Byte>>, ghost owner: seq<Owner>)
      ensures this.pageSize == pageSize && this.nextPage == nextPage && this.emptyPages == emptyPages && this.pageIndex == pageIndex
      ensures this.dataFile == dataFile && this.contents == contents && this.owner == owner && fresh(buffer) && buffer.Length == pageSize
    {
      this.pageSize, this.nextPage, this.emptyPages, this.pageIndex := pageSize, nextPage, emptyPages, pageIndex;
      this.indexFile, this.dataFile := indexFile, dataFile;
      buffer := new Byte[pageSize](_ => 0);
      this.contents, this.owner := contents, owner;
    }

    /** Takes the lowest page out of the free queue. */
    method PopPage() returns (cPage: nat)
      requires emptyPages != []
      modifies this`emptyPages
      ensures Popped(old(emptyPages), emptyPages, cPage)
    {
      var k := 0;
      for j := 1 to |emptyPages|
        invariant 0 <= k < j && forall i :: 0 <= i < j ==> emptyPages[k] <= emptyPages[i]
      {
        if emptyPages[j] < emptyPages[k] {
          k := j;
        }
      }
      cPage := emptyPages[k];
      emptyPages := emptyPages[..k] + emptyPages[k+1..];
    }

    /** The lowest free page, or the next page of the file. */
    method AllocatePage() returns (cPage: nat)
      modifies this`emptyPages, this`nextPage
      ensures old(emptyPages) == [] ==> cPage == old(nextPage) && nextPage == cPage + 1 && emptyPages == []
      ensures old(emptyPages) != [] ==> nextPage == old(nextPage) && Popped(old(emptyPages), emptyPages, cPage)
    {
      if emptyPages != [] {
        cPage := PopPage();
      } else {
        cPage := nextPage;
        nextPage := nextPage + 1;
      }
    }

    /** Copies a piece into the page buffer, whose rest keeps what it held before, and writes the whole
        buffer to page `cPage`. */
    method WritePage(cPage: nat, piece: seq<Byte>)
      requires buffer.Length == pageSize && |piece| <= pageSize && cPage * pageSize <= |dataFile|
      modifies this`dataFile, buffer
      ensures buffer[..|piece|] == piece
      ensures dataFile == Written(old(dataFile), cPage, pageSize, buffer[..])
    {
      forall i | 0 <= i < |piece| {
        buffer[i] := piece[i];
      }
      dataFile := Written(dataFile, cPage, pageSize, buffer[..]);
    }

    /** Reads page `cPage` into the page buffer. */
    method ReadPage(cPage: nat)
      requires buffer.Length == pageSize && (cPage + 1) * pageSize <= |dataFile|
      modifies buffer
      ensures buffer[..] == PageOf(dataFile, cPage, pageSize)
    {
      var page := PageOf(dataFile, cPage, pageSize);
      forall i | 0 <= i < pageSize {
        buffer[i] := page[i];
      }
    }

    /** A page for the entry under construction, which is known as `key`, or as its first page. */
    method TakePage(ghost held: map<int, seq<nat>>, ghost key: int) returns (cPage: nat, ghost id: int)
      requires Owned(nextPage, emptyPages, held, owner)
      modifies this`emptyPages, this`nextPage, this`owner
      ensures id == (if key == NEW_PAGE then cPage else key) && Unused(held, cPage)
      ensures Owned(nextPage, emptyPages, held[id := Pages(held, id) + [cPage]], owner)
      ensures (cPage < old(nextPage) && nextPage == old(nextPage)) || (cPage == old(nextPage) && nextPage == cPage + 1)
      ensures Drawn(old(nextPage), old(emptyPages), nextPage, emptyPages) && FirstChoice(cPage, old(nextPage), old(emptyPages))
    {
      hide Owned, Unused, Drawn, FirstChoice;
      ghost var next, free := nextPage, emptyPages;
      cPage := AllocatePage();
      id := if key == NEW_PAGE then cPage else key;
      ghost var own;
      if free == [] {
        own := TakenNew(next, free, held, owner, id);
        DrawnNew(next);
      } else {
        DrawnFree(next, free, emptyPages, cPage);
        own := TakenFree(next, free, emptyPages, held, owner, cPage, id);
      }
      owner := own;
    }

    /** One turn of the writing loops that needs another page. */
    method AppendPage(piece: seq<Byte>, ghost held: map<int, seq<nat>>, ghost key: int) returns (cPage: nat, ghost id: int)
      requires buffer.Length == pageSize && |piece| <= pageSize && |dataFile| == nextPage * pageSize
      requires Owned(nextPage, emptyPages, held, owner)
      modifies this`emptyPages, this`nextPage, this`owner, this`dataFile, buffer
      ensures id == (if key == NEW_PAGE then cPage else key) && Unused(held, cPage)
      ensures Owned(nextPage, emptyPages, held[id := Pages(held, id) + [cPage]], owner)
      ensures |dataFile| == nextPage * pageSize && cPage * pageSize <= |old(dataFile)|
      ensures buffer[..|piece|] == piece && dataFile == Written(old(dataFile), cPage, pageSize, buffer[..])
      ensures Drawn(old(nextPage), old(emptyPages), nextPage, emptyPages) && FirstChoice(cPage, old(nextPage), old(emptyPages))
    {
      hide Owned, Unused, Written, Drawn, FirstChoice;
      ghost var next := nextPage;
      cPage, id := TakePage(held, key);
      PagesUpTo(cPage, next, pageSize);
      WritePage(cPage, piece);
    }

    /** While a new entry is written: `pages` hold its first pieces, `rest` is still to come, and all other
        entries are as the index says. */
    ghost predicate Building(pages: seq<nat>, rest: seq<Byte>, parts: seq<seq<Byte>>, held: map<int, seq<nat>>, id: int)
      reads this, buffer
    {
      && buffer.Length == pageSize > 0 && |dataFile| == nextPage * pageSize
      && Owned(nextPage, emptyPages, held, owner)
      && Describes(pageIndex, dataFile, pageSize, contents)
      && Stored(dataFile, pageSize, pages, parts) && |pages| <= |parts| && parts[|pages|..] == Chunks(rest, pageSize)
      && (if pages == [] then id == NEW_PAGE && held == Held(pageIndex)
          else id == pages[0] && id !in pageIndex && held == Held(pageIndex)[id := pages])
    }

    /** `storeByteArray` of a new entry: its id is the number of its first page. */
    method StoreNew(data: seq<Byte>) returns (page: int)
      requires Valid() && data != []
      modifies this, buffer
      ensures Valid() && pageSize == old(pageSize) && buffer == old(buffer)
      ensures page !in old(contents) && contents == old(contents)[page := data]
      ensures page >= 0 && FirstChoice(page, old(nextPage), old(emptyPages))
      ensures Drawn(old(nextPage), old(emptyPages), nextPage, emptyPages)
    {
      hide *;
      StoreStart(this, data);
      var pages: seq<nat>, rest := [], data;
      ghost var parts, held, id := Chunks(data, pageSize), Held(pageIndex), NEW_PAGE;
      DrawnNone(nextPage, emptyPages);
      while |rest| > 0
        invariant Building(pages, rest, parts, held, id)
        invariant Drawn(old(nextPage), old(emptyPages), nextPage, emptyPages)
        invariant if pages == [] then nextPage == old(nextPage) && emptyPages == old(emptyPages)
                  else FirstChoice(pages[0], old(nextPage), old(emptyPages))
        invariant pageSize == old(pageSize) && buffer == old(buffer) && pageIndex == old(pageIndex) && contents == old(contents)
        decreases |rest|
      {
        var cLen := if |rest| > pageSize then pageSize else |rest|;
        ghost var next, free := nextPage, emptyPages;
        held, id, pages := StorePiece(rest, cLen, pages, parts, held, id);
        DrawnOn(old(nextPage), old(emptyPages), next, free, nextPage, emptyPages);
        rest := rest[cLen..];
      }
      StoreEnd(this, data, pages, rest, parts, held, id);
      page := pages[0];
      pageIndex := pageIndex[page := Entry(|data|, pages)];
      contents := contents[page := data];
      AssembleValid(this);
    }

    /** One turn of the loop. */
    method StorePiece(rest: seq<Byte>, cLen: nat, pages: seq<nat>, ghost parts: seq<seq<Byte>>, ghost held: map<int, seq<nat>>, ghost id: int)
      returns (ghost held': map<int, seq<nat>>, ghost id': int, pages': seq<nat>)
      requires Building(pages, rest, parts, held, id) && rest != [] && cLen == if |rest| > pageSize then pageSize else |rest|
      modifies this`emptyPages, this`nextPage, this`owner, this`dataFile, buffer
      ensures 0 < cLen <= |rest| && Building(pages', rest[cLen..], parts, held', id')
      ensures Drawn(old(nextPage), old(emptyPages), nextPage, emptyPages)
      ensures |pages'| == |pages| + 1 && pages'[..|pages|] == pages && FirstChoice(pages'[|pages|], old(nextPage), old(emptyPages))
    {
      hide Drawn, FirstChoice, Owned, Describes, Stored, Chunks, Held, Written, Unused;
      PieceFacts(rest, pageSize, parts, |pages|);
      ghost var file := dataFile;
      var cPage;
      cPage, id' := AppendPage(rest[..cLen], held, id);
      NewPiece(file, pageSize, pageIndex, contents, held, Held(pageIndex), pages, parts, cPage, buffer[..], id');
      held' := held[id' := Pages(held, id') + [cPage]];
      pages' := pages + [cPage];
    }

    /** While entry `page` is rewritten: its new pages are a part of its old ones, or go beyond them. */
    ghost predicate Rebuilding(page: int, past: seq<nat>, pages: seq<nat>, rest: seq<Byte>, parts: seq<seq<Byte>>, held: map<int, seq<nat>>)
      reads this, buffer
    {
      && buffer.Length == pageSize > 0 && |dataFile| == nextPage * pageSize
      && Owned(nextPage, emptyPages, held, owner)
      && Describes(pageIndex, dataFile, pageSize, contents) && page !in pageIndex
      && Stored(dataFile, pageSize, pages, parts) && |pages| <= |parts| && parts[|pages|..] == Chunks(rest, pageSize)
      && past != [] && past[0] == page
      && held == Held(pageIndex)[page := if |pages| <= |past| then past else pages]
      && (if |pages| <= |past| then pages <= past else past <= pages)
    }

    /** `storeByteArray` of an entry that exists: its pages are filled again from the front, further ones
        are taken as needed, and those left over go to the free queue; it keeps its id. */
    method StoreOld(page: int, data: seq<Byte>)
      requires Valid() && page in contents && data != []
      modifies this, buffer
      ensures Valid() && pageSize == old(pageSize) && buffer == old(buffer)
      ensures contents == old(contents)[page := data]
      ensures page in old(pageIndex) && page in pageIndex && Reused(old(pageIndex)[page].pages, pageIndex[page].pages)
      ensures
        var past, pages := old(pageIndex)[page].pages, pageIndex[page].pages;
        if |pages| <= |past| then nextPage == old(nextPage) && emptyPages == old(emptyPages) + past[|pages|..]
        else Drawn(old(nextPage), old(emptyPages), nextPage, emptyPages)
    {
      hide *;
      RestoreStart(this, page, data);
      var oldEntry := pageIndex[page];
      pageIndex := pageIndex - {page};
      contents := contents - {page};
      var pages: seq<nat>, rest, cNext := [], data, 0;
      ghost var parts, held := Chunks(data, pageSize), Held(pageIndex)[page := oldEntry.pages];
      RebuildStart(this, page, oldEntry.pages, data);
      DrawnNone(nextPage, emptyPages);
      while |rest| > 0
        invariant if |pages| <= |oldEntry.pages| then nextPage == old(nextPage) && emptyPages == old(emptyPages) && pages <= oldEntry.pages
                  else oldEntry.pages <= pages
        invariant Drawn(old(nextPage), old(emptyPages), nextPage, emptyPages)
        invariant Rebuilding(page, oldEntry.pages, pages, rest, parts, held)
        invariant cNext == if |pages| <= |oldEntry.pages| then |pages| else |oldEntry.pages|
        invariant pageSize == old(pageSize) && buffer == old(buffer) && contents == old(contents) - {page}
        invariant pageIndex == old(pageIndex) - {page}
        decreases |rest|
      {
        var cLen := if |rest| > pageSize then pageSize else |rest|;
        if cNext < |oldEntry.pages| {
          pages := ReusePiece(page, oldEntry.pages, cNext, rest, cLen, pages, parts, held);
          cNext := cNext + 1;
        } else {
          ghost var next, free := nextPage, emptyPages;
          held, pages := ExtendPiece(page, oldEntry.pages, rest, cLen, pages, parts, held);
          DrawnOn(old(nextPage), old(emptyPages), next, free, nextPage, emptyPages);
        }
        rest := rest[cLen..];
      }
      ReusedMade(oldEntry.pages, pages);
      RestoreEnd(this, page, oldEntry.pages, data, pages, rest, parts, held, cNext);
      ghost var left := emptyPages;
      FreePages(oldEntry.pages, cNext);
      assert |pages| >= |oldEntry.pages| ==> emptyPages == left + [] == left;
      owner := Freed(owner, oldEntry.pages[cNext..]);
      pageIndex := pageIndex[page := Entry(|data|, pages)];
      contents := contents[page := data];
      RestoredKeys(old(contents), page, data);
      AssembleValid(this);
    }

    /** Pushes all pages from position `cNext` on into the free queue. */
    method FreePages(pages: seq<nat>, cNext: nat)
      requires cNext <= |pages|
      modifies this`emptyPages
      ensures emptyPages == old(emptyPages) + pages[cNext..]
    {
      for cIndex := cNext to |pages|
        invariant emptyPages == old(emptyPages) + pages[cNext..cIndex]
      {
        emptyPages := emptyPages + [pages[cIndex]];
      }
    }

    /** One turn of the loop that fills a page the entry already has. */
    method ReusePiece(page: int, past: seq<nat>, cNext: nat, rest: seq<Byte>, cLen: nat, pages: seq<nat>,
                      ghost parts: seq<seq<Byte>>, ghost held: map<int, seq<nat>>)
      returns (pages': seq<nat>)
      requires Rebuilding(page, past, pages, rest, parts, held) && rest != [] && cLen == if |rest| > pageSize then pageSize else |rest|
      requires cNext == |pages| < |past|
      modifies this`dataFile, buffer
      ensures 0 < cLen <= |rest| && pages' == pages + [past[cNext]] && Rebuilding(page, past, pages', rest[cLen..], parts, held)
    {
      hide Owned, Describes, Stored, Chunks, Held, Written, Unused;
      PieceFacts(rest, pageSize, parts, |pages|);
      var cPage := past[cNext];
      ReuseFacts(this, page, past, pages, rest, parts, held, cPage);
      ghost var file := dataFile;
      WritePage(cPage, rest[..cLen]);
      Repiece(file, pageSize, pageIndex, contents, pages, parts, cPage, buffer[..]);
      pages' := pages + [cPage];
    }

    /** One turn of the loop that needs a page more than the entry had. */
    method ExtendPiece(page: int, past: seq<nat>, rest: seq<Byte>, cLen: nat, pages: seq<nat>,
                       ghost parts: seq<seq<Byte>>, ghost held: map<int, seq<nat>>)
      returns (ghost held': map<int, seq<nat>>, pages': seq<nat>)
      requires Rebuilding(page, past, pages, rest, parts, held) && rest != [] && cLen == if |rest| > pageSize then pageSize else |rest|
      requires |pages| >= |past| && page != NEW_PAGE
      modifies this`emptyPages, this`nextPage, this`owner, this`dataFile, buffer
      ensures 0 < cLen <= |rest| && |pages'| == |pages| + 1 && Rebuilding(page, past, pages', rest[cLen..], parts, held')
      ensures pages'[..|pages|] == pages && Drawn(old(nextPage), old(emptyPages), nextPage, emptyPages)
    {
      hide Drawn, FirstChoice, Owned, Describes, Stored, Chunks, Held, Written, Unused;
      PieceFacts(rest, pageSize, parts, |pages|);
      ghost var file := dataFile;
      var cPage;
      ghost var id;
      ExtendFacts(this, page, past, pages, rest, parts, held);
      cPage, id := AppendPage(rest[..cLen], held, page);
      PieceWritten(file, pageSize, pageIndex, contents, held, pages, parts, cPage, buffer[..]);
      held' := held[page := Pages(held, page) + [cPage]];
      pages' := pages + [cPage];
      assert held' == Held(pageIndex)[page := pages'];
    }

    /** `deleteByteArray`: all pages of the entry become free. */
    method Delete(page: int) returns (ok: bool)
      requires Valid()
      modifies this`emptyPages, this`pageIndex, this`contents, this`owner
      ensures Valid() && (ok <==> page in old(contents)) && contents == old(contents) - {page}
    {
      if page !in pageIndex {
        return false;
      }
      hide *;
      DeleteFacts(this, page);
      var pages := pageIndex[page].pages;
      FreePages(pages, 0);
      owner := Freed(owner, pages[0..]);
      pageIndex := pageIndex - {page};
      contents := contents - {page};
      AssembleValid(this);
      ok := true;
    }

    /** `storeByteArray`: a new entry gets an id; an entry that exists is overwritten; an unknown id is
        refused. */
    method Store(page: int, data: seq<Byte>) returns (ok: bool, page': int)
      requires Valid() && data != []
      modifies this, buffer
      ensures Valid() && pageSize == old(pageSize) && buffer == old(buffer)
      ensures ok <==> page == NEW_PAGE || page in old(contents)
      ensures if page == NEW_PAGE then page' !in old(contents) else page' == page
      ensures contents == if ok then old(contents)[page' := data] else old(contents)
      ensures page == NEW_PAGE ==> page' >= 0 && FirstChoice(page', old(nextPage), old(emptyPages))
      ensures nextPage > old(nextPage) ==> emptyPages == []
    {
      hide *;
      KeysFacts(this);
      ok, page' := true, page;
      if page == NEW_PAGE {
        page' := StoreNew(data);
        DrawnUp(old(nextPage), old(emptyPages), nextPage, emptyPages);
      } else if page in pageIndex {
        StoreOld(page, data);
        if nextPage > old(nextPage) {
          DrawnUp(old(nextPage), old(emptyPages), nextPage, emptyPages);
        }
      } else {
        ok := false;
      }
    }

    /** `flush`: writes the index file from its beginning, emptying the free queue on the way; what the
        file held beyond that stays. */
    method Flush() returns (ghost free: seq<nat>, ghost es: seq<(int, Entry)>)
      requires Valid()
      modifies this`indexFile, this`emptyPages
      ensures Saved(indexFile, pageSize, nextPage, free, es)
      ensures Owned(nextPage, free, Held(Table(es)), owner) && Table(es) == pageIndex && NoIdTwice(es)
      ensures forall p :: p in free <==> p in old(emptyPages)
    {
      hide *;
      OwnedFacts(this);
      var tokens: seq<int>;
      tokens, free := WriteFree([pageSize, nextPage, |emptyPages|]);
      tokens, es := WriteTable(tokens + [|pageIndex|]);
      FlushFacts(this, old(emptyPages), free, es);
      LayoutMade(tokens, pageSize, nextPage, free, es);
      indexFile := if |indexFile| > |tokens| then tokens + indexFile[|tokens|..] else tokens;
      SavedIn(tokens, indexFile, pageSize, nextPage, free, es);
    }

    /** Writes and empties the free queue, lowest page first. */
    method WriteFree(start: seq<int>) returns (tokens: seq<int>, ghost free: seq<nat>)
      modifies this`emptyPages
      ensures tokens == start + Numbers(free) && |free| == |old(emptyPages)|
      ensures multiset(free) == multiset(old(emptyPages))
    {
      tokens, free := start, [];
      while emptyPages != []
        invariant tokens == start + Numbers(free)
        invariant multiset(free + emptyPages) == multiset(old(emptyPages))
        invariant |free| + |emptyPages| == |old(emptyPages)|
        decreases |emptyPages|
      {
        ghost var before := emptyPages;
        var page := PopPage();
        PoppedMoves(before, emptyPages, page, free);
        tokens := tokens + [page];
        free := free + [page];
      }
      assert free + [] == free;
    }

    /** Writes the table of entries, in some order. */
    method WriteTable(start: seq<int>) returns (tokens: seq<int>, ghost es: seq<(int, Entry)>)
      ensures tokens == start + TableTokens(es) && Table(es) == pageIndex && NoIdTwice(es) && |es| == |pageIndex|
    {
      tokens, es := start, [];
      var rest := pageIndex.Keys;
      while rest != {}
        invariant rest <= pageIndex.Keys && tokens == start + TableTokens(es)
        invariant Table(es) == map id | id in pageIndex && id !in rest :: pageIndex[id]
        invariant NoIdTwice(es) && (forall i :: 0 <= i < |es| ==> es[i].0 in pageIndex && es[i].0 !in rest)
        invariant |es| + |rest| == |pageIndex|
        decreases rest
      {
        var id := Pick(rest);
        ghost var more := es + [(id, pageIndex[id])];
        assert more[..|es|] == es;
        tokens := WriteNumbers(tokens + [id, pageIndex[id].length, |pageIndex[id].pages|], pageIndex[id].pages);
        assert TableTokens(more) == TableTokens(es) + EntryTokens(id, pageIndex[id]);
        es := more;
        rest := rest - {id};
      }
      assert Table(es) == pageIndex;
    }

    /** `loadByteArray`: an unknown id is refused; otherwise the pages are read one after the other and
        the last bytes stored under this id come back. */
    method Load(page: int) returns (ok: bool, data: seq<Byte>)
      requires Valid()
      modifies buffer
      ensures Valid() && (ok <==> page in contents) && (ok ==> data == contents[page])
    {
      hide Chunks, Joined, Describes, Owned, Stored, PieceAt, PageOf;
      data := [];
      DescribesKeys(this);
      if page !in pageIndex {
        return false, [];
      }
      var pages := pageIndex[page].pages;
      var cTotal := |pages|;
      var cRem := pageIndex[page].length;
      var cNext := 0;
      ghost var parts := Chunks(contents[page], pageSize);
      LoadStart(contents[page], pageSize);
      EntryFacts(pageIndex, dataFile, pageSize, contents, page);
      ghost var bytes := contents[page];
      while true
        invariant 0 <= cNext < cTotal && cRem == |bytes| - |data| && |data| <= |bytes|
        invariant data == Joined(parts[..cNext])
        invariant buffer.Length == pageSize
        decreases cTotal - cNext
      {
        LoadStep(bytes, pageSize, cNext);
        StoredAt(dataFile, pageSize, pages, parts, cNext);
        ReadPage(pages[cNext]);
        var cLen := if cRem > pageSize then pageSize else cRem;
        data := data + buffer[..cLen];
        cRem := cRem - cLen;
        cNext := cNext + 1;
        if !(cNext < cTotal) {
          break;
        }
      }
      ok := true;
    }
  }

  lemma DescribesKeys(d: DiskStorageManager)
    requires d.Valid()
    ensures d.pageIndex.Keys == d.contents.Keys && d.pageSize > 0
  {
  }

  lemma LoadStart(b: seq<Byte>, size: nat)
    requires size > 0
    ensures Joined(Chunks(b, size)[..0]) == []
    ensures Joined(Chunks(b, size)) == b
  {
    JoinedChunks(b, size);
  }

  lemma EntryFacts(index: map<int, Entry>, file: seq<Byte>, size: nat, contents: map<int, seq<Byte>>, id: int)
    requires Describes(index, file, size, contents) && id in index
    ensures id in contents && size > 0 && contents[id] != [] && index[id].length == |contents[id]|
    ensures |index[id].pages| == |Chunks(contents[id], size)| > 0 && index[id].pages[0] == id
    ensures Stored(file, size, index[id].pages, Chunks(contents[id], size))
  {
  }

  lemma StoredAt(file: seq<Byte>, size: nat, pages: seq<nat>, parts: seq<seq<Byte>>, i: nat)
    requires Stored(file, size, pages, parts) && i < |pages|
    ensures i < |parts| && |parts[i]| <= size && (pages[i] + 1) * size <= |file|
    ensures PageOf(file, pages[i], size)[..|parts[i]|] == parts[i]
  {
    var p, part := pages[i], parts[i];
    assert (p + 1) * size <= |file|;
  }

  /** Before piece `n`, `n` full pieces have been read. */
  lemma {:induction false} FullBefore(b: seq<Byte>, size: nat, n: nat)
    requires size > 0 && n < |Chunks(b, size)|
    ensures |Joined(Chunks(b, size)[..n])| == n * size
  {
    hide Chunks;
    var parts := Chunks(b, size);
    if n > 0 {
      FullBefore(b, size, n - 1);
      assert parts[..n][..n-1] == parts[..n-1];
      ChunkSizes(b, size, n - 1);
      ChunkSizes(b, size, n);
      assert (n - 1) * size + size == n * size;
    }
  }

  lemma LoadStep(b: seq<Byte>, size: nat, n: nat)
    requires size > 0 && n < |Chunks(b, size)|
    ensures
      var parts := Chunks(b, size);
      var rest := |b| - |Joined(parts[..n])|;
      && Joined(parts[..n+1]) == Joined(parts[..n]) + parts[n]
      && |parts[n]| == (if rest > size then size else rest) && |parts[n]| <= rest
      && (n + 1 == |parts| ==> parts[..n+1] == parts)
  {
    var parts := Chunks(b, size);
    assert parts[..n+1][..n] == parts[..n];
    FullBefore(b, size, n);
    ChunkSizes(b, size, n);
  }

  /** No entry uses page `p`. */
  ghost predicate Unused(held: map<int, seq<nat>>, p: nat) {
    forall id :: id in held ==> p !in held[id]
  }

  lemma PagesUpTo(p: nat, next: nat, size: nat)
    requires p <= next
    ensures p * size <= next * size
    ensures p < next ==> (p + 1) * size <= next * size
    ensures size > 0 && p == next ==> (p + 1) * size > next * size
  {
    PageBounds(p, size);
    if p < next {
      PagesApart(p, next, size);
    }
  }

  lemma TakenNew(next: nat, empty: seq<nat>, held: map<int, seq<nat>>, owner: seq<Owner>, id: int) returns (owner': seq<Owner>)
    requires Owned(next, empty, held, owner)
    ensures Owned(next + 1, empty, held[id := Pages(held, id) + [next]], owner') && Unused(held, next)
  {
    TakeNew(next, empty, held, owner, id);
    owner' := owner + [Of(id, |Pages(held, id)|)];
    forall k | k in held ensures next !in held[k] {
      assert forall i :: 0 <= i < |held[k]| ==> held[k][i] < next;
    }
  }

  lemma TakenFree(next: nat, empty: seq<nat>, empty': seq<nat>, held: map<int, seq<nat>>, owner: seq<Owner>, p: nat, id: int)
    returns (owner': seq<Owner>)
    requires Owned(next, empty, held, owner) && Popped(empty, empty', p)
    ensures Owned(next, empty', held[id := Pages(held, id) + [p]], owner') && Unused(held, p) && p < next
  {
    var k :| 0 <= k < |empty| && p == empty[k] && empty' == empty[..k] + empty[k+1..];
    TakeFree(next, empty, held, owner, k, id);
    owner' := owner[p := Of(id, |Pages(held, id)|)];
    assert p in empty;
    forall q | q in held ensures p !in held[q] {
      assert forall i :: 0 <= i < |held[q]| ==> owner[held[q][i]] == Of(q, i);
    }
  }

  lemma StoreStart(d: DiskStorageManager, data: seq<Byte>)
    requires d.Valid()
    ensures d.pageSize > 0 && d.Building([], data, Chunks(data, d.pageSize), Held(d.pageIndex), NEW_PAGE)
  {
    assert Chunks(data, d.pageSize)[0..] == Chunks(data, d.pageSize);
  }

  /** A finished entry goes into the index. */
  lemma StoreEnd(d: DiskStorageManager, data: seq<Byte>, pages: seq<nat>, rest: seq<Byte>, parts: seq<seq<Byte>>,
                 held: map<int, seq<nat>>, id: int)
    requires d.Building(pages, rest, parts, held, id) && rest == [] && data != [] && parts == Chunks(data, d.pageSize)
    ensures pages != [] && pages[0] !in d.contents
    ensures
      var index, contents := d.pageIndex[pages[0] := Entry(|data|, pages)], d.contents[pages[0] := data];
      && d.buffer.Length == d.pageSize && |d.dataFile| == d.nextPage * d.pageSize
      && Owned(d.nextPage, d.emptyPages, Held(index), d.owner) && Describes(index, d.dataFile, d.pageSize, contents)
  {
    FilledFacts(data, d.pageSize, parts, pages, rest);
    hide Owned, Describes, Stored, Chunks, Held;
    IndexAdd(d.pageIndex, d.dataFile, d.pageSize, d.contents, pages[0], Entry(|data|, pages), data);
  }

  lemma AssembleValid(d: DiskStorageManager)
    requires d.buffer.Length == d.pageSize && |d.dataFile| == d.nextPage * d.pageSize
    requires Owned(d.nextPage, d.emptyPages, Held(d.pageIndex), d.owner)
    requires Describes(d.pageIndex, d.dataFile, d.pageSize, d.contents)
    ensures d.Valid()
  {
  }

  /** The piece at the front of what is still to write. */
  lemma PieceFacts(rest: seq<Byte>, size: nat, parts: seq<seq<Byte>>, n: nat)
    requires size > 0 && rest != [] && n <= |parts| && parts[n..] == Chunks(rest, size)
    ensures
      var cLen := if |rest| > size then size else |rest|;
      && n < |parts| && parts[n] == rest[..cLen] && |parts[n]| == cLen <= size
      && parts[n+1..] == Chunks(rest[cLen..], size)
  {
    var cLen := if |rest| > size then size else |rest|;
    ChunksStep(rest, size, cLen);
    assert parts[n..][0] == parts[n] && parts[n..][1..] == parts[n+1..];
  }

  lemma FilledFacts(data: seq<Byte>, size: nat, parts: seq<seq<Byte>>, pages: seq<nat>, rest: seq<Byte>)
    requires size > 0 && data != [] && parts == Chunks(data, size) && |pages| <= |parts|
    requires rest == [] && parts[|pages|..] == Chunks(rest, size)
    ensures |pages| == |parts| > 0
  {
  }

  /** A page that no entry uses was written for the entry under construction. */
  lemma PieceWritten(file: seq<Byte>, size: nat, index: map<int, Entry>, contents: map<int, seq<Byte>>, held: map<int, seq<nat>>,
                     pages: seq<nat>, parts: seq<seq<Byte>>, p: nat, page: seq<Byte>)
    requires Describes(index, file, size, contents) && Unused(held, p)
    requires forall id :: id in index ==> id in held && held[id] == index[id].pages
    requires Stored(file, size, pages, parts) && |pages| < |parts| && p !in pages
    requires |page| == size && p * size <= |file| && |parts[|pages|]| <= size && page[..|parts[|pages|]|] == parts[|pages|]
    ensures Describes(index, Written(file, p, size, page), size, contents)
    ensures Stored(Written(file, p, size, page), size, pages + [p], parts)
  {
    StoredNext(file, size, pages, parts, p, page);
    DescribesKept(index, file, size, contents, p, page);
  }

  lemma DescribesKept(index: map<int, Entry>, file: seq<Byte>, size: nat, contents: map<int, seq<Byte>>, p: nat, page: seq<Byte>)
    requires Describes(index, file, size, contents) && |page| == size && p * size <= |file|
    requires forall id :: id in index ==> p !in index[id].pages
    ensures Describes(index, Written(file, p, size, page), size, contents)
  {
    hide Stored, Chunks, Written;
    forall id | id in index ensures Stored(Written(file, p, size, page), size, index[id].pages, Chunks(contents[id], size)) {
      StoredKept(file, size, index[id].pages, Chunks(contents[id], size), p, page);
    }
  }

  /** One turn of the loop that writes a new entry. */
  lemma NewPiece(file: seq<Byte>, size: nat, index: map<int, Entry>, contents: map<int, seq<Byte>>, held: map<int, seq<nat>>,
                 first: map<int, seq<nat>>, pages: seq<nat>, parts: seq<seq<Byte>>, p: nat, page: seq<Byte>, id: int)
    requires Describes(index, file, size, contents) && Unused(held, p) && first == Held(index)
    requires if pages == [] then id == p && held == first else id == pages[0] && id !in index && held == first[id := pages]
    requires Stored(file, size, pages, parts) && |pages| < |parts|
    requires |page| == size && p * size <= |file| && |parts[|pages|]| <= size && page[..|parts[|pages|]|] == parts[|pages|]
    ensures Describes(index, Written(file, p, size, page), size, contents)
    ensures Stored(Written(file, p, size, page), size, pages + [p], parts)
    ensures id == (pages + [p])[0] && id !in index && held[id := Pages(held, id) + [p]] == first[id := pages + [p]]
  {
    hide Stored, Chunks, Written;
    assert forall k :: k in index ==> index[k].pages[0] == k && index[k].pages[0] in index[k].pages;
    assert pages != [] ==> id in held && held[id] == pages;
    PieceWritten(file, size, index, contents, held, pages, parts, p, page);
  }

  lemma IndexAdd(index: map<int, Entry>, file: seq<Byte>, size: nat, contents: map<int, seq<Byte>>, id: int, e: Entry, data: seq<Byte>)
    requires Describes(index, file, size, contents) && data != [] && e.length == |data|
    requires |e.pages| == |Chunks(data, size)| > 0 && e.pages[0] == id && Stored(file, size, e.pages, Chunks(data, size))
    ensures Describes(index[id := e], file, size, contents[id := data])
    ensures Held(index[id := e]) == Held(index)[id := e.pages]
    ensures contents.Keys == index.Keys
  {
    hide Stored, Chunks;
  }

  lemma RestoredKeys(contents: map<int, seq<Byte>>, page: int, data: seq<Byte>)
    requires page in contents
    ensures (contents - {page})[page := data] == contents[page := data]
  {
  }

  /** Ids are page numbers, so none of them is the mark for a new page. */
  lemma KeysFacts(d: DiskStorageManager)
    requires d.Valid()
    ensures d.pageIndex.Keys == d.contents.Keys && NEW_PAGE !in d.contents
  {
    assert forall id :: id in d.pageIndex ==> d.pageIndex[id].pages[0] == id;
  }

  lemma RestoreStart(d: DiskStorageManager, page: int, data: seq<Byte>)
    requires d.Valid() && page in d.contents && data != []
    ensures page in d.pageIndex && d.pageSize > 0 && page != NEW_PAGE
    ensures
      var past, index, contents := d.pageIndex[page].pages, d.pageIndex - {page}, d.contents - {page};
      && d.buffer.Length == d.pageSize && |d.dataFile| == d.nextPage * d.pageSize
      && Owned(d.nextPage, d.emptyPages, Held(index)[page := past], d.owner)
      && Describes(index, d.dataFile, d.pageSize, contents) && page !in index
      && Stored(d.dataFile, d.pageSize, [], Chunks(data, d.pageSize)) && Chunks(data, d.pageSize)[0..] == Chunks(data, d.pageSize)
      && past != [] && past[0] == page && [] <= past
  {
    var index := d.pageIndex - {page};
    hide Stored, Chunks, Owned;
    assert Held(index)[page := d.pageIndex[page].pages] == Held(d.pageIndex);
    assert Stored(d.dataFile, d.pageSize, [], Chunks(data, d.pageSize)) by { StoredNone(d.dataFile, d.pageSize, Chunks(data, d.pageSize)); }
  }

  lemma RebuildStart(d: DiskStorageManager, page: int, past: seq<nat>, data: seq<Byte>)
    requires d.pageSize > 0 && d.buffer.Length == d.pageSize && |d.dataFile| == d.nextPage * d.pageSize
    requires Owned(d.nextPage, d.emptyPages, Held(d.pageIndex)[page := past], d.owner)
    requires Describes(d.pageIndex, d.dataFile, d.pageSize, d.contents) && page !in d.pageIndex
    requires Stored(d.dataFile, d.pageSize, [], Chunks(data, d.pageSize)) && Chunks(data, d.pageSize)[0..] == Chunks(data, d.pageSize)
    requires past != [] && past[0] == page
    ensures d.Rebuilding(page, past, [], data, Chunks(data, d.pageSize), Held(d.pageIndex)[page := past])
  {
  }

  lemma StoredNone(file: seq<Byte>, size: nat, parts: seq<seq<Byte>>)
    ensures Stored(file, size, [], parts)
  {
  }

  lemma ReuseFacts(d: DiskStorageManager, page: int, past: seq<nat>, pages: seq<nat>, rest: seq<Byte>, parts: seq<seq<Byte>>,
                   held: map<int, seq<nat>>, p: nat)
    requires d.Rebuilding(page, past, pages, rest, parts, held) && |pages| < |past| && p == past[|pages|]
    ensures (p + 1) * d.pageSize <= |d.dataFile| && p * d.pageSize <= |d.dataFile| && p !in pages
    ensures forall id :: id in d.pageIndex ==> p !in d.pageIndex[id].pages
    ensures pages + [p] <= past
  {
    var k := |pages|;
    assert held[page][k] == p;
    assert p < d.nextPage && d.owner[p] == Of(page, k);
    PagesUpTo(p, d.nextPage, d.pageSize);
    forall i | 0 <= i < |pages| ensures pages[i] != p {
      assert pages[i] == held[page][i];
    }
    forall id | id in d.pageIndex ensures p !in d.pageIndex[id].pages {
      assert held[id] == d.pageIndex[id].pages;
      assert forall i :: 0 <= i < |held[id]| ==> d.owner[held[id][i]] == Of(id, i);
    }
  }

  lemma ExtendFacts(d: DiskStorageManager, page: int, past: seq<nat>, pages: seq<nat>, rest: seq<Byte>, parts: seq<seq<Byte>>,
                    held: map<int, seq<nat>>)
    requires d.Rebuilding(page, past, pages, rest, parts, held) && |pages| >= |past|
    ensures page in held && held[page] == pages
    ensures forall id :: id in d.pageIndex ==> id in held && held[id] == d.pageIndex[id].pages
    ensures forall p :: Unused(held, p) ==> p !in pages
    ensures forall p: nat :: held[page := pages + [p]] == Held(d.pageIndex)[page := pages + [p]]
  {
    hide Owned, Stored, Describes;
  }

  /** A page that only the entry under construction uses was filled again. */
  lemma Repiece(file: seq<Byte>, size: nat, index: map<int, Entry>, contents: map<int, seq<Byte>>, pages: seq<nat>,
                parts: seq<seq<Byte>>, p: nat, page: seq<Byte>)
    requires Describes(index, file, size, contents) && forall id :: id in index ==> p !in index[id].pages
    requires Stored(file, size, pages, parts) && |pages| < |parts| && p !in pages && (p + 1) * size <= |file| && p * size <= |file|
    requires |page| == size && |parts[|pages|]| <= size && page[..|parts[|pages|]|] == parts[|pages|]
    ensures Describes(index, Written(file, p, size, page), size, contents)
    ensures Stored(Written(file, p, size, page), size, pages + [p], parts)
    ensures |Written(file, p, size, page)| == |file|
  {
    StoredNext(file, size, pages, parts, p, page);
    DescribesKept(index, file, size, contents, p, page);
  }

  lemma RestoreEnd(d: DiskStorageManager, page: int, past: seq<nat>, data: seq<Byte>, pages: seq<nat>, rest: seq<Byte>,
                   parts: seq<seq<Byte>>, held: map<int, seq<nat>>, cNext: nat)
    requires d.Rebuilding(page, past, pages, rest, parts, held) && rest == [] && data != [] && parts == Chunks(data, d.pageSize)
    requires cNext == if |pages| <= |past| then |pages| else |past|
    ensures
      var index, contents := d.pageIndex[page := Entry(|data|, pages)], d.contents[page := data];
      && d.buffer.Length == d.pageSize && |d.dataFile| == d.nextPage * d.pageSize
      && Owned(d.nextPage, d.emptyPages + past[cNext..], Held(index), Freed(d.owner, past[cNext..]))
      && Describes(index, d.dataFile, d.pageSize, contents)
  {
    hide Owned, Describes, Stored, Chunks, Held, Freed;
    FilledFacts(data, d.pageSize, parts, pages, rest);
    assert pages[0] == page;
    IndexAdd(d.pageIndex, d.dataFile, d.pageSize, d.contents, page, Entry(|data|, pages), data);
    RestoreOwned(d.nextPage, d.emptyPages, Held(d.pageIndex), held, d.owner, page, past, pages, cNext);
  }

  lemma RestoreOwned(next: nat, empty: seq<nat>, others: map<int, seq<nat>>, held: map<int, seq<nat>>, owner: seq<Owner>,
                     page: int, past: seq<nat>, pages: seq<nat>, cNext: nat)
    requires Owned(next, empty, held, owner) && held == others[page := if |pages| <= |past| then past else pages]
    requires if |pages| <= |past| then pages <= past else past <= pages
    requires cNext == if |pages| <= |past| then |pages| else |past|
    ensures Owned(next, empty + past[cNext..], others[page := pages], Freed(owner, past[cNext..]))
  {
    hide Owned, Freed;
    GiveBack(next, empty, held, owner, page, |pages|);
    assert held[page][|pages|..] == past[cNext..] && held[page][..|pages|] == pages;
    assert held[page := pages] == others[page := pages];
  }

  lemma DeleteFacts(d: DiskStorageManager, page: int)
    requires d.Valid() && page in d.pageIndex
    ensures
      var index, contents, pages := d.pageIndex - {page}, d.contents - {page}, d.pageIndex[page].pages;
      && page in d.contents && d.buffer.Length == d.pageSize && |d.dataFile| == d.nextPage * d.pageSize
      && Owned(d.nextPage, d.emptyPages + pages[0..], Held(index), Freed(d.owner, pages[0..]))
      && Describes(index, d.dataFile, d.pageSize, contents)
  {
    var held, pages := Held(d.pageIndex), d.pageIndex[page].pages;
    hide Owned, Stored, Chunks;
    GiveBack(d.nextPage, d.emptyPages, held, d.owner, page, 0);
    assert held[page][0..] == pages && held[page][..0] == [];
    DropEntry(d.nextPage, d.emptyPages + pages[0..], held[page := []], Freed(d.owner, pages[0..]), page);
    assert held[page := []] - {page} == Held(d.pageIndex - {page});
  }

  /** Why lengths are positive: overwriting an entry with no bytes frees all its pages, its first one
      among them, so the id in use would be the next one given to a new entry. */
  lemma EmptyUpdateFreesId(next: nat, empty: seq<nat>, held: map<int, seq<nat>>, owner: seq<Owner>, id: int)
    requires Owned(next, empty, held, owner) && id in held && held[id] != [] && held[id][0] == id
    ensures Owned(next, empty + held[id][0..], held[id := []], Freed(owner, held[id][0..])) && id in empty + held[id][0..]
  {
    GiveBack(next, empty, held, owner, id, 0);
    assert held[id][..0] == [];
    assert held[id][0..][0] == id;
  }

  // ---------------------------------------------------------------- closing and opening again

  ghost function Numbers(pages: seq<nat>): (r: seq<int>)
    ensures |r| == |pages| && forall i :: 0 <= i < |r| ==> r[i] == pages[i]
  {
    seq(|pages|, i requires 0 <= i < |pages| => pages[i])
  }

  ghost function EntryTokens(id: int, e: Entry): seq<int> {
    [id, e.length, |e.pages|] + Numbers(e.pages)
  }

  ghost function TableTokens(es: seq<(int, Entry)>): seq<int> {
    if es == [] then [] else TableTokens(es[..|es|-1]) + EntryTokens(es[|es|-1].0, es[|es|-1].1)
  }

  /** The numbers of the index file: page size, next page, the free pages, the table of entries. */
  ghost function Layout(size: nat, next: nat, free: seq<nat>, es: seq<(int, Entry)>): seq<int> {
    [size, next, |free|] + Numbers(free) + [|es|] + TableTokens(es)
  }

  ghost function Table(es: seq<(int, Entry)>): map<int, Entry> {
    if es == [] then map[] else Table(es[..|es|-1])[es[|es|-1].0 := es[|es|-1].1]
  }

  lemma TableNext(es: seq<(int, Entry)>, k: nat)
    requires k < |es|
    ensures TableTokens(es[..k+1]) == TableTokens(es[..k]) + EntryTokens(es[k].0, es[k].1)
    ensures Table(es[..k+1]) == Table(es[..k])[es[k].0 := es[k].1]
  {
    assert es[..k+1][..k] == es[..k];
  }

  lemma {:induction false} TablePrefix(es: seq<(int, Entry)>, k: nat)
    requires k <= |es|
    ensures TableTokens(es[..k]) <= TableTokens(es)
    decreases |es| - k
  {
    if k == |es| {
      assert es[..k] == es;
    } else {
      TablePrefix(es, k + 1);
      TableNext(es, k);
    }
  }

  /** What a closed store looks like on disk, for some order of its free pages and entries. */
  ghost predicate Saved(indexFile: seq<int>, size: nat, next: nat, free: seq<nat>, es: seq<(int, Entry)>) {
    Layout(size, next, free, es) <= indexFile
  }

  method WriteNumbers(tokens: seq<int>, pages: seq<nat>) returns (out: seq<int>)
    ensures out == tokens + Numbers(pages)
  {
    out := tokens;
    for cIndex := 0 to |pages|
      invariant out == tokens + Numbers(pages)[..cIndex]
    {
      out := out + [pages[cIndex]];
    }
  }

  /** Reads one number, if there is one left. */
  method ReadNumber(file: seq<int>, pos: nat) returns (ok: bool, v: int, pos': nat)
    ensures ok <==> pos < |file|
    ensures ok ==> v == file[pos] && pos' == pos + 1
    ensures pos <= |file| ==> pos <= pos' <= |file|
  {
    if pos < |file| {
      return true, file[pos], pos + 1;
    }
    return false, 0, pos;
  }

  /** Reads `count` page numbers. */
  method ReadNumbers(file: seq<int>, pos: nat, count: int, ghost pages: seq<nat>) returns (ok: bool, out: seq<nat>, pos': nat)
    requires pos <= |file|
    ensures pos <= pos' <= |file|
    ensures count == |pages| && Numbers(pages) <= file[pos..] ==> ok && out == pages && pos' == pos + |pages|
  {
    ok, out, pos' := true, [], pos;
    var cCount := 0;
    while cCount < count
      invariant pos <= pos' <= |file| && pos' == pos + cCount && |out| == cCount
      invariant count == |pages| && Numbers(pages) <= file[pos..] ==> cCount <= |pages| && out == pages[..cCount]
      decreases count - cCount
    {
      var good, v, next := ReadNumber(file, pos');
      assert count == |pages| && Numbers(pages) <= file[pos..] ==> file[pos..][cCount] == Numbers(pages)[cCount];
      if !good || v < 0 {
        return false, out, pos';
      }
      out, pos' := out + [v], next;
      cCount := cCount + 1;
    }
  }

  /** A popped page moves from the queue to the end of the list. */
  lemma PoppedMoves(before: seq<nat>, after: seq<nat>, p: nat, free: seq<nat>)
    requires Popped(before, after, p)
    ensures |before| == |after| + 1 && Numbers(free + [p]) == Numbers(free) + [p]
    ensures multiset((free + [p]) + after) == multiset(free + before)
  {
    var k :| 0 <= k < |before| && p == before[k] && after == before[..k] + before[k+1..];
    assert before == before[..k] + [p] + before[k+1..];
  }

  lemma OwnedFacts(d: DiskStorageManager)
    requires d.Valid()
    ensures Owned(d.nextPage, d.emptyPages, Held(d.pageIndex), d.owner)
  {
  }

  /** Another order of the free queue describes the same free pages. */
  lemma OwnedReordered(next: nat, empty: seq<nat>, free: seq<nat>, held: map<int, seq<nat>>, owner: seq<Owner>)
    requires Owned(next, empty, held, owner) && multiset(free) == multiset(empty)
    ensures Owned(next, free, held, owner)
    ensures forall p :: p in free <==> p in empty
  {
    forall p ensures p in free <==> p in empty {
      assert p in multiset(free) <==> p in multiset(empty);
    }
    forall i, j | 0 <= i < j < |free| ensures free[i] != free[j] {
      if free[i] == free[j] {
        TwiceIn(free, i, j);
        OnceEach(empty, free[i]);
        assert false;
      }
    }
  }

  lemma FlushFacts(d: DiskStorageManager, empty: seq<nat>, free: seq<nat>, es: seq<(int, Entry)>)
    requires Owned(d.nextPage, empty, Held(d.pageIndex), d.owner) && multiset(free) == multiset(empty)
    requires Table(es) == d.pageIndex
    ensures Owned(d.nextPage, free, Held(Table(es)), d.owner)
    ensures forall p :: p in free <==> p in empty
  {
    OwnedReordered(d.nextPage, empty, free, Held(d.pageIndex), d.owner);
  }

  lemma LayoutMade(tokens: seq<int>, size: nat, next: nat, free: seq<nat>, es: seq<(int, Entry)>)
    requires tokens == [size, next, |free|] + Numbers(free) + [|es|] + TableTokens(es)
    ensures tokens == Layout(size, next, free, es)
  {
  }

  lemma SavedIn(tokens: seq<int>, file: seq<int>, size: nat, next: nat, free: seq<nat>, es: seq<(int, Entry)>)
    requires tokens == Layout(size, next, free, es) && tokens <= file
    ensures Saved(file, size, next, free, es)
  {
  }

  /** Reads one entry of the table. */
  method ReadEntry(file: seq<int>, pos: nat, ghost id0: int, ghost e0: Entry) returns (ok: bool, id: int, e: Entry, pos': nat)
    requires pos <= |file|
    ensures pos <= pos' <= |file|
    ensures EntryTokens(id0, e0) <= file[pos..] ==> ok && id == id0 && e == e0 && pos' == pos + |EntryTokens(id0, e0)|
  {
    ghost var tokens := EntryTokens(id0, e0);
    ghost var good := tokens <= file[pos..];
    assert good ==> file[pos..][0] == tokens[0] && file[pos..][1] == tokens[1] && file[pos..][2] == tokens[2];
    id, e, pos' := 0, Entry(0, []), pos;
    var length: int, count: int;
    ok, id, pos' := ReadNumber(file, pos);
    if !ok { return; }
    ok, length, pos' := ReadNumber(file, pos');
    if !ok { return; }
    ok, count, pos' := ReadNumber(file, pos');
    if !ok { return; }
    if length < 0 {
      return false, id, e, pos';
    }
    assert good ==> Numbers(e0.pages) <= file[pos+3..] by {
      if good {
        assert tokens[3..] == Numbers(e0.pages) && file[pos..][3..] == file[pos+3..];
      }
    }
    var pages;
    ok, pages, pos' := ReadNumbers(file, pos', count, e0.pages);
    e := Entry(length, pages);
  }

  /** Reads the table of entries. */
  method ReadTable(file: seq<int>, pos: nat, count: int, ghost es: seq<(int, Entry)>) returns (ok: bool, index: map<int, Entry>)
    requires pos <= |file|
    ensures count == |es| && TableTokens(es) <= file[pos..] && NoIdTwice(es) ==> ok && index == Table(es)
  {
    ghost var good := count == |es| && TableTokens(es) <= file[pos..] && NoIdTwice(es);
    index, ok := map[], true;
    var cCount, next := 0, pos;
    while cCount < count
      invariant pos <= next <= |file| && 0 <= cCount
      invariant good ==> cCount <= |es| && next == pos + |TableTokens(es[..cCount])| && index == Table(es[..cCount])
      invariant good ==> forall i :: cCount <= i < |es| ==> es[i].0 !in index
      decreases count - cCount
    {
      ghost var id0, e0 := 0, Entry(0, []);
      if good {
        id0, e0 := es[cCount].0, es[cCount].1;
        NextEntry(file, pos, es, cCount);
      }
      var id, e;
      ok, id, e, next := ReadEntry(file, next, id0, e0);
      if !ok {
        return false, index;
      }
      if id !in index {
        index := index[id := e];
      }
      cCount := cCount + 1;
    }
    assert good ==> es[..|es|] == es;
  }

  lemma NextEntry(file: seq<int>, pos: nat, es: seq<(int, Entry)>, k: nat)
    requires pos <= |file| && TableTokens(es) <= file[pos..] && k < |es|
    ensures
      var at := pos + |TableTokens(es[..k])|;
      && at <= |file| && EntryTokens(es[k].0, es[k].1) <= file[at..]
      && TableTokens(es[..k+1]) == TableTokens(es[..k]) + EntryTokens(es[k].0, es[k].1)
      && Table(es[..k+1]) == Table(es[..k])[es[k].0 := es[k].1]
  {
    TableNext(es, k);
    TablePrefix(es, k + 1);
    var before, entry := TableTokens(es[..k]), EntryTokens(es[k].0, es[k].1);
    assert before + entry <= file[pos..];
    assert file[pos..][|before|..] == file[pos + |before|..];
    assert (before + entry)[|before|..] == entry;
  }

  /** Opens a store on existing files. */
  method Reopen(indexFile: seq<int>, dataFile: seq<Byte>, ghost size: nat, ghost next: nat, ghost free: seq<nat>,
                ghost es: seq<(int, Entry)>, ghost contents: map<int, seq<Byte>>, ghost owner: seq<Owner>)
    returns (ok: bool, d: DiskStorageManager?)
    ensures Saved(indexFile, size, next, free, es) && NoIdTwice(es) && |dataFile| == next * size
         && Owned(next, free, Held(Table(es)), owner) && Describes(Table(es), dataFile, size, contents)
         ==> ok && d != null && fresh(d) && d.Valid() && d.contents == contents && d.emptyPages == free
             && d.nextPage == next && d.pageSize == size && d.pageIndex == Table(es)
  {
    ghost var good := Saved(indexFile, size, next, free, es) && NoIdTwice(es);
    HeadFacts(indexFile, size, next, free, es);
    hide *;
    d := null;
    var pageSize: int, nextPage: int, count: int, pos: nat;
    ok, pageSize, pos := ReadNumber(indexFile, 0);
    if !ok { return; }
    ok, nextPage, pos := ReadNumber(indexFile, pos);
    if !ok { return; }
    ok, count, pos := ReadNumber(indexFile, pos);
    if !ok || pageSize < 0 || nextPage < 0 {
      return false, null;
    }
    var emptyPages, pageIndex;
    ok, emptyPages, pos := ReadNumbers(indexFile, pos, count, free);
    if !ok { return; }
    ok, count, pos := ReadNumber(indexFile, pos);
    if !ok { return; }
    ok, pageIndex := ReadTable(indexFile, pos, count, es);
    if !ok { return; }
    d := new DiskStorageManager.Reopened(pageSize, nextPage, emptyPages, pageIndex, indexFile, dataFile, contents, owner);
    if good && |dataFile| == next * size && Owned(next, free, Held(Table(es)), owner) && Describes(Table(es), dataFile, size, contents) {
      AssembleValid(d);
    }
  }

  lemma HeadFacts(file: seq<int>, size: nat, next: nat, free: seq<nat>, es: seq<(int, Entry)>)
    ensures Saved(file, size, next, free, es) ==>
      && |file| >= 4 + |free| && file[0] == size && file[1] == next && file[2] == |free| && Numbers(free) <= file[3..]
      && file[3 + |free|] == |es| && TableTokens(es) <= file[4 + |free|..]
  {
    if Saved(file, size, next, free, es) {
      hide Numbers, TableTokens;
      LayoutParts(size, next, |free|, Numbers(free), |es|, TableTokens(es), file);
    }
  }

  lemma LayoutParts(size: int, next: int, k: nat, numbers: seq<int>, count: int, table: seq<int>, file: seq<int>)
    requires [size, next, k] + numbers + [count] + table <= file && |numbers| == k
    ensures |file| >= 4 + k && file[0] == size && file[1] == next && file[2] == k && numbers <= file[3..]
    ensures file[3 + k] == count && table <= file[4 + k..]
  {
    var all := [size, next, k] + numbers + [count] + table;
    assert file == all + file[|all|..];
    assert file[3..] == numbers + ([count] + table + file[|all|..]);
    assert file[4 + k..] == table + file[|all|..];
  }

  /** Closing a store and opening it again gives the same byte arrays under the same ids and the same
      free pages. */
  method CloseAndReopen(d: DiskStorageManager) returns (again: DiskStorageManager)
    requires d.Valid()
    modifies d
    ensures again.Valid() && again.contents == old(d.contents) && again.pageSize == old(d.pageSize)
    ensures again.nextPage == old(d.nextPage) && forall p :: p in again.emptyPages <==> p in old(d.emptyPages)
  {
    ghost var free, es;
    ClosedFacts(d);
    hide *;
    ghost var contents, owner := d.contents, d.owner;
    free, es := d.Flush();
    ghost var index := d.pageIndex;
    var ok, d' := Reopen(d.indexFile, d.dataFile, d.pageSize, d.nextPage, free, es, contents, owner);
    again := d';
  }

  lemma ClosedFacts(d: DiskStorageManager)
    requires d.Valid()
    ensures |d.dataFile| == d.nextPage * d.pageSize && Describes(d.pageIndex, d.dataFile, d.pageSize, d.contents)
  {
  }
}
