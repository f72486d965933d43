/** Whole runs through the randomly evicting buffer against the same run on the store alone. */
module BufferRuns {
  import opened MemoryStorage

  datatype Operation = Read(page: int) | Write(page: int, data: Bytes) | Erasure(page: int)

  /** The answer to an operation: whether it was accepted, the page and the bytes handed back. */
  datatype Answer = Answer(ok: bool, page: int, data: Bytes)

  /** What the operation does to a store that has no buffer in front of it, and what that store answers. */
  ghost function After(store: Store, op: Operation): Store {
    match op
    case Read(_) => store
    case Write(page, data) => if page == NEW_PAGE then store.Added(data) else if store.Live(page) then store.Replaced(page, data) else store
    case Erasure(page) => if store.Live(page) then store.Removed(page) else store
  }

  ghost function AnswerOf(store: Store, op: Operation): Answer {
    match op
    case Read(page) => if store.Live(page) then Answer(true, page, store.slots[page].data) else Answer(false, page, [])
    case Write(page, data) => Answer(StoreTakes(store, page), if page == NEW_PAGE then store.NextId() else page, [])
    case Erasure(page) => Answer(store.Live(page), page, [])
  }

  ghost function State(ops: seq<Operation>): Store {
    if ops == [] then Store([], []) else After(State(ops[..|ops|-1]), ops[|ops|-1])
  }

  /** The store alone would take every write of the run. */
  ghost predicate Known(ops: seq<Operation>) {
    forall i :: 0 <= i < |ops| && ops[i].Write? ==> StoreTakes(State(ops[..i]), ops[i].page)
  }

  /** One operation through the buffer. */
  method Apply(buffer: RandomEvictionsBuffer, op: Operation) returns (answer: Answer)
    requires buffer.Valid() && (buffer.writeThrough || (op.Write? ==> StoreTakes(buffer.Through(), op.page)))
    modifies buffer`buffer, buffer.sm
    ensures buffer.Valid() && buffer.Through() == After(old(buffer.Through()), op) && answer == AnswerOf(old(buffer.Through()), op)
  {
    hide RandomEvictionsBuffer.Valid, RandomEvictionsBuffer.Through, Overlay, Store.Added, Store.Replaced, Store.Removed;
    match op
    case Read(page) =>
      var ok, data := buffer.Load(page);
      answer := Answer(ok, page, if ok then data else []);
    case Write(page, data) =>
      var ok, page' := buffer.StoreBytes(page, data);
      answer := Answer(ok, page', []);
    case Erasure(page) =>
      var ok := buffer.Delete(page);
      answer := Answer(ok, page, []);
  }

  /** Any run through a buffer that writes through, or whose writes the store alone would take: the answers
      are those of the store alone, whatever was evicted on the way, and after `clear` so is the store. */
  method Run(ops: seq<Operation>, capacity: nat, writeThrough: bool) returns (sm: MemoryStorageManager, answers: seq<Answer>)
    requires capacity >= 1 && (writeThrough || Known(ops))
    ensures sm.Valid() && sm.State() == State(ops)
    ensures |answers| == |ops| && forall i :: 0 <= i < |ops| ==> answers[i] == AnswerOf(State(ops[..i]), ops[i])
  {
    hide RandomEvictionsBuffer.Valid, RandomEvictionsBuffer.Through, After, AnswerOf, StoreTakes;
    sm := new MemoryStorageManager();
    var buffer := new RandomEvictionsBuffer(sm, capacity, writeThrough);
    answers := [];
    for i := 0 to |ops|
      invariant fresh(buffer) && fresh(sm) && buffer.sm == sm && buffer.writeThrough == writeThrough
      invariant buffer.Valid() && buffer.Through() == State(ops[..i])
      invariant |answers| == i && forall j :: 0 <= j < i ==> answers[j] == AnswerOf(State(ops[..j]), ops[j])
    {
      assert ops[..i+1][..i] == ops[..i];
      var answer := Apply(buffer, ops[i]);
      answers := answers + [answer];
    }
    assert ops[..|ops|] == ops;
    buffer.Clear();
    StoreLeft(buffer);
  }

  lemma StoreLeft(buffer: RandomEvictionsBuffer)
    requires buffer.Valid()
    ensures buffer.sm.Valid()
  {
  }

  /** A write-back buffer that is given an unknown id answers otherwise than the store alone. */
  lemma UnknownDiffers()
    ensures !Known([Write(5, [])]) && BufferTakes(State([]), 5, false) && !AnswerOf(State([]), Write(5, [])).ok
  {
    assert [Write(5, [])][..0] == [];
  }
}
