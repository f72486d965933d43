/** Runs of programs over pool pointers: which sequences of copies, assignments, destructions and
    relinquishments execute without a null dereference. */
module PointerRuns {
  import opened Lists
  import opened PoolPointers

  /** What a program does; the pointers are numbered in the order of their construction. */
  datatype Operation =
    | FromPool(pool: nat)
    | Default
    | CopyOf(source: nat)
    | Assignment(target: nat, source: nat)
    | Destruction(x: nat)
    | Relinquishment(x: nat)

  /** What the text of a program tells of a pointer: destroyed, detached, or sharing with all the others
      of its group. */
  datatype Slot = Gone | Detached | In(group: nat)

  ghost predicate Live(slots: seq<Slot>, x: nat) {
    x < |slots| && !slots[x].Gone?
  }

  ghost predicate Shared(slots: seq<Slot>, x: nat) {
    x < |slots| && slots[x].In? && exists y :: 0 <= y < |slots| && y != x && slots[y] == slots[x]
  }

  ghost function After(slots: seq<Slot>, op: Operation): seq<Slot> {
    match op
    case FromPool(_) => slots + [In(|slots|)]
    case Default => slots + [In(|slots|)]
    case CopyOf(s) => if s < |slots| then slots + [slots[s]] else slots
    case Assignment(t, s) => if t < |slots| && s < |slots| then slots[t := slots[s]] else slots
    case Destruction(x) => if x < |slots| then slots[x := Gone] else slots
    case Relinquishment(x) => if Shared(slots, x) then slots[x := Detached] else slots
  }

  ghost function State(ops: seq<Operation>): seq<Slot> {
    if ops == [] then [] else After(State(ops[..|ops|-1]), ops[|ops|-1])
  }

  /** The operation uses pointers that have been constructed and not been destroyed. */
  ghost predicate Refers(slots: seq<Slot>, op: Operation, poolCount: nat) {
    match op
    case FromPool(pool) => pool < poolCount
    case Default => true
    case CopyOf(s) => Live(slots, s)
    case Assignment(t, s) => Live(slots, t) && Live(slots, s)
    case Destruction(x) => Live(slots, x)
    case Relinquishment(x) => Live(slots, x)
  }

  ghost predicate Legal(ops: seq<Operation>, poolCount: nat) {
    forall i :: 0 <= i < |ops| ==> Refers(State(ops[..i]), ops[i], poolCount)
  }

  /** The operation copies or assigns from pointer `x` to another one. */
  ghost predicate Reads(op: Operation, x: nat) {
    op == CopyOf(x) || (op.Assignment? && op.source == x && op.target != x)
  }

  ghost predicate Harmless(slots: seq<Slot>, op: Operation) {
    forall x :: 0 <= x < |slots| && slots[x].Detached? ==> !Reads(op, x)
  }

  ghost predicate Safe(ops: seq<Operation>) {
    forall i :: 0 <= i < |ops| ==> Harmless(State(ops[..i]), ops[i])
  }

  // ---------------------------------------------------------------- pointers and slots

  /** The pointers are as the text of the program tells: those of one group, and no others, share. */
  ghost predicate Tells(live: set<PoolPointer>, pointers: seq<PoolPointer>, members: seq<set<PoolPointer>>, slots: seq<Slot>) {
    && |pointers| == |members| == |slots| && NoDuplicates(pointers)
    && (forall i :: 0 <= i < |slots| ==> (pointers[i] in live <==> !slots[i].Gone?))
    && (forall i :: 0 <= i < |slots| && slots[i].In? ==> slots[i].group < |slots|)
    && (forall m :: m in live ==> m in pointers)
    && (forall i :: 0 <= i < |slots| && pointers[i] in live ==> members[i] <= live)
    && (forall i, j {:trigger pointers[j] in members[i]} :: 0 <= i < |slots| && 0 <= j < |slots| && pointers[i] in live ==>
          (pointers[j] in members[i] <==> slots[i].In? && slots[j] == slots[i]))
  }

  ghost function AllMembers(pointers: seq<PoolPointer>): (r: seq<set<PoolPointer>>)
    reads pointers
    ensures |r| == |pointers| && forall i :: 0 <= i < |r| ==> r[i] == pointers[i].Members()
  {
    if pointers == [] then [] else AllMembers(pointers[..|pointers|-1]) + [pointers[|pointers|-1].Members()]
  }

  /** A new pointer in a ring of its own. */
  lemma AddAlone(live: set<PoolPointer>, pointers: seq<PoolPointer>, members: seq<set<PoolPointer>>, slots: seq<Slot>, x: PoolPointer)
    requires Tells(live, pointers, members, slots) && x !in live && x !in pointers
    ensures Tells(live + {x}, pointers + [x], members + [{x}], slots + [In(|slots|)])
  {
  }

  /** A new pointer in the ring of pointer `s`. */
  lemma AddCopy(live: set<PoolPointer>, pointers: seq<PoolPointer>, members: seq<set<PoolPointer>>, slots: seq<Slot>, x: PoolPointer,
                s: nat, after: seq<set<PoolPointer>>)
    requires Tells(live, pointers, members, slots) && x !in live && x !in pointers && Live(slots, s) && slots[s].In?
    requires |after| == |members| + 1 && after[|members|] == members[s] + {x}
    requires forall i :: 0 <= i < |members| && pointers[i] in live ==> after[i] == if pointers[i] in members[s] then members[s] + {x} else members[i]
    ensures Tells(live + {x}, pointers + [x], after, slots + [slots[s]])
  {
  }

  /** Pointer `t` moves to the ring of pointer `s`. */
  lemma MoveTo(live: set<PoolPointer>, pointers: seq<PoolPointer>, members: seq<set<PoolPointer>>, slots: seq<Slot>, t: nat,
               s: nat, after: seq<set<PoolPointer>>)
    requires Tells(live, pointers, members, slots) && Live(slots, s) && Live(slots, t) && s != t && slots[s].In? && |after| == |members|
    requires forall i :: 0 <= i < |members| && pointers[i] in live ==>
      after[i] == if pointers[i] in members[s] || i == t then members[s] + {pointers[t]} else members[i] - {pointers[t]}
    ensures Tells(live, pointers, after, slots[t := slots[s]])
  {
    DifferentPointers(pointers, t);
  }

  /** Pointer `x` is destroyed. */
  lemma Remove(live: set<PoolPointer>, pointers: seq<PoolPointer>, members: seq<set<PoolPointer>>, slots: seq<Slot>, x: nat, after: seq<set<PoolPointer>>)
    requires Tells(live, pointers, members, slots) && Live(slots, x) && |after| == |members|
    requires forall i :: 0 <= i < |members| && i != x && pointers[i] in live ==> after[i] == members[i] - {pointers[x]}
    ensures Tells(live - {pointers[x]}, pointers, after, slots[x := Gone])
  {
    DifferentPointers(pointers, x);
  }

  /** Pointer `x` leaves its ring and is detached. */
  lemma Detach(live: set<PoolPointer>, pointers: seq<PoolPointer>, members: seq<set<PoolPointer>>, slots: seq<Slot>, x: nat, after: seq<set<PoolPointer>>)
    requires Tells(live, pointers, members, slots) && Live(slots, x) && |after| == |members| && after[x] == {}
    requires forall i :: 0 <= i < |members| && i != x && pointers[i] in live ==> after[i] == members[i] - {pointers[x]}
    ensures Tells(live, pointers, after, slots[x := Detached])
  {
    DifferentPointers(pointers, x);
  }

  lemma DifferentPointers(pointers: seq<PoolPointer>, x: nat)
    requires NoDuplicates(pointers) && x < |pointers|
    ensures forall i :: 0 <= i < |pointers| && i != x ==> pointers[i] != pointers[x]
  {
  }

  // ---------------------------------------------------------------- the run

  ghost predicate Matches(program: Program, pointers: seq<PoolPointer>, slots: seq<Slot>)
    reads program`live, pointers
  {
    Tells(program.live, pointers, AllMembers(pointers), slots)
  }

  lemma MatchesFacts(program: Program, pointers: seq<PoolPointer>, slots: seq<Slot>)
    requires Matches(program, pointers, slots)
    ensures |pointers| == |slots| && forall i: nat :: Live(slots, i) ==> pointers[i] in program.live
    ensures NoDuplicates(pointers) && forall i, j :: 0 <= i < j < |pointers| ==> pointers[i] != pointers[j]
  {
  }

  /** A pointer is detached, or shares, as its slot says. */
  lemma SlotFacts(program: Program, pointers: seq<PoolPointer>, slots: seq<Slot>, x: nat)
    requires program.Valid() && Matches(program, pointers, slots) && Live(slots, x)
    ensures pointers[x].ring == [] <==> slots[x].Detached?
    ensures |pointers[x].ring| > 1 <==> Shared(slots, x)
    ensures pointers[x].ring != [] ==> pointers[x] in pointers[x].ring
  {
    var p, members := pointers[x], AllMembers(pointers);
    program.Sharing(p);
    program.RingFacts(p);
    hide Program.Valid;
    if |p.ring| > 1 {
      var y := if p.ring[0] == p then p.ring[1] else p.ring[0];
      assert y in p.Members() && y in program.live;
      var j :| 0 <= j < |pointers| && pointers[j] == y;
      assert pointers[j] in members[x];
    }
    if Shared(slots, x) {
      var j :| 0 <= j < |slots| && j != x && slots[j] == slots[x];
      assert pointers[j] in members[x] && pointers[x] in members[x];
      DifferentPointers(pointers, x);
    }
    assert pointers[x] in members[x] <==> slots[x].In?;
  }

  lemma AloneListed(pointers: seq<PoolPointer>, members: seq<set<PoolPointer>>, x: PoolPointer)
    requires members == AllMembers(pointers) && x.ring == [x]
    ensures AllMembers(pointers + [x]) == members + [{x}]
  {
    assert x.Members() == {x};
  }

  method StepFromPool(program: Program, pl: PointerPool, pointers: seq<PoolPointer>, ghost slots: seq<Slot>) returns (x: PoolPointer)
    requires program.Valid() && pl in program.pools && Matches(program, pointers, slots)
    modifies program`place, program`live, pl`pool
    ensures program.Valid() && fresh(x) && program.live == old(program.live) + {x}
    ensures Matches(program, pointers + [x], After(slots, FromPool(0)))
  {
    hide Program.Valid, Tells;
    ghost var live, members := program.live, AllMembers(pointers);
    MatchesFacts(program, pointers, slots);
    x := program.AcquireFrom(pl);
    AddAlone(live, pointers, members, slots, x);
    AloneListed(pointers, members, x);
  }

  method StepDefault(program: Program, pointers: seq<PoolPointer>, ghost slots: seq<Slot>) returns (x: PoolPointer)
    requires program.Valid() && Matches(program, pointers, slots)
    modifies program`live
    ensures program.Valid() && fresh(x) && program.live == old(program.live) + {x}
    ensures Matches(program, pointers + [x], After(slots, Default))
  {
    hide Program.Valid, Tells;
    ghost var live, members := program.live, AllMembers(pointers);
    MatchesFacts(program, pointers, slots);
    x := program.Default();
    AddAlone(live, pointers, members, slots, x);
    AloneListed(pointers, members, x);
  }

  method StepCopy(program: Program, pointers: seq<PoolPointer>, s: nat, ghost slots: seq<Slot>) returns (ok: bool, x: PoolPointer)
    requires program.Valid() && Matches(program, pointers, slots) && Live(slots, s) && s < |pointers|
    modifies program`place, program`live, program.live
    ensures fresh(x) && program.live == old(program.live) + {x}
    ensures ok <==> Harmless(slots, CopyOf(s))
    ensures ok ==> program.Valid() && Matches(program, pointers + [x], After(slots, CopyOf(s)))
  {
    hide Program.Valid, Tells;
    ghost var live, members := program.live, AllMembers(pointers);
    MatchesFacts(program, pointers, slots);
    SlotFacts(program, pointers, slots, s);
    ok, x := program.Copy(pointers[s]);
    if ok {
      AddCopy(live, pointers, members, slots, x, s, AllMembers(pointers + [x]));
    }
  }

  method StepAssign(program: Program, pointers: seq<PoolPointer>, t: nat, s: nat, ghost slots: seq<Slot>) returns (ok: bool)
    requires program.Valid() && Matches(program, pointers, slots) && Live(slots, t) && Live(slots, s) && t < |pointers| && s < |pointers|
    modifies program`place, program.live, program.pools
    ensures ok <==> Harmless(slots, Assignment(t, s))
    ensures ok ==> program.Valid() && Matches(program, pointers, After(slots, Assignment(t, s)))
  {
    hide Program.Valid, Tells;
    ghost var live, members := program.live, AllMembers(pointers);
    MatchesFacts(program, pointers, slots);
    SlotFacts(program, pointers, slots, s);
    SlotFacts(program, pointers, slots, t);
    DifferentPointers(pointers, t);
    ok := program.Assign(pointers[t], pointers[s]);
    if ok && s != t {
      MoveTo(live, pointers, members, slots, t, s, AllMembers(pointers));
    } else if ok {
      Untouched(live, pointers, members, slots, AllMembers(pointers));
      assert slots[t := slots[s]] == slots;
    }
  }

  lemma Untouched(live: set<PoolPointer>, pointers: seq<PoolPointer>, members: seq<set<PoolPointer>>, slots: seq<Slot>, after: seq<set<PoolPointer>>)
    requires Tells(live, pointers, members, slots) && |after| == |members|
    requires forall i :: 0 <= i < |members| && pointers[i] in live ==> after[i] == members[i]
    ensures Tells(live, pointers, after, slots)
  {
  }

  method StepDestroy(program: Program, pointers: seq<PoolPointer>, x: nat, ghost slots: seq<Slot>)
    requires program.Valid() && Matches(program, pointers, slots) && Live(slots, x) && x < |pointers|
    modifies program`place, program`live, program.live, program.pools
    ensures program.Valid() && program.live == old(program.live) - {pointers[x]}
    ensures Matches(program, pointers, After(slots, Destruction(x)))
  {
    hide Program.Valid, Tells;
    ghost var live, members := program.live, AllMembers(pointers);
    MatchesFacts(program, pointers, slots);
    SlotFacts(program, pointers, slots, x);
    DifferentPointers(pointers, x);
    program.Destroy(pointers[x]);
    Remove(live, pointers, members, slots, x, AllMembers(pointers));
  }

  method StepRelinquish(program: Program, pointers: seq<PoolPointer>, x: nat, ghost slots: seq<Slot>)
    requires program.Valid() && Matches(program, pointers, slots) && Live(slots, x) && x < |pointers|
    modifies program`place, program.live
    ensures program.Valid()
    ensures Matches(program, pointers, After(slots, Relinquishment(x)))
  {
    hide Program.Valid, Tells;
    ghost var live, members := program.live, AllMembers(pointers);
    MatchesFacts(program, pointers, slots);
    SlotFacts(program, pointers, slots, x);
    DifferentPointers(pointers, x);
    if !Shared(slots, x) {
      NotAmong(program, pointers, slots, x);
    }
    program.Relinquish(pointers[x]);
    if Shared(slots, x) {
      Detach(live, pointers, members, slots, x, AllMembers(pointers));
    } else {
      Untouched(live, pointers, members, slots, AllMembers(pointers));
    }
  }

  /** A pointer that shares with no other one is in no other ring. */
  lemma NotAmong(program: Program, pointers: seq<PoolPointer>, slots: seq<Slot>, x: nat)
    requires Matches(program, pointers, slots) && Live(slots, x) && !Shared(slots, x)
    ensures forall i :: 0 <= i < |pointers| && i != x && pointers[i] in program.live ==> pointers[i].Members() - {pointers[x]} == pointers[i].Members()
  {
    var members := AllMembers(pointers);
    forall i | 0 <= i < |pointers| && i != x && pointers[i] in program.live ensures pointers[x] !in members[i] {
      assert pointers[x] in members[i] <==> slots[i].In? && slots[x] == slots[i];
    }
  }

  /** One operation: it fails exactly if it reads a detached pointer. */
  method Step(program: Program, pools: seq<PointerPool>, pointers: seq<PoolPointer>, op: Operation, ghost slots: seq<Slot>)
    returns (ok: bool, pointers': seq<PoolPointer>)
    requires program.Valid() && Matches(program, pointers, slots) && Refers(slots, op, |pools|)
    requires forall i :: 0 <= i < |pools| ==> pools[i] in program.pools
    modifies program`place, program`live, program.live, program.pools
    ensures ok <==> Harmless(slots, op)
    ensures fresh(program.live - old(program.live)) && fresh((set m | m in pointers') - (set m | m in pointers))
    ensures ok ==> program.Valid() && Matches(program, pointers', After(slots, op))
  {
    hide Program.Valid, Matches;
    MatchesFacts(program, pointers, slots);
    ok, pointers' := true, pointers;
    match op {
      case FromPool(pool) =>
        var x := StepFromPool(program, pools[pool], pointers, slots);
        pointers' := pointers + [x];
      case Default =>
        var x := StepDefault(program, pointers, slots);
        pointers' := pointers + [x];
      case CopyOf(s) =>
        var x;
        ok, x := StepCopy(program, pointers, s, slots);
        pointers' := pointers + [x];
      case Assignment(t, s) =>
        ok := StepAssign(program, pointers, t, s, slots);
      case Destruction(x) =>
        StepDestroy(program, pointers, x, slots);
      case Relinquishment(x) =>
        StepRelinquish(program, pointers, x, slots);
    }
  }

  method Execute(ops: seq<Operation>, capacities: seq<nat>) returns (ok: bool)
    requires Legal(ops, |capacities|)
    ensures ok <==> Safe(ops)
  {
    hide Program.Valid, Matches, Harmless, Refers;
    var program := new Program();
    var pools: seq<PointerPool> := [];
    for i := 0 to |capacities|
      invariant program.Valid() && fresh(program) && program.live == {} && fresh(program.pools) && |pools| == i
      invariant forall j :: 0 <= j < i ==> pools[j] in program.pools
    {
      var pl := program.NewPool(capacities[i]);
      pools := pools + [pl];
    }
    var pointers: seq<PoolPointer> := [];
    Begin(program);
    ok := true;
    for i := 0 to |ops|
      invariant fresh(program) && fresh(program.live) && fresh(program.pools) && forall j :: 0 <= j < |pools| ==> pools[j] in program.pools
      invariant program.Valid() && |pools| == |capacities| && Matches(program, pointers, State(ops[..i]))
      invariant ok && forall j :: 0 <= j < i ==> Harmless(State(ops[..j]), ops[j])
    {
      assert ops[..i+1][..i] == ops[..i];
      ok, pointers := Step(program, pools, pointers, ops[i], State(ops[..i]));
      if !ok {
        return;
      }
    }
  }

  /** A program runs to its end exactly if it never copies or assigns from a pointer that relinquished
      a shared object and has not been assigned to since. */
  method Run(ops: seq<Operation>, capacities: seq<nat>) returns (ok: bool)
    requires Legal(ops, |capacities|)
    ensures ok <==> forall i: nat, x: nat :: !Misuse(ops, i, x)
  {
    hide *;
    ok := Execute(ops, capacities);
    SafeExactly(ops, |capacities|);
  }

  lemma Begin(program: Program)
    requires program.live == {}
    ensures Matches(program, [], [])
  {
  }

  // ---------------------------------------------------------------- the condition in terms of the text

  /** Operation `j` relinquishes pointer `x` while others share its object. */
  ghost predicate LetsGo(ops: seq<Operation>, j: nat, x: nat) {
    j < |ops| && ops[j] == Relinquishment(x) && Shared(State(ops[..j]), x)
  }

  ghost predicate Sets(op: Operation, x: nat) {
    op == Destruction(x) || (op.Assignment? && op.target == x && op.source != x)
  }

  /** Pointer `x` was relinquished while it was shared, and has not been assigned to since. */
  ghost predicate LetGo(ops: seq<Operation>, x: nat) {
    exists j: nat :: LetsGo(ops, j, x) && forall k :: j < k < |ops| ==> !Sets(ops[k], x)
  }

  lemma LetGoNext(ops: seq<Operation>, x: nat)
    requires ops != []
    ensures LetGo(ops, x) <==> LetsGo(ops, |ops| - 1, x) || (LetGo(ops[..|ops|-1], x) && !Sets(ops[|ops|-1], x))
  {
    var n := |ops| - 1;
    var most := ops[..n];
    assert forall j :: 0 <= j < n ==> most[..j] == ops[..j];
    if LetGo(ops, x) && !LetsGo(ops, n, x) {
      var j: nat :| LetsGo(ops, j, x) && forall k :: j < k < |ops| ==> !Sets(ops[k], x);
      assert LetsGo(most, j, x);
    }
    if LetGo(most, x) && !Sets(ops[n], x) {
      var j: nat :| LetsGo(most, j, x) && forall k :: j < k < |most| ==> !Sets(most[k], x);
      assert LetsGo(ops, j, x);
    }
  }

  lemma SafeNext(ops: seq<Operation>)
    requires ops != []
    ensures Safe(ops) <==> Safe(ops[..|ops|-1]) && Harmless(State(ops[..|ops|-1]), ops[|ops|-1])
  {
    hide Harmless, State;
    var most := ops[..|ops|-1];
    assert forall i :: 0 <= i < |most| ==> most[..i] == ops[..i] && most[i] == ops[i];
  }

  /** A pointer that does not exist yet was not relinquished. */
  lemma {:induction false} NotYet(ops: seq<Operation>, x: nat)
    requires x >= |State(ops)|
    ensures !LetGo(ops, x)
  {
    hide Shared;
    if ops != [] {
      var most := ops[..|ops|-1];
      LetGoNext(ops, x);
      AfterGrows(State(most), ops[|ops|-1]);
      NotYet(most, x);
      if Shared(State(most), x) {
        SharedExists(State(most), x);
      }
    }
  }

  lemma AfterGrows(slots: seq<Slot>, op: Operation)
    ensures |slots| <= |After(slots, op)|
  {
    match op {
      case Relinquishment(x) =>
        if Shared(slots, x) {
          SharedExists(slots, x);
        }
      case _ =>
    }
  }

  lemma SharedExists(slots: seq<Slot>, x: nat)
    requires Shared(slots, x)
    ensures x < |slots|
  {
  }

  lemma LegalNext(ops: seq<Operation>, poolCount: nat)
    requires Legal(ops, poolCount) && ops != []
    ensures Legal(ops[..|ops|-1], poolCount) && Refers(State(ops[..|ops|-1]), ops[|ops|-1], poolCount)
  {
    hide Refers, State;
    var most := ops[..|ops|-1];
    assert forall i :: 0 <= i < |most| ==> most[..i] == ops[..i] && most[i] == ops[i];
  }

  /** Up to a point that a program has reached, a pointer is detached exactly if it was relinquished
      while it was shared, and has not been assigned to since. */
  lemma {:induction false} DetachedExactly(ops: seq<Operation>, poolCount: nat, x: nat)
    requires Legal(ops, poolCount) && Safe(ops) && x < |State(ops)|
    ensures State(ops)[x].Detached? <==> LetGo(ops, x)
  {
    hide Legal, Safe, LetGo;
    if ops != [] {
      var most, last := ops[..|ops|-1], ops[|ops|-1];
      LegalNext(ops, poolCount);
      SafeNext(ops);
      LetGoNext(ops, x);
      assert LetsGo(ops, |ops| - 1, x) <==> last == Relinquishment(x) && Shared(State(most), x);
      if x < |State(most)| {
        DetachedExactly(most, poolCount, x);
      } else {
        NotYet(most, x);
      }
      AfterSlot(State(most), last, poolCount, x);
    }
  }

  lemma AfterSlot(slots: seq<Slot>, op: Operation, poolCount: nat, x: nat)
    requires Refers(slots, op, poolCount) && Harmless(slots, op) && x < |After(slots, op)|
    ensures After(slots, op)[x].Detached? <==>
      (op == Relinquishment(x) && Shared(slots, x)) || (x < |slots| && slots[x].Detached? && !Sets(op, x))
  {
    hide Shared;
    if op.CopyOf? {
      assert Reads(op, op.source);
    } else if op.Assignment? && op.source != op.target {
      assert Reads(op, op.source);
    }
  }

  /** Operation `i` copies or assigns from pointer `x`, which was relinquished while it was shared and has
      not been assigned to since. */
  ghost predicate Misuse(ops: seq<Operation>, i: nat, x: nat) {
    i < |ops| && Reads(ops[i], x) && LetGo(ops[..i], x)
  }

  lemma {:induction false} SafeExactly(ops: seq<Operation>, poolCount: nat)
    requires Legal(ops, poolCount)
    ensures Safe(ops) <==> forall i: nat, x: nat :: !Misuse(ops, i, x)
  {
    hide *;
    if ops == [] {
      Nothing(ops);
    } else {
      var most, n := ops[..|ops|-1], |ops| - 1;
      LegalNext(ops, poolCount);
      SafeExactly(most, poolCount);
      SafeNext(ops);
      MisuseEarlier(ops, n);
      if Safe(most) {
        LastMisuse(ops, n, poolCount);
      }
    }
  }

  lemma Nothing(ops: seq<Operation>)
    requires ops == []
    ensures Safe(ops) && forall i: nat, x: nat :: !Misuse(ops, i, x)
  {
  }

  lemma MisuseEarlier(ops: seq<Operation>, n: nat)
    requires |ops| == n + 1
    ensures forall i: nat, x: nat :: i < n ==> (Misuse(ops, i, x) <==> Misuse(ops[..n], i, x))
    ensures forall i: nat, x: nat :: i > n ==> !Misuse(ops, i, x)
    ensures forall i: nat, x: nat :: i >= n ==> !Misuse(ops[..n], i, x)
  {
    hide Reads, LetGo;
    assert forall i: nat :: i < n ==> ops[..n][..i] == ops[..i];
  }

  lemma LastMisuse(ops: seq<Operation>, n: nat, poolCount: nat)
    requires |ops| == n + 1 && Legal(ops[..n], poolCount) && Safe(ops[..n])
    ensures Harmless(State(ops[..n]), ops[n]) <==> forall x: nat :: !Misuse(ops, n, x)
  {
    var most, last := ops[..n], ops[n];
    hide Safe, Legal, LetGo;
    if x: nat :| Misuse(ops, n, x) {
      if x >= |State(most)| {
        NotYet(most, x);
        assert false;
      }
      DetachedExactly(most, poolCount, x);
      assert !Harmless(State(most), last);
    } else {
      forall x | 0 <= x < |State(most)| && State(most)[x].Detached? ensures !Reads(last, x) {
        DetachedExactly(most, poolCount, x);
        assert !Misuse(ops, n, x);
      }
    }
  }

  /** The shortest failure: a pointer from a pool is copied, the copy is relinquished, and copied. */
  method CopyOfRelinquished(capacity: nat) returns (ok: bool)
    ensures !ok
  {
    hide Program.Valid;
    var program := new Program();
    var pool := program.NewPool(capacity);
    var x := program.AcquireFrom(pool);
    program.Sharing(x);
    var made, y := program.Copy(x);
    program.Sharing(y);
    program.RingFacts(y);
    Pair(x, y);
    program.Relinquish(y);
    var z;
    ok, z := program.Copy(y);
  }

  lemma Pair(x: PoolPointer, y: PoolPointer)
    requires x != y && y.Members() == {x, y}
    ensures |y.ring| > 1
  {
    assert x in y.Members() && y in y.Members();
    assert x in y.ring && y in y.ring;
  }
}
