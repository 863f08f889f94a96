/** Where a hooked target leads, and what the trampoline preserves. */
module Trampoline {
  import opened Arm
  import opened Basics
  import opened Hooking

  /** At a hooked target the processor lands on the replacement exactly when that is aligned and in branch range. */
  lemma TargetLandsOnReplacement<M(!new)>(exec: (Word, M, Word) -> Cpu<M>, t: Table, m0: Memory, ws: seq<Write>,
                                          i: nat, machine: M)
    requires WellPlaced(t, m0) && i < t.n && Resolve(t, m0, i) != 0 && Run(t, State(m0, false), ws).hooked
    ensures var m, a, f := Run(t, State(m0, false), ws).mem, Resolve(t, m0, i), NewFunc(t, m0, i);
            Step(exec, m, Cpu(machine, a)) == Some(Cpu(machine, f)) <==> f % 4 == 0 && InBranchRange(a, f)
  {
    var a, f := Resolve(t, m0, i), NewFunc(t, m0, i);
    HookRoundTrip(t, m0, ws, a);
    BranchWordDecodes(a, f);
    BranchLands(a, f);
  }

  // The saved instruction, then the jump word

  /** A branch to the word behind it. */
  const BRANCH_TO_NEXT: Word := 0xEAFF_FFFF

  /** The entry at `at` holds the word `w` and leads back behind the word at `a`. */
  ghost predicate Leads(m: Memory, at: int, a: int, w: Word) {
    m(at) == w && m(at + JMP) == JUMP_WORD && m(at + CONT) == a + 4
  }

  lemma JumpsBack<M(!new)>(exec: (Word, M, Word) -> Cpu<M>, m: Memory, at: Word, a: Word, w: Word, x: M)
    requires at + ENTRY_SIZE < WORD && a % 4 == 0 && a + 4 < WORD && Leads(m, at, a, w)
    ensures Step(exec, m, Cpu(x, at + 4)) == Some(Cpu(x, a + 4))
  {
    assert Decode(JUMP_WORD) == LoadPc(false, 4);
    assert Wrap(at + 4 + 8 - 4) == at + CONT;
  }

  lemma OtherFallsThrough<M(!new)>(exec: (Word, M, Word) -> Cpu<M>, m: Memory, p: Word, w: Word, x: M)
    requires p + 4 < WORD && m(p) == w && Decode(w).Other? && FallsThrough(exec, w)
    ensures Step(exec, m, Cpu(x, p)) == Some(Cpu(exec(w, x, p).machine, p + 4))
  {
    assert exec(w, x, p).pc == Wrap(p + 4) == p + 4;
  }

  lemma NextIsReached<M(!new)>(exec: (Word, M, Word) -> Cpu<M>, m: Memory, p: Word, x: M)
    requires p + 4 < WORD && m(p) == BRANCH_TO_NEXT
    ensures Step(exec, m, Cpu(x, p)) == Some(Cpu(x, p + 4))
  {
    assert Decode(BRANCH_TO_NEXT) == Branch(0xFF_FFFF) && Offset(0xFF_FFFF) == -4;
    assert Wrap(p + 8 - 4) == p + 4;
  }

  /** Room for an entry and the terminator at `at`, and a target at `a` that is not in there. */
  predicate CanStand(at: int, a: int) {
    && 0 <= at && at % 4 == 0 && at + 2 * ENTRY_SIZE <= WORD
    && 0 < a && a % 4 == 0 && a + 4 < WORD && !(at <= a < at + 2 * ENTRY_SIZE)
  }

  /** The word does not look at its own address. */
  ghost predicate SameAnywhere<M(!new)>(exec: (Word, M, Word) -> Cpu<M>, w: Word) {
    forall x: M, at: Word, a: Word :: CanStand(at, a) ==> exec(w, x, at).machine == exec(w, x, a).machine
  }

  /** What can be executed out of place: anything that does not use the PC, and the branch to the next word. */
  ghost predicate Movable<M(!new)>(exec: (Word, M, Word) -> Cpu<M>, w: Word) {
    w == BRANCH_TO_NEXT || (Decode(w).Other? && SameAnywhere(exec, w))
  }

  /** After the toggles `ws`, entry `i` diverts a function that starts with `w`. */
  ghost predicate Hooked(t: Table, m0: Memory, ws: seq<Write>, i: nat, w: Word) {
    && Sane(t, m0) && i < t.n && Run(t, State(m0, false), ws).hooked
    && Resolve(t, m0, i) != 0 && m0(Resolve(t, m0, i)) == w
  }

  /** Two steps from the saved instruction in `m` are one step of the target at `a` in `m0`, registers and all. */
  ghost predicate SameOutcome<M(!new)>(exec: (Word, M, Word) -> Cpu<M>, m: Memory, m0: Memory, at: Word, a: Word,
                                      x: M) {
    var first := Step(exec, m, Cpu(x, at));
    first.Some? && Step(exec, m, first.value) == Step(exec, m0, Cpu(x, a))
  }

  /** The trampoline of entry `i` does what the function's first instruction did. */
  ghost predicate KeepsMeaningAt<M(!new)>(exec: (Word, M, Word) -> Cpu<M>, t: Table, m0: Memory, ws: seq<Write>,
                                          i: nat, x: M)
    requires Sane(t, m0) && i < t.n
  {
    SameOutcome(exec, Run(t, State(m0, false), ws).mem, m0, t.At(i) + ASM0, Resolve(t, m0, i), x)
  }

  lemma PatchedLeads(t: Table, m0: Memory, m: Memory, i: nat, a: Word)
    requires Sane(t, m0) && i < t.n && a == Resolve(t, m0, i) != 0 && Armed(t, m0, m, i)
    ensures Leads(m, t.At(i), a, m0(a))
  {
    assert Wrap(a + 4) == a + 4;
  }

  lemma EntryCanStand(t: Table, m0: Memory, i: nat, a: Word)
    requires Sane(t, m0) && i < t.n && a == Resolve(t, m0, i) != 0
    ensures CanStand(t.At(i), a)
  {
    assert !t.Inside(a);
    EntryIsAligned(t.base, i);
  }

  lemma EntryIsAligned(base: int, i: nat)
    requires base % 4 == 0
    ensures (base + ENTRY_SIZE * i) % 4 == 0
  {
    assert base + ENTRY_SIZE * i == 4 * (base / 4 + 6 * i);
  }

  lemma HookedLeads(t: Table, m0: Memory, ws: seq<Write>, i: nat, w: Word)
    requires Hooked(t, m0, ws, i, w)
    ensures var a := Resolve(t, m0, i);
            Leads(Run(t, State(m0, false), ws).mem, t.At(i), a, w) && CanStand(t.At(i), a)
  {
    RunStaysConsistent(t, m0, State(m0, false), ws);
    PatchedLeads(t, m0, Run(t, State(m0, false), ws).mem, i, Resolve(t, m0, i));
    EntryCanStand(t, m0, i, Resolve(t, m0, i));
  }

  lemma LeadsToSameOutcome<M(!new)>(exec: (Word, M, Word) -> Cpu<M>, m: Memory, m0: Memory, at: Word, a: Word, w: Word,
                                    x: M)
    requires CanStand(at, a) && Leads(m, at, a, w) && m0(a) == w && Movable(exec, w)
    requires Decode(w).Other? ==> FallsThrough(exec, w)
    ensures SameOutcome(exec, m, m0, at, a, x)
  {
    if w == BRANCH_TO_NEXT {
      NextIsReached(exec, m, at, x);
      JumpsBack(exec, m, at, a, w, x);
      NextIsReached(exec, m0, a, x);
    } else {
      OtherFallsThrough(exec, m, at, w, x);
      JumpsBack(exec, m, at, a, w, exec(w, x, at).machine);
      OtherFallsThrough(exec, m0, a, w, x);
    }
  }

  /** Two steps from the trampoline do what one step of the original target did, if its first instruction can move. */
  lemma TrampolineKeepsMeaning<M(!new)>(exec: (Word, M, Word) -> Cpu<M>, t: Table, m0: Memory, ws: seq<Write>,
                                        i: nat, w: Word, x: M)
    requires Hooked(t, m0, ws, i, w) && Movable(exec, w) && (Decode(w).Other? ==> FallsThrough(exec, w))
    ensures KeepsMeaningAt(exec, t, m0, ws, i, x)
  {
    HookedLeads(t, m0, ws, i, w);
    LeadsToSameOutcome(exec, Run(t, State(m0, false), ws).mem, m0, t.At(i), Resolve(t, m0, i), w, x);
  }

  lemma WrapDistance(base: int, p: int, q: int)
    ensures Wrap(base + p) == Wrap(Wrap(base + q) + p - q)
  {
    WrapShift(base + p, -((base + q) / WORD));
  }

  lemma StrayBranch<M(!new)>(exec: (Word, M, Word) -> Cpu<M>, m: Memory, m0: Memory, at: Word, a: Word, w: Word, x: M)
    requires m(at) == w && m0(a) == w && at != a && Decode(w).Branch?
    ensures var moved, original := Step(exec, m, Cpu(x, at)), Step(exec, m0, Cpu(x, a));
            && moved.Some? && original.Some? && moved.value.machine == original.value.machine == x
            && moved.value.pc == Wrap(original.value.pc + at - a)
            && moved.value.pc != original.value.pc
  {
    var d := 8 + Offset(Decode(w).imm24);
    WrapDistance(d, at, a);
    if Wrap(d + at) == Wrap(d + a) {
      CongruentIsEqual(d + at, d + a);
    }
  }

  /** A displaced branch goes astray by exactly the distance of the trampoline from the target, modulo the word size. */
  lemma BranchGoesAstray<M(!new)>(exec: (Word, M, Word) -> Cpu<M>, t: Table, m0: Memory, ws: seq<Write>,
                                  i: nat, w: Word, x: M)
    requires Hooked(t, m0, ws, i, w) && Decode(w).Branch?
    ensures var m, at, a := Run(t, State(m0, false), ws).mem, t.At(i), Resolve(t, m0, i);
            var moved, original := Step(exec, m, Cpu(x, at)), Step(exec, m0, Cpu(x, a));
            && moved.Some? && original.Some? && moved.value.machine == original.value.machine == x
            && moved.value.pc == Wrap(original.value.pc + at - a)
            && moved.value.pc != original.value.pc
  {
    HookedLeads(t, m0, ws, i, w);
    StrayBranch(exec, Run(t, State(m0, false), ws).mem, m0, t.At(i), Resolve(t, m0, i), w, x);
  }

  // Why nothing else can be moved

  const BRANCH_FROM: Word := 0xEA00_0000

  /** A table with the one entry that hooks the function at `a`, and possibly one more that resolves to nothing. */
  function WitnessTable(at: Word, n: nat): Table {
    Table(at, n, name => 0)
  }

  /** Memory for it, filled with branches where nothing else is needed. */
  function WitnessMemory(at: Word, n: nat, a: Word, w: Word): Memory {
    x =>
      if x == a then w
      else if x == at + TARGET then a
      else if x == at + NEWFUNC then BRANCH_FROM + 0x100
      else if x == at + ENTRY_SIZE * n + NEWFUNC then 0
      else if n > 1 && (x == at + ENTRY_SIZE + TARGET || x == at + ENTRY_SIZE + NAME) then 0
      else BRANCH_FROM
  }

  const HOOK_ONCE := [Number(1)]

  lemma WitnessIsSane(at: Word, n: nat, a: Word, w: Word)
    requires 1 <= n <= 2 && CanStand(at, a) && at + ENTRY_SIZE * (n + 1) <= WORD
    requires !(at <= a < at + ENTRY_SIZE * (n + 1))
    ensures var t, m0 := WitnessTable(at, n), WitnessMemory(at, n, a, w);
            Sane(t, m0) && Resolve(t, m0, 0) == a && (n > 1 ==> Resolve(t, m0, 1) == 0)
  {
    var t, m0 := WitnessTable(at, n), WitnessMemory(at, n, a, w);
    assert t.At(0) == at && t.At(1) == at + ENTRY_SIZE && t.At(2) == at + 2 * ENTRY_SIZE;
    forall i: nat | i < n ensures NewFunc(t, m0, i) != 0 {
      assert i == 0 || i == 1;
    }
  }

  /** Hooking it once patches its one function and nothing else. */
  lemma WitnessIsHooked(at: Word, n: nat, a: Word, w: Word)
    requires 1 <= n <= 2 && CanStand(at, a) && at + ENTRY_SIZE * (n + 1) <= WORD
    requires !(at <= a < at + ENTRY_SIZE * (n + 1))
    ensures var t, m0 := WitnessTable(at, n), WitnessMemory(at, n, a, w);
            && Hooked(t, m0, HOOK_ONCE, 0, w)
            && forall x :: Run(t, State(m0, false), HOOK_ONCE).mem(x) == PatchedWord(m0, at, a, x)
  {
    var t, m0 := WitnessTable(at, n), WitnessMemory(at, n, a, w);
    WitnessIsSane(at, n, a, w);
    PatchEffect(t, m0, 0);
    var m1 := Patch(t, m0, 0);
    assert t.At(0) == at && t.At(1) == at + ENTRY_SIZE;
    assert PatchAll(t, m0, 0) == PatchAll(t, m1, 1);
    if n == 2 {
      PatchKeepsFields(t, m0, m1, 0, a);
      assert m1(t.At(1) + TARGET) == 0 && m1(t.At(1) + NAME) == 0;
      assert Patch(t, m1, 1) == m1;
    }
    assert PatchAll(t, m1, 1) == m1;
    assert HOOK_ONCE[1..] == [];
    assert Run(t, State(m0, false), HOOK_ONCE) == Toggle(t, State(m0, false), Number(1));
  }

  // One witness for every word that branches or loads the PC

  const ENTRY_AT: Word := 0x1000
  const TARGET_AT: Word := 0xEA00_0004

  /** A second entry where the first word behind the table's end would otherwise be the terminator. */
  function WitnessEntries(w: Word): nat {
    if w == BRANCH_FROM + 9 then 2 else 1
  }

  function Before(w: Word): Memory {
    WitnessMemory(ENTRY_AT, WitnessEntries(w), TARGET_AT, w)
  }

  function After(w: Word, y: int): Word {
    PatchedWord(Before(w), ENTRY_AT, TARGET_AT, y)
  }

  /** Every word of the witness is zero, sends the processor a little further, or is the displaced one. */
  lemma WitnessWords(w: Word, y: int)
    ensures BRANCH_FROM <= After(w, y) <= BRANCH_FROM + 0x100 || y == ENTRY_AT + JMP || y == ENTRY_AT
            || y == ENTRY_AT + ENTRY_SIZE * WitnessEntries(w) + NEWFUNC
            || (WitnessEntries(w) == 2 && y in {ENTRY_AT + ENTRY_SIZE + TARGET, ENTRY_AT + ENTRY_SIZE + NAME})
  {
  }

  /** Where a displaced branch ends up. */
  lemma BranchFails<M(!new)>(exec: (Word, M, Word) -> Cpu<M>, w: Word, m: Memory, x: M)
    requires Decode(w).Branch? && w != BRANCH_TO_NEXT && forall y :: m(y) == After(w, y)
    ensures !SameOutcome(exec, m, Before(w), ENTRY_AT, TARGET_AT, x)
  {
    var d := 8 + Offset(Decode(w).imm24);
    var p := Wrap(d + ENTRY_AT);
    if p != ENTRY_AT {
      LandsInSurroundings(w, p);
    }
  }

  lemma LandsInSurroundings(w: Word, p: Word)
    requires Decode(w).Branch? && w != BRANCH_TO_NEXT && p != ENTRY_AT
    requires p == Wrap(8 + Offset(Decode(w).imm24) + ENTRY_AT)
    ensures BRANCH_FROM <= After(w, p) <= BRANCH_FROM + 0x100
    ensures p < 0x300_0000 || p >= 0xFD00_0000
  {
    WitnessWords(w, p);
    assert w == BRANCH_FROM + Decode(w).imm24;
  }

  function Literal(w: Word): int
    requires Decode(w).LoadPc?
  {
    ENTRY_AT + 8 + (if Decode(w).add then Decode(w).imm12 else -Decode(w).imm12)
  }

  /** Where a displaced load of the PC ends up. */
  lemma LoadFails<M(!new)>(exec: (Word, M, Word) -> Cpu<M>, w: Word, m: Memory, x: M)
    requires Decode(w).LoadPc? && forall y :: m(y) == After(w, y)
    ensures !SameOutcome(exec, m, Before(w), ENTRY_AT, TARGET_AT, x)
  {
    FirstLoad(exec, w, m, x);
  }

  lemma FirstLoad<M(!new)>(exec: (Word, M, Word) -> Cpu<M>, w: Word, m: Memory, x: M)
    requires Decode(w).LoadPc? && m(ENTRY_AT) == w && m(Literal(w)) % 4 == 0
    ensures Step(exec, m, Cpu(x, ENTRY_AT)) == Some(Cpu(x, m(Literal(w))))
  {
    assert Wrap(Literal(w)) == Literal(w);
  }

  /** The trampoline keeps the meaning of a first instruction `w`, whatever surrounds the table and the function. */
  ghost predicate KeepsMeaning<M(!new)>(exec: (Word, M, Word) -> Cpu<M>, w: Word) {
    forall t, m0, ws, i: nat, x :: Hooked(t, m0, ws, i, w) ==> KeepsMeaningAt(exec, t, m0, ws, i, x)
  }

  /** A branch or a load of the PC that the trampoline does not preserve. */
  lemma JumpsAreNotKept<M(!new)>(exec: (Word, M, Word) -> Cpu<M>, w: Word, x: M)
    requires !Decode(w).Other? && w != BRANCH_TO_NEXT
    ensures !KeepsMeaning(exec, w)
  {
    var n := WitnessEntries(w);
    var t, m0 := WitnessTable(ENTRY_AT, n), Before(w);
    WitnessIsHooked(ENTRY_AT, n, TARGET_AT, w);
    WitnessIsSane(ENTRY_AT, n, TARGET_AT, w);
    var m := Run(t, State(m0, false), HOOK_ONCE).mem;
    if Decode(w).Branch? {
      BranchFails(exec, w, m, x);
    } else {
      LoadFails(exec, w, m, x);
    }
    assert !KeepsMeaningAt(exec, t, m0, HOOK_ONCE, 0, x);
  }

  /** An instruction that reads the PC, at a place where the trampoline does not preserve it. */
  lemma AddressUseIsNotKept<M(!new)>(exec: (Word, M, Word) -> Cpu<M>, w: Word, x: M, at: Word, a: Word)
    requires Decode(w).Other? && FallsThrough(exec, w) && CanStand(at, a)
    requires exec(w, x, at).machine != exec(w, x, a).machine
    ensures !KeepsMeaning(exec, w)
  {
    WitnessIsSane(at, 1, a, w);
    WitnessIsHooked(at, 1, a, w);
    AddressUseShows(exec, WitnessTable(at, 1), WitnessMemory(at, 1, a, w), HOOK_ONCE, w, x, at, a);
  }

  lemma AddressUseShows<M(!new)>(exec: (Word, M, Word) -> Cpu<M>, t: Table, m0: Memory, ws: seq<Write>, w: Word,
                                 x: M, at: Word, a: Word)
    requires Decode(w).Other? && FallsThrough(exec, w) && CanStand(at, a)
    requires exec(w, x, at).machine != exec(w, x, a).machine
    requires Hooked(t, m0, ws, 0, w) && t.At(0) == at && Resolve(t, m0, 0) == a
    ensures !KeepsMeaning(exec, w)
  {
    HookedLeads(t, m0, ws, 0, w);
    assert !KeepsMeaningAt(exec, t, m0, ws, 0, x);
  }

  /**
   * Over all tables, targets, surrounding code and toggles, the trampoline keeps the meaning of a first instruction
   * if and only if that does not use the PC, or is a branch to the next word. Of the instructions left open by the
   * model only those that go on to the next word are meant.
   */
  lemma MeaningKeptExactly<M(!new)>(exec: (Word, M, Word) -> Cpu<M>, w: Word, x: M)
    requires Decode(w).Other? ==> FallsThrough(exec, w)
    ensures KeepsMeaning(exec, w) <==> Movable(exec, w)
  {
    if Movable(exec, w) {
      forall t, m0, ws, i: nat, y | Hooked(t, m0, ws, i, w) ensures KeepsMeaningAt(exec, t, m0, ws, i, y) {
        TrampolineKeepsMeaning(exec, t, m0, ws, i, w, y);
      }
    } else if !Decode(w).Other? {
      JumpsAreNotKept(exec, w, x);
    } else {
      var y: M, at: Word, a: Word :| CanStand(at, a) && exec(w, y, at).machine != exec(w, y, a).machine;
      AddressUseIsNotKept(exec, w, y, at, a);
    }
  }
}
