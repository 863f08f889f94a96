/** Patching functions of the running kernel, and undoing it. */
module Hooking {
  import opened Arm
  import opened Basics

  // `struct hook_info`, six words
  const ASM0 := 0
  const JMP := 4
  const CONT := 8
  const TARGET := 12
  const NAME := 16
  const NEWFUNC := 20
  const ENTRY_SIZE := 24

  /** The table `g_hi`: `n` entries from `base` on, then one whose `newfunc` is zero; and the symbols of the kernel. */
  datatype Table = Table(base: Word, n: nat, lookup: Word -> Word) {
    function At(i: int): int {
      base + ENTRY_SIZE * i
    }

    predicate Inside(a: int) {
      At(0) <= a < At(n + 1)
    }
  }

  /** The address an entry is to hook: the one it holds, or what its name resolves to; zero if neither. */
  function Resolve(t: Table, m: Memory, i: nat): Word {
    if m(t.At(i) + TARGET) != 0 then m(t.At(i) + TARGET)
    else if m(t.At(i) + NAME) != 0 then t.lookup(m(t.At(i) + NAME)) else 0
  }

  function NewFunc(t: Table, m: Memory, i: nat): Word {
    m(t.At(i) + NEWFUNC)
  }

  /** The entry at `at` with its target filled in, if it holds none and has a name to look up. */
  function Located(m: Memory, at: int, lookup: Word -> Word): Memory {
    if m(at + TARGET) == 0 && m(at + NAME) != 0 then Put(m, at + TARGET, lookup(m(at + NAME))) else m
  }

  /** `hook` on entry `i`: look the target up if the entry holds none, then divert it. */
  function Patch(t: Table, m: Memory, i: nat): Memory {
    var at := t.At(i);
    var m1 := Located(m, at, t.lookup);
    if m1(at + TARGET) == 0 then m1 else Divert(m1, at, m1(at + TARGET))
  }

  function Divert(m: Memory, at: int, a: Word): Memory {
    var m1 := Put(m, at + ASM0, m(a));
    var m2 := Put(m1, a, BranchWord(a, m1(at + NEWFUNC)));
    var m3 := Put(m2, at + JMP, JUMP_WORD);
    Put(m3, at + CONT, Wrap(a + 4))
  }

  /** `unhook` on the entry at `at`. */
  function Unpatch(m: Memory, at: int): Memory {
    if m(at + TARGET) == 0 then m else Put(m, m(at + TARGET), m(at + ASM0))
  }

  function PatchAll(t: Table, m: Memory, i: nat): Memory
    decreases t.n - i
  {
    if i >= t.n then m else PatchAll(t, Patch(t, m, i), i + 1)
  }

  function UnpatchAll(t: Table, m: Memory, i: nat): Memory
    decreases t.n - i
  {
    if i >= t.n then m else UnpatchAll(t, Unpatch(m, t.At(i)), i + 1)
  }

  /** The table ends where its length says, and fits into the address space. */
  ghost predicate WellFormed(t: Table, m: Memory) {
    && t.At(t.n + 1) <= WORD
    && (forall i :: 0 <= i < t.n ==> NewFunc(t, m, i) != 0)
    && NewFunc(t, m, t.n) == 0
  }

  /** Resolved targets are word-aligned, distinct and away from the table. */
  ghost predicate WellPlaced(t: Table, m: Memory) {
    && (forall i :: 0 <= i < t.n && Resolve(t, m, i) != 0 ==>
          Resolve(t, m, i) % 4 == 0 && Resolve(t, m, i) + 4 < WORD && !t.Inside(Resolve(t, m, i)))
    && (forall i, j :: 0 <= i < j < t.n && Resolve(t, m, i) != 0 ==> Resolve(t, m, i) != Resolve(t, m, j))
  }

  /** Entry `i` is armed: its target branches away and its trampoline leads back behind the saved instruction. */
  ghost predicate Armed(t: Table, m0: Memory, m: Memory, i: nat) {
    var a := Resolve(t, m0, i);
    && m(t.At(i) + TARGET) == a
    && (a != 0 ==>
          && m(a) == BranchWord(a, NewFunc(t, m0, i))
          && m(t.At(i) + ASM0) == m0(a)
          && m(t.At(i) + JMP) == JUMP_WORD
          && m(t.At(i) + CONT) == Wrap(a + 4))
  }

  /** One of the entries from `lo` to `hi` is to divert the code at `a`. */
  ghost predicate Diverted(t: Table, m0: Memory, lo: nat, hi: nat, a: int) {
    a != 0 && exists i :: lo <= i < hi && Resolve(t, m0, i) == a
  }

  /** `m` is `m0` with exactly the entries from `lo` to `hi` patched. */
  ghost predicate Patched(t: Table, m0: Memory, m: Memory, lo: nat, hi: nat) {
    && (forall i :: 0 <= i <= t.n ==> NewFunc(t, m, i) == NewFunc(t, m0, i))
    && (forall i :: 0 <= i < t.n ==> Resolve(t, m, i) == Resolve(t, m0, i))
    && (forall i :: lo <= i < hi ==> Armed(t, m0, m, i))
    && (forall a {:trigger Diverted(t, m0, lo, hi, a)} ::
          !t.Inside(a) && !Diverted(t, m0, lo, hi, a) ==> m(a) == m0(a))
  }

  /** The value `hook` leaves at each address. */
  function PatchedWord(m: Memory, at: int, a: Word, x: int): Word {
    if x == at + TARGET then a
    else if a == 0 then m(x)
    else if x == a then BranchWord(a, m(at + NEWFUNC))
    else if x == at + ASM0 then m(a)
    else if x == at + JMP then JUMP_WORD
    else if x == at + CONT then Wrap(a + 4)
    else m(x)
  }

  lemma PatchEffect(t: Table, m: Memory, i: nat)
    requires i < t.n && (Resolve(t, m, i) == 0 || !t.Inside(Resolve(t, m, i)))
    ensures forall x :: Patch(t, m, i)(x) == PatchedWord(m, t.At(i), Resolve(t, m, i), x)
  {
  }

  lemma PatchKeepsFields(t: Table, m: Memory, m': Memory, k: nat, a: Word)
    requires k < t.n && a == Resolve(t, m, k) && (a == 0 || !t.Inside(a))
    requires forall x :: m'(x) == PatchedWord(m, t.At(k), a, x)
    ensures forall i :: 0 <= i <= t.n ==> NewFunc(t, m', i) == NewFunc(t, m, i)
    ensures forall i :: 0 <= i < t.n ==> Resolve(t, m', i) == Resolve(t, m, i)
    ensures forall i :: 0 <= i < t.n && i != k ==> Entry(t, m', i) == Entry(t, m, i)
  {
    forall i: nat | i <= t.n && i != k ensures t.At(i) + ENTRY_SIZE <= t.At(k) || t.At(k) + ENTRY_SIZE <= t.At(i) {
    }
  }

  /** What the processor and `unhook` use of an entry. */
  function Entry(t: Table, m: Memory, i: nat): (Word, Word, Word, Word) {
    (m(t.At(i) + ASM0), m(t.At(i) + JMP), m(t.At(i) + CONT), m(t.At(i) + TARGET))
  }

  lemma ArmedStays(t: Table, m0: Memory, m: Memory, m': Memory, i: nat)
    requires Armed(t, m0, m, i) && Entry(t, m', i) == Entry(t, m, i)
    requires Resolve(t, m0, i) != 0 ==> m'(Resolve(t, m0, i)) == m(Resolve(t, m0, i))
    ensures Armed(t, m0, m', i)
  {
  }

  lemma PatchStep(t: Table, m0: Memory, m: Memory, m': Memory, k: nat)
    requires WellPlaced(t, m0) && k < t.n && Patched(t, m0, m, 0, k)
    requires m' == Patch(t, m, k)
    ensures Patched(t, m0, m', 0, k + 1)
  {
    assert Resolve(t, m, k) == Resolve(t, m0, k);
    PatchEffect(t, m, k);
    PatchStepFrom(t, m0, m, m', k);
  }

  lemma PatchStepFrom(t: Table, m0: Memory, m: Memory, m': Memory, k: nat)
    requires WellPlaced(t, m0) && k < t.n && Patched(t, m0, m, 0, k)
    requires forall x :: m'(x) == PatchedWord(m, t.At(k), Resolve(t, m0, k), x)
    ensures Patched(t, m0, m', 0, k + 1)
  {
    assert Resolve(t, m0, k) == Resolve(t, m, k) && NewFunc(t, m, k) == NewFunc(t, m0, k);
    PatchKeepsFields(t, m, m', k, Resolve(t, m0, k));
    PatchArms(t, m0, m, m', k);
    PatchKeepsCode(t, m0, m, m', k);
  }

  lemma PatchArms(t: Table, m0: Memory, m: Memory, m': Memory, k: nat)
    requires WellPlaced(t, m0) && k < t.n && Patched(t, m0, m, 0, k)
    requires forall x :: m'(x) == PatchedWord(m, t.At(k), Resolve(t, m0, k), x)
    requires forall i :: 0 <= i < t.n && i != k ==> Entry(t, m', i) == Entry(t, m, i)
    ensures forall i :: 0 <= i < k + 1 ==> Armed(t, m0, m', i)
  {
    forall i: nat | i < k ensures Armed(t, m0, m', i) {
      assert Armed(t, m0, m, i);
      ArmedStays(t, m0, m, m', i);
    }
    var a := Resolve(t, m0, k);
    assert !Diverted(t, m0, 0, k, a);
    assert NewFunc(t, m, k) == NewFunc(t, m0, k);
    assert Armed(t, m0, m', k);
  }

  lemma PatchKeepsCode(t: Table, m0: Memory, m: Memory, m': Memory, k: nat)
    requires k < t.n
    requires forall a {:trigger Diverted(t, m0, 0, k, a)} ::
               !t.Inside(a) && !Diverted(t, m0, 0, k, a) ==> m(a) == m0(a)
    requires forall x :: m'(x) == PatchedWord(m, t.At(k), Resolve(t, m0, k), x)
    ensures forall a {:trigger Diverted(t, m0, 0, k + 1, a)} ::
              !t.Inside(a) && !Diverted(t, m0, 0, k + 1, a) ==> m'(a) == m0(a)
  {
    forall x | !t.Inside(x) && !Diverted(t, m0, 0, k + 1, x) ensures m'(x) == m0(x) {
      assert !Diverted(t, m0, 0, k, x);
      assert x == Resolve(t, m0, k) ==> x == 0;
    }
  }

  lemma UnpatchEffect(t: Table, m0: Memory, m: Memory, k: nat)
    requires Armed(t, m0, m, k)
    ensures forall x :: Unpatch(m, t.At(k))(x) == if x == Resolve(t, m0, k) && x != 0 then m0(x) else m(x)
  {
  }

  lemma UnpatchStep(t: Table, m0: Memory, m: Memory, m': Memory, k: nat)
    requires WellPlaced(t, m0) && k < t.n && Patched(t, m0, m, k, t.n)
    requires m' == Unpatch(m, t.At(k))
    ensures Patched(t, m0, m', k + 1, t.n)
  {
    UnpatchEffect(t, m0, m, k);
    UnpatchStepFrom(t, m0, m, m', k);
  }

  lemma UnpatchStepFrom(t: Table, m0: Memory, m: Memory, m': Memory, k: nat)
    requires WellPlaced(t, m0) && k < t.n && Patched(t, m0, m, k, t.n)
    requires forall x :: m'(x) == if x == Resolve(t, m0, k) && x != 0 then m0(x) else m(x)
    ensures Patched(t, m0, m', k + 1, t.n)
  {
    var a := Resolve(t, m0, k);
    forall i: nat | k + 1 <= i < t.n ensures Armed(t, m0, m', i) {
      assert Armed(t, m0, m, i);
      ArmedStays(t, m0, m, m', i);
    }
    forall x | !t.Inside(x) && !Diverted(t, m0, k + 1, t.n, x) ensures m'(x) == m0(x) {
      if x != a || x == 0 {
        assert !Diverted(t, m0, k, t.n, x);
      }
    }
  }

  lemma {:induction false} PatchAllPatches(t: Table, m0: Memory, m: Memory, i: nat, r: Memory)
    requires WellPlaced(t, m0) && i <= t.n && Patched(t, m0, m, 0, i) && r == PatchAll(t, m, i)
    ensures Patched(t, m0, r, 0, t.n)
    decreases t.n - i
  {
    if i < t.n {
      var m' := Patch(t, m, i);
      PatchStep(t, m0, m, m', i);
      PatchAllPatches(t, m0, m', i + 1, r);
    }
  }

  lemma {:induction false} UnpatchAllRestores(t: Table, m0: Memory, m: Memory, i: nat, r: Memory)
    requires WellPlaced(t, m0) && i <= t.n && Patched(t, m0, m, i, t.n) && r == UnpatchAll(t, m, i)
    ensures Patched(t, m0, r, t.n, t.n)
    decreases t.n - i
  {
    if i < t.n {
      var m' := Unpatch(m, t.At(i));
      UnpatchStep(t, m0, m, m', i);
      UnpatchAllRestores(t, m0, m', i + 1, r);
    }
  }

  // The toggle

  /** What user space writes to the toggle, as `sscanf` understands it. */
  datatype Write = Malformed | Number(newval: int)

  datatype State = State(mem: Memory, hooked: bool)

  function Toggle(t: Table, s: State, w: Write): State {
    if w.Malformed? then s
    else if w.newval == 0 && s.hooked then State(UnpatchAll(t, s.mem, 0), false)
    else if w.newval != 0 && !s.hooked then State(PatchAll(t, s.mem, 0), true)
    else s
  }

  function Run(t: Table, s: State, ws: seq<Write>): State
    decreases |ws|
  {
    if ws == [] then s else Run(t, Toggle(t, s, ws[0]), ws[1..])
  }

  /** Memory is the original one, or the original one with every entry patched. */
  ghost predicate Consistent(t: Table, m0: Memory, s: State) {
    Patched(t, m0, s.mem, 0, if s.hooked then t.n else 0)
  }

  lemma NothingPatched(t: Table, m0: Memory, m: Memory, k: nat)
    requires Patched(t, m0, m, k, k)
    ensures Patched(t, m0, m, 0, 0)
  {
    forall a {:trigger Diverted(t, m0, 0, 0, a)} | !t.Inside(a) ensures m(a) == m0(a) {
      assert !Diverted(t, m0, k, k, a);
    }
  }

  lemma ToggleStaysConsistent(t: Table, m0: Memory, s: State, w: Write)
    requires WellPlaced(t, m0) && Consistent(t, m0, s)
    ensures Consistent(t, m0, Toggle(t, s, w))
  {
    if w.Number? && w.newval == 0 && s.hooked {
      var r := UnpatchAll(t, s.mem, 0);
      UnpatchAllRestores(t, m0, s.mem, 0, r);
      NothingPatched(t, m0, r, t.n);
    } else if w.Number? && w.newval != 0 && !s.hooked {
      PatchAllPatches(t, m0, s.mem, 0, PatchAll(t, s.mem, 0));
    }
  }

  lemma {:induction false} RunStaysConsistent(t: Table, m0: Memory, s: State, ws: seq<Write>)
    requires WellPlaced(t, m0) && Consistent(t, m0, s)
    ensures Consistent(t, m0, Run(t, s, ws))
    decreases |ws|
  {
    if ws != [] {
      ToggleStaysConsistent(t, m0, s, ws[0]);
      RunStaysConsistent(t, m0, Toggle(t, s, ws[0]), ws[1..]);
    }
  }

  /**
   * After any writes to the toggle: unhooked, all code is what it was; hooked, it differs at resolved targets only,
   * and each of those holds the branch to its replacement.
   */
  lemma HookRoundTrip(t: Table, m0: Memory, ws: seq<Write>, a: Word)
    requires WellPlaced(t, m0) && !t.Inside(a)
    ensures var s := Run(t, State(m0, false), ws);
            && (!s.hooked ==> s.mem(a) == m0(a))
            && (s.hooked && !Diverted(t, m0, 0, t.n, a) ==> s.mem(a) == m0(a))
            && (s.hooked ==> forall i :: 0 <= i < t.n && a == Resolve(t, m0, i) && a != 0 ==>
                  s.mem(a) == BranchWord(a, NewFunc(t, m0, i)))
  {
    var s := Run(t, State(m0, false), ws);
    RunStaysConsistent(t, m0, State(m0, false), ws);
    assert !Diverted(t, m0, 0, 0, a);
    if s.hooked {
      forall i: nat | i < t.n && a == Resolve(t, m0, i) && a != 0 ensures s.mem(a) == BranchWord(a, NewFunc(t, m0, i)) {
        assert Armed(t, m0, s.mem, i);
      }
    }
  }

  /** An entry hooks the address it holds; if it holds none, the one its name stands for; if that is none, nothing. */
  lemma HooksWhatItNames(t: Table, m: Memory, i: nat)
    requires i < t.n
    ensures var m', held, name, branchTo := Patch(t, m, i), m(t.At(i) + TARGET), m(t.At(i) + NAME), NewFunc(t, m, i);
            && (held != 0 && !t.Inside(held) ==>
                  m'(held) == BranchWord(held, branchTo) && forall a :: !t.Inside(a) && a != held ==> m'(a) == m(a))
            && (held == 0 && name != 0 && t.lookup(name) != 0 && !t.Inside(t.lookup(name)) ==>
                  && m'(t.lookup(name)) == BranchWord(t.lookup(name), branchTo)
                  && forall a :: !t.Inside(a) && a != t.lookup(name) ==> m'(a) == m(a))
            && (held == 0 && (name == 0 || t.lookup(name) == 0) ==> forall a :: !t.Inside(a) ==> m'(a) == m(a))
  {
    if Resolve(t, m, i) == 0 || !t.Inside(Resolve(t, m, i)) {
      PatchEffect(t, m, i);
    }
  }

  /** Write `k` is the last well-formed one. */
  predicate IsLast(ws: seq<Write>, k: int) {
    0 <= k < |ws| && ws[k].Number? && forall j :: k < j < |ws| ==> ws[j].Malformed?
  }

  /** The last well-formed write decides, and none leaves things as they are. */
  lemma {:induction false} LastWriteDecides(t: Table, s: State, ws: seq<Write>)
    ensures Run(t, s, ws).hooked <==>
            (exists k :: IsLast(ws, k) && ws[k].newval != 0) || (s.hooked && forall k :: !IsLast(ws, k))
    decreases |ws|
  {
    if ws != [] {
      var rest := ws[1..];
      LastWriteDecides(t, Toggle(t, s, ws[0]), rest);
      LastBehindFirst(ws, rest);
    }
  }

  lemma LastBehindFirst(ws: seq<Write>, rest: seq<Write>)
    requires ws != [] && rest == ws[1..]
    ensures forall k :: IsLast(rest, k) ==> IsLast(ws, k + 1)
    ensures forall k :: IsLast(ws, k) && k > 0 ==> IsLast(rest, k - 1)
    ensures IsLast(ws, 0) <==> ws[0].Number? && forall k :: !IsLast(rest, k)
  {
    LastOfMany(rest);
    assert forall j :: 0 < j < |ws| ==> ws[j] == rest[j - 1];
  }

  lemma {:induction false} LastOfMany(ws: seq<Write>)
    ensures (exists k :: IsLast(ws, k)) <==> exists j :: 0 <= j < |ws| && ws[j].Number?
    decreases |ws|
  {
    if ws != [] {
      var n := |ws| - 1;
      if ws[n].Number? {
        assert IsLast(ws, n);
      } else {
        LastOfMany(ws[..n]);
        if k :| IsLast(ws[..n], k) {
          assert IsLast(ws, k);
        }
      }
    }
  }

  /**
   * From an unhooked kernel: if the last well-formed write is not zero, every resolved target holds the branch to its
   * replacement and no other code has changed; if it is zero, or there is none, all code is what it was.
   */
  lemma WritesDecideCode(t: Table, m0: Memory, ws: seq<Write>, a: Word)
    requires WellPlaced(t, m0) && !t.Inside(a)
    ensures var s := Run(t, State(m0, false), ws);
            if exists k :: IsLast(ws, k) && ws[k].newval != 0 then
              && s.hooked
              && (forall i :: 0 <= i < t.n && a == Resolve(t, m0, i) && a != 0 ==>
                    s.mem(a) == BranchWord(a, NewFunc(t, m0, i)))
              && (!Diverted(t, m0, 0, t.n, a) ==> s.mem(a) == m0(a))
            else !s.hooked && s.mem(a) == m0(a)
  {
    LastWriteDecides(t, State(m0, false), ws);
    HookRoundTrip(t, m0, ws, a);
  }

  /** The table and the places it names are as the hook code needs them. */
  ghost predicate Sane(t: Table, m: Memory) {
    t.base % 4 == 0 && WellFormed(t, m) && WellPlaced(t, m)
  }

  lemma SaneFollowsFields(t: Table, m: Memory, m': Memory)
    requires Sane(t, m)
    requires forall i :: 0 <= i <= t.n ==> NewFunc(t, m', i) == NewFunc(t, m, i)
    requires forall i :: 0 <= i < t.n ==> Resolve(t, m', i) == Resolve(t, m, i)
    ensures Sane(t, m')
  {
  }

  lemma PatchKeepsSane(t: Table, m: Memory, k: nat)
    requires Sane(t, m) && k < t.n
    ensures Sane(t, Patch(t, m, k))
  {
    PatchEffect(t, m, k);
    PatchKeepsFields(t, m, Patch(t, m, k), k, Resolve(t, m, k));
    SaneFollowsFields(t, m, Patch(t, m, k));
  }

  lemma UnpatchKeepsSane(t: Table, m: Memory, k: nat)
    requires Sane(t, m) && k < t.n
    ensures Sane(t, Unpatch(m, t.At(k)))
  {
    var a := m(t.At(k) + TARGET);
    assert a != 0 ==> Resolve(t, m, k) == a;
    SaneFollowsFields(t, m, Unpatch(m, t.At(k)));
  }

  // The module's own code

  class Module {
    const table: Table
    ghost const original: Memory
    var mem: Memory
    var hooked: bool

    function View(): State
      reads this
    {
      State(mem, hooked)
    }

    ghost predicate Valid()
      reads this
    {
      Sane(table, original) && Consistent(table, original, View())
    }

    constructor (t: Table, m: Memory)
      requires Sane(t, m)
      ensures Valid() && View() == State(m, false) && table == t && original == m
    {
      table, original, mem, hooked := t, m, m, false;
    }

    method Store(a: int, w: Word)
      modifies `mem
      ensures mem == Put(old(mem), a, w)
    {
      mem := Put(mem, a, w);
    }

    /** Hooks entry `i`; -1 when its target cannot be found. */
    method Hook(i: nat) returns (status: int)
      modifies `mem
      ensures status == if Resolve(table, old(mem), i) == 0 then -1 else 0
      ensures mem == Patch(table, old(mem), i)
    {
      var at := table.At(i);
      if mem(at + TARGET) == 0 {
        if mem(at + NAME) != 0 {
          Store(at + TARGET, table.lookup(mem(at + NAME)));
        }
        if mem(at + TARGET) == 0 {
          return -1;
        }
      }
      DivertTo(at, mem(at + TARGET));
      return 0;
    }

    /** Saves the first word of the function at `target`, redirects it, and sets up the way back. */
    method DivertTo(at: int, target: Word)
      modifies `mem
      ensures mem == Divert(old(mem), at, target)
    {
      Store(at + ASM0, mem(target));
      Store(target, BranchWord(target, mem(at + NEWFUNC)));
      Store(at + JMP, JUMP_WORD);
      Store(at + CONT, Wrap(target + 4));
    }

    method Unhook(i: nat)
      modifies `mem
      ensures mem == Unpatch(old(mem), table.At(i))
    {
      var at := table.At(i);
      if mem(at + TARGET) != 0 {
        Store(mem(at + TARGET), mem(at + ASM0));
      }
    }

    /** The body of either loop, with what the loop has to know about the table afterwards. */
    method HookNext(i: nat)
      requires Sane(table, mem) && i < table.n
      modifies `mem
      ensures Sane(table, mem) && PatchAll(table, mem, i + 1) == PatchAll(table, old(mem), i)
    {
      PatchKeepsSane(table, mem, i);
      var status := Hook(i);
    }

    method UnhookNext(i: nat)
      requires Sane(table, mem) && i < table.n
      modifies `mem
      ensures Sane(table, mem) && UnpatchAll(table, mem, i + 1) == UnpatchAll(table, old(mem), i)
    {
      UnpatchKeepsSane(table, mem, i);
      Unhook(i);
    }

    method HookInit()
      requires Sane(table, mem)
      modifies `mem
      ensures mem == PatchAll(table, old(mem), 0)
    {
      var i := 0;
      ghost var all := PatchAll(table, mem, i);
      while NewFunc(table, mem, i) != 0
        invariant 0 <= i <= table.n && Sane(table, mem) && PatchAll(table, mem, i) == all
        decreases table.n - i
      {
        HookNext(i);
        i := i + 1;
      }
      assert i == table.n;
    }

    method HookExit()
      requires Sane(table, mem)
      modifies `mem
      ensures mem == UnpatchAll(table, old(mem), 0)
    {
      var i := 0;
      ghost var all := UnpatchAll(table, mem, i);
      while NewFunc(table, mem, i) != 0
        invariant 0 <= i <= table.n && Sane(table, mem) && UnpatchAll(table, mem, i) == all
        decreases table.n - i
      {
        UnhookNext(i);
        i := i + 1;
      }
      assert i == table.n;
    }

    method ProcHookWrite(w: Write)
      requires Valid()
      modifies this
      ensures Valid() && View() == Toggle(table, old(View()), w)
    {
      ToggleStaysConsistent(table, original, View(), w);
      if w.Number? {
        if w.newval == 0 && hooked {
          HookExit();
          hooked := false;
        } else if w.newval != 0 && !hooked {
          HookInit();
          hooked := true;
        }
      }
    }
  }
}
