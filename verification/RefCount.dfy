/** The reference count that processes share in a file: `inc_atomic` and `dec_atomic`, step by step. */
module RefCount {
  import opened Basics
  const MAGIC := 0x5566_5566

  datatype File = Missing | Empty | Record(magic: int, base: nat)

  /** The count as the code understands the file. */
  function Count(f: File): nat {
    if f.Record? && f.magic == MAGIC then f.base else 0
  }

  /** What a call is going to write, having read `f`: one more, modulo the word size, or one less but not below zero. */
  function NextCount(dec: bool, f: File): nat {
    if dec then
      var base := if f.Record? then (if f.magic == MAGIC then f.base else 1) else 0;
      (if base == 0 then 1 else base) - 1
    else if Count(f) + 1 == WORD then 0 else Count(f) + 1
  }

  /**
   * How far a call has come. From `Reading` to `HasRead` the read lock is held, from `Writing` to `Written` the
   * write lock. `seen` is how many writes had been done when the file was read.
   */
  datatype Proc =
    | Idle
    | Opened(dec: bool)
    | Reading(dec: bool)
    | HasRead(dec: bool, value: nat, seen: nat)
    | Released(dec: bool, value: nat, seen: nat)
    | Writing(dec: bool, value: nat, seen: nat)
    | Written
  {
    predicate HoldsRead() {
      Reading? || HasRead?
    }

    predicate HoldsWrite() {
      Writing? || Written?
    }

    predicate HasValue() {
      HasRead? || Released? || Writing?
    }
  }

  /** `log` lists the writes done so far: true for a decrement. */
  datatype State = State(file: File, procs: map<nat, Proc>, log: seq<bool>) {
    function At(p: nat): Proc {
      if p in procs then procs[p] else Idle
    }
  }

  /** One step of a process. `Close` ends a call, also one that fails half-way. */
  datatype Step = Open(p: nat, dec: bool) | LockRead(p: nat) | Read(p: nat) | Unlock(p: nat) | LockWrite(p: nat)
                | Write(p: nat) | Close(p: nat)

  /** The lock manager grants a lock only when no other process holds one that excludes it. */
  ghost predicate Enabled(s: State, t: Step) {
    match t
    case Open(p, _) => s.At(p).Idle?
    case LockRead(p) => s.At(p).Opened? && forall q :: q != p ==> !s.At(q).HoldsWrite()
    case Read(p) => s.At(p).Reading?
    case Unlock(p) => s.At(p).HasRead?
    case LockWrite(p) => s.At(p).Released? && forall q :: q != p ==> !s.At(q).HoldsWrite() && !s.At(q).HoldsRead()
    case Write(p) => s.At(p).Writing?
    case Close(p) => !s.At(p).Idle?
  }

  /** A missing file is created by an increment; a decrement gives up. */
  function Do(s: State, t: Step): State {
    var pc := s.At(t.p);
    match t
    case Open(p, dec) =>
      if s.file.Missing? && dec then s
      else s.(file := if s.file.Missing? then Empty else s.file, procs := s.procs[p := Opened(dec)])
    case LockRead(p) => if pc.Opened? then s.(procs := s.procs[p := Reading(pc.dec)]) else s
    case Read(p) =>
      if pc.Reading? then s.(procs := s.procs[p := HasRead(pc.dec, NextCount(pc.dec, s.file), |s.log|)]) else s
    case Unlock(p) => if pc.HasRead? then s.(procs := s.procs[p := Released(pc.dec, pc.value, pc.seen)]) else s
    case LockWrite(p) => if pc.Released? then s.(procs := s.procs[p := Writing(pc.dec, pc.value, pc.seen)]) else s
    case Write(p) =>
      if pc.Writing? then State(Record(MAGIC, pc.value), s.procs[p := Written], s.log + [pc.dec]) else s
    case Close(p) => s.(procs := s.procs[p := Idle])
  }

  ghost predicate Possible(s: State, ts: seq<Step>)
    decreases |ts|
  {
    ts == [] || (Enabled(s, ts[0]) && Possible(Do(s, ts[0]), ts[1..]))
  }

  function Run(s: State, ts: seq<Step>): State
    decreases |ts|
  {
    if ts == [] then s else Run(Do(s, ts[0]), ts[1..])
  }

  const INITIAL := State(Missing, map[], [])

  /** A step changes only the process that takes it. */
  lemma OthersStay(s: State, t: Step, q: nat)
    requires q != t.p
    ensures Do(s, t).At(q) == s.At(q)
  {
  }

  function Incs(log: seq<bool>): nat {
    if log == [] then 0 else Incs(log[..|log| - 1]) + (if log[|log| - 1] then 0 else 1)
  }

  // The locks do their job

  ghost predicate Exclusive(s: State) {
    forall p, q :: s.At(p).HoldsWrite() && (s.At(q).HoldsWrite() || s.At(q).HoldsRead()) ==> p == q
  }

  lemma {:induction false} LocksExclude(s: State, ts: seq<Step>)
    requires Exclusive(s) && Possible(s, ts)
    ensures Exclusive(Run(s, ts))
    decreases |ts|
  {
    if ts != [] {
      var s', t := Do(s, ts[0]), ts[0];
      forall q | q != t.p ensures s'.At(q) == s.At(q) {
        OthersStay(s, t, q);
      }
      LocksExclude(s', ts[1..]);
    }
  }

  // An upper bound, whatever overlaps

  /** Neither the file nor any value on its way into it exceeds `n`, a value of an increment by one at most. */
  ghost predicate BoundedBy(s: State, n: nat) {
    && Count(s.file) <= n
    && forall p :: s.At(p).HasValue() ==> s.At(p).value <= n + (if s.At(p).dec then 0 else 1)
  }

  ghost predicate Bounded(s: State) {
    BoundedBy(s, Incs(s.log))
  }

  lemma WriteStaysBounded(s: State, p: nat, n: nat)
    requires BoundedBy(s, n) && s.At(p).Writing?
    ensures BoundedBy(Do(s, Write(p)), n + (if s.At(p).dec then 0 else 1))
  {
    var s' := Do(s, Write(p));
    forall q | s'.At(q).HasValue() ensures s'.At(q).value <= n + (if s'.At(q).dec then 0 else 1) {
      assert s'.At(p) == Written;
      OthersStay(s, Write(p), q);
    }
  }

  lemma OtherStepStaysBounded(s: State, t: Step, n: nat)
    requires BoundedBy(s, n) && !(t.Write? && s.At(t.p).Writing?)
    ensures BoundedBy(Do(s, t), n) && Do(s, t).log == s.log
  {
    var s' := Do(s, t);
    assert Count(s'.file) == Count(s.file);
    assert NextCount(true, s.file) <= Count(s.file) && NextCount(false, s.file) <= Count(s.file) + 1;
    forall q | s'.At(q).HasValue() ensures s'.At(q).value <= n + (if s'.At(q).dec then 0 else 1) {
      if q != t.p {
        OthersStay(s, t, q);
      }
    }
  }

  lemma DoStaysBounded(s: State, t: Step)
    requires Bounded(s)
    ensures Bounded(Do(s, t))
  {
    if t.Write? && s.At(t.p).Writing? {
      WriteStaysBounded(s, t.p, Incs(s.log));
    } else {
      OtherStepStaysBounded(s, t, Incs(s.log));
    }
  }

  lemma {:induction false} RunStaysBounded(s: State, ts: seq<Step>)
    requires Bounded(s)
    ensures Bounded(Run(s, ts))
    decreases |ts|
  {
    if ts != [] {
      DoStaysBounded(s, ts[0]);
      RunStaysBounded(Do(s, ts[0]), ts[1..]);
    }
  }

  /** With any number of processes in any interleaving, the stored count never exceeds the increments written. */
  lemma NeverOvercounts(ts: seq<Step>)
    ensures var s := Run(INITIAL, ts);
            Count(s.file) <= Incs(s.log) <= |s.log|
  {
    RunStaysBounded(INITIAL, ts);
    IncsAtMostAll(Run(INITIAL, ts).log);
  }

  lemma {:induction false} IncsAtMostAll(log: seq<bool>)
    ensures Incs(log) <= |log|
  {
    if log != [] {
      IncsAtMostAll(log[..|log| - 1]);
    }
  }

  // Exactness when no write is stale

  /** The running difference, held at zero. */
  function Floored(log: seq<bool>): nat {
    if log == [] then 0
    else
      var before := Floored(log[..|log| - 1]);
      if !log[|log| - 1] then before + 1 else if before == 0 then 0 else before - 1
  }

  lemma {:induction false} FlooredAtMostAll(log: seq<bool>)
    ensures Floored(log) <= |log|
  {
    if log != [] {
      FlooredAtMostAll(log[..|log| - 1]);
    }
  }

  /** A write of a value computed before the latest write. */
  predicate Stale(s: State, t: Step) {
    t.Write? && s.At(t.p).Writing? && s.At(t.p).seen != |s.log|
  }

  predicate NeverStale(s: State, ts: seq<Step>)
    decreases |ts|
  {
    ts == [] || (!Stale(s, ts[0]) && NeverStale(Do(s, ts[0]), ts[1..]))
  }

  /** The file is exact, and so is every value computed since the latest write. */
  ghost predicate Exact(s: State) {
    && Count(s.file) == Floored(s.log)
    && forall p :: s.At(p).HasValue() ==>
         && s.At(p).seen <= |s.log|
         && (s.At(p).seen == |s.log| ==> s.At(p).value == NextCount(s.At(p).dec, s.file))
  }

  lemma WriteStaysExact(s: State, p: nat)
    requires Exact(s) && |s.log| + 1 < WORD && s.At(p).Writing? && s.At(p).seen == |s.log|
    ensures Exact(Do(s, Write(p)))
  {
    var s' := Do(s, Write(p));
    FlooredAtMostAll(s.log);
    forall q | q != p ensures s'.At(q) == s.At(q) {
      OthersStay(s, Write(p), q);
    }
    assert s'.At(p) == Written;
  }

  lemma DoStaysExact(s: State, t: Step)
    requires Exact(s) && |s.log| + 1 < WORD && !Stale(s, t)
    ensures Exact(Do(s, t))
  {
    var s' := Do(s, t);
    if t.Write? && s.At(t.p).Writing? {
      WriteStaysExact(s, t.p);
    } else {
      forall q | q != t.p ensures s'.At(q) == s.At(q) {
        OthersStay(s, t, q);
      }
      assert s'.log == s.log && forall dec :: NextCount(dec, s'.file) == NextCount(dec, s.file);
    }
  }

  lemma {:induction false} LogGrows(s: State, ts: seq<Step>)
    ensures |s.log| <= |Run(s, ts).log|
    decreases |ts|
  {
    if ts != [] {
      LogGrows(Do(s, ts[0]), ts[1..]);
    }
  }

  lemma {:induction false} RunStaysExact(s: State, ts: seq<Step>)
    requires Exact(s) && NeverStale(s, ts) && |Run(s, ts).log| + 1 < WORD
    ensures Exact(Run(s, ts))
    decreases |ts|
  {
    if ts != [] {
      LogGrows(s, ts);
      DoStaysExact(s, ts[0]);
      RunStaysExact(Do(s, ts[0]), ts[1..]);
    }
  }

  /**
   * Increments and decrements, mixed and overlapping as they may: if no write is stale the file holds their difference,
   * floored at zero on the way.
   */
  lemma CountsExactly(ts: seq<Step>)
    requires NeverStale(INITIAL, ts) && |Run(INITIAL, ts).log| + 1 < WORD
    ensures Count(Run(INITIAL, ts).file) == Floored(Run(INITIAL, ts).log)
  {
    RunStaysExact(INITIAL, ts);
  }

  /** Each call starts when no other is under way. */
  ghost predicate OneAtATime(s: State, ts: seq<Step>)
    decreases |ts|
  {
    ts == [] || ((ts[0].Open? ==> forall q :: s.At(q).Idle?) && OneAtATime(Do(s, ts[0]), ts[1..]))
  }

  /** At most one call is under way, and no write has been done since it read the file. */
  ghost predicate Alone(s: State) {
    && (forall p, q :: !s.At(p).Idle? && !s.At(q).Idle? ==> p == q)
    && forall p :: s.At(p).HasValue() ==> s.At(p).seen == |s.log|
  }

  lemma DoStaysAlone(s: State, t: Step)
    requires Alone(s) && (t.Open? ==> forall q :: s.At(q).Idle?)
    ensures Alone(Do(s, t))
  {
    var s' := Do(s, t);
    forall q | q != t.p ensures s'.At(q) == s.At(q) {
      OthersStay(s, t, q);
    }
  }

  lemma {:induction false} AloneIsNeverStale(s: State, ts: seq<Step>)
    requires Alone(s) && OneAtATime(s, ts)
    ensures NeverStale(s, ts)
    decreases |ts|
  {
    if ts != [] {
      DoStaysAlone(s, ts[0]);
      AloneIsNeverStale(Do(s, ts[0]), ts[1..]);
    }
  }

  /** So calls that never overlap are counted exactly. */
  lemma CountsExactlyAlone(ts: seq<Step>)
    requires OneAtATime(INITIAL, ts) && |Run(INITIAL, ts).log| + 1 < WORD
    ensures NeverStale(INITIAL, ts) && Count(Run(INITIAL, ts).file) == Floored(Run(INITIAL, ts).log)
  {
    AloneIsNeverStale(INITIAL, ts);
    CountsExactly(ts);
  }

  // Increments only: exactly when updates are lost

  predicate IncrementsOnly(ts: seq<Step>) {
    forall k :: 0 <= k < |ts| ==> !(ts[k].Open? && ts[k].dec)
  }

  /** While no update is lost, every value is exact for the moment it was read; afterwards all of them lag behind. */
  ghost predicate Tracks(s: State, lost: bool) {
    && (if lost then Count(s.file) < |s.log| else Count(s.file) == |s.log|)
    && (forall p :: !s.At(p).Idle? && !s.At(p).Written? ==> !s.At(p).dec)
    && (forall p :: s.At(p).HasValue() ==>
          && s.At(p).seen <= |s.log| && s.At(p).value <= s.At(p).seen + 1
          && (if lost then s.At(p).value <= |s.log| else s.At(p).value == s.At(p).seen + 1))
  }

  lemma DoTracks(s: State, t: Step, lost: bool)
    requires Tracks(s, lost) && |s.log| + 1 < WORD && !(t.Open? && t.dec)
    ensures Tracks(Do(s, t), lost || Stale(s, t))
  {
    var s' := Do(s, t);
    forall q | q != t.p ensures s'.At(q) == s.At(q) {
      OthersStay(s, t, q);
    }
    forall q | s'.At(q).HasValue()
      ensures s'.At(q).seen <= |s'.log| && s'.At(q).value <= s'.At(q).seen + 1
      ensures !(lost || Stale(s, t)) ==> s'.At(q).value == s'.At(q).seen + 1
      ensures lost || Stale(s, t) ==> s'.At(q).value <= |s'.log|
    {
      assert q != t.p ==> s'.At(q) == s.At(q);
    }
  }

  lemma {:induction false} RunTracks(s: State, ts: seq<Step>, lost: bool)
    requires Tracks(s, lost) && IncrementsOnly(ts) && |Run(s, ts).log| + 1 < WORD
    ensures Tracks(Run(s, ts), lost || !NeverStale(s, ts))
    decreases |ts|
  {
    if ts != [] {
      LogGrows(s, ts);
      DoTracks(s, ts[0], lost);
      RunTracks(Do(s, ts[0]), ts[1..], lost || Stale(s, ts[0]));
    }
  }

  /** Increments are all counted exactly when every write still follows the latest one it could have seen. */
  lemma LostUpdatesExactly(ts: seq<Step>)
    requires IncrementsOnly(ts) && |Run(INITIAL, ts).log| + 1 < WORD
    ensures Count(Run(INITIAL, ts).file) == |Run(INITIAL, ts).log| <==> NeverStale(INITIAL, ts)
  {
    RunTracks(INITIAL, ts, false);
  }

  lemma {:induction false} RunInParts(s: State, ts: seq<Step>, us: seq<Step>)
    ensures Run(s, ts + us) == Run(Run(s, ts), us)
    ensures Possible(s, ts) && Possible(Run(s, ts), us) ==> Possible(s, ts + us)
    decreases |ts|
  {
    if ts == [] {
      assert ts + us == us;
    } else {
      assert (ts + us)[1..] == ts[1..] + us;
      RunInParts(Do(s, ts[0]), ts[1..], us);
    }
  }

  lemma OneStep(s: State, ts: seq<Step>)
    requires |ts| == 1
    ensures Run(s, ts) == Do(s, ts[0]) && (Possible(s, ts) <==> Enabled(s, ts[0]))
  {
    var rest := ts[1..];
    assert rest == [];
    assert Possible(Do(s, ts[0]), rest) && Run(Do(s, ts[0]), rest) == Do(s, ts[0]);
  }

  lemma ThreeSteps(s: State, a: Step, b: Step, c: Step)
    ensures Run(s, [a, b, c]) == Do(Do(Do(s, a), b), c)
    ensures Possible(s, [a, b, c]) <==> Enabled(s, a) && Enabled(Do(s, a), b) && Enabled(Do(Do(s, a), b), c)
  {
    var three, two := [a, b, c], [b, c];
    assert three[1..] == two && two[1..] == [c];
    OneStep(Do(Do(s, a), b), [c]);
  }

  function ReadSteps(p: nat, dec: bool): (ts: seq<Step>)
    ensures |ts| == 4
  {
    [Open(p, dec), LockRead(p), Read(p), Unlock(p)]
  }

  function WriteSteps(p: nat): (ts: seq<Step>)
    ensures |ts| == 3
  {
    [LockWrite(p), Write(p), Close(p)]
  }

  /** `s` with process `p` past the unlock, having read the file. */
  function AfterReading(s: State, p: nat, dec: bool): State {
    State(if s.file.Missing? then Empty else s.file,
          s.procs[p := Released(dec, NextCount(dec, s.file), |s.log|)], s.log)
  }

  /** Steps two to four of a call: the lock, the read and the unlock. */
  lemma LockedRead(s: State, p: nat)
    requires s.At(p).Opened? && (forall q :: !s.At(q).HoldsWrite())
    ensures var dec, ts := s.At(p).dec, [LockRead(p), Read(p), Unlock(p)];
            && Possible(s, ts)
            && Run(s, ts) == s.(procs := s.procs[p := Released(dec, NextCount(dec, s.file), |s.log|)])
  {
    ThreeSteps(s, LockRead(p), Read(p), Unlock(p));
  }

  /** One process on its own as far as the unlock, from a state where no one writes. */
  lemma ReadPhase(s: State, p: nat, dec: bool)
    requires s.At(p).Idle? && (forall q :: !s.At(q).HoldsWrite()) && !(dec && s.file.Missing?)
    ensures Possible(s, ReadSteps(p, dec)) && Run(s, ReadSteps(p, dec)) == AfterReading(s, p, dec)
  {
    var ts := ReadSteps(p, dec);
    var s1 := Do(s, ts[0]);
    assert forall q :: q != p ==> s1.At(q) == s.At(q);
    LockedRead(s1, p);
    assert ts[1..] == [LockRead(p), Read(p), Unlock(p)];
  }

  /** And from there to the end, from a state where no one holds a lock. */
  lemma WritePhase(s: State, p: nat)
    requires s.At(p).Released? && (forall q :: !s.At(q).HoldsWrite() && !s.At(q).HoldsRead())
    ensures Possible(s, WriteSteps(p))
    ensures Run(s, WriteSteps(p)) ==
            State(Record(MAGIC, s.At(p).value), s.procs[p := Idle], s.log + [s.At(p).dec])
  {
    ThreeSteps(s, LockWrite(p), Write(p), Close(p));
  }

  /** From a state where two processes have read and no one holds a lock, both write what they read. */
  lemma BothWrite(s: State)
    requires s.At(0).Released? && s.At(1).Released? && forall q :: !s.At(q).HoldsWrite() && !s.At(q).HoldsRead()
    ensures var ts := WriteSteps(0) + WriteSteps(1);
            && Possible(s, ts) && Run(s, ts).file == Record(MAGIC, s.At(1).value)
            && |Run(s, ts).log| == |s.log| + 2
  {
    WritePhase(s, 0);
    var s' := Run(s, WriteSteps(0));
    assert forall q :: q != 0 ==> s'.At(q) == s.At(q);
    WritePhase(s', 1);
    RunInParts(s, WriteSteps(0), WriteSteps(1));
  }

  /** Two processes that read one after the other, before either writes. */
  lemma BothRead()
    ensures var ts := ReadSteps(0, false) + ReadSteps(1, false);
            && Possible(INITIAL, ts)
            && Run(INITIAL, ts) == State(Empty, map[0 := Released(false, 1, 0), 1 := Released(false, 1, 0)], [])
  {
    ReadPhase(INITIAL, 0, false);
    var s := AfterReading(INITIAL, 0, false);
    ReadPhase(s, 1, false);
    RunInParts(INITIAL, ReadSteps(0, false), ReadSteps(1, false));
  }

  /** The locks do not prevent lost updates: two processes may both read before either writes. */
  lemma LocksAllowLostUpdate()
    ensures var ts := (ReadSteps(0, false) + ReadSteps(1, false)) + (WriteSteps(0) + WriteSteps(1));
            && Possible(INITIAL, ts)
            && |Run(INITIAL, ts).log| == 2 && Count(Run(INITIAL, ts).file) == 1
  {
    BothRead();
    var start, rest := ReadSteps(0, false) + ReadSteps(1, false), WriteSteps(0) + WriteSteps(1);
    BothWrite(Run(INITIAL, start));
    RunInParts(INITIAL, start, rest);
  }

  // One call from start to end

  /** The file as a whole call leaves it, with no one else about. */
  function CallAlone(f: File, dec: bool): File {
    if f.Missing? && dec then Missing else Record(MAGIC, NextCount(dec, f))
  }

  /** What a call makes of a count; an empty or damaged file counts as 0, and so does a missing one to an increment. */
  lemma CallCounts(f: File, dec: bool)
    ensures f.Record? && f.magic == MAGIC && f.base + 1 < WORD ==>
              CallAlone(f, dec) == Record(MAGIC, if !dec then f.base + 1 else if f.base == 0 then 0 else f.base - 1)
    ensures f == Record(MAGIC, WORD - 1) ==> CallAlone(f, dec) == Record(MAGIC, if dec then WORD - 2 else 0)
    ensures f.Empty? || (f.Record? && f.magic != MAGIC) ==> CallAlone(f, dec) == Record(MAGIC, if dec then 0 else 1)
    ensures f.Missing? ==> CallAlone(f, dec) == if dec then Missing else Record(MAGIC, 1)
  {
  }

  /** The steps of a whole call: a decrement without a file ends with the attempt to open it. */
  function CallSteps(f: File, p: nat, dec: bool): seq<Step> {
    if f.Missing? && dec then [Open(p, dec)] else ReadSteps(p, dec) + WriteSteps(p)
  }

  /** A call that runs undisturbed does to the file what its steps do, and is over when they are done. */
  lemma CallIsItsSteps(s: State, p: nat, dec: bool)
    requires s.At(p).Idle? && (forall q :: !s.At(q).HoldsWrite() && !s.At(q).HoldsRead())
    ensures var ts := CallSteps(s.file, p, dec);
            && Possible(s, ts)
            && Run(s, ts).file == CallAlone(s.file, dec) && Run(s, ts).At(p).Idle?
            && Run(s, ts).log == if s.file.Missing? && dec then s.log else s.log + [dec]
  {
    if s.file.Missing? && dec {
      OneStep(s, [Open(p, dec)]);
    } else {
      ReadPhase(s, p, dec);
      var s' := AfterReading(s, p, dec);
      assert forall q :: q != p ==> s'.At(q) == s.At(q);
      WritePhase(s', p);
      RunInParts(s, ReadSteps(p, dec), WriteSteps(p));
    }
  }

  class RefFile {
    var file: File

    /** The new count. */
    method IncAtomic() returns (ret: int)
      modifies this
      ensures file == CallAlone(old(file), false) && ret == Count(file)
    {
      var magic, base := MAGIC, 0;
      if file.Missing? {
        file := Empty;
      }
      if file.Record? {
        magic, base := file.magic, file.base;
      }
      if magic != MAGIC {
        magic, base := MAGIC, 0;
      }
      base := if base + 1 == WORD then 0 else base + 1;
      file := Record(magic, base);
      return base;
    }

    /** The new count, or -2 when there is no file to decrement. */
    method DecAtomic() returns (ret: int)
      modifies this
      ensures file == CallAlone(old(file), true)
      ensures ret == if old(file).Missing? then -2 else Count(file)
    {
      if file.Missing? {
        return -2;
      }
      var magic, base := MAGIC, 0;
      if file.Record? {
        magic, base := file.magic, file.base;
      }
      if magic != MAGIC {
        magic, base := MAGIC, 1;
      }
      if base == 0 {
        base := 1;
      }
      base := base - 1;
      file := Record(magic, base);
      return base;
    }
  }
}
