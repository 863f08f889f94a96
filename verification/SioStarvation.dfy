/** For exactly how long one direction can shut out the other. */
module SioStarvation {
  import opened Basics
  import opened SioQueues
  import opened SioModel
  import opened SioOrder
  import opened SioRuns

  predicate IsQueued(f: Fifos, d: Dir) {
    f[Class(true, d)] != [] || f[Class(false, d)] != []
  }

  /** The direction of the request that the next dispatch sends. */
  function Sends(cfg: Settings, s: State): Option<Dir> {
    match Chosen(cfg, s)
    case None => None
    case Some(c) => Some(s.fifo[c][0].dir)
  }

  /** Every dispatch of the run sends a request of direction `d` while the other direction has one waiting. */
  predicate ShutsOut(cfg: Settings, s: State, ops: seq<Op>, d: Dir)
    decreases |ops|
  {
    ops == [] ||
    (&& KeepsDir(s, ops[0])
     && (ops[0].DispatchOp? ==> IsQueued(s.fifo, Other(d)) && Sends(cfg, s) == Some(d))
     && ShutsOut(cfg, Step(cfg, s, ops[0]), ops[1..], d))
  }

  // Credit: how many dispatches can still go to one direction

  /** Requests sent between two expiry checks, the first of them by the check. */
  function Period(cfg: Settings): (m: nat)
    ensures m > 0
  {
    cfg.fifoBatch + 1
  }

  /** `batched` is at `b`, `starved` at `k`; if reads go on, a check is due just when `starved` passes its limit. */
  predicate CheckMeetsLimit(cfg: Settings, b: nat, k: nat) {
    (b + cfg.writesStarved + 1 - k) % Period(cfg) == 0
  }

  /** Reads that can still go out before a waiting write does. */
  function ReadCredit(cfg: Settings, b: nat, k: nat): nat {
    if k <= cfg.writesStarved then
      cfg.writesStarved + 1 - k +
      (if !CheckMeetsLimit(cfg, b, k) then 0 else if cfg.writesStarved + 2 == WORD then WORD else 1)
    else if b <= cfg.fifoBatch then 0
    else if k + 1 == WORD then cfg.writesStarved + 2 + (if CheckMeetsLimit(cfg, 1, 0) then 1 else 0)
    else 1
  }

  /** Writes that can still go out before a waiting read does. */
  function WriteCredit(cfg: Settings, b: nat, k: nat): nat {
    if b > cfg.fifoBatch then 1
    else if k <= cfg.writesStarved then 0
    else if b == cfg.fifoBatch then 2
    else 1
  }

  function CreditAt(cfg: Settings, d: Dir, b: nat, k: nat): nat {
    if d == Read then ReadCredit(cfg, b, k) else WriteCredit(cfg, b, k)
  }

  function Credit(cfg: Settings, s: State, d: Dir): nat {
    CreditAt(cfg, d, s.batched, s.starved)
  }

  /**
   * What a bound needs: at least one request per batch; for reads also a `writes_starved` that the 32-bit counter
   * `starved` can exceed, and, if it exceeds it only just before it wraps, expiry checks that miss that moment.
   */
  predicate Bounded(cfg: Settings, d: Dir) {
    && cfg.fifoBatch >= 1
    && (d == Read ==>
          || cfg.writesStarved + 3 <= WORD
          || (cfg.writesStarved + 2 == WORD && WORD % Period(cfg) != 0))
  }

  lemma ModShift(x: int, m: nat)
    requires m > 0
    ensures (x - m) % m == x % m
  {
    assert x == x / m * m + x % m;
    assert x - m == (x / m - 1) * m + x % m;
    DivUnique(x - m, m, x / m - 1, x % m);
  }

  lemma DivUnique(x: int, m: nat, q: int, r: nat)
    requires m > 0 && x == q * m + r && r < m
    ensures x % m == r
  {
    var k := x / m - q;
    assert x == x / m * m + x % m;
    assert k * m == x / m * m - q * m;
  }

  /** A read below the limit brings the limit and the next check closer by one: whether they meet does not change. */
  lemma MeetingStays(cfg: Settings, b: nat, k: nat)
    requires b <= cfg.fifoBatch + 1
    ensures CheckMeetsLimit(cfg, NextBatched(cfg, b), k + 1) == CheckMeetsLimit(cfg, b, k)
  {
    if b > cfg.fifoBatch {
      ModShift(b + cfg.writesStarved + 1 - k, Period(cfg));
    }
  }

  /** Having reached the limit, the dispatch is a check exactly when they meet. */
  lemma MeetingAtLimit(cfg: Settings, b: nat)
    requires 1 <= b <= cfg.fifoBatch + 1
    ensures CheckMeetsLimit(cfg, b, cfg.writesStarved + 1) <==> b > cfg.fifoBatch
  {
  }

  lemma ReadSpendsCredit(cfg: Settings, b: nat, k: nat)
    requires cfg.Valid() && Bounded(cfg, Read) && b <= cfg.fifoBatch + 1 && k < WORD
    requires b > cfg.fifoBatch || k <= cfg.writesStarved
    ensures ReadCredit(cfg, NextBatched(cfg, b), Increment(k)) + 1 == ReadCredit(cfg, b, k)
  {
    if k <= cfg.writesStarved {
      MeetingStays(cfg, b, k);
      MeetingAtLimit(cfg, NextBatched(cfg, b));
    }
  }

  /** A dispatch in one direction while the other waits uses up exactly one unit of its credit. */
  lemma DispatchSpendsCredit(cfg: Settings, s: State, d: Dir)
    requires Inv(cfg, s) && Bounded(cfg, d) && DirPure(s.fifo)
    requires IsQueued(s.fifo, Other(d)) && Sends(cfg, s) == Some(d)
    ensures Credit(cfg, Dispatch(cfg, s), d) + 1 == Credit(cfg, s, d)
  {
    if d == Read {
      ReadSpendsCredit(cfg, s.batched, s.starved);
    }
  }

  /** A run that shuts one direction out is no longer than the credit it starts with. */
  lemma {:induction false} ShutOutIsBounded(cfg: Settings, s: State, ops: seq<Op>, d: Dir)
    requires Inv(cfg, s) && Bounded(cfg, d) && DirPure(s.fifo) && ShutsOut(cfg, s, ops, d)
    ensures Dispatches(ops) <= Credit(cfg, s, d)
    decreases |ops|
  {
    if ops != [] {
      StepKeepsInv(cfg, s, ops[0]);
      StepKeepsDirPure(cfg, s, ops[0]);
      if ops[0].DispatchOp? {
        DispatchSpendsCredit(cfg, s, d);
      }
      ShutOutIsBounded(cfg, Step(cfg, s, ops[0]), ops[1..], d);
    }
  }

  /**
   * At most two consecutive writes while a read waits; at most `writes_starved + 2` consecutive reads while a write
   * waits, or one more when the 32-bit counter wraps at the first of them.
   */
  lemma StarvationBounds(cfg: Settings, s: State, ops: seq<Op>, d: Dir)
    requires Inv(cfg, s) && Bounded(cfg, d) && DirPure(s.fifo) && ShutsOut(cfg, s, ops, d)
    ensures d == Write ==> Dispatches(ops) <= 2
    ensures d == Read && cfg.writesStarved + 3 <= WORD ==>
              Dispatches(ops) <= cfg.writesStarved + (if s.starved + 1 == WORD then 3 else 2)
  {
    ShutOutIsBounded(cfg, s, ops, d);
  }

  // A flood that uses up all credit

  function FloodClass(d: Dir): Class {
    Class(d == Read, d)
  }

  /** The class of the one request that is shut out. */
  function WaiterClass(d: Dir): Class {
    Class(d == Write, Other(d))
  }

  /** `n` overdue requests of direction `d`, and one of the other direction that still has time. */
  ghost predicate Flooded(s: State, d: Dir, n: nat) {
    var flood, waiting := s.fifo[FloodClass(d)], s.fifo[WaiterClass(d)];
    && |flood| == n && (forall r :: r in flood ==> r.dir == d && s.jiffies > r.fifoTime)
    && waiting != [] && s.jiffies <= waiting[0].fifoTime
    && s.fifo[Class(true, Write)] == s.fifo[Class(false, Read)] == []
  }

  lemma FloodArises(cfg: Settings, s: State, d: Dir, n: nat) returns (s': State)
    requires Reachable(cfg, s) && Quiet(s.fifo)
    ensures Reachable(cfg, s') && Flooded(s', d, n)
    ensures s'.batched == s.batched && s'.starved == s.starved
  {
    var filled := Stocked(cfg, s, FloodClass(d), 0, n);
    StockArises(cfg, s, FloodClass(d), 0, n);
    var wait := Tick(cfg.expire(FloodClass(d)) + 1);
    var late := Step(cfg, filled, wait);
    StepStaysReachable(cfg, filled, wait);
    StockArises(cfg, late, WaiterClass(d), n, 1);
    s' := Stocked(cfg, late, WaiterClass(d), n, 1);
  }

  /** The flood has the next dispatch if it is an expiry check, or if the direction is the wanted one. */
  lemma FloodIsSent(cfg: Settings, s: State, d: Dir, n: nat)
    requires Flooded(s, d, n) && n > 0 && (CheckDue(cfg, s) || WantedDir(cfg, s) == d)
    ensures Sends(cfg, s) == Some(d) && IsQueued(s.fifo, Other(d))
    ensures Flooded(Dispatch(cfg, s), d, n - 1)
  {
    var q := s.fifo[FloodClass(d)];
    assert q[0] in q;
    assert Chosen(cfg, s) == Some(FloodClass(d));
    assert Dispatch(cfg, s).fifo[FloodClass(d)] == q[1..];
  }

  /** Credit left means that a flood gets the next dispatch. */
  lemma CreditIsGood(cfg: Settings, s: State, d: Dir)
    requires Inv(cfg, s) && Credit(cfg, s, d) > 0
    ensures CheckDue(cfg, s) || WantedDir(cfg, s) == d
  {
  }

  /** A flood can use up whatever credit there is. */
  lemma {:induction false} FloodSpendsCredit(cfg: Settings, s: State, d: Dir, n: nat)
    requires Inv(cfg, s) && DirPure(s.fifo) && Bounded(cfg, d) && Flooded(s, d, n) && n <= Credit(cfg, s, d)
    ensures ShutsOut(cfg, s, Repeat(n), d)
    decreases n
  {
    if n > 0 {
      CreditIsGood(cfg, s, d);
      FloodIsSent(cfg, s, d, n);
      DispatchSpendsCredit(cfg, s, d);
      StepKeepsInv(cfg, s, DispatchOp);
      StepKeepsDirPure(cfg, s, DispatchOp);
      FloodSpendsCredit(cfg, Dispatch(cfg, s), d, n - 1);
      assert Repeat(n)[0] == DispatchOp && Repeat(n)[1..] == Repeat(n - 1);
    }
  }

  // Without a bound

  /** The counters stand so that a flood of direction `d` will never have to stop. */
  predicate InPhase(cfg: Settings, s: State, d: Dir) {
    || (d == Read && cfg.writesStarved + 1 == WORD)
    || (s.batched >= 1 && (cfg.fifoBatch == 0 || CheckMeetsLimit(cfg, s.batched, s.starved)))
  }

  lemma FloodStaysInPhase(cfg: Settings, s: State, d: Dir)
    requires Inv(cfg, s) && !Bounded(cfg, d) && InPhase(cfg, s, d)
    ensures CheckDue(cfg, s) || WantedDir(cfg, s) == d
    ensures Sends(cfg, s) == Some(d) ==> InPhase(cfg, Dispatch(cfg, s), d)
  {
    if cfg.fifoBatch > 0 && cfg.writesStarved + 2 == WORD {
      if s.starved == cfg.writesStarved + 1 {
        MeetingAtLimit(cfg, s.batched);
      } else if Sends(cfg, s) == Some(d) {
        MeetingStays(cfg, s.batched, s.starved);
      }
    }
  }

  lemma {:induction false} FloodNeverStops(cfg: Settings, s: State, d: Dir, n: nat)
    requires Inv(cfg, s) && !Bounded(cfg, d) && InPhase(cfg, s, d) && Flooded(s, d, n)
    ensures ShutsOut(cfg, s, Repeat(n), d)
    decreases n
  {
    if n > 0 {
      FloodStaysInPhase(cfg, s, d);
      FloodIsSent(cfg, s, d, n);
      StepKeepsInv(cfg, s, DispatchOp);
      FloodNeverStops(cfg, Dispatch(cfg, s), d, n - 1);
      assert Repeat(n)[0] == DispatchOp && Repeat(n)[1..] == Repeat(n - 1);
    }
  }

  // The exact bound

  /** No reachable state lets direction `d` shut the other one out for more than `bound` dispatches. */
  ghost predicate LongestShutOut(cfg: Settings, d: Dir, bound: nat) {
    forall s, ops :: Reachable(cfg, s) && ShutsOut(cfg, s, ops, d) ==> Dispatches(ops) <= bound
  }

  function WorstCase(cfg: Settings, d: Dir): nat {
    if d == Write then (if cfg.writesStarved + 1 == WORD then 1 else 2)
    else if cfg.writesStarved + 2 == WORD then 2 * WORD - 1
    else cfg.writesStarved + 2 + (if CheckMeetsLimit(cfg, 1, 0) then 1 else 0)
  }

  lemma CreditAtMostWorstCase(cfg: Settings, s: State, d: Dir)
    requires Inv(cfg, s) && Bounded(cfg, d)
    ensures Credit(cfg, s, d) <= WorstCase(cfg, d)
  {
  }

  /** Counter values whose credit is the worst case. */
  lemma WorstCounters(cfg: Settings, d: Dir) returns (b: nat, k: nat)
    requires cfg.Valid() && Bounded(cfg, d)
    ensures b <= cfg.fifoBatch + 1 && k < WORD
    ensures CreditAt(cfg, d, b, k) == WorstCase(cfg, d)
  {
    if d == Write {
      b, k := if cfg.writesStarved + 1 == WORD then cfg.fifoBatch + 1 else cfg.fifoBatch,
              if cfg.writesStarved + 1 == WORD then 0 else cfg.writesStarved + 1;
    } else if CheckMeetsLimit(cfg, 1, 0) {
      b, k := cfg.fifoBatch + 1, WORD - 1;
    } else {
      var x := cfg.writesStarved + 1;
      b, k := Period(cfg) - x % Period(cfg), 0;
      DivUnique(b + x, Period(cfg), x / Period(cfg) + 1, 0);
    }
  }

  lemma WorstCaseHappens(cfg: Settings, d: Dir) returns (s: State)
    requires cfg.Valid() && Bounded(cfg, d)
    ensures Reachable(cfg, s) && ShutsOut(cfg, s, Repeat(WorstCase(cfg, d)), d)
  {
    var b, k := WorstCounters(cfg, d);
    var quiet := CountersReached(cfg, b, k);
    s := FloodArises(cfg, quiet, d, WorstCase(cfg, d));
    ReachableIsSound(cfg, s);
    FloodSpendsCredit(cfg, s, d, WorstCase(cfg, d));
  }

  lemma AnyLengthHappens(cfg: Settings, d: Dir, n: nat) returns (s: State)
    requires cfg.Valid() && !Bounded(cfg, d)
    ensures Reachable(cfg, s) && ShutsOut(cfg, s, Repeat(n), d)
  {
    var quiet := CountersReached(cfg, 1, 0);
    s := FloodArises(cfg, quiet, d, n);
    ReachableIsSound(cfg, s);
    FloodNeverStops(cfg, s, d, n);
  }

  /**
   * How long one direction can shut out the other, from any state a run from `sio_init_queue` can reach: for at most
   * `WorstCase` dispatches and no fewer, if `Bounded` holds; without any limit, if it does not.
   */
  lemma ShutOutExactly(cfg: Settings, d: Dir, bound: nat)
    requires cfg.Valid()
    ensures LongestShutOut(cfg, d, bound) <==> Bounded(cfg, d) && bound >= WorstCase(cfg, d)
  {
    if !Bounded(cfg, d) {
      var s := AnyLengthHappens(cfg, d, bound + 1);
    } else {
      var s := WorstCaseHappens(cfg, d);
      if bound >= WorstCase(cfg, d) {
        forall s, ops | Reachable(cfg, s) && ShutsOut(cfg, s, ops, d) ensures Dispatches(ops) <= bound {
          ReachableIsSound(cfg, s);
          ShutOutIsBounded(cfg, s, ops, d);
          CreditAtMostWorstCase(cfg, s, d);
        }
      }
    }
  }

  /** With the batch size set at initialisation, only an uninitialised `writes_starved` of all ones is fatal. */
  lemma DefaultBatchIsBounded(cfg: Settings, d: Dir)
    requires cfg.Valid() && cfg.fifoBatch == 8
    ensures Bounded(cfg, d) <==> d == Write || cfg.writesStarved + 1 != WORD
  {
  }
}
