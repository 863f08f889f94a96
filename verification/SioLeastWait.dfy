/** The least bounds on the waiting of synchronous requests. */
module SioLeastWait {
  import opened Basics
  import opened SioQueues
  import opened SioModel
  import opened SioOrder
  import opened SioFairness
  import opened SioRuns
  import opened SioWaiting

  /** Request `id` waits at position `p` of its class, with no other class about, and `spare` is not in use. */
  ghost predicate Exposed(s: State, c: Class, id: nat, p: nat, spare: nat) {
    && (forall x: Class :: x != c ==> s.fifo[x] == [])
    && Waits(s, c, id, p, false)
    && IdsBelow(s.fifo, spare) && id < spare
  }

  lemma {:induction false} OneMore(cfg: Settings, s: State, op: Op, ops: seq<Op>, c: Class, id: nat)
    requires LeavesAlone(s, op, c, id) && KeepsDir(s, op) && AllWait(cfg, Step(cfg, s, op), ops, c, id)
    ensures AllWait(cfg, s, [op] + ops, c, id)
    ensures Run(cfg, s, [op] + ops) == Run(cfg, Step(cfg, s, op), ops)
    ensures Dispatches([op] + ops) == Dispatches(ops) + (if op.DispatchOp? then 1 else 0)
  {
    assert ([op] + ops)[1..] == ops;
  }

  /** The head of the list of the request is sent. */
  lemma HeadGoes(cfg: Settings, s: State, s': State, c: Class, id: nat, p: nat)
    requires Inv(cfg, s) && DirPure(s.fifo) && Waits(s, c, id, p, false) && p > 0
    requires Chosen(cfg, s) == Some(c) && s' == Dispatch(cfg, s)
    ensures Waits(s', c, id, p - 1, false) && forall x: Class :: x != c ==> s'.fifo[x] == s.fifo[x]
    ensures s'.batched == NextBatched(cfg, s.batched) && s'.starved == NextStarved(c.dir, s.starved)
  {
    var q := s.fifo[c];
    assert Distinct(q) && q[0] in q && q[p] in q;
    HeadAdvances(q, id);
    assert s'.dispatched == s.dispatched + [q[0]];
  }

  lemma IdsStayBelow(cfg: Settings, s: State, limit: nat)
    requires IdsBelow(s.fifo, limit)
    ensures IdsBelow(Dispatch(cfg, s).fifo, limit)
  {
  }

  lemma OwnIsChosen(cfg: Settings, s: State, c: Class, id: nat, p: nat, spare: nat)
    requires IsSynchronous(c) && Exposed(s, c, id, p, spare)
    ensures Chosen(cfg, s) == Some(c)
  {
  }

  lemma OwnGoes(cfg: Settings, s: State, c: Class, id: nat, p: nat, spare: nat) returns (s': State)
    requires cfg.Valid() && IsSynchronous(c) && Reachable(cfg, s) && Exposed(s, c, id, p, spare) && p > 0
    ensures s' == Dispatch(cfg, s) && Reachable(cfg, s') && Exposed(s', c, id, p - 1, spare)
    ensures s'.batched == NextBatched(cfg, s.batched) && s'.starved == NextStarved(c.dir, s.starved)
  {
    s' := Dispatch(cfg, s);
    OwnIsChosen(cfg, s, c, id, p, spare);
    IdsStayBelow(cfg, s, spare);
    StepStaysReachable(cfg, s, DispatchOp);
    ReachableIsSound(cfg, s);
    HeadGoes(cfg, s, s', c, id, p);
  }

  /** One that comes before those of class `c`: asynchronous at a check, synchronous between checks. */
  function Rival(cfg: Settings, b: nat, d: Dir): Class {
    Class(b <= cfg.fifoBatch, d)
  }

  /** A rival of class `r` has come, overdue, with the identity `spare`. */
  ghost predicate Challenged(s: State, c: Class, id: nat, p: nat, spare: nat, r: Class) {
    && r != c && |s.fifo[r]| == 1 && s.fifo[r][0].id == spare && s.jiffies > s.fifo[r][0].fifoTime
    && (forall x: Class :: x != c && x != r ==> s.fifo[x] == [])
    && Waits(s, c, id, p, false)
    && IdsBelow(s.fifo, spare + 1) && id < spare
  }

  /** It is added, and is overdue after a while. */
  lemma RivalComes(cfg: Settings, s: State, c: Class, id: nat, p: nat, spare: nat, r: Class, add: Op, wait: Op)
      returns (s1: State, s2: State)
    requires Reachable(cfg, s) && Exposed(s, c, id, p, spare) && r != c
    requires add == Add(spare, r) && wait == Tick(cfg.expire(r) + 1)
    ensures KeepsDir(s, add) && s1 == Step(cfg, s, add) && s2 == Step(cfg, s1, wait) && Reachable(cfg, s2)
    ensures Challenged(s2, c, id, p, spare, r) && s2.batched == s.batched && s2.starved == s.starved
  {
    NewIdIsFree(s.fifo, spare);
    StepStaysReachable(cfg, s, add);
    s1 := Step(cfg, s, add);
    StepStaysReachable(cfg, s1, wait);
    s2 := Step(cfg, s1, wait);
  }

  lemma RivalIsChosen(cfg: Settings, s: State, c: Class, id: nat, p: nat, spare: nat, d: Dir)
    requires IsSynchronous(c) && Challenged(s, c, id, p, spare, Rival(cfg, s.batched, d))
    requires s.batched > cfg.fifoBatch || d == Other(c.dir) == Wanted(cfg, s.starved)
    ensures Chosen(cfg, s) == Some(Rival(cfg, s.batched, d))
  {
  }

  lemma RivalIsSent(cfg: Settings, s: State, s': State, c: Class, id: nat, p: nat, spare: nat, r: Class)
    requires Inv(cfg, s) && DirPure(s.fifo) && Challenged(s, c, id, p, spare, r)
    requires Chosen(cfg, s) == Some(r) && s' == Dispatch(cfg, s)
    ensures s'.fifo == s.fifo[r := []] && Waits(s', c, id, p, false)
    ensures s'.batched == NextBatched(cfg, s.batched) && s'.starved == NextStarved(r.dir, s.starved)
  {
    var q := s.fifo[r];
    assert q[0] in q && q[1..] == [];
    assert s.fifo[c][p] in s.fifo[c];
    OtherIsSent(cfg, s, c, r, id);
  }

  /** And it is sent. */
  lemma RivalGoes(cfg: Settings, s: State, s': State, c: Class, id: nat, p: nat, spare: nat, d: Dir)
    requires Inv(cfg, s) && DirPure(s.fifo) && IsSynchronous(c) && s' == Dispatch(cfg, s)
    requires Challenged(s, c, id, p, spare, Rival(cfg, s.batched, d))
    requires s.batched > cfg.fifoBatch || d == Other(c.dir) == Wanted(cfg, s.starved)
    ensures Exposed(s', c, id, p, spare + 1)
    ensures s'.batched == NextBatched(cfg, s.batched) && s'.starved == NextStarved(d, s.starved)
  {
    RivalIsChosen(cfg, s, c, id, p, spare, d);
    IdsStayBelow(cfg, s, spare + 1);
    RivalIsSent(cfg, s, s', c, id, p, spare, Rival(cfg, s.batched, d));
  }

  /** The three steps, put before a run. */
  lemma ThreeMore(cfg: Settings, s: State, s1: State, s2: State, s3: State, add: Op, wait: Op, ops: seq<Op>, c: Class,
                  id: nat)
      returns (all: seq<Op>)
    requires add.Add? && wait.Tick? && s1 == Step(cfg, s, add) && s2 == Step(cfg, s1, wait) && s3 == Dispatch(cfg, s2)
    requires KeepsDir(s, add) && AllWait(cfg, s3, ops, c, id)
    ensures AllWait(cfg, s, all, c, id) && Run(cfg, s, all) == Run(cfg, s3, ops)
    ensures Dispatches(all) == Dispatches(ops) + 1
  {
    OneMore(cfg, s2, DispatchOp, ops, c, id);
    OneMore(cfg, s1, wait, [DispatchOp] + ops, c, id);
    OneMore(cfg, s, add, [wait] + ([DispatchOp] + ops), c, id);
    all := [add] + ([wait] + ([DispatchOp] + ops));
  }

  /** A round of the game in which another class is served. */
  lemma RivalRound(cfg: Settings, s: State, c: Class, id: nat, p: nat, spare: nat, d: Dir)
      returns (s1: State, s2: State, s3: State, add: Op, wait: Op)
    requires cfg.Valid() && IsSynchronous(c) && Reachable(cfg, s) && Exposed(s, c, id, p, spare)
    requires s.batched > cfg.fifoBatch || d == Other(c.dir) == Wanted(cfg, s.starved)
    ensures add.Add? && wait.Tick? && KeepsDir(s, add)
    ensures s1 == Step(cfg, s, add) && s2 == Step(cfg, s1, wait) && s3 == Dispatch(cfg, s2)
    ensures Reachable(cfg, s3) && Exposed(s3, c, id, p, spare + 1)
    ensures s3.batched == NextBatched(cfg, s.batched) && s3.starved == NextStarved(d, s.starved)
  {
    var r := Rival(cfg, s.batched, d);
    add, wait := Add(spare, r), Tick(cfg.expire(r) + 1);
    s1, s2 := RivalComes(cfg, s, c, id, p, spare, r, add, wait);
    s3 := Dispatch(cfg, s2);
    StepStaysReachable(cfg, s2, DispatchOp);
    ReachableIsSound(cfg, s2);
    RivalGoes(cfg, s2, s3, c, id, p, spare, d);
  }

  /** Where the longest wait comes from. */
  lemma LongestIsReached(cfg: Settings, c: Class, p: nat, b: nat, k: nat) returns (own: bool, d: Dir)
    requires cfg.Valid() && IsSynchronous(c) && WaitIsBounded(cfg, c, true) && b <= cfg.fifoBatch + 1 && k < WORD
    requires Longest(cfg, c, p, b, k) > 1
    ensures own ==> p > 0 && Longest(cfg, c, p, b, k) ==
                             1 + Longest(cfg, c, p - 1, NextBatched(cfg, b), NextStarved(c.dir, k))
    ensures !own ==> && (b > cfg.fifoBatch || d == Other(c.dir) == Wanted(cfg, k))
                     && Longest(cfg, c, p, b, k) == 1 + Longest(cfg, c, p, NextBatched(cfg, b), NextStarved(d, k))
  {
    own := p > 0 && Longest(cfg, c, p, b, k) == 1 + Longest(cfg, c, p - 1, NextBatched(cfg, b), NextStarved(c.dir, k));
    d := Other(c.dir);
    if !own && b > cfg.fifoBatch {
      PhaseDrops(cfg, c, b, k, c.dir);
      if Longest(cfg, c, p, b, k) == 1 + Longest(cfg, c, p, NextBatched(cfg, b), NextStarved(c.dir, k)) {
        d := c.dir;
      }
    }
  }

  /** A run in which the request waits as long as it can. */
  lemma {:induction false} Play(cfg: Settings, s: State, c: Class, id: nat, p: nat, spare: nat, n: nat)
      returns (ops: seq<Op>)
    requires cfg.Valid() && IsSynchronous(c) && WaitIsBounded(cfg, c, true) && Reachable(cfg, s)
    requires Exposed(s, c, id, p, spare) && s.batched <= cfg.fifoBatch + 1 && s.starved < WORD
    requires n == Longest(cfg, c, p, s.batched, s.starved)
    ensures AllWait(cfg, s, ops, c, id) && !HasId(Run(cfg, s, ops).dispatched, id) && Dispatches(ops) + 1 == n
    decreases n, 1
  {
    if n == 1 {
      ops := [];
    } else {
      var own, d := LongestIsReached(cfg, c, p, s.batched, s.starved);
      if own {
        ops := PlayOwn(cfg, s, c, id, p, spare, n);
      } else {
        ops := PlayRival(cfg, s, c, id, p, spare, d, n);
      }
    }
  }

  lemma {:induction false} PlayOwn(cfg: Settings, s: State, c: Class, id: nat, p: nat, spare: nat, n: nat)
      returns (ops: seq<Op>)
    requires cfg.Valid() && IsSynchronous(c) && WaitIsBounded(cfg, c, true) && Reachable(cfg, s)
    requires Exposed(s, c, id, p, spare) && s.batched <= cfg.fifoBatch + 1 && s.starved < WORD && p > 0 && n > 1
    requires n == 1 + Longest(cfg, c, p - 1, NextBatched(cfg, s.batched), NextStarved(c.dir, s.starved))
    ensures AllWait(cfg, s, ops, c, id) && !HasId(Run(cfg, s, ops).dispatched, id) && Dispatches(ops) + 1 == n
    decreases n, 0
  {
    var s' := OwnGoes(cfg, s, c, id, p, spare);
    var rest := Play(cfg, s', c, id, p - 1, spare, n - 1);
    OneMore(cfg, s, DispatchOp, rest, c, id);
    ops := [DispatchOp] + rest;
  }

  lemma {:induction false} PlayRival(cfg: Settings, s: State, c: Class, id: nat, p: nat, spare: nat, d: Dir, n: nat)
      returns (ops: seq<Op>)
    requires cfg.Valid() && IsSynchronous(c) && WaitIsBounded(cfg, c, true) && Reachable(cfg, s)
    requires Exposed(s, c, id, p, spare) && s.batched <= cfg.fifoBatch + 1 && s.starved < WORD && n > 1
    requires s.batched > cfg.fifoBatch || d == Other(c.dir) == Wanted(cfg, s.starved)
    requires n == 1 + Longest(cfg, c, p, NextBatched(cfg, s.batched), NextStarved(d, s.starved))
    ensures AllWait(cfg, s, ops, c, id) && !HasId(Run(cfg, s, ops).dispatched, id) && Dispatches(ops) + 1 == n
    decreases n, 0
  {
    var s1, s2, s3, add, wait := RivalRound(cfg, s, c, id, p, spare, d);
    var rest := Play(cfg, s3, c, id, p, spare + 1, n - 1);
    ops := ThreeMore(cfg, s, s1, s2, s3, add, wait, rest, c, id);
  }

  /** The request at position `p`, overdue, with any values of the counters and no other class about. */
  lemma Begin(cfg: Settings, c: Class, p: nat, b: nat, k: nat) returns (s: State, id: nat)
    requires cfg.Valid() && b <= cfg.fifoBatch + 1 && k < WORD
    ensures Reachable(cfg, s) && Exposed(s, c, id, p, id + 1) && Waits(s, c, id, p, true)
    ensures s.batched == b && s.starved == k
  {
    var quiet := CountersReached(cfg, b, k);
    var time := quiet.jiffies + cfg.expire(c);
    var s1 := StockInto(cfg, quiet, c, 1, p + 1, time);
    StepStaysReachable(cfg, s1, Tick(cfg.expire(c) + 1));
    s, id := Step(cfg, s1, Tick(cfg.expire(c) + 1)), 1 + p;
    WaitsInBatch(s, c, 1, p + 1, time, p, true);
  }

  /**
   * For synchronous requests, a number bounds the wait at position `p` over all runs if and only if it is at least the
   * longest wait that the two counters allow.
   */
  lemma SynchronousWaitExactly(cfg: Settings, c: Class, overdue: bool, p: nat, bound: nat)
    requires cfg.Valid() && IsSynchronous(c) && WaitIsBounded(cfg, c, overdue)
    ensures SentWithin(cfg, c, overdue, p, bound) <==> CoversAll(cfg, c, p, bound)
  {
    if CoversAll(cfg, c, p, bound) {
      CoveredMeansSent(cfg, c, overdue, p, bound);
    } else {
      var b: nat, k: nat :| b <= cfg.fifoBatch + 1 && k < WORD && Longest(cfg, c, p, b, k) > bound;
      var s, id := Begin(cfg, c, p, b, k);
      var ops := Play(cfg, s, c, id, p, id + 1, Longest(cfg, c, p, b, k));
      assert Waits(s, c, id, p, overdue);
    }
  }

  /** The most for a synchronous read at the head of its list, with a batch of at least two. */
  function HeadWait(cfg: Settings): nat {
    if cfg.writesStarved == 0 then 4 else if cfg.writesStarved + 1 == WORD then 2 else 3
  }

  lemma BatchHead(cfg: Settings, p: nat, b: nat, k: nat)
    requires cfg.Valid() && cfg.fifoBatch >= 2 && p == 0 && 1 <= b < cfg.fifoBatch && k < WORD
    ensures Longest(cfg, SYNC_READ, p, b, k) == if k > cfg.writesStarved then 2 else 1
  {
    if k > cfg.writesStarved {
      assert Longest(cfg, SYNC_READ, p, b + 1, 0) == 1;
    }
  }

  lemma CheckHead(cfg: Settings, p: nat, b: nat, k: nat)
    requires cfg.Valid() && cfg.fifoBatch >= 2 && p == 0 && b == cfg.fifoBatch + 1 && k < WORD
    ensures Longest(cfg, SYNC_READ, p, b, k) == if Increment(k) > cfg.writesStarved then 3 else 2
  {
    BatchHead(cfg, p, 1, 0);
    BatchHead(cfg, p, 1, Increment(k));
  }

  lemma LastHead(cfg: Settings, p: nat, b: nat, k: nat)
    requires cfg.Valid() && cfg.fifoBatch >= 2 && p == 0 && b == cfg.fifoBatch && k < WORD
    ensures Longest(cfg, SYNC_READ, p, b, k) ==
            if k <= cfg.writesStarved then 1 else if cfg.writesStarved == 0 then 4 else 3
  {
    CheckHead(cfg, p, b + 1, 0);
  }

  /** With a batch of at least two, a synchronous read at the head waits for at most 2, 3 or 4 dispatches, exactly. */
  lemma HeadWaitExactly(cfg: Settings, overdue: bool, p: nat, bound: nat)
    requires cfg.Valid() && cfg.fifoBatch >= 2 && p == 0
    ensures SentWithin(cfg, SYNC_READ, overdue, p, bound) <==> bound >= HeadWait(cfg)
  {
    var f, w := cfg.fifoBatch, cfg.writesStarved;
    SynchronousWaitExactly(cfg, SYNC_READ, overdue, p, bound);
    forall b: nat, k: nat | b <= f + 1 && k < WORD ensures Longest(cfg, SYNC_READ, p, b, k) <= HeadWait(cfg) {
      HeadAtMost(cfg, p, b, k);
    }
    if w == 0 {
      LastHead(cfg, p, f, 1);
    } else {
      CheckHead(cfg, p, f + 1, w);
    }
  }

  lemma HeadAtMost(cfg: Settings, p: nat, b: nat, k: nat)
    requires cfg.Valid() && cfg.fifoBatch >= 2 && p == 0 && b <= cfg.fifoBatch + 1 && k < WORD
    ensures Longest(cfg, SYNC_READ, p, b, k) <= HeadWait(cfg)
  {
    if b == cfg.fifoBatch + 1 {
      CheckHead(cfg, p, b, k);
    } else if b == cfg.fifoBatch {
      LastHead(cfg, p, b, k);
    } else if b > 0 {
      BatchHead(cfg, p, b, k);
    } else if k > cfg.writesStarved {
      BatchHead(cfg, p, 1, 0);
    }
  }
}
