/** For each class of requests, exactly when its waiting is bounded. */
module SioWaiting {
  import opened Basics
  import opened SioQueues
  import opened SioModel
  import opened SioOrder
  import opened SioFairness
  import opened SioRuns

  const SYNC_READ := Class(true, Read)
  const SYNC_WRITE := Class(true, Write)
  const ASYNC_READ := Class(false, Read)

  /** The run leaves the request where it is, and merges requests of one direction only. */
  predicate AllWait(cfg: Settings, s: State, ops: seq<Op>, c: Class, id: nat)
    decreases |ops|
  {
    ops == [] ||
    (&& LeavesAlone(s, ops[0], c, id) && KeepsDir(s, ops[0])
     && AllWait(cfg, Step(cfg, s, ops[0]), ops[1..], c, id))
  }

  /** Request `id` stands at position `p` of its class, overdue if that is asked for, and was not sent before. */
  predicate Waits(s: State, c: Class, id: nat, p: nat, overdue: bool) {
    && Position(s.fifo[c], id) == p < |s.fifo[c]|
    && !HasId(s.dispatched, id)
    && (overdue ==> s.jiffies > s.fifo[c][p].fifoTime)
  }

  /** From any reachable state, a request at position `p` goes out within `bound` dispatches. */
  ghost predicate SentWithin(cfg: Settings, c: Class, overdue: bool, p: nat, bound: nat) {
    forall s, ops, id ::
      Reachable(cfg, s) && Waits(s, c, id, p, overdue) && AllWait(cfg, s, ops, c, id) && Dispatches(ops) >= bound ==>
        HasId(Run(cfg, s, ops).dispatched, id)
  }

  /** What a bound on the wait needs. */
  predicate WaitIsBounded(cfg: Settings, c: Class, overdue: bool) {
    if c == ASYNC_WRITE then overdue
    else if c == SYNC_READ then cfg.fifoBatch >= 2 || (cfg.fifoBatch == 1 && cfg.writesStarved >= 1)
    else if c == SYNC_WRITE then cfg.writesStarved + 2 <= cfg.fifoBatch
    else false
  }

  // Synchronous requests: how long they can be kept waiting

  predicate IsSynchronous(c: Class) {
    c == SYNC_READ || c == SYNC_WRITE
  }

  function Wanted(cfg: Settings, k: nat): Dir {
    if k > cfg.writesStarved then Write else Read
  }

  /** Dispatches that can still go elsewhere before the head of the class is sent, and that one. */
  function Phase(cfg: Settings, c: Class, b: nat, k: nat): nat {
    var f, w := cfg.fifoBatch, cfg.writesStarved;
    if c == SYNC_READ then
      if b > f then (if f > 1 then 3 else if k < w then 2 else 4)
      else if k <= w then 1
      else if b < f then 2
      else if f > 1 then 4
      else 3
    else
      if b > f then w + 3
      else if k > w then 1
      else if w + 2 - k <= f - b + 1 then w + 2 - k
      else f - b + w + 4
  }

  /** The most a phase can come to. */
  function Span(cfg: Settings, c: Class): nat {
    if c == SYNC_READ then 4 else cfg.fifoBatch + cfg.writesStarved + 4
  }

  lemma PhaseInSpan(cfg: Settings, c: Class, b: nat, k: nat)
    ensures 1 <= Phase(cfg, c, b, k) <= Span(cfg, c)
  {
  }

  /** A dispatch that goes elsewhere, by a check or in the direction that is wanted, lowers the phase. */
  lemma PhaseDrops(cfg: Settings, c: Class, b: nat, k: nat, d: Dir)
    requires cfg.Valid() && b <= cfg.fifoBatch + 1 && k < WORD && WaitIsBounded(cfg, c, true)
    requires IsSynchronous(c)
    requires b > cfg.fifoBatch || (d == Other(c.dir) && d == Wanted(cfg, k))
    ensures Phase(cfg, c, NextBatched(cfg, b), NextStarved(d, k)) < Phase(cfg, c, b, k)
  {
  }

  /** Between checks a synchronous request is passed over only for the other direction, when that is wanted. */
  lemma PassedOver(cfg: Settings, s: State, c: Class, d: Class)
    requires IsSynchronous(c)
    requires s.fifo[c] != [] && Chosen(cfg, s) == Some(d) && d != c && !CheckDue(cfg, s)
    ensures d.dir == Other(c.dir) == WantedDir(cfg, s)
  {
  }

  /**
   * The dispatches until a request at position `p` is sent, if all goes against it: at a check, one of either direction
   * can come first; between checks, one of the other direction can when that is wanted. Or the head of its own list
   * goes.
   */
  function Longest(cfg: Settings, c: Class, p: nat, b: nat, k: nat): (n: nat)
    requires cfg.Valid() && IsSynchronous(c) && WaitIsBounded(cfg, c, true) && b <= cfg.fifoBatch + 1 && k < WORD
    ensures n >= 1
    decreases p, Phase(cfg, c, b, k)
  {
    var b', d := NextBatched(cfg, b), Other(c.dir);
    var own := if p == 0 then 0 else Longest(cfg, c, p - 1, b', NextStarved(c.dir, k));
    if b <= cfg.fifoBatch && Wanted(cfg, k) == c.dir then 1 + own
    else
      PhaseDrops(cfg, c, b, k, d);
      var other := Longest(cfg, c, p, b', NextStarved(d, k));
      if b <= cfg.fifoBatch then 1 + Max(own, other)
      else
        PhaseDrops(cfg, c, b, k, c.dir);
        1 + Max(own, Max(other, Longest(cfg, c, p, b', NextStarved(c.dir, k))))
  }

  function Max(a: nat, b: nat): nat {
    if a >= b then a else b
  }

  /** What a dispatch leaves to expect, if the head of the list goes, or one of another class. */
  lemma EachCosts(cfg: Settings, c: Class, p: nat, b: nat, k: nat, d: Dir)
    requires cfg.Valid() && IsSynchronous(c) && WaitIsBounded(cfg, c, true) && b <= cfg.fifoBatch + 1 && k < WORD
    ensures p > 0 ==>
              Longest(cfg, c, p - 1, NextBatched(cfg, b), NextStarved(c.dir, k)) < Longest(cfg, c, p, b, k)
    ensures b > cfg.fifoBatch || d == Other(c.dir) == Wanted(cfg, k) ==>
              Longest(cfg, c, p, NextBatched(cfg, b), NextStarved(d, k)) < Longest(cfg, c, p, b, k)
  {
  }

  /** And it costs no more than the worst of these. */
  lemma NothingElseCosts(cfg: Settings, c: Class, p: nat, b: nat, k: nat, n: nat)
    requires cfg.Valid() && IsSynchronous(c) && WaitIsBounded(cfg, c, true) && b <= cfg.fifoBatch + 1 && k < WORD
    requires n >= 1 && (p > 0 ==> Longest(cfg, c, p - 1, NextBatched(cfg, b), NextStarved(c.dir, k)) < n)
    requires forall d: Dir :: b > cfg.fifoBatch || d == Other(c.dir) == Wanted(cfg, k) ==>
               Longest(cfg, c, p, NextBatched(cfg, b), NextStarved(d, k)) < n
    ensures Longest(cfg, c, p, b, k) <= n
  {
  }

  /** Further back it is no shorter. */
  lemma {:induction false} LongestGrows(cfg: Settings, c: Class, p: nat, q: nat, b: nat, k: nat)
    requires cfg.Valid() && IsSynchronous(c) && WaitIsBounded(cfg, c, true) && b <= cfg.fifoBatch + 1 && k < WORD
    requires q == p + 1
    ensures Longest(cfg, c, p, b, k) <= Longest(cfg, c, q, b, k)
    decreases p, Phase(cfg, c, b, k)
  {
    var b', n := NextBatched(cfg, b), Longest(cfg, c, q, b, k);
    if p > 0 {
      LongestGrows(cfg, c, p - 1, p, b', NextStarved(c.dir, k));
      EachCosts(cfg, c, q, b, k, c.dir);
    }
    forall d: Dir | b > cfg.fifoBatch || d == Other(c.dir) == Wanted(cfg, k)
      ensures Longest(cfg, c, p, b', NextStarved(d, k)) < n
    {
      PhaseDrops(cfg, c, b, k, d);
      EachCosts(cfg, c, q, b, k, d);
      LongestGrows(cfg, c, p, q, b', NextStarved(d, k));
    }
    NothingElseCosts(cfg, c, p, b, k, n);
  }

  lemma {:induction false} LongestOrder(cfg: Settings, c: Class, p: nat, p': nat, b: nat, k: nat)
    requires cfg.Valid() && IsSynchronous(c) && WaitIsBounded(cfg, c, true) && b <= cfg.fifoBatch + 1 && k < WORD
    requires p' <= p
    ensures Longest(cfg, c, p', b, k) <= Longest(cfg, c, p, b, k)
    decreases p
  {
    if p' < p {
      LongestOrder(cfg, c, p - 1, p', b, k);
      LongestGrows(cfg, c, p - 1, p, b, k);
    }
  }

  lemma {:induction false} LongestInSpan(cfg: Settings, c: Class, p: nat, b: nat, k: nat)
    requires cfg.Valid() && IsSynchronous(c) && WaitIsBounded(cfg, c, true) && b <= cfg.fifoBatch + 1 && k < WORD
    ensures Longest(cfg, c, p, b, k) <= Rounds(p, Span(cfg, c)) + Phase(cfg, c, b, k)
    decreases p, Phase(cfg, c, b, k)
  {
    var b', n := NextBatched(cfg, b), Rounds(p, Span(cfg, c)) + Phase(cfg, c, b, k);
    PhaseInSpan(cfg, c, b, k);
    if p > 0 {
      PhaseInSpan(cfg, c, b', NextStarved(c.dir, k));
      LongestInSpan(cfg, c, p - 1, b', NextStarved(c.dir, k));
    }
    forall d: Dir | b > cfg.fifoBatch || d == Other(c.dir) == Wanted(cfg, k)
      ensures Longest(cfg, c, p, b', NextStarved(d, k)) < n
    {
      PhaseDrops(cfg, c, b, k, d);
      LongestInSpan(cfg, c, p, b', NextStarved(d, k));
    }
    NothingElseCosts(cfg, c, p, b, k, n);
  }

  /** What the request has still to expect at worst. */
  function Worst(cfg: Settings, s: State, c: Class, id: nat): nat
    requires cfg.Valid() && IsSynchronous(c) && WaitIsBounded(cfg, c, true)
    requires s.batched <= cfg.fifoBatch + 1 && s.starved < WORD
  {
    Longest(cfg, c, Position(s.fifo[c], id), s.batched, s.starved)
  }

  lemma SomethingIsChosen(cfg: Settings, s: State, c: Class)
    requires s.fifo[c] != []
    ensures Chosen(cfg, s).Some?
  {
    ChoosesFirstInServiceOrder(s.fifo, WantedDir(cfg, s));
  }

  /** Sending the head of its list sends the request, or moves it up by one. */
  lemma HeadAdvances(q: Queue, id: nat)
    requires Distinct(q) && HasId(q, id)
    ensures q[0].id == id || (HasId(q[1..], id) && Position(q[1..], id) + 1 == Position(q, id))
  {
    var p := Position(q, id);
    if p > 0 {
      PositionIs(q[1..], p - 1);
      assert q[1..][p - 1] in q[1..];
    }
  }

  /** The head of the list goes: the request, or one ahead of it. */
  lemma OwnTurn(cfg: Settings, s: State, s': State, c: Class, id: nat)
    requires Inv(cfg, s) && DirPure(s.fifo) && HasId(s.fifo[c], id)
    requires Chosen(cfg, s) == Some(c) && s' == Dispatch(cfg, s)
    ensures || HasId(s'.dispatched, id)
            || (HasId(s'.fifo[c], id) && Position(s'.fifo[c], id) + 1 == Position(s.fifo[c], id))
    ensures s'.batched == NextBatched(cfg, s.batched) && s'.starved == NextStarved(c.dir, s.starved)
  {
    var q := s.fifo[c];
    assert q[0] in q;
    assert Distinct(q);
    HeadAdvances(q, id);
    assert q[0] in s'.dispatched;
  }

  lemma OtherTurn(cfg: Settings, s: State, s': State, c: Class, d: Class, id: nat)
    requires Inv(cfg, s) && DirPure(s.fifo) && WaitIsBounded(cfg, c, true) && IsSynchronous(c)
    requires HasId(s.fifo[c], id) && Chosen(cfg, s) == Some(d) && d != c && s' == Dispatch(cfg, s)
    ensures s'.fifo[c] == s.fifo[c] && (CheckDue(cfg, s) || d.dir == Other(c.dir) == Wanted(cfg, s.starved))
    ensures s'.batched == NextBatched(cfg, s.batched) && s'.starved == NextStarved(d.dir, s.starved)
  {
    if !CheckDue(cfg, s) {
      PassedOver(cfg, s, c, d);
    }
  }

  /** A dispatch sends the request or spends one of those that it has to expect. */
  lemma DispatchAdvances(cfg: Settings, s: State, s': State, c: Class, id: nat)
    requires Inv(cfg, s) && DirPure(s.fifo) && WaitIsBounded(cfg, c, true) && IsSynchronous(c)
    requires HasId(s.fifo[c], id) && s' == Dispatch(cfg, s) && Inv(cfg, s')
    ensures || HasId(s'.dispatched, id)
            || (HasId(s'.fifo[c], id) && Worst(cfg, s', c, id) < Worst(cfg, s, c, id))
  {
    SomethingIsChosen(cfg, s, c);
    var d := Chosen(cfg, s).value;
    if d == c {
      OwnTurn(cfg, s, s', c, id);
    } else {
      OtherTurn(cfg, s, s', c, d, id);
    }
    if !HasId(s'.dispatched, id) {
      WorstFalls(cfg, s, s', c, id, Position(s.fifo[c], id), Position(s'.fifo[c], id), d);
    }
  }

  lemma WorstFalls(cfg: Settings, s: State, s': State, c: Class, id: nat, p: nat, p': nat, d: Class)
    requires cfg.Valid() && WaitIsBounded(cfg, c, true) && IsSynchronous(c)
    requires s.batched <= cfg.fifoBatch + 1 && s.starved < WORD
    requires p == Position(s.fifo[c], id) && p' == Position(s'.fifo[c], id)
    requires s'.batched == NextBatched(cfg, s.batched) && s'.starved == NextStarved(d.dir, s.starved)
    requires if d == c then p' + 1 == p
             else p' == p && (s.batched > cfg.fifoBatch || d.dir == Other(c.dir) == Wanted(cfg, s.starved))
    ensures Worst(cfg, s', c, id) < Worst(cfg, s, c, id)
  {
    EachCosts(cfg, c, p, s.batched, s.starved, d.dir);
  }

  /** A step sends the request, or leaves a wait that covers the dispatches still to come. */
  lemma StepAdvances(cfg: Settings, s: State, op: Op, c: Class, id: nat)
    requires Inv(cfg, s) && DirPure(s.fifo) && WaitIsBounded(cfg, c, true) && IsSynchronous(c)
    requires HasId(s.fifo[c], id) && LeavesAlone(s, op, c, id) && Inv(cfg, Step(cfg, s, op))
    ensures var s' := Step(cfg, s, op);
            || HasId(s'.dispatched, id)
            || (&& HasId(s'.fifo[c], id)
                && Worst(cfg, s', c, id) + (if op.DispatchOp? then 1 else 0) <= Worst(cfg, s, c, id))
  {
    if op.DispatchOp? {
      DispatchAdvances(cfg, s, Dispatch(cfg, s), c, id);
    } else {
      var k := OthersKeepPlace(cfg, s, op, c, id);
      LongestOrder(cfg, c, Position(s.fifo[c], id), k, s.batched, s.starved);
    }
  }

  lemma {:induction false} WorstCoversWait(cfg: Settings, s: State, ops: seq<Op>, c: Class, id: nat)
    requires Inv(cfg, s) && DirPure(s.fifo) && WaitIsBounded(cfg, c, true) && IsSynchronous(c)
    requires HasId(s.fifo[c], id) && AllWait(cfg, s, ops, c, id) && Dispatches(ops) >= Worst(cfg, s, c, id)
    ensures HasId(Run(cfg, s, ops).dispatched, id)
    decreases |ops|
  {
    var s' := Step(cfg, s, ops[0]);
    StepKeepsInv(cfg, s, ops[0]);
    StepKeepsDirPure(cfg, s, ops[0]);
    StepAdvances(cfg, s, ops[0], c, id);
    if HasId(s'.dispatched, id) {
      DispatchedStays(cfg, s', ops[1..], id);
    } else {
      WorstCoversWait(cfg, s', ops[1..], c, id);
    }
  }

  /** No counters make the wait of a request at position `p` longer than `bound`. */
  ghost predicate CoversAll(cfg: Settings, c: Class, p: nat, bound: nat)
    requires cfg.Valid() && IsSynchronous(c) && WaitIsBounded(cfg, c, true)
  {
    forall b: nat, k: nat :: b <= cfg.fifoBatch + 1 && k < WORD ==> Longest(cfg, c, p, b, k) <= bound
  }

  lemma CoveredMeansSent(cfg: Settings, c: Class, overdue: bool, p: nat, bound: nat)
    requires cfg.Valid() && WaitIsBounded(cfg, c, true) && IsSynchronous(c) && CoversAll(cfg, c, p, bound)
    ensures SentWithin(cfg, c, overdue, p, bound)
  {
    forall s, ops, id |
      Reachable(cfg, s) && Waits(s, c, id, p, overdue) && AllWait(cfg, s, ops, c, id) && Dispatches(ops) >= bound
      ensures HasId(Run(cfg, s, ops).dispatched, id)
    {
      ReachableIsSound(cfg, s);
      WorstCoversWait(cfg, s, ops, c, id);
    }
  }

  /** A synchronous request at position `p` goes out within `(p + 1) * Span` dispatches, overdue or not. */
  lemma SynchronousWait(cfg: Settings, c: Class, overdue: bool, p: nat, bound: nat)
    requires cfg.Valid() && WaitIsBounded(cfg, c, overdue) && IsSynchronous(c)
    requires bound == (p + 1) * Span(cfg, c)
    ensures SentWithin(cfg, c, overdue, p, bound)
  {
    var span := Span(cfg, c);
    RoundsIsProduct(p, span);
    assert (p + 1) * span == p * span + span;
    forall b: nat, k: nat | b <= cfg.fifoBatch + 1 && k < WORD ensures Longest(cfg, c, p, b, k) <= bound {
      LongestInSpan(cfg, c, p, b, k);
      PhaseInSpan(cfg, c, b, k);
    }
    CoveredMeansSent(cfg, c, overdue, p, bound);
  }

  lemma {:induction false} WaitingIsLeavingAlone(cfg: Settings, s: State, ops: seq<Op>, c: Class, id: nat)
    requires AllWait(cfg, s, ops, c, id)
    ensures AllLeaveAlone(cfg, s, ops, c, id)
    decreases |ops|
  {
    if ops != [] {
      WaitingIsLeavingAlone(cfg, Step(cfg, s, ops[0]), ops[1..], c, id);
    }
  }

  /** An overdue asynchronous write at position `p`, wherever the batch counter stands. */
  lemma OverdueWriteWait(cfg: Settings, p: nat)
    requires cfg.Valid()
    ensures SentWithin(cfg, ASYNC_WRITE, true, p, p * (cfg.fifoBatch + 1) + cfg.fifoBatch + 2)
  {
    var bound := p * (cfg.fifoBatch + 1) + cfg.fifoBatch + 2;
    forall s, ops, id |
      && Reachable(cfg, s) && Waits(s, ASYNC_WRITE, id, p, true) && AllWait(cfg, s, ops, ASYNC_WRITE, id)
      && Dispatches(ops) >= bound
      ensures HasId(Run(cfg, s, ops).dispatched, id)
    {
      ReachableIsSound(cfg, s);
      WaitingIsLeavingAlone(cfg, s, ops, ASYNC_WRITE, id);
      assert s.fifo[ASYNC_WRITE][p] in s.fifo[ASYNC_WRITE];
      BoundedWaiting(cfg, s, ops, id);
    }
  }

  // Runs in which the request is never sent

  ghost predicate AllOverdue(s: State, q: Queue) {
    forall r :: r in q ==> s.jiffies > r.fifoTime
  }

  /** The other lists hold enough for `n` dispatches, none of which has to come to class `c`. */
  ghost predicate Starves(cfg: Settings, s: State, c: Class, n: nat) {
    if c == ASYNC_READ then StarvesAsyncRead(s, n)
    else if c == SYNC_WRITE then StarvesSyncWrite(s, n)
    else if c == ASYNC_WRITE then StarvesAsyncWrite(s, n)
    else StarvesSyncRead(cfg, s, n)
  }

  ghost predicate StarvesAsyncRead(s: State, n: nat) {
    && |s.fifo[SYNC_READ]| >= n && s.fifo[SYNC_WRITE] == []
    && |s.fifo[ASYNC_WRITE]| >= n && AllOverdue(s, s.fifo[ASYNC_WRITE])
  }

  /** Every check sends a write, so that `starved` stays behind `batched`. */
  ghost predicate StarvesSyncWrite(s: State, n: nat) {
    && |s.fifo[SYNC_READ]| >= n && s.fifo[ASYNC_READ] == [] && s.starved < s.batched
    && |s.fifo[ASYNC_WRITE]| >= n && AllOverdue(s, s.fifo[ASYNC_WRITE])
  }

  ghost predicate StarvesAsyncWrite(s: State, n: nat) {
    && |s.fifo[SYNC_READ]| >= n && |s.fifo[SYNC_WRITE]| >= n && s.fifo[ASYNC_READ] == []
    && s.fifo[ASYNC_WRITE] != [] && s.jiffies <= s.fifo[ASYNC_WRITE][0].fifoTime
  }

  /** Every dispatch is a check, or checks that send a read alternate with writes. */
  ghost predicate StarvesSyncRead(cfg: Settings, s: State, n: nat) {
    if cfg.fifoBatch == 0 then
      |s.fifo[ASYNC_WRITE]| >= n && AllOverdue(s, s.fifo[ASYNC_WRITE]) && s.batched == 1
    else
      && |s.fifo[ASYNC_READ]| >= n && AllOverdue(s, s.fifo[ASYNC_READ])
      && |s.fifo[SYNC_WRITE]| >= n && s.fifo[ASYNC_WRITE] == []
      && ((s.batched == 2 && s.starved == 0) || (s.batched == 1 && s.starved == 1))
  }

  /** Overdue requests starve, except for asynchronous writes: these starve while they are not overdue. */
  predicate StarvesOverdue(c: Class) {
    c != ASYNC_WRITE
  }

  lemma TailOverdue(s: State, q: Queue)
    requires q != [] && AllOverdue(s, q)
    ensures AllOverdue(s, q[1..]) && s.jiffies > q[0].fifoTime
  {
    assert q[0] in q;
  }

  lemma AsyncReadGoesOn(cfg: Settings, s: State, n: nat)
    requires Inv(cfg, s) && DirPure(s.fifo) && n > 0 && StarvesAsyncRead(s, n)
    ensures Chosen(cfg, s) == Some(if CheckDue(cfg, s) || WantedDir(cfg, s) == Write then ASYNC_WRITE else SYNC_READ)
    ensures StarvesAsyncRead(Dispatch(cfg, s), n - 1)
  {
    TailOverdue(s, s.fifo[ASYNC_WRITE]);
  }

  lemma SyncWriteGoesOn(cfg: Settings, s: State, n: nat)
    requires Inv(cfg, s) && DirPure(s.fifo) && n > 0 && StarvesSyncWrite(s, n)
    requires !WaitIsBounded(cfg, SYNC_WRITE, true)
    ensures Chosen(cfg, s) == Some(if CheckDue(cfg, s) then ASYNC_WRITE else SYNC_READ)
    ensures StarvesSyncWrite(Dispatch(cfg, s), n - 1)
  {
    TailOverdue(s, s.fifo[ASYNC_WRITE]);
  }

  lemma AsyncWriteGoesOn(cfg: Settings, s: State, n: nat)
    requires Inv(cfg, s) && DirPure(s.fifo) && n > 0 && StarvesAsyncWrite(s, n)
    ensures Chosen(cfg, s).Some? && Chosen(cfg, s).value in {SYNC_READ, SYNC_WRITE}
    ensures StarvesAsyncWrite(Dispatch(cfg, s), n - 1)
  {
  }

  lemma SyncReadGoesOn(cfg: Settings, s: State, n: nat)
    requires Inv(cfg, s) && DirPure(s.fifo) && n > 0 && StarvesSyncRead(cfg, s, n)
    requires !WaitIsBounded(cfg, SYNC_READ, true)
    ensures Chosen(cfg, s) ==
            Some(if cfg.fifoBatch == 0 then ASYNC_WRITE else if CheckDue(cfg, s) then ASYNC_READ else SYNC_WRITE)
    ensures StarvesSyncRead(cfg, Dispatch(cfg, s), n - 1)
  {
    TailOverdue(s, s.fifo[if cfg.fifoBatch == 0 then ASYNC_WRITE else ASYNC_READ]);
  }

  lemma StarvingGoesOn(cfg: Settings, s: State, c: Class, n: nat) returns (d: Class)
    requires Inv(cfg, s) && DirPure(s.fifo) && !WaitIsBounded(cfg, c, StarvesOverdue(c))
    requires n > 0 && Starves(cfg, s, c, n)
    ensures Chosen(cfg, s) == Some(d) && d != c
    ensures Starves(cfg, Dispatch(cfg, s), c, n - 1)
  {
    if c == ASYNC_READ {
      AsyncReadGoesOn(cfg, s, n);
    } else if c == SYNC_WRITE {
      SyncWriteGoesOn(cfg, s, n);
    } else if c == ASYNC_WRITE {
      AsyncWriteGoesOn(cfg, s, n);
    } else {
      FourClasses(c);
      SyncReadGoesOn(cfg, s, n);
    }
    d := Chosen(cfg, s).value;
  }

  /** A dispatch that serves another class does not send the request. */
  lemma OtherIsSent(cfg: Settings, s: State, c: Class, d: Class, id: nat)
    requires Inv(cfg, s) && DirPure(s.fifo) && Chosen(cfg, s) == Some(d) && d != c
    requires HasId(s.fifo[c], id) && !HasId(s.dispatched, id)
    ensures var s' := Dispatch(cfg, s); s'.fifo[c] == s.fifo[c] && !HasId(s'.dispatched, id)
  {
    var head := s.fifo[d][0];
    assert head in s.fifo[d];
    assert HasId(s.fifo[d], head.id);
  }

  /** Dispatches alone leave every request where it is. */
  lemma {:induction false} DispatchesLeaveAlone(cfg: Settings, s: State, c: Class, id: nat, n: nat)
    ensures AllWait(cfg, s, Repeat(n), c, id)
    decreases n
  {
    if n > 0 {
      var ops := Repeat(n);
      assert ops[0] == DispatchOp && ops[1..] == Repeat(n - 1);
      DispatchesLeaveAlone(cfg, Dispatch(cfg, s), c, id, n - 1);
    }
  }

  lemma RunOnce(cfg: Settings, s: State, s': State, n: nat)
    requires n > 0 && s' == Dispatch(cfg, s)
    ensures Run(cfg, s, Repeat(n)) == Run(cfg, s', Repeat(n - 1))
  {
    var ops := Repeat(n);
    assert ops[0] == DispatchOp && ops[1..] == Repeat(n - 1);
  }

  /** The state after one dispatch of a starving run. */
  lemma StarvesOnce(cfg: Settings, s: State, c: Class, id: nat, n: nat) returns (s': State)
    requires Inv(cfg, s) && DirPure(s.fifo) && !WaitIsBounded(cfg, c, StarvesOverdue(c)) && Starves(cfg, s, c, n)
    requires n > 0 && HasId(s.fifo[c], id) && !HasId(s.dispatched, id)
    ensures Inv(cfg, s') && DirPure(s'.fifo) && Starves(cfg, s', c, n - 1)
    ensures HasId(s'.fifo[c], id) && !HasId(s'.dispatched, id)
    ensures Run(cfg, s, Repeat(n)) == Run(cfg, s', Repeat(n - 1))
  {
    s' := Dispatch(cfg, s);
    var d := StarvingGoesOn(cfg, s, c, n);
    OtherIsSent(cfg, s, c, d, id);
    StepKeepsInv(cfg, s, DispatchOp);
    StepKeepsDirPure(cfg, s, DispatchOp);
    RunOnce(cfg, s, s', n);
  }

  lemma {:induction false} StarvesForLong(cfg: Settings, s: State, c: Class, id: nat, n: nat)
    requires Inv(cfg, s) && DirPure(s.fifo) && !WaitIsBounded(cfg, c, StarvesOverdue(c)) && Starves(cfg, s, c, n)
    requires HasId(s.fifo[c], id) && !HasId(s.dispatched, id)
    ensures !HasId(Run(cfg, s, Repeat(n)).dispatched, id)
    decreases n
  {
    if n > 0 {
      var s' := StarvesOnce(cfg, s, c, id, n);
      StarvesForLong(cfg, s', c, id, n - 1);
    }
  }

  /** The classes that keep a request of class `c` waiting. */
  function Rivals(cfg: Settings, c: Class): (Class, Class) {
    if c == ASYNC_WRITE then (SYNC_READ, SYNC_WRITE)
    else if c == SYNC_READ then (if cfg.fifoBatch == 0 then (SYNC_WRITE, ASYNC_WRITE) else (SYNC_WRITE, ASYNC_READ))
    else (SYNC_READ, ASYNC_WRITE)
  }

  /** Where the counters have to stand: just after a check that reset `starved`, or at a check. */
  function FirstBatched(cfg: Settings, c: Class): nat {
    if c == SYNC_READ && cfg.fifoBatch == 1 then 2 else 1
  }

  lemma BatchPosition(c: Class, first: nat, n: nat, time: int, i: nat)
    requires i < n
    ensures Position(Batch(c, first, n, time), first + i) == i
  {
    PositionAt(Batch(c, first, n, time), i, first + i);
  }

  /** `n` requests, all due at `time`. */
  predicate DueAt(q: Queue, n: nat, time: int) {
    |q| == n && forall r :: r in q ==> r.fifoTime == time
  }

  /** A batch joins an empty list. */
  lemma StockInto(cfg: Settings, s: State, c: Class, first: nat, n: nat, time: int) returns (s': State)
    requires Reachable(cfg, s) && IdsBelow(s.fifo, first) && s.fifo[c] == [] && time == s.jiffies + cfg.expire(c)
    ensures Reachable(cfg, s') && IdsBelow(s'.fifo, first + n) && s' == s.(fifo := s'.fifo)
    ensures s'.fifo[c] == Batch(c, first, n, time) && DueAt(s'.fifo[c], n, time)
    ensures forall x: Class :: x != c ==> s'.fifo[x] == s.fifo[x]
  {
    StockArises(cfg, s, c, first, n);
    s' := Stocked(cfg, s, c, first, n);
    var q := Batch(c, first, n, time);
    assert s.fifo[c] + q == q;
  }

  /** `n` requests of each of two classes, added now. */
  lemma GatherTwo(cfg: Settings, s: State, d: Class, e: Class, n: nat, dueD: int, dueE: int) returns (s': State)
    requires Reachable(cfg, s) && Quiet(s.fifo) && d != e
    requires dueD == s.jiffies + cfg.expire(d) && dueE == s.jiffies + cfg.expire(e)
    ensures Reachable(cfg, s') && s' == s.(fifo := s'.fifo) && IdsBelow(s'.fifo, n + 1 + n)
    ensures DueAt(s'.fifo[d], n, dueD) && DueAt(s'.fifo[e], n, dueE)
    ensures forall x: Class :: x != d && x != e ==> s'.fifo[x] == []
  {
    var s1 := StockInto(cfg, s, d, 1, n, dueD);
    s' := StockInto(cfg, s1, e, n + 1, n, dueE);
  }

  /** `p + 1` requests of class `c` and `n` of each of two other classes, all added now. */
  lemma Gather(cfg: Settings, s: State, c: Class, d: Class, e: Class, n: nat, p: nat) returns (s': State)
    requires Reachable(cfg, s) && Quiet(s.fifo) && c != d && c != e && d != e
    ensures Reachable(cfg, s') && s' == s.(fifo := s'.fifo)
    ensures DueAt(s'.fifo[d], n, s.jiffies + cfg.expire(d)) && DueAt(s'.fifo[e], n, s.jiffies + cfg.expire(e))
    ensures s'.fifo[c] == Batch(c, n + 1 + n, p + 1, s.jiffies + cfg.expire(c))
    ensures DueAt(s'.fifo[c], p + 1, s.jiffies + cfg.expire(c))
    ensures forall x: Class :: x != c && x != d && x != e ==> s'.fifo[x] == []
  {
    var s2 := GatherTwo(cfg, s, d, e, n, s.jiffies + cfg.expire(d), s.jiffies + cfg.expire(e));
    s' := StockInto(cfg, s2, c, n + 1 + n, p + 1, s.jiffies + cfg.expire(c));
  }

  lemma WaitsInBatch(s: State, c: Class, first: nat, n: nat, time: int, p: nat, overdue: bool)
    requires s.fifo[c] == Batch(c, first, n, time) && p < n && 0 < first && (overdue ==> s.jiffies > time)
    requires forall r :: r in s.dispatched ==> r.id == 0
    ensures Waits(s, c, first + p, p, overdue)
  {
    BatchPosition(c, first, n, time, p);
  }

  /** All of them added at once; then time passes until all are overdue. */
  lemma RivalsFirst(cfg: Settings, s: State, c: Class, d: Class, e: Class, n: nat, p: nat) returns (s': State, id: nat)
    requires Reachable(cfg, s) && Quiet(s.fifo) && c != d && c != e && d != e
    requires forall r :: r in s.dispatched ==> r.id == 0
    ensures Reachable(cfg, s') && Waits(s', c, id, p, true)
    ensures s'.batched == s.batched && s'.starved == s.starved
    ensures |s'.fifo[d]| == |s'.fifo[e]| == n
    ensures AllOverdue(s', s'.fifo[c]) && AllOverdue(s', s'.fifo[d]) && AllOverdue(s', s'.fifo[e])
    ensures forall x: Class :: x != c && x != d && x != e ==> s'.fifo[x] == []
  {
    var gathered := Gather(cfg, s, c, d, e, n, p);
    var wait := Tick(cfg.expire(c) + cfg.expire(d) + cfg.expire(e) + 1);
    StepStaysReachable(cfg, gathered, wait);
    s', id := Step(cfg, gathered, wait), n + 1 + n + p;
    WaitsInBatch(s', c, n + 1 + n, p + 1, s.jiffies + cfg.expire(c), p, true);
  }

  /** All of them added at once, with all their time left. */
  lemma RivalsInTime(cfg: Settings, s: State, c: Class, d: Class, e: Class, n: nat, p: nat)
      returns (s': State, id: nat)
    requires Reachable(cfg, s) && Quiet(s.fifo) && c != d && c != e && d != e
    requires forall r :: r in s.dispatched ==> r.id == 0
    ensures Reachable(cfg, s') && Waits(s', c, id, p, false) && s'.jiffies <= s'.fifo[c][0].fifoTime
    ensures s'.batched == s.batched && s'.starved == s.starved
    ensures |s'.fifo[d]| == |s'.fifo[e]| == n
    ensures forall x: Class :: x != c && x != d && x != e ==> s'.fifo[x] == []
  {
    s' := Gather(cfg, s, c, d, e, n, p);
    id := n + 1 + n + p;
    WaitsInBatch(s', c, n + 1 + n, p + 1, s.jiffies + cfg.expire(c), p, false);
  }

  /** Without the condition, a request at any position can be made to wait for any number of dispatches. */
  lemma AnyWaitHappens(cfg: Settings, c: Class, p: nat, n: nat) returns (s: State, id: nat)
    requires cfg.Valid() && !WaitIsBounded(cfg, c, StarvesOverdue(c))
    ensures Reachable(cfg, s) && Waits(s, c, id, p, StarvesOverdue(c))
    ensures AllWait(cfg, s, Repeat(n), c, id) && !HasId(Run(cfg, s, Repeat(n)).dispatched, id)
  {
    var quiet := CountersReached(cfg, FirstBatched(cfg, c), 0);
    var (d, e) := Rivals(cfg, c);
    FourClasses(c);
    if c == ASYNC_WRITE {
      s, id := RivalsInTime(cfg, quiet, c, d, e, n, p);
    } else {
      s, id := RivalsFirst(cfg, quiet, c, d, e, n, p);
    }
    assert Starves(cfg, s, c, n);
    ReachableIsSound(cfg, s);
    assert s.fifo[c][p] in s.fifo[c];
    StarvesForLong(cfg, s, c, id, n);
    DispatchesLeaveAlone(cfg, s, c, id, n);
  }

  /**
   * For every setting, class and position: the wait of a request (of an overdue one, if `overdue`) is bounded over all
   * runs from `sio_init_queue` if and only if `WaitIsBounded` holds.
   */
  lemma WaitExactly(cfg: Settings, c: Class, overdue: bool, p: nat)
    requires cfg.Valid()
    ensures (exists bound :: SentWithin(cfg, c, overdue, p, bound)) <==> WaitIsBounded(cfg, c, overdue)
  {
    if WaitIsBounded(cfg, c, overdue) {
      if c == ASYNC_WRITE {
        OverdueWriteWait(cfg, p);
      } else {
        SynchronousWait(cfg, c, overdue, p, (p + 1) * Span(cfg, c));
      }
    } else if bound :| SentWithin(cfg, c, overdue, p, bound) {
      var s, id := AnyWaitHappens(cfg, c, p, bound);
    }
  }

  // The bound for overdue asynchronous writes is reached

  /** Everything but the checks goes to synchronous requests, of which there are enough for `n` dispatches. */
  ghost predicate Lingers(s: State, n: nat) {
    && |s.fifo[SYNC_READ]| >= n && |s.fifo[SYNC_WRITE]| >= n && s.fifo[ASYNC_READ] == []
    && AllOverdue(s, s.fifo[ASYNC_WRITE])
  }

  /** A check sends the head of the list, and the write moves up. */
  lemma CheckMovesUp(cfg: Settings, s: State, id: nat, q: Queue)
    requires Inv(cfg, s) && DirPure(s.fifo) && CheckDue(cfg, s) && q == s.fifo[ASYNC_WRITE] && AllOverdue(s, q)
    requires HasId(q, id) && !HasId(s.dispatched, id) && Position(q, id) > 0
    ensures Chosen(cfg, s) == Some(ASYNC_WRITE)
    ensures HasId(q[1..], id) && Position(q[1..], id) + 1 == Position(q, id)
    ensures !HasId(s.dispatched + [q[0]], id) && AllOverdue(s, q[1..])
  {
    assert Distinct(q);
    TailOverdue(s, q);
    HeadAdvances(q, id);
  }

  /** The rank after a check that moves the write up, and after a dispatch that brings the next check closer. */
  lemma RankFallsByOne(cfg: Settings, s: State, s': State, id: nat, p: nat, p': nat)
    requires p == Position(s.fifo[ASYNC_WRITE], id) && p' == Position(s'.fifo[ASYNC_WRITE], id)
    requires if CheckDue(cfg, s) then p' + 1 == p && s'.batched == 1 && s.batched == cfg.fifoBatch + 1
             else p' == p && s'.batched == s.batched + 1
    ensures Rank(cfg, s', id) + 1 == Rank(cfg, s, id)
  {
    assert p > 0 ==> Rounds(p, cfg.fifoBatch + 1) == cfg.fifoBatch + 1 + Rounds(p - 1, cfg.fifoBatch + 1);
  }

  lemma CheckLingersOn(cfg: Settings, s: State, s': State, id: nat, n: nat)
    requires Inv(cfg, s) && DirPure(s.fifo) && Lingers(s, n) && n > 0 && CheckDue(cfg, s) && s' == Dispatch(cfg, s)
    requires HasId(s.fifo[ASYNC_WRITE], id) && !HasId(s.dispatched, id) && Position(s.fifo[ASYNC_WRITE], id) > 0
    ensures Lingers(s', n - 1) && HasId(s'.fifo[ASYNC_WRITE], id) && !HasId(s'.dispatched, id)
    ensures Rank(cfg, s', id) + 1 == Rank(cfg, s, id)
  {
    var q := s.fifo[ASYNC_WRITE];
    CheckMovesUp(cfg, s, id, q);
    RankFallsByOne(cfg, s, s', id, Position(q, id), Position(q[1..], id));
  }

  lemma BatchChooses(cfg: Settings, s: State, n: nat)
    requires Lingers(s, n) && n > 0 && !CheckDue(cfg, s)
    ensures Chosen(cfg, s) == Some(Class(true, WantedDir(cfg, s)))
  {
  }

  lemma LessLingers(s: State, s': State, d: Dir, n: nat)
    requires Lingers(s, n) && n > 0 && s'.jiffies == s.jiffies
    requires s'.fifo == s.fifo[Class(true, d) := s.fifo[Class(true, d)][1..]]
    ensures Lingers(s', n - 1)
  {
  }

  lemma BatchLingersOn(cfg: Settings, s: State, s': State, id: nat, n: nat)
    requires Inv(cfg, s) && DirPure(s.fifo) && Lingers(s, n) && n > 0 && !CheckDue(cfg, s) && s' == Dispatch(cfg, s)
    requires HasId(s.fifo[ASYNC_WRITE], id) && !HasId(s.dispatched, id)
    ensures Lingers(s', n - 1) && HasId(s'.fifo[ASYNC_WRITE], id) && !HasId(s'.dispatched, id)
    ensures Rank(cfg, s', id) + 1 == Rank(cfg, s, id)
  {
    var d, p := Class(true, WantedDir(cfg, s)), Position(s.fifo[ASYNC_WRITE], id);
    BatchChooses(cfg, s, n);
    OtherIsSent(cfg, s, ASYNC_WRITE, d, id);
    LessLingers(s, s', d.dir, n);
    RankFallsByOne(cfg, s, s', id, p, p);
  }

  /** Then each dispatch lowers the rank of the overdue write by one and no more. */
  lemma LingersOn(cfg: Settings, s: State, s': State, id: nat, n: nat)
    requires Inv(cfg, s) && DirPure(s.fifo) && Lingers(s, n) && n > 0 && s' == Dispatch(cfg, s)
    requires HasId(s.fifo[ASYNC_WRITE], id) && !HasId(s.dispatched, id) && Rank(cfg, s, id) > 1
    ensures Lingers(s', n - 1) && HasId(s'.fifo[ASYNC_WRITE], id) && !HasId(s'.dispatched, id)
    ensures Rank(cfg, s', id) + 1 == Rank(cfg, s, id)
  {
    if CheckDue(cfg, s) {
      CheckLingersOn(cfg, s, s', id, n);
    } else {
      BatchLingersOn(cfg, s, s', id, n);
    }
  }

  lemma {:induction false} LingersToTheEnd(cfg: Settings, s: State, id: nat, n: nat)
    requires Inv(cfg, s) && DirPure(s.fifo) && Lingers(s, n) && n < Rank(cfg, s, id)
    requires HasId(s.fifo[ASYNC_WRITE], id) && !HasId(s.dispatched, id)
    ensures !HasId(Run(cfg, s, Repeat(n)).dispatched, id)
    decreases n
  {
    if n > 0 {
      LingersOn(cfg, s, Dispatch(cfg, s), id, n);
      StepKeepsInv(cfg, s, DispatchOp);
      StepKeepsDirPure(cfg, s, DispatchOp);
      LingersToTheEnd(cfg, Dispatch(cfg, s), id, n - 1);
      RunOnce(cfg, s, Dispatch(cfg, s), n);
    }
  }

  /** For every value of `batched` there is a state in which the bound of `BoundedWaiting` is exact. */
  lemma BoundIsReached(cfg: Settings, p: nat, b: nat, n: nat) returns (s: State, id: nat)
    requires cfg.Valid() && b <= cfg.fifoBatch + 1 && n + 1 == p * (cfg.fifoBatch + 1) + (cfg.fifoBatch + 2 - b)
    ensures Reachable(cfg, s) && Waits(s, ASYNC_WRITE, id, p, true) && s.batched == b
    ensures AllWait(cfg, s, Repeat(n), ASYNC_WRITE, id) && !HasId(Run(cfg, s, Repeat(n)).dispatched, id)
  {
    var quiet := CountersReached(cfg, b, 0);
    s, id := RivalsFirst(cfg, quiet, ASYNC_WRITE, SYNC_READ, SYNC_WRITE, n, p);
    ReachableIsSound(cfg, s);
    assert s.fifo[ASYNC_WRITE][p] in s.fifo[ASYNC_WRITE];
    RoundsIsProduct(p, cfg.fifoBatch + 1);
    LingersToTheEnd(cfg, s, id, n);
    DispatchesLeaveAlone(cfg, s, ASYNC_WRITE, id, n);
  }

  /** An overdue asynchronous write at position `p` waits for at most this many dispatches, and no lower bound holds. */
  lemma OverdueWriteWaitExactly(cfg: Settings, p: nat, bound: nat)
    requires cfg.Valid()
    ensures SentWithin(cfg, ASYNC_WRITE, true, p, bound) <==> bound >= p * (cfg.fifoBatch + 1) + cfg.fifoBatch + 2
  {
    var exact := p * (cfg.fifoBatch + 1) + cfg.fifoBatch + 2;
    OverdueWriteWait(cfg, p);
    if bound < exact {
      assert p * (cfg.fifoBatch + 1) >= 0;
      var s, id := BoundIsReached(cfg, p, 0, exact - 1);
      assert Dispatches(Repeat(exact - 1)) >= bound;
    }
  }
}
