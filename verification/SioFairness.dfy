/**
 * How long an overdue asynchronous write can wait at most; and that additions, merges and time push no request of any
 * class back.
 */
module SioFairness {
  import opened Basics
  import opened SioQueues
  import opened SioModel
  import opened SioOrder

  const ASYNC_WRITE := Class(false, Write)

  // Bounded waiting

  ghost predicate OverdueWrite(s: State, id: nat) {
    exists r :: r in s.fifo[ASYNC_WRITE] && r.id == id && s.jiffies > r.fifoTime
  }

  /** Dispatch calls an overdue asynchronous write can still have to wait for. */
  function Rank(cfg: Settings, s: State, id: nat): int {
    Rounds(Position(s.fifo[ASYNC_WRITE], id), cfg.fifoBatch + 1) + (cfg.fifoBatch + 2 - s.batched)
  }

  function Rounds(p: nat, k: nat): nat {
    if p == 0 then 0 else k + Rounds(p - 1, k)
  }

  lemma {:induction false} RoundsIsProduct(p: nat, k: nat)
    ensures Rounds(p, k) == p * k
  {
    if p > 0 {
      RoundsIsProduct(p - 1, k);
      assert p * k == (p - 1) * k + k;
    }
  }

  /** A merge may absorb other requests into `id`, but not `id` into another one or into another list than `c`. */
  predicate LeavesAlone(s: State, op: Op, c: Class, id: nat) {
    && Enabled(s, op)
    && (op.Merge? ==>
          && op.next != id
          && (op.rq == id && Moves(s.fifo, op.rq, op.next) ==> HasId(s.fifo[c], op.next)))
  }

  predicate AllLeaveAlone(cfg: Settings, s: State, ops: seq<Op>, c: Class, id: nat)
    decreases |ops|
  {
    ops == [] || (LeavesAlone(s, ops[0], c, id) && AllLeaveAlone(cfg, Step(cfg, s, ops[0]), ops[1..], c, id))
  }

  lemma OverdueFacts(cfg: Settings, s: State, id: nat) returns (p: nat)
    requires Inv(cfg, s) && OverdueWrite(s, id)
    ensures p == Position(s.fifo[ASYNC_WRITE], id) < |s.fifo[ASYNC_WRITE]|
    ensures s.jiffies > s.fifo[ASYNC_WRITE][p].fifoTime
    ensures HeadExpired(s, ASYNC_WRITE)
  {
    var q := s.fifo[ASYNC_WRITE];
    assert Timely(q, s.jiffies + cfg.expire(ASYNC_WRITE));
    var r :| r in q && r.id == id && s.jiffies > r.fifoTime;
    p := Position(q, id);
  }

  /** With an overdue asynchronous write waiting, every expiry check picks the head of its list. */
  lemma CheckPicksWrites(cfg: Settings, s: State, id: nat)
    requires Inv(cfg, s) && OverdueWrite(s, id)
    ensures Chosen(cfg, s).Some?
    ensures CheckDue(cfg, s) ==> Chosen(cfg, s) == Some(ASYNC_WRITE)
  {
    var p := OverdueFacts(cfg, s, id);
  }

  /** A dispatch sends the overdue write, moves it up after an expiry check, or brings the next check closer. */
  lemma DispatchMovesUp(cfg: Settings, s: State, id: nat)
    requires Inv(cfg, s) && OverdueWrite(s, id)
    ensures var s' := Dispatch(cfg, s);
            var p, p' := Position(s.fifo[ASYNC_WRITE], id), Position(s'.fifo[ASYNC_WRITE], id);
            || HasId(s'.dispatched, id)
            || (&& OverdueWrite(s', id)
                && if CheckDue(cfg, s) then p' + 1 == p && s'.batched == 1 && s.batched == cfg.fifoBatch + 1
                   else p' <= p && s'.batched == s.batched + 1)
  {
    CheckPicksWrites(cfg, s, id);
    var p := OverdueFacts(cfg, s, id);
    var q, s', c := s.fifo[ASYNC_WRITE], Dispatch(cfg, s), Chosen(cfg, s).value;
    if c != ASYNC_WRITE {
      assert q[p] in q;
      assert s'.fifo[ASYNC_WRITE] == q;
    } else if p == 0 {
      assert s'.dispatched[|s.dispatched|] == q[0];
      assert q[0] in s'.dispatched;
    } else {
      assert Distinct(q);
      assert s'.fifo[ASYNC_WRITE] == q[1..];
    }
  }

  lemma {:induction false} RoundsOrder(p: nat, p': nat, k: nat)
    requires p' <= p
    ensures Rounds(p', k) <= Rounds(p, k)
    decreases p
  {
    if p' < p {
      RoundsOrder(p - 1, p', k);
    }
  }

  /** Time and additions leave every place alone; a merge brings nobody further back. */
  lemma PlaceAfter(cfg: Settings, s: State, op: Op, c: Class, id: nat, p: nat) returns (k: nat)
    requires Inv(cfg, s) && p == Position(s.fifo[c], id) < |s.fifo[c]| && LeavesAlone(s, op, c, id) && !op.DispatchOp?
    ensures var q, q' := s.fifo[c], Step(cfg, s, op).fifo[c];
            k <= p && k < |q'| && q'[k].id == id && q'[k].fifoTime <= q[p].fifoTime
  {
    k := p;
    if op.Merge? {
      assert Timely(s.fifo[c], s.jiffies + cfg.expire(c));
      k := MergeKeepsPlace(s.fifo, c, s.fifo[c], op.rq, op.next, p);
    }
  }

  /** Time, additions and merges push no request back, and give none a later deadline. */
  lemma OthersKeepPlace(cfg: Settings, s: State, op: Op, c: Class, id: nat) returns (k: nat)
    requires Inv(cfg, s) && HasId(s.fifo[c], id) && LeavesAlone(s, op, c, id) && !op.DispatchOp?
    ensures var p, q, q' := Position(s.fifo[c], id), s.fifo[c], Step(cfg, s, op).fifo[c];
            k == Position(q', id) <= p && k < |q'| && q'[k].fifoTime <= q[p].fifoTime
    ensures Step(cfg, s, op).batched == s.batched && Step(cfg, s, op).starved == s.starved
  {
    k := PlaceAfter(cfg, s, op, c, id, Position(s.fifo[c], id));
    StepKeepsInv(cfg, s, op);
    assert Distinct(Step(cfg, s, op).fifo[c]);
    PositionIs(Step(cfg, s, op).fifo[c], k);
  }

  lemma WithoutPlace(q: Queue, id: nat, p: nat) returns (k: nat)
    requires p < |q| && q[p].id != id
    ensures k <= p && k < |Without(q, id)| && Without(q, id)[k] == q[p]
  {
    k := if Position(q, id) < p then p - 1 else p;
  }

  /** Where the request at `p` stands after a merge: no further back, with no later deadline. */
  lemma MergeKeepsPlace(f: Fifos, c: Class, q: Queue, rq: nat, next: nat, p: nat) returns (k: nat)
    requires q == f[c] && UniqueIds(f) && Sorted(q) && p < |q| && rq != next && next != q[p].id
    requires rq == q[p].id && Moves(f, rq, next) ==> HasId(q, next)
    ensures var q' := MergedQueue(f, q, rq, next);
            k <= p && k < |q'| && q'[k].id == q[p].id && q'[k].fifoTime <= q[p].fifoTime
  {
    if !Moves(f, rq, next) {
      k := WithoutPlace(q, next, p);
    } else if rq != q[p].id {
      k := WithoutPlace(q, rq, p);
    } else {
      k := HeirMovesUp(f, c, q, rq, next, p);
    }
  }

  /** A request that inherits an earlier deadline inherits an earlier place with it. */
  lemma HeirMovesUp(f: Fifos, c: Class, q: Queue, rq: nat, next: nat, p: nat) returns (k: nat)
    requires q == f[c] && UniqueIds(f) && Sorted(q) && Moves(f, rq, next)
    requires p < |q| && q[p].id == rq && HasId(q, next)
    ensures k < p && k < |MergedQueue(f, q, rq, next)| && MergedQueue(f, q, rq, next)[k] == Heir(f, rq, next)
    ensures Heir(f, rq, next).id == rq && Heir(f, rq, next).fifoTime <= q[p].fifoTime
  {
    assert Distinct(q);
    PositionIs(q, p);
    k := Position(q, next);
    NextStandsAhead(f, c, q, rq, next, p, k);
    FrontStays(q, p, k);
  }

  lemma FrontStays(q: Queue, p: nat, k: nat)
    requires k < p < |q| && k == Position(q, q[k].id)
    ensures k < |Cut(q, p)| && Position(Cut(q, p), q[k].id) == k
  {
    var w := Cut(q, p);
    assert forall i :: 0 <= i < p ==> w[i] == q[i];
    PositionAt(w, k, q[k].id);
  }

  lemma NextStandsAhead(f: Fifos, c: Class, q: Queue, rq: nat, next: nat, p: nat, k: nat)
    requires q == f[c] && UniqueIds(f) && Sorted(q) && Moves(f, rq, next)
    requires p < |q| && q[p].id == rq && k < |q| && q[k].id == next
    ensures k < p && q[p] == Find(All(f), rq).value && q[k] == Find(All(f), next).value
  {
    InAll(f, q[p]);
    InAll(f, q[k]);
    SameRequest(f, q[p], Find(All(f), rq).value);
    SameRequest(f, q[k], Find(All(f), next).value);
  }

  lemma {:induction false} DispatchedStays(cfg: Settings, s: State, ops: seq<Op>, id: nat)
    requires HasId(s.dispatched, id)
    ensures HasId(Run(cfg, s, ops).dispatched, id)
    decreases |ops|
  {
    if ops != [] {
      var s' := Step(cfg, s, ops[0]);
      var r :| r in s.dispatched && r.id == id;
      assert s.dispatched <= s'.dispatched;
      assert r in s'.dispatched;
      DispatchedStays(cfg, s', ops[1..], id);
    }
  }

  /** The rank drops when the request moves up at an expiry check, or when the next check comes closer. */
  lemma RankDrops(cfg: Settings, s: State, s': State, id: nat)
    requires var p, p' := Position(s.fifo[ASYNC_WRITE], id), Position(s'.fifo[ASYNC_WRITE], id);
             if CheckDue(cfg, s) then p' + 1 == p && s'.batched == 1 && s.batched == cfg.fifoBatch + 1
             else p' <= p && s'.batched == s.batched + 1
    ensures Rank(cfg, s', id) < Rank(cfg, s, id)
  {
    RoundsOrder(Position(s.fifo[ASYNC_WRITE], id), Position(s'.fifo[ASYNC_WRITE], id), cfg.fifoBatch + 1);
  }

  lemma RankHolds(cfg: Settings, s: State, s': State, id: nat)
    requires Position(s'.fifo[ASYNC_WRITE], id) <= Position(s.fifo[ASYNC_WRITE], id) && s'.batched == s.batched
    ensures Rank(cfg, s', id) <= Rank(cfg, s, id)
  {
    RoundsOrder(Position(s.fifo[ASYNC_WRITE], id), Position(s'.fifo[ASYNC_WRITE], id), cfg.fifoBatch + 1);
  }

  /** A step sends the overdue write, or leaves a rank that covers the dispatches still to come. */
  lemma StepSpendsRank(cfg: Settings, s: State, s': State, op: Op, id: nat)
    requires Inv(cfg, s) && OverdueWrite(s, id) && LeavesAlone(s, op, ASYNC_WRITE, id) && s' == Step(cfg, s, op)
    ensures !HasId(s'.dispatched, id) ==>
              OverdueWrite(s', id) && Rank(cfg, s', id) + (if op.DispatchOp? then 1 else 0) <= Rank(cfg, s, id)
  {
    if op.DispatchOp? {
      DispatchMovesUp(cfg, s, id);
      if !HasId(s'.dispatched, id) {
        RankDrops(cfg, s, s', id);
      }
    } else {
      var p := OverdueFacts(cfg, s, id);
      var k := OthersKeepPlace(cfg, s, op, ASYNC_WRITE, id);
      assert s'.fifo[ASYNC_WRITE][k] in s'.fifo[ASYNC_WRITE];
      RankHolds(cfg, s, s', id);
    }
  }

  lemma {:induction false} RankIsEnough(cfg: Settings, s: State, ops: seq<Op>, id: nat)
    requires Inv(cfg, s) && OverdueWrite(s, id) && AllLeaveAlone(cfg, s, ops, ASYNC_WRITE, id)
    requires Dispatches(ops) >= Rank(cfg, s, id)
    ensures HasId(Run(cfg, s, ops).dispatched, id)
    decreases |ops|
  {
    var s' := Step(cfg, s, ops[0]);
    StepKeepsInv(cfg, s, ops[0]);
    StepSpendsRank(cfg, s, s', ops[0], id);
    if HasId(s'.dispatched, id) {
      DispatchedStays(cfg, s', ops[1..], id);
    } else {
      RankIsEnough(cfg, s', ops[1..], id);
    }
  }

  /**
   * An overdue asynchronous write at position `p` goes out within `p * (fifo_batch + 1) + (fifo_batch + 2 - batched)`
   * dispatches, whatever else is queued, added or merged meanwhile.
   */
  lemma BoundedWaiting(cfg: Settings, s: State, ops: seq<Op>, id: nat)
    requires Inv(cfg, s) && OverdueWrite(s, id) && AllLeaveAlone(cfg, s, ops, ASYNC_WRITE, id)
    requires var p := Position(s.fifo[ASYNC_WRITE], id);
             Dispatches(ops) >= p * (cfg.fifoBatch + 1) + (cfg.fifoBatch + 2 - s.batched)
    ensures HasId(Run(cfg, s, ops).dispatched, id)
  {
    RoundsIsProduct(Position(s.fifo[ASYNC_WRITE], id), cfg.fifoBatch + 1);
    RankIsEnough(cfg, s, ops, id);
  }
}
