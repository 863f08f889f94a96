/** The states that runs from `sio_init_queue` reach, and how to reach some of them. */
module SioRuns {
  import opened Basics
  import opened SioQueues
  import opened SioModel
  import opened SioOrder

  ghost predicate DirPure(f: Fifos) {
    forall c: Class, r :: r in f[c] ==> r.dir == c.dir
  }

  /** The block layer merges requests of one direction only. */
  predicate KeepsDir(s: State, op: Op) {
    && Enabled(s, op)
    && (op.Merge? && Moves(s.fifo, op.rq, op.next) ==>
          Find(All(s.fifo), op.rq).value.dir == Find(All(s.fifo), op.next).value.dir)
  }

  predicate AllKeepDir(cfg: Settings, s: State, ops: seq<Op>)
    decreases |ops|
  {
    ops == [] || (KeepsDir(s, ops[0]) && AllKeepDir(cfg, Step(cfg, s, ops[0]), ops[1..]))
  }

  lemma MergeKeepsDirPure(f: Fifos, rq: nat, next: nat, c: Class, r: Request)
    requires UniqueIds(f) && DirPure(f) && rq != next && SurvivesMerge(f, rq, next, c, r)
    requires Moves(f, rq, next) ==> Find(All(f), rq).value.dir == Find(All(f), next).value.dir
    ensures r.dir == c.dir
  {
    if r !in f[c] {
      var n :| n in f[c] && n.id == next;
      InAll(f, n);
      SameRequest(f, n, Find(All(f), next).value);
    }
  }

  lemma StepKeepsDirPure(cfg: Settings, s: State, op: Op)
    requires Inv(cfg, s) && DirPure(s.fifo) && KeepsDir(s, op)
    ensures DirPure(Step(cfg, s, op).fifo)
  {
    var s' := Step(cfg, s, op);
    if op.Merge? {
      forall c: Class, r | r in s'.fifo[c] ensures r.dir == c.dir {
        MergedMembers(s.fifo, op.rq, op.next, c);
        MergeKeepsDirPure(s.fifo, op.rq, op.next, c, r);
      }
    }
  }

  /** `batched` after a dispatch that finds it at `b`. */
  function NextBatched(cfg: Settings, b: nat): nat {
    if b > cfg.fifoBatch then 1 else b + 1
  }

  function NextStarved(d: Dir, k: nat): nat {
    if d == Write then 0 else Increment(k)
  }

  ghost predicate Reachable(cfg: Settings, s: State) {
    exists s0, ops :: Initialised(s0) && AllKeepDir(cfg, s0, ops) && Run(cfg, s0, ops) == s
  }

  lemma {:induction false} RunAppends(cfg: Settings, s: State, ops: seq<Op>, op: Op)
    ensures Run(cfg, s, ops + [op]) == Step(cfg, Run(cfg, s, ops), op)
    ensures AllKeepDir(cfg, s, ops + [op]) <==> AllKeepDir(cfg, s, ops) && KeepsDir(Run(cfg, s, ops), op)
    decreases |ops|
  {
    if ops == [] {
      var one := ops + [op];
      assert one[0] == op && one[1..] == [];
    } else {
      assert (ops + [op])[1..] == ops[1..] + [op];
      RunAppends(cfg, Step(cfg, s, ops[0]), ops[1..], op);
    }
  }

  lemma StepStaysReachable(cfg: Settings, s: State, op: Op)
    requires Reachable(cfg, s) && KeepsDir(s, op)
    ensures Reachable(cfg, Step(cfg, s, op))
  {
    var s0, ops :| Initialised(s0) && AllKeepDir(cfg, s0, ops) && Run(cfg, s0, ops) == s;
    RunAppends(cfg, s0, ops, op);
  }

  lemma {:induction false} RunStaysPure(cfg: Settings, s: State, ops: seq<Op>)
    requires Inv(cfg, s) && DirPure(s.fifo) && AllKeepDir(cfg, s, ops)
    ensures Inv(cfg, Run(cfg, s, ops)) && DirPure(Run(cfg, s, ops).fifo)
    decreases |ops|
  {
    if ops != [] {
      StepKeepsInv(cfg, s, ops[0]);
      StepKeepsDirPure(cfg, s, ops[0]);
      RunStaysPure(cfg, Step(cfg, s, ops[0]), ops[1..]);
    }
  }

  lemma ReachableIsSound(cfg: Settings, s: State)
    requires cfg.Valid() && Reachable(cfg, s)
    ensures Inv(cfg, s) && DirPure(s.fifo)
  {
    var s0, ops :| Initialised(s0) && AllKeepDir(cfg, s0, ops) && Run(cfg, s0, ops) == s;
    RunStaysPure(cfg, s0, ops);
  }

  ghost predicate Quiet(f: Fifos) {
    forall c: Class :: f[c] == []
  }

  lemma AddToQuiet(cfg: Settings, s: State, id: nat, c: Class)
    requires Reachable(cfg, s) && Quiet(s.fifo)
    ensures Reachable(cfg, Step(cfg, s, Add(id, c)))
  {
    StepStaysReachable(cfg, s, Add(id, c));
  }

  /** One read, added and sent with nothing else about. */
  lemma ReadPasses(cfg: Settings, s: State) returns (s': State)
    requires cfg.Valid() && Reachable(cfg, s) && Quiet(s.fifo) && s.batched <= cfg.fifoBatch
    ensures Reachable(cfg, s') && Quiet(s'.fifo)
    ensures s'.batched == s.batched + 1 && s'.starved == Increment(s.starved)
    ensures s'.dispatched == s.dispatched + [Request(0, true, Read, s.jiffies + cfg.expire(Class(true, Read)))]
  {
    var c := Class(true, Read);
    AddToQuiet(cfg, s, 0, c);
    var s1 := Step(cfg, s, Add(0, c));
    StepStaysReachable(cfg, s1, DispatchOp);
    s' := Step(cfg, s1, DispatchOp);
    assert Chosen(cfg, s1) == Some(c);
    assert s1.fifo[c][1..] == [];
  }

  /** Any values of the two counters can come about, with all lists empty. */
  lemma {:induction false} CountersReached(cfg: Settings, b: nat, k: nat) returns (s: State)
    requires cfg.Valid() && b <= cfg.fifoBatch + 1 && k < WORD
    ensures Reachable(cfg, s) && Quiet(s.fifo) && s.batched == b && s.starved == k
    ensures forall r :: r in s.dispatched ==> r.id == 0
    decreases b
  {
    if b == 0 {
      s := State(0, NoRequests(), 0, k, []);
      assert Run(cfg, s, []) == s && AllKeepDir(cfg, s, []);
    } else {
      var before := CountersReached(cfg, b - 1, if k == 0 then WORD - 1 else k - 1);
      s := ReadPasses(cfg, before);
    }
  }

  // Filling the lists

  /** `n` requests of class `c`, with identities from `first` on, due at `time`. */
  function Batch(c: Class, first: nat, n: nat, time: int): (q: Queue)
    ensures |q| == n
    ensures forall i :: 0 <= i < n ==> q[i] == Request(first + i, c.sync, c.dir, time)
  {
    seq(n, i requires 0 <= i < n => Request(first + i, c.sync, c.dir, time))
  }

  /** `s` with a batch that is added now. */
  function Stocked(cfg: Settings, s: State, c: Class, first: nat, n: nat): State {
    s.(fifo := s.fifo[c := s.fifo[c] + Batch(c, first, n, s.jiffies + cfg.expire(c))])
  }

  ghost predicate IdsBelow(f: Fifos, limit: nat) {
    forall c: Class, r :: r in f[c] ==> r.id < limit
  }

  lemma NewIdIsFree(f: Fifos, id: nat)
    requires IdsBelow(f, id)
    ensures !HasId(All(f), id)
  {
    forall r | r in All(f) ensures r.id < id {
      InAll(f, r);
    }
  }

  lemma StockOneMore(cfg: Settings, s: State, c: Class, first: nat, n: nat)
    ensures Step(cfg, Stocked(cfg, s, c, first, n), Add(first + n, c)) == Stocked(cfg, s, c, first, n + 1)
  {
    var time := s.jiffies + cfg.expire(c);
    assert Batch(c, first, n + 1, time) == Batch(c, first, n, time) + [Request(first + n, c.sync, c.dir, time)];
    assert (s.fifo[c] + Batch(c, first, n, time)) + [Request(first + n, c.sync, c.dir, time)] ==
           s.fifo[c] + Batch(c, first, n + 1, time);
  }

  lemma StockedIds(cfg: Settings, s: State, c: Class, first: nat, n: nat)
    requires IdsBelow(s.fifo, first)
    ensures IdsBelow(Stocked(cfg, s, c, first, n).fifo, first + n)
  {
  }

  lemma {:induction false} StockArises(cfg: Settings, s: State, c: Class, first: nat, n: nat)
    requires Reachable(cfg, s) && IdsBelow(s.fifo, first)
    ensures Reachable(cfg, Stocked(cfg, s, c, first, n))
    ensures IdsBelow(Stocked(cfg, s, c, first, n).fifo, first + n)
    decreases n
  {
    StockedIds(cfg, s, c, first, n);
    if n == 0 {
      assert s.fifo[c] + [] == s.fifo[c];
      assert s.fifo[c := s.fifo[c]] == s.fifo;
    } else {
      var before := Stocked(cfg, s, c, first, n - 1);
      StockArises(cfg, s, c, first, n - 1);
      NewIdIsFree(before.fifo, first + n - 1);
      StepStaysReachable(cfg, before, Add(first + n - 1, c));
      StockOneMore(cfg, s, c, first, n - 1);
    }
  }

  function Repeat(n: nat): (ops: seq<Op>)
    ensures |ops| == n && Dispatches(ops) == n
  {
    if n == 0 then [] else assert ([DispatchOp] + Repeat(n - 1))[1..] == Repeat(n - 1); [DispatchOp] + Repeat(n - 1)
  }
}
