/** The scheduler's operations as functions on a value, with `jiffies` as an unbounded counter. */
module SioModel {
  import opened Basics
  import opened SioQueues

  /** `x++` on an `unsigned int`. */
  function Increment(x: nat): nat {
    if x + 1 == WORD then 0 else x + 1
  }

  /** `writesStarved` is compared as unsigned, so any 32-bit pattern can stand here. */
  datatype Settings = Settings(expire: Class -> nat, fifoBatch: nat, writesStarved: nat) {
    predicate Valid() {
      fifoBatch < 0x8000_0000 && writesStarved < WORD
    }
  }

  /** `dispatched` is the device queue that `elv_dispatch_add_tail` appends to. */
  datatype State = State(jiffies: nat, fifo: Fifos, batched: nat, starved: nat, dispatched: Queue)

  /** A queue as `sio_init_queue` leaves it; nothing sets `starved`. */
  predicate Initialised(s: State) {
    s.fifo == NoRequests() && s.batched == 0 && s.starved < WORD && s.dispatched == []
  }

  function HeadExpired(s: State, c: Class): bool {
    var q := s.fifo[c];
    q != [] && s.jiffies > q[0].fifoTime
  }

  /** Expired heads: asynchronous before synchronous, writes before reads. */
  function ChooseExpired(s: State): (c: Option<Class>)
    ensures c.Some? ==> s.fifo[c.value] != []
  {
    if HeadExpired(s, Class(false, Write)) then Some(Class(false, Write))
    else if HeadExpired(s, Class(false, Read)) then Some(Class(false, Read))
    else if HeadExpired(s, Class(true, Write)) then Some(Class(true, Write))
    else if HeadExpired(s, Class(true, Read)) then Some(Class(true, Read))
    else None
  }

  function Other(d: Dir): Dir {
    if d == Read then Write else Read
  }

  /** Any head: the wanted direction first, synchronous before asynchronous. */
  function Choose(f: Fifos, d: Dir): (c: Option<Class>)
    ensures c.Some? ==> f[c.value] != []
  {
    if f[Class(true, d)] != [] then Some(Class(true, d))
    else if f[Class(false, d)] != [] then Some(Class(false, d))
    else if f[Class(true, Other(d))] != [] then Some(Class(true, Other(d)))
    else if f[Class(false, Other(d))] != [] then Some(Class(false, Other(d)))
    else None
  }

  /** An expiry check is due once more than `fifo_batch` requests went out since the last one. */
  predicate CheckDue(cfg: Settings, s: State) {
    s.batched > cfg.fifoBatch
  }

  function WantedDir(cfg: Settings, s: State): Dir {
    if s.starved > cfg.writesStarved then Write else Read
  }

  function Expired(cfg: Settings, s: State): (c: Option<Class>)
    ensures c.Some? ==> s.fifo[c.value] != []
  {
    if CheckDue(cfg, s) then ChooseExpired(s) else None
  }

  function Chosen(cfg: Settings, s: State): (c: Option<Class>)
    ensures c.Some? ==> s.fifo[c.value] != []
  {
    var expired := Expired(cfg, s);
    if expired.Some? then expired else Choose(s.fifo, WantedDir(cfg, s))
  }

  function DispatchHead(s: State, c: Class): State
    requires s.fifo[c] != []
  {
    var q := s.fifo[c];
    s.(fifo := s.fifo[c := q[1..]],
       dispatched := s.dispatched + [q[0]],
       batched := Increment(s.batched),
       starved := if q[0].dir == Write then 0 else Increment(s.starved))
  }

  function Checked(cfg: Settings, s: State): State {
    if CheckDue(cfg, s) then s.(batched := 0) else s
  }

  function Dispatch(cfg: Settings, s: State): State {
    match Chosen(cfg, s)
    case None => Checked(cfg, s)
    case Some(c) => DispatchHead(Checked(cfg, s), c)
  }

  function AddRequest(cfg: Settings, s: State, id: nat, c: Class): State {
    var r := Request(id, c.sync, c.dir, s.jiffies + cfg.expire(c));
    s.(fifo := s.fifo[c := s.fifo[c] + [r]])
  }

  /** `next` expires before `rq` and both wait in a list. */
  predicate Moves(f: Fifos, rq: nat, next: nat) {
    var r, n := Find(All(f), rq), Find(All(f), next);
    r.Some? && n.Some? && n.value.fifoTime < r.value.fifoTime
  }

  /** The request that stands in for `next` after a merge that moves. */
  function Heir(f: Fifos, rq: nat, next: nat): Request
    requires Moves(f, rq, next)
  {
    Find(All(f), rq).value.(fifoTime := Find(All(f), next).value.fifoTime)
  }

  /** What a merge leaves in list `q`: when `next` expires first, `rq` inherits its place and its deadline. */
  function MergedQueue(f: Fifos, q: Queue, rq: nat, next: nat): Queue {
    if Moves(f, rq, next) then Substitute(Without(q, rq), next, Heir(f, rq, next)) else Without(q, next)
  }

  function MergedFifos(f: Fifos, rq: nat, next: nat): Fifos {
    map c | c in f :: MergedQueue(f, f[c], rq, next)
  }

  datatype Op = Tick(delta: nat) | Add(id: nat, kind: Class) | Merge(rq: nat, next: nat) | DispatchOp

  /** What the block layer owes: a queued request is not added again nor merged with itself. */
  predicate Enabled(s: State, op: Op) {
    match op
    case Add(id, _) => !HasId(All(s.fifo), id)
    case Merge(rq, next) => rq != next
    case _ => true
  }

  function Step(cfg: Settings, s: State, op: Op): State {
    match op
    case Tick(delta) => s.(jiffies := s.jiffies + delta)
    case Add(id, c) => AddRequest(cfg, s, id, c)
    case Merge(rq, next) => s.(fifo := MergedFifos(s.fifo, rq, next))
    case DispatchOp => Dispatch(cfg, s)
  }

  predicate AllEnabled(cfg: Settings, s: State, ops: seq<Op>)
    decreases |ops|
  {
    ops == [] || (Enabled(s, ops[0]) && AllEnabled(cfg, Step(cfg, s, ops[0]), ops[1..]))
  }

  function Run(cfg: Settings, s: State, ops: seq<Op>): State
    decreases |ops|
  {
    if ops == [] then s else Run(cfg, Step(cfg, s, ops[0]), ops[1..])
  }

  function Dispatches(ops: seq<Op>): nat {
    if ops == [] then 0 else (if ops[0].DispatchOp? then 1 else 0) + Dispatches(ops[1..])
  }
}
