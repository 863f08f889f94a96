/** Requests keep their class, and each class is sent in the order of submission. */
module SioTimeline {
  import opened SioQueues
  import opened SioModel
  import opened SioOrder
  import opened SioConservation

  ghost predicate OwnClass(f: Fifos) {
    forall c: Class, r :: r in f[c] ==> r.Kind() == c
  }

  predicate CrossesLists(f: Fifos, rq: nat, next: nat) {
    Moves(f, rq, next) && Find(All(f), rq).value.Kind() != Find(All(f), next).value.Kind()
  }

  /** A merge keeps every request in the list of its class exactly when it does not move one across lists. */
  lemma MergeKeepsClass(f: Fifos, rq: nat, next: nat)
    requires UniqueIds(f) && OwnClass(f) && rq != next
    ensures OwnClass(MergedFifos(f, rq, next)) <==> !CrossesLists(f, rq, next)
  {
    var g := MergedFifos(f, rq, next);
    if Moves(f, rq, next) {
      var n := Find(All(f), next).value;
      InAll(f, n);
      var d := n.Kind();
      assert n in f[d];
      MergedMembers(f, rq, next, d);
      assert SurvivesMerge(f, rq, next, d, Heir(f, rq, next));
      assert Heir(f, rq, next) in g[d];
      assert Heir(f, rq, next).Kind() == Find(All(f), rq).value.Kind();
    }
    if !CrossesLists(f, rq, next) {
      forall c: Class, r | r in g[c] ensures r.Kind() == c {
        MergedMembers(f, rq, next, c);
        assert SurvivesMerge(f, rq, next, c, r);
        if r !in f[c] {
          var n :| n in f[c] && n.id == next;
          InAll(f, n);
          SameRequest(f, n, Find(All(f), next).value);
        }
      }
    }
  }

  lemma StepKeepsClass(cfg: Settings, s: State, op: Op)
    requires Inv(cfg, s) && OwnClass(s.fifo) && Enabled(s, op)
    ensures OwnClass(Step(cfg, s, op).fifo) <==> !(op.Merge? && CrossesLists(s.fifo, op.rq, op.next))
  {
    if op.Merge? {
      MergeKeepsClass(s.fifo, op.rq, op.next);
    } else if op.DispatchOp? {
      var c := DispatchSendsHead(cfg, s);
    }
  }

  ghost predicate AlwaysOwnClass(cfg: Settings, s: State, ops: seq<Op>)
    decreases |ops|
  {
    OwnClass(s.fifo) && (ops == [] || AlwaysOwnClass(cfg, Step(cfg, s, ops[0]), ops[1..]))
  }

  predicate NeverCrosses(cfg: Settings, s: State, ops: seq<Op>)
    decreases |ops|
  {
    ops == [] ||
    (&& !(ops[0].Merge? && CrossesLists(s.fifo, ops[0].rq, ops[0].next))
     && NeverCrosses(cfg, Step(cfg, s, ops[0]), ops[1..]))
  }

  /** Throughout a run each request stays in the list of its class if and only if no merge moves one across lists. */
  lemma {:induction false} ClassesStayApart(cfg: Settings, s: State, ops: seq<Op>)
    requires Inv(cfg, s) && OwnClass(s.fifo) && AllEnabled(cfg, s, ops)
    ensures AlwaysOwnClass(cfg, s, ops) <==> NeverCrosses(cfg, s, ops)
    decreases |ops|
  {
    if ops != [] {
      var s' := Step(cfg, s, ops[0]);
      StepKeepsInv(cfg, s, ops[0]);
      StepKeepsClass(cfg, s, ops[0]);
      if OwnClass(s'.fifo) {
        ClassesStayApart(cfg, s', ops[1..]);
      }
    }
  }

  function OfClass(q: Queue, c: Class): Queue {
    if q == [] then [] else (if q[0].Kind() == c then [q[0]] else []) + OfClass(q[1..], c)
  }

  /** The requests of one class in the order they reached or will reach the device. */
  function Timeline(s: State, c: Class): Queue {
    OfClass(s.dispatched, c) + s.fifo[c]
  }

  lemma {:induction false} OfClassAppend(q: Queue, r: Request, c: Class)
    ensures OfClass(q + [r], c) == OfClass(q, c) + (if r.Kind() == c then [r] else [])
  {
    if q == [] {
      assert q + [r] == [r];
      assert OfClass([r][1..], c) == [];
    } else {
      assert (q + [r])[1..] == q[1..] + [r];
      OfClassAppend(q[1..], r, c);
    }
  }

  /** What a step adds to one class, with the deadline the request gets. */
  function Arrival(cfg: Settings, s: State, op: Op, c: Class): Queue {
    if op.Add? && op.kind == c then [Request(op.id, c.sync, c.dir, s.jiffies + cfg.expire(c))] else []
  }

  function Arrivals(cfg: Settings, s: State, ops: seq<Op>, c: Class): Queue
    decreases |ops|
  {
    if ops == [] then [] else Arrival(cfg, s, ops[0], c) + Arrivals(cfg, Step(cfg, s, ops[0]), ops[1..], c)
  }

  lemma DispatchKeepsTimeline(cfg: Settings, s: State, c: Class)
    requires OwnClass(s.fifo)
    ensures Timeline(Dispatch(cfg, s), c) == Timeline(s, c)
  {
    var d := DispatchSendsHead(cfg, s);
    if All(s.fifo) != [] {
      var q := s.fifo[d];
      assert q[0] in q;
      OfClassAppend(s.dispatched, q[0], c);
      assert q == [q[0]] + q[1..];
    }
  }

  // What each step does to the timeline

  lemma {:induction false} PositionBehind(before: Queue, q: Queue, id: nat)
    requires !HasId(before, id)
    ensures Position(before + q, id) == |before| + Position(q, id)
    decreases |before|
  {
    if before == [] {
      assert before + q == q;
    } else {
      assert before[0] in before;
      assert (before + q)[1..] == before[1..] + q;
      PositionBehind(before[1..], q, id);
    }
  }

  lemma Regroup(a: Queue, b: Queue, c: Queue)
    ensures (a + b) + c == a + (b + c)
  {
  }

  lemma CutBehind(before: Queue, q: Queue, p: nat)
    ensures Cut(before + q, |before| + p) == before + Cut(q, p)
  {
    var cut, behind := Cut(before + q, |before| + p), before + Cut(q, p);
    forall i | 0 <= i < |cut| ensures cut[i] == behind[i] {
    }
  }

  lemma WithoutBehind(before: Queue, q: Queue, id: nat)
    requires !HasId(before, id)
    ensures Without(before + q, id) == before + Without(q, id)
  {
    PositionBehind(before, q, id);
    CutBehind(before, q, Position(q, id));
  }

  lemma SubstituteBehind(before: Queue, q: Queue, id: nat, r: Request)
    requires !HasId(before, id)
    ensures Substitute(before + q, id, r) == before + Substitute(q, id, r)
  {
    PositionBehind(before, q, id);
  }

  lemma OfClassIds(q: Queue, c: Class, id: nat)
    requires !HasId(q, id)
    ensures !HasId(OfClass(q, c), id)
  {
    forall r | r in OfClass(q, c) ensures r in q {
      OfClassMembers(q, c, r);
    }
  }

  lemma {:induction false} OfClassMembers(q: Queue, c: Class, r: Request)
    ensures r in OfClass(q, c) <==> r in q && r.Kind() == c
    decreases |q|
  {
    if q != [] {
      OfClassMembers(q[1..], c, r);
      assert r in q <==> r == q[0] || r in q[1..];
    }
  }

  /** What a step does to the timeline of one class, given the state it starts from. */
  function Edited(cfg: Settings, s: State, op: Op, c: Class, timeline: Queue): Queue {
    match op
    case Add(_, _) => timeline + Arrival(cfg, s, op, c)
    case Merge(rq, next) =>
      if IsQueuedId(s.fifo, next) then MergedQueue(s.fifo, timeline, rq, next) else timeline
    case _ => timeline
  }

  /** A merge edits the whole timeline the way it edits the list: `next` is gone, or `rq` has taken its place. */
  lemma MergeEditsTimeline(cfg: Settings, s: State, rq: nat, next: nat, c: Class)
    requires forall id :: !(IsQueuedId(s.fifo, id) && HasId(s.dispatched, id))
    ensures Timeline(Step(cfg, s, Merge(rq, next)), c) == Edited(cfg, s, Merge(rq, next), c, Timeline(s, c))
  {
    var before, q := OfClass(s.dispatched, c), s.fifo[c];
    if IsQueuedId(s.fifo, next) {
      OfClassIds(s.dispatched, c, next);
      if Moves(s.fifo, rq, next) {
        assert IsQueuedId(s.fifo, rq);
        OfClassIds(s.dispatched, c, rq);
        WithoutBehind(before, q, rq);
        SubstituteBehind(before, Without(q, rq), next, Heir(s.fifo, rq, next));
      } else {
        WithoutBehind(before, q, next);
      }
    } else {
      QueuedSomewhere(s.fifo, next);
      assert !HasId(q, next);
    }
  }

  lemma StepEditsTimeline(cfg: Settings, s: State, op: Op, c: Class)
    requires OwnClass(s.fifo) && forall id :: !(IsQueuedId(s.fifo, id) && HasId(s.dispatched, id))
    ensures Timeline(Step(cfg, s, op), c) == Edited(cfg, s, op, c, Timeline(s, c))
  {
    match op
    case Tick(_) =>
    case Add(_, _) =>
    case Merge(rq, next) => MergeEditsTimeline(cfg, s, rq, next, c);
    case DispatchOp => DispatchKeepsTimeline(cfg, s, c);
  }

  function Replayed(cfg: Settings, s: State, ops: seq<Op>, c: Class, timeline: Queue): Queue
    decreases |ops|
  {
    if ops == [] then timeline
    else Replayed(cfg, Step(cfg, s, ops[0]), ops[1..], c, Edited(cfg, s, ops[0], c, timeline))
  }

  /** Over a whole run: additions append, merges put `rq` in the place of `next`, nothing else reorders a class. */
  lemma {:induction false} TimelineIsReplayed(cfg: Settings, s: State, l: Ledger, ops: seq<Op>, c: Class)
    requires Inv(cfg, s) && OwnClass(s.fifo) && Accounted(s, l)
    requires FreshRun(cfg, s, l, ops) && NeverCrosses(cfg, s, ops)
    ensures Timeline(Run(cfg, s, ops), c) == Replayed(cfg, s, ops, c, Timeline(s, c))
    decreases |ops|
  {
    if ops != [] {
      var s' := Step(cfg, s, ops[0]);
      StepKeepsInv(cfg, s, ops[0]);
      StepKeepsClass(cfg, s, ops[0]);
      StepAccounts(cfg, s, l, ops[0]);
      StepEditsTimeline(cfg, s, ops[0], c);
      TimelineIsReplayed(cfg, s', Record(s, l, ops[0]), ops[1..], c);
    }
  }

  // Requests that no merge names

  /** The requests of `q` other than those with an identity in `named`, in order. */
  function Others(q: Queue, named: set<nat>): Queue {
    if q == [] then [] else (if q[0].id in named then [] else [q[0]]) + Others(q[1..], named)
  }

  lemma {:induction false} OthersAppend(q: Queue, r: Queue, named: set<nat>)
    ensures Others(q + r, named) == Others(q, named) + Others(r, named)
    decreases |q|
  {
    if q == [] {
      assert q + r == r;
    } else {
      assert (q + r)[1..] == q[1..] + r;
      OthersAppend(q[1..], r, named);
    }
  }

  /** Whatever request with a named identity stands between `q` and `r`, the others are the same. */
  lemma OthersAround(q: Queue, x: Request, r: Queue, named: set<nat>)
    requires x.id in named
    ensures Others(q + ([x] + r), named) == Others(q, named) + Others(r, named)
  {
    OthersAppend(q, [x] + r, named);
    assert ([x] + r)[1..] == r;
  }

  lemma SplitAround(q: Queue, p: nat, r: Request)
    requires p < |q|
    ensures q[p := r] == q[..p] + ([r] + q[p + 1..])
  {
  }

  lemma OthersWithout(q: Queue, id: nat, named: set<nat>)
    requires id in named
    ensures Others(Without(q, id), named) == Others(q, named)
  {
    var p := Position(q, id);
    if p < |q| {
      assert q == q[p := q[p]];
      SplitAround(q, p, q[p]);
      OthersAround(q[..p], q[p], q[p + 1..], named);
      OthersAppend(q[..p], q[p + 1..], named);
    }
  }

  lemma OthersSubstitute(q: Queue, id: nat, r: Request, named: set<nat>)
    requires id in named && r.id in named
    ensures Others(Substitute(q, id, r), named) == Others(q, named)
  {
    var p := Position(q, id);
    if p < |q| {
      assert q == q[p := q[p]];
      SplitAround(q, p, q[p]);
      SplitAround(q, p, r);
      OthersAround(q[..p], q[p], q[p + 1..], named);
      OthersAround(q[..p], r, q[p + 1..], named);
    }
  }

  lemma MergeLeavesOthers(f: Fifos, q: Queue, rq: nat, next: nat, named: set<nat>)
    requires rq in named && next in named
    ensures Others(MergedQueue(f, q, rq, next), named) == Others(q, named)
  {
    if Moves(f, rq, next) {
      OthersWithout(q, rq, named);
      OthersSubstitute(Without(q, rq), next, Heir(f, rq, next), named);
    } else {
      OthersWithout(q, next, named);
    }
  }

  predicate NamesOnly(ops: seq<Op>, named: set<nat>) {
    forall i :: 0 <= i < |ops| && ops[i].Merge? ==> ops[i].rq in named && ops[i].next in named
  }

  lemma StepKeepsOthers(cfg: Settings, s: State, op: Op, c: Class, named: set<nat>)
    requires OwnClass(s.fifo) && (op.Merge? ==> op.rq in named && op.next in named)
    ensures Others(Timeline(Step(cfg, s, op), c), named) == Others(Timeline(s, c) + Arrival(cfg, s, op, c), named)
  {
    match op
    case Tick(_) =>
      assert Timeline(s, c) + [] == Timeline(s, c);
    case Add(_, _) =>
      assert Timeline(Step(cfg, s, op), c) == Timeline(s, c) + Arrival(cfg, s, op, c);
    case Merge(rq, next) =>
      var before, q := OfClass(s.dispatched, c), s.fifo[c];
      assert Timeline(s, c) + [] == Timeline(s, c);
      MergeLeavesOthers(s.fifo, q, rq, next, named);
      OthersAppend(before, q, named);
      OthersAppend(before, MergedQueue(s.fifo, q, rq, next), named);
    case DispatchOp =>
      DispatchKeepsTimeline(cfg, s, c);
      assert Timeline(s, c) + [] == Timeline(s, c);
  }

  /**
   * Leaving out the requests that merges name (none, in a run without merges), what a class sent followed by
   * what it holds is what it held followed by what was added to it: in that order, with those deadlines.
   */
  lemma {:induction false} ClassesAreFifo(cfg: Settings, s: State, ops: seq<Op>, c: Class, named: set<nat>)
    requires Inv(cfg, s) && OwnClass(s.fifo) && AllEnabled(cfg, s, ops) && NeverCrosses(cfg, s, ops)
    requires NamesOnly(ops, named)
    ensures Others(Timeline(Run(cfg, s, ops), c), named) == Others(Timeline(s, c) + Arrivals(cfg, s, ops, c), named)
    decreases |ops|
  {
    if ops == [] {
      assert Timeline(s, c) + [] == Timeline(s, c);
    } else {
      var s' := Step(cfg, s, ops[0]);
      StepKeepsInv(cfg, s, ops[0]);
      StepKeepsClass(cfg, s, ops[0]);
      StepKeepsOthers(cfg, s, ops[0], c, named);
      ClassesAreFifo(cfg, s', ops[1..], c, named);
      OthersJoin(Timeline(s', c), Timeline(s, c), Arrival(cfg, s, ops[0], c), Arrivals(cfg, s', ops[1..], c), named);
    }
  }

  lemma OthersJoin(q': Queue, q: Queue, first: Queue, rest: Queue, named: set<nat>)
    requires Others(q', named) == Others(q + first, named)
    ensures Others(q' + rest, named) == Others(q + (first + rest), named)
  {
    OthersAppend(q', rest, named);
    OthersAppend(q + first, rest, named);
    Regroup(q, first, rest);
  }

  /** In a run without merges a class is a pure FIFO. */
  lemma WithoutMergesPureFifo(cfg: Settings, s: State, ops: seq<Op>, c: Class)
    requires Inv(cfg, s) && OwnClass(s.fifo) && AllEnabled(cfg, s, ops) && NeverCrosses(cfg, s, ops)
    requires NamesOnly(ops, {})
    ensures Timeline(Run(cfg, s, ops), c) == Timeline(s, c) + Arrivals(cfg, s, ops, c)
  {
    ClassesAreFifo(cfg, s, ops, c, {});
    NoneLeftOut(Timeline(Run(cfg, s, ops), c));
    NoneLeftOut(Timeline(s, c) + Arrivals(cfg, s, ops, c));
  }

  lemma {:induction false} NoneLeftOut(q: Queue)
    ensures Others(q, {}) == q
  {
    if q != [] {
      NoneLeftOut(q[1..]);
      assert [q[0]] + q[1..] == q;
    }
  }
}
