/** Every list stays in deadline order, so looking at the four heads is enough. */
module SioOrder {
  import opened Basics
  import opened SioQueues
  import opened SioModel

  ghost predicate UniqueIds(f: Fifos) {
    && (forall c: Class :: Distinct(f[c]))
    && (forall c, d, id :: HasId(f[c], id) && HasId(f[d], id) ==> c == d)
  }

  /** Sorted by deadline, with room for a request that is added now. */
  ghost predicate Timely(q: Queue, limit: int) {
    Sorted(q) && forall r :: r in q ==> r.fifoTime <= limit
  }

  ghost predicate InDeadlineOrder(cfg: Settings, s: State) {
    forall c: Class :: Timely(s.fifo[c], s.jiffies + cfg.expire(c))
  }

  ghost predicate Inv(cfg: Settings, s: State) {
    && cfg.Valid()
    && s.batched <= cfg.fifoBatch + 1 && s.starved < WORD
    && UniqueIds(s.fifo)
    && InDeadlineOrder(cfg, s)
  }

  lemma WithoutSorted(q: Queue, id: nat)
    requires Sorted(q)
    ensures Sorted(Without(q, id))
  {
    var w, p := Without(q, id), Position(q, id);
    forall i, j | 0 <= i <= j < |w| ensures w[i].fifoTime <= w[j].fifoTime {
      var i', j' := if i < p then i else i + 1, if j < p then j else j + 1;
      assert p < |q| ==> w[i] == q[i'] && w[j] == q[j'];
    }
  }

  lemma WithoutDistinct(q: Queue, id: nat)
    requires Distinct(q)
    ensures Distinct(Without(q, id))
    ensures forall x :: x in Without(q, id) <==> x in q && x.id != id
  {
    var w, p := Without(q, id), Position(q, id);
    if p < |q| {
      assert forall i :: 0 <= i < |w| ==> w[i] == q[if i < p then i else i + 1];
      forall x | x in q && x.id != id ensures x in w {
        var i :| 0 <= i < |q| && q[i] == x;
        assert w[if i < p then i else i - 1] == x;
      }
    }
  }

  lemma SubstituteMembers(q: Queue, id: nat, r: Request)
    requires Distinct(q)
    ensures forall x :: x in Substitute(q, id, r) <==> (x in q && x.id != id) || (x == r && HasId(q, id))
  {
    var p := Position(q, id);
    if p < |q| {
      assert q == q[..p] + [q[p]] + q[p + 1..];
      assert q[p := r] == q[..p] + [r] + q[p + 1..];
    }
  }

  lemma SubstituteKeeps(q: Queue, id: nat, r: Request)
    requires Distinct(q) && !HasId(q, r.id)
    requires forall x :: x in q && x.id == id ==> x.fifoTime == r.fifoTime
    ensures Distinct(Substitute(q, id, r))
    ensures Sorted(q) ==> Sorted(Substitute(q, id, r))
  {
    assert forall i :: 0 <= i < |q| ==> q[i] in q;
  }

  ghost predicate SurvivesMerge(f: Fifos, rq: nat, next: nat, c: Class, x: Request) {
    if Moves(f, rq, next) then
      (x in f[c] && x.id != rq && x.id != next) || (x == Heir(f, rq, next) && HasId(f[c], next))
    else
      x in f[c] && x.id != next
  }

  lemma SameRequest(f: Fifos, r: Request, t: Request)
    requires UniqueIds(f) && r in All(f) && t in All(f) && r.id == t.id
    ensures r == t
  {
    InAll(f, r);
    InAll(f, t);
    var c :| c in f && r in f[c];
    var d :| d in f && t in f[d];
    assert HasId(f[c], r.id) && HasId(f[d], r.id);
  }

  /** Who is in each list after a merge, and in which order. */
  lemma MergedMembers(f: Fifos, rq: nat, next: nat, c: Class)
    requires UniqueIds(f) && rq != next
    ensures var q, q' := f[c], MergedFifos(f, rq, next)[c];
            && Distinct(q') && (Sorted(q) ==> Sorted(q'))
            && (forall x :: x in q' <==> SurvivesMerge(f, rq, next, c, x))
  {
    if Moves(f, rq, next) {
      MovedMembers(f, rq, next, c);
    } else {
      WithoutDistinct(f[c], next);
      if Sorted(f[c]) {
        WithoutSorted(f[c], next);
      }
    }
  }

  lemma MovedMembers(f: Fifos, rq: nat, next: nat, c: Class)
    requires UniqueIds(f) && rq != next && Moves(f, rq, next)
    ensures var q, q' := f[c], MergedQueue(f, f[c], rq, next);
            && Distinct(q') && (Sorted(q) ==> Sorted(q'))
            && (forall x :: x in q' <==> SurvivesMerge(f, rq, next, c, x))
  {
    var q, r := f[c], Heir(f, rq, next);
    var w := Without(q, rq);
    WithoutDistinct(q, rq);
    if Sorted(q) {
      WithoutSorted(q, rq);
    }
    forall x | x in w && x.id == next ensures x.fifoTime == r.fifoTime {
      InAll(f, x);
      SameRequest(f, x, Find(All(f), next).value);
    }
    SubstituteKeeps(w, next, r);
    SubstituteMembers(w, next, r);
    assert HasId(w, next) <==> HasId(q, next);
  }

  lemma AddKeepsUnique(cfg: Settings, s: State, id: nat, c: Class)
    requires UniqueIds(s.fifo) && !HasId(All(s.fifo), id)
    ensures UniqueIds(AddRequest(cfg, s, id, c).fifo)
  {
    var f, f' := s.fifo, AddRequest(cfg, s, id, c).fifo;
    forall d: Class ensures !HasId(f[d], id) {
      if r :| r in f[d] && r.id == id {
        InAll(f, r);
      }
    }
    forall d: Class ensures Distinct(f'[d]) {
      if d == c {
        assert forall i :: 0 <= i < |f[c]| ==> f[c][i] in f[c];
      }
    }
    forall d: Class, x ensures HasId(f'[d], x) <==> HasId(f[d], x) || (d == c && x == id) {
    }
  }

  lemma MergeKeepsUnique(f: Fifos, rq: nat, next: nat)
    requires UniqueIds(f) && rq != next
    ensures UniqueIds(MergedFifos(f, rq, next))
  {
    var g := MergedFifos(f, rq, next);
    forall c: Class ensures Distinct(g[c]) {
      MergedMembers(f, rq, next, c);
    }
    forall c: Class, id | HasId(g[c], id) ensures HasId(f[c], if Moves(f, rq, next) && id == rq then next else id) {
      MergedMembers(f, rq, next, c);
      var x :| x in g[c] && x.id == id;
      assert SurvivesMerge(f, rq, next, c, x);
    }
  }

  lemma MergeKeepsOrder(f: Fifos, rq: nat, next: nat, c: Class, limit: int)
    requires UniqueIds(f) && rq != next && Timely(f[c], limit)
    ensures Timely(MergedFifos(f, rq, next)[c], limit)
  {
    MergedMembers(f, rq, next, c);
    forall r | r in MergedFifos(f, rq, next)[c] ensures r.fifoTime <= limit {
      assert SurvivesMerge(f, rq, next, c, r);
      if r !in f[c] {
        var n :| n in f[c] && n.id == next;
        InAll(f, n);
        SameRequest(f, n, Find(All(f), next).value);
      }
    }
  }

  lemma DispatchKeepsInv(cfg: Settings, s: State)
    requires Inv(cfg, s)
    ensures Inv(cfg, Dispatch(cfg, s))
  {
    var s', c := Dispatch(cfg, s), Chosen(cfg, s);
    if c.Some? {
      assert s'.fifo == s.fifo[c.value := s.fifo[c.value][1..]];
    }
  }

  lemma StepKeepsInv(cfg: Settings, s: State, op: Op)
    requires Inv(cfg, s) && Enabled(s, op)
    ensures Inv(cfg, Step(cfg, s, op))
  {
    match op
    case Tick(_) =>
      forall c: Class ensures Timely(s.fifo[c], s.jiffies + op.delta + cfg.expire(c)) {
        assert Timely(s.fifo[c], s.jiffies + cfg.expire(c));
      }
    case Add(id, c) =>
      AddKeepsUnique(cfg, s, id, c);
      assert Timely(s.fifo[c], s.jiffies + cfg.expire(c));
    case Merge(rq, next) =>
      MergeKeepsUnique(s.fifo, rq, next);
      forall c: Class ensures Timely(MergedFifos(s.fifo, rq, next)[c], s.jiffies + cfg.expire(c)) {
        MergeKeepsOrder(s.fifo, rq, next, c, s.jiffies + cfg.expire(c));
      }
    case DispatchOp => DispatchKeepsInv(cfg, s);
  }

  /** Deadline order, distinct identities and the counter bounds hold in every reachable state. */
  lemma {:induction false} RunKeepsInv(cfg: Settings, s: State, ops: seq<Op>)
    requires Inv(cfg, s) && AllEnabled(cfg, s, ops)
    ensures Inv(cfg, Run(cfg, s, ops))
    decreases |ops|
  {
    if ops != [] {
      StepKeepsInv(cfg, s, ops[0]);
      RunKeepsInv(cfg, Step(cfg, s, ops[0]), ops[1..]);
    }
  }

  ghost predicate SomeExpired(s: State, c: Class) {
    exists r :: r in s.fifo[c] && s.jiffies > r.fifoTime
  }

  /** Asynchronous before synchronous, then writes before reads. */
  function Priority(c: Class): nat {
    (if c.sync then 2 else 0) + (if c.dir == Read then 1 else 0)
  }

  /** Inspecting only the four heads finds the first class, by priority, that holds any expired request. */
  lemma HeadsSuffice(cfg: Settings, s: State)
    requires InDeadlineOrder(cfg, s)
    ensures ChooseExpired(s) == None <==> forall c: Class :: !SomeExpired(s, c)
    ensures ChooseExpired(s).Some? ==>
              && SomeExpired(s, ChooseExpired(s).value)
              && forall c: Class :: Priority(c) < Priority(ChooseExpired(s).value) ==> !SomeExpired(s, c)
  {
    forall c: Class ensures SomeExpired(s, c) <==> HeadExpired(s, c) {
      assert Timely(s.fifo[c], s.jiffies + cfg.expire(c));
    }
    if ChooseExpired(s) == None {
      forall c: Class ensures !HeadExpired(s, c) {
        FourClasses(c);
      }
    } else {
      assert SomeExpired(s, ChooseExpired(s).value);
    }
  }

  /** Without an expired request: the wanted direction before the other one, then synchronous before asynchronous. */
  function ServiceOrder(c: Class, wanted: Dir): nat {
    (if c.dir == wanted then 0 else 2) + (if c.sync then 0 else 1)
  }

  /** An ordinary choice takes the first non-empty class in service order, and finds none only when all are empty. */
  lemma ChoosesFirstInServiceOrder(f: Fifos, wanted: Dir)
    ensures Choose(f, wanted) == None <==> forall c: Class :: f[c] == []
    ensures Choose(f, wanted).Some? ==>
              && f[Choose(f, wanted).value] != []
              && forall c: Class ::
                   ServiceOrder(c, wanted) < ServiceOrder(Choose(f, wanted).value, wanted) ==> f[c] == []
  {
    if Choose(f, wanted) == None {
      forall c: Class ensures f[c] == [] {
        FourClasses(c);
      }
    } else {
      assert f[Choose(f, wanted).value] != [];
    }
  }
}
