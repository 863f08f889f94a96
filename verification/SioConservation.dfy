/** No request is lost or duplicated. */
module SioConservation {
  import opened SioQueues
  import opened SioModel
  import opened SioOrder

  predicate IsQueuedId(f: Fifos, id: nat) {
    HasId(All(f), id)
  }

  lemma QueuedSomewhere(f: Fifos, id: nat)
    ensures IsQueuedId(f, id) <==> exists c: Class :: HasId(f[c], id)
  {
    if r :| r in All(f) && r.id == id {
      InAll(f, r);
      var c :| c in f && r in f[c];
      assert HasId(f[c], id);
    }
    if c: Class, r :| HasId(f[c], id) && r in f[c] && r.id == id {
      InAll(f, r);
    }
  }

  /** Everything that was ever added, and everything that was merged away. */
  datatype Ledger = Ledger(added: set<nat>, merged: set<nat>)

  function Record(s: State, l: Ledger, op: Op): Ledger {
    match op
    case Add(id, _) => l.(added := l.added + {id})
    case Merge(_, next) => if IsQueuedId(s.fifo, next) then l.(merged := l.merged + {next}) else l
    case _ => l
  }

  function RecordAll(cfg: Settings, s: State, l: Ledger, ops: seq<Op>): Ledger
    decreases |ops|
  {
    if ops == [] then l else RecordAll(cfg, Step(cfg, s, ops[0]), Record(s, l, ops[0]), ops[1..])
  }

  /** Each submission carries an identity of its own. */
  predicate FreshRun(cfg: Settings, s: State, l: Ledger, ops: seq<Op>)
    decreases |ops|
  {
    ops == [] ||
    (&& Enabled(s, ops[0]) && (ops[0].Add? ==> ops[0].id !in l.added)
     && FreshRun(cfg, Step(cfg, s, ops[0]), Record(s, l, ops[0]), ops[1..]))
  }

  /** An added request is queued, dispatched or merged away: exactly one of the three, and no other request is. */
  ghost predicate Accounted(s: State, l: Ledger) {
    && Distinct(s.dispatched)
    && (forall id :: id in l.added <==> IsQueuedId(s.fifo, id) || HasId(s.dispatched, id) || id in l.merged)
    && (forall id :: !(IsQueuedId(s.fifo, id) && HasId(s.dispatched, id)))
    && (forall id :: id in l.merged ==> !IsQueuedId(s.fifo, id) && !HasId(s.dispatched, id))
  }

  lemma AddedIds(cfg: Settings, s: State, id: nat, c: Class, x: nat)
    ensures IsQueuedId(AddRequest(cfg, s, id, c).fifo, x) <==> IsQueuedId(s.fifo, x) || x == id
  {
    var f := AddRequest(cfg, s, id, c).fifo;
    QueuedSomewhere(s.fifo, x);
    QueuedSomewhere(f, x);
    var q := s.fifo[c];
    assert forall d: Class :: d != c ==> f[d] == s.fifo[d];
    assert HasId(f[c], x) <==> HasId(q, x) || x == id;
  }

  lemma MergedIds(f: Fifos, rq: nat, next: nat, x: nat)
    requires UniqueIds(f) && rq != next
    ensures IsQueuedId(MergedFifos(f, rq, next), x) <==> IsQueuedId(f, x) && x != next
  {
    var g := MergedFifos(f, rq, next);
    QueuedSomewhere(f, x);
    QueuedSomewhere(g, x);
    if IsQueuedId(g, x) {
      var c: Class :| HasId(g[c], x);
      var r :| r in g[c] && r.id == x;
      MergedMembers(f, rq, next, c);
      assert SurvivesMerge(f, rq, next, c, r);
      assert r in f[c] ==> HasId(f[c], x);
    }
    if IsQueuedId(f, x) && x != next {
      SurvivorExists(f, rq, next, x);
    }
  }

  lemma SurvivorExists(f: Fifos, rq: nat, next: nat, x: nat)
    requires UniqueIds(f) && rq != next && x != next && IsQueuedId(f, x)
    ensures exists c: Class :: HasId(MergedFifos(f, rq, next)[c], x)
  {
    QueuedSomewhere(f, if Moves(f, rq, next) && x == rq then next else x);
    var c: Class :| HasId(f[c], if Moves(f, rq, next) && x == rq then next else x);
    MergedMembers(f, rq, next, c);
    var r: Request;
    if Moves(f, rq, next) && x == rq {
      r := Heir(f, rq, next);
    } else {
      r :| r in f[c] && r.id == x;
    }
    assert SurvivesMerge(f, rq, next, c, r);
    assert HasId(MergedFifos(f, rq, next)[c], x);
  }

  /** A dispatch sends the head of one list and touches nothing else; it idles only when all lists are empty. */
  lemma DispatchSendsHead(cfg: Settings, s: State) returns (c: Class)
    ensures var s' := Dispatch(cfg, s);
            if All(s.fifo) == [] then s'.fifo == s.fifo && s'.dispatched == s.dispatched
            else && s.fifo[c] != [] && s'.fifo == s.fifo[c := s.fifo[c][1..]]
                 && s'.dispatched == s.dispatched + [s.fifo[c][0]]
  {
    c := Class(true, Read);
    if Chosen(cfg, s).Some? {
      c := Chosen(cfg, s).value;
      InAll(s.fifo, s.fifo[c][0]);
      assert s.fifo[c][0] in s.fifo[c];
    }
  }

  lemma DispatchedIds(cfg: Settings, s: State, x: nat)
    requires Inv(cfg, s)
    ensures var s' := Dispatch(cfg, s);
            && (IsQueuedId(s'.fifo, x) || HasId(s'.dispatched, x) <==> IsQueuedId(s.fifo, x) || HasId(s.dispatched, x))
            && (IsQueuedId(s'.fifo, x) ==> IsQueuedId(s.fifo, x))
            && (IsQueuedId(s'.fifo, x) && HasId(s'.dispatched, x) ==> HasId(s.dispatched, x))
            && (HasId(s.dispatched, x) ==> HasId(s'.dispatched, x))
  {
    var s' := Dispatch(cfg, s);
    var c := DispatchSendsHead(cfg, s);
    if All(s.fifo) != [] {
      var q := s.fifo[c];
      HeadLeaves(s.fifo, c, x);
    }
  }

  /** When a head leaves its list, it is the only identity that is no longer queued. */
  lemma HeadLeaves(f: Fifos, c: Class, x: nat)
    requires UniqueIds(f) && f[c] != []
    ensures IsQueuedId(f[c := f[c][1..]], x) <==> IsQueuedId(f, x) && x != f[c][0].id
    ensures IsQueuedId(f, f[c][0].id)
  {
    var q, g: Fifos := f[c], f[c := f[c][1..]];
    QueuedSomewhere(f, x);
    QueuedSomewhere(g, x);
    QueuedSomewhere(f, q[0].id);
    assert Distinct(q);
    assert HasId(q[1..], x) ==> q[0].id != x;
    assert forall d: Class :: d != c ==> g[d] == f[d];
  }

  lemma StepAccounts(cfg: Settings, s: State, l: Ledger, op: Op)
    requires Inv(cfg, s) && Accounted(s, l) && Enabled(s, op) && (op.Add? ==> op.id !in l.added)
    ensures Accounted(Step(cfg, s, op), Record(s, l, op))
  {
    var s', l' := Step(cfg, s, op), Record(s, l, op);
    match op
    case Tick(_) =>
    case Add(id, c) =>
      forall x ensures IsQueuedId(s'.fifo, x) <==> IsQueuedId(s.fifo, x) || x == id {
        AddedIds(cfg, s, id, c, x);
      }
    case Merge(rq, next) =>
      forall x ensures IsQueuedId(s'.fifo, x) <==> IsQueuedId(s.fifo, x) && x != next {
        MergedIds(s.fifo, rq, next, x);
      }
    case DispatchOp =>
      forall x ensures
          && (IsQueuedId(s'.fifo, x) || HasId(s'.dispatched, x) <==> IsQueuedId(s.fifo, x) || HasId(s.dispatched, x))
          && !(IsQueuedId(s'.fifo, x) && HasId(s'.dispatched, x))
      {
        DispatchedIds(cfg, s, x);
      }
      DispatchStaysDistinct(cfg, s);
  }

  lemma DispatchStaysDistinct(cfg: Settings, s: State)
    requires Distinct(s.dispatched) && forall id :: !(IsQueuedId(s.fifo, id) && HasId(s.dispatched, id))
    ensures Distinct(Dispatch(cfg, s).dispatched)
  {
    var c := DispatchSendsHead(cfg, s);
    if All(s.fifo) != [] {
      var r := s.fifo[c][0];
      InAll(s.fifo, r);
      assert r in s.fifo[c];
      assert IsQueuedId(s.fifo, r.id);
      assert forall i :: 0 <= i < |s.dispatched| ==> s.dispatched[i] in s.dispatched;
    }
  }

  /** Over any run, every added request is queued in exactly one list, dispatched once, or merged away. */
  lemma {:induction false} Conservation(cfg: Settings, s: State, l: Ledger, ops: seq<Op>)
    requires Inv(cfg, s) && Accounted(s, l) && FreshRun(cfg, s, l, ops)
    ensures Inv(cfg, Run(cfg, s, ops)) && Accounted(Run(cfg, s, ops), RecordAll(cfg, s, l, ops))
    decreases |ops|
  {
    if ops != [] {
      StepKeepsInv(cfg, s, ops[0]);
      StepAccounts(cfg, s, l, ops[0]);
      Conservation(cfg, Step(cfg, s, ops[0]), Record(s, l, ops[0]), ops[1..]);
    }
  }
}
