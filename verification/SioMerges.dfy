/** What a merge does to the four lists. */
module SioMerges {
  import opened Basics
  import opened SioQueues
  import opened SioModel
  import opened SioOrder

  /** The list without the request `id`. */
  function Except(q: Queue, id: nat): Queue {
    if q == [] then [] else (if q[0].id == id then [] else [q[0]]) + Except(q[1..], id)
  }

  /** The request `next` at `f[c][i]` and the request `rq` at `f[d][j]`, the former being due first. */
  predicate DueFirst(f: Fifos, rq: nat, next: nat, c: Class, i: int, d: Class, j: int) {
    && 0 <= i < |f[c]| && f[c][i].id == next && 0 <= j < |f[d]| && f[d][j].id == rq
    && f[c][i].fifoTime < f[d][j].fifoTime
  }

  /** List `e` after `rq` has been given the place and the deadline that `next` had at `f[c][i]`. */
  function Inherited(f: Fifos, rq: nat, c: Class, i: int, d: Class, j: int, e: Class): Queue
    requires 0 <= i < |f[c]| && 0 <= j < |f[d]|
  {
    if e == c then Except(f[c][..i], rq) + [f[d][j].(fifoTime := f[c][i].fifoTime)] + Except(f[c][i + 1..], rq)
    else Except(f[e], rq)
  }

  /**
   * `next` is gone. If it was queued, and due before `rq`, which was queued as well, then `rq` has its place and its
   * deadline; in all other cases `rq` is where it was. Nothing else has changed.
   */
  ghost predicate IsMerge(f: Fifos, f': Fifos, rq: nat, next: nat) {
    && (forall c, i, d, j, e: Class :: DueFirst(f, rq, next, c, i, d, j) ==> f'[e] == Inherited(f, rq, c, i, d, j, e))
    && ((forall c, i, d, j :: !DueFirst(f, rq, next, c, i, d, j)) ==> forall e: Class :: f'[e] == Except(f[e], next))
  }

  lemma {:induction false} ExceptAppends(q: Queue, more: Queue, id: nat)
    ensures Except(q + more, id) == Except(q, id) + Except(more, id)
    decreases |q|
  {
    if q == [] {
      assert q + more == more;
    } else {
      assert (q + more)[1..] == q[1..] + more;
      ExceptAppends(q[1..], more, id);
    }
  }

  lemma {:induction false} ExceptNone(q: Queue, id: nat)
    requires forall i :: 0 <= i < |q| ==> q[i].id != id
    ensures Except(q, id) == q
  {
    if q != [] {
      ExceptNone(q[1..], id);
    }
  }

  /** Cutting the first request with an identity out is leaving it out, if it is the only one. */
  lemma {:induction false} WithoutIsExcept(q: Queue, id: nat)
    requires Distinct(q)
    ensures Without(q, id) == Except(q, id)
  {
    if q != [] {
      var rest := q[1..];
      if q[0].id == id {
        ExceptNone(rest, id);
      } else {
        WithoutIsExcept(rest, id);
        CutBehindHead(q, id);
      }
    }
  }

  lemma CutBehindHead(q: Queue, id: nat)
    requires q != [] && q[0].id != id
    ensures Without(q, id) == [q[0]] + Without(q[1..], id)
  {
    var p, rest := Position(q[1..], id), q[1..];
    if p < |rest| {
      assert q[..p + 1] == [q[0]] + rest[..p];
    }
  }

  lemma ExceptAround(q: Queue, id: nat, i: nat)
    requires i < |q| && q[i].id != id
    ensures Except(q, id) == Except(q[..i], id) + [q[i]] + Except(q[i + 1..], id)
  {
    var front, rest := q[..i], q[i + 1..];
    assert q == front + ([q[i]] + rest);
    ExceptAppends(front, [q[i]] + rest, id);
    ExceptAppends([q[i]], rest, id);
  }

  lemma SubstituteAt(front: Queue, n: Request, rest: Queue, r: Request)
    requires forall x :: x in front ==> x.id != n.id
    ensures Substitute(front + [n] + rest, n.id, r) == front + [r] + rest
  {
    var w := front + [n] + rest;
    assert forall i :: 0 <= i < |front| ==> w[i] == front[i] && front[i] in front;
    PositionAt(w, |front|, n.id);
  }

  /** The place that `next` has once `rq` is taken out. */
  lemma PlaceOfNext(q: Queue, rq: nat, i: nat, r: Request)
    requires Distinct(q) && i < |q| && q[i].id != rq
    ensures Substitute(Without(q, rq), q[i].id, r) == Except(q[..i], rq) + [r] + Except(q[i + 1..], rq)
  {
    WithoutIsExcept(q, rq);
    ExceptAround(q, rq, i);
    ExceptMembers(q[..i], rq);
    SubstituteAt(Except(q[..i], rq), q[i], Except(q[i + 1..], rq), r);
  }

  lemma {:induction false} ExceptMembers(q: Queue, id: nat)
    ensures forall x :: x in Except(q, id) <==> x in q && x.id != id
  {
    if q != [] {
      ExceptMembers(q[1..], id);
    }
  }

  lemma QueuedIsFound(f: Fifos, c: Class, r: Request)
    requires UniqueIds(f) && r in f[c]
    ensures Find(All(f), r.id) == Some(r)
  {
    InAll(f, r);
    SameRequest(f, r, Find(All(f), r.id).value);
  }

  lemma NotHere(f: Fifos, c: Class, e: Class, r: Request, s: Request)
    requires UniqueIds(f) && r in f[c] && e != c
    ensures Substitute(Without(f[e], s.id), r.id, s) == Except(f[e], s.id)
  {
    var q := f[e];
    assert HasId(f[c], r.id);
    assert !HasId(q, r.id);
    WithoutIsExcept(q, s.id);
    ExceptMembers(q, s.id);
    assert !HasId(Except(q, s.id), r.id);
  }

  lemma MovesToNext(f: Fifos, rq: nat, next: nat, c: Class, i: nat, d: Class, j: nat, e: Class)
    requires UniqueIds(f) && DueFirst(f, rq, next, c, i, d, j)
    ensures MergedFifos(f, rq, next)[e] == Inherited(f, rq, c, i, d, j, e)
  {
    var n, r := f[c][i], f[d][j];
    QueuedIsFound(f, c, n);
    QueuedIsFound(f, d, r);
    if e == c {
      assert Distinct(f[c]);
      PlaceOfNext(f[c], rq, i, r.(fifoTime := n.fifoTime));
    } else {
      NotHere(f, c, e, n, r.(fifoTime := n.fifoTime));
    }
  }

  lemma DueFirstMoves(f: Fifos, rq: nat, next: nat) returns (c: Class, i: nat, d: Class, j: nat)
    requires UniqueIds(f) && Moves(f, rq, next)
    ensures DueFirst(f, rq, next, c, i, d, j)
  {
    var n, r := Find(All(f), next).value, Find(All(f), rq).value;
    InAll(f, n);
    InAll(f, r);
    c :| c in f && n in f[c];
    i :| 0 <= i < |f[c]| && f[c][i] == n;
    d :| d in f && r in f[d];
    j :| 0 <= j < |f[d]| && f[d][j] == r;
  }

  /** The merge of the specification is that merge. */
  lemma MergesAsPromised(f: Fifos, rq: nat, next: nat)
    requires UniqueIds(f)
    ensures IsMerge(f, MergedFifos(f, rq, next), rq, next)
  {
    forall c, i, d, j, e | DueFirst(f, rq, next, c, i, d, j)
      ensures MergedFifos(f, rq, next)[e] == Inherited(f, rq, c, i, d, j, e)
    {
      MovesToNext(f, rq, next, c, i, d, j, e);
    }
    if Moves(f, rq, next) {
      var c, i, d, j := DueFirstMoves(f, rq, next);
    } else {
      forall e: Class ensures MergedFifos(f, rq, next)[e] == Except(f[e], next) {
        assert Distinct(f[e]);
        WithoutIsExcept(f[e], next);
      }
    }
  }
}
