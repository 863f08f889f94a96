/** Requests and the four FIFO lists of the simple I/O scheduler. */
module SioQueues {
  import opened Basics

  datatype Dir = Read | Write

  /** One of the four lists: asynchronous or synchronous, read or write. */
  datatype Class = Class(sync: bool, dir: Dir)

  datatype Request = Request(id: nat, sync: bool, dir: Dir, fifoTime: int) {
    function Kind(): Class {
      Class(sync, dir)
    }
  }

  const CLASSES := {Class(true, Read), Class(true, Write), Class(false, Read), Class(false, Write)}

  lemma FourClasses(c: Class)
    ensures c in CLASSES
  {
    match c
    case Class(true, Read) =>
    case Class(true, Write) =>
    case Class(false, Read) =>
    case Class(false, Write) =>
  }

  type Queue = seq<Request>

  /** The C array `fifo_list[sync][data_dir]`, a list per class. */
  type Fifos = f: map<Class, Queue> | forall c: Class :: c in f witness NoRequests()

  function NoRequests(): (f: map<Class, Queue>)
    ensures forall c: Class :: c in f && f[c] == []
  {
    var f := map c | c in CLASSES :: [];
    assert forall c: Class :: c in f by {
      forall c: Class ensures c in f { FourClasses(c); }
    }
    f
  }

  function All(f: Fifos): Queue {
    f[Class(true, Read)] + f[Class(true, Write)] + f[Class(false, Read)] + f[Class(false, Write)]
  }

  predicate HasId(q: Queue, id: nat) {
    exists r :: r in q && r.id == id
  }

  /** The queued request with a given identity. */
  function Find(q: Queue, id: nat): (r: Option<Request>)
    ensures r.Some? <==> HasId(q, id)
    ensures r.Some? ==> r.value in q && r.value.id == id
  {
    if q == [] then None
    else if q[0].id == id then assert q[0] in q; Some(q[0])
    else
      assert forall r :: r in q <==> r == q[0] || r in q[1..];
      Find(q[1..], id)
  }

  /** How many requests stand ahead of `id`. */
  function Position(q: Queue, id: nat): (p: nat)
    ensures p <= |q|
    ensures p < |q| ==> q[p].id == id
    ensures forall i :: 0 <= i < p ==> q[i].id != id
    ensures HasId(q, id) <==> p < |q|
  {
    if q == [] || q[0].id == id then 0 else 1 + Position(q[1..], id)
  }

  /** The list without what stands at `p`. */
  function Cut(q: Queue, p: nat): Queue {
    if p < |q| then q[..p] + q[p + 1..] else q
  }

  /** `list_del_init` of the request `id`: it leaves the list if it is there. */
  function Without(q: Queue, id: nat): Queue {
    Cut(q, Position(q, id))
  }

  /** `r` takes the place of the request `id`. */
  function Substitute(q: Queue, id: nat, r: Request): Queue {
    var p := Position(q, id);
    if p < |q| then q[p := r] else q
  }

  /** `list_add(&r->queuelist, &id->queuelist)`: `r` enters right behind the request `id`. */
  function InsertAfter(q: Queue, id: nat, r: Request): Queue {
    var p := Position(q, id);
    if p < |q| then q[..p + 1] + [r] + q[p + 1..] else q
  }

  /** `rq_set_fifo_time` on the request `id`. */
  function SetTime(q: Queue, id: nat, t: int): Queue {
    var p := Position(q, id);
    if p < |q| then q[p := q[p].(fifoTime := t)] else q
  }

  predicate Distinct(q: Queue) {
    forall i, j :: 0 <= i < j < |q| ==> q[i].id != q[j].id
  }

  predicate Sorted(q: Queue) {
    forall i, j :: 0 <= i <= j < |q| ==> q[i].fifoTime <= q[j].fifoTime
  }

  lemma InAll(f: Fifos, r: Request)
    ensures r in All(f) <==> exists c :: c in f && r in f[c]
  {
    if c :| c in f && r in f[c] {
      FourClasses(c);
    }
  }

  lemma PositionAt(q: Queue, k: nat, id: nat)
    requires k < |q| && q[k].id == id && forall i :: 0 <= i < k ==> q[i].id != id
    ensures Position(q, id) == k
  {
    assert q[k] in q;
  }

  lemma PositionIs(q: Queue, i: nat)
    requires Distinct(q) && i < |q|
    ensures Position(q, q[i].id) == i
  {
    assert HasId(q, q[i].id);
  }
}
