/** The elevator as the kernel drives it: one object whose lists, counters and device queue are updated in place. */
module SioScheduler {
  import opened Basics
  import opened SioQueues
  import opened SioModel
  import opened SioOrder
  import opened SioMerges
  import opened SioConservation
  import opened SioTimeline

  /** `list_del_init` of a request, whichever list it is in. */
  function Unlink(f: Fifos, id: nat): Fifos {
    map c | c in f :: Without(f[c], id)
  }

  /** `list_add` of a request behind another one, whichever list that one is in. */
  function LinkBehind(f: Fifos, id: nat, r: Request): Fifos {
    map c | c in f :: InsertAfter(f[c], id, r)
  }

  function Stamp(f: Fifos, id: nat, t: int): Fifos {
    map c | c in f :: SetTime(f[c], id, t)
  }

  lemma LinkedAndStamped(w: Queue, next: nat, r: Request, t: int, p: nat)
    requires !HasId(w, r.id) && p == Position(w, next) < |w|
    ensures SetTime(InsertAfter(w, next, r), r.id, t) == w[..p + 1] + [r.(fifoTime := t)] + w[p + 1..]
  {
    var v := w[..p + 1] + [r] + w[p + 1..];
    forall i | 0 <= i <= p ensures v[i].id != r.id {
      assert v[i] in w;
    }
    PositionAt(v, p + 1, r.id);
  }

  lemma UnlinkedBefore(w: Queue, next: nat, r: Request, p: nat)
    requires p == Position(w, next) < |w|
    ensures Without(w[..p + 1] + [r] + w[p + 1..], next) == w[p := r]
  {
    var u := w[..p + 1] + [r] + w[p + 1..];
    PositionAt(u, p, next);
    CutBefore(w, r, p);
  }

  lemma CutBefore(w: Queue, r: Request, p: nat)
    requires p < |w|
    ensures var u := w[..p + 1] + [r] + w[p + 1..];
            u[..p] + u[p + 1..] == w[p := r]
  {
    var u := w[..p + 1] + [r] + w[p + 1..];
    assert u[..p] == w[..p];
    assert u[p + 1..] == [r] + w[p + 1..];
  }

  /** Linking `r` in behind `next`, stamping it and unlinking `next` puts it in the place of `next`. */
  lemma SpliceIsSubstitution(w: Queue, next: nat, r: Request, t: int)
    requires !HasId(w, r.id)
    ensures Without(SetTime(InsertAfter(w, next, r), r.id, t), next) == Substitute(w, next, r.(fifoTime := t))
  {
    var p := Position(w, next);
    if p < |w| {
      LinkedAndStamped(w, next, r, t, p);
      UnlinkedBefore(w, next, r.(fifoTime := t), p);
    }
  }

  /** The list operations of a merge that moves, one after the other. */
  function MovedByHand(f: Fifos, rq: nat, next: nat): Fifos
    requires Moves(f, rq, next)
  {
    var r, n := Find(All(f), rq).value, Find(All(f), next).value;
    Unlink(Stamp(LinkBehind(Unlink(f, rq), next, r), rq, n.fifoTime), next)
  }

  lemma MovedListByHand(f: Fifos, rq: nat, next: nat, c: Class)
    requires UniqueIds(f) && Moves(f, rq, next)
    ensures MovedByHand(f, rq, next)[c] == MergedFifos(f, rq, next)[c]
  {
    assert Distinct(f[c]);
    WithoutDistinct(f[c], rq);
    SpliceIsSubstitution(Without(f[c], rq), next, Find(All(f), rq).value, Find(All(f), next).value.fifoTime);
  }

  lemma SameLists(f: Fifos, g: Fifos)
    requires forall c: Class :: f[c] == g[c]
    ensures f == g
  {
  }

  lemma MergeByHand(f: Fifos, rq: nat, next: nat)
    requires UniqueIds(f)
    ensures MergedFifos(f, rq, next) == if Moves(f, rq, next) then MovedByHand(f, rq, next) else Unlink(f, next)
  {
    if Moves(f, rq, next) {
      forall c: Class ensures MovedByHand(f, rq, next)[c] == MergedFifos(f, rq, next)[c] {
        MovedListByHand(f, rq, next, c);
      }
      SameLists(MovedByHand(f, rq, next), MergedFifos(f, rq, next));
    }
  }

  lemma UnlinkHead(f: Fifos, c: Class)
    requires UniqueIds(f) && f[c] != []
    ensures Unlink(f, f[c][0].id) == f[c := f[c][1..]]
  {
    var id := f[c][0].id;
    assert f[c][0] in f[c];
    assert HasId(f[c], id);
    forall d: Class ensures Unlink(f, id)[d] == if d == c then f[c][1..] else f[d] {
      assert d != c ==> !HasId(f[d], id);
    }
  }

  class Scheduler {
    const cfg: Settings
    var jiffies: nat
    var fifoList: Fifos
    var batched: nat
    var starved: nat
    var deviceQueue: seq<Request>

    function View(): State
      reads this
    {
      State(jiffies, fifoList, batched, starved, deviceQueue)
    }

    /** `starved` and `writes_starved` keep whatever bits the allocator returned. */
    constructor InitQueue(hz: nat, now: nat, garbageStarved: nat, garbageWritesStarved: nat)
      requires garbageStarved < WORD && garbageWritesStarved < WORD
      ensures Inv(cfg, View()) && Initialised(View()) && jiffies == now
      ensures cfg.fifoBatch == 8 && starved == garbageStarved && cfg.writesStarved == garbageWritesStarved
      ensures cfg.expire(Class(true, Read)) == hz / 2 && cfg.expire(Class(true, Write)) == 2 * hz
      ensures cfg.expire(Class(false, Read)) == 4 * hz && cfg.expire(Class(false, Write)) == 16 * hz
      ensures Accounted(View(), Ledger({}, {})) && OwnClass(fifoList)
    {
      cfg := Settings((c: Class) => if c.sync then (if c.dir == Read then hz / 2 else 2 * hz)
                           else (if c.dir == Read then 4 * hz else 16 * hz), 8, garbageWritesStarved);
      jiffies := now;
      fifoList := NoRequests();
      batched := 0;
      starved := garbageStarved;
      deviceQueue := [];
    }

    method AddRequest(id: nat, sync: bool, dir: Dir)
      modifies this
      ensures View() == Step(cfg, old(View()), Add(id, Class(sync, dir)))
    {
      var c := Class(sync, dir);
      var rq := Request(id, sync, dir, jiffies + cfg.expire(c));
      fifoList := fifoList[c := fifoList[c] + [rq]];
    }

    method MergedRequests(rq: nat, next: nat)
      requires UniqueIds(fifoList)
      modifies `fifoList
      ensures IsMerge(old(fifoList), fifoList, rq, next)
      ensures fifoList == MergedFifos(old(fifoList), rq, next)
    {
      MergesAsPromised(fifoList, rq, next);
      MergeByHand(fifoList, rq, next);
      var r, n := Find(All(fifoList), rq), Find(All(fifoList), next);
      if r.Some? && n.Some? {
        if n.value.fifoTime < r.value.fifoTime {
          // list_move: unlink rq, then link it in right behind next
          fifoList := Unlink(fifoList, rq);
          fifoList := LinkBehind(fifoList, next, r.value);
          fifoList := Stamp(fifoList, rq, n.value.fifoTime);
        }
      }
      fifoList := Unlink(fifoList, next);
    }

    method QueueEmpty() returns (empty: bool)
      ensures empty <==> forall c: Class :: fifoList[c] == []
    {
      empty := fifoList[Class(true, Read)] == [] && fifoList[Class(true, Write)] == [] &&
               fifoList[Class(false, Read)] == [] && fifoList[Class(false, Write)] == [];
      if empty {
        forall c: Class ensures fifoList[c] == [] {
          FourClasses(c);
        }
      }
    }

    method ExpiredRequest(c: Class) returns (rq: Option<Request>)
      ensures rq == if HeadExpired(View(), c) then Some(fifoList[c][0]) else None
    {
      var list := fifoList[c];
      if list == [] {
        return None;
      }
      rq := if jiffies > list[0].fifoTime then Some(list[0]) else None;
    }

    method ChooseExpiredRequest() returns (rq: Option<Request>)
      ensures rq == Head(ChooseExpired(View()))
    {
      rq := ExpiredRequest(Class(false, Write));
      if rq.Some? { return; }
      rq := ExpiredRequest(Class(false, Read));
      if rq.Some? { return; }
      rq := ExpiredRequest(Class(true, Write));
      if rq.Some? { return; }
      rq := ExpiredRequest(Class(true, Read));
    }

    function Head(c: Option<Class>): Option<Request>
      requires c.Some? ==> fifoList[c.value] != []
      reads this
    {
      if c.Some? then Some(fifoList[c.value][0]) else None
    }

    method ChooseRequest(dir: Dir) returns (rq: Option<Request>)
      ensures rq == Head(Choose(fifoList, dir))
    {
      if fifoList[Class(true, dir)] != [] {
        return Some(fifoList[Class(true, dir)][0]);
      }
      if fifoList[Class(false, dir)] != [] {
        return Some(fifoList[Class(false, dir)][0]);
      }
      if fifoList[Class(true, Other(dir))] != [] {
        return Some(fifoList[Class(true, Other(dir))][0]);
      }
      if fifoList[Class(false, Other(dir))] != [] {
        return Some(fifoList[Class(false, Other(dir))][0]);
      }
      return None;
    }

    method DispatchRequest(rq: Request, ghost c: Class)
      requires UniqueIds(fifoList) && fifoList[c] != [] && rq == fifoList[c][0]
      modifies this
      ensures View() == DispatchHead(old(View()), c)
    {
      UnlinkHead(fifoList, c);
      fifoList := Unlink(fifoList, rq.id);
      deviceQueue := deviceQueue + [rq];
      batched := Increment(batched);
      if rq.dir == Write {
        starved := 0;
      } else {
        starved := Increment(starved);
      }
    }

    /** The first half of a dispatch: an expired request if a check is due and finds one, else any request. */
    method RetrieveRequest() returns (rq: Option<Request>)
      modifies `batched
      ensures View() == Checked(cfg, old(View()))
      ensures rq == Head(Chosen(cfg, old(View())))
    {
      rq := None;
      var dir := Read;
      if batched > cfg.fifoBatch {
        batched := 0;
        rq := ChooseExpiredRequest();
      }
      if rq == None {
        if starved > cfg.writesStarved {
          dir := Write;
        }
        rq := ChooseRequest(dir);
      }
    }

    /** Returns how many requests went out: none exactly when nothing waits. */
    method DispatchRequests() returns (sent: nat)
      requires UniqueIds(fifoList)
      modifies this
      ensures View() == Step(cfg, old(View()), DispatchOp)
      ensures sent == if All(old(fifoList)) == [] then 0 else 1
      ensures |deviceQueue| == |old(deviceQueue)| + sent
    {
      ghost var s := View();
      var rq := RetrieveRequest();
      if rq == None {
        return 0;
      }
      DispatchRequest(rq.value, Chosen(cfg, s).value);
      return 1;
    }
  }
}
