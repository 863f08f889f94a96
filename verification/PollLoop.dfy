/** The poll loop over the four drivers, which share one output buffer. */
module PollLoop {
  import opened Basics
  import opened EventRing
  import opened SensorStreams
  import opened SingleSensor

  const NUM_DRIVERS := 4

  /**
   * A driver as the loop sees it. `unread` is what its ring holds; `taken` remembers everything
   * it ever read from its device.
   */
  datatype Driver =
    | Single(model: Model, event: SensorEvent, unread: seq<InputEvent>, taken: seq<InputEvent>)
    | Compass(enabled: set<int>, hasPending: bool, pending: Pending, unread: seq<InputEvent>, taken: seq<InputEvent>)
  {
    predicate Valid() {
      |unread| <= RING_EVENTS && (Compass? ==> pending.Valid())
    }

    /** What a read takes over of the events waiting on the device: as many as the ring has room for. */
    function Delivered(arrived: seq<InputEvent>): (taken: seq<InputEvent>)
      requires Valid()
      ensures |unread| + |taken| <= RING_EVENTS && taken <= arrived
    {
      Deliver(arrived, RING_EVENTS - |unread|)
    }

    predicate HasPendingEvents() {
      Compass? && hasPending
    }

    /** The devices are opened for blocking reads: with room in the ring and nothing on the device, `read` waits. */
    predicate MustWait(arrived: seq<InputEvent>) {
      !HasPendingEvents() && |unread| < RING_EVENTS && arrived == []
    }
  }

  /** What a `read` with this much room delivers of the events waiting on the device. */
  function Deliver(arrived: seq<InputEvent>, room: nat): (r: seq<InputEvent>)
    ensures r <= arrived && (r == arrived || |r| == room) && |r| <= room
  {
    if |arrived| <= room then arrived else arrived[..room]
  }

  datatype Reply = Reply(driver: Driver, out: seq<SensorEvent>)

  /** `readEvents` with room for `count` events, on a device where `arrived` waits, without an error. */
  function ReadEvents(d: Driver, arrived: seq<InputEvent>, now: int, count: nat): (r: Reply)
    requires d.Valid() && count > 0
    ensures r.driver.Valid() && |r.out| <= count
  {
    match d
    case Single(m, e, q, t) =>
      var a := d.Delivered(arrived);
      var s := Serve(m, e, q + a, count, []);
      Reply(Single(m, s.event, s.queue, t + a), s.out)
    case Compass(en, true, p, q, t) =>
      Reply(Compass(en, false, Shortcut(p, now), q, t), [p.events[TEMPERATURE].(timestamp := now)])
    case Compass(en, false, p, q, t) =>
      var a := d.Delivered(arrived);
      var s := Drain(en, p, q + a, count, []);
      Reply(Compass(en, false, s.pending, s.queue, t + a), s.out)
  }

  /** One event of the output, with the driver it came from. */
  datatype Output = Output(driver: int, event: SensorEvent)

  function Tagged(i: int, es: seq<SensorEvent>): (out: seq<Output>)
    ensures |out| == |es|
  {
    seq(|es|, k requires 0 <= k < |es| => Output(i, es[k]))
  }

  function Events(out: seq<Output>): (es: seq<SensorEvent>)
    ensures |es| == |out|
  {
    seq(|out|, k requires 0 <= k < |out| => out[k].event)
  }

  /** The loop state: drivers, POLLIN flags, and everything written to the caller's buffer. */
  datatype Context = Context(drivers: seq<Driver>, revents: seq<bool>, out: seq<Output>) {
    predicate Valid() {
      |drivers| == |revents| == NUM_DRIVERS && forall i :: 0 <= i < NUM_DRIVERS ==> drivers[i].Valid()
    }
  }

  /**
   * What the world does in one round: what a read of each device finds, and what `poll` reports. A device with nothing
   * to find keeps a read waiting; one that delivers after a wait is a device with something to find.
   */
  datatype Round = Round(arrived: seq<seq<InputEvent>>, now: int, answer: Answer)

  datatype Answer = Failed(errno: nat) | Ready(revents: seq<bool>, wake: bool) {
    predicate Valid() {
      match this
      case Failed(errno) => errno > 0
      case Ready(revents, _) => |revents| == NUM_DRIVERS
    }

    /** The return value of `poll` is positive. */
    predicate Some() {
      Ready? && (wake || true in revents)
    }
  }

  predicate ValidRounds(env: seq<Round>) {
    forall k :: 0 <= k < |env| ==> |env[k].arrived| == NUM_DRIVERS && env[k].answer.Valid()
  }

  predicate WantsRead(c: Context, i: nat)
    requires c.Valid() && i < NUM_DRIVERS
  {
    c.revents[i] || c.drivers[i].HasPendingEvents()
  }

  /** One driver's turn, with the buffer ending at `limit`. */
  function Turn(c: Context, arrived: seq<InputEvent>, now: int, i: nat, limit: nat): (r: Context)
    requires c.Valid() && i < NUM_DRIVERS && |c.out| < limit
    ensures r.Valid() && c.out <= r.out && |r.out| <= limit
  {
    if !WantsRead(c, i) then c
    else
      var r := ReadEvents(c.drivers[i], arrived, now, limit - |c.out|);
      Context(c.drivers[i := r.driver],
              if |r.out| < limit - |c.out| then c.revents[i := false] else c.revents,
              c.out + Tagged(i, r.out))
  }

  /** Where the `for` loop got to, and the driver that waits in `read`, if one does. */
  datatype Swept = Swept(context: Context, waits: Option<nat>)

  /** The call of driver `i` waits in `read`. */
  predicate StopsAt(c: Context, arrived: seq<InputEvent>, i: nat)
    requires c.Valid() && i < NUM_DRIVERS
  {
    WantsRead(c, i) && c.drivers[i].MustWait(arrived)
  }

  /** The `for` loop over the last `|arrived|` drivers: it ends early when the buffer is full or a read waits. */
  function Sweep(c: Context, arrived: seq<seq<InputEvent>>, now: int, limit: nat): (r: Swept)
    requires c.Valid() && |arrived| <= NUM_DRIVERS && |c.out| <= limit
    ensures r.context.Valid() && c.out <= r.context.out && |r.context.out| <= limit
    decreases |arrived|
  {
    if |c.out| == limit || arrived == [] then Swept(c, None)
    else
      var i := NUM_DRIVERS - |arrived|;
      if StopsAt(c, arrived[0], i) then Swept(c, Some(i))
      else Sweep(Turn(c, arrived[0], now, i, limit), arrived[1..], now, limit)
  }

  /**
   * `Blocked`: `poll` waits without a time limit and nothing is ready. `Waiting`: the read of a driver waits.
   * `Running`: the rounds given are used up.
   */
  datatype Ending = Returned | PollFailed(errno: nat) | Blocked | Waiting(driver: nat) | Running

  datatype Polled = Polled(context: Context, ending: Ending)

  /** What `poll` makes of a round that left `s`; `Running` sends the loop round again. */
  function Answered(s: Context, answer: Answer, start: nat, limit: nat): (r: Polled)
    requires s.Valid() && answer.Valid() && start <= |s.out| <= limit
    ensures r.context.Valid() && r.context.out == s.out && r.context.drivers == s.drivers && !r.ending.Waiting?
  {
    if |s.out| == limit then Polled(s, Returned)
    else if answer.Failed? then Polled(s, PollFailed(answer.errno))
    else if answer.Some() then Polled(s.(revents := answer.revents), Running)
    else if |s.out| == start then Polled(s, Blocked)
    else Polled(s.(revents := answer.revents), Returned)
  }

  /** One round of the `do` loop. */
  function Attempt(c: Context, w: Round, start: nat, limit: nat): (r: Polled)
    requires c.Valid() && |w.arrived| == NUM_DRIVERS && w.answer.Valid() && start <= |c.out| <= limit
    ensures r.context.Valid() && c.out <= r.context.out && |r.context.out| <= limit
  {
    var s := Sweep(c, w.arrived, w.now, limit);
    if s.waits.Some? then Polled(s.context, Waiting(s.waits.value))
    else Answered(s.context, w.answer, start, limit)
  }

  /** `pollEvents`, having started when `start` events had been written. */
  function Poll(c: Context, env: seq<Round>, start: nat, limit: nat): (r: Polled)
    requires c.Valid() && ValidRounds(env) && start <= |c.out| <= limit
    ensures r.context.Valid() && |r.context.out| <= limit
    decreases |env|
  {
    if env == [] then Polled(c, Running)
    else
      var r := Attempt(c, env[0], start, limit);
      if r.ending == Running then Poll(r.context, env[1..], start, limit) else r
  }

  // Nothing is left behind

  /** If the flag of driver `k` is clear, its ring is empty. */
  predicate Safe(c: Context, k: nat)
    requires c.Valid() && k < NUM_DRIVERS
  {
    c.revents[k] || c.drivers[k].unread == []
  }

  predicate NothingStranded(c: Context)
    requires c.Valid()
  {
    forall k: nat :: k < NUM_DRIVERS ==> Safe(c, k)
  }

  predicate NoShortcut(c: Context)
    requires c.Valid()
  {
    forall i :: 0 <= i < NUM_DRIVERS ==> !c.drivers[i].HasPendingEvents()
  }

  /** A driver that returns less than it had room for has emptied its ring, unless it took the shortcut. */
  lemma ShortReadEmptiesRing(d: Driver, arrived: seq<InputEvent>, now: int, count: nat)
    requires d.Valid() && count > 0 && !d.HasPendingEvents()
    ensures var r := ReadEvents(d, arrived, now, count);
            && (|r.out| < count ==> r.driver.unread == [])
            && !r.driver.HasPendingEvents()
  {
    match d
    case Single(m, e, q, t) => ServedNext(m, e, q + d.Delivered(arrived), count, []);
    case Compass(en, _, p, q, t) => CallStaysOnTheWay(en, p, q + d.Delivered(arrived), count, []);
  }

  /** Another driver's turn. */
  lemma TurnLeavesOthers(c: Context, arrived: seq<InputEvent>, now: int, i: nat, limit: nat, k: nat)
    requires c.Valid() && i < NUM_DRIVERS && |c.out| < limit && k < NUM_DRIVERS && k != i
    ensures var r := Turn(c, arrived, now, i, limit);
            r.drivers[k] == c.drivers[k] && r.revents[k] == c.revents[k]
  {
  }

  lemma TurnKeepsSafe(c: Context, arrived: seq<InputEvent>, now: int, i: nat, limit: nat, k: nat)
    requires c.Valid() && i < NUM_DRIVERS && |c.out| < limit && k < NUM_DRIVERS
    requires Safe(c, k) && !c.drivers[k].HasPendingEvents()
    ensures var r := Turn(c, arrived, now, i, limit);
            && Safe(r, k) && !r.drivers[k].HasPendingEvents()
            && (k == i && |r.out| < limit ==> r.drivers[k].unread == [])
            && (k != i ==> r.drivers[k] == c.drivers[k])
  {
    if k != i {
      TurnLeavesOthers(c, arrived, now, i, limit, k);
    } else if WantsRead(c, i) {
      ShortReadEmptiesRing(c.drivers[i], arrived, now, limit - |c.out|);
    }
  }

  lemma {:induction false} SweepKeepsSafe(c: Context, arrived: seq<seq<InputEvent>>, now: int, limit: nat, k: nat)
    requires c.Valid() && |arrived| <= NUM_DRIVERS && |c.out| <= limit && k < NUM_DRIVERS
    requires Safe(c, k) && !c.drivers[k].HasPendingEvents()
    requires |c.out| < limit && k < NUM_DRIVERS - |arrived| ==> c.drivers[k].unread == []
    ensures var r := Sweep(c, arrived, now, limit);
            && Safe(r.context, k) && !r.context.drivers[k].HasPendingEvents()
            && (r.waits.None? && |r.context.out| < limit ==> r.context.drivers[k].unread == [])
    decreases |arrived|
  {
    if |c.out| < limit && arrived != [] && !StopsAt(c, arrived[0], NUM_DRIVERS - |arrived|) {
      TurnKeepsSafe(c, arrived[0], now, NUM_DRIVERS - |arrived|, limit, k);
      SweepKeepsSafe(Turn(c, arrived[0], now, NUM_DRIVERS - |arrived|, limit), arrived[1..], now, limit, k);
    }
  }

  /** With room left at the end of the `for` loop every ring is empty, so `poll` may overwrite all flags. */
  lemma SweepStrandsNothing(c: Context, arrived: seq<seq<InputEvent>>, now: int, limit: nat)
    requires c.Valid() && |arrived| == NUM_DRIVERS && |c.out| <= limit && NothingStranded(c) && NoShortcut(c)
    ensures var r := Sweep(c, arrived, now, limit);
            && NothingStranded(r.context) && NoShortcut(r.context)
            && (r.waits.None? && |r.context.out| < limit ==>
                  forall k :: 0 <= k < NUM_DRIVERS ==> r.context.drivers[k].unread == [])
  {
    forall k: nat | k < NUM_DRIVERS
      ensures var r := Sweep(c, arrived, now, limit);
              && Safe(r.context, k) && !r.context.drivers[k].HasPendingEvents()
              && (r.waits.None? && |r.context.out| < limit ==> r.context.drivers[k].unread == [])
    {
      SweepKeepsSafe(c, arrived, now, limit, k);
    }
  }

  lemma AttemptKeepsSafe(c: Context, w: Round, start: nat, limit: nat, k: nat)
    requires c.Valid() && |w.arrived| == NUM_DRIVERS && w.answer.Valid() && start <= |c.out| <= limit
    requires k < NUM_DRIVERS && Safe(c, k) && !c.drivers[k].HasPendingEvents()
    ensures var r := Attempt(c, w, start, limit).context; Safe(r, k) && !r.drivers[k].HasPendingEvents()
  {
    SweepKeepsSafe(c, w.arrived, w.now, limit, k);
  }

  lemma {:induction false} PollKeepsSafe(c: Context, env: seq<Round>, start: nat, limit: nat, k: nat)
    requires c.Valid() && ValidRounds(env) && start <= |c.out| <= limit
    requires k < NUM_DRIVERS && Safe(c, k) && !c.drivers[k].HasPendingEvents()
    ensures var r := Poll(c, env, start, limit).context; Safe(r, k) && !r.drivers[k].HasPendingEvents()
    decreases |env|
  {
    if env != [] {
      AttemptKeepsSafe(c, env[0], start, limit, k);
      var r := Attempt(c, env[0], start, limit);
      if r.ending == Running {
        PollKeepsSafe(r.context, env[1..], start, limit, k);
      }
    }
  }

  /** A driver whose flag is clear has an empty ring, after any call without a pending temperature. */
  lemma PollStrandsNothing(c: Context, env: seq<Round>, start: nat, limit: nat)
    requires c.Valid() && ValidRounds(env) && start <= |c.out| <= limit && NothingStranded(c) && NoShortcut(c)
    ensures var r := Poll(c, env, start, limit).context;
            NothingStranded(r) && NoShortcut(r)
  {
    forall k: nat | k < NUM_DRIVERS
      ensures var r := Poll(c, env, start, limit).context; Safe(r, k) && !r.drivers[k].HasPendingEvents()
    {
      PollKeepsSafe(c, env, start, limit, k);
    }
  }

  /** `poll` is left to wait without a time limit only while nothing was produced in the call. */
  lemma {:induction false} BlocksOnlyEmptyHanded(c: Context, env: seq<Round>, start: nat, limit: nat)
    requires c.Valid() && ValidRounds(env) && start <= |c.out| <= limit
    ensures var r := Poll(c, env, start, limit);
            && c.out <= r.context.out
            && (r.ending == Blocked ==> |r.context.out| == start < limit)
            && (r.ending == Returned ==> |r.context.out| == limit || |r.context.out| > start)
    decreases |env|
  {
    if env != [] {
      var r := Attempt(c, env[0], start, limit);
      if r.ending == Running {
        BlocksOnlyEmptyHanded(r.context, env[1..], start, limit);
      }
    }
  }

  // End to end

  function From(out: seq<Output>, i: int): seq<SensorEvent> {
    if out == [] then []
    else if out[|out| - 1].driver == i then From(out[..|out| - 1], i) + [out[|out| - 1].event]
    else From(out[..|out| - 1], i)
  }

  /** The reference stream of a driver that started as `d0` and was fed `d.taken`. */
  function Reference(d0: Driver, taken: seq<InputEvent>): seq<SensorEvent>
    requires d0.Valid()
  {
    match d0
    case Single(m, e, _, _) => SinglePass(m, e, taken, [])
    case Compass(en, _, p, _, _) => OnePass(en, p, taken, [])
  }

  /** Having emitted `sent`, the driver still owes exactly the rest of its reference stream. */
  predicate Faithful(d0: Driver, d: Driver, sent: seq<SensorEvent>)
    requires d0.Valid() && d.Valid()
  {
    match d0
    case Single(m, e, _, _) =>
      d.Single? && d.model == m && SinglePass(m, d.event, d.unread, sent) == Reference(d0, d.taken)
      && SingleFinal(m, d.event, d.unread) == SingleFinal(m, e, d.taken)
    case Compass(en, _, p, _, _) =>
      d.Compass? && d.enabled == en && OnePass(en, d.pending, d.unread, sent) == Reference(d0, d.taken)
      && Final(d.pending, d.unread) == Final(p, d.taken)
  }

  /** What a faithful driver sent is a prefix of its reference stream: all of it once the ring is empty. */
  lemma FaithfulMeansPrefix(d0: Driver, d: Driver, sent: seq<SensorEvent>)
    requires d0.Valid() && d.Valid() && Faithful(d0, d, sent)
    ensures sent <= Reference(d0, d.taken)
    ensures d.unread == [] ==> sent == Reference(d0, d.taken)
  {
    match d
    case Single(m, e, q, _) => SinglePassExtends(m, e, q, sent);
    case Compass(en, _, p, q, _) => OnePassExtends(en, p, q, sent);
  }

  lemma ReadStaysFaithful(d0: Driver, d: Driver, sent: seq<SensorEvent>, arrived: seq<InputEvent>, now: int, count: nat)
    requires d0.Valid() && d.Valid() && Faithful(d0, d, sent) && count > 0 && !d.HasPendingEvents()
    ensures var r := ReadEvents(d, arrived, now, count); Faithful(d0, r.driver, sent + r.out)
  {
    var a := d.Delivered(arrived);
    match d
    case Single(m, e, q, t) =>
      ServedNext(m, e, q + a, count, sent);
      SinglePassAppends(m, e, q, a, sent);
      SinglePassAppends(m, d0.event, t, a, []);
    case Compass(en, _, p, q, t) =>
      CallStaysOnTheWay(en, p, q + a, count, sent);
      OnePassAppends(en, p, q, a, sent);
      OnePassAppends(en, d0.pending, t, a, []);
  }

  lemma FromAppend(out: seq<Output>, o: Output, k: int)
    ensures From(out + [o], k) == if o.driver == k then From(out, k) + [o.event] else From(out, k)
  {
    var all := out + [o];
    assert all[..|all| - 1] == out;
  }

  lemma TaggedSplits(out: seq<Output>, i: int, es: seq<SensorEvent>, n: nat)
    requires |es| == n + 1
    ensures out + Tagged(i, es) == (out + Tagged(i, es[..n])) + [Output(i, es[n])]
  {
  }

  lemma {:induction false} FromTagged(out: seq<Output>, i: int, es: seq<SensorEvent>, k: int)
    ensures From(out + Tagged(i, es), k) == if k == i then From(out, k) + es else From(out, k)
    decreases |es|
  {
    if es == [] {
      assert out + Tagged(i, es) == out;
    } else {
      var n := |es| - 1;
      FromTagged(out, i, es[..n], k);
      FromAppend(out + Tagged(i, es[..n]), Output(i, es[n]), k);
      TaggedSplits(out, i, es, n);
      assert es == es[..n] + [es[n]];
    }
  }

  predicate AllFaithful(c0: Context, c: Context)
    requires c0.Valid() && c.Valid()
  {
    forall i :: 0 <= i < NUM_DRIVERS ==> Faithful(c0.drivers[i], c.drivers[i], From(c.out, i))
  }

  lemma TurnStaysFaithful(c0: Context, c: Context, arrived: seq<InputEvent>, now: int, i: nat, limit: nat)
    requires c0.Valid() && c.Valid() && i < NUM_DRIVERS && |c.out| < limit && AllFaithful(c0, c) && NoShortcut(c)
    ensures AllFaithful(c0, Turn(c, arrived, now, i, limit)) && NoShortcut(Turn(c, arrived, now, i, limit))
  {
    if WantsRead(c, i) {
      var room := limit - |c.out|;
      var r := ReadEvents(c.drivers[i], arrived, now, room);
      ReadStaysFaithful(c0.drivers[i], c.drivers[i], From(c.out, i), arrived, now, room);
      ShortReadEmptiesRing(c.drivers[i], arrived, now, room);
      ReplyStaysFaithful(c0, c, i, r, Turn(c, arrived, now, i, limit));
    }
  }

  lemma ReplyStaysFaithful(c0: Context, c: Context, i: nat, r: Reply, c': Context)
    requires c0.Valid() && c.Valid() && c'.Valid() && i < NUM_DRIVERS && AllFaithful(c0, c) && NoShortcut(c)
    requires r.driver.Valid() && !r.driver.HasPendingEvents()
    requires Faithful(c0.drivers[i], r.driver, From(c.out, i) + r.out)
    requires c'.drivers == c.drivers[i := r.driver] && c'.out == c.out + Tagged(i, r.out)
    ensures AllFaithful(c0, c') && NoShortcut(c')
  {
    forall k | 0 <= k < NUM_DRIVERS ensures Faithful(c0.drivers[k], c'.drivers[k], From(c'.out, k)) {
      FromTagged(c.out, i, r.out, k);
      assert Faithful(c0.drivers[k], c.drivers[k], From(c.out, k));
    }
  }

  lemma {:induction false} SweepStaysFaithful(c0: Context, c: Context, arrived: seq<seq<InputEvent>>, now: int,
                                              limit: nat)
    requires c0.Valid() && c.Valid() && |arrived| <= NUM_DRIVERS && |c.out| <= limit
    requires AllFaithful(c0, c) && NoShortcut(c)
    ensures var r := Sweep(c, arrived, now, limit).context; AllFaithful(c0, r) && NoShortcut(r)
    decreases |arrived|
  {
    if |c.out| < limit && arrived != [] && !StopsAt(c, arrived[0], NUM_DRIVERS - |arrived|) {
      TurnStaysFaithful(c0, c, arrived[0], now, NUM_DRIVERS - |arrived|, limit);
      SweepStaysFaithful(c0, Turn(c, arrived[0], now, NUM_DRIVERS - |arrived|, limit), arrived[1..], now, limit);
    }
  }

  predicate Sound(c0: Context, c: Context)
    requires c0.Valid() && c.Valid()
  {
    AllFaithful(c0, c) && NothingStranded(c) && NoShortcut(c)
  }

  lemma RoundStaysSound(c0: Context, c: Context, w: Round, start: nat, limit: nat, r: Polled)
    requires c0.Valid() && c.Valid() && |w.arrived| == NUM_DRIVERS && w.answer.Valid() && start <= |c.out| <= limit
    requires Sound(c0, c) && r == Attempt(c, w, start, limit)
    ensures Sound(c0, r.context)
  {
    SweepStaysFaithful(c0, c, w.arrived, w.now, limit);
    SweepStrandsNothing(c, w.arrived, w.now, limit);
  }

  lemma {:induction false} PollStaysSound(c0: Context, c: Context, env: seq<Round>, start: nat, limit: nat)
    requires c0.Valid() && c.Valid() && ValidRounds(env) && start <= |c.out| <= limit && Sound(c0, c)
    ensures Sound(c0, Poll(c, env, start, limit).context)
    decreases |env|
  {
    if env != [] {
      var r := Attempt(c, env[0], start, limit);
      RoundStaysSound(c0, c, env[0], start, limit, r);
      if r.ending == Running {
        PollStaysSound(c0, r.context, env[1..], start, limit);
      }
    }
  }

  /** One `pollEvents` call of a session, with room for `count` events. */
  datatype PollCall = PollCall(env: seq<Round>, count: nat)

  predicate ValidSession(calls: seq<PollCall>) {
    forall k :: 0 <= k < |calls| ==> ValidRounds(calls[k].env)
  }

  function Fetched(c: Context, call: PollCall): (r: Context)
    requires c.Valid() && ValidRounds(call.env)
    ensures r.Valid()
  {
    Poll(c, call.env, |c.out|, |c.out| + call.count).context
  }

  function Session(c: Context, calls: seq<PollCall>): (r: Context)
    requires c.Valid() && ValidSession(calls)
    ensures r.Valid()
    decreases |calls|
  {
    if calls == [] then c else Session(Fetched(c, calls[0]), calls[1..])
  }

  lemma FetchedStaysSound(c0: Context, c: Context, call: PollCall, start: nat, limit: nat, c': Context)
    requires c0.Valid() && c.Valid() && ValidRounds(call.env) && Sound(c0, c)
    requires start == |c.out| && limit == start + call.count && c' == Poll(c, call.env, start, limit).context
    ensures c' == Fetched(c, call) && Sound(c0, c')
  {
    PollStaysSound(c0, c, call.env, start, limit);
  }

  lemma {:induction false} SessionStaysSound(c0: Context, c: Context, calls: seq<PollCall>, r: Context)
    requires c0.Valid() && c.Valid() && ValidSession(calls) && Sound(c0, c) && r == Session(c, calls)
    ensures Sound(c0, r)
    decreases |calls|
  {
    if calls != [] {
      var start, limit := |c.out|, |c.out| + calls[0].count;
      var c' := Poll(c, calls[0].env, start, limit).context;
      FetchedStaysSound(c0, c, calls[0], start, limit, c');
      SessionStaysSound(c0, c', calls[1..], r);
    }
  }

  /** Drivers that have read and written nothing yet. */
  predicate Fresh(c: Context)
    requires c.Valid()
  {
    c.out == [] && NoShortcut(c) &&
    forall i :: 0 <= i < NUM_DRIVERS ==> c.drivers[i].unread == [] && c.drivers[i].taken == []
  }

  /**
   * Whatever the sizes of the rings, the reads and the buffers, and however the drivers take turns: each driver's
   * share of the output is a prefix of its one-pass stream, the whole of it when its flag is clear.
   */
  lemma EndToEnd(c: Context, calls: seq<PollCall>, i: nat)
    requires c.Valid() && Fresh(c) && ValidSession(calls) && i < NUM_DRIVERS
    ensures var r := Session(c, calls);
            && From(r.out, i) <= Reference(c.drivers[i], r.drivers[i].taken)
            && (!r.revents[i] ==> From(r.out, i) == Reference(c.drivers[i], r.drivers[i].taken))
  {
    var r := Session(c, calls);
    SessionStaysSound(c, c, calls, r);
    assert Safe(r, i);
    FaithfulMeansPrefix(c.drivers[i], r.drivers[i], From(r.out, i));
  }
}
