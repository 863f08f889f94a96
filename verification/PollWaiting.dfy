/** When a call waits in the `read` of a driver, and what it has produced by then. */
module PollWaiting {
  import opened Basics
  import opened EventRing
  import opened SensorStreams
  import opened SingleSensor
  import opened PollLoop
  import opened PollShortcut

  /**
   * The `for` loop waits in the `read` of driver `i` if and only if it comes to it with room left, its flag is up and
   * no shortcut pending, its ring has room and its device has nothing.
   */
  lemma WaitsExactly(c: Context, arrived: seq<seq<InputEvent>>, now: int, limit: nat, i: nat)
    requires c.Valid() && |arrived| == NUM_DRIVERS && |c.out| <= limit && i < NUM_DRIVERS
    ensures Sweep(c, arrived, now, limit).waits == Some(i) <==>
            && RoomFor(c, arrived, now, i, limit) > 0 && c.revents[i] && !c.drivers[i].HasPendingEvents()
            && |c.drivers[i].unread| < RING_EVENTS && arrived[i] == []
  {
    var s := FirstTurns(c, arrived, now, i, limit);
    SweepGoesOn(c, arrived, now, i, limit);
    FirstTurnsLeaveOthers(c, arrived, now, i, limit, i);
    if s.waits.None? && |s.context.out| < limit {
      assert arrived[i..][0] == arrived[i];
      if !StopsAt(s.context, arrived[i], i) {
        RestLeavesDriver(Turn(s.context, arrived[i], now, i, limit), arrived[i..][1..], now, limit, i);
      }
    }
  }

  // A `poll` that tells the truth

  /** A device that `poll` has reported, and that was not read since, has something to read. */
  predicate Truthful(arrived: seq<seq<InputEvent>>, known: seq<bool>)
    requires |known| == NUM_DRIVERS && |arrived| <= NUM_DRIVERS
  {
    forall i :: 0 <= i < |arrived| && known[NUM_DRIVERS - |arrived| + i] ==> arrived[i] != []
  }

  /** What is known of the devices after the `for` loop over the last `|arrived|` drivers. */
  function KnownAfter(c: Context, arrived: seq<seq<InputEvent>>, now: int, limit: nat, known: seq<bool>)
      : (r: seq<bool>)
    requires c.Valid() && |arrived| <= NUM_DRIVERS && |c.out| <= limit && |known| == NUM_DRIVERS
    ensures |r| == NUM_DRIVERS
    decreases |arrived|
  {
    var i := NUM_DRIVERS - |arrived|;
    if |c.out| == limit || arrived == [] || StopsAt(c, arrived[0], i) then known
    else
      KnownAfter(Turn(c, arrived[0], now, i, limit), arrived[1..], now, limit,
                 if c.revents[i] && !c.drivers[i].HasPendingEvents() then known[i := false] else known)
  }

  /** From driver `k` on, only those have their flag up whose device is known to have something; before, none has. */
  predicate AllKnown(c: Context, known: seq<bool>, k: nat)
    requires c.Valid() && |known| == NUM_DRIVERS && k <= NUM_DRIVERS
  {
    && (forall i :: 0 <= i < k ==> !c.revents[i])
    && forall i :: k <= i < NUM_DRIVERS && c.revents[i] ==> known[i]
  }

  /** Only the first driver with its flag up can have a device of which nothing is known. */
  predicate FirstUnknown(c: Context, known: seq<bool>)
    requires c.Valid() && |known| == NUM_DRIVERS
  {
    forall i, j :: 0 <= j < i < NUM_DRIVERS && c.revents[j] && c.revents[i] ==> known[i]
  }

  /** With every flag known the loop waits nowhere, and leaves the first flag, if any, the only unknown one. */
  lemma {:induction false} KnownNeverWaits(c: Context, arrived: seq<seq<InputEvent>>, now: int, limit: nat,
                                           known: seq<bool>)
    requires c.Valid() && |arrived| <= NUM_DRIVERS && |c.out| <= limit && |known| == NUM_DRIVERS && NoShortcut(c)
    requires Truthful(arrived, known) && AllKnown(c, known, NUM_DRIVERS - |arrived|)
    ensures var r := Sweep(c, arrived, now, limit);
            r.waits.None? && NoShortcut(r.context) && FirstUnknown(r.context, KnownAfter(c, arrived, now, limit, known))
    decreases |arrived|
  {
    if |c.out| < limit && arrived != [] {
      var i := NUM_DRIVERS - |arrived|;
      var known' := if c.revents[i] then known[i := false] else known;
      var t := Turn(c, arrived[0], now, i, limit);
      if |t.out| < limit {
        KnownNeverWaits(t, arrived[1..], now, limit, known');
      }
    }
  }

  /** With only the first flag unknown, the loop waits, if at all, before it has produced anything. */
  lemma {:induction false} WaitsFirst(c: Context, arrived: seq<seq<InputEvent>>, now: int, limit: nat,
                                      known: seq<bool>)
    requires c.Valid() && |arrived| <= NUM_DRIVERS && |c.out| <= limit && |known| == NUM_DRIVERS && NoShortcut(c)
    requires Truthful(arrived, known) && FirstUnknown(c, known)
    requires forall i :: 0 <= i < NUM_DRIVERS - |arrived| ==> !c.revents[i]
    ensures var r := Sweep(c, arrived, now, limit);
            && (r.waits.Some? ==> r.context == c)
            && NoShortcut(r.context) && FirstUnknown(r.context, KnownAfter(c, arrived, now, limit, known))
    decreases |arrived|
  {
    if |c.out| < limit && arrived != [] {
      var i := NUM_DRIVERS - |arrived|;
      if !c.revents[i] {
        WaitsFirst(c, arrived[1..], now, limit, known);
      } else if !StopsAt(c, arrived[0], i) {
        var t := Turn(c, arrived[0], now, i, limit);
        if |t.out| < limit {
          KnownNeverWaits(t, arrived[1..], now, limit, known[i := false]);
        }
      }
    }
  }

  /** Every round of the call tells the truth; after an answer of `poll`, what it reports is what is known. */
  predicate TruthfulCall(c: Context, env: seq<Round>, start: nat, limit: nat, known: seq<bool>)
    requires c.Valid() && ValidRounds(env) && start <= |c.out| <= limit && |known| == NUM_DRIVERS
    decreases |env|
  {
    env == [] ||
    (&& Truthful(env[0].arrived, known)
     && var r := Attempt(c, env[0], start, limit);
        r.ending == Running ==> TruthfulCall(r.context, env[1..], start, limit, env[0].answer.revents))
  }

  function KnownAfterCall(c: Context, env: seq<Round>, start: nat, limit: nat, known: seq<bool>): (r: seq<bool>)
    requires c.Valid() && ValidRounds(env) && start <= |c.out| <= limit && |known| == NUM_DRIVERS
    ensures |r| == NUM_DRIVERS
    decreases |env|
  {
    if env == [] then known
    else
      var r := Attempt(c, env[0], start, limit);
      if r.ending == Running then KnownAfterCall(r.context, env[1..], start, limit, env[0].answer.revents)
      else KnownAfter(c, env[0].arrived, env[0].now, limit, known)
  }

  lemma {:induction false} KnownCallNeverWaits(c: Context, env: seq<Round>, start: nat, limit: nat, known: seq<bool>)
    requires c.Valid() && ValidRounds(env) && start <= |c.out| <= limit && |known| == NUM_DRIVERS && NoShortcut(c)
    requires AllKnown(c, known, 0) && TruthfulCall(c, env, start, limit, known)
    ensures var r := Poll(c, env, start, limit);
            && !r.ending.Waiting? && NoShortcut(r.context)
            && FirstUnknown(r.context, KnownAfterCall(c, env, start, limit, known))
    decreases |env|
  {
    if env != [] {
      KnownNeverWaits(c, env[0].arrived, env[0].now, limit, known);
      var r := Attempt(c, env[0], start, limit);
      if r.ending == Running {
        KnownCallNeverWaits(r.context, env[1..], start, limit, env[0].answer.revents);
      }
    }
  }

  /** A call without a pending temperature waits in `read`, if at all, before it has produced anything. */
  lemma CallWaitsFirst(c: Context, env: seq<Round>, start: nat, limit: nat, known: seq<bool>)
    requires c.Valid() && ValidRounds(env) && start == |c.out| <= limit && |known| == NUM_DRIVERS && NoShortcut(c)
    requires FirstUnknown(c, known) && TruthfulCall(c, env, start, limit, known)
    ensures var r := Poll(c, env, start, limit);
            && (r.ending.Waiting? ==> r.context == c) && NoShortcut(r.context)
            && FirstUnknown(r.context, KnownAfterCall(c, env, start, limit, known))
  {
    if env != [] {
      WaitsFirst(c, env[0].arrived, env[0].now, limit, known);
      var r := Attempt(c, env[0], start, limit);
      if r.ending == Running {
        KnownCallNeverWaits(r.context, env[1..], start, limit, env[0].answer.revents);
      }
    }
  }

  // Over a session

  predicate TruthfulSession(c: Context, calls: seq<PollCall>, known: seq<bool>)
    requires c.Valid() && ValidSession(calls) && |known| == NUM_DRIVERS
    decreases |calls|
  {
    calls == [] ||
    var start, limit := |c.out|, |c.out| + calls[0].count;
    && TruthfulCall(c, calls[0].env, start, limit, known)
    && TruthfulSession(Fetched(c, calls[0]), calls[1..], KnownAfterCall(c, calls[0].env, start, limit, known))
  }

  /** No call of the session waits, in `poll` or in a `read`, once it has produced an event. */
  predicate WaitsEmptyHanded(c: Context, calls: seq<PollCall>)
    requires c.Valid() && ValidSession(calls)
    decreases |calls|
  {
    calls == [] ||
    var r := Poll(c, calls[0].env, |c.out|, |c.out| + calls[0].count);
    && (r.ending.Waiting? || r.ending == Blocked ==> r.context.out == c.out)
    && WaitsEmptyHanded(Fetched(c, calls[0]), calls[1..])
  }

  lemma {:induction false} TruthfulWaits(c: Context, calls: seq<PollCall>, known: seq<bool>)
    requires c.Valid() && ValidSession(calls) && |known| == NUM_DRIVERS && NoShortcut(c) && FirstUnknown(c, known)
    requires TruthfulSession(c, calls, known)
    ensures WaitsEmptyHanded(c, calls)
    decreases |calls|
  {
    if calls != [] {
      var start, limit := |c.out|, |c.out| + calls[0].count;
      CallWaitsFirst(c, calls[0].env, start, limit, known);
      BlocksOnlyEmptyHanded(c, calls[0].env, start, limit);
      TruthfulWaits(Fetched(c, calls[0]), calls[1..], KnownAfterCall(c, calls[0].env, start, limit, known));
    }
  }

  /** With no temperature pending and a `poll` that tells the truth, no call that has produced an event waits. */
  lemma SessionWaitsEmptyHanded(c: Context, calls: seq<PollCall>)
    requires c.Valid() && Fresh(c) && c.revents == NO_FLAGS && ValidSession(calls)
    requires TruthfulSession(c, calls, NO_FLAGS)
    ensures WaitsEmptyHanded(c, calls)
  {
    TruthfulWaits(c, calls, NO_FLAGS);
  }

  // With a temperature pending it can wait with an event produced

  const PROXIMITY := 2
  const PROXIMITY_FLAG := [false, false, true, false]
  const DISTANCE := InputEvent(Abs, ABS_DISTANCE, 1, 0, 0)
  const TWO_DISTANCES := [DISTANCE, SYNC, DISTANCE, SYNC]
  const BUSY_PROXIMITY: seq<seq<InputEvent>> := [[], [], TWO_DISTANCES, []]
  const NEAR := Round(IDLE, 0, Ready(PROXIMITY_FLAG, false))
  const READ_NEAR := Round(BUSY_PROXIMITY, 0, Ready(NO_FLAGS, false))

  const FETCH_NEAR := PollCall([NEAR, READ_NEAR], 1)
  const FETCH_THREE := PollCall([SILENCE], 3)

  lemma {:induction false} IdleTurns(c: Context, arrived: seq<seq<InputEvent>>, now: int, k: nat, limit: nat)
    requires c.Valid() && |arrived| == NUM_DRIVERS && k <= NUM_DRIVERS && |c.out| <= limit
    requires forall i :: 0 <= i < k ==> !WantsRead(c, i)
    ensures FirstTurns(c, arrived, now, k, limit) == Swept(c, None)
    decreases k
  {
    if k > 0 {
      IdleTurns(c, arrived, now, k - 1, limit);
    }
  }

  lemma FirstDistanceOnly(p: SensorEvent, q: seq<InputEvent>, count: nat)
    requires q == TWO_DISTANCES && count == 1
    ensures var r := Serve(ISL29030P, p, q, count, []); r.queue == q[2..] && |r.out| == 1
  {
    var p1 := Passed(ISL29030P, p, q[0]);
    var out := [p1.(timestamp := q[1].Nanos())];
    assert Serve(ISL29030P, p, q, count, []) == Serve(ISL29030P, p1, q[1..], count, []);
    assert q[1..][0] == q[1] && q[1..][1..] == q[2..];
    assert [] + out == out;
    assert Serve(ISL29030P, p1, q[1..], count, []) == Serve(ISL29030P, Passed(ISL29030P, p1, q[1]), q[2..], count, out);
  }

  /** Of the two distances the second is still in the ring. */
  predicate OneLeft(d: Driver) {
    d.Single? && d.unread == [DISTANCE, SYNC]
  }

  lemma SingleReads(d: Driver, arrived: seq<InputEvent>, now: int, room: nat, q: seq<InputEvent>)
    requires d.Valid() && d.Single? && room > 0 && q == d.unread + d.Delivered(arrived)
    ensures var r, s := ReadEvents(d, arrived, now, room), Serve(d.model, d.event, q, room, []);
            r.out == s.out && r.driver.Single? && r.driver.unread == s.queue
  {
  }

  /** One distance of two is read from the device, the other stays in the ring. */
  lemma ProximityReadsOne(d: Driver, p: SensorEvent, t: seq<InputEvent>, arrived: seq<InputEvent>, now: int, room: nat)
    requires d == Single(ISL29030P, p, [], t) && arrived == TWO_DISTANCES && room == 1
    ensures var r := ReadEvents(d, arrived, now, room);
            |r.out| == 1 && OneLeft(r.driver)
  {
    var q := d.unread + d.Delivered(arrived);
    assert q == arrived;
    SingleReads(d, arrived, now, room, q);
    FirstDistanceOnly(p, q, room);
  }

  /** The proximity driver has a turn with one place left. */
  lemma ProximityTurn(c: Context, arrived: seq<InputEvent>, now: int, limit: nat, p: SensorEvent,
                      taken: seq<InputEvent>)
    requires c.Valid() && limit == |c.out| + 1 && c.revents == PROXIMITY_FLAG && arrived == TWO_DISTANCES
    requires c.drivers[PROXIMITY] == Single(ISL29030P, p, [], taken)
    ensures var t := Turn(c, arrived, now, PROXIMITY, limit);
            && |t.out| == limit && t.revents == PROXIMITY_FLAG && OneLeft(t.drivers[PROXIMITY])
            && t.drivers[0] == c.drivers[0] && t.drivers[COMPASS] == c.drivers[COMPASS]
  {
    ProximityReadsOne(c.drivers[PROXIMITY], p, taken, arrived, now, limit - |c.out|);
  }

  /** The loop comes to driver `k` as it began, when no driver before it wants a read. */
  lemma LoopComesTo(c: Context, arrived: seq<seq<InputEvent>>, now: int, k: nat, limit: nat)
    requires c.Valid() && |arrived| == NUM_DRIVERS && k < NUM_DRIVERS && |c.out| < limit
    requires forall i :: 0 <= i < k ==> !WantsRead(c, i)
    ensures RoomFor(c, arrived, now, k, limit) == limit - |c.out|
    ensures !StopsAt(c, arrived[k], k) ==>
              Sweep(c, arrived, now, limit) ==
              Sweep(Turn(c, arrived[k], now, k, limit), arrived[k + 1..], now, limit)
  {
    IdleTurns(c, arrived, now, k, limit);
    SweepGoesOn(c, arrived, now, k, limit);
    assert arrived[k..][0] == arrived[k] && arrived[k..][1..] == arrived[k + 1..];
  }

  /** A call with room for one event leaves the second distance in the ring, the flag still up. */
  lemma ProximityFills(c: Context, w: Round, start: nat, limit: nat, p: SensorEvent, taken: seq<InputEvent>)
    requires c.Valid() && w.arrived == BUSY_PROXIMITY && w.answer.Valid() && start == |c.out| && limit == start + 1
    requires c.revents == PROXIMITY_FLAG && NoShortcut(c)
    requires c.drivers[PROXIMITY] == Single(ISL29030P, p, [], taken)
    ensures var r := Attempt(c, w, start, limit);
            && r.ending == Returned && r.context.revents == PROXIMITY_FLAG
            && r.context.drivers[0] == c.drivers[0] && r.context.drivers[COMPASS] == c.drivers[COMPASS]
            && OneLeft(r.context.drivers[PROXIMITY])
  {
    LoopComesTo(c, w.arrived, w.now, PROXIMITY, limit);
    ProximityTurn(c, w.arrived[PROXIMITY], w.now, limit, p, taken);
  }

  /** `poll` reports the proximity device to a call that finds no flag up. */
  lemma NearIsReported(c: Context, w: Round, start: nat, limit: nat)
    requires c.Valid() && c.revents == NO_FLAGS && NoShortcut(c) && w == NEAR && start == |c.out| < limit
    ensures Attempt(c, w, start, limit) == Polled(c.(revents := PROXIMITY_FLAG), Running)
  {
    NobodyReads(c, w.arrived, w.now, limit);
    assert w.answer.revents[PROXIMITY];
  }

  lemma FetchNear(c: Context, rounds: seq<Round>, p: SensorEvent, taken: seq<InputEvent>)
    requires c.Valid() && c.revents == NO_FLAGS && NoShortcut(c) && rounds == FETCH_NEAR.env
    requires c.drivers[PROXIMITY] == Single(ISL29030P, p, [], taken)
    ensures var r := Fetched(c, FETCH_NEAR);
            && r.revents == PROXIMITY_FLAG && r.drivers[0] == c.drivers[0] && r.drivers[COMPASS] == c.drivers[COMPASS]
            && OneLeft(r.drivers[PROXIMITY])
  {
    var start, limit := |c.out|, |c.out| + 1;
    var c1 := c.(revents := PROXIMITY_FLAG);
    NearIsReported(c, rounds[0], start, limit);
    ProximityFills(c1, rounds[1], start, limit, p, taken);
    var rest := rounds[1..];
    assert rest[0] == rounds[1];
    assert Poll(c, rounds, start, limit) == Poll(c1, rest, start, limit) == Attempt(c1, rounds[1], start, limit);
  }

  lemma ThenProximityWaits(c: Context, rounds: seq<Round>, start: nat, limit: nat)
    requires c.Valid() && c.revents == PROXIMITY_FLAG && !c.drivers[0].HasPendingEvents()
    requires c.drivers[COMPASS].HasPendingEvents() && c.drivers[COMPASS].unread == []
    requires OneLeft(c.drivers[PROXIMITY])
    requires rounds == FETCH_THREE.env && start == |c.out| && limit == start + 3
    ensures var r := Poll(c, rounds, start, limit);
            r.ending == Waiting(PROXIMITY) && |r.context.out| == start + 1 && OneLeft(r.context.drivers[PROXIMITY])
  {
  }

  lemma WaitingRun(c: Context, acts: seq<Act>, p: SensorEvent, taken: seq<InputEvent>, start: nat, limit: nat)
    requires c.Valid() && c.revents == NO_FLAGS && NoShortcut(c) && ValidActs(acts) && |acts| == 2
    requires c.drivers[PROXIMITY] == Single(ISL29030P, p, [], taken)
    requires c.drivers[COMPASS].Compass? && c.drivers[COMPASS].enabled == {} && c.drivers[COMPASS].unread == []
    requires acts[0] == Fetch(FETCH_NEAR) && acts[1] == Enable(TEMPERATURE, true, true)
    requires start == |Live(c, acts).out| && limit == start + 3
    ensures var r := Poll(Live(c, acts), FETCH_THREE.env, start, limit);
            r.ending == Waiting(PROXIMITY) && |r.context.out| == start + 1 && OneLeft(r.context.drivers[PROXIMITY])
  {
    FetchNear(c, FETCH_NEAR.env, p, taken);
    var c1 := Acted(c, acts[0]);
    var c2 := Acted(c1, acts[1]);
    var rest := acts[1..];
    assert Live(c1, rest) == Live(Acted(c1, rest[0]), rest[1..]) == c2;
    ThenProximityWaits(c2, FETCH_THREE.env, start, limit);
  }

  /**
   * One event of two is fetched from the proximity device, the temperature is switched on, and up to three events are
   * asked for: from a fresh start the call waits in the `read` of the proximity driver, with one event produced and
   * two more to be read in its ring.
   */
  lemma WaitsWithEventProduced(acts: seq<Act>)
    requires acts == [Fetch(FETCH_NEAR), Enable(TEMPERATURE, true, true)]
    ensures START.Valid() && Fresh(START) && ValidActs(acts)
    ensures var c := Live(START, acts);
            var r := Poll(c, FETCH_THREE.env, |c.out|, |c.out| + FETCH_THREE.count);
            && r.ending == Waiting(PROXIMITY) && |r.context.out| == |c.out| + 1
            && r.context.drivers[PROXIMITY].unread == [DISTANCE, SYNC]
  {
    StartIsFresh(START);
    var start := |Live(START, acts).out|;
    WaitingRun(START, acts, BLANK, [], start, start + 3);
  }
}
