/** The temperature shortcut of the compass driver, and when it leaves unread events behind. */
module PollShortcut {
  import opened Basics
  import opened EventRing
  import opened SensorStreams
  import opened SingleSensor
  import opened PollLoop

  /** The turns of the first `k` drivers. */
  function FirstTurns(c: Context, arrived: seq<seq<InputEvent>>, now: int, k: nat, limit: nat): (r: Swept)
    requires c.Valid() && |arrived| == NUM_DRIVERS && k <= NUM_DRIVERS && |c.out| <= limit
    ensures r.context.Valid() && c.out <= r.context.out && |r.context.out| <= limit
  {
    if k == 0 then Swept(c, None)
    else
      var s := FirstTurns(c, arrived, now, k - 1, limit);
      if s.waits.Some? || |s.context.out| == limit then s
      else if StopsAt(s.context, arrived[k - 1], k - 1) then Swept(s.context, Some(k - 1))
      else Swept(Turn(s.context, arrived[k - 1], now, k - 1, limit), None)
  }

  /** The room that driver `k` finds in the buffer when the loop comes to it; none if it does not get there. */
  function RoomFor(c: Context, arrived: seq<seq<InputEvent>>, now: int, k: nat, limit: nat): nat
    requires c.Valid() && |arrived| == NUM_DRIVERS && k < NUM_DRIVERS && |c.out| <= limit
  {
    var s := FirstTurns(c, arrived, now, k, limit);
    if s.waits.Some? then 0 else limit - |s.context.out|
  }

  /** The loop goes on from what the first `k` drivers leave, unless one of them waits. */
  lemma {:induction false} SweepGoesOn(c: Context, arrived: seq<seq<InputEvent>>, now: int, k: nat, limit: nat)
    requires c.Valid() && |arrived| == NUM_DRIVERS && k <= NUM_DRIVERS && |c.out| <= limit
    ensures var s := FirstTurns(c, arrived, now, k, limit);
            Sweep(c, arrived, now, limit) == if s.waits.Some? then s else Sweep(s.context, arrived[k..], now, limit)
    decreases k
  {
    if k == 0 {
      assert arrived[k..] == arrived;
    } else {
      SweepGoesOn(c, arrived, now, k - 1, limit);
      assert arrived[k - 1..][0] == arrived[k - 1] && arrived[k - 1..][1..] == arrived[k..];
    }
  }

  lemma {:induction false} FirstTurnsLeaveOthers(c: Context, arrived: seq<seq<InputEvent>>, now: int, k: nat,
                                                 limit: nat, i: nat)
    requires c.Valid() && |arrived| == NUM_DRIVERS && k <= i < NUM_DRIVERS && |c.out| <= limit
    ensures var r := FirstTurns(c, arrived, now, k, limit);
            && r.context.drivers[i] == c.drivers[i] && r.context.revents[i] == c.revents[i]
            && (r.waits.Some? ==> r.waits.value < k)
    decreases k
  {
    if k > 0 {
      FirstTurnsLeaveOthers(c, arrived, now, k - 1, limit, i);
      var s := FirstTurns(c, arrived, now, k - 1, limit);
      if s.waits.None? && |s.context.out| < limit {
        TurnLeavesOthers(s.context, arrived[k - 1], now, k - 1, limit, i);
      }
    }
  }

  /** A driver whose turn has passed, or that has nothing to read, is left as it is by the rest of the loop. */
  lemma {:induction false} RestLeavesDriver(c: Context, arrived: seq<seq<InputEvent>>, now: int, limit: nat, i: nat)
    requires c.Valid() && |arrived| <= NUM_DRIVERS && |c.out| <= limit && i < NUM_DRIVERS
    requires i < NUM_DRIVERS - |arrived| || !WantsRead(c, i)
    ensures var r := Sweep(c, arrived, now, limit);
            && r.context.drivers[i] == c.drivers[i] && r.context.revents[i] == c.revents[i]
            && r.waits != Some(i)
    decreases |arrived|
  {
    var k := NUM_DRIVERS - |arrived|;
    if |c.out| < limit && arrived != [] && !StopsAt(c, arrived[0], k) {
      if k != i {
        TurnLeavesOthers(c, arrived[0], now, k, limit, i);
      }
      RestLeavesDriver(Turn(c, arrived[0], now, k, limit), arrived[1..], now, limit, i);
    }
  }

  /** The rest of the `for` loop from the turn of driver `i` on, which takes the shortcut. */
  lemma ShortcutRest(s: Context, arrived: seq<seq<InputEvent>>, now: int, limit: nat, i: nat)
    requires s.Valid() && i < NUM_DRIVERS && |arrived| == NUM_DRIVERS - i && |s.out| < limit
    requires Safe(s, i) && s.drivers[i].HasPendingEvents()
    ensures var r := Sweep(s, arrived, now, limit);
            && r.context.drivers[i].unread == s.drivers[i].unread
            && |r.context.out| > |s.out| && !r.context.drivers[i].HasPendingEvents()
            && (limit == |s.out| + 1 ==>
                  r.waits.None? && |r.context.out| == limit && r.context.revents[i] == s.revents[i])
            && (limit > |s.out| + 1 ==> !r.context.revents[i])
  {
    RestLeavesDriver(Turn(s, arrived[0], now, i, limit), arrived[1..], now, limit, i);
  }

  /** The whole `for` loop with a pending temperature at driver `i`. */
  lemma ShortcutSweep(c: Context, arrived: seq<seq<InputEvent>>, now: int, limit: nat, i: nat)
    requires c.Valid() && |arrived| == NUM_DRIVERS && |c.out| <= limit && i < NUM_DRIVERS
    requires Safe(c, i) && c.drivers[i].HasPendingEvents()
    ensures var r, room := Sweep(c, arrived, now, limit), RoomFor(c, arrived, now, i, limit);
            && r.context.drivers[i].unread == c.drivers[i].unread
            && (room == 0 ==> Safe(r.context, i) && (r.waits.Some? || |r.context.out| == limit))
            && (room > 0 ==> |r.context.out| > |c.out| && !r.context.drivers[i].HasPendingEvents())
            && (room == 1 ==> r.waits.None? && |r.context.out| == limit && r.context.revents[i] == c.revents[i])
            && (room > 1 ==> !r.context.revents[i])
  {
    var s := FirstTurns(c, arrived, now, i, limit);
    SweepGoesOn(c, arrived, now, i, limit);
    FirstTurnsLeaveOthers(c, arrived, now, i, limit, i);
    if s.waits.None? && |s.context.out| < limit {
      ShortcutRest(s.context, arrived[i..], now, limit, i);
    }
  }

  /** In this call, with room left, `poll` reports driver `i`. */
  predicate Heard(c: Context, env: seq<Round>, limit: nat, i: nat)
    requires c.Valid() && ValidRounds(env) && |c.out| <= limit && i < NUM_DRIVERS
    decreases |env|
  {
    env != [] &&
    var s := Sweep(c, env[0].arrived, env[0].now, limit);
    && s.waits.None? && |s.context.out| < limit && env[0].answer.Ready?
    && (env[0].answer.revents[i] ||
        (env[0].answer.Some() && Heard(s.context.(revents := env[0].answer.revents), env[1..], limit, i)))
  }

  /** With unread events and its flag clear, a driver stays stranded until `poll` reports it. */
  lemma {:induction false} StrandedUntilHeard(c: Context, env: seq<Round>, start: nat, limit: nat, i: nat)
    requires c.Valid() && ValidRounds(env) && start < |c.out| <= limit && i < NUM_DRIVERS
    requires !WantsRead(c, i) && c.drivers[i].unread != []
    ensures Safe(Poll(c, env, start, limit).context, i) <==> Heard(c, env, limit, i)
    decreases |env|
  {
    if env != [] {
      RestLeavesDriver(c, env[0].arrived, env[0].now, limit, i);
      AnsweredUntilHeard(c, env, start, limit, i);
    }
  }

  /** The same from the answer of `poll` on, when the `for` loop has left the driver stranded. */
  lemma {:induction false} AnsweredUntilHeard(c: Context, env: seq<Round>, start: nat, limit: nat, i: nat)
    requires c.Valid() && ValidRounds(env) && start <= |c.out| <= limit && i < NUM_DRIVERS && env != []
    requires var s := Sweep(c, env[0].arrived, env[0].now, limit).context;
             start < |s.out| && !WantsRead(s, i) && s.drivers[i].unread != []
    ensures Safe(Poll(c, env, start, limit).context, i) <==> Heard(c, env, limit, i)
    decreases |env|, 0
  {
    var r := Attempt(c, env[0], start, limit);
    if r.ending == Running {
      if env[0].answer.revents[i] {
        PollKeepsSafe(r.context, env[1..], start, limit, i);
      } else {
        StrandedUntilHeard(r.context, env[1..], start, limit, i);
      }
    }
  }

  /**
   * A whole call with a pending temperature leaves the driver's events stranded, behind a clear flag, unless its ring
   * is empty, the loop does not come to it with more than one place left, or `poll` reports it once more in this call.
   */
  lemma ShortcutStrandsExactly(c: Context, env: seq<Round>, start: nat, limit: nat, i: nat)
    requires c.Valid() && ValidRounds(env) && start <= |c.out| <= limit && i < NUM_DRIVERS && env != []
    requires Safe(c, i) && c.drivers[i].HasPendingEvents()
    ensures Safe(Poll(c, env, start, limit).context, i) <==>
            || c.drivers[i].unread == []
            || RoomFor(c, env[0].arrived, env[0].now, i, limit) <= 1
            || Heard(c, env, limit, i)
  {
    ShortcutSweep(c, env[0].arrived, env[0].now, limit, i);
    var r := Attempt(c, env[0], start, limit);
    if c.drivers[i].unread != [] && RoomFor(c, env[0].arrived, env[0].now, i, limit) > 1 {
      AnsweredUntilHeard(c, env, start, limit, i);
    } else if r.ending == Running {
      PollKeepsSafe(r.context, env[1..], start, limit, i);
    }
  }

  // Sessions in which sensors are switched

  /** What an application does between two points in time. */
  datatype Act = Enable(what: int, on: bool, accepted: bool) | Fetch(call: PollCall)

  /** Switching a virtual sensor of the compass chip. */
  function EnableSensor(d: Driver, what: int, on: bool, accepted: bool): (r: Driver)
    requires d.Valid()
    ensures r.Valid()
  {
    match d
    case Single(_, _, _, _) => d
    case Compass(en, pending, p, q, t) =>
      Compass(Switched(en, what, on, accepted), pending || RaisesPending(en, what, on), p, q, t)
  }

  const COMPASS := 1

  function Acted(c: Context, act: Act): (r: Context)
    requires c.Valid() && (act.Fetch? ==> ValidRounds(act.call.env))
    ensures r.Valid()
  {
    match act
    case Enable(what, on, accepted) =>
      c.(drivers := c.drivers[COMPASS := EnableSensor(c.drivers[COMPASS], what, on, accepted)])
    case Fetch(call) => Fetched(c, call)
  }

  predicate ValidActs(acts: seq<Act>) {
    forall k :: 0 <= k < |acts| && acts[k].Fetch? ==> ValidRounds(acts[k].call.env)
  }

  function Live(c: Context, acts: seq<Act>): (r: Context)
    requires c.Valid() && ValidActs(acts)
    ensures r.Valid()
    decreases |acts|
  {
    if acts == [] then c else Live(Acted(c, acts[0]), acts[1..])
  }

  // A session that ends with events stranded

  const BLANK := SensorEvent(0, 0, 0, 0, 0, 0)
  const READING := InputEvent(Abs, ABS_X, 1, 0, 0)
  const SYNC := InputEvent(Syn, 0, 0, 0, 0)

  /** Two readings wait on the compass chip, nothing on the other devices. */
  const TWO_READINGS := [READING, SYNC, READING, SYNC]
  const BUSY: seq<seq<InputEvent>> := [[], TWO_READINGS, [], []]
  const IDLE: seq<seq<InputEvent>> := [[], [], [], []]

  const NO_FLAGS := [false, false, false, false]
  const COMPASS_FLAG := [false, true, false, false]

  /** As the constructor of the compass driver leaves it. */
  const NOTHING_PENDING := Pending({}, [SensorEvent(0, 0, 0, 0, 3, 0), SensorEvent(1, 0, 0, 0, 2, 0),
                                        SensorEvent(2, 0, 0, 0, 3, 0), SensorEvent(3, 0, 0, 0, 0, 0)])

  const START := Context([Single(KXTF9, BLANK, [], []),
                          Compass({}, false, NOTHING_PENDING, [], []),
                          Single(ISL29030P, BLANK, [], []), Single(ISL29030L, BLANK, [], [])], NO_FLAGS, [])

  lemma {:induction false} NobodyReads(c: Context, arrived: seq<seq<InputEvent>>, now: int, limit: nat)
    requires c.Valid() && |arrived| <= NUM_DRIVERS && |c.out| <= limit
    requires forall k: nat :: k < NUM_DRIVERS ==> !WantsRead(c, k)
    ensures Sweep(c, arrived, now, limit) == Swept(c, None)
    decreases |arrived|
  {
    if |c.out| < limit && arrived != [] {
      assert !WantsRead(c, NUM_DRIVERS - |arrived|);
      NobodyReads(c, arrived[1..], now, limit);
    }
  }

  /** With room for one event only the first reading is handed out. */
  lemma FirstReadingOnly(p: Pending, q: seq<InputEvent>, count: nat)
    requires p.Valid() && p.mask == {} && q == TWO_READINGS && count == 1
    ensures var r := Drain({0}, p, q, count, []); r.queue == q[2..] && |r.out| == 1
  {
    var p1 := After(p, q[0]);
    var f := Flush({0}, p1, q[1].Nanos(), 0, count, []);
    assert p1.mask == {0};
    assert Emitted({0}, p1, q[1].Nanos(), 0) == [p1.events[0].(timestamp := q[1].Nanos())];
    assert f.0.mask == {} && |f.1| == 1;
    assert Drain({0}, p, q, count, []) == Drain({0}, p1, q[1..], count, []);
    assert q[1..][1..] == q[2..];
    assert Drain({0}, p1, q[1..], count, []) == Drain({0}, f.0, q[2..], count, f.1);
  }

  /** The first driver does nothing: it is the compass that the loop reads first. */
  lemma CompassFirst(c: Context, arrived: seq<seq<InputEvent>>, now: int, limit: nat)
    requires c.Valid() && |arrived| == NUM_DRIVERS && |c.out| < limit && !WantsRead(c, 0)
    requires !StopsAt(c, arrived[COMPASS], COMPASS)
    ensures Sweep(c, arrived, now, limit) ==
            Sweep(Turn(c, arrived[COMPASS], now, COMPASS, limit), arrived[2..], now, limit)
  {
    assert arrived[1..][0] == arrived[COMPASS] && arrived[1..][1..] == arrived[2..];
  }

  lemma CompassReadsOne(d: Driver, arrived: seq<InputEvent>, now: int, room: nat)
    requires d.Valid() && d.Compass? && !d.hasPending && d.enabled == {0} && d.pending.mask == {} && d.unread == []
    requires arrived == TWO_READINGS && room == 1
    ensures var r := ReadEvents(d, arrived, now, room);
            |r.out| == 1 && r.driver.Compass? && r.driver.enabled == {0} && r.driver.unread == arrived[2..]
  {
    FirstReadingOnly(d.pending, arrived, room);
    assert d.unread + d.Delivered(arrived) == arrived;
  }

  /** The compass has a turn with room for one event. */
  lemma TurnWithOnePlace(c: Context, arrived: seq<InputEvent>, now: int, limit: nat)
    requires c.Valid() && limit == |c.out| + 1 && c.revents == COMPASS_FLAG && NoShortcut(c)
    requires arrived == TWO_READINGS
    requires var d := c.drivers[COMPASS];
             d.Compass? && d.enabled == {0} && d.pending.mask == {} && d.unread == []
    ensures var t := Turn(c, arrived, now, COMPASS, limit);
            && |t.out| == limit && t.revents == COMPASS_FLAG && t.drivers[0] == c.drivers[0]
            && t.drivers[COMPASS].Compass? && t.drivers[COMPASS].enabled == {0}
            && t.drivers[COMPASS].unread == arrived[2..]
  {
    CompassReadsOne(c.drivers[COMPASS], arrived, now, limit - |c.out|);
  }

  /** A call with room for one event leaves the second reading in the ring, the flag still up. */
  lemma FullBufferLeavesReading(c: Context, w: Round, start: nat, limit: nat)
    requires c.Valid() && w.arrived == BUSY && w.answer.Valid() && start == |c.out| && limit == start + 1
    requires c.revents == COMPASS_FLAG && NoShortcut(c)
    requires var d := c.drivers[COMPASS];
             d.Compass? && d.enabled == {0} && d.pending.mask == {} && d.unread == []
    ensures var r := Attempt(c, w, start, limit);
            && r.ending == Returned && r.context.revents == COMPASS_FLAG
            && r.context.drivers[0] == c.drivers[0]
            && r.context.drivers[COMPASS].Compass? && r.context.drivers[COMPASS].enabled == {0}
            && r.context.drivers[COMPASS].unread != []
  {
    TurnWithOnePlace(c, w.arrived[COMPASS], w.now, limit);
    CompassFirst(c, w.arrived, w.now, limit);
  }

  const NEWS := Round(IDLE, 0, Ready(COMPASS_FLAG, false))
  const READ := Round(BUSY, 0, Ready(NO_FLAGS, false))
  const SILENCE := Round(IDLE, 0, Ready(NO_FLAGS, false))

  const FETCH_ONE := PollCall([NEWS, READ], 1)
  const FETCH_TWO := PollCall([SILENCE], 2)

  /** `poll` reports the compass to a call that finds no flag up. */
  lemma NewsArrive(c: Context, w: Round, start: nat, limit: nat)
    requires c.Valid() && c.revents == NO_FLAGS && NoShortcut(c) && w == NEWS && start == |c.out| < limit
    ensures Attempt(c, w, start, limit) == Polled(c.(revents := COMPASS_FLAG), Running)
  {
    NobodyReads(c, w.arrived, w.now, limit);
    assert w.answer.revents[COMPASS];
  }

  /** Fetching one event of two leaves the compass with its flag up and a reading in its ring. */
  lemma FetchOne(c: Context, rounds: seq<Round>)
    requires c.Valid() && c.revents == NO_FLAGS && NoShortcut(c) && rounds == FETCH_ONE.env
    requires var d := c.drivers[COMPASS];
             d.Compass? && d.enabled == {0} && d.pending.mask == {} && d.unread == []
    ensures var r := Fetched(c, FETCH_ONE);
            && r.revents == COMPASS_FLAG && r.drivers[0] == c.drivers[0]
            && r.drivers[COMPASS].Compass? && r.drivers[COMPASS].enabled == {0} && r.drivers[COMPASS].unread != []
  {
    var start, limit := |c.out|, |c.out| + 1;
    var c1 := c.(revents := COMPASS_FLAG);
    NewsArrive(c, rounds[0], start, limit);
    FullBufferLeavesReading(c1, rounds[1], start, limit);
    var rest := rounds[1..];
    assert rest[0] == rounds[1];
    assert Poll(c, rounds, start, limit) == Poll(c1, rest, start, limit) == Attempt(c1, rounds[1], start, limit);
  }

  /** With a temperature pending on top of that, a call that `poll` has no news for strands the reading. */
  lemma SilenceStrands(c: Context, rounds: seq<Round>, start: nat, limit: nat)
    requires c.Valid() && c.revents == COMPASS_FLAG && !c.drivers[0].HasPendingEvents()
    requires c.drivers[COMPASS].HasPendingEvents() && c.drivers[COMPASS].unread != []
    requires ValidRounds(rounds) && |rounds| == 1 && start == |c.out| && limit == start + 2
    requires rounds[0].answer == Ready(NO_FLAGS, false)
    ensures !Safe(Poll(c, rounds, start, limit).context, COMPASS)
  {
    assert !WantsRead(c, 0);
    var w := rounds[0];
    assert FirstTurns(c, w.arrived, w.now, 0, limit) == Swept(c, None);
    assert FirstTurns(c, w.arrived, w.now, 1, limit) == Swept(c, None);
    ShortcutStrandsExactly(c, rounds, start, limit, COMPASS);
  }

  lemma FetchTwo(c: Context)
    requires c.Valid() && c.revents == COMPASS_FLAG && !c.drivers[0].HasPendingEvents()
    requires c.drivers[COMPASS].HasPendingEvents() && c.drivers[COMPASS].unread != []
    ensures !Safe(Fetched(c, FETCH_TWO), COMPASS)
  {
    SilenceStrands(c, FETCH_TWO.env, |c.out|, |c.out| + 2);
  }

  /** From a context without news, whose compass is idle: where the four acts lead. */
  lemma FourActsStrand(c: Context) returns (r: Context)
    requires c.Valid() && c.revents == NO_FLAGS && NoShortcut(c)
    requires var d := c.drivers[COMPASS];
             d.Compass? && d.enabled == {} && d.pending.mask == {} && d.unread == []
    ensures r == Acted(Acted(Acted(Acted(c, Enable(0, true, true)), Fetch(FETCH_ONE)),
                             Enable(TEMPERATURE, true, true)), Fetch(FETCH_TWO))
    ensures !Safe(r, COMPASS)
  {
    var c1 := Acted(c, Enable(0, true, true));
    FetchOne(c1, FETCH_ONE.env);
    var c2 := Acted(c1, Fetch(FETCH_ONE));
    var c3 := Acted(c2, Enable(TEMPERATURE, true, true));
    FetchTwo(c3);
    r := Acted(c3, Fetch(FETCH_TWO));
  }

  /** Four acts of an application, from a fresh start, that leave a reading unread behind a clear flag. */
  lemma ShortcutCanStrand(acts: seq<Act>)
    requires acts == [Enable(0, true, true), Fetch(FETCH_ONE), Enable(TEMPERATURE, true, true),
                      Fetch(FETCH_TWO)]
    ensures START.Valid() && Fresh(START) && ValidActs(acts)
    ensures !Safe(Live(START, acts), COMPASS)
  {
    StartIsFresh(START);
    StrandingRun(START, acts);
  }

  lemma StartIsFresh(c: Context)
    requires c == START
    ensures c.Valid() && Fresh(c) && c.revents == NO_FLAGS
    ensures c.drivers[COMPASS] == Compass({}, false, NOTHING_PENDING, [], [])
  {
  }

  lemma StrandingRun(c: Context, acts: seq<Act>)
    requires c.Valid() && c.revents == NO_FLAGS && NoShortcut(c) && ValidActs(acts) && |acts| == 4
    requires var d := c.drivers[COMPASS];
             d.Compass? && d.enabled == {} && d.pending.mask == {} && d.unread == []
    requires acts[0] == Enable(0, true, true) && acts[1] == Fetch(FETCH_ONE)
    requires acts[2] == Enable(TEMPERATURE, true, true) && acts[3] == Fetch(FETCH_TWO)
    ensures !Safe(Live(c, acts), COMPASS)
  {
    var r := FourActsStrand(c);
    LiveFour(c, acts);
  }

  lemma LiveFour(c: Context, acts: seq<Act>)
    requires c.Valid() && ValidActs(acts) && |acts| == 4
    ensures Live(c, acts) == Acted(Acted(Acted(Acted(c, acts[0]), acts[1]), acts[2]), acts[3])
  {
    var c1 := Acted(c, acts[0]);
    var c2 := Acted(c1, acts[1]);
    var c3 := Acted(c2, acts[2]);
    var rest1 := acts[1..];
    var rest2 := rest1[1..];
    var rest3 := rest2[1..];
    assert Live(c3, rest3) == Live(Acted(c3, acts[3]), rest3[1..]) == Acted(c3, acts[3]);
    assert Live(c2, rest2) == Live(c3, rest3);
    assert Live(c1, rest1) == Live(c2, rest2);
  }
}
