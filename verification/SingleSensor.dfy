/** The drivers with one sensor behind them: KXTF9 acceleration, ISL29030 proximity and ISL29030 light. */
module SingleSensor {
  import opened EventRing
  import opened SensorStreams

  datatype Model = KXTF9 | ISL29030P | ISL29030L

  /** `processEvent`, behind the test of the event type that guards it. */
  function Updated(m: Model, p: SensorEvent, e: InputEvent): SensorEvent {
    match m
    case KXTF9 => if e.kind.Abs? && e.code in {ABS_X, ABS_Y, ABS_Z} then p.Measured(e.code, e.value) else p
    case ISL29030P => if e.kind.Abs? && e.code == ABS_DISTANCE then p.(x := e.value) else p
    case ISL29030L => if e.kind.Led? && e.code == LED_MISC then p.(x := e.value) else p
  }

  function Passed(m: Model, p: SensorEvent, e: InputEvent): SensorEvent {
    if e.kind.Syn? then p.(timestamp := e.Nanos()) else Updated(m, p, e)
  }

  /** The reference: every sync sends the event as it stands, stamped with the time of the sync. */
  function SinglePass(m: Model, p: SensorEvent, q: seq<InputEvent>, out: seq<SensorEvent>): seq<SensorEvent>
    decreases |q|
  {
    if q == [] then out
    else SinglePass(m, Passed(m, p, q[0]), q[1..],
                    if q[0].kind.Syn? then out + [p.(timestamp := q[0].Nanos())] else out)
  }

  function SingleFinal(m: Model, p: SensorEvent, q: seq<InputEvent>): SensorEvent
    decreases |q|
  {
    if q == [] then p else SingleFinal(m, Passed(m, p, q[0]), q[1..])
  }

  datatype Served = Served(event: SensorEvent, queue: seq<InputEvent>, out: seq<SensorEvent>)

  /** The loop of `readEvents` on a buffer of `count` events that holds `out` so far. */
  function Serve(m: Model, p: SensorEvent, q: seq<InputEvent>, count: nat, out: seq<SensorEvent>): (r: Served)
    requires |out| <= count
    ensures |out| <= |r.out| <= count && |r.queue| <= |q|
    decreases |q|
  {
    if |out| == count || q == [] then Served(p, q, out)
    else Serve(m, Passed(m, p, q[0]), q[1..], count,
               if q[0].kind.Syn? then out + [p.(timestamp := q[0].Nanos())] else out)
  }

  lemma {:induction false} ServeStaysOnTheWay(m: Model, p: SensorEvent, q: seq<InputEvent>, count: nat,
                                              out: seq<SensorEvent>)
    requires |out| <= count
    ensures var r := Serve(m, p, q, count, out);
            && SinglePass(m, r.event, r.queue, r.out) == SinglePass(m, p, q, out)
            && SingleFinal(m, r.event, r.queue) == SingleFinal(m, p, q)
            && (|r.out| < count ==> r.queue == [])
    decreases |q|
  {
    if |out| < count && q != [] {
      ServeStaysOnTheWay(m, Passed(m, p, q[0]), q[1..], count,
                         if q[0].kind.Syn? then out + [p.(timestamp := q[0].Nanos())] else out);
    }
  }

  lemma {:induction false} ServeShifts(m: Model, p: SensorEvent, q: seq<InputEvent>, count: nat,
                                       before: seq<SensorEvent>, out: seq<SensorEvent>)
    requires |out| <= count
    ensures var r := Serve(m, p, q, count, out);
            Serve(m, p, q, |before| + count, before + out) == r.(out := before + r.out)
    decreases |q|
  {
    if |out| < count && q != [] {
      var e := [p.(timestamp := q[0].Nanos())];
      assert (before + out) + e == before + (out + e);
      ServeShifts(m, Passed(m, p, q[0]), q[1..], count, before, if q[0].kind.Syn? then out + e else out);
    }
  }

  /** The contract of one call: what it emits is the next stretch of the reference stream. */
  lemma ServedNext(m: Model, p: SensorEvent, q: seq<InputEvent>, count: nat, out: seq<SensorEvent>)
    ensures var r := Serve(m, p, q, count, []);
            && SinglePass(m, r.event, r.queue, out + r.out) == SinglePass(m, p, q, out)
            && SingleFinal(m, r.event, r.queue) == SingleFinal(m, p, q)
            && |r.out| <= count && (|r.out| < count ==> r.queue == [])
  {
    assert out + [] == out;
    ServeShifts(m, p, q, count, out, []);
    ServeStaysOnTheWay(m, p, q, |out| + count, out);
  }

  lemma {:induction false} SinglePassAppends(m: Model, p: SensorEvent, q: seq<InputEvent>, more: seq<InputEvent>,
                                             out: seq<SensorEvent>)
    ensures SinglePass(m, p, q + more, out) == SinglePass(m, SingleFinal(m, p, q), more, SinglePass(m, p, q, out))
    ensures SingleFinal(m, p, q + more) == SingleFinal(m, SingleFinal(m, p, q), more)
    decreases |q|
  {
    if q == [] {
      assert q + more == more;
    } else {
      assert (q + more)[1..] == q[1..] + more;
      SinglePassAppends(m, Passed(m, p, q[0]), q[1..], more,
                        if q[0].kind.Syn? then out + [p.(timestamp := q[0].Nanos())] else out);
    }
  }

  lemma {:induction false} SinglePassExtends(m: Model, p: SensorEvent, q: seq<InputEvent>, out: seq<SensorEvent>)
    ensures out <= SinglePass(m, p, q, out)
    decreases |q|
  {
    if q != [] {
      SinglePassExtends(m, Passed(m, p, q[0]), q[1..],
                        if q[0].kind.Syn? then out + [p.(timestamp := q[0].Nanos())] else out);
    }
  }

  // What the reference says, read off the input

  datatype Axis = X | Y | Z

  function Along(e: SensorEvent, a: Axis): int {
    match a
    case X => e.x
    case Y => e.y
    case Z => e.z
  }

  /** The input event that this axis of this sensor is read from. */
  predicate Feeds(m: Model, a: Axis, e: InputEvent) {
    match m
    case KXTF9 => e.kind.Abs? && e.code == (match a case X => ABS_X case Y => ABS_Y case Z => ABS_Z)
    case ISL29030P => a.X? && e.kind.Abs? && e.code == ABS_DISTANCE
    case ISL29030L => a.X? && e.kind.Led? && e.code == LED_MISC
  }

  /** What the axis holds after `q`: the value of the latest event for it, else what it held before. */
  ghost predicate AxisHoldsLatest(m: Model, a: Axis, q: seq<InputEvent>, before: int, now: int) {
    && (forall i :: 0 <= i < |q| && Feeds(m, a, q[i]) && (forall k :: i < k < |q| ==> !Feeds(m, a, q[k])) ==>
          now == q[i].value)
    && ((forall i :: 0 <= i < |q| ==> !Feeds(m, a, q[i])) ==> now == before)
  }

  lemma OneEventFeeds(m: Model, a: Axis, p: SensorEvent, e: InputEvent)
    ensures Along(Passed(m, p, e), a) == if Feeds(m, a, e) then e.value else Along(p, a)
    ensures Passed(m, p, e).sensor == p.sensor && Passed(m, p, e).status == p.status
  {
  }

  lemma AxisComposes(m: Model, a: Axis, q: seq<InputEvent>, before: int, mid: int, now: int)
    requires q != [] && mid == (if Feeds(m, a, q[0]) then q[0].value else before)
    requires AxisHoldsLatest(m, a, q[1..], mid, now)
    ensures AxisHoldsLatest(m, a, q, before, now)
  {
    var rest := q[1..];
    assert forall i :: 0 < i < |q| ==> q[i] == rest[i - 1];
    if i :| 0 <= i < |rest| && Feeds(m, a, rest[i]) {
      assert Feeds(m, a, q[i + 1]);
    }
  }

  /** Every axis holds the latest value for it; the sensor and its accuracy never change. */
  lemma {:induction false} AxesHoldLatest(m: Model, p: SensorEvent, q: seq<InputEvent>, a: Axis)
    ensures AxisHoldsLatest(m, a, q, Along(p, a), Along(SingleFinal(m, p, q), a))
    ensures SingleFinal(m, p, q).sensor == p.sensor && SingleFinal(m, p, q).status == p.status
    decreases |q|
  {
    if q != [] {
      var p' := Passed(m, p, q[0]);
      OneEventFeeds(m, a, p, q[0]);
      AxesHoldLatest(m, p', q[1..], a);
      AxisComposes(m, a, q, Along(p, a), Along(p', a), Along(SingleFinal(m, p, q), a));
    }
  }

  /**
   * Behind the input `q`, a sync adds one event to the stream: of the same sensor and accuracy, stamped with its time,
   * every axis holding the value of the latest input event for it. Nothing else adds any.
   */
  lemma SyncSendsLatestAxes(m: Model, p: SensorEvent, q: seq<InputEvent>, e: InputEvent, out: seq<SensorEvent>)
      returns (v: SensorEvent)
    ensures v.sensor == p.sensor && v.status == p.status && v.timestamp == e.Nanos()
    ensures forall a: Axis :: AxisHoldsLatest(m, a, q, Along(p, a), Along(v, a))
    ensures SinglePass(m, p, q + [e], out) ==
            if e.kind.Syn? then SinglePass(m, p, q, out) + [v] else SinglePass(m, p, q, out)
  {
    v := SingleFinal(m, p, q).(timestamp := e.Nanos());
    forall a: Axis ensures AxisHoldsLatest(m, a, q, Along(p, a), Along(v, a)) {
      AxesHoldLatest(m, p, q, a);
    }
    AxesHoldLatest(m, p, q, X);
    SinglePassAppends(m, p, q, [e], out);
    var before, f := SinglePass(m, p, q, out), SingleFinal(m, p, q);
    assert [e][1..] == [];
    assert SinglePass(m, f, [e], before) == if e.kind.Syn? then before + [v] else before;
  }

  class Sensor {
    const model: Model
    const reader: InputEventCircularReader
    var pendingEvent: SensorEvent

    ghost predicate Valid()
      reads this, reader, reader.buffer
    {
      reader.Valid() && reader.numEvents == RING_EVENTS
    }

    /** The KXTF9 driver sets only the sensor and its accuracy; the other fields keep what was in memory. */
    constructor (m: Model, sensorType: int, garbage: SensorEvent)
      ensures Valid() && model == m && reader.Contents() == [] && fresh(reader) && fresh(reader.buffer)
      ensures pendingEvent == if m == KXTF9 then garbage.(sensor := sensorType, status := 3)
                              else SensorEvent(sensorType, 0, 0, 0, 0, 0)
    {
      model := m;
      reader := new InputEventCircularReader(RING_EVENTS);
      pendingEvent := if m == KXTF9 then garbage.(sensor := sensorType, status := 3)
                      else SensorEvent(sensorType, 0, 0, 0, 0, 0);
    }

    method ProcessEvent(e: InputEvent)
      modifies `pendingEvent
      ensures pendingEvent == Updated(model, old(pendingEvent), e)
    {
      if model == KXTF9 && e.kind.Abs? && e.code in {ABS_X, ABS_Y, ABS_Z} {
        pendingEvent := pendingEvent.Measured(e.code, e.value);
      } else if (model == ISL29030P && e.kind.Abs? && e.code == ABS_DISTANCE) ||
                (model == ISL29030L && e.kind.Led? && e.code == LED_MISC) {
        pendingEvent := pendingEvent.(x := e.value);
      }
    }

    /** The events handed out stand in `data` from `at` on: one `Serve` of everything unread. */
    method ReadEvents(data: array<SensorEvent>, at: nat, count: int, r: ReadResult) returns (n: int)
      requires Valid() && at <= data.Length && at + count <= data.Length && Fits(r, reader.freeSpace)
      modifies `pendingEvent, reader, reader.buffer, data
      ensures Valid() && data[..at] == old(data[..at])
      ensures count < 1 ==>
                n == -EINVAL && pendingEvent == old(pendingEvent) && reader.Contents() == old(reader.Contents())
      ensures count >= 1 && FillStatus(r, old(reader.freeSpace)) < 0 ==>
                && n == FillStatus(r, old(reader.freeSpace))
                && pendingEvent == old(pendingEvent) && reader.Contents() == old(reader.Contents())
      ensures count >= 1 && FillStatus(r, old(reader.freeSpace)) >= 0 ==>
                && 0 <= n <= count
                && Served(pendingEvent, reader.Contents(), data[at..at + n]) ==
                   Serve(model, old(pendingEvent),
                         old(reader.Contents()) + Accepted(r, old(reader.freeSpace)), count, [])
    {
      if count < 1 {
        return -EINVAL;
      }
      var status := reader.Fill(r);
      if status < 0 {
        return status;
      }
      n := ServeReader(data, at, count);
    }

    /** The loop over the unread events. */
    method ServeReader(data: array<SensorEvent>, at: nat, count: nat) returns (n: nat)
      requires Valid() && at + count <= data.Length
      modifies `pendingEvent, reader, data
      ensures Valid() && n <= count && data[..at] == old(data[..at])
      ensures Served(pendingEvent, reader.Contents(), data[at..at + n]) ==
              Serve(model, old(pendingEvent), old(reader.Contents()), count, [])
    {
      ghost var all := Serve(model, pendingEvent, reader.Contents(), count, []);
      n := 0;
      assert data[at..at + n] == [];
      var available, slot := reader.ReadEvent();
      while n < count && available != 0
        invariant n <= count && Valid() && data[..at] == old(data[..at])
        invariant slot == reader.curr && (available == if reader.Contents() == [] then 0 else 1)
        invariant all == Serve(model, pendingEvent, reader.Contents(), count, data[at..at + n])
        decreases |reader.Contents()|
      {
        n := Handle(data, at, count, n);
        available, slot := reader.ReadEvent();
      }
    }

    /** One round of that loop, at the oldest unread event. */
    method Handle(data: array<SensorEvent>, at: nat, count: nat, n: nat) returns (n': nat)
      requires Valid() && reader.Contents() != [] && n < count && at + count <= data.Length
      modifies `pendingEvent, reader, data
      ensures Valid() && n <= n' <= count && data[..at] == old(data[..at])
      ensures |reader.Contents()| < |old(reader.Contents())|
      ensures Serve(model, pendingEvent, reader.Contents(), count, data[at..at + n']) ==
              Serve(model, old(pendingEvent), old(reader.Contents()), count, old(data[at..at + n]))
    {
      n' := n;
      var available, slot := reader.ReadEvent();
      var event := reader.buffer[slot];
      ghost var p, out := pendingEvent, data[at..at + n];
      if event.kind == Syn {
        pendingEvent := pendingEvent.(timestamp := event.Nanos());
        data[at + n] := pendingEvent;
        n' := n + 1;
        assert data[at..at + n'] == out + [p.(timestamp := event.Nanos())];
      } else {
        ProcessEvent(event);
      }
      reader.Next();
    }
  }
}
