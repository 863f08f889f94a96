/** What the sensor drivers owe their caller: the output stream as a function of the input stream. */
module SensorStreams {
  import opened EventRing

  // Event codes of linux/input.h
  const ABS_X := 0x00
  const ABS_Y := 0x01
  const ABS_Z := 0x02
  const ABS_RX := 0x03
  const ABS_RY := 0x04
  const ABS_RZ := 0x05
  const ABS_THROTTLE := 0x06
  const ABS_RUDDER := 0x07
  const ABS_WHEEL := 0x08
  const ABS_BRAKE := 0x0a
  const ABS_HAT0X := 0x10
  const ABS_HAT0Y := 0x11
  const ABS_DISTANCE := 0x19
  const LED_MISC := 0x08

  const RING_EVENTS := 32
  const NUM_SENSORS := 4
  const TEMPERATURE := 3

  /**
   * The parts of `sensors_event_t` that vary. A measured field holds the raw value of the one input code
   * that sets it; the unit conversion is a fixed function of that value. Azimuth, pitch, roll and the
   * temperature share the storage of x, y, z, as in the union of the C structure.
   */
  datatype SensorEvent = SensorEvent(sensor: int, x: int, y: int, z: int, status: int, timestamp: int) {
    function Measured(code: int, value: int): SensorEvent {
      if code in {ABS_X, ABS_HAT0X, ABS_RX, ABS_THROTTLE} then this.(x := value)
      else if code in {ABS_Y, ABS_HAT0Y, ABS_RY} then this.(y := value)
      else if code in {ABS_Z, ABS_BRAKE, ABS_RZ} then this.(z := value)
      else if code in {ABS_WHEEL, ABS_RUDDER} then this.(status := value % 4)
      else this
    }
  }

  /** Which of the four virtual sensors of the compass chip an input code belongs to. */
  function SensorOf(code: int): int {
    if code in {ABS_X, ABS_Y, ABS_Z, ABS_WHEEL} then 0
    else if code in {ABS_HAT0X, ABS_HAT0Y, ABS_BRAKE} then 1
    else if code in {ABS_RX, ABS_RY, ABS_RZ, ABS_RUDDER} then 2
    else if code == ABS_THROTTLE then TEMPERATURE
    else -1
  }

  /** `mPendingMask`, bit by bit, and `mPendingEvents`. */
  datatype Pending = Pending(mask: set<int>, events: seq<SensorEvent>) {
    predicate Valid() {
      |events| == NUM_SENSORS && forall j :: j in mask ==> 0 <= j < NUM_SENSORS
    }
  }

  function Process(p: Pending, code: int, value: int): (r: Pending)
    requires p.Valid()
    ensures r.Valid()
  {
    var j := SensorOf(code);
    if j < 0 then p
    else Pending(p.mask + {j}, p.events[j := p.events[j].Measured(code, value)])
  }

  /** Sensor `j` is handed out: its bit is cleared and its event carries the time of the sync. */
  function Stamp(p: Pending, j: int, time: int): (r: Pending)
    requires p.Valid() && 0 <= j < NUM_SENSORS
    ensures r.Valid()
  {
    Pending(p.mask - {j}, p.events[j := p.events[j].(timestamp := time)])
  }

  // The reference: every sync hands out all enabled pending sensors, in order, without any limit.
  // `out` is what went out before.

  /** What sensor `j` contributes to a sync. */
  function Emitted(enabled: set<int>, p: Pending, time: int, j: nat): (out: seq<SensorEvent>)
    requires p.Valid() && j < NUM_SENSORS
    ensures |out| <= 1
  {
    if j in p.mask && j in enabled then [p.events[j].(timestamp := time)] else []
  }

  function Snapshot(enabled: set<int>, p: Pending, time: int, j: nat, out: seq<SensorEvent>): seq<SensorEvent>
    requires p.Valid() && j <= NUM_SENSORS
    decreases NUM_SENSORS - j
  {
    if j == NUM_SENSORS then out else Snapshot(enabled, p, time, j + 1, out + Emitted(enabled, p, time, j))
  }

  function Synced(p: Pending, time: int): (r: Pending)
    requires p.Valid()
    ensures r.Valid()
  {
    Pending({}, seq(NUM_SENSORS, j requires 0 <= j < NUM_SENSORS =>
      if j in p.mask then p.events[j].(timestamp := time) else p.events[j]))
  }

  function After(p: Pending, e: InputEvent): (r: Pending)
    requires p.Valid()
    ensures r.Valid()
  {
    match e.kind
    case Abs => Process(p, e.code, e.value)
    case Syn => Synced(p, e.Nanos())
    case _ => p
  }

  function Final(p: Pending, q: seq<InputEvent>): (r: Pending)
    requires p.Valid()
    ensures r.Valid()
    decreases |q|
  {
    if q == [] then p else Final(After(p, q[0]), q[1..])
  }

  function OnePass(enabled: set<int>, p: Pending, q: seq<InputEvent>, out: seq<SensorEvent>): seq<SensorEvent>
    requires p.Valid()
    decreases |q|
  {
    if q == [] then out
    else OnePass(enabled, After(p, q[0]), q[1..],
                 if q[0].kind.Syn? then Snapshot(enabled, p, q[0].Nanos(), 0, out) else out)
  }

  // What the driver does with a caller's buffer of `count` events, `out` being its contents

  /** What the inner loop leaves of the state after looking at sensor `j`. */
  function Visited(p: Pending, j: nat, time: int): (r: Pending)
    requires p.Valid() && j < NUM_SENSORS
    ensures r.Valid()
  {
    if j in p.mask then Stamp(p, j, time) else p
  }

  /** The inner loop from sensor `j` on: it stops when the buffer is full or no bit is left. */
  function Flush(enabled: set<int>, p: Pending, time: int, j: nat, count: nat, out: seq<SensorEvent>)
      : (r: (Pending, seq<SensorEvent>))
    requires p.Valid() && j <= NUM_SENSORS && |out| <= count
    ensures r.0.Valid() && |out| <= |r.1| <= count
    decreases NUM_SENSORS - j
  {
    if |out| == count || p.mask == {} || j == NUM_SENSORS then (p, out)
    else Flush(enabled, Visited(p, j, time), time, j + 1, count, out + Emitted(enabled, p, time, j))
  }

  datatype Drained = Drained(pending: Pending, queue: seq<InputEvent>, out: seq<SensorEvent>)

  /** The outer loop: a sync stays at the front of the queue until all its sensors are handed out. */
  function Drain(enabled: set<int>, p: Pending, q: seq<InputEvent>, count: nat, out: seq<SensorEvent>): (r: Drained)
    requires p.Valid() && |out| <= count
    ensures r.pending.Valid() && |out| <= |r.out| <= count && |r.queue| <= |q|
    decreases |q|
  {
    if |out| == count || q == [] then Drained(p, q, out)
    else if !q[0].kind.Syn? then Drain(enabled, After(p, q[0]), q[1..], count, out)
    else
      var f := Flush(enabled, p, q[0].Nanos(), 0, count, out);
      if f.0.mask != {} then Drained(f.0, q, f.1) else Drain(enabled, f.0, q[1..], count, f.1)
  }

  /** Handing out sensor `j` takes nothing from the others and leaves the end state alone. */
  lemma {:induction false} StampTakesOne(enabled: set<int>, p: Pending, time: int, j: nat, k: nat,
                                         out: seq<SensorEvent>)
    requires p.Valid() && j < k <= NUM_SENSORS
    ensures Snapshot(enabled, Visited(p, j, time), time, k, out) == Snapshot(enabled, p, time, k, out)
    ensures Synced(Visited(p, j, time), time) == Synced(p, time)
    decreases NUM_SENSORS - k
  {
    if k < NUM_SENSORS {
      StampTakesOne(enabled, p, time, j, k + 1, out + Emitted(enabled, p, time, k));
    }
  }

  /** Sensors without a pending bit contribute nothing. */
  lemma {:induction false} SkipClear(enabled: set<int>, p: Pending, time: int, i: nat, j: nat, out: seq<SensorEvent>)
    requires p.Valid() && i <= j <= NUM_SENSORS && forall k :: i <= k < j ==> k !in p.mask
    ensures Snapshot(enabled, p, time, i, out) == Snapshot(enabled, p, time, j, out)
    decreases j - i
  {
    if i < j {
      assert out + Emitted(enabled, p, time, i) == out;
      SkipClear(enabled, p, time, i + 1, j, out);
    }
  }

  lemma NothingPending(enabled: set<int>, p: Pending, time: int, out: seq<SensorEvent>)
    requires p.Valid() && p.mask == {}
    ensures Snapshot(enabled, p, time, 0, out) == out && Synced(p, time) == p
  {
    SkipClear(enabled, p, time, 0, NUM_SENSORS, out);
  }

  /** What a flush leaves behind still yields the same snapshot and the same end state. */
  lemma {:induction false} FlushKeepsSnapshot(enabled: set<int>, p: Pending, time: int, j: nat, count: nat,
                                              out: seq<SensorEvent>)
    requires p.Valid() && j <= NUM_SENSORS && |out| <= count && forall i :: 0 <= i < j ==> i !in p.mask
    ensures var f := Flush(enabled, p, time, j, count, out);
            && Snapshot(enabled, f.0, time, 0, f.1) == Snapshot(enabled, p, time, j, out)
            && Synced(f.0, time) == Synced(p, time)
            && (f.0.mask != {} ==> |f.1| == count)
    decreases NUM_SENSORS - j
  {
    if |out| == count || p.mask == {} || j == NUM_SENSORS {
      SkipClear(enabled, p, time, 0, j, out);
    } else {
      StampTakesOne(enabled, p, time, j, j + 1, out + Emitted(enabled, p, time, j));
      FlushKeepsSnapshot(enabled, Visited(p, j, time), time, j + 1, count, out + Emitted(enabled, p, time, j));
    }
  }

  /** `d` stands at a point of the reference run from `(p, q, out)`. */
  predicate OnTheWay(enabled: set<int>, p: Pending, q: seq<InputEvent>, out: seq<SensorEvent>, d: Drained)
    requires p.Valid() && d.pending.Valid()
  {
    && OnePass(enabled, d.pending, d.queue, d.out) == OnePass(enabled, p, q, out)
    && Final(d.pending, d.queue) == Final(p, q)
  }

  /** A drain stays on the reference run, and stops short only when the buffer is full. */
  lemma {:induction false} DrainStaysOnTheWay(enabled: set<int>, p: Pending, q: seq<InputEvent>, count: nat,
                                              out: seq<SensorEvent>)
    requires p.Valid() && |out| <= count
    ensures var d := Drain(enabled, p, q, count, out);
            OnTheWay(enabled, p, q, out, d) && (|d.out| < count ==> d.queue == [])
    decreases |q|
  {
    if |out| < count && q != [] {
      if !q[0].kind.Syn? {
        DrainStaysOnTheWay(enabled, After(p, q[0]), q[1..], count, out);
      } else {
        var f := Flush(enabled, p, q[0].Nanos(), 0, count, out);
        FlushKeepsSnapshot(enabled, p, q[0].Nanos(), 0, count, out);
        if f.0.mask == {} {
          NothingPending(enabled, f.0, q[0].Nanos(), f.1);
          DrainStaysOnTheWay(enabled, f.0, q[1..], count, f.1);
        }
      }
    }
  }

  lemma {:induction false} OnePassAppends(enabled: set<int>, p: Pending, q: seq<InputEvent>, more: seq<InputEvent>,
                                          out: seq<SensorEvent>)
    requires p.Valid()
    ensures OnePass(enabled, p, q + more, out) == OnePass(enabled, Final(p, q), more, OnePass(enabled, p, q, out))
    ensures Final(p, q + more) == Final(Final(p, q), more)
    decreases |q|
  {
    if q == [] {
      assert q + more == more;
    } else {
      assert (q + more)[1..] == q[1..] + more;
      OnePassAppends(enabled, After(p, q[0]), q[1..], more,
                     if q[0].kind.Syn? then Snapshot(enabled, p, q[0].Nanos(), 0, out) else out);
    }
  }

  lemma {:induction false} SnapshotExtends(enabled: set<int>, p: Pending, time: int, j: nat, out: seq<SensorEvent>)
    requires p.Valid() && j <= NUM_SENSORS
    ensures out <= Snapshot(enabled, p, time, j, out)
    decreases NUM_SENSORS - j
  {
    if j < NUM_SENSORS {
      SnapshotExtends(enabled, p, time, j + 1, out + Emitted(enabled, p, time, j));
    }
  }

  lemma {:induction false} OnePassExtends(enabled: set<int>, p: Pending, q: seq<InputEvent>, out: seq<SensorEvent>)
    requires p.Valid()
    ensures out <= OnePass(enabled, p, q, out)
    decreases |q|
  {
    if q != [] {
      SnapshotExtends(enabled, p, q[0].Nanos(), 0, out);
      OnePassExtends(enabled, After(p, q[0]), q[1..],
                     if q[0].kind.Syn? then Snapshot(enabled, p, q[0].Nanos(), 0, out) else out);
    }
  }

  // What the reference says, read off the input

  /** An event of sensor `j` with no sync after it. */
  ghost predicate TouchedSinceSync(q: seq<InputEvent>, j: int) {
    exists i :: 0 <= i < |q| && q[i].kind.Abs? && SensorOf(q[i].code) == j && SyncFree(q[i..])
  }

  predicate SyncFree(q: seq<InputEvent>) {
    forall i :: 0 <= i < |q| ==> !q[i].kind.Syn?
  }

  /** A sensor is pending exactly when it was touched since the last sync, or was pending before and no sync came. */
  lemma {:induction false} PendingMeansTouched(p: Pending, q: seq<InputEvent>, j: int)
    requires p.Valid() && 0 <= j < NUM_SENSORS
    ensures j in Final(p, q).mask <==> TouchedSinceSync(q, j) || (j in p.mask && SyncFree(q))
    decreases |q|
  {
    if q != [] {
      var e, rest := q[0], q[1..];
      PendingMeansTouched(After(p, e), rest, j);
      assert SyncFree(q) <==> !e.kind.Syn? && SyncFree(rest);
    }
  }

  /** The field of an event that an input code sets. */
  function Field(e: SensorEvent, code: int): int {
    if code in {ABS_X, ABS_HAT0X, ABS_RX, ABS_THROTTLE} then e.x
    else if code in {ABS_Y, ABS_HAT0Y, ABS_RY} then e.y
    else if code in {ABS_Z, ABS_BRAKE, ABS_RZ} then e.z
    else e.status
  }

  predicate Sets(e: InputEvent, code: int) {
    e.kind.Abs? && e.code == code
  }

  /** What the field of `code` holds after `q`: the value of the latest event with that code, else what it held. */
  ghost predicate HoldsLatest(q: seq<InputEvent>, code: int, before: int, now: int) {
    && (forall i :: 0 <= i < |q| && Sets(q[i], code) && (forall k :: i < k < |q| ==> !Sets(q[k], code)) ==>
          now == if code in {ABS_WHEEL, ABS_RUDDER} then q[i].value % 4 else q[i].value)
    && ((forall i :: 0 <= i < |q| ==> !Sets(q[i], code)) ==> now == before)
  }

  /** One event changes the field of its own code and no other. */
  lemma AfterSetsField(p: Pending, e: InputEvent, code: int, j: int)
    requires p.Valid() && j == SensorOf(code) >= 0
    ensures HoldsLatest([e], code, Field(p.events[j], code), Field(After(p, e).events[j], code))
  {
    assert [e][0] == e;
    assert Sets([e][0], code) <==> Sets(e, code);
  }

  lemma LatestComposes(q: seq<InputEvent>, code: int, before: int, mid: int, now: int)
    requires q != [] && HoldsLatest([q[0]], code, before, mid) && HoldsLatest(q[1..], code, mid, now)
    ensures HoldsLatest(q, code, before, now)
  {
    var e, rest := q[0], q[1..];
    if forall i :: 0 <= i < |rest| ==> !Sets(rest[i], code) {
      assert now == mid;
      assert Sets([e][0], code) <==> Sets(e, code);
      assert forall i :: 0 < i < |q| ==> q[i] == rest[i - 1];
    } else {
      forall i | 0 <= i < |q| && Sets(q[i], code) && (forall k :: i < k < |q| ==> !Sets(q[k], code))
        ensures now == if code in {ABS_WHEEL, ABS_RUDDER} then q[i].value % 4 else q[i].value
      {
      }
    }
  }

  /** Every field of every sensor holds the value of the latest event with its code. */
  lemma {:induction false} FieldsHoldLatest(p: Pending, q: seq<InputEvent>, code: int, j: int)
    requires p.Valid() && j == SensorOf(code) >= 0
    ensures HoldsLatest(q, code, Field(p.events[j], code), Field(Final(p, q).events[j], code))
    decreases |q|
  {
    if q != [] {
      var p' := After(p, q[0]);
      AfterSetsField(p, q[0], code, j);
      FieldsHoldLatest(p', q[1..], code, j);
      LatestComposes(q, code, Field(p.events[j], code), Field(p'.events[j], code), Field(Final(p, q).events[j], code));
    }
  }

  lemma FieldReads(p: Pending, q: seq<InputEvent>, code: int, j: int, before: int, now: int)
    requires p.Valid() && j == SensorOf(code) >= 0
    requires before == Field(p.events[j], code) && now == Field(Final(p, q).events[j], code)
    ensures HoldsLatest(q, code, before, now)
  {
    FieldsHoldLatest(p, q, code, j);
  }

  /** Which input code each field of the four sensors is read from; the accuracies are held to two bits. */
  lemma AccelerometerReads(p: Pending, q: seq<InputEvent>, b: SensorEvent, n: SensorEvent)
    requires p.Valid() && b == p.events[0] && n == Final(p, q).events[0]
    ensures HoldsLatest(q, ABS_X, b.x, n.x) && HoldsLatest(q, ABS_Y, b.y, n.y) && HoldsLatest(q, ABS_Z, b.z, n.z)
  {
    FieldReads(p, q, ABS_X, 0, b.x, n.x);
    FieldReads(p, q, ABS_Y, 0, b.y, n.y);
    FieldReads(p, q, ABS_Z, 0, b.z, n.z);
  }

  lemma MagneticFieldReads(p: Pending, q: seq<InputEvent>, b: SensorEvent, n: SensorEvent)
    requires p.Valid() && b == p.events[1] && n == Final(p, q).events[1]
    ensures HoldsLatest(q, ABS_HAT0X, b.x, n.x) && HoldsLatest(q, ABS_HAT0Y, b.y, n.y)
    ensures HoldsLatest(q, ABS_BRAKE, b.z, n.z)
  {
    FieldReads(p, q, ABS_HAT0X, 1, b.x, n.x);
    FieldReads(p, q, ABS_HAT0Y, 1, b.y, n.y);
    FieldReads(p, q, ABS_BRAKE, 1, b.z, n.z);
  }

  lemma OrientationReads(p: Pending, q: seq<InputEvent>, b: SensorEvent, n: SensorEvent)
    requires p.Valid() && b == p.events[2] && n == Final(p, q).events[2]
    ensures HoldsLatest(q, ABS_RX, b.x, n.x) && HoldsLatest(q, ABS_RY, b.y, n.y) && HoldsLatest(q, ABS_RZ, b.z, n.z)
  {
    FieldReads(p, q, ABS_RX, 2, b.x, n.x);
    FieldReads(p, q, ABS_RY, 2, b.y, n.y);
    FieldReads(p, q, ABS_RZ, 2, b.z, n.z);
  }

  lemma AccuraciesRead(p: Pending, q: seq<InputEvent>)
    requires p.Valid()
    ensures HoldsLatest(q, ABS_WHEEL, p.events[0].status, Final(p, q).events[0].status)
    ensures HoldsLatest(q, ABS_RUDDER, p.events[2].status, Final(p, q).events[2].status)
  {
    FieldReads(p, q, ABS_WHEEL, 0, p.events[0].status, Final(p, q).events[0].status);
    FieldReads(p, q, ABS_RUDDER, 2, p.events[2].status, Final(p, q).events[2].status);
  }

  lemma TemperatureReads(p: Pending, q: seq<InputEvent>, b: SensorEvent, n: SensorEvent)
    requires p.Valid() && b == p.events[TEMPERATURE] && n == Final(p, q).events[TEMPERATURE]
    ensures HoldsLatest(q, ABS_THROTTLE, b.x, n.x)
  {
    FieldReads(p, q, ABS_THROTTLE, TEMPERATURE, b.x, n.x);
  }

  /** The codes that touch each sensor. */
  lemma CodesOfSensors(code: int)
    ensures SensorOf(code) == 0 <==> code in {ABS_X, ABS_Y, ABS_Z, ABS_WHEEL}
    ensures SensorOf(code) == 1 <==> code in {ABS_HAT0X, ABS_HAT0Y, ABS_BRAKE}
    ensures SensorOf(code) == 2 <==> code in {ABS_RX, ABS_RY, ABS_RZ, ABS_RUDDER}
    ensures SensorOf(code) == 3 <==> code == ABS_THROTTLE
  {
  }

  /** What no input code of sensor `j` sets is as it was. */
  predicate RestStays(before: SensorEvent, now: SensorEvent, j: nat) {
    && now.sensor == before.sensor
    && (j in {1, TEMPERATURE} ==> now.status == before.status)
    && (j == TEMPERATURE ==> now.y == before.y && now.z == before.z)
  }

  lemma {:induction false} UnsetFieldsStay(p: Pending, q: seq<InputEvent>, j: nat)
    requires p.Valid() && j < NUM_SENSORS
    ensures RestStays(p.events[j], Final(p, q).events[j], j)
    decreases |q|
  {
    if q != [] {
      UnsetFieldsStay(After(p, q[0]), q[1..], j);
    }
  }

  /** Sensor `j`'s share of a sync at `time` behind the input `q`, read off that input. */
  ghost predicate IsShare(enabled: set<int>, p: Pending, q: seq<InputEvent>, time: int, j: nat, es: seq<SensorEvent>)
    requires p.Valid() && j < NUM_SENSORS
  {
    if j in enabled && (TouchedSinceSync(q, j) || (j in p.mask && SyncFree(q))) then
      && |es| == 1 && es[0].timestamp == time
      && (forall code :: SensorOf(code) == j ==> HoldsLatest(q, code, Field(p.events[j], code), Field(es[0], code)))
      && RestStays(p.events[j], es[0], j)
    else es == []
  }

  lemma EmittedIsShare(enabled: set<int>, p: Pending, q: seq<InputEvent>, time: int, j: nat)
    requires p.Valid() && j < NUM_SENSORS
    ensures IsShare(enabled, p, q, time, j, Emitted(enabled, Final(p, q), time, j))
  {
    PendingMeansTouched(p, q, j);
    UnsetFieldsStay(p, q, j);
    var v := Final(p, q).events[j].(timestamp := time);
    forall code | SensorOf(code) == j ensures HoldsLatest(q, code, Field(p.events[j], code), Field(v, code)) {
      FieldsHoldLatest(p, q, code, j);
    }
  }

  /**
   * A sync adds to the stream, in sensor order, one event for each enabled sensor touched since the last sync,
   * stamped with its time and holding in each field the value of the latest input event for it.
   */
  lemma SyncSendsLatest(enabled: set<int>, p: Pending, q: seq<InputEvent>, e: InputEvent, out: seq<SensorEvent>)
      returns (es: seq<seq<SensorEvent>>)
    requires p.Valid() && e.kind.Syn?
    ensures |es| == NUM_SENSORS && forall j :: 0 <= j < NUM_SENSORS ==> IsShare(enabled, p, q, e.Nanos(), j, es[j])
    ensures OnePass(enabled, p, q + [e], out) == OnePass(enabled, p, q, out) + es[0] + es[1] + es[2] + es[3]
  {
    var f := Final(p, q);
    es := seq(NUM_SENSORS, j requires 0 <= j < NUM_SENSORS => Emitted(enabled, f, e.Nanos(), j));
    forall j | 0 <= j < NUM_SENSORS ensures IsShare(enabled, p, q, e.Nanos(), j, es[j]) {
      EmittedIsShare(enabled, p, q, e.Nanos(), j);
    }
    OnePassAppends(enabled, p, q, [e], out);
    var before := OnePass(enabled, p, q, out);
    assert [e][1..] == [];
    assert OnePass(enabled, f, [e], before) == Snapshot(enabled, f, e.Nanos(), 0, before);
  }

  // Any number of calls

  /** One `readEvents` call: the events it finds on the device, and the room in the caller's buffer. */
  datatype Call = Call(arrived: seq<InputEvent>, count: nat)

  /** `out` collects the buffers of all calls so far, each of which starts out empty. */
  function Calls(enabled: set<int>, p: Pending, q: seq<InputEvent>, calls: seq<Call>, out: seq<SensorEvent>)
      : (r: Drained)
    requires p.Valid()
    ensures r.pending.Valid()
    decreases |calls|
  {
    if calls == [] then Drained(p, q, out)
    else
      var d := Drain(enabled, p, q + calls[0].arrived, calls[0].count, []);
      Calls(enabled, d.pending, d.queue, calls[1..], out + d.out)
  }

  function Arrived(calls: seq<Call>): seq<InputEvent> {
    if calls == [] then [] else calls[0].arrived + Arrived(calls[1..])
  }

  lemma {:induction false} FlushShifts(enabled: set<int>, p: Pending, time: int, j: nat, count: nat,
                                       before: seq<SensorEvent>, out: seq<SensorEvent>)
    requires p.Valid() && j <= NUM_SENSORS && |out| <= count
    ensures var f := Flush(enabled, p, time, j, count, out);
            Flush(enabled, p, time, j, |before| + count, before + out) == (f.0, before + f.1)
    decreases NUM_SENSORS - j
  {
    if !(|out| == count || p.mask == {} || j == NUM_SENSORS) {
      var e := Emitted(enabled, p, time, j);
      assert (before + out) + e == before + (out + e);
      FlushShifts(enabled, Visited(p, j, time), time, j + 1, count, before, out + e);
    }
  }

  /** A drain into a fresh buffer is the drain that continues behind what went out before. */
  lemma {:induction false} DrainShifts(enabled: set<int>, p: Pending, q: seq<InputEvent>, count: nat,
                                       before: seq<SensorEvent>, out: seq<SensorEvent>)
    requires p.Valid() && |out| <= count
    ensures var d := Drain(enabled, p, q, count, out);
            Drain(enabled, p, q, |before| + count, before + out) == d.(out := before + d.out)
    decreases |q|
  {
    if |out| < count && q != [] {
      if !q[0].kind.Syn? {
        DrainShifts(enabled, After(p, q[0]), q[1..], count, before, out);
      } else {
        var f := Flush(enabled, p, q[0].Nanos(), 0, count, out);
        FlushShifts(enabled, p, q[0].Nanos(), 0, count, before, out);
        if f.0.mask == {} {
          DrainShifts(enabled, f.0, q[1..], count, before, f.1);
        }
      }
    }
  }

  /** The contract of one call: what it emits is the next stretch of the reference stream. */
  lemma CallStaysOnTheWay(enabled: set<int>, p: Pending, q: seq<InputEvent>, count: nat, out: seq<SensorEvent>)
    requires p.Valid()
    ensures var d := Drain(enabled, p, q, count, []);
            && OnTheWay(enabled, p, q, out, d.(out := out + d.out))
            && |d.out| <= count && (|d.out| < count ==> d.queue == [])
  {
    assert out + [] == out;
    DrainShifts(enabled, p, q, count, out, []);
    DrainStaysOnTheWay(enabled, p, q, |out| + count, out);
  }

  lemma {:induction false} CallsStayOnTheWay(enabled: set<int>, p: Pending, q: seq<InputEvent>, calls: seq<Call>,
                                             out: seq<SensorEvent>)
    requires p.Valid()
    ensures OnTheWay(enabled, p, q + Arrived(calls), out, Calls(enabled, p, q, calls, out))
    decreases |calls|
  {
    if calls == [] {
      assert q + [] == q;
    } else {
      var head, rest := q + calls[0].arrived, Arrived(calls[1..]);
      var d := Drain(enabled, p, head, calls[0].count, []);
      assert q + Arrived(calls) == head + rest;
      CallStaysOnTheWay(enabled, p, head, calls[0].count, out);
      OnePassAppends(enabled, p, head, rest, out);
      OnePassAppends(enabled, d.pending, d.queue, rest, out + d.out);
      CallsStayOnTheWay(enabled, d.pending, d.queue, calls[1..], out + d.out);
    }
  }

  /** However the input is cut into reads and the output into buffers, the stream is the one of a single pass. */
  lemma ChunkIndependence(enabled: set<int>, p: Pending, q: seq<InputEvent>, calls: seq<Call>)
    requires p.Valid()
    ensures var r, stream := Calls(enabled, p, q, calls, []), OnePass(enabled, p, q + Arrived(calls), []);
            && r.out <= stream
            && OnePass(enabled, r.pending, r.queue, r.out) == stream
            && (r.queue == [] ==> r.out == stream)
  {
    var r := Calls(enabled, p, q, calls, []);
    CallsStayOnTheWay(enabled, p, q, calls, []);
    OnePassExtends(enabled, r.pending, r.queue, r.out);
  }

  // The temperature shortcut

  /** The enabled sensors after one is switched, which the chip may refuse. */
  function Switched(enabled: set<int>, what: int, on: bool, accepted: bool): set<int> {
    if !accepted then enabled else if on then enabled + {what} else enabled - {what}
  }

  /** Switching the temperature on, when it is off, raises the flag for the shortcut, even if the chip refuses. */
  predicate RaisesPending(enabled: set<int>, what: int, on: bool) {
    what == TEMPERATURE && on && what !in enabled
  }

  datatype Switch = Switch(what: int, on: bool, accepted: bool)

  function AllSwitched(enabled: set<int>, ws: seq<Switch>): set<int>
    decreases |ws|
  {
    if ws == [] then enabled else AllSwitched(Switched(enabled, ws[0].what, ws[0].on, ws[0].accepted), ws[1..])
  }

  /** The last switch of sensor `j` that the chip accepts. */
  predicate LastFor(ws: seq<Switch>, j: int, k: int) {
    && 0 <= k < |ws| && ws[k].what == j && ws[k].accepted
    && forall n :: k < n < |ws| && ws[n].what == j ==> !ws[n].accepted
  }

  /** That one decides whether the sensor is enabled; without one, nothing changes for it. */
  lemma {:induction false} LastSwitchDecides(enabled: set<int>, ws: seq<Switch>, j: int)
    ensures forall k :: LastFor(ws, j, k) ==> (j in AllSwitched(enabled, ws) <==> ws[k].on)
    ensures (forall k :: !LastFor(ws, j, k)) ==> (j in AllSwitched(enabled, ws) <==> j in enabled)
    decreases |ws|
  {
    if ws != [] {
      var rest := ws[1..];
      LastSwitchDecides(Switched(enabled, ws[0].what, ws[0].on, ws[0].accepted), rest, j);
      assert forall n :: 0 < n < |ws| ==> ws[n] == rest[n - 1];
      LastOfRest(rest, j);
      forall k | LastFor(ws, j, k) ensures k > 0 ==> LastFor(rest, j, k - 1) {
      }
      forall k | LastFor(rest, j, k) ensures LastFor(ws, j, k + 1) {
      }
      if ws[0].what == j && ws[0].accepted && forall k :: !LastFor(rest, j, k) {
        assert LastFor(ws, j, 0);
      }
    }
  }

  lemma {:induction false} LastOfRest(ws: seq<Switch>, j: int)
    ensures (forall k :: !LastFor(ws, j, k)) ==> forall n :: 0 <= n < |ws| && ws[n].what == j ==> !ws[n].accepted
    decreases |ws|
  {
    if ws != [] {
      var n := |ws| - 1;
      if ws[n].what == j && ws[n].accepted {
        assert LastFor(ws, j, n);
      } else {
        LastOfRest(ws[..n], j);
        if k :| LastFor(ws[..n], j, k) {
          assert LastFor(ws, j, k);
        }
      }
    }
  }

  /** Equal up to the timestamps that the next sync overwrites anyway. */
  predicate SameReadings(p: Pending, p': Pending) {
    p.Valid() && p'.Valid() && p.mask == p'.mask &&
    forall j :: 0 <= j < NUM_SENSORS ==> p.events[j].(timestamp := 0) == p'.events[j].(timestamp := 0)
  }

  /** `readEvents` answering with the pending temperature stamps its event but nothing else. */
  function Shortcut(p: Pending, now: int): Pending
    requires p.Valid()
  {
    p.(events := p.events[TEMPERATURE := p.events[TEMPERATURE].(timestamp := now)])
  }

  lemma {:induction false} SnapshotIgnoresStamps(enabled: set<int>, p: Pending, p': Pending, time: int, j: nat,
                                                 out: seq<SensorEvent>)
    requires SameReadings(p, p') && j <= NUM_SENSORS
    ensures Snapshot(enabled, p, time, j, out) == Snapshot(enabled, p', time, j, out)
    decreases NUM_SENSORS - j
  {
    if j < NUM_SENSORS {
      assert p.events[j].(timestamp := 0).(timestamp := time) == p'.events[j].(timestamp := 0).(timestamp := time);
      SnapshotIgnoresStamps(enabled, p, p', time, j + 1, out + Emitted(enabled, p, time, j));
    }
  }

  lemma {:induction false} StreamIgnoresStamps(enabled: set<int>, p: Pending, p': Pending, q: seq<InputEvent>,
                                               out: seq<SensorEvent>)
    requires SameReadings(p, p')
    ensures OnePass(enabled, p, q, out) == OnePass(enabled, p', q, out)
    decreases |q|
  {
    if q != [] {
      SnapshotIgnoresStamps(enabled, p, p', q[0].Nanos(), 0, out);
      StreamIgnoresStamps(enabled, After(p, q[0]), After(p', q[0]), q[1..],
                          if q[0].kind.Syn? then Snapshot(enabled, p, q[0].Nanos(), 0, out) else out);
    }
  }

  /** The shortcut answers for the temperature alone, with the latest value read for it and the time of the call. */
  lemma ShortcutSendsLatest(p: Pending, q: seq<InputEvent>, now: int)
    requires p.Valid()
    ensures var p' := Shortcut(Final(p, q), now);
            var v := p'.events[TEMPERATURE];
            && v.timestamp == now && RestStays(p.events[TEMPERATURE], v, TEMPERATURE)
            && HoldsLatest(q, ABS_THROTTLE, p.events[TEMPERATURE].x, v.x)
            && SameReadings(p', Final(p, q))
  {
    FieldsHoldLatest(p, q, ABS_THROTTLE, TEMPERATURE);
    UnsetFieldsStay(p, q, TEMPERATURE);
  }

  /** The shortcut slips one event in; the stream still owed, whatever arrives later, does not change. */
  lemma ShortcutKeepsStream(enabled: set<int>, p: Pending, now: int, q: seq<InputEvent>, out: seq<SensorEvent>)
    requires p.Valid()
    ensures OnePass(enabled, Shortcut(p, now), q, out) == OnePass(enabled, p, q, out)
  {
    StreamIgnoresStamps(enabled, Shortcut(p, now), p, q, out);
  }
}
