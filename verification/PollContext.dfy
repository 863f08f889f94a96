/** The poll loop over the driver objects themselves, which share the caller's buffer; it may have to wait in a read. */
module PollContext {
  import opened Basics
  import opened EventRing
  import opened SensorStreams
  import opened SensorDrivers
  import opened SingleSensor
  import opened PollLoop
  import opened PollShortcut

  ghost function SingleValue(s: Sensor, taken: seq<InputEvent>): (d: Driver)
    requires s.Valid()
    reads s, s.reader, s.reader.buffer
    ensures d.Valid()
  {
    Single(s.model, s.pendingEvent, s.reader.Contents(), taken)
  }

  ghost function CompassValue(s: SensorAK8973, taken: seq<InputEvent>): (d: Driver)
    requires s.Valid()
    reads s, s.reader, s.reader.buffer
    ensures d.Valid()
  {
    Compass(s.enabled, s.hasPendingEvent, s.State(), s.reader.Contents(), taken)
  }

  datatype Reading = Reading(waits: bool, reply: Reply)

  /** What a call comes to; one that waits in `read` has written nothing and left the driver as it was. */
  function WaitOrRead(d: Driver, arrived: seq<InputEvent>, now: int, count: nat): (r: Reading)
    requires d.Valid() && count > 0
    ensures r.reply.driver.Valid() && |r.reply.out| <= count
  {
    if d.MustWait(arrived) then Reading(true, Reply(d, []))
    else Reading(false, PollLoop.ReadEvents(d, arrived, now, count))
  }

  /** `readEvents` of a driver with one sensor, `arrived` being on its device; `waits` if its read finds nothing. */
  method ReadSingle(s: Sensor, data: array<SensorEvent>, at: nat, count: nat, arrived: seq<InputEvent>, now: int,
                    ghost taken: seq<InputEvent>)
      returns (waits: bool, n: nat, ghost taken': seq<InputEvent>)
    requires s.Valid() && 0 < count && at + count <= data.Length
    modifies s`pendingEvent, s.reader, s.reader.buffer, data
    ensures s.Valid() && n <= count && data[..at] == old(data[..at])
    ensures Reading(waits, Reply(SingleValue(s, taken'), data[at..at + n])) ==
            WaitOrRead(old(SingleValue(s, taken)), arrived, now, count)
  {
    waits := arrived == [] && s.reader.freeSpace > 0;
    if waits {
      return waits, 0, taken;
    }
    var events := Deliver(arrived, s.reader.freeSpace);
    ghost var d := SingleValue(s, taken);
    assert events == d.Delivered(arrived);
    taken' := taken + events;
    n := s.ReadEvents(data, at, count, Complete(events));
  }

  method ReadCompass(s: SensorAK8973, data: array<SensorEvent>, at: nat, count: nat, arrived: seq<InputEvent>,
                     now: int, ghost taken: seq<InputEvent>)
      returns (waits: bool, n: nat, ghost taken': seq<InputEvent>)
    requires s.Valid() && 0 < count && at + count <= data.Length
    modifies s`hasPendingEvent, s`pendingMask, s`pendingEvents, s.reader, s.reader.buffer, data
    ensures s.Valid() && n <= count && data[..at] == old(data[..at])
    ensures Reading(waits, Reply(CompassValue(s, taken'), data[at..at + n])) ==
            WaitOrRead(old(CompassValue(s, taken)), arrived, now, count)
  {
    waits := !s.hasPendingEvent && arrived == [] && s.reader.freeSpace > 0;
    if waits {
      return waits, 0, taken;
    }
    var events := Deliver(arrived, s.reader.freeSpace);
    ghost var d := CompassValue(s, taken);
    assert events == d.Delivered(arrived);
    taken' := if s.hasPendingEvent then taken else taken + events;
    n := s.ReadEvents(data, at, count, Complete(events), now);
    assert old(s.hasPendingEvent) ==> data[at..at + n] == [data[at]];
  }

  /** The `n` events in `data` from `at` on. */
  ghost predicate Holds(data: array<SensorEvent>, at: nat, n: nat, events: seq<SensorEvent>)
    reads data
  {
    at + n <= data.Length && data[at..at + n] == events
  }

  /** Driver `k` has given the reply, and nothing else has changed. */
  ghost predicate AfterReading(was: Context, c: Context, k: nat, reply: Reply)
    requires was.Valid() && c.Valid() && k < NUM_DRIVERS
  {
    && c.drivers[k] == reply.driver && c.revents == was.revents && c.out == was.out
    && forall i :: 0 <= i < NUM_DRIVERS && i != k ==> c.drivers[i] == was.drivers[i]
  }

  class SensorsPollContext {
    const accelerometer: Sensor
    const compass: SensorAK8973
    const proximity: Sensor
    const light: Sensor
    const revents: array<bool>
    ghost var taken: seq<seq<InputEvent>>
    ghost var sent: seq<Output>

    /** The four drivers share nothing. */
    ghost predicate Apart() {
      && accelerometer != proximity && accelerometer != light && proximity != light
      && accelerometer.reader != compass.reader && accelerometer.reader != proximity.reader
      && accelerometer.reader != light.reader && compass.reader != proximity.reader
      && compass.reader != light.reader && proximity.reader != light.reader
      && accelerometer.reader.buffer != compass.reader.buffer
      && accelerometer.reader.buffer != proximity.reader.buffer
      && accelerometer.reader.buffer != light.reader.buffer
      && compass.reader.buffer != proximity.reader.buffer
      && compass.reader.buffer != light.reader.buffer && proximity.reader.buffer != light.reader.buffer
    }

    /** What the drivers consist of. */
    ghost function Rings(): set<object> {
      {accelerometer, accelerometer.reader, accelerometer.reader.buffer, compass, compass.reader,
       compass.reader.buffer, proximity, proximity.reader, proximity.reader.buffer, light, light.reader,
       light.reader.buffer}
    }

    ghost predicate Valid()
      reads this, revents, accelerometer, accelerometer.reader, accelerometer.reader.buffer
      reads compass, compass.reader, compass.reader.buffer, proximity, proximity.reader, proximity.reader.buffer
      reads light, light.reader, light.reader.buffer
    {
      && Apart() && revents.Length == NUM_DRIVERS && |taken| == NUM_DRIVERS
      && accelerometer.Valid() && compass.Valid() && proximity.Valid() && light.Valid()
    }

    ghost function View(): (c: Context)
      requires Valid()
      reads this, revents, accelerometer, accelerometer.reader, accelerometer.reader.buffer
      reads compass, compass.reader, compass.reader.buffer, proximity, proximity.reader, proximity.reader.buffer
      reads light, light.reader, light.reader.buffer
      ensures c.Valid()
    {
      Context([SingleValue(accelerometer, taken[0]), CompassValue(compass, taken[1]),
               SingleValue(proximity, taken[2]), SingleValue(light, taken[3])], revents[..], sent)
    }

    constructor (accelerometerType: int, proximityType: int, lightType: int, garbage: SensorEvent)
      ensures Valid() && revents[..] == NO_FLAGS && taken == [[], [], [], []] && sent == []
      ensures accelerometer.reader.Contents() == compass.reader.Contents() == [] && !compass.hasPendingEvent
      ensures proximity.reader.Contents() == light.reader.Contents() == []
    {
      accelerometer := new Sensor(KXTF9, accelerometerType, garbage);
      compass := new SensorAK8973();
      proximity := new Sensor(ISL29030P, proximityType, garbage);
      light := new Sensor(ISL29030L, lightType, garbage);
      revents := new bool[NUM_DRIVERS](i => false);
      taken, sent := [[], [], [], []], [];
    }

    /** `hasPendingEvents`, which only the compass driver overrides. */
    predicate HasPendingEvents(i: nat)
      reads compass
    {
      i == COMPASS && compass.hasPendingEvent
    }

    /** The KXTF9 driver. */
    method ReadAccelerometer(data: array<SensorEvent>, at: nat, count: nat, arrived: seq<InputEvent>, now: int,
                             ghost was: Context, ghost reading: Reading)
        returns (waits: bool, n: nat)
      requires Valid() && was == View() && 0 < count && at + count <= data.Length
      requires reading == WaitOrRead(was.drivers[0], arrived, now, count)
      modifies `taken, data, accelerometer, accelerometer.reader, accelerometer.reader.buffer
      ensures Valid() && n <= count && data[..at] == old(data[..at]) && Holds(data, at, n, reading.reply.out)
      ensures waits == reading.waits && AfterReading(was, View(), 0, reading.reply)
    {
      ghost var mine;
      waits, n, mine := ReadSingle(accelerometer, data, at, count, arrived, now, taken[0]);
      taken := taken[0 := mine];
    }

    /** The AK8973 driver. */
    method ReadCompassChip(data: array<SensorEvent>, at: nat, count: nat, arrived: seq<InputEvent>, now: int,
                           ghost was: Context, ghost reading: Reading)
        returns (waits: bool, n: nat)
      requires Valid() && was == View() && 0 < count && at + count <= data.Length
      requires reading == WaitOrRead(was.drivers[1], arrived, now, count)
      modifies `taken, data, compass, compass.reader, compass.reader.buffer
      ensures Valid() && n <= count && data[..at] == old(data[..at]) && Holds(data, at, n, reading.reply.out)
      ensures waits == reading.waits && AfterReading(was, View(), 1, reading.reply)
    {
      ghost var mine;
      waits, n, mine := ReadCompass(compass, data, at, count, arrived, now, taken[1]);
      taken := taken[1 := mine];
    }

    /** The ISL29030 proximity driver. */
    method ReadProximity(data: array<SensorEvent>, at: nat, count: nat, arrived: seq<InputEvent>, now: int,
                         ghost was: Context, ghost reading: Reading)
        returns (waits: bool, n: nat)
      requires Valid() && was == View() && 0 < count && at + count <= data.Length
      requires reading == WaitOrRead(was.drivers[2], arrived, now, count)
      modifies `taken, data, proximity, proximity.reader, proximity.reader.buffer
      ensures Valid() && n <= count && data[..at] == old(data[..at]) && Holds(data, at, n, reading.reply.out)
      ensures waits == reading.waits && AfterReading(was, View(), 2, reading.reply)
    {
      ghost var mine;
      waits, n, mine := ReadSingle(proximity, data, at, count, arrived, now, taken[2]);
      taken := taken[2 := mine];
    }

    /** The ISL29030 light driver. */
    method ReadLight(data: array<SensorEvent>, at: nat, count: nat, arrived: seq<InputEvent>, now: int,
                     ghost was: Context, ghost reading: Reading)
        returns (waits: bool, n: nat)
      requires Valid() && was == View() && 0 < count && at + count <= data.Length
      requires reading == WaitOrRead(was.drivers[3], arrived, now, count)
      modifies `taken, data, light, light.reader, light.reader.buffer
      ensures Valid() && n <= count && data[..at] == old(data[..at]) && Holds(data, at, n, reading.reply.out)
      ensures waits == reading.waits && AfterReading(was, View(), 3, reading.reply)
    {
      ghost var mine;
      waits, n, mine := ReadSingle(light, data, at, count, arrived, now, taken[3]);
      taken := taken[3 := mine];
    }

    /** Driver 0 or 1. */
    method ReadMotion(i: nat, data: array<SensorEvent>, at: nat, count: nat, arrived: seq<InputEvent>, now: int,
                      ghost was: Context, ghost reading: Reading)
        returns (waits: bool, n: nat)
      requires Valid() && was == View() && i < 2 && 0 < count && at + count <= data.Length
      requires reading == WaitOrRead(was.drivers[i], arrived, now, count)
      modifies `taken, data
      modifies accelerometer, accelerometer.reader, accelerometer.reader.buffer
      modifies compass, compass.reader, compass.reader.buffer
      ensures Valid() && n <= count && data[..at] == old(data[..at]) && Holds(data, at, n, reading.reply.out)
      ensures waits == reading.waits && AfterReading(was, View(), i, reading.reply)
    {
      if i == 0 {
        waits, n := ReadAccelerometer(data, at, count, arrived, now, was, reading);
      } else {
        waits, n := ReadCompassChip(data, at, count, arrived, now, was, reading);
      }
    }

    /** Driver 2 or 3. */
    method ReadOptical(i: nat, data: array<SensorEvent>, at: nat, count: nat, arrived: seq<InputEvent>, now: int,
                       ghost was: Context, ghost reading: Reading)
        returns (waits: bool, n: nat)
      requires Valid() && was == View() && 2 <= i < NUM_DRIVERS && 0 < count && at + count <= data.Length
      requires reading == WaitOrRead(was.drivers[i], arrived, now, count)
      modifies `taken, data
      modifies proximity, proximity.reader, proximity.reader.buffer
      modifies light, light.reader, light.reader.buffer
      ensures Valid() && n <= count && data[..at] == old(data[..at]) && Holds(data, at, n, reading.reply.out)
      ensures waits == reading.waits && AfterReading(was, View(), i, reading.reply)
    {
      if i == 2 {
        waits, n := ReadProximity(data, at, count, arrived, now, was, reading);
      } else {
        waits, n := ReadLight(data, at, count, arrived, now, was, reading);
      }
    }

    /** `readEvents` of driver `i`. */
    method ReadEventsOf(i: nat, data: array<SensorEvent>, at: nat, count: nat, arrived: seq<InputEvent>, now: int,
                        ghost was: Context, ghost reading: Reading)
        returns (waits: bool, n: nat)
      requires Valid() && was == View() && i < NUM_DRIVERS && 0 < count && at + count <= data.Length
      requires reading == WaitOrRead(was.drivers[i], arrived, now, count)
      modifies `taken, data
      modifies accelerometer, accelerometer.reader, accelerometer.reader.buffer
      modifies compass, compass.reader, compass.reader.buffer
      modifies proximity, proximity.reader, proximity.reader.buffer
      modifies light, light.reader, light.reader.buffer
      ensures Valid() && n <= count && data[..at] == old(data[..at]) && Holds(data, at, n, reading.reply.out)
      ensures waits == reading.waits && AfterReading(was, View(), i, reading.reply)
    {
      if i < 2 {
        waits, n := ReadMotion(i, data, at, count, arrived, now, was, reading);
      } else {
        waits, n := ReadOptical(i, data, at, count, arrived, now, was, reading);
      }
    }

    /**
     * One driver's turn: its events go right behind the `done` ones already in `data`. Nothing happens if its read
     * waits.
     */
    method ReadDriver(data: array<SensorEvent>, done: nat, room: nat, w: Round, i: nat, ghost before: nat,
                      ghost limit: nat)
        returns (nbEvents: nat, count: nat, waits: bool)
      requires Valid() && 0 < room && done + room <= data.Length && i < NUM_DRIVERS && |w.arrived| == NUM_DRIVERS
      requires revents[i] || HasPendingEvents(i)
      requires before + done == |sent| && limit == |sent| + room && data[..done] == Events(sent[before..])
      modifies `sent, `taken, revents, data, Rings()
      ensures nbEvents + count == done + room && before + nbEvents == |sent| && old(sent) <= sent
      ensures waits == StopsAt(old(View()), w.arrived[i], i)
      ensures Valid() && View() == if waits then old(View()) else Turn(old(View()), w.arrived[i], w.now, i, limit)
      ensures data[..nbEvents] == Events(sent[before..])
    {
      ghost var was := sent;
      ghost var d := View().drivers[i];
      ghost var reading := WaitOrRead(d, w.arrived[i], w.now, room);
      ghost var turn := if reading.waits then View() else Turn(View(), w.arrived[i], w.now, i, limit);
      var nb;
      waits, nb := ReadAndRecord(data, done, room, w, i, limit, reading, turn);
      nbEvents, count := done + nb, room - nb;
      ShownGrows(data, done, nb, was, before, i, reading.reply.out);
    }

    /** The call of the driver, and what the loop makes of its return value. */
    method ReadAndRecord(data: array<SensorEvent>, done: nat, room: nat, w: Round, i: nat, ghost limit: nat,
                         ghost reading: Reading, ghost turn: Context)
        returns (waits: bool, nb: nat)
      requires Valid() && 0 < room && done + room <= data.Length && i < NUM_DRIVERS && |w.arrived| == NUM_DRIVERS
      requires (revents[i] || HasPendingEvents(i)) && limit == |sent| + room
      requires reading == WaitOrRead(View().drivers[i], w.arrived[i], w.now, room)
      requires turn == if reading.waits then View() else Turn(View(), w.arrived[i], w.now, i, limit)
      modifies `sent, `taken, revents, data, Rings()
      ensures waits == reading.waits && Valid() && View() == turn && sent == old(sent) + Tagged(i, reading.reply.out)
      ensures nb <= room && data[..done] == old(data[..done]) && Holds(data, done, nb, reading.reply.out)
    {
      ghost var was := View();
      waits, nb := ReadEventsOf(i, data, done, room, w.arrived[i], w.now, was, reading);
      ghost var read := View();
      if waits {
        NothingRead(was, read, i, reading.reply);
      } else {
        var short := nb < room;
        Record(i, short, reading.reply.out);
      }
    }

    /** The flag is cleared after a short read, and the events count as sent. */
    method Record(i: nat, short: bool, ghost out: seq<SensorEvent>)
      requires Valid() && i < NUM_DRIVERS
      modifies `sent, revents
      ensures Valid() && sent == old(sent) + Tagged(i, out)
      ensures View() == Recorded(old(View()), i, short, out)
    {
      if short {
        revents[i] := false;
      }
      sent := sent + Tagged(i, out);
    }

    /** The `for` loop over the drivers; `all` is what it comes to. */
    method SweepDrivers(data: array<SensorEvent>, done: nat, room: nat, w: Round, ghost before: nat, ghost limit: nat,
                        ghost all: Swept)
        returns (nbEvents: nat, count: nat, waits: Option<nat>)
      requires Valid() && done + room <= data.Length && |w.arrived| == NUM_DRIVERS
      requires before + done == |sent| && limit == |sent| + room && data[..done] == Events(sent[before..])
      requires all == Sweep(View(), w.arrived, w.now, limit)
      modifies `sent, `taken, revents, data, Rings()
      ensures Valid() && Swept(View(), waits) == all
      ensures nbEvents + count == done + room && before + nbEvents == |sent| && old(sent) <= sent
      ensures data[..nbEvents] == Events(sent[before..])
    {
      nbEvents, count, waits := done, room, None;
      var i := 0;
      assert w.arrived[i..] == w.arrived;
      while count > 0 && i < NUM_DRIVERS
        invariant 0 <= i <= NUM_DRIVERS && Valid() && nbEvents + count == done + room
        invariant before + nbEvents == |sent| && limit == |sent| + count && old(sent) <= sent
        invariant data[..nbEvents] == Events(sent[before..])
        invariant all == Sweep(View(), w.arrived[i..], w.now, limit)
      {
        var stop;
        nbEvents, count, stop := OfferTurn(data, nbEvents, count, w, i, before, limit, all);
        if stop {
          return nbEvents, count, Some(i);
        }
        i := i + 1;
      }
    }

    /** One round of that loop. */
    method OfferTurn(data: array<SensorEvent>, done: nat, room: nat, w: Round, i: nat, ghost before: nat,
                     ghost limit: nat, ghost all: Swept)
        returns (nbEvents: nat, count: nat, waits: bool)
      requires Valid() && 0 < room && done + room <= data.Length && i < NUM_DRIVERS && |w.arrived| == NUM_DRIVERS
      requires before + done == |sent| && limit == |sent| + room && data[..done] == Events(sent[before..])
      requires all == Sweep(View(), w.arrived[i..], w.now, limit)
      modifies `sent, `taken, revents, data, Rings()
      ensures nbEvents + count == done + room && before + nbEvents == |sent| && old(sent) <= sent
      ensures Valid()
      ensures all == if waits then Swept(View(), Some(i)) else Sweep(View(), w.arrived[i + 1..], w.now, limit)
      ensures data[..nbEvents] == Events(sent[before..])
    {
      nbEvents, count, waits := done, room, false;
      if revents[i] || HasPendingEvents(i) {
        nbEvents, count, waits := ReadDriver(data, done, room, w, i, before, limit);
      }
    }

    /** The `poll` call, made only while there is room: it waits without limit while nothing was produced. */
    method Await(count: nat, nbEvents: nat, answer: Answer, ghost start: nat) returns (ending: Ending)
      requires Valid() && answer.Valid() && |sent| == start + nbEvents
      modifies revents
      ensures Valid() && Polled(View(), ending) == Answered(old(View()), answer, start, start + nbEvents + count)
    {
      if count == 0 {
        return Returned;
      }
      if answer.Failed? {
        return PollFailed(answer.errno);
      }
      if !answer.Some() && nbEvents == 0 {
        return Blocked;
      }
      forall i | 0 <= i < NUM_DRIVERS {
        revents[i] := answer.revents[i];
      }
      assert revents[..] == answer.revents;
      return if answer.Some() then Running else Returned;
    }

    /** One round of the `do` loop; `all` is what the call comes to. */
    method TryOnce(data: array<SensorEvent>, done: nat, room: nat, rounds: seq<Round>, ghost before: nat,
                   ghost limit: nat, ghost all: Polled)
        returns (nbEvents: nat, count: nat, ending: Ending)
      requires Valid() && done + room <= data.Length && ValidRounds(rounds) && rounds != []
      requires before + done == |sent| && limit == |sent| + room && data[..done] == Events(sent[before..])
      requires all == Poll(View(), rounds, before, limit)
      modifies `sent, `taken, revents, data, Rings()
      ensures nbEvents + count == done + room && before + nbEvents == |sent| && old(sent) <= sent
      ensures data[..nbEvents] == Events(sent[before..])
      ensures Valid() && all == if ending == Running then Poll(View(), rounds[1..], before, limit)
                                else Polled(View(), ending)
    {
      ghost var w, c := rounds[0], View();
      ghost var swept := Sweep(c, w.arrived, w.now, limit);
      var waits;
      nbEvents, count, waits := SweepDrivers(data, done, room, rounds[0], before, limit, swept);
      if waits.Some? {
        ending := Waiting(waits.value);
      } else {
        ending := Await(count, nbEvents, rounds[0].answer, before);
      }
    }

    /** Writes the events to `data`; `status` is what the caller sees when the call comes back. */
    method PollEvents(data: array<SensorEvent>, size: nat, env: seq<Round>) returns (status: int, ending: Ending)
      requires Valid() && size <= data.Length && ValidRounds(env)
      modifies `sent, `taken, revents, data, Rings()
      ensures Valid()
      ensures Polled(View(), ending) == Poll(old(View()), env, |old(sent)|, |old(sent)| + size)
      ensures old(sent) <= sent && |sent| <= |old(sent)| + size
      ensures data[..|sent| - |old(sent)|] == Events(sent[|old(sent)|..])
      ensures ending == Returned ==> status == |sent| - |old(sent)|
      ensures ending.PollFailed? ==> status == -(ending.errno as int)
    {
      ghost var before, limit := |sent|, |sent| + size;
      ghost var all := Poll(View(), env, before, limit);
      var nbEvents;
      nbEvents, ending := TryUntilDone(data, size, env, before, limit, all);
      return if ending.PollFailed? then -(ending.errno as int) else nbEvents, ending;
    }

    /** The `do` loop. */
    method TryUntilDone(data: array<SensorEvent>, size: nat, env: seq<Round>, ghost before: nat, ghost limit: nat,
                        ghost all: Polled)
        returns (nbEvents: nat, ending: Ending)
      requires Valid() && size <= data.Length && ValidRounds(env) && before == |sent| && limit == before + size
      requires all == Poll(View(), env, before, limit)
      modifies `sent, `taken, revents, data, Rings()
      ensures Valid() && all == Polled(View(), ending)
      ensures old(sent) <= sent && before + nbEvents == |sent| <= limit && data[..nbEvents] == Events(sent[before..])
    {
      var count, rounds := size, env;
      nbEvents, ending := 0, Running;
      while rounds != [] && ending == Running
        invariant Valid() && ValidRounds(rounds) && nbEvents + count == size
        invariant before + nbEvents == |sent| && limit == |sent| + count && old(sent) <= sent
        invariant data[..nbEvents] == Events(sent[before..])
        invariant all == if ending == Running then Poll(View(), rounds, before, limit) else Polled(View(), ending)
        decreases |rounds|
      {
        nbEvents, count, ending := TryOnce(data, nbEvents, count, rounds, before, limit, all);
        rounds := rounds[1..];
      }
    }

    /** Switching a virtual sensor of the compass chip. */
    method EnableCompass(what: int, on: bool, accepted: bool)
      requires Valid() && 0 <= what < NUM_SENSORS
      modifies compass
      ensures Valid() && View() == Acted(old(View()), Enable(what, on, accepted))
    {
      compass.Enable(what, on, accepted);
    }
  }

  function Recorded(c: Context, i: nat, short: bool, out: seq<SensorEvent>): Context
    requires c.Valid() && i < NUM_DRIVERS
  {
    Context(c.drivers, if short then c.revents[i := false] else c.revents, c.out + Tagged(i, out))
  }

  lemma NothingRead(was: Context, read: Context, i: nat, reply: Reply)
    requires was.Valid() && read.Valid() && i < NUM_DRIVERS && AfterReading(was, read, i, reply)
    requires reply == Reply(was.drivers[i], [])
    ensures read == was && was.out + Tagged(i, reply.out) == was.out
  {
    assert read.drivers == was.drivers;
  }

  /** The events just read stand behind the others in the buffer, as they do among those sent. */
  lemma ShownGrows(data: array<SensorEvent>, done: nat, nb: nat, sent: seq<Output>, before: nat, i: nat,
                   out: seq<SensorEvent>)
    requires before <= |sent| && done <= data.Length && data[..done] == Events(sent[before..])
    requires Holds(data, done, nb, out)
    ensures data[..done + nb] == Events((sent + Tagged(i, out))[before..])
  {
    assert data[..done + nb] == data[..done] + out;
    assert (sent + Tagged(i, out))[before..] == sent[before..] + Tagged(i, out);
  }
}
