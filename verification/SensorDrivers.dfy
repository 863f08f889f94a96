/** The drivers as objects: a ring buffer, pending state, and loops that fill the caller's buffer. */
module SensorDrivers {
  import opened EventRing
  import opened SensorStreams

  class SensorAK8973 {
    const reader: InputEventCircularReader
    var enabled: set<int>
    var hasPendingEvent: bool
    var pendingMask: set<int>
    var pendingEvents: seq<SensorEvent>

    function State(): Pending
      reads this
    {
      Pending(pendingMask, pendingEvents)
    }

    ghost predicate Valid()
      reads this, reader, reader.buffer
    {
      reader.Valid() && reader.numEvents == RING_EVENTS && State().Valid()
    }

    constructor ()
      ensures Valid() && fresh(reader) && fresh(reader.buffer)
      ensures reader.Contents() == [] && pendingMask == {} && enabled == {} && !hasPendingEvent
    {
      reader := new InputEventCircularReader(RING_EVENTS);
      enabled, hasPendingEvent, pendingMask := {}, false, {};
      pendingEvents := [SensorEvent(0, 0, 0, 0, 3, 0), SensorEvent(1, 0, 0, 0, 2, 0),
                        SensorEvent(2, 0, 0, 0, 3, 0), SensorEvent(3, 0, 0, 0, 0, 0)];
    }

    method ProcessEvent(code: int, value: int)
      requires State().Valid()
      modifies `pendingMask, `pendingEvents
      ensures State() == Process(old(State()), code, value)
    {
      var j := SensorOf(code);
      if j >= 0 {
        pendingMask := pendingMask + {j};
        pendingEvents := pendingEvents[j := pendingEvents[j].Measured(code, value)];
      }
    }

    /** The loop over the sensors at a sync, going on behind the `n` events that stand from `at` on. */
    method FlushSensors(data: array<SensorEvent>, at: nat, count: nat, n: nat, time: int) returns (n': nat)
      requires State().Valid() && n <= count && at + count <= data.Length
      modifies `pendingMask, `pendingEvents, data
      ensures n <= n' <= count && data[..at] == old(data[..at])
      ensures Flush(enabled, old(State()), time, 0, count, old(data[at..at + n])) == (State(), data[at..at + n'])
    {
      n' := n;
      var j := 0;
      ghost var all := Flush(enabled, State(), time, j, count, data[at..at + n]);
      while n' < count && pendingMask != {} && j < NUM_SENSORS
        invariant 0 <= j <= NUM_SENSORS && n <= n' <= count && State().Valid()
        invariant data[..at] == old(data[..at])
        invariant all == Flush(enabled, State(), time, j, count, data[at..at + n'])
      {
        n' := VisitSensor(data, at, n', time, j);
        j := j + 1;
      }
    }

    /** One round of that loop. */
    method VisitSensor(data: array<SensorEvent>, at: nat, n: nat, time: int, j: nat) returns (n': nat)
      requires State().Valid() && at + n < data.Length && j < NUM_SENSORS
      modifies `pendingMask, `pendingEvents, data
      ensures State() == Visited(old(State()), j, time) && data[..at] == old(data[..at])
      ensures n <= n' <= n + 1
      ensures data[at..at + n'] == old(data[at..at + n]) + Emitted(enabled, old(State()), time, j)
    {
      n' := n;
      if j in pendingMask {
        pendingMask := pendingMask - {j};
        pendingEvents := pendingEvents[j := pendingEvents[j].(timestamp := time)];
        if j in enabled {
          data[at + n] := pendingEvents[j];
          n' := n + 1;
        }
      }
    }

    /** Switching a virtual sensor; the chip may refuse. Switching the temperature on leaves an event pending. */
    method Enable(what: int, on: bool, accepted: bool)
      requires Valid() && 0 <= what < NUM_SENSORS
      modifies `enabled, `hasPendingEvent
      ensures Valid() && enabled == Switched(old(enabled), what, on, accepted)
      ensures hasPendingEvent == (old(hasPendingEvent) || RaisesPending(old(enabled), what, on))
      ensures forall j :: j in enabled <==> if j == what && accepted then on else j in old(enabled)
      ensures hasPendingEvent <==> old(hasPendingEvent) || (what == TEMPERATURE && on && TEMPERATURE !in old(enabled))
    {
      if on != (what in enabled) {
        if what == TEMPERATURE && on {
          hasPendingEvent := true;
        }
        if accepted {
          enabled := if on then enabled + {what} else enabled - {what};
        }
      }
    }

    /**
     * The events handed out stand in `data` from `at` on. A pending temperature is answered alone, without touching
     * the ring; otherwise the call is one `Drain` of everything unread.
     */
    method ReadEvents(data: array<SensorEvent>, at: nat, count: int, r: ReadResult, now: int) returns (n: int)
      requires Valid() && at <= data.Length && at + count <= data.Length && Fits(r, reader.freeSpace)
      modifies `hasPendingEvent, `pendingMask, `pendingEvents, reader, reader.buffer, data
      ensures Valid() && data[..at] == old(data[..at])
      ensures count < 1 ==> n == -EINVAL && State() == old(State()) && reader.Contents() == old(reader.Contents())
      ensures count >= 1 ==> !hasPendingEvent
      ensures count >= 1 && old(hasPendingEvent) ==>
                && n == 1 && data[at] == old(pendingEvents[TEMPERATURE]).(timestamp := now)
                && State() == Shortcut(old(State()), now) && reader.Contents() == old(reader.Contents())
      ensures count >= 1 && !old(hasPendingEvent) && FillStatus(r, old(reader.freeSpace)) < 0 ==>
                && n == FillStatus(r, old(reader.freeSpace))
                && State() == old(State()) && reader.Contents() == old(reader.Contents())
      ensures count >= 1 && !old(hasPendingEvent) && FillStatus(r, old(reader.freeSpace)) >= 0 ==>
                && 0 <= n <= count
                && Drained(State(), reader.Contents(), data[at..at + n]) ==
                   Drain(enabled, old(State()), old(reader.Contents()) + Accepted(r, old(reader.freeSpace)), count, [])
    {
      if count < 1 {
        return -EINVAL;
      }
      if hasPendingEvent {
        hasPendingEvent := false;
        pendingEvents := pendingEvents[TEMPERATURE := pendingEvents[TEMPERATURE].(timestamp := now)];
        data[at] := pendingEvents[TEMPERATURE];
        return 1;
      }
      var status := reader.Fill(r);
      if status < 0 {
        return status;
      }
      n := DrainReader(data, at, count);
    }

    /** The loop over the unread events, until they are used up or the buffer is full. */
    method DrainReader(data: array<SensorEvent>, at: nat, count: nat) returns (n: nat)
      requires Valid() && at + count <= data.Length
      modifies `pendingMask, `pendingEvents, reader, data
      ensures Valid() && n <= count && data[..at] == old(data[..at])
      ensures Drained(State(), reader.Contents(), data[at..at + n]) ==
              Drain(enabled, old(State()), old(reader.Contents()), count, [])
    {
      ghost var all := Drain(enabled, State(), reader.Contents(), count, []);
      n := 0;
      assert data[at..at + n] == [];
      var available, slot := reader.ReadEvent();
      while n < count && available != 0
        invariant n <= count && Valid() && data[..at] == old(data[..at])
        invariant slot == reader.curr && (available == if reader.Contents() == [] then 0 else 1)
        invariant all == Drain(enabled, State(), reader.Contents(), count, data[at..at + n])
        decreases |reader.Contents()|, count - n
      {
        n := Handle(data, at, count, n, all);
        available, slot := reader.ReadEvent();
      }
    }

    /** One round of that loop, at the oldest unread event; `all` is what the drain comes to. */
    method Handle(data: array<SensorEvent>, at: nat, count: nat, n: nat, ghost all: Drained) returns (n': nat)
      requires Valid() && reader.Contents() != [] && n < count && at + count <= data.Length
      requires all == Drain(enabled, State(), reader.Contents(), count, data[at..at + n])
      modifies `pendingMask, `pendingEvents, reader, data
      ensures Valid() && n <= n' <= count && data[..at] == old(data[..at])
      ensures |reader.Contents()| < |old(reader.Contents())| || (n' > n && reader.Contents() == old(reader.Contents()))
      ensures all == Drain(enabled, State(), reader.Contents(), count, data[at..at + n'])
    {
      n' := n;
      var available, slot := reader.ReadEvent();
      var event := reader.buffer[slot];
      if event.kind == Syn {
        n' := Sync(data, at, count, n, event, all);
      } else {
        TakeIn(event, count, data[at..at + n], all);
      }
    }

    /** Any other event: a measurement is taken in, the rest is dropped. */
    method TakeIn(event: InputEvent, ghost count: nat, ghost out: seq<SensorEvent>, ghost all: Drained)
      requires Valid() && reader.Contents() != [] && event == reader.Contents()[0] && !event.kind.Syn?
      requires |out| < count && all == Drain(enabled, State(), reader.Contents(), count, out)
      modifies `pendingMask, `pendingEvents, reader
      ensures Valid() && State() == After(old(State()), event) && reader.Contents() == old(reader.Contents())[1..]
      ensures all == Drain(enabled, State(), reader.Contents(), count, out)
    {
      if event.kind == Abs {
        ProcessEvent(event.code, event.value);
      }
      reader.Next();
    }

    /** At a sync: it is done with once no bit is pending any more. */
    method Sync(data: array<SensorEvent>, at: nat, count: nat, n: nat, event: InputEvent, ghost all: Drained)
        returns (n': nat)
      requires Valid() && n < count && at + count <= data.Length
      requires all == Drain(enabled, State(), reader.Contents(), count, data[at..at + n])
      requires reader.Contents() != [] && event == reader.Contents()[0] && event.kind.Syn?
      modifies `pendingMask, `pendingEvents, reader, data
      ensures Valid() && n <= n' <= count && data[..at] == old(data[..at])
      ensures |reader.Contents()| < |old(reader.Contents())| || (n' > n && reader.Contents() == old(reader.Contents()))
      ensures all == Drain(enabled, State(), reader.Contents(), count, data[at..at + n'])
    {
      ghost var p, q, out := State(), reader.Contents(), data[at..at + n];
      FlushKeepsSnapshot(enabled, p, event.Nanos(), 0, count, out);
      n' := FlushSensors(data, at, count, n, event.Nanos());
      DrainAtSync(enabled, p, q, count, out, State(), data[at..at + n']);
      if pendingMask == {} {
        reader.Next();
      }
    }
  }

  /** What the drain comes to when a flush has ended, and with a bit still pending it ends too. */
  lemma DrainAtSync(enabled: set<int>, p: Pending, q: seq<InputEvent>, count: nat, out: seq<SensorEvent>,
                    p': Pending, out': seq<SensorEvent>)
    requires p.Valid() && |out| < count && q != [] && q[0].kind.Syn?
    requires Flush(enabled, p, q[0].Nanos(), 0, count, out) == (p', out') && (p'.mask != {} ==> |out'| == count)
    ensures Drain(enabled, p, q, count, out) ==
            Drain(enabled, p', if p'.mask == {} then q[1..] else q, count, out')
  {
  }
}
