/** What each sensor's stream is worth in sessions that switch sensors and take shortcuts. */
module PollShares {
  import opened EventRing
  import opened SensorStreams
  import opened PollLoop
  import opened PollShortcut

  /** The events of sensor `j`. */
  function Of(es: seq<SensorEvent>, j: int): seq<SensorEvent> {
    if es == [] then []
    else if es[|es| - 1].sensor == j then Of(es[..|es| - 1], j) + [es[|es| - 1]]
    else Of(es[..|es| - 1], j)
  }

  lemma {:induction false} OfAppends(es: seq<SensorEvent>, more: seq<SensorEvent>, j: int)
    ensures Of(es + more, j) == Of(es, j) + Of(more, j)
    decreases |more|
  {
    if more == [] {
      assert es + more == es;
    } else {
      var n := |more| - 1;
      assert (es + more)[..|es + more| - 1] == es + more[..n];
      OfAppends(es, more[..n], j);
    }
  }

  lemma OfPrefix(es: seq<SensorEvent>, more: seq<SensorEvent>, j: int)
    requires es <= more
    ensures Of(es, j) <= Of(more, j)
  {
    assert es + more[|es|..] == more;
    OfAppends(es, more[|es|..], j);
  }

  /** Every event carries the number of its sensor, as the constructor of the driver sets it. */
  predicate Labelled(p: Pending) {
    p.Valid() && forall j :: 0 <= j < NUM_SENSORS ==> p.events[j].sensor == j
  }

  lemma {:induction false} FinalKeepsLabels(p: Pending, q: seq<InputEvent>)
    requires p.Valid()
    ensures Labelled(Final(p, q)) <==> Labelled(p)
    decreases |q|
  {
    if q != [] {
      var p' := After(p, q[0]);
      assert forall j :: 0 <= j < NUM_SENSORS ==> p'.events[j].sensor == p.events[j].sensor;
      FinalKeepsLabels(p', q[1..]);
    }
  }

  lemma {:induction false} FinalIgnoresStamps(p: Pending, p': Pending, q: seq<InputEvent>)
    requires SameReadings(p, p')
    ensures SameReadings(Final(p, q), Final(p', q))
    decreases |q|
  {
    if q != [] {
      FinalIgnoresStamps(After(p, q[0]), After(p', q[0]), q[1..]);
    }
  }

  /** What a sensor hands out under two settings that agree on sensor `j`. */
  lemma EmittedOf(en: set<int>, en': set<int>, p: Pending, time: int, i: nat, j: int)
    requires Labelled(p) && i < NUM_SENSORS && (j in en <==> j in en')
    ensures Of(Emitted(en, p, time, i), j) == Of(Emitted(en', p, time, i), j)
  {
    if i == j {
      assert Emitted(en, p, time, i) == Emitted(en', p, time, i);
    }
  }

  /** What goes out at a sync under two such settings. */
  lemma {:induction false} SnapshotOf(en: set<int>, en': set<int>, p: Pending, time: int, i: nat, j: int,
                                      out: seq<SensorEvent>, out': seq<SensorEvent>)
    requires Labelled(p) && i <= NUM_SENSORS && (j in en <==> j in en') && Of(out, j) == Of(out', j)
    ensures Of(Snapshot(en, p, time, i, out), j) == Of(Snapshot(en', p, time, i, out'), j)
    decreases NUM_SENSORS - i
  {
    if i < NUM_SENSORS {
      EmittedOf(en, en', p, time, i, j);
      OfAppends(out, Emitted(en, p, time, i), j);
      OfAppends(out', Emitted(en', p, time, i), j);
      SnapshotOf(en, en', p, time, i + 1, j, out + Emitted(en, p, time, i), out' + Emitted(en', p, time, i));
    }
  }

  /** Sensor `j`'s share of a stream depends on no other sensor's switch. */
  lemma {:induction false} OnePassOf(en: set<int>, en': set<int>, p: Pending, q: seq<InputEvent>, j: int,
                                     out: seq<SensorEvent>, out': seq<SensorEvent>)
    requires Labelled(p) && (j in en <==> j in en') && Of(out, j) == Of(out', j)
    ensures Of(OnePass(en, p, q, out), j) == Of(OnePass(en', p, q, out'), j)
    decreases |q|
  {
    if q != [] {
      var t := q[0].Nanos();
      FinalKeepsLabels(p, [q[0]]);
      SnapshotOf(en, en', p, t, 0, j, out, out');
      OnePassOf(en, en', After(p, q[0]), q[1..], j, if q[0].kind.Syn? then Snapshot(en, p, t, 0, out) else out,
                if q[0].kind.Syn? then Snapshot(en', p, t, 0, out') else out');
    }
  }

  /** Of sensor `j`, the driver still owes exactly the rest of what the reference stream has. */
  predicate Owes(d0: Driver, d: Driver, sent: seq<SensorEvent>, j: int)
    requires d0.Valid() && d.Valid() && d0.Compass?
  {
    && d.Compass? && Labelled(d.pending) && (j in d.enabled <==> j in d0.enabled)
    && Of(OnePass(d.enabled, d.pending, d.unread, sent), j) == Of(Reference(d0, d.taken), j)
    && SameReadings(Final(d.pending, d.unread), Final(d0.pending, d.taken))
  }

  /** A driver with one sensor is faithful; the compass is so as regards sensor `j`. */
  predicate InStep(d0: Driver, d: Driver, sent: seq<SensorEvent>, j: int)
    requires d0.Valid() && d.Valid()
  {
    if d0.Single? then Faithful(d0, d, sent) else Owes(d0, d, sent, j)
  }

  lemma InStepMeansPrefix(d0: Driver, d: Driver, sent: seq<SensorEvent>, j: int)
    requires d0.Valid() && d.Valid() && d0.Compass? && Owes(d0, d, sent, j)
    ensures Of(sent, j) <= Of(Reference(d0, d.taken), j)
    ensures d.unread == [] ==> Of(sent, j) == Of(Reference(d0, d.taken), j)
  {
    OnePassExtends(d.enabled, d.pending, d.unread, sent);
    OfPrefix(sent, OnePass(d.enabled, d.pending, d.unread, sent), j);
  }

  lemma ShortcutStaysInStep(d0: Driver, d: Driver, sent: seq<SensorEvent>, e: SensorEvent, now: int, j: int)
    requires d0.Valid() && d.Valid() && d0.Compass? && Owes(d0, d, sent, j) && j != TEMPERATURE
    requires e == d.pending.events[TEMPERATURE].(timestamp := now)
    ensures Owes(d0, d.(hasPending := false, pending := Shortcut(d.pending, now)), sent + [e], j)
  {
    var p, p', q := d.pending, Shortcut(d.pending, now), d.unread;
    OfAppends(sent, [e], j);
    assert Of([e], j) == [];
    ShortcutKeepsStream(d.enabled, p, now, q, sent + [e]);
    OnePassOf(d.enabled, d.enabled, p, q, j, sent, sent + [e]);
    assert SameReadings(p', p);
    FinalIgnoresStamps(p', p, q);
  }

  lemma DrainStaysInStep(d0: Driver, d: Driver, sent: seq<SensorEvent>, a: seq<InputEvent>, s: Drained, count: nat,
                         j: int)
    requires d0.Valid() && d.Valid() && d0.Compass? && Owes(d0, d, sent, j)
    requires s == Drain(d.enabled, d.pending, d.unread + a, count, []) && |s.queue| <= RING_EVENTS
    ensures Owes(d0, Compass(d.enabled, false, s.pending, s.queue, d.taken + a), sent + s.out, j)
  {
    var en, p, q, t := d.enabled, d.pending, d.unread, d.taken;
    CallStaysOnTheWay(en, p, q + a, count, sent);
    OnePassAppends(en, p, q, a, sent);
    OnePassAppends(d0.enabled, d0.pending, t, a, []);
    StreamIgnoresStamps(en, Final(p, q), Final(d0.pending, t), a, OnePass(en, p, q, sent));
    FinalIgnoresStamps(Final(p, q), Final(d0.pending, t), a);
    FinalKeepsLabels(p, q);
    FinalKeepsLabels(p, q + a);
    FinalKeepsLabels(s.pending, s.queue);
    OnePassOf(en, d0.enabled, Final(d0.pending, t), a, j, OnePass(en, p, q, sent), Reference(d0, t));
  }

  /** A read leaves the driver in step, by the shortcut or not. */
  lemma ReadStaysInStep(d0: Driver, d: Driver, sent: seq<SensorEvent>, arrived: seq<InputEvent>, now: int, count: nat,
                        j: int)
    requires d0.Valid() && d.Valid() && InStep(d0, d, sent, j) && count > 0 && j != TEMPERATURE
    ensures var r := ReadEvents(d, arrived, now, count); InStep(d0, r.driver, sent + r.out, j)
  {
    if d0.Single? {
      ReadStaysFaithful(d0, d, sent, arrived, now, count);
    } else if d.hasPending {
      ShortcutStaysInStep(d0, d, sent, d.pending.events[TEMPERATURE].(timestamp := now), now, j);
    } else {
      var a := d.Delivered(arrived);
      DrainStaysInStep(d0, d, sent, a, Drain(d.enabled, d.pending, d.unread + a, count, []), count, j);
    }
  }

  lemma EnableStaysInStep(d0: Driver, d: Driver, sent: seq<SensorEvent>, what: int, on: bool, accepted: bool, j: int)
    requires d0.Valid() && d.Valid() && InStep(d0, d, sent, j) && (d0.Compass? ==> what != j)
    ensures InStep(d0, EnableSensor(d, what, on, accepted), sent, j)
  {
    if d0.Compass? {
      OnePassOf(d.enabled, Switched(d.enabled, what, on, accepted), d.pending, d.unread, j, sent, sent);
    }
  }

  // Through the loops

  predicate StepOf(c0: Context, c: Context, k: nat, j: int)
    requires c0.Valid() && c.Valid() && k < NUM_DRIVERS
  {
    InStep(c0.drivers[k], c.drivers[k], From(c.out, k), j)
  }

  lemma ReplyStaysInStep(c0: Context, c: Context, i: nat, r: Reply, c': Context, k: nat, j: int)
    requires c0.Valid() && c.Valid() && c'.Valid() && i < NUM_DRIVERS && k < NUM_DRIVERS && r.driver.Valid()
    requires if k == i then InStep(c0.drivers[i], r.driver, From(c.out, i) + r.out, j) else StepOf(c0, c, k, j)
    requires c'.drivers == c.drivers[i := r.driver] && c'.out == c.out + Tagged(i, r.out)
    ensures StepOf(c0, c', k, j)
  {
    FromTagged(c.out, i, r.out, k);
  }

  lemma TurnStaysInStep(c0: Context, c: Context, arrived: seq<InputEvent>, now: int, i: nat, limit: nat, k: nat, j: int)
    requires c0.Valid() && c.Valid() && i < NUM_DRIVERS && k < NUM_DRIVERS && |c.out| < limit && j != TEMPERATURE
    requires StepOf(c0, c, k, j)
    ensures StepOf(c0, Turn(c, arrived, now, i, limit), k, j)
  {
    if WantsRead(c, i) {
      var room := limit - |c.out|;
      var r := ReadEvents(c.drivers[i], arrived, now, room);
      if k == i {
        ReadStaysInStep(c0.drivers[i], c.drivers[i], From(c.out, i), arrived, now, room, j);
      }
      ReplyStaysInStep(c0, c, i, r, Turn(c, arrived, now, i, limit), k, j);
    }
  }

  lemma {:induction false} SweepStaysInStep(c0: Context, c: Context, arrived: seq<seq<InputEvent>>, now: int,
                                            limit: nat, k: nat, j: int)
    requires c0.Valid() && c.Valid() && |arrived| <= NUM_DRIVERS && |c.out| <= limit && k < NUM_DRIVERS
    requires StepOf(c0, c, k, j) && j != TEMPERATURE
    ensures StepOf(c0, Sweep(c, arrived, now, limit).context, k, j)
    decreases |arrived|
  {
    if |c.out| < limit && arrived != [] && !StopsAt(c, arrived[0], NUM_DRIVERS - |arrived|) {
      TurnStaysInStep(c0, c, arrived[0], now, NUM_DRIVERS - |arrived|, limit, k, j);
      SweepStaysInStep(c0, Turn(c, arrived[0], now, NUM_DRIVERS - |arrived|, limit), arrived[1..], now, limit, k, j);
    }
  }

  lemma RoundStaysInStep(c0: Context, c: Context, w: Round, start: nat, limit: nat, r: Polled, k: nat, j: int)
    requires c0.Valid() && c.Valid() && |w.arrived| == NUM_DRIVERS && w.answer.Valid() && start <= |c.out| <= limit
    requires k < NUM_DRIVERS && StepOf(c0, c, k, j) && j != TEMPERATURE && r == Attempt(c, w, start, limit)
    ensures StepOf(c0, r.context, k, j)
  {
    SweepStaysInStep(c0, c, w.arrived, w.now, limit, k, j);
  }

  lemma {:induction false} PollStaysInStep(c0: Context, c: Context, env: seq<Round>, start: nat, limit: nat,
                                           k: nat, j: int)
    requires c0.Valid() && c.Valid() && ValidRounds(env) && start <= |c.out| <= limit && k < NUM_DRIVERS
    requires StepOf(c0, c, k, j) && j != TEMPERATURE
    ensures StepOf(c0, Poll(c, env, start, limit).context, k, j)
    decreases |env|
  {
    if env != [] {
      var r := Attempt(c, env[0], start, limit);
      RoundStaysInStep(c0, c, env[0], start, limit, r, k, j);
      if r.ending == Running {
        PollStaysInStep(c0, r.context, env[1..], start, limit, k, j);
      }
    }
  }

  /** The session never switches sensor `j`. */
  predicate NeverSwitches(acts: seq<Act>, j: int) {
    forall n :: 0 <= n < |acts| && acts[n].Enable? ==> acts[n].what != j
  }

  lemma ActStaysInStep(c0: Context, c: Context, act: Act, k: nat, j: int)
    requires c0.Valid() && c.Valid() && (act.Fetch? ==> ValidRounds(act.call.env))
    requires k < NUM_DRIVERS && StepOf(c0, c, k, j) && j != TEMPERATURE
    requires act.Enable? && c0.drivers[k].Compass? ==> act.what != j
    ensures StepOf(c0, Acted(c, act), k, j)
  {
    if act.Fetch? {
      PollStaysInStep(c0, c, act.call.env, |c.out|, |c.out| + act.call.count, k, j);
    } else {
      EnableStaysInStep(c0.drivers[k], c.drivers[k], From(c.out, k), act.what, act.on, act.accepted, j);
    }
  }

  lemma {:induction false} SessionStaysInStep(c0: Context, c: Context, acts: seq<Act>, k: nat, j: int)
    requires c0.Valid() && c.Valid() && ValidActs(acts) && k < NUM_DRIVERS && StepOf(c0, c, k, j) && j != TEMPERATURE
    requires c0.drivers[k].Compass? ==> NeverSwitches(acts, j)
    ensures StepOf(c0, Live(c, acts), k, j)
    decreases |acts|
  {
    if acts != [] {
      ActStaysInStep(c0, c, acts[0], k, j);
      SessionStaysInStep(c0, Acted(c, acts[0]), acts[1..], k, j);
    }
  }

  lemma ActKeepsSafe(c: Context, act: Act, k: nat)
    requires c.Valid() && (act.Fetch? ==> ValidRounds(act.call.env)) && k < NUM_DRIVERS
    requires c.drivers[k].Single? && Safe(c, k)
    ensures Safe(Acted(c, act), k)
  {
    if act.Fetch? {
      var start, limit := |c.out|, |c.out| + act.call.count;
      PollKeepsSafe(c, act.call.env, start, limit, k);
    }
  }

  lemma {:induction false} SingleStaysSafe(c0: Context, c: Context, acts: seq<Act>, k: nat, j: int)
    requires c0.Valid() && c.Valid() && ValidActs(acts) && k < NUM_DRIVERS && c0.drivers[k].Single? && j != TEMPERATURE
    requires StepOf(c0, c, k, j) && Safe(c, k)
    ensures Safe(Live(c, acts), k)
    decreases |acts|
  {
    if acts != [] {
      ActStaysInStep(c0, c, acts[0], k, j);
      ActKeepsSafe(c, acts[0], k);
      SingleStaysSafe(c0, Acted(c, acts[0]), acts[1..], k, j);
    }
  }

  /**
   * Whatever the session switches and whichever shortcuts it takes: the share of a driver with one sensor is a prefix
   * of its one-pass stream, the whole of it when its flag is clear.
   */
  lemma SinglesEndToEnd(c: Context, acts: seq<Act>, k: nat)
    requires c.Valid() && c.out == [] && ValidActs(acts) && k < NUM_DRIVERS
    requires c.drivers[k].Single? && c.drivers[k].unread == c.drivers[k].taken == []
    ensures var r, sent := Live(c, acts), From(Live(c, acts).out, k);
            && sent <= Reference(c.drivers[k], r.drivers[k].taken)
            && (!r.revents[k] ==> sent == Reference(c.drivers[k], r.drivers[k].taken))
  {
    var r := Live(c, acts);
    SessionStaysInStep(c, c, acts, k, 0);
    SingleStaysSafe(c, c, acts, k, 0);
    FaithfulMeansPrefix(c.drivers[k], r.drivers[k], From(r.out, k));
  }

  /**
   * The same of each sensor of the compass chip but the temperature, if the session does not switch that sensor, with
   * an empty ring in place of the clear flag.
   */
  lemma CompassEndToEnd(c: Context, acts: seq<Act>, k: nat, j: int)
    requires c.Valid() && c.out == [] && ValidActs(acts) && k < NUM_DRIVERS
    requires var d := c.drivers[k]; d.Compass? && d.unread == d.taken == [] && Labelled(d.pending)
    requires j != TEMPERATURE && NeverSwitches(acts, j)
    ensures var r, sent := Live(c, acts), Of(From(Live(c, acts).out, k), j);
            && sent <= Of(Reference(c.drivers[k], r.drivers[k].taken), j)
            && (r.drivers[k].unread == [] ==> sent == Of(Reference(c.drivers[k], r.drivers[k].taken), j))
  {
    var r := Live(c, acts);
    SessionStaysInStep(c, c, acts, k, j);
    InStepMeansPrefix(c.drivers[k], r.drivers[k], From(r.out, k), j);
  }
}
