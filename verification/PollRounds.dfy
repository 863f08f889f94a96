/** What a call comes to, told by the drivers' own streams and the rounds. */
module PollRounds {
  import opened Basics
  import opened EventRing
  import opened SensorStreams
  import opened SingleSensor
  import opened PollLoop
  import opened PollShortcut

  /** A driver's turn with room for everything: it hands out all it has read and all that its device has. */
  function Alone(d: Driver, flag: bool, arrived: seq<InputEvent>, now: int): (r: Reply)
    requires d.Valid()
    ensures r.driver.Valid()
  {
    if !flag && !d.HasPendingEvents() then Reply(d, [])
    else
      var a := d.Delivered(arrived);
      match d
      case Single(m, e, q, t) => Reply(Single(m, SingleFinal(m, e, q + a), [], t + a), SinglePass(m, e, q + a, []))
      case Compass(en, true, p, q, t) =>
        Reply(Compass(en, false, Shortcut(p, now), q, t), [p.events[TEMPERATURE].(timestamp := now)])
      case Compass(en, false, p, q, t) =>
        Reply(Compass(en, false, Final(p, q + a), [], t + a), OnePass(en, p, q + a, []))
  }

  /** Driver `i` in a round. */
  function Part(c: Context, w: Round, i: nat): (r: Reply)
    requires c.Valid() && |w.arrived| == NUM_DRIVERS && i < NUM_DRIVERS
    ensures r.driver.Valid()
  {
    Alone(c.drivers[i], c.revents[i], w.arrived[i], w.now)
  }

  /** What the first `k` drivers hand out in a round. */
  function Share(c: Context, w: Round, k: nat): seq<Output>
    requires c.Valid() && |w.arrived| == NUM_DRIVERS && k <= NUM_DRIVERS
  {
    if k == 0 then [] else Share(c, w, k - 1) + Tagged(k - 1, Part(c, w, k - 1).out)
  }

  /** A round with room for everything. */
  function Unlimited(c: Context, w: Round): (r: Context)
    requires c.Valid() && |w.arrived| == NUM_DRIVERS
    ensures r.Valid() && c.out <= r.out
  {
    Context(seq(NUM_DRIVERS, i requires 0 <= i < NUM_DRIVERS => Part(c, w, i).driver), NO_FLAGS,
            c.out + Share(c, w, NUM_DRIVERS))
  }

  /** No read of the round waits, and what the drivers have to hand out leaves room in the buffer. */
  predicate Passes(c: Context, w: Round, limit: nat)
    requires c.Valid() && |w.arrived| == NUM_DRIVERS
  {
    && |Unlimited(c, w).out| < limit
    && forall i :: 0 <= i < NUM_DRIVERS && c.revents[i] ==> !c.drivers[i].MustWait(w.arrived[i])
  }

  /** With a shortfall of room a driver fills the buffer; otherwise it does what it would do alone. */
  lemma ReadsAsAlone(d: Driver, arrived: seq<InputEvent>, now: int, count: nat)
    requires d.Valid() && count > 0
    ensures var r, f := ReadEvents(d, arrived, now, count), Alone(d, true, arrived, now);
            && |r.out| <= count && (|r.out| < count <==> |f.out| < count)
            && (|f.out| < count ==> r == f)
  {
    match d
    case Single(m, e, q, t) =>
      var all := q + d.Delivered(arrived);
      var s := Serve(m, e, all, count, []);
      ServedNext(m, e, all, count, []);
      assert [] + s.out == s.out;
      SinglePassExtends(m, s.event, s.queue, s.out);
    case Compass(en, true, p, q, t) =>
    case Compass(en, false, p, q, t) =>
      var all := q + d.Delivered(arrived);
      var s := Drain(en, p, all, count, []);
      CallStaysOnTheWay(en, p, all, count, []);
      assert [] + s.out == s.out;
      OnePassExtends(en, s.pending, s.queue, s.out);
  }

  /** The turn of driver `i`, which has not had one yet, in a loop that has gone on from `c`. */
  lemma TurnAsAlone(s: Context, arrived: seq<InputEvent>, now: int, i: nat, limit: nat)
    requires s.Valid() && i < NUM_DRIVERS && |s.out| < limit
    ensures var r, f := Turn(s, arrived, now, i, limit), Alone(s.drivers[i], s.revents[i], arrived, now);
            && (|r.out| < limit <==> |s.out| + |f.out| < limit)
            && (|r.out| < limit ==>
                  r == Context(s.drivers[i := f.driver], s.revents[i := false], s.out + Tagged(i, f.out)))
  {
    if WantsRead(s, i) {
      ReadsAsAlone(s.drivers[i], arrived, now, limit - |s.out|);
    } else {
      assert s.drivers[i := s.drivers[i]] == s.drivers && s.revents[i := false] == s.revents;
      assert s.out + Tagged(i, []) == s.out;
    }
  }

  /** After the first `k` turns with room left and no read waiting. */
  predicate Went(c: Context, w: Round, k: nat, s: Context)
    requires c.Valid() && |w.arrived| == NUM_DRIVERS && k <= NUM_DRIVERS && s.Valid()
  {
    && s.out == c.out + Share(c, w, k)
    && (forall i :: 0 <= i < k ==> s.drivers[i] == Part(c, w, i).driver && !s.revents[i])
    && forall i :: k <= i < NUM_DRIVERS ==> s.drivers[i] == c.drivers[i] && s.revents[i] == c.revents[i]
  }

  /** The first `k` drivers leave room, and none of their reads waits. */
  predicate PassesTo(c: Context, w: Round, k: nat, limit: nat)
    requires c.Valid() && |w.arrived| == NUM_DRIVERS && k <= NUM_DRIVERS
  {
    && |c.out| + |Share(c, w, k)| < limit
    && forall i :: 0 <= i < k && c.revents[i] ==> !c.drivers[i].MustWait(w.arrived[i])
  }

  lemma PassesBefore(c: Context, w: Round, k: nat, limit: nat)
    requires c.Valid() && |w.arrived| == NUM_DRIVERS && k < NUM_DRIVERS && PassesTo(c, w, k + 1, limit)
    ensures PassesTo(c, w, k, limit)
  {
  }

  /** The loop with its budget gets past the first `k` drivers exactly when they do alone, and with the same result. */
  lemma {:induction false} TurnsAsAlone(c: Context, w: Round, k: nat, limit: nat, r: Swept)
    requires c.Valid() && |w.arrived| == NUM_DRIVERS && k <= NUM_DRIVERS && |c.out| <= limit
    requires r == FirstTurns(c, w.arrived, w.now, k, limit)
    ensures r.waits.None? && |r.context.out| < limit <==> PassesTo(c, w, k, limit)
    ensures PassesTo(c, w, k, limit) ==> Went(c, w, k, r.context)
    decreases k
  {
    if k == 0 {
      assert c.out + [] == c.out;
    } else {
      var n, s := k - 1, FirstTurns(c, w.arrived, w.now, k - 1, limit);
      TurnsAsAlone(c, w, n, limit, s);
      if s.waits.None? && |s.context.out| < limit {
        OneMoreTurn(c, w, n, limit, s.context);
      } else if PassesTo(c, w, k, limit) {
        PassesBefore(c, w, n, limit);
      }
    }
  }

  lemma OneMoreTurn(c: Context, w: Round, k: nat, limit: nat, s: Context)
    requires c.Valid() && |w.arrived| == NUM_DRIVERS && k < NUM_DRIVERS && s.Valid() && |s.out| < limit
    requires PassesTo(c, w, k, limit) && Went(c, w, k, s)
    ensures PassesTo(c, w, k + 1, limit) <==>
            !StopsAt(s, w.arrived[k], k) && |Turn(s, w.arrived[k], w.now, k, limit).out| < limit
    ensures PassesTo(c, w, k + 1, limit) ==> Went(c, w, k + 1, Turn(s, w.arrived[k], w.now, k, limit))
  {
    var f := Part(c, w, k);
    TurnAsAlone(s, w.arrived[k], w.now, k, limit);
    assert Share(c, w, k + 1) == Share(c, w, k) + Tagged(k, f.out);
    GoesOn(c, w, k, s, f, Turn(s, w.arrived[k], w.now, k, limit));
  }

  lemma GoesOn(c: Context, w: Round, k: nat, s: Context, f: Reply, t: Context)
    requires c.Valid() && |w.arrived| == NUM_DRIVERS && k < NUM_DRIVERS && s.Valid() && t.Valid() && Went(c, w, k, s)
    requires f == Part(c, w, k)
    ensures t == Context(s.drivers[k := f.driver], s.revents[k := false], s.out + Tagged(k, f.out)) ==>
              Went(c, w, k + 1, t)
  {
    var before, mine := Share(c, w, k), Tagged(k, f.out);
    assert (c.out + before) + mine == c.out + (before + mine);
  }

  /** The `for` loop leaves room and waits nowhere if and only if the round passes; then it is as without a limit. */
  lemma SweepAsAlone(c: Context, w: Round, limit: nat)
    requires c.Valid() && |w.arrived| == NUM_DRIVERS && |c.out| <= limit
    ensures var s := Sweep(c, w.arrived, w.now, limit);
            && (s.waits.None? && |s.context.out| < limit <==> Passes(c, w, limit))
            && (Passes(c, w, limit) ==> s.context == Unlimited(c, w))
  {
    var s, n := FirstTurns(c, w.arrived, w.now, NUM_DRIVERS, limit), |w.arrived|;
    SweepGoesOn(c, w.arrived, w.now, n, limit);
    TurnsAsAlone(c, w, n, limit, s);
    if Passes(c, w, limit) {
      assert s.context.drivers == Unlimited(c, w).drivers;
      assert s.context.revents == NO_FLAGS;
    }
  }

  // A call in which `poll` fails

  /** What the call has come to when `poll` fails: every answer before was positive and every round passed. */
  function FailedAt(c: Context, env: seq<Round>, limit: nat): (r: Option<Context>)
    requires c.Valid() && ValidRounds(env)
    ensures r.Some? ==> r.value.Valid() && c.out <= r.value.out
    decreases |env|
  {
    if env == [] || !Passes(c, env[0], limit) then None
    else
      var w, c' := env[0], Unlimited(c, env[0]);
      if w.answer.Failed? then Some(c')
      else if w.answer.Some() then FailedAt(c'.(revents := w.answer.revents), env[1..], limit)
      else None
  }

  lemma RoundFails(c: Context, w: Round, start: nat, limit: nat, r: Polled)
    requires c.Valid() && |w.arrived| == NUM_DRIVERS && w.answer.Valid() && start <= |c.out| <= limit
    requires r == Attempt(c, w, start, limit)
    ensures r.ending.PollFailed? <==> Passes(c, w, limit) && w.answer.Failed?
    ensures r.ending == Running <==> Passes(c, w, limit) && w.answer.Some()
    ensures r.ending.PollFailed? ==> r.context == Unlimited(c, w)
    ensures r.ending == Running ==> r.context == Unlimited(c, w).(revents := w.answer.revents)
  {
    SweepAsAlone(c, w, limit);
  }

  /** `poll` fails in a call exactly when the rounds say so, and the call has done until then what the rounds say. */
  lemma {:induction false} FailsExactly(c: Context, env: seq<Round>, start: nat, limit: nat)
    requires c.Valid() && ValidRounds(env) && start <= |c.out| <= limit
    ensures var r := Poll(c, env, start, limit);
            && (r.ending.PollFailed? <==> FailedAt(c, env, limit).Some?)
            && (r.ending.PollFailed? ==> FailedAt(c, env, limit) == Some(r.context))
    decreases |env|
  {
    if env != [] {
      var r := Attempt(c, env[0], start, limit);
      RoundFails(c, env[0], start, limit, r);
      if r.ending == Running {
        FailsExactly(r.context, env[1..], start, limit);
      }
    }
  }

  // Which rounds write nothing

  /** Event `n` of `q` is a sync, and the enabled sensor `j` was touched since the sync before it. */
  ghost predicate ReportsWhen(enabled: set<int>, p: Pending, q: seq<InputEvent>, n: int, j: int) {
    && 0 <= n < |q| && q[n].kind.Syn? && 0 <= j < NUM_SENSORS && j in enabled
    && (TouchedSinceSync(q[..n], j) || (j in p.mask && SyncFree(q[..n])))
  }

  ghost predicate Reports(enabled: set<int>, p: Pending, q: seq<InputEvent>) {
    exists n, j :: ReportsWhen(enabled, p, q, n, j)
  }

  /** The driver has an event to hand out, going by what it holds and what its device has. */
  ghost predicate Speaks(d: Driver, flag: bool, arrived: seq<InputEvent>)
    requires d.Valid()
  {
    || d.HasPendingEvents()
    || (flag && match d
                case Single(_, _, q, _) => !SyncFree(q + d.Delivered(arrived))
                case Compass(en, _, p, q, _) => Reports(en, p, q + d.Delivered(arrived)))
  }

  lemma {:induction false} SinglePassSilent(m: Model, e: SensorEvent, q: seq<InputEvent>, out: seq<SensorEvent>)
    ensures SinglePass(m, e, q, out) == out <==> SyncFree(q)
    decreases |q|
  {
    if q != [] {
      var sync := out + [e.(timestamp := q[0].Nanos())];
      SinglePassSilent(m, Passed(m, e, q[0]), q[1..], if q[0].kind.Syn? then sync else out);
      SinglePassExtends(m, Passed(m, e, q[0]), q[1..], sync);
      assert SyncFree(q) <==> !q[0].kind.Syn? && SyncFree(q[1..]);
    }
  }

  lemma {:induction false} SnapshotSilent(enabled: set<int>, p: Pending, time: int, j: nat, out: seq<SensorEvent>)
    requires p.Valid() && j <= NUM_SENSORS
    ensures out <= Snapshot(enabled, p, time, j, out)
    ensures Snapshot(enabled, p, time, j, out) == out <==>
            forall i :: j <= i < NUM_SENSORS ==> !(i in enabled && i in p.mask)
    decreases NUM_SENSORS - j
  {
    if j < NUM_SENSORS {
      SnapshotSilent(enabled, p, time, j + 1, out + Emitted(enabled, p, time, j));
    }
  }

  /** After the first `n` events, a sync comes and finds enabled sensor `j` pending. */
  predicate ReportsAt(enabled: set<int>, p: Pending, q: seq<InputEvent>, n: int, j: int)
    requires p.Valid()
  {
    0 <= n < |q| && q[n].kind.Syn? && 0 <= j < NUM_SENSORS && j in enabled && j in Final(p, q[..n]).mask
  }

  lemma ReportsLater(enabled: set<int>, p: Pending, q: seq<InputEvent>, n: int, j: int)
    requires p.Valid() && q != [] && n >= 0
    ensures ReportsAt(enabled, p, q, n + 1, j) <==> ReportsAt(enabled, After(p, q[0]), q[1..], n, j)
  {
    if n + 1 < |q| {
      assert q[..n + 1][1..] == q[1..][..n];
    }
  }

  lemma {:induction false} OnePassSilent(enabled: set<int>, p: Pending, q: seq<InputEvent>, out: seq<SensorEvent>)
    requires p.Valid()
    ensures OnePass(enabled, p, q, out) == out <==> forall n, j :: !ReportsAt(enabled, p, q, n, j)
    decreases |q|
  {
    if q != [] {
      var p', rest := After(p, q[0]), q[1..];
      var out' := if q[0].kind.Syn? then Snapshot(enabled, p, q[0].Nanos(), 0, out) else out;
      SnapshotSilent(enabled, p, q[0].Nanos(), 0, out);
      OnePassExtends(enabled, p', rest, out');
      OnePassSilent(enabled, p', rest, out');
      FirstOrLater(enabled, p, q);
    }
  }

  lemma FirstOrLater(enabled: set<int>, p: Pending, q: seq<InputEvent>)
    requires p.Valid() && q != []
    ensures (exists n, j :: ReportsAt(enabled, p, q, n, j)) <==>
            || (q[0].kind.Syn? && exists j :: 0 <= j < NUM_SENSORS && j in enabled && j in p.mask)
            || (exists n, j :: ReportsAt(enabled, After(p, q[0]), q[1..], n, j))
  {
    assert q[..0] == [];
    forall j ensures ReportsAt(enabled, p, q, 0, j) <==>
                     q[0].kind.Syn? && 0 <= j < NUM_SENSORS && j in enabled && j in p.mask {
    }
    forall n, j | n >= 0
      ensures ReportsAt(enabled, p, q, n + 1, j) <==> ReportsAt(enabled, After(p, q[0]), q[1..], n, j)
    {
      ReportsLater(enabled, p, q, n, j);
    }
    if n, j :| ReportsAt(enabled, p, q, n, j) {
      if n > 0 {
        assert ReportsAt(enabled, After(p, q[0]), q[1..], n - 1, j);
      }
    }
    if n, j :| ReportsAt(enabled, After(p, q[0]), q[1..], n, j) {
      assert ReportsAt(enabled, p, q, n + 1, j);
    }
  }

  lemma ReportsReadOff(enabled: set<int>, p: Pending, q: seq<InputEvent>)
    requires p.Valid()
    ensures Reports(enabled, p, q) <==> exists n, j :: ReportsAt(enabled, p, q, n, j)
  {
    forall n, j ensures ReportsWhen(enabled, p, q, n, j) <==> ReportsAt(enabled, p, q, n, j) {
      if 0 <= n < |q| && 0 <= j < NUM_SENSORS {
        PendingMeansTouched(p, q[..n], j);
      }
    }
  }

  /** A driver alone hands out something exactly when the input it holds and finds says so. */
  lemma SpeaksExactly(d: Driver, flag: bool, arrived: seq<InputEvent>, now: int)
    requires d.Valid()
    ensures Alone(d, flag, arrived, now).out != [] <==> Speaks(d, flag, arrived)
  {
    match d
    case Single(m, e, q, t) => SinglePassSilent(m, e, q + d.Delivered(arrived), []);
    case Compass(en, _, p, q, t) =>
      OnePassSilent(en, p, q + d.Delivered(arrived), []);
      ReportsReadOff(en, p, q + d.Delivered(arrived));
  }

  ghost predicate SomeoneSpeaks(c: Context, w: Round)
    requires c.Valid() && |w.arrived| == NUM_DRIVERS
  {
    exists i :: 0 <= i < NUM_DRIVERS && Speaks(c.drivers[i], c.revents[i], w.arrived[i])
  }

  lemma {:induction false} ShareSilent(c: Context, w: Round, k: nat)
    requires c.Valid() && |w.arrived| == NUM_DRIVERS && k <= NUM_DRIVERS
    ensures Share(c, w, k) == [] <==> forall i :: 0 <= i < k ==> !Speaks(c.drivers[i], c.revents[i], w.arrived[i])
    decreases k
  {
    if k > 0 {
      ShareSilent(c, w, k - 1);
      SpeaksExactly(c.drivers[k - 1], c.revents[k - 1], w.arrived[k - 1], w.now);
    }
  }

  /** `poll` fails in the call, after a round in which a driver had something to hand out. */
  ghost predicate Loses(c: Context, env: seq<Round>, limit: nat, spoken: bool)
    requires c.Valid() && ValidRounds(env)
    decreases |env|
  {
    env != [] && Passes(c, env[0], limit) &&
    var w, spoken' := env[0], spoken || SomeoneSpeaks(c, env[0]);
    if w.answer.Failed? then spoken'
    else w.answer.Some() && Loses(Unlimited(c, w).(revents := w.answer.revents), env[1..], limit, spoken')
  }

  lemma {:induction false} LosesWhatIsWritten(c: Context, env: seq<Round>, limit: nat, spoken: bool)
    requires c.Valid() && ValidRounds(env)
    ensures var f := FailedAt(c, env, limit);
            Loses(c, env, limit, spoken) <==> f.Some? && (spoken || f.value.out != c.out)
    decreases |env|
  {
    if env != [] && Passes(c, env[0], limit) {
      var w, c', n := env[0], Unlimited(c, env[0]), NUM_DRIVERS;
      ShareSilent(c, w, n);
      assert c'.out == c.out <==> Share(c, w, n) == [];
      if w.answer.Some() {
        LosesWhatIsWritten(c'.(revents := w.answer.revents), env[1..], limit, spoken || SomeoneSpeaks(c, w));
      }
    }
  }

  /**
   * A call fails with events written if and only if in some round `poll` fails, all its answers before were positive,
   * every round until then passes, and in one of them a driver has something to hand out.
   */
  lemma LosesExactly(c: Context, env: seq<Round>, start: nat, limit: nat)
    requires c.Valid() && ValidRounds(env) && start == |c.out| <= limit
    ensures var r := Poll(c, env, start, limit);
            r.ending.PollFailed? && r.context.out != c.out <==> Loses(c, env, limit, false)
  {
    FailsExactly(c, env, start, limit);
    LosesWhatIsWritten(c, env, limit, false);
  }
}
