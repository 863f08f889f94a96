/** What the caller gets to see of the events that the calls of a session write. */
module PollReceived {
  import opened SensorStreams
  import opened PollLoop
  import opened PollShortcut
  import opened PollWaiting
  import opened PollRounds

  function Called(c: Context, call: PollCall): (r: Polled)
    requires c.Valid() && ValidRounds(call.env)
    ensures r.context == Fetched(c, call) && c.out <= r.context.out
  {
    BlocksOnlyEmptyHanded(c, call.env, |c.out|, |c.out| + call.count);
    Poll(c, call.env, |c.out|, |c.out| + call.count)
  }

  /** What a call reports: the events it wrote, or only `-errno` if `poll` failed. */
  function Reported(c: Context, act: Act): seq<Output>
    requires c.Valid() && (act.Fetch? ==> ValidRounds(act.call.env))
  {
    if act.Fetch? && Called(c, act.call).ending == Returned then Called(c, act.call).context.out[|c.out|..] else []
  }

  /** Everything the calls report, in order. */
  function Received(c: Context, acts: seq<Act>): seq<Output>
    requires c.Valid() && ValidActs(acts)
    decreases |acts|
  {
    if acts == [] then [] else Reported(c, acts[0]) + Received(Acted(c, acts[0]), acts[1..])
  }

  /** Every call has come back, or has written nothing so far. */
  predicate Settled(c: Context, acts: seq<Act>)
    requires c.Valid() && ValidActs(acts)
    decreases |acts|
  {
    acts == [] || (IsSettled(c, acts[0]) && Settled(Acted(c, acts[0]), acts[1..]))
  }

  predicate IsSettled(c: Context, act: Act)
    requires c.Valid() && (act.Fetch? ==> ValidRounds(act.call.env))
  {
    act.Fetch? ==>
      var r := Called(c, act.call);
      r.ending == Returned || r.ending.PollFailed? || r.context.out == c.out
  }

  // Where the missing events are, going by the rounds

  /** The places, among all events sent, of those that a call writes in which `poll` then fails. */
  function Missed(c: Context, acts: seq<Act>): set<nat>
    requires c.Valid() && ValidActs(acts)
    decreases |acts|
  {
    if acts == [] then {} else MissedIn(c, acts[0]) + Missed(Acted(c, acts[0]), acts[1..])
  }

  function MissedIn(c: Context, act: Act): set<nat>
    requires c.Valid() && (act.Fetch? ==> ValidRounds(act.call.env))
  {
    if !act.Fetch? then {}
    else
      var failed := FailedAt(c, act.call.env, |c.out| + act.call.count);
      if failed.None? then {} else Places(|c.out|, |failed.value.out|)
  }

  function Places(start: nat, end: nat): (places: set<nat>)
    ensures forall k: nat :: k in places <==> start <= k < end
    decreases end
  {
    if start >= end then {} else Places(start, end - 1) + {end - 1}
  }

  /** The events at all other places, in their order. */
  function Without(out: seq<Output>, places: set<nat>): seq<Output> {
    if out == [] then []
    else if |out| - 1 in places then Without(out[..|out| - 1], places)
    else Without(out[..|out| - 1], places) + [out[|out| - 1]]
  }

  /** Places further on do not matter. */
  lemma {:induction false} OnlyPlacesWithin(out: seq<Output>, p: set<nat>, q: set<nat>)
    requires forall k: nat :: k < |out| ==> (k in p <==> k in q)
    ensures Without(out, p) == Without(out, q)
  {
    if out != [] {
      OnlyPlacesWithin(out[..|out| - 1], p, q);
    }
  }

  /** The events of one more call, kept or missed together. */
  lemma {:induction false} WithoutMore(out: seq<Output>, more: seq<Output>, places: set<nat>, kept: bool)
    requires forall k: nat :: |out| <= k < |out| + |more| ==> (k in places <==> !kept)
    ensures Without(out + more, places) == if kept then Without(out, places) + more else Without(out, places)
    decreases |more|
  {
    if more == [] {
      assert out + more == out;
    } else {
      var n := |more| - 1;
      var all := out + more;
      assert all[..|all| - 1] == out + more[..n];
      assert more == more[..n] + [more[n]];
      WithoutMore(out, more[..n], places, kept);
    }
  }

  /** In the call `poll` fails, after a round in which a driver had something to hand out. */
  ghost predicate LosesIn(c: Context, act: Act)
    requires c.Valid() && (act.Fetch? ==> ValidRounds(act.call.env))
  {
    act.Fetch? && Loses(c, act.call.env, |c.out| + act.call.count, false)
  }

  lemma CallOnlyAdds(c: Context, call: PollCall, start: nat, limit: nat, r: Polled)
    requires c.Valid() && ValidRounds(call.env) && start == |c.out| && limit == start + call.count
    requires r == Poll(c, call.env, start, limit)
    ensures r == Called(c, call) && c.out <= r.context.out && Acted(c, Fetch(call)) == r.context
  {
    BlocksOnlyEmptyHanded(c, call.env, start, limit);
  }

  /** Of what a call writes, all is reported, or all is missed; the rounds decide. */
  lemma AllOrNothing(c: Context, act: Act, start: nat, limit: nat, r: Polled)
    requires c.Valid() && act.Fetch? && ValidRounds(act.call.env) && IsSettled(c, act)
    requires start == |c.out| && limit == start + act.call.count && r == Poll(c, act.call.env, start, limit)
    ensures c.out <= r.context.out && Acted(c, act) == r.context
    ensures || (MissedIn(c, act) == {} && c.out + Reported(c, act) == r.context.out)
            || (MissedIn(c, act) == Places(start, |r.context.out|) && Reported(c, act) == [])
  {
    CallOnlyAdds(c, act.call, start, limit, r);
    RoundsDecide(c, act, start, limit, r);
    if r.ending == Returned {
      assert c.out + r.context.out[start..] == r.context.out;
    } else {
      assert c.out + [] == c.out;
    }
  }

  lemma RoundsDecide(c: Context, act: Act, start: nat, limit: nat, r: Polled)
    requires c.Valid() && act.Fetch? && ValidRounds(act.call.env)
    requires start == |c.out| && limit == start + act.call.count && r == Poll(c, act.call.env, start, limit)
    ensures MissedIn(c, act) == if r.ending.PollFailed? then Places(start, |r.context.out|) else {}
    ensures LosesIn(c, act) <==> r.ending.PollFailed? && r.context.out != c.out
  {
    FailsExactly(c, act.call.env, start, limit);
    LosesExactly(c, act.call.env, start, limit);
  }

  /** What one act adds to the events kept and to the places missed. */
  lemma ActReports(c: Context, act: Act, before: set<nat>, out': seq<Output>)
    requires c.Valid() && (act.Fetch? ==> ValidRounds(act.call.env)) && IsSettled(c, act) && out' == Acted(c, act).out
    requires forall k :: k in before ==> k < |c.out|
    ensures Without(out', before + MissedIn(c, act)) == Without(c.out, before) + Reported(c, act)
    ensures c.out <= out' && forall k :: k in MissedIn(c, act) ==> k < |out'|
  {
    if act.Fetch? {
      var start, limit := |c.out|, |c.out| + act.call.count;
      AllOrNothing(c, act, start, limit, Poll(c, act.call.env, start, limit));
    } else {
      assert c.out + [] == out';
    }
    Split(c.out, out', before, MissedIn(c, act), before + MissedIn(c, act), Reported(c, act));
  }

  /** The same of the lists alone. */
  lemma Split(out: seq<Output>, out': seq<Output>, before: set<nat>, mine: set<nat>, all: set<nat>, own: seq<Output>)
    requires out <= out' && all == before + mine && forall k :: k in before ==> k < |out|
    requires (mine == {} && out + own == out') || (mine == Places(|out|, |out'|) && own == [])
    ensures Without(out', all) == Without(out, before) + own
  {
    var more, kept := out'[|out|..], mine == {};
    OnlyPlacesWithin(out, before, all);
    assert out + more == out' && |out| + |more| == |out'|;
    forall k: nat | |out| <= k < |out'| ensures k in all <==> !kept {
      assert mine == Places(|out|, |out'|) ==> k in mine;
    }
    WithoutMore(out, more, all, kept);
    if own == [] {
      assert Without(out, before) + own == Without(out, before);
      assert kept ==> |more| == 0;
    }
  }

  /** The session from its first act on. */
  lemma FirstAct(c: Context, acts: seq<Act>, before: set<nat>)
      returns (r: Context, rest: seq<Act>, mine: set<nat>, out: seq<Output>)
    requires c.Valid() && ValidActs(acts) && acts != [] && Settled(c, acts) && forall k :: k in before ==> k < |c.out|
    ensures r.Valid() && rest == acts[1..] && ValidActs(rest) && Settled(r, rest)
    ensures Live(c, acts) == Live(r, rest)
    ensures Missed(c, acts) == mine + Missed(r, rest) && Received(c, acts) == out + Received(r, rest)
    ensures Without(r.out, before + mine) == Without(c.out, before) + out
    ensures c.out <= r.out && forall k :: k in mine ==> k < |r.out|
  {
    ActReports(c, acts[0], before, Acted(c, acts[0]).out);
    r, rest, mine, out := Acted(c, acts[0]), acts[1..], MissedIn(c, acts[0]), Reported(c, acts[0]);
  }

  lemma Regrouped(before: seq<Output>, mine: seq<Output>, later: seq<Output>)
    ensures before + (mine + later) == (before + mine) + later
  {
  }

  lemma {:induction false} ReceivedAfter(c: Context, acts: seq<Act>, before: set<nat>, missed: set<nat>,
                                         sent: seq<Output>, kept: seq<Output>, received: seq<Output>)
    requires c.Valid() && ValidActs(acts) && Settled(c, acts) && forall k :: k in before ==> k < |c.out|
    requires sent == Live(c, acts).out && missed == before + Missed(c, acts)
    requires kept == Without(c.out, before) && received == Received(c, acts)
    ensures Without(sent, missed) == kept + received
    decreases |acts|
  {
    if acts == [] {
      assert missed == before && kept + received == kept;
    } else {
      var r, rest, mine, out := FirstAct(c, acts, before);
      var later := Received(r, rest);
      assert missed == (before + mine) + Missed(r, rest);
      ReceivedAfter(r, rest, before + mine, missed, sent, kept + out, later);
      Regrouped(kept, out, later);
    }
  }

  /** The caller gets, in order, every event sent but those at the places missed. */
  lemma ReceivedIsTheRest(c: Context, acts: seq<Act>)
    requires c.Valid() && ValidActs(acts) && Settled(c, acts)
    ensures c.out + Received(c, acts) == Without(Live(c, acts).out, Missed(c, acts))
  {
    WithoutNone(c.out);
    ReceivedAfter(c, acts, {}, Missed(c, acts), Live(c, acts).out, c.out, Received(c, acts));
  }

  lemma {:induction false} WithoutNone(out: seq<Output>)
    ensures Without(out, {}) == out
  {
    if out != [] {
      WithoutNone(out[..|out| - 1]);
    }
  }

  lemma {:induction false} WithoutSome(out: seq<Output>, places: set<nat>)
    ensures |Without(out, places)| <= |out|
    ensures (exists k :: k in places && k < |out|) ==> |Without(out, places)| < |out|
  {
    if out != [] {
      WithoutSome(out[..|out| - 1], places);
    }
  }

  ghost predicate NoneLoses(c: Context, acts: seq<Act>)
    requires c.Valid() && ValidActs(acts)
    decreases |acts|
  {
    acts == [] || (!LosesIn(c, acts[0]) && NoneLoses(Acted(c, acts[0]), acts[1..]))
  }

  lemma MissesWhatItLoses(c: Context, act: Act, out': seq<Output>)
    requires c.Valid() && (act.Fetch? ==> ValidRounds(act.call.env)) && out' == Acted(c, act).out
    ensures MissedIn(c, act) == {} <==> !LosesIn(c, act)
    ensures c.out <= out' && forall k :: k in MissedIn(c, act) ==> k < |out'|
  {
    if act.Fetch? {
      var start, limit := |c.out|, |c.out| + act.call.count;
      var r := Poll(c, act.call.env, start, limit);
      CallOnlyAdds(c, act.call, start, limit, r);
      RoundsDecide(c, act, start, limit, r);
      if LosesIn(c, act) {
        assert start in MissedIn(c, act);
      }
    }
  }

  lemma {:induction false} MissedNothing(c: Context, acts: seq<Act>)
    requires c.Valid() && ValidActs(acts)
    ensures Missed(c, acts) == {} <==> NoneLoses(c, acts)
    ensures |c.out| <= |Live(c, acts).out|
    ensures forall k :: k in Missed(c, acts) ==> k < |Live(c, acts).out|
    decreases |acts|
  {
    if acts != [] {
      var c' := Acted(c, acts[0]);
      MissesWhatItLoses(c, acts[0], c'.out);
      MissedNothing(c', acts[1..]);
    }
  }

  /**
   * Over any session, with sensors switched and temperatures pending: the caller gets everything that was sent if and
   * only if in no call `poll` fails after a round in which a driver had something to hand out.
   */
  lemma ReceivedAllExactly(c: Context, acts: seq<Act>)
    requires c.Valid() && ValidActs(acts) && Settled(c, acts)
    ensures c.out + Received(c, acts) == Live(c, acts).out <==> NoneLoses(c, acts)
  {
    var sent, missed := Live(c, acts).out, Missed(c, acts);
    ReceivedIsTheRest(c, acts);
    MissedNothing(c, acts);
    WithoutNone(sent);
    WithoutSome(sent, missed);
    if missed != {} {
      var k :| k in missed;
      assert k < |sent|;
    }
  }

  // Without failures nothing is missed

  function Fetching(calls: seq<PollCall>): (acts: seq<Act>)
    ensures |acts| == |calls| && forall k :: 0 <= k < |acts| ==> acts[k] == Fetch(calls[k])
  {
    seq(|calls|, k requires 0 <= k < |calls| => Fetch(calls[k]))
  }

  predicate AnswersReady(acts: seq<Act>) {
    forall k, n :: 0 <= k < |acts| && acts[k].Fetch? && 0 <= n < |acts[k].call.env| ==>
      acts[k].call.env[n].answer.Ready?
  }

  lemma {:induction false} ReadyNeverLoses(c: Context, env: seq<Round>, limit: nat, spoken: bool)
    requires c.Valid() && ValidRounds(env) && forall n :: 0 <= n < |env| ==> env[n].answer.Ready?
    ensures !Loses(c, env, limit, spoken)
    decreases |env|
  {
    if env != [] {
      var c' := Unlimited(c, env[0]).(revents := env[0].answer.revents);
      ReadyNeverLoses(c', env[1..], limit, spoken || SomeoneSpeaks(c, env[0]));
    }
  }

  /** No call is left in the middle of its rounds. */
  predicate AllEnd(c: Context, calls: seq<PollCall>)
    requires c.Valid() && ValidSession(calls)
    decreases |calls|
  {
    calls == [] || (Called(c, calls[0]).ending != Running && AllEnd(Fetched(c, calls[0]), calls[1..]))
  }

  lemma {:induction false} FetchingIsSession(c: Context, calls: seq<PollCall>, acts: seq<Act>)
    requires c.Valid() && ValidSession(calls) && acts == Fetching(calls)
    ensures Live(c, acts) == Session(c, calls)
    decreases |calls|
  {
    if calls != [] {
      FetchingIsSession(Fetched(c, calls[0]), calls[1..], acts[1..]);
    }
  }

  lemma {:induction false} EndingSettles(c: Context, calls: seq<PollCall>, acts: seq<Act>)
    requires c.Valid() && ValidSession(calls) && acts == Fetching(calls)
    requires WaitsEmptyHanded(c, calls) && AllEnd(c, calls)
    ensures Settled(c, acts)
    decreases |calls|
  {
    if calls != [] {
      EndingSettles(Fetched(c, calls[0]), calls[1..], acts[1..]);
    }
  }

  lemma {:induction false} ReadyLosesNothing(c: Context, acts: seq<Act>)
    requires c.Valid() && ValidActs(acts) && AnswersReady(acts)
    ensures NoneLoses(c, acts)
    decreases |acts|
  {
    if acts != [] {
      var act := acts[0];
      if act.Fetch? {
        ReadyNeverLoses(c, act.call.env, |c.out| + act.call.count, false);
      }
      ReadyLosesNothing(Acted(c, act), acts[1..]);
    }
  }

  lemma AllReceived(c: Context, acts: seq<Act>, got: seq<Output>, sent: seq<Output>)
    requires c.Valid() && c.out == [] && ValidActs(acts) && Settled(c, acts) && NoneLoses(c, acts)
    requires got == Received(c, acts) && sent == Live(c, acts).out
    ensures got == sent
  {
    ReceivedAllExactly(c, acts);
    assert c.out + got == got;
  }

  /**
   * From a fresh start, without a pending temperature and with a `poll` that never fails and tells the truth: nothing
   * that is sent is missed.
   */
  lemma NothingIsMissed(c: Context, calls: seq<PollCall>)
    requires c.Valid() && Fresh(c) && c.revents == NO_FLAGS && ValidSession(calls)
    requires TruthfulSession(c, calls, NO_FLAGS) && AnswersReady(Fetching(calls)) && AllEnd(c, calls)
    ensures Received(c, Fetching(calls)) == Session(c, calls).out
  {
    var acts := Fetching(calls);
    SessionWaitsEmptyHanded(c, calls);
    EndingSettles(c, calls, acts);
    ReadyLosesNothing(c, acts);
    FetchingIsSession(c, calls, acts);
    AllReceived(c, acts, Received(c, acts), Live(c, acts).out);
  }

  /** If no call loses anything, each driver's share of what the caller gets is as `EndToEnd` says. */
  lemma ReceivedEndToEnd(c: Context, calls: seq<PollCall>, i: nat)
    requires c.Valid() && Fresh(c) && ValidSession(calls) && i < NUM_DRIVERS
    requires Settled(c, Fetching(calls)) && NoneLoses(c, Fetching(calls))
    ensures var r, got := Session(c, calls), From(Received(c, Fetching(calls)), i);
            && got <= Reference(c.drivers[i], r.drivers[i].taken)
            && (!r.revents[i] ==> got == Reference(c.drivers[i], r.drivers[i].taken))
  {
    var acts := Fetching(calls);
    FetchingIsSession(c, calls, acts);
    AllReceived(c, acts, Received(c, acts), Live(c, acts).out);
    EndToEnd(c, calls, i);
  }

  // A failure that loses the temperature

  const EINTR := 4
  const INTERRUPTED := PollCall([Round(IDLE, 0, Answer.Failed(EINTR))], 2)

  /** The one event pending is written, and then `poll` fails. */
  lemma InterruptedRound(c: Context, w: Round, start: nat, limit: nat)
    requires c.Valid() && c.revents == NO_FLAGS && start == |c.out| && limit == start + 2 && w == INTERRUPTED.env[0]
    requires c.drivers[COMPASS].HasPendingEvents() && c.drivers[COMPASS].unread == []
    requires forall i :: 0 <= i < NUM_DRIVERS && i != COMPASS ==> c.drivers[i].Single?
    ensures var r := Attempt(c, w, start, limit);
            && r.ending == PollFailed(EINTR) && |r.context.out| == start + 1
            && NoShortcut(r.context) && r.context.revents == NO_FLAGS
  {
    LoopComesTo(c, w.arrived, w.now, COMPASS, limit);
    var t := Turn(c, w.arrived[COMPASS], w.now, COMPASS, limit);
    NobodyReads(t, w.arrived[COMPASS + 1..], w.now, limit);
  }

  lemma InterruptedCall(c: Context, env: seq<Round>, call: PollCall)
    requires c.Valid() && c.revents == NO_FLAGS && call == INTERRUPTED && env == call.env
    requires c.drivers[COMPASS].HasPendingEvents() && c.drivers[COMPASS].unread == []
    requires forall i :: 0 <= i < NUM_DRIVERS && i != COMPASS ==> c.drivers[i].Single?
    ensures var r := Called(c, call);
            r.ending == PollFailed(EINTR) && |r.context.out| == |c.out| + 1 && NoShortcut(r.context)
  {
    var start, limit := |c.out|, |c.out| + 2;
    InterruptedRound(c, env[0], start, limit);
    assert Called(c, call) == Poll(c, env, start, limit) == Attempt(c, env[0], start, limit);
  }

  lemma OnlyAct(c: Context, acts: seq<Act>, r: Context)
    requires c.Valid() && ValidActs(acts) && |acts| == 1 && r == Acted(c, acts[0])
    ensures Live(c, acts) == r && Received(c, acts) == Reported(c, acts[0])
    ensures Settled(c, acts) <==> IsSettled(c, acts[0])
    ensures NoneLoses(c, acts) <==> !LosesIn(c, acts[0])
  {
    var rest := acts[1..];
    assert rest == [] && Live(r, rest) == r && Received(r, rest) == [] && Settled(r, rest) && NoneLoses(r, rest);
  }

  lemma AfterSwitch(c: Context, acts: seq<Act>, r: Context, rest: seq<Act>)
    requires c.Valid() && ValidActs(acts) && acts != [] && !acts[0].Fetch?
    requires r == Acted(c, acts[0]) && rest == acts[1..]
    ensures Live(c, acts) == Live(r, rest) && Received(c, acts) == Received(r, rest)
    ensures (Settled(c, acts) <==> Settled(r, rest)) && (NoneLoses(c, acts) <==> NoneLoses(r, rest))
  {
  }

  /** The temperature, switched on, is written; then `poll` is interrupted, and the caller never gets it. */
  lemma FailureLosesTemperature(acts: seq<Act>)
    requires acts == [Enable(TEMPERATURE, true, true), Fetch(INTERRUPTED)]
    ensures START.Valid() && Fresh(START) && ValidActs(acts)
    ensures var r := Live(START, acts);
            && Settled(START, acts) && !NoneLoses(START, acts) && Received(START, acts) == []
            && |r.out| == 1 && NoShortcut(r)
  {
    StartIsFresh(START);
    var c' := Acted(START, acts[0]);
    InterruptedCall(c', INTERRUPTED.env, INTERRUPTED);
    LosesExactly(c', INTERRUPTED.env, |c'.out|, |c'.out| + 2);
    AfterSwitch(START, acts, c', acts[1..]);
    OnlyAct(c', acts[1..], Acted(c', acts[1]));
  }
}
