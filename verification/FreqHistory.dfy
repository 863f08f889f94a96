/** What the statistics say, read off the history of notifications. */
module FreqHistory {
  import opened FreqStats

  /** The frequencies of the slots after the renamings in `es`. */
  function Names(freqs: seq<int>, es: seq<Event>): (r: seq<int>)
    requires AllFit(|freqs|, es)
    ensures |r| == |freqs|
    decreases |es|
  {
    if es == [] then freqs
    else
      var e, r := es[|es| - 1], Names(freqs, es[..|es| - 1]);
      if e.Rename? then r[e.index := e.freq] else r
  }

  /**
   * The current state: the slot of the latest frequency changed to that had one at that moment, the first one if
   * several hold it; before any such change, `start`.
   */
  function Current(freqs: seq<int>, start: int, es: seq<Event>): int
    requires AllFit(|freqs|, es)
    decreases |es|
  {
    if es == [] then start
    else
      var e, before := es[|es| - 1], es[..|es| - 1];
      if e.PostChange? && e.freq in Names(freqs, before) then IndexOf(Names(freqs, before), e.freq)
      else Current(freqs, start, before)
  }

  /** Changes and readers bring the time up to date, a notification before a change does not. */
  predicate Timed(e: Event) {
    e.PostChange? || e.Read?
  }

  /** When the time was last brought up to date. */
  function Latest(created: int, es: seq<Event>): int
    decreases |es|
  {
    if es == [] then created
    else if Timed(es[|es| - 1]) then es[|es| - 1].now else Latest(created, es[..|es| - 1])
  }

  /** The sum of the intervals between the times of `es` during which `i` was the current state. */
  function Spent(freqs: seq<int>, start: int, created: int, es: seq<Event>, i: int): int
    requires AllFit(|freqs|, es)
    decreases |es|
  {
    if es == [] then 0
    else
      var e, before := es[|es| - 1], es[..|es| - 1];
      Spent(freqs, start, created, before, i) +
      (if Timed(e) && Current(freqs, start, before) == i then e.now - Latest(created, before) else 0)
  }

  /** How often the current state changed from `i` to another state `j`. */
  function Changes(freqs: seq<int>, start: int, es: seq<Event>, i: int, j: int): nat
    requires AllFit(|freqs|, es)
    decreases |es|
  {
    if es == [] then 0
    else
      var before := es[..|es| - 1];
      Changes(freqs, start, before, i, j) +
      (if i != j && Current(freqs, start, before) == i && Current(freqs, start, es) == j then 1 else 0)
  }

  lemma {:induction false} RunAppends(s: Stats, es: seq<Event>, e: Event)
    requires s.Valid() && AllFit(s.States(), es + [e])
    ensures AllFit(s.States(), es) && Fits(s, e)
    ensures Run(s, es + [e]) == Step(Run(s, es), e)
    decreases |es|
  {
    assert (es + [e])[|es|] == e;
    assert forall k :: 0 <= k < |es| ==> (es + [e])[k] == es[k];
    if es == [] {
      assert es + [e] == [e] && [e][1..] == [];
    } else {
      assert (es + [e])[1..] == es[1..] + [e];
      RunAppends(Step(s, es[0]), es[1..], e);
    }
  }

  /** What `r` must look like after the history `es` from `s`. */
  ghost predicate Tells(s: Stats, es: seq<Event>, r: Stats)
    requires s.Valid() && AllFit(s.States(), es) && r.Valid() && r.States() == s.States()
  {
    var n, start := s.States(), s.lastIndex;
    && r.freqs == Names(s.freqs, es) && r.lastIndex == Current(s.freqs, start, es)
    && r.lastTime == Latest(s.lastTime, es)
    && (forall i :: 0 <= i < n ==> r.time[i] == s.time[i] + Spent(s.freqs, start, s.lastTime, es, i))
    && forall i, j :: 0 <= i < n && 0 <= j < n ==>
         r.trans[Cell(n, i, j)] == s.trans[Cell(n, i, j)] + Changes(s.freqs, start, es, i, j)
  }

  lemma StepTells(s: Stats, es: seq<Event>, r: Stats, before: seq<Event>, e: Event)
    requires s.Valid() && AllFit(s.States(), es) && AllFit(s.States(), before) && r.Valid() && r.States() == s.States()
    requires es == before + [e] && Fits(s, e) && Tells(s, before, r)
    ensures Tells(s, es, Step(r, e))
  {
    var n, r' := s.States(), Step(r, e);
    assert es[|es| - 1] == e && es[..|es| - 1] == before;
    forall i, j | 0 <= i < n && 0 <= j < n
      ensures r'.trans[Cell(n, i, j)] == s.trans[Cell(n, i, j)] + Changes(s.freqs, s.lastIndex, es, i, j)
    {
      if r'.lastIndex != r.lastIndex && Cell(n, i, j) == Cell(n, r.lastIndex, r'.lastIndex) {
        CellInjective(n, i, j, r.lastIndex, r'.lastIndex);
      }
    }
  }

  /** After any history, the times, the transitions and the current state are what it says. */
  lemma {:induction false} HistoryIsTold(s: Stats, es: seq<Event>)
    requires s.Valid() && AllFit(s.States(), es)
    ensures Tells(s, es, Run(s, es))
    decreases |es|
  {
    if es != [] {
      var before, e := es[..|es| - 1], es[|es| - 1];
      assert es == before + [e];
      RunAppends(s, before, e);
      HistoryIsTold(s, before);
      StepTells(s, es, Run(s, before), before, e);
    }
  }

  /**
   * From creation on: each state has exactly the time that passed while it was current, each cell the number of changes
   * from its row to its column.
   */
  lemma StatsTellHistory(table: seq<int>, cur: int, now: int, es: seq<Event>, i: nat, j: nat)
    requires cur in Slots(table) && AllFit(|Valids(table)| + 1, es) && i < |Slots(table)| && j < |Slots(table)|
    ensures var s, slots, start := Created(table, cur, now), Slots(table), IndexOf(Slots(table), cur);
            && s.Valid() && Run(s, es).lastIndex == Current(slots, start, es)
            && Run(s, es).time[i] == Spent(slots, start, now, es, i)
            && 0 <= i * |slots| + j < |Run(s, es).trans|
            && Run(s, es).trans[i * |slots| + j] == Changes(slots, start, es, i, j)
  {
    CellInside(|Slots(table)|, i, j);
    assert Cell(|Slots(table)|, i, j) == i * |Slots(table)| + j;
    HistoryIsTold(Created(table, cur, now), es);
  }
}
