/** CPU frequency statistics: the time spent in each state, and a flattened matrix of transitions. */
module FreqStats {

  const INVALID := 0xFFFF_FFFF

  // Sums

  function Sum(s: seq<int>): int {
    if s == [] then 0 else Sum(s[..|s| - 1]) + s[|s| - 1]
  }

  lemma {:induction false} SumUpdate(s: seq<int>, k: nat, v: int)
    requires k < |s|
    ensures Sum(s[k := v]) == Sum(s) - s[k] + v
  {
    var n := |s| - 1;
    if k < n {
      assert s[k := v][..n] == s[..n][k := v];
      SumUpdate(s[..n], k, v);
    } else {
      assert s[k := v][..n] == s[..n];
    }
  }

  lemma {:induction false} SumZero(s: seq<int>)
    requires forall i :: 0 <= i < |s| ==> s[i] == 0
    ensures Sum(s) == 0
  {
    if s != [] {
      SumZero(s[..|s| - 1]);
    }
  }

  /** Where row `i`, column `j` of an `n` by `n` matrix is stored. */
  function Cell(n: nat, i: nat, j: nat): (r: nat)
    requires i < n && j < n
    ensures r < n * n
  {
    CellInside(n, i, j);
    i * n + j
  }

  lemma CellInside(n: nat, i: nat, j: nat)
    requires i < n && j < n
    ensures 0 <= i * n + j < n * n
  {
    RowsApart(n, i, n);
    assert i * n >= 0;
  }

  lemma CellInjective(n: nat, i: nat, j: nat, a: nat, b: nat)
    requires i < n && j < n && a < n && b < n && Cell(n, i, j) == Cell(n, a, b)
    ensures i == a && j == b
  {
    if i < a {
      RowsApart(n, i, a);
    } else if a < i {
      RowsApart(n, a, i);
    }
  }

  lemma RowsApart(n: nat, i: nat, a: nat)
    requires i < a
    ensures i * n + n <= a * n
  {
    assert (a - i - 1) * n >= 0;
    assert (a - i - 1) * n == a * n - i * n - n;
  }

  /** Departures from state `i`, over the first `k` columns. */
  function Row(m: seq<int>, n: nat, i: nat, k: nat): int
    requires |m| == n * n && i < n && k <= n
  {
    if k == 0 then 0 else Row(m, n, i, k - 1) + m[Cell(n, i, k - 1)]
  }

  /** Arrivals in state `i`, over the first `k` rows. */
  function Col(m: seq<int>, n: nat, i: nat, k: nat): int
    requires |m| == n * n && i < n && k <= n
  {
    if k == 0 then 0 else Col(m, n, i, k - 1) + m[Cell(n, k - 1, i)]
  }

  lemma {:induction false} RowUpdate(m: seq<int>, n: nat, a: nat, b: nat, i: nat, k: nat)
    requires |m| == n * n && a < n && b < n && i < n && k <= n
    ensures var c := Cell(n, a, b);
            Row(m[c := m[c] + 1], n, i, k) == Row(m, n, i, k) + (if i == a && b < k then 1 else 0)
  {
    if k > 0 {
      RowUpdate(m, n, a, b, i, k - 1);
      if Cell(n, i, k - 1) == Cell(n, a, b) {
        CellInjective(n, i, k - 1, a, b);
      }
    }
  }

  lemma {:induction false} ColUpdate(m: seq<int>, n: nat, a: nat, b: nat, i: nat, k: nat)
    requires |m| == n * n && a < n && b < n && i < n && k <= n
    ensures var c := Cell(n, a, b);
            Col(m[c := m[c] + 1], n, i, k) == Col(m, n, i, k) + (if i == b && a < k then 1 else 0)
  {
    if k > 0 {
      ColUpdate(m, n, a, b, i, k - 1);
      if Cell(n, k - 1, i) == Cell(n, a, b) {
        CellInjective(n, k - 1, i, a, b);
      }
    }
  }

  lemma {:induction false} ZeroMatrix(m: seq<int>, n: nat, i: nat, k: nat)
    requires |m| == n * n && i < n && k <= n && forall c :: 0 <= c < |m| ==> m[c] == 0
    ensures Row(m, n, i, k) == 0 && Col(m, n, i, k) == 0
  {
    if k > 0 {
      ZeroMatrix(m, n, i, k - 1);
    }
  }

  // The statistics as a value

  /** `freq_table_get_index`: the first slot that holds `f`, or -1. */
  function IndexOf(freqs: seq<int>, f: int): (r: int)
    ensures -1 <= r < |freqs|
    ensures r == -1 <==> f !in freqs
    ensures r >= 0 ==> freqs[r] == f && f !in freqs[..r]
  {
    if freqs == [] then -1
    else if freqs[0] == f then 0
    else
      var r := IndexOf(freqs[1..], f);
      assert freqs == [freqs[0]] + freqs[1..];
      assert r >= 0 ==> freqs[..r + 1] == [freqs[0]] + freqs[1..][..r];
      if r == -1 then -1 else r + 1
  }

  datatype Stats =
    Stats(time: seq<int>, freqs: seq<int>, trans: seq<int>, lastTime: int, lastIndex: int, totalTrans: int)
  {
    function States(): nat {
      |freqs|
    }

    predicate Valid() {
      |time| == States() && |trans| == States() * States() && 0 <= lastIndex < States()
    }
  }

  /** `cpufreq_stats_update`: the time since the last update goes to the current state. */
  function Update(s: Stats, now: int): (r: Stats)
    requires s.Valid()
    ensures r.Valid()
  {
    s.(time := s.time[s.lastIndex := s.time[s.lastIndex] + (now - s.lastTime)], lastTime := now)
  }

  /** A change of frequency to `freq`; unknown and unchanged frequencies only bring the time up to date. */
  function Transition(s: Stats, freq: int, now: int): (r: Stats)
    requires s.Valid()
    ensures r.Valid()
  {
    var u, to := Update(s, now), IndexOf(s.freqs, freq);
    if to == s.lastIndex || to == -1 then u
    else
      var c := Cell(s.States(), s.lastIndex, to);
      u.(lastIndex := to, trans := u.trans[c := u.trans[c] + 1], totalTrans := u.totalTrans + 1)
  }

  /** A notification before or after a change, a reader of the tables, or the overclock module renaming a slot. */
  datatype Event =
    | PreChange(freq: int)
    | PostChange(freq: int, now: int)
    | Read(now: int)
    | Rename(index: nat, freq: int)

  predicate Fits(s: Stats, e: Event) {
    e.Rename? ==> e.index < s.States()
  }

  function Step(s: Stats, e: Event): (r: Stats)
    requires s.Valid() && Fits(s, e)
    ensures r.Valid() && r.States() == s.States()
  {
    match e
    case PreChange(_) => s
    case PostChange(freq, now) => Transition(s, freq, now)
    case Read(now) => Update(s, now)
    case Rename(index, freq) => s.(freqs := s.freqs[index := freq])
  }

  predicate AllFit(n: nat, es: seq<Event>) {
    forall k :: 0 <= k < |es| ==> es[k].Rename? ==> es[k].index < n
  }

  function Run(s: Stats, es: seq<Event>): (r: Stats)
    requires s.Valid() && AllFit(s.States(), es)
    ensures r.Valid() && r.States() == s.States()
    decreases |es|
  {
    if es == [] then s else Run(Step(s, es[0]), es[1..])
  }

  // Conservation

  function Is(i: int, j: int): int {
    if i == j then 1 else 0
  }

  /** Every state is left as often as it is entered, but for the first and the current one. */
  ghost predicate Flows(s: Stats, start: int)
    requires s.Valid()
  {
    && Sum(s.trans) == s.totalTrans
    && forall i :: 0 <= i < s.States() ==>
         Row(s.trans, s.States(), i, s.States()) - Col(s.trans, s.States(), i, s.States())
         == Is(i, start) - Is(i, s.lastIndex)
  }

  lemma TransitionFlows(s: Stats, start: int, freq: int, now: int)
    requires s.Valid() && Flows(s, start)
    ensures Flows(Transition(s, freq, now), start)
  {
    var r, n, to := Transition(s, freq, now), s.States(), IndexOf(s.freqs, freq);
    if to != s.lastIndex && to != -1 {
      var c := Cell(n, s.lastIndex, to);
      SumUpdate(s.trans, c, s.trans[c] + 1);
      forall i | 0 <= i < n
        ensures Row(r.trans, n, i, n) - Col(r.trans, n, i, n) == Is(i, start) - Is(i, to)
      {
        RowUpdate(s.trans, n, s.lastIndex, to, i, n);
        ColUpdate(s.trans, n, s.lastIndex, to, i, n);
      }
    }
  }

  lemma {:induction false} FlowIsConserved(s: Stats, start: int, es: seq<Event>)
    requires s.Valid() && AllFit(s.States(), es) && Flows(s, start)
    ensures Flows(Run(s, es), start)
    decreases |es|
  {
    if es != [] {
      if es[0].PostChange? {
        TransitionFlows(s, start, es[0].freq, es[0].now);
      }
      FlowIsConserved(Step(s, es[0]), start, es[1..]);
    }
  }

  lemma UpdateKeepsTime(s: Stats, now: int)
    requires s.Valid()
    ensures Sum(Update(s, now).time) - Update(s, now).lastTime == Sum(s.time) - s.lastTime
  {
    SumUpdate(s.time, s.lastIndex, s.time[s.lastIndex] + (now - s.lastTime));
  }

  /** The time on the books is the time since creation, whatever was notified, known or unknown. */
  lemma {:induction false} TimeIsConserved(s: Stats, created: int, es: seq<Event>)
    requires s.Valid() && AllFit(s.States(), es) && Sum(s.time) == s.lastTime - created
    ensures Sum(Run(s, es).time) == Run(s, es).lastTime - created
    decreases |es|
  {
    if es != [] {
      if es[0].PostChange? || es[0].Read? {
        UpdateKeepsTime(s, es[0].now);
      }
      TimeIsConserved(Step(s, es[0]), created, es[1..]);
    }
  }

  // Building the table

  /** The entries of the kernel's table that are not marked invalid. */
  function Valids(table: seq<int>): (r: seq<int>)
    ensures |r| <= |table|
  {
    if table == [] then []
    else
      var n := |table| - 1;
      if table[n] == INVALID then Valids(table[..n]) else Valids(table[..n]) + [table[n]]
  }

  /** What the build loop collects: each new frequency, except that 0 looks like a free slot and is passed over. */
  function Built(table: seq<int>): (r: seq<int>)
    ensures |r| <= |Valids(table)|
    ensures forall f :: f in r <==> f in table && f != INVALID && f != 0
    ensures forall i, j :: 0 <= i < j < |r| ==> r[i] != r[j]
  {
    if table == [] then []
    else
      var n := |table| - 1;
      var r := Built(table[..n]);
      assert table == table[..n] + [table[n]];
      if table[n] == INVALID || table[n] == 0 || table[n] in r then r else r + [table[n]]
  }

  lemma BuiltGrows(table: seq<int>, i: nat)
    requires i < |table|
    ensures var built := Built(table[..i]);
            Built(table[..i + 1]) ==
            if table[i] == INVALID || table[i] == 0 || table[i] in built then built else built + [table[i]]
    ensures |Valids(table[..i + 1])| == |Valids(table[..i])| + (if table[i] == INVALID then 0 else 1)
  {
    var next := table[..i + 1];
    assert next[..i] == table[..i];
  }

  /** Each valid frequency is in the built table, and so exactly once, unless the kernel's table lists frequency 0. */
  lemma BuiltIsComplete(table: seq<int>)
    ensures (forall f :: f in table && f != INVALID ==> f in Built(table)) <==> 0 !in table
  {
    assert INVALID != 0;
    if forall f :: f in table && f != INVALID ==> f in Built(table) {
      assert 0 in table ==> 0 in Built(table);
    }
  }

  /** The frequencies stand in the order of their first occurrence. */
  lemma {:induction false} BuiltInOrder(table: seq<int>, i: nat, j: nat)
    requires i < j < |Built(table)|
    ensures 0 <= IndexOf(table, Built(table)[i]) < IndexOf(table, Built(table)[j])
    decreases |table|
  {
    var n := |table| - 1;
    var r, b := Built(table[..n]), Built(table);
    assert table == table[..n] + [table[n]];
    assert b[i] in b && b[j] in b;
    if j < |r| {
      BuiltInOrder(table[..n], i, j);
      IndexOfPrefix(table, n, b[i]);
      IndexOfPrefix(table, n, b[j]);
    } else {
      assert r[i] in r;
      IndexOfPrefix(table, n, b[i]);
      assert b[j] !in table[..n];
    }
  }

  lemma IndexOfPrefix(s: seq<int>, n: nat, f: int)
    requires n <= |s| && f in s[..n]
    ensures IndexOf(s, f) == IndexOf(s[..n], f)
  {
    var p, q := IndexOf(s, f), IndexOf(s[..n], f);
    assert s[..n][q] == f && s[q] == f;
  }

  function Zeros(n: nat): (r: seq<int>)
    ensures |r| == n && forall i :: 0 <= i < n ==> r[i] == 0
  {
    seq(n, _ => 0)
  }

  /** The built frequencies, padded with zeros to one slot more than there are valid entries. */
  function Slots(table: seq<int>): (r: seq<int>)
    ensures |r| == |Valids(table)| + 1
  {
    Built(table) + Zeros(|Valids(table)| + 1 - |Built(table)|)
  }

  /** Looking a built frequency up gives its slot back. */
  lemma LookupInvertsBuild(table: seq<int>, k: nat)
    requires k < |Built(table)|
    ensures IndexOf(Slots(table), Built(table)[k]) == k
  {
    var s, f := Slots(table), Built(table)[k];
    assert s[k] == f && f in s;
    FirstIs(s, f, k);
  }

  function Created(table: seq<int>, cur: int, now: int): Stats {
    var n := |Valids(table)| + 1;
    Stats(Zeros(n), Slots(table), Zeros(n * n), now, IndexOf(Slots(table), cur), 0)
  }

  /** Both laws hold from creation on, over any run. */
  lemma StatsAreConserved(table: seq<int>, cur: int, now: int, es: seq<Event>)
    requires cur in Slots(table) && AllFit(|Valids(table)| + 1, es)
    ensures var s := Created(table, cur, now);
            && s.Valid()
            && Flows(Run(s, es), s.lastIndex)
            && Sum(Run(s, es).time) == Run(s, es).lastTime - now
  {
    var s := Created(table, cur, now);
    var n := s.States();
    SumZero(s.time);
    SumZero(s.trans);
    forall i | 0 <= i < n ensures Row(s.trans, n, i, n) == Col(s.trans, n, i, n) == 0 {
      ZeroMatrix(s.trans, n, i, n);
    }
    FlowIsConserved(s, s.lastIndex, es);
    TimeIsConserved(s, now, es);
  }

  /** `struct cpufreq_stats`; the three tables are one allocation in the kernel. */
  class CpufreqStats {
    const maxState: nat
    const timeInState: array<int>
    const freqTable: array<int>
    const transTable: array<int>
    var stateNum: nat
    var lastTime: int
    var lastIndex: int
    var totalTrans: int

    ghost function View(): Stats
      reads this, timeInState, freqTable, transTable
    {
      Stats(timeInState[..], freqTable[..], transTable[..], lastTime, lastIndex, totalTrans)
    }

    ghost predicate Valid()
      reads this, timeInState, freqTable, transTable
    {
      && freqTable.Length == maxState && View().Valid()
      && timeInState != freqTable && timeInState != transTable && freqTable != transTable
    }

    /** The number of valid entries, and one more for the frequency that overclocking adds. */
    static method CountStates(table: seq<int>) returns (count: nat)
      ensures count == |Valids(table)| + 1
    {
      count := 0;
      for i := 0 to |table|
        invariant count == |Valids(table[..i])|
      {
        assert table[..i + 1][..i] == table[..i];
        if table[i] != INVALID {
          count := count + 1;
        }
      }
      assert table[..|table|] == table;
      count := count + 1;
    }

    /** A current frequency that the table does not list leaves no valid last index behind. */
    constructor CreateTable(table: seq<int>, cur: int, now: int)
      ensures View() == Created(table, cur, now)
      ensures maxState == |Valids(table)| + 1 && stateNum == |Built(table)| + 1 <= maxState
      ensures Valid() <==> cur in Slots(table)
      ensures fresh(timeInState) && fresh(freqTable) && fresh(transTable)
    {
      var count := CountStates(table);
      maxState := count;
      timeInState := new int[count](_ => 0);
      freqTable := new int[count](_ => 0);
      transTable := new int[count * count](_ => 0);
      stateNum, lastTime, lastIndex, totalTrans := 0, 0, 0, 0;
      new;
      FillFreqTable(table);
      lastTime := now;
      lastIndex := FreqTableGetIndex(cur);
      assert timeInState[..] == Zeros(count) && transTable[..] == Zeros(count * count);
    }

    method FillFreqTable(table: seq<int>)
      requires freqTable.Length == maxState == |Valids(table)| + 1
      requires forall k :: 0 <= k < freqTable.Length ==> freqTable[k] == 0
      modifies `stateNum, freqTable
      ensures freqTable[..] == Slots(table) && stateNum == |Built(table)| + 1
    {
      var j := 0;
      assert freqTable[..] == Built(table[..0]) + Zeros(maxState);
      for i := 0 to |table|
        invariant j == |Built(table[..i])| < maxState
        invariant freqTable[..] == Built(table[..i]) + Zeros(maxState - j)
      {
        j := TakeEntry(table, i, j, Built(table[..i]), Built(table[..i + 1]));
      }
      assert table[..|table|] == table;
      stateNum := j + 1;
    }

    /** One round of that loop. */
    method TakeEntry(table: seq<int>, i: nat, j: nat, ghost built: seq<int>, ghost built': seq<int>)
        returns (j': nat)
      requires freqTable.Length == maxState == |Valids(table)| + 1 && i < |table|
      requires built == Built(table[..i]) && built' == Built(table[..i + 1])
      requires j == |built| < maxState && freqTable[..] == built + Zeros(maxState - j)
      modifies freqTable
      ensures j' == |built'| < maxState && freqTable[..] == built' + Zeros(maxState - j')
    {
      BuiltGrows(table, i);
      ValidsGrow(table, i + 1);
      j' := j;
      if table[i] != INVALID {
        j' := AddFreq(table[i], j, built);
      }
    }

    /** The first `j` slots hold `built`; a frequency that is found nowhere takes the next slot. */
    method AddFreq(freq: int, j: nat, ghost built: seq<int>) returns (j': nat)
      requires freqTable.Length == maxState && j == |built| < maxState
      requires freqTable[..] == built + Zeros(maxState - j)
      modifies freqTable
      ensures var b := if freq in built || freq == 0 then built else built + [freq];
              j' == |b| && freqTable[..] == b + Zeros(maxState - j')
    {
      SlotSearch(built, maxState - j, freq);
      var found := FreqTableGetIndex(freq);
      if found == -1 {
        freqTable[j] := freq;
        ZerosShrink(built, freq, maxState - j);
        return j + 1;
      }
      return j;
    }

    method FreqTableGetIndex(freq: int) returns (index: int)
      requires freqTable.Length == maxState
      ensures index == IndexOf(freqTable[..], freq)
    {
      index := 0;
      while index < maxState
        invariant 0 <= index <= maxState && freq !in freqTable[..index]
      {
        if freqTable[index] == freq {
          FirstIs(freqTable[..], freq, index);
          return;
        }
        index := index + 1;
      }
      assert freqTable[..index] == freqTable[..];
      return -1;
    }

    method UpdateStats(now: int)
      requires Valid()
      modifies `lastTime, timeInState
      ensures Valid() && View() == Update(old(View()), now)
    {
      timeInState[lastIndex] := timeInState[lastIndex] + (now - lastTime);
      lastTime := now;
    }

    method NotifierTrans(postChange: bool, freq: int, now: int)
      requires Valid()
      modifies this, timeInState, transTable
      ensures Valid()
      ensures View() == Step(old(View()), if postChange then PostChange(freq, now) else PreChange(freq))
    {
      if !postChange {
        return;
      }
      var oldIndex := lastIndex;
      var newIndex := FreqTableGetIndex(freq);
      UpdateStats(now);
      if oldIndex == newIndex || oldIndex == -1 || newIndex == -1 {
        return;
      }
      lastIndex := newIndex;
      var c := Cell(maxState, oldIndex, newIndex);
      transTable[c] := transTable[c] + 1;
      totalTrans := totalTrans + 1;
    }

    method FreqUpdate(index: nat, freq: int)
      requires Valid() && index < maxState
      modifies freqTable
      ensures Valid() && View() == Step(old(View()), Rename(index, freq))
    {
      freqTable[index] := freq;
    }
  }

  lemma FirstIs(s: seq<int>, f: int, k: nat)
    requires k < |s| && s[k] == f && f !in s[..k]
    ensures IndexOf(s, f) == k
  {
    assert s[k] in s;
  }

  lemma {:induction false} ValidsGrow(table: seq<int>, i: nat)
    requires i <= |table|
    ensures |Valids(table[..i])| <= |Valids(table)|
    decreases |table| - i
  {
    if i < |table| {
      assert table[..i + 1][..i] == table[..i];
      ValidsGrow(table, i + 1);
    } else {
      assert table[..i] == table;
    }
  }

  /** A frequency is missing from the slots exactly when it is neither collected nor zero, while a free slot is left. */
  lemma SlotSearch(b: seq<int>, free: nat, freq: int)
    requires free > 0
    ensures IndexOf(b + Zeros(free), freq) == -1 <==> freq !in b && freq != 0
  {
    assert (b + Zeros(free))[|b|] == 0;
  }

  lemma ZerosShrink(b: seq<int>, freq: int, free: nat)
    requires free > 0
    ensures (b + Zeros(free))[|b| := freq] == (b + [freq]) + Zeros(free - 1)
  {
  }
}
