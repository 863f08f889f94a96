/** The "boosted" governor: what it asks for, what it gets, and where repeated asking leads. */
module Boosted {
  import opened Basics
  import opened FrequencyTable

  const INT_LIMIT := 0x8000_0000

  /** The result of 32-bit arithmetic stored into an `int`: whole words are dropped until it fits. */
  function ToInt(x: int): (r: int)
    ensures -INT_LIMIT <= r < INT_LIMIT
    ensures INT_LIMIT <= x < INT_LIMIT + WORD ==> r == x - WORD
    ensures -INT_LIMIT - WORD <= x < -INT_LIMIT ==> r == x + WORD
    decreases if -INT_LIMIT <= x < INT_LIMIT then 0 else if x < 0 then -x else x
  {
    if x >= INT_LIMIT then ToInt(x - WORD) else if x < -INT_LIMIT then ToInt(x + WORD) else x
  }

  datatype Tunables = Tunables(awakeIdeal: nat, sleepIdeal: nat, rampUpStep: nat, rampDownStep: nat, maxCpuLoad: nat) {
    predicate Valid() {
      rampUpStep < WORD && rampDownStep < WORD && 0 < maxCpuLoad
    }
  }

  function ValidateFreq(l: Limits, freq: int): int {
    if freq > l.max then l.max else if freq < l.min then l.min else freq
  }

  /** `boosted_update_min_max`: the two branches compare in different orders. */
  function IdealSpeed(t: Tunables, l: Limits, suspended: bool): int {
    if suspended then
      if l.max > t.sleepIdeal then (if t.sleepIdeal > l.min then t.sleepIdeal else l.min) else l.max
    else
      if l.min < t.awakeIdeal then (if t.awakeIdeal < l.max then t.awakeIdeal else l.max) else l.min
  }

  /** Both branches clamp the tunable to the limits. */
  lemma IdealIsClamped(t: Tunables, l: Limits, suspended: bool)
    requires l.min <= l.max
    ensures IdealSpeed(t, l, suspended) == ValidateFreq(l, if suspended then t.sleepIdeal else t.awakeIdeal)
    ensures l.min <= IdealSpeed(t, l, suspended) <= l.max
  {
  }

  /** `Stuck` is the branch that warns of a failed change. */
  datatype Outcome = Unchanged | Stuck | Change(freq: int)

  /** A preference that left us at `oldFreq` is tried the other way round, if that is the way we want to go. */
  function Retried(table: seq<int>, l: Limits, asked: int, oldFreq: int, relation: Relation, target: int): int {
    if target != oldFreq then target
    else if asked > oldFreq && relation == AtMost then Lookup(table, l, asked, AtLeast)
    else if asked < oldFreq && relation == AtLeast then Lookup(table, l, asked, AtMost)
    else target
  }

  /** `target_freq`; `None` stands for a missing table. */
  function Target(table: Option<seq<int>>, l: Limits, wanted: int, oldFreq: int, relation: Relation): Outcome {
    var asked := ValidateFreq(l, wanted);
    if wanted == oldFreq || asked == oldFreq then Unchanged
    else if table.None? || Lookup(table.value, l, asked, relation) == -1 then Change(asked)
    else
      var target := Retried(table.value, l, asked, oldFreq, relation, Lookup(table.value, l, asked, relation));
      if target == oldFreq then Stuck else Change(target)
  }

  /** Strictly on the side of `oldFreq` that `asked` is on. */
  predicate Beyond(f: int, oldFreq: int, asked: int) {
    if asked > oldFreq then f > oldFreq else f < oldFreq
  }

  /**
   * The warning is reached exactly when the current frequency is a usable entry and no usable entry lies
   * on the side asked for; the preferred relation does not matter.
   */
  lemma StuckExactly(table: seq<int>, l: Limits, wanted: int, oldFreq: int, relation: Relation)
    requires l.min <= l.max && ValidateFreq(l, wanted) != oldFreq && wanted != oldFreq
    ensures Target(Some(table), l, wanted, oldFreq, relation) == Stuck <==>
            && Usable(table, l, oldFreq)
            && forall f :: Usable(table, l, f) ==> !Beyond(f, oldFreq, ValidateFreq(l, wanted))
  {
  }

  /** With limits and current frequency in the table, every real request moves strictly to the side asked for. */
  lemma StrictProgress(table: seq<int>, l: Limits, wanted: int, oldFreq: int, relation: Relation)
    requires l.min <= l.max && Usable(table, l, l.min) && Usable(table, l, l.max) && Usable(table, l, oldFreq)
    requires ValidateFreq(l, wanted) != oldFreq
    ensures var r := Target(Some(table), l, wanted, oldFreq, relation);
            r.Change? && Usable(table, l, r.freq) && Beyond(r.freq, oldFreq, wanted)
  {
    StuckExactly(table, l, wanted, oldFreq, relation);
    var asked := ValidateFreq(l, wanted);
    assert Beyond(if asked > oldFreq then l.max else l.min, oldFreq, asked);
  }

  /** A limit between two entries is enough to reach the warning. */
  lemma LimitOffTheTableSticks(relation: Relation)
    ensures Target(Some([100, 200]), Limits(100, 250), 300, 200, relation) == Stuck
  {
    var table := [100, 200];
    assert table[0] == 100 && table[1] == 200;
    assert Usable(table, Limits(100, 250), 200);
    StuckExactly(table, Limits(100, 250), 300, 200, relation);
  }

  // The work item

  /** One CPU: its policy, and the fields of `boosted_info_s` that the work item uses. */
  datatype Cpu = Cpu(limits: Limits, cur: int, oldFreq: int, rampDir: int, idealSpeed: int, cpuLoad: nat, timer: bool)

  /** The driver looks the frequency up in the same table; without a table it takes what it is told. */
  function DriverTarget(table: Option<seq<int>>, c: Cpu, freq: int, relation: Relation): int {
    if table.None? then freq
    else
      var f := Lookup(table.value, c.limits, freq, relation);
      if f == -1 then c.cur else f
  }

  /** What the work item asks for, and the preference it leaves behind for this and the following CPUs. */
  function Request(t: Tunables, c: Cpu, running: nat, relation: Relation): (int, Relation)
    requires t.Valid()
  {
    if c.oldFreq != c.cur then (c.oldFreq, relation)
    else if c.rampDir > 0 && running > 1 then
      if c.oldFreq < c.idealSpeed then (c.idealSpeed, relation)
      else if t.rampUpStep != 0 then (ToInt(c.oldFreq + t.rampUpStep), AtMost)
      else (c.limits.max, AtMost)
    else if c.rampDir < 0 then
      if c.oldFreq > c.idealSpeed then (c.idealSpeed, AtMost)
      else if t.rampDownStep != 0 then (ToInt(c.oldFreq - t.rampDownStep), relation)
      else
        var scaled := ToInt(((c.oldFreq * c.cpuLoad) % WORD) / t.maxCpuLoad);
        (if scaled > c.oldFreq then c.oldFreq - 1 else scaled, relation)
    else (c.oldFreq, relation)
  }

  /** One CPU's share of the work item: the new state, and the preference passed on. */
  function Work(t: Tunables, table: Option<seq<int>>, c: Cpu, running: nat, relation: Relation): (Cpu, Relation)
    requires t.Valid()
  {
    var (wanted, r) := Request(t, c, running, relation);
    var o := Target(table, c.limits, wanted, c.oldFreq, r);
    var reached := if o.Change? then o.freq else 0;
    var cur := if o.Change? then DriverTarget(table, c, o.freq, r) else c.cur;
    (c.(rampDir := 0, cur := cur, timer := reached < c.limits.max), r)
  }

  // Which frequency is set

  function Opposite(relation: Relation): Relation {
    if relation == AtMost then AtLeast else AtMost
  }

  /** The preference would rather stay short of `asked`. */
  predicate HoldsBack(asked: int, oldFreq: int, relation: Relation) {
    (asked > oldFreq && relation == AtMost) || (asked < oldFreq && relation == AtLeast)
  }

  /**
   * What `target_freq` promises: `cur` is the frequency then, `reached` what is returned. Without a table it is the
   * request, clamped to the limits. With one it is the entry picked for that; if that is the old frequency and the
   * preference holds back, it is the entry picked by the opposite preference. If that is the old one too, nothing
   * changes.
   */
  ghost predicate SetsAsAsked(table: Option<seq<int>>, c: Cpu, wanted: int, oldFreq: int, relation: Relation, cur: int,
                              reached: int)
  {
    var asked := ValidateFreq(c.limits, wanted);
    if wanted == oldFreq || asked == oldFreq then cur == c.cur && reached == 0
    else if table.None? then cur == reached == asked
    else if forall f :: !Usable(table.value, c.limits, f) then cur == c.cur && reached == asked
    else exists p, q ::
      && Picks(table.value, c.limits, asked, relation, p) && Picks(table.value, c.limits, asked, Opposite(relation), q)
      && if p != oldFreq then cur == reached == p
         else if HoldsBack(asked, oldFreq, relation) && q != oldFreq then cur == reached == q
         else cur == c.cur && reached == 0
  }

  /** The frequency after a change has been decided, and the return value. */
  function Effect(table: Option<seq<int>>, c: Cpu, o: Outcome, relation: Relation): (int, int) {
    if o.Change? then (DriverTarget(table, c, o.freq, relation), o.freq) else (c.cur, 0)
  }

  lemma TargetIsAsAsked(table: Option<seq<int>>, c: Cpu, wanted: int, oldFreq: int, relation: Relation)
    ensures var (cur, reached) := Effect(table, c, Target(table, c.limits, wanted, oldFreq, relation), relation);
            SetsAsAsked(table, c, wanted, oldFreq, relation, cur, reached)
  {
    if table.Some? {
      if f :| Usable(table.value, c.limits, f) {
        TargetIsPicked(table.value, c, wanted, oldFreq, relation, ValidateFreq(c.limits, wanted), f);
      }
    }
  }

  lemma TargetIsPicked(table: seq<int>, c: Cpu, wanted: int, oldFreq: int, relation: Relation, asked: int, f: int)
    requires asked == ValidateFreq(c.limits, wanted) && Usable(table, c.limits, f)
    ensures var o := Target(Some(table), c.limits, wanted, oldFreq, relation);
            var (cur, reached) := Effect(Some(table), c, o, relation);
            SetsAsAsked(Some(table), c, wanted, oldFreq, relation, cur, reached)
  {
    var l := c.limits;
    var p, q := Lookup(table, l, asked, relation), Lookup(table, l, asked, Opposite(relation));
    LookupPicks(table, l, asked, relation, f);
    LookupPicks(table, l, asked, Opposite(relation), f);
    if asked != oldFreq && wanted != oldFreq {
      ChangeIsPicked(table, c, wanted, oldFreq, relation, p, q);
    }
  }

  lemma ChangeIsPicked(table: seq<int>, c: Cpu, wanted: int, oldFreq: int, relation: Relation, p: int, q: int)
    requires wanted != oldFreq && ValidateFreq(c.limits, wanted) != oldFreq
    requires p == Lookup(table, c.limits, ValidateFreq(c.limits, wanted), relation) && Usable(table, c.limits, p)
    requires q == Lookup(table, c.limits, ValidateFreq(c.limits, wanted), Opposite(relation))
    requires Usable(table, c.limits, q)
    ensures var f := if p == oldFreq && HoldsBack(ValidateFreq(c.limits, wanted), oldFreq, relation) then q else p;
            Effect(Some(table), c, Target(Some(table), c.limits, wanted, oldFreq, relation), relation) ==
            if f == oldFreq then (c.cur, 0) else (f, f)
  {
    LookupExact(table, c.limits, p, relation);
    LookupExact(table, c.limits, q, relation);
  }

  /** A request that the table has within the limits is granted as it is. */
  lemma UsableIsSet(table: seq<int>, c: Cpu, wanted: int, oldFreq: int, relation: Relation, cur: int, reached: int)
    requires Usable(table, c.limits, wanted) && wanted != oldFreq
    requires SetsAsAsked(Some(table), c, wanted, oldFreq, relation, cur, reached)
    ensures cur == reached == wanted
  {
    LookupPicks(table, c.limits, wanted, relation, wanted);
    PicksOne(table, c.limits, wanted, relation, wanted, wanted);
  }

  // Ramping

  /** Limits, current and ideal speed as the governor keeps them, over a table that holds the limits. */
  ghost predicate Settled(table: seq<int>, c: Cpu) {
    && c.limits.max < INT_LIMIT
    && Usable(table, c.limits, c.limits.min) && Usable(table, c.limits, c.limits.max) && Usable(table, c.limits, c.cur)
    && c.limits.min <= c.idealSpeed <= c.limits.max
  }

  /** The timer has sampled the CPU and decided to ramp. */
  function Sampled(c: Cpu, dir: int, load: nat): Cpu {
    c.(oldFreq := c.cur, rampDir := dir, cpuLoad := load)
  }

  function RampUp(t: Tunables, table: seq<int>, c: Cpu, running: nat, relation: Relation): Cpu
    requires t.Valid()
  {
    Work(t, Some(table), Sampled(c, 1, c.cpuLoad), running, relation).0
  }

  function RampDown(t: Tunables, table: seq<int>, c: Cpu, running: nat, relation: Relation): Cpu
    requires t.Valid()
  {
    Work(t, Some(table), Sampled(c, -1, c.cpuLoad), running, relation).0
  }

  /** A request strictly to one side of the current frequency moves there; at the limit nothing moves. */
  lemma WorkMoves(t: Tunables, table: seq<int>, c: Cpu, running: nat, relation: Relation)
    requires t.Valid() && Settled(table, c) && c.oldFreq == c.cur
    ensures var (wanted, _) := Request(t, c, running, relation);
            var c' := Work(t, Some(table), c, running, relation).0;
            && c'.limits == c.limits && c'.idealSpeed == c.idealSpeed && Settled(table, c')
            && (ValidateFreq(c.limits, wanted) == c.cur ==> c'.cur == c.cur)
            && (ValidateFreq(c.limits, wanted) != c.cur ==> Beyond(c'.cur, c.cur, wanted))
  {
    var (wanted, r) := Request(t, c, running, relation);
    if ValidateFreq(c.limits, wanted) != c.cur {
      StrictProgress(table, c.limits, wanted, c.cur, r);
      LookupExact(table, c.limits, Target(Some(table), c.limits, wanted, c.cur, r).freq, r);
    }
  }

  /**
   * From `oldFreq` the request `goal` leads to `f`: the clamped goal if that is where the CPU is; else the entry picked
   * for it, unless that is where the CPU is: then the one that the opposite preference picks.
   */
  ghost predicate GoesTo(table: seq<int>, l: Limits, oldFreq: int, goal: int, relation: Relation, f: int) {
    var asked := ValidateFreq(l, goal);
    if asked == oldFreq then f == oldFreq
    else if Picks(table, l, asked, relation, oldFreq) then f != oldFreq && Picks(table, l, asked, Opposite(relation), f)
    else Picks(table, l, asked, relation, f)
  }

  lemma WorkGoesTo(t: Tunables, table: seq<int>, c: Cpu, running: nat, relation: Relation, goal: int, left: Relation)
    requires t.Valid() && Settled(table, c) && c.oldFreq == c.cur && Request(t, c, running, relation) == (goal, left)
    ensures GoesTo(table, c.limits, c.cur, goal, left, Work(t, Some(table), c, running, relation).0.cur)
  {
    var c', asked := Work(t, Some(table), c, running, relation).0, ValidateFreq(c.limits, goal);
    WorkMoves(t, table, c, running, relation);
    TargetIsAsAsked(Some(table), c, goal, c.oldFreq, left);
    if asked != c.cur {
      var p, q := Lookup(table, c.limits, asked, left), Lookup(table, c.limits, asked, Opposite(left));
      LookupPicks(table, c.limits, asked, left, c.cur);
      LookupPicks(table, c.limits, asked, Opposite(left), c.cur);
    }
  }

  /** Ramping up: to the ideal speed from below it, else by the step at most, or without a step to the maximum. */
  lemma RampUpSets(t: Tunables, table: seq<int>, c: Cpu, running: nat, relation: Relation)
    requires t.Valid() && Settled(table, c) && running > 1
    ensures var l, cur, f := c.limits, c.cur, RampUp(t, table, c, running, relation).cur;
            && (cur < c.idealSpeed ==> GoesTo(table, l, cur, c.idealSpeed, relation, f))
            && (cur >= c.idealSpeed && t.rampUpStep != 0 ==>
                  GoesTo(table, l, cur, ToInt(cur + t.rampUpStep), AtMost, f))
            && (cur >= c.idealSpeed && t.rampUpStep == 0 ==> f == l.max)
  {
    var s := Sampled(c, 1, c.cpuLoad);
    var (goal, left) := Request(t, s, running, relation);
    WorkGoesTo(t, table, s, running, relation, goal, left);
    PicksOne(table, c.limits, c.limits.max, AtMost, c.limits.max, c.limits.max);
  }

  /**
   * Ramping down: at most to the ideal speed from above it, else by the step, or without a step to the frequency scaled
   * by the load, or by one if that is higher.
   */
  lemma RampDownSets(t: Tunables, table: seq<int>, c: Cpu, running: nat, relation: Relation)
    requires t.Valid() && Settled(table, c)
    ensures var l, cur, f := c.limits, c.cur, RampDown(t, table, c, running, relation).cur;
            && (cur > c.idealSpeed ==> GoesTo(table, l, cur, c.idealSpeed, AtMost, f))
            && (cur <= c.idealSpeed && t.rampDownStep != 0 ==>
                  GoesTo(table, l, cur, ToInt(cur - t.rampDownStep), relation, f))
            && (cur <= c.idealSpeed && t.rampDownStep == 0 && cur * c.cpuLoad < INT_LIMIT ==>
                  var scaled := cur * c.cpuLoad / t.maxCpuLoad;
                  GoesTo(table, l, cur, if scaled > cur then cur - 1 else scaled, relation, f))
  {
    var s := Sampled(c, -1, c.cpuLoad);
    var (goal, left) := Request(t, s, running, relation);
    WorkGoesTo(t, table, s, running, relation, goal, left);
    if c.cur <= c.idealSpeed && t.rampDownStep == 0 && c.cur * c.cpuLoad < INT_LIMIT {
      LoadGoal(t, s, running, relation, c.cur * c.cpuLoad);
    }
  }

  lemma LoadGoal(t: Tunables, c: Cpu, running: nat, relation: Relation, product: int)
    requires t.Valid() && c.oldFreq == c.cur >= 0 && c.rampDir < 0 && c.cur <= c.idealSpeed && t.rampDownStep == 0
    requires product == c.cur * c.cpuLoad < INT_LIMIT
    ensures var scaled := product / t.maxCpuLoad;
            Request(t, c, running, relation) == (if scaled > c.cur then c.cur - 1 else scaled, relation)
  {
    assert product >= 0;
    ScaledLoad(product, t.maxCpuLoad);
  }

  /** Nothing is set for a CPU without a direction, a ramp-up for one task, or after a change by someone else. */
  lemma WorkHoldsStill(t: Tunables, table: Option<seq<int>>, c: Cpu, running: nat, relation: Relation)
    requires t.Valid() && (c.oldFreq != c.cur || c.rampDir == 0 || (c.rampDir > 0 && running <= 1))
    ensures Work(t, table, c, running, relation) == (c.(rampDir := 0, timer := 0 < c.limits.max), relation)
  {
  }

  /**
   * What the work item leaves behind: no direction, a timer unless the maximum was reached, and the preference for a
   * frequency not above the goal after a ramp-up from the ideal speed on or a ramp-down to it, else the one it found.
   */
  lemma WorkLeaves(t: Tunables, table: seq<int>, c: Cpu, running: nat, relation: Relation)
    requires t.Valid() && Settled(table, c) && c.oldFreq == c.cur && c.limits.max > 0
    ensures var (c', left) := Work(t, Some(table), c, running, relation);
            && c' == c.(rampDir := 0, cur := c'.cur, timer := c'.cur == c.cur || c'.cur < c.limits.max)
            && (left == if (c.rampDir > 0 && running > 1 && c.cur >= c.idealSpeed) ||
                           (c.rampDir < 0 && c.cur > c.idealSpeed) then AtMost else relation)
  {
    var (goal, left) := Request(t, c, running, relation);
    WorkMoves(t, table, c, running, relation);
    TargetIsAsAsked(Some(table), c, goal, c.oldFreq, left);
  }

  /** Below the maximum a ramp-up rises to another usable entry; at the maximum it stays. */
  lemma RampUpRises(t: Tunables, table: seq<int>, c: Cpu, running: nat, relation: Relation)
    requires t.Valid() && Settled(table, c) && running > 1 && c.limits.max + t.rampUpStep < INT_LIMIT
    ensures var c' := RampUp(t, table, c, running, relation);
            && Settled(table, c') && c'.limits == c.limits
            && (if c.cur == c.limits.max then c'.cur == c.cur else c'.cur > c.cur)
  {
    WorkMoves(t, table, Sampled(c, 1, c.cpuLoad), running, relation);
  }

  /** Above the minimum a stepwise ramp-down sinks to another usable entry; at the minimum it stays. */
  lemma RampDownSinks(t: Tunables, table: seq<int>, c: Cpu, running: nat, relation: Relation)
    requires t.Valid() && Settled(table, c) && 0 < t.rampDownStep <= c.limits.min + INT_LIMIT
    ensures var c' := RampDown(t, table, c, running, relation);
            && Settled(table, c') && c'.limits == c.limits
            && (if c.cur == c.limits.min then c'.cur == c.cur else c'.cur < c.cur)
  {
    WorkMoves(t, table, Sampled(c, -1, c.cpuLoad), running, relation);
  }

  /**
   * Without a step size, at or below the ideal speed, the load decides: the frequency sinks exactly when scaling it by
   * the load changes it, and it never rises.
   */
  lemma LoadHeuristicSinks(t: Tunables, table: seq<int>, c: Cpu, running: nat, relation: Relation)
    requires t.Valid() && Settled(table, c) && t.rampDownStep == 0 && c.limits.min < c.cur <= c.idealSpeed
    requires c.cur * c.cpuLoad < INT_LIMIT
    ensures var c' := RampDown(t, table, c, running, relation);
            c'.cur <= c.cur && (c'.cur < c.cur <==> c.cur * c.cpuLoad / t.maxCpuLoad != c.cur)
  {
    LoadGoal(t, Sampled(c, -1, c.cpuLoad), running, relation, c.cur * c.cpuLoad);
    WorkMoves(t, table, Sampled(c, -1, c.cpuLoad), running, relation);
  }

  lemma ScaledLoad(x: int, d: int)
    requires 0 <= x < INT_LIMIT && d > 0
    ensures ToInt((x % WORD) / d) == x / d
  {
    assert x % WORD == x;
    assert x / d <= x;
  }

  /** At or above the ideal speed, a ramp-up step rises exactly when the sum still fits an `int`. */
  lemma StepRisesUnlessItOverflows(t: Tunables, table: seq<int>, c: Cpu, running: nat, relation: Relation)
    requires t.Valid() && Settled(table, c) && running > 1 && 0 < t.rampUpStep && c.idealSpeed <= c.cur < c.limits.max
    ensures RampUp(t, table, c, running, relation).cur > c.cur <==> c.cur + t.rampUpStep < INT_LIMIT
  {
    WorkMoves(t, table, Sampled(c, 1, c.cpuLoad), running, relation);
  }

  /** Below or at the ideal speed, a ramp-down step sinks exactly when the difference still fits an `int`. */
  lemma StepSinksUnlessItWraps(t: Tunables, table: seq<int>, c: Cpu, running: nat, relation: Relation)
    requires t.Valid() && Settled(table, c) && 0 < t.rampDownStep && c.limits.min < c.cur <= c.idealSpeed
    ensures RampDown(t, table, c, running, relation).cur < c.cur <==> t.rampDownStep <= c.cur + INT_LIMIT
  {
    WorkMoves(t, table, Sampled(c, -1, c.cpuLoad), running, relation);
  }

  /** What differs from one run of the work item to the next. */
  datatype Kick = Kick(running: nat, relation: Relation)

  function RampUps(t: Tunables, table: seq<int>, c: Cpu, kicks: seq<Kick>): Cpu
    requires t.Valid()
    decreases |kicks|
  {
    if kicks == [] then c
    else RampUps(t, table, RampUp(t, table, c, kicks[0].running, kicks[0].relation), kicks[1..])
  }

  function RampDowns(t: Tunables, table: seq<int>, c: Cpu, kicks: seq<Kick>): Cpu
    requires t.Valid()
    decreases |kicks|
  {
    if kicks == [] then c
    else RampDowns(t, table, RampDown(t, table, c, kicks[0].running, kicks[0].relation), kicks[1..])
  }

  predicate KeepsRamping(kicks: seq<Kick>) {
    forall k :: 0 <= k < |kicks| ==> kicks[k].running > 1
  }

  /** As many ramp-ups as there are entries above the current one reach the maximum; any more leave it there. */
  lemma {:induction false} ConvergesUp(t: Tunables, table: seq<int>, c: Cpu, kicks: seq<Kick>)
    requires t.Valid() && Settled(table, c) && c.limits.max + t.rampUpStep < INT_LIMIT
    requires KeepsRamping(kicks) && |kicks| >= CountAbove(table, c.limits, c.cur)
    ensures RampUps(t, table, c, kicks).cur == c.limits.max
    decreases |kicks|
  {
    if kicks == [] {
      NoneAbove(table, c.limits, c.cur);
    } else {
      var c' := RampUp(t, table, c, kicks[0].running, kicks[0].relation);
      RampUpRises(t, table, c, kicks[0].running, kicks[0].relation);
      CountDropsUp(table, c.limits, c.cur, c'.cur);
      if c.cur == c.limits.max {
        NothingBeyondMax(table, c.limits);
      }
      ConvergesUp(t, table, c', kicks[1..]);
    }
  }

  lemma {:induction false} NothingBeyondMax(table: seq<int>, l: Limits)
    ensures CountAbove(table, l, l.max) == 0
  {
    if table != [] {
      NothingBeyondMax(table[1..], l);
    }
  }

  lemma {:induction false} NothingBelowMin(table: seq<int>, l: Limits)
    ensures CountBelow(table, l, l.min) == 0
  {
    if table != [] {
      NothingBelowMin(table[1..], l);
    }
  }

  /** Likewise downwards, for a step that the governor's `int` arithmetic survives at the minimum. */
  lemma {:induction false} ConvergesDown(t: Tunables, table: seq<int>, c: Cpu, kicks: seq<Kick>)
    requires t.Valid() && Settled(table, c) && 0 < t.rampDownStep <= c.limits.min + INT_LIMIT
    requires |kicks| >= CountBelow(table, c.limits, c.cur)
    ensures RampDowns(t, table, c, kicks).cur == c.limits.min
    decreases |kicks|
  {
    if kicks == [] {
      NoneBelow(table, c.limits, c.cur);
    } else {
      var c' := RampDown(t, table, c, kicks[0].running, kicks[0].relation);
      RampDownSinks(t, table, c, kicks[0].running, kicks[0].relation);
      CountDropsDown(table, c.limits, c.cur, c'.cur);
      if c.cur == c.limits.min {
        NothingBelowMin(table, c.limits);
      }
      ConvergesDown(t, table, c', kicks[1..]);
    }
  }

  /** However the step is set, ramping keeps the governor's state in order; one more kick is one more ramp-up. */
  lemma {:induction false} RampUpsSettle(t: Tunables, table: seq<int>, c: Cpu, kicks: seq<Kick>, k: Kick)
    requires t.Valid() && Settled(table, c)
    ensures var r := RampUps(t, table, c, kicks);
            && Settled(table, r) && r.limits == c.limits
            && RampUps(t, table, c, kicks + [k]) == RampUp(t, table, r, k.running, k.relation)
    decreases |kicks|
  {
    if kicks == [] {
      assert kicks + [k] == [k] && [k][1..] == [];
    } else {
      WorkMoves(t, table, Sampled(c, 1, c.cpuLoad), kicks[0].running, kicks[0].relation);
      assert (kicks + [k])[1..] == kicks[1..] + [k];
      RampUpsSettle(t, table, RampUp(t, table, c, kicks[0].running, kicks[0].relation), kicks[1..], k);
    }
  }

  lemma {:induction false} RampDownsSettle(t: Tunables, table: seq<int>, c: Cpu, kicks: seq<Kick>, k: Kick)
    requires t.Valid() && Settled(table, c)
    ensures var r := RampDowns(t, table, c, kicks);
            && Settled(table, r) && r.limits == c.limits
            && RampDowns(t, table, c, kicks + [k]) == RampDown(t, table, r, k.running, k.relation)
    decreases |kicks|
  {
    if kicks == [] {
      assert kicks + [k] == [k] && [k][1..] == [];
    } else {
      WorkMoves(t, table, Sampled(c, -1, c.cpuLoad), kicks[0].running, kicks[0].relation);
      assert (kicks + [k])[1..] == kicks[1..] + [k];
      RampDownsSettle(t, table, RampDown(t, table, c, kicks[0].running, kicks[0].relation), kicks[1..], k);
    }
  }

  function Kicks(n: nat, k: Kick): (kicks: seq<Kick>)
    ensures |kicks| == n && forall i :: 0 <= i < n ==> kicks[i] == k
  {
    seq(n, i => k)
  }

  /** A step too large for the `int` arithmetic throws the CPU back from the very limit it has reached. */
  lemma LimitIsLeft(t: Tunables, table: seq<int>, c: Cpu, running: nat, relation: Relation)
    requires t.Valid() && Settled(table, c) && c.limits.min < c.limits.max && running > 1
    ensures c.cur == c.limits.max && c.limits.max + t.rampUpStep >= INT_LIMIT ==>
              RampUp(t, table, c, running, relation).cur < c.limits.max
    ensures c.cur == c.limits.min && t.rampDownStep > c.limits.min + INT_LIMIT ==>
              RampDown(t, table, c, running, relation).cur > c.limits.min
  {
    WorkMoves(t, table, Sampled(c, 1, c.cpuLoad), running, relation);
    WorkMoves(t, table, Sampled(c, -1, c.cpuLoad), running, relation);
  }

  ghost predicate EndsAtMax(t: Tunables, table: seq<int>, c: Cpu)
    requires t.Valid()
  {
    forall kicks :: KeepsRamping(kicks) && |kicks| >= CountAbove(table, c.limits, c.cur) ==>
      RampUps(t, table, c, kicks).cur == c.limits.max
  }

  /** Ramp-ups that overflow at the maximum do not stay there: one more kick than was enough is one too many. */
  lemma OverflowLeavesMax(t: Tunables, table: seq<int>, c: Cpu, kicks: seq<Kick>, k: Kick)
    requires t.Valid() && Settled(table, c) && c.limits.min < c.limits.max
    requires c.limits.max + t.rampUpStep >= INT_LIMIT && k.running > 1
    ensures RampUps(t, table, c, kicks).cur != c.limits.max || RampUps(t, table, c, kicks + [k]).cur != c.limits.max
  {
    RampUpsSettle(t, table, c, kicks, k);
    LimitIsLeft(t, table, RampUps(t, table, c, kicks), k.running, k.relation);
  }

  /** Enough ramp-ups always end at the maximum if and only if the step still fits an `int` there. */
  lemma ConvergesUpExactly(t: Tunables, table: seq<int>, c: Cpu)
    requires t.Valid() && Settled(table, c)
    ensures EndsAtMax(t, table, c) <==> c.limits.min == c.limits.max || c.limits.max + t.rampUpStep < INT_LIMIT
  {
    var k := Kick(2, AtMost);
    if c.limits.max + t.rampUpStep < INT_LIMIT {
      forall kicks | KeepsRamping(kicks) && |kicks| >= CountAbove(table, c.limits, c.cur)
        ensures RampUps(t, table, c, kicks).cur == c.limits.max
      {
        ConvergesUp(t, table, c, kicks);
      }
    } else if c.limits.min == c.limits.max {
      forall kicks ensures RampUps(t, table, c, kicks).cur == c.limits.max {
        RampUpsSettle(t, table, c, kicks, k);
      }
    } else {
      var kicks := Kicks(CountAbove(table, c.limits, c.cur), k);
      OverflowLeavesMax(t, table, c, kicks, k);
      assert KeepsRamping(kicks) && KeepsRamping(kicks + [k]);
    }
  }

  ghost predicate EndsAtMin(t: Tunables, table: seq<int>, c: Cpu)
    requires t.Valid()
  {
    forall kicks :: |kicks| >= CountBelow(table, c.limits, c.cur) ==>
      RampDowns(t, table, c, kicks).cur == c.limits.min
  }

  /** Enough steps down always end at the minimum if and only if the difference still fits an `int` there. */
  lemma ConvergesDownExactly(t: Tunables, table: seq<int>, c: Cpu)
    requires t.Valid() && Settled(table, c) && 0 < t.rampDownStep
    ensures EndsAtMin(t, table, c) <==> c.limits.min == c.limits.max || t.rampDownStep <= c.limits.min + INT_LIMIT
  {
    var k := Kick(2, AtMost);
    if t.rampDownStep <= c.limits.min + INT_LIMIT {
      forall kicks: seq<Kick> | |kicks| >= CountBelow(table, c.limits, c.cur)
        ensures RampDowns(t, table, c, kicks).cur == c.limits.min
      {
        ConvergesDown(t, table, c, kicks);
      }
    } else if c.limits.min == c.limits.max {
      forall kicks ensures RampDowns(t, table, c, kicks).cur == c.limits.min {
        RampDownsSettle(t, table, c, kicks, k);
      }
    } else {
      var kicks := Kicks(CountBelow(table, c.limits, c.cur), k);
      RampDownsSettle(t, table, c, kicks, k);
      LimitIsLeft(t, table, RampDowns(t, table, c, kicks), 2, AtMost);
    }
  }

  // The LIMITS event

  function ApplyLimits(t: Tunables, table: Option<seq<int>>, c: Cpu, l: Limits, suspended: bool): Cpu {
    var c1 := c.(limits := l, idealSpeed := IdealSpeed(t, l, suspended));
    var c2 :=
      if c1.cur > l.max then c1.(cur := DriverTarget(table, c1, l.max, AtMost))
      else if c1.cur < l.min then c1.(cur := DriverTarget(table, c1, l.min, AtLeast))
      else c1;
    c2.(timer := c2.timer || c2.cur < l.max)
  }

  /** New limits bring the CPU inside them exactly when it is there already or the table has an entry that is. */
  lemma LimitsAreObeyed(t: Tunables, table: seq<int>, c: Cpu, l: Limits, suspended: bool)
    requires l.min <= l.max
    ensures var c' := ApplyLimits(t, Some(table), c, l, suspended);
            && (l.min <= c'.cur <= l.max <==> l.min <= c.cur <= l.max || exists f :: Usable(table, l, f))
            && l.min <= c'.idealSpeed <= l.max
    ensures l.max < INT_LIMIT && Usable(table, l, l.min) && Usable(table, l, l.max) && c.cur in table ==>
              Settled(table, ApplyLimits(t, Some(table), c, l, suspended))
  {
    IdealIsClamped(t, l, suspended);
  }

  /** From outside the new limits the CPU goes to the usable entry nearest to the limit; inside, it stays. */
  lemma LimitsSet(t: Tunables, table: seq<int>, c: Cpu, l: Limits, suspended: bool)
    requires l.min <= l.max && exists f :: Usable(table, l, f)
    ensures var c' := ApplyLimits(t, Some(table), c, l, suspended);
            && c' == c.(limits := l, idealSpeed := ValidateFreq(l, if suspended then t.sleepIdeal else t.awakeIdeal),
                        cur := c'.cur, timer := c.timer || c'.cur < l.max)
            && (l.min <= c.cur <= l.max ==> c'.cur == c.cur)
            && (c.cur > l.max ==> Picks(table, l, l.max, AtMost, c'.cur))
            && (c.cur < l.min ==> Picks(table, l, l.min, AtLeast, c'.cur))
  {
    var f :| Usable(table, l, f);
    LookupPicks(table, l, l.max, AtMost, f);
    LookupPicks(table, l, l.min, AtLeast, f);
  }

  class Governor {
    const tunables: Tunables
    const table: Option<seq<int>>
    const cpus: array<Cpu>
    const workMask: array<bool>

    ghost predicate Valid()
      reads this
    {
      tunables.Valid() && cpus.Length == workMask.Length
    }

    constructor (t: Tunables, table: Option<seq<int>>, initial: seq<Cpu>)
      requires t.Valid()
      ensures Valid() && cpus[..] == initial && this.table == table && fresh(cpus) && fresh(workMask)
      ensures forall i :: 0 <= i < workMask.Length ==> !workMask[i]
    {
      tunables, this.table := t, table;
      cpus := new Cpu[|initial|](i requires 0 <= i < |initial| => initial[i]);
      workMask := new bool[|initial|](i => false);
    }

    /** The frequency set, or 0 if nothing changed. */
    method TargetFreq(cpu: nat, wanted: int, oldFreq: int, relation: Relation) returns (reached: int)
      requires Valid() && cpu < cpus.Length
      modifies cpus
      ensures var c, o := old(cpus[cpu]), Target(table, old(cpus[cpu]).limits, wanted, oldFreq, relation);
              && reached == (if o.Change? then o.freq else 0)
              && cpus[..] == old(cpus[..])[cpu :=
                   if o.Change? then c.(cur := DriverTarget(table, c, o.freq, relation)) else c]
      ensures SetsAsAsked(table, old(cpus[cpu]), wanted, oldFreq, relation, cpus[cpu].cur, reached)
    {
      TargetIsAsAsked(table, cpus[cpu], wanted, oldFreq, relation);
      var policy := cpus[cpu].limits;
      if wanted == oldFreq {
        return 0;
      }
      var asked := ValidateFreq(policy, wanted);
      if asked == oldFreq {
        return 0;
      }
      var target := asked;
      if table.Some? && Lookup(table.value, policy, asked, relation) != -1 {
        target := Lookup(table.value, policy, asked, relation);
        if target == oldFreq {
          if asked > oldFreq && relation == AtMost {
            target := Lookup(table.value, policy, asked, AtLeast);
          } else if asked < oldFreq && relation == AtLeast {
            target := Lookup(table.value, policy, asked, AtMost);
          }
        }
        if target == oldFreq {
          return 0;
        }
      }
      cpus[cpu] := cpus[cpu].(cur := DriverTarget(table, cpus[cpu], target, relation));
      return target;
    }

    /** One CPU of the work item; `relation` is what the CPUs before it left behind. */
    method WorkOn(cpu: nat, running: nat, relation: Relation) returns (left: Relation)
      requires Valid() && cpu < cpus.Length
      modifies cpus
      ensures (cpus[cpu], left) == Work(tunables, table, old(cpus[cpu]), running, relation)
      ensures cpus[..] == old(cpus[..])[cpu := cpus[cpu]]
    {
      var c := cpus[cpu];
      cpus[cpu] := c.(rampDir := 0);
      var (wanted, r) := Request(tunables, c, running, relation);
      left := r;
      var reached := TargetFreq(cpu, wanted, c.oldFreq, left);
      cpus[cpu] := cpus[cpu].(timer := reached < cpus[cpu].limits.max);
    }

    /**
     * The loop over all CPUs whose bit is set, the preference carried from one to the next. `running` is what the
     * kernel counts when it is the turn of each.
     */
    method FreqChangeTimeWork(running: seq<nat>)
      requires Valid() && |running| == cpus.Length
      modifies cpus, workMask
      ensures cpus[..] == WorkAll(tunables, table, old(cpus[..]), old(workMask[..]), running, AtLeast, [])
      ensures forall i :: 0 <= i < workMask.Length ==> !workMask[i]
    {
      var relation, cpu := AtLeast, 0;
      while cpu < cpus.Length
        invariant 0 <= cpu <= cpus.Length
        invariant forall i :: 0 <= i < cpu ==> !workMask[i]
        invariant forall i :: cpu <= i < workMask.Length ==> workMask[i] == old(workMask[i]) && cpus[i] == old(cpus[i])
        invariant WorkAll(tunables, table, old(cpus[..]), old(workMask[..]), running, AtLeast, []) ==
                  WorkAll(tunables, table, old(cpus[cpu..]), old(workMask[cpu..]), running[cpu..], relation,
                          cpus[..cpu])
      {
        ghost var done := cpus[..cpu];
        assert running[cpu..][1..] == running[cpu + 1..];
        assert old(cpus[cpu..])[1..] == old(cpus[cpu + 1..]) && old(workMask[cpu..])[1..] == old(workMask[cpu + 1..]);
        if workMask[cpu] {
          workMask[cpu] := false;
          relation := WorkOn(cpu, running[cpu], relation);
        }
        assert cpus[..cpu + 1] == done + [cpus[cpu]];
        cpu := cpu + 1;
      }
    }

    method GovernorLimits(cpu: nat, l: Limits, suspended: bool)
      requires Valid() && cpu < cpus.Length
      modifies cpus
      ensures cpus[..] == old(cpus[..])[cpu := ApplyLimits(tunables, table, old(cpus[cpu]), l, suspended)]
    {
      cpus[cpu] := cpus[cpu].(limits := l, idealSpeed := IdealSpeed(tunables, l, suspended));
      if cpus[cpu].cur > l.max {
        cpus[cpu] := cpus[cpu].(cur := DriverTarget(table, cpus[cpu], l.max, AtMost));
      } else if cpus[cpu].cur < l.min {
        cpus[cpu] := cpus[cpu].(cur := DriverTarget(table, cpus[cpu], l.min, AtLeast));
      }
      if cpus[cpu].cur < l.max {
        cpus[cpu] := cpus[cpu].(timer := true);
      }
    }
  }

  /**
   * The CPUs still to come are `cpus`, those before them have become `done`. `running` counts the running tasks when it
   * is the turn of each CPU.
   */
  function WorkAll(t: Tunables, table: Option<seq<int>>, cpus: seq<Cpu>, mask: seq<bool>, running: seq<nat>,
                   relation: Relation, done: seq<Cpu>): (r: seq<Cpu>)
    requires t.Valid() && |cpus| == |mask| == |running|
    ensures |r| == |done| + |cpus| && done <= r
    decreases |cpus|
  {
    if cpus == [] then done
    else if !mask[0] then WorkAll(t, table, cpus[1..], mask[1..], running[1..], relation, done + [cpus[0]])
    else
      var (c, left) := Work(t, table, cpus[0], running[0], relation);
      WorkAll(t, table, cpus[1..], mask[1..], running[1..], left, done + [c])
  }

  /** A CPU that makes `AtMost` the preference for itself and those after it. */
  predicate TurnsPreference(c: Cpu, running: nat) {
    && c.oldFreq == c.cur
    && ((c.rampDir > 0 && running > 1 && c.cur >= c.idealSpeed) || (c.rampDir < 0 && c.cur > c.idealSpeed))
  }

  /** One of the first `i` CPUs is in the mask and turns the preference. */
  predicate TurnedBefore(cpus: seq<Cpu>, mask: seq<bool>, running: seq<nat>, i: nat)
    requires |cpus| == |mask| == |running| && i <= |cpus|
  {
    exists k :: 0 <= k < i && mask[k] && TurnsPreference(cpus[k], running[k])
  }

  lemma TurnedFirst(cpus: seq<Cpu>, mask: seq<bool>, running: seq<nat>, i: nat)
    requires |cpus| == |mask| == |running| && 0 < i <= |cpus|
    ensures TurnedBefore(cpus, mask, running, i) <==>
            (mask[0] && TurnsPreference(cpus[0], running[0])) ||
            TurnedBefore(cpus[1..], mask[1..], running[1..], i - 1)
  {
    if k :| 0 < k < i && mask[k] && TurnsPreference(cpus[k], running[k]) {
      assert mask[1..][k - 1] && TurnsPreference(cpus[1..][k - 1], running[1..][k - 1]);
    }
    if k :| 0 <= k < i - 1 && mask[1..][k] && TurnsPreference(cpus[1..][k], running[1..][k]) {
      assert mask[k + 1] && TurnsPreference(cpus[k + 1], running[k + 1]);
    }
  }

  /**
   * A CPU in the mask ends as its own share of the work, under the preference that the CPUs before it leave: `AtMost`
   * if one of them turned it, else the one at the start. A CPU outside the mask ends as it was.
   */
  lemma {:induction false} ShareOfTheWork(t: Tunables, table: Option<seq<int>>, cpus: seq<Cpu>, mask: seq<bool>,
                                          running: seq<nat>, relation: Relation, done: seq<Cpu>, i: nat)
    requires t.Valid() && |cpus| == |mask| == |running| && i < |cpus|
    ensures var left := if TurnedBefore(cpus, mask, running, i) then AtMost else relation;
            WorkAll(t, table, cpus, mask, running, relation, done)[|done| + i] ==
            if mask[i] then Work(t, table, cpus[i], running[i], left).0 else cpus[i]
    decreases |cpus|
  {
    var (c, next) := if mask[0] then Work(t, table, cpus[0], running[0], relation) else (cpus[0], relation);
    if i == 0 {
      assert (done + [c])[|done|] == c;
    } else {
      TurnedFirst(cpus, mask, running, i);
      ShareOfTheWork(t, table, cpus[1..], mask[1..], running[1..], next, done + [c], i - 1);
    }
  }

  /** The preference that leaks from one CPU to the next cannot stop any of them from moving where it should. */
  lemma EveryCpuMoves(t: Tunables, table: seq<int>, cpus: seq<Cpu>, mask: seq<bool>, running: seq<nat>,
                      relation: Relation, i: nat)
    requires t.Valid() && |cpus| == |mask| == |running| && i < |cpus| && mask[i]
    requires Settled(table, cpus[i]) && cpus[i].oldFreq == cpus[i].cur
    ensures var c, c' := cpus[i], WorkAll(t, Some(table), cpus, mask, running, relation, [])[i];
            && Settled(table, c') && c'.limits == c.limits
            && (c.rampDir > 0 && running[i] > 1 && c.limits.max + t.rampUpStep < INT_LIMIT ==>
                  if c.cur == c.limits.max then c'.cur == c.cur else c'.cur > c.cur)
            && (c.rampDir < 0 && 0 < t.rampDownStep <= c.limits.min + INT_LIMIT ==>
                  if c.cur == c.limits.min then c'.cur == c.cur else c'.cur < c.cur)
  {
    ShareOfTheWork(t, Some(table), cpus, mask, running, relation, [], i);
    WorkMoves(t, table, cpus[i], running[i], if TurnedBefore(cpus, mask, running, i) then AtMost else relation);
  }
}
