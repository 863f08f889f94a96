/** `cpufreq_frequency_table_target` of the kernel, as a contract over a table of frequencies. */
module FrequencyTable {

  datatype Relation = AtMost | AtLeast

  datatype Limits = Limits(min: nat, max: nat)

  /** An entry of the table within the limits. */
  predicate Usable(table: seq<int>, l: Limits, f: int) {
    f in table && l.min <= f <= l.max
  }

  /** The highest entry from `lo` to `hi`, or -1. */
  function Highest(table: seq<int>, lo: int, hi: int): (r: int)
    requires lo >= 0
    ensures r == -1 || (r in table && lo <= r <= hi)
    ensures forall f :: f in table && lo <= f <= hi ==> f <= r
  {
    if table == [] then -1
    else
      assert forall f :: f in table <==> f == table[0] || f in table[1..];
      var r := Highest(table[1..], lo, hi);
      if lo <= table[0] <= hi && table[0] > r then table[0] else r
  }

  /** The lowest entry from `lo` to `hi`, or -1. */
  function Lowest(table: seq<int>, lo: int, hi: int): (r: int)
    requires lo >= 0
    ensures r == -1 || (r in table && lo <= r <= hi)
    ensures forall f :: f in table && lo <= f <= hi ==> 0 <= r <= f
  {
    if table == [] then -1
    else
      assert forall f :: f in table <==> f == table[0] || f in table[1..];
      var r := Lowest(table[1..], lo, hi);
      if lo <= table[0] <= hi && (r == -1 || table[0] < r) then table[0] else r
  }

  function Min(a: int, b: int): int {
    if a < b then a else b
  }

  function Max(a: int, b: int): int {
    if a > b then a else b
  }

  /** The entry the kernel picks for `target`, or -1: on the preferred side if there is one, else the nearest beyond. */
  function Lookup(table: seq<int>, l: Limits, target: int, relation: Relation): (r: int)
    ensures r == -1 || Usable(table, l, r)
    ensures r == -1 <==> forall f :: !Usable(table, l, f)
  {
    match relation
    case AtMost =>
      var h := Highest(table, l.min, Min(l.max, target));
      if h >= 0 then h else Lowest(table, Max(l.min, target + 1), l.max)
    case AtLeast =>
      var h := Lowest(table, Max(l.min, target), l.max);
      if h >= 0 then h else Highest(table, l.min, Min(l.max, target - 1))
  }

  /** An entry within the limits is found as it is. */
  lemma LookupExact(table: seq<int>, l: Limits, f: int, relation: Relation)
    requires Usable(table, l, f)
    ensures Lookup(table, l, f, relation) == f
  {
  }

  /**
   * The usable entry that `relation` prefers: the highest one up to `asked`, or the lowest one beyond if there is none;
   * or the other way round.
   */
  ghost predicate Picks(table: seq<int>, l: Limits, asked: int, relation: Relation, f: int) {
    && Usable(table, l, f)
    && match relation
       case AtMost =>
         if f <= asked then forall g :: Usable(table, l, g) && g <= asked ==> g <= f
         else forall g :: Usable(table, l, g) ==> f <= g
       case AtLeast =>
         if f >= asked then forall g :: Usable(table, l, g) && g >= asked ==> g >= f
         else forall g :: Usable(table, l, g) ==> f >= g
  }

  lemma LookupPicks(table: seq<int>, l: Limits, asked: int, relation: Relation, f: int)
    requires Usable(table, l, f)
    ensures Picks(table, l, asked, relation, Lookup(table, l, asked, relation))
  {
  }

  lemma PicksOne(table: seq<int>, l: Limits, asked: int, relation: Relation, f: int, g: int)
    requires Picks(table, l, asked, relation, f) && Picks(table, l, asked, relation, g)
    ensures f == g
  {
  }

  /** Usable entries above `f`, counted with their repetitions. */
  function CountAbove(table: seq<int>, l: Limits, f: int): nat {
    if table == [] then 0
    else (if f < table[0] && l.min <= table[0] <= l.max then 1 else 0) + CountAbove(table[1..], l, f)
  }

  function CountBelow(table: seq<int>, l: Limits, f: int): nat {
    if table == [] then 0
    else (if table[0] < f && l.min <= table[0] <= l.max then 1 else 0) + CountBelow(table[1..], l, f)
  }

  /** Moving up to an entry leaves at least one entry fewer above. */
  lemma {:induction false} CountDropsUp(table: seq<int>, l: Limits, f: int, g: int)
    requires f <= g
    ensures CountAbove(table, l, g) <= CountAbove(table, l, f)
    ensures f < g && Usable(table, l, g) ==> CountAbove(table, l, g) < CountAbove(table, l, f)
  {
    if table != [] {
      CountDropsUp(table[1..], l, f, g);
      assert g in table ==> g == table[0] || g in table[1..];
    }
  }

  lemma {:induction false} CountDropsDown(table: seq<int>, l: Limits, f: int, g: int)
    requires g <= f
    ensures CountBelow(table, l, g) <= CountBelow(table, l, f)
    ensures g < f && Usable(table, l, g) ==> CountBelow(table, l, g) < CountBelow(table, l, f)
  {
    if table != [] {
      CountDropsDown(table[1..], l, f, g);
      assert g in table ==> g == table[0] || g in table[1..];
    }
  }

  lemma {:induction false} NoneAbove(table: seq<int>, l: Limits, f: int)
    requires CountAbove(table, l, f) == 0
    ensures forall g :: Usable(table, l, g) ==> g <= f
  {
    if table != [] {
      NoneAbove(table[1..], l, f);
      assert forall g :: g in table ==> g == table[0] || g in table[1..];
      assert forall g :: Usable(table, l, g) && g in table[1..] ==> Usable(table[1..], l, g);
    }
  }

  lemma {:induction false} NoneBelow(table: seq<int>, l: Limits, f: int)
    requires CountBelow(table, l, f) == 0
    ensures forall g :: Usable(table, l, g) ==> f <= g
  {
    if table != [] {
      NoneBelow(table[1..], l, f);
      assert forall g :: g in table ==> g == table[0] || g in table[1..];
      assert forall g :: Usable(table, l, g) && g in table[1..] ==> Usable(table[1..], l, g);
    }
  }
}
