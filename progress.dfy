/**
 * The weekly progress tracker: the quantity produced per (project, machine, day) summed from the
 * operators' records, and per (project, machine) the cumulative completion percentage day by day,
 * starting from the initial stock, capped at 140, with the "ready by Friday" verdict.
 */
module Progress {
  import opened Base
  import opened Records

  type DayKey = (string, string, string)

  /** `produced_by_day.get(key, 0)`. */
  function Lookup(m: map<DayKey, real>, k: DayKey): real {
    if k in m then m[k] else 0.0
  }

  function DayPat(k: DayKey): Pattern {
    MachineDay(k.0, k.1, k.2)
  }

  lemma OutputSnoc(rs: seq<seq<Entry>>, o: nat)
    requires o < |rs|
    ensures forall pat :: Output(rs[..o + 1], pat) == Output(rs[..o], pat) + OutputIn(rs[o], pat)
  {
    assert rs[..o + 1][..o] == rs[..o];
  }

  lemma OutputInSnoc(r: seq<Entry>, t: nat)
    requires t < |r|
    ensures forall pat :: OutputIn(r[..t + 1], pat) == OutputIn(r[..t], pat) + Amount(r[t], pat)
  {
    assert r[..t + 1][..t] == r[..t];
  }

  /**
   * Lines 236-242: every worked record on a machine other than "Assente" and "Support" adds its
   * quantity to its (project, machine, day); the result is, per key, the output of the matching records.
   */
  method ProducedByDay(records: seq<seq<Entry>>) returns (pbd: map<DayKey, real>)
    ensures forall k :: Lookup(pbd, k) == Output(records, DayPat(k))
  {
    pbd := map[];
    for o := 0 to |records|
      invariant forall k :: Lookup(pbd, k) == Output(records[..o], DayPat(k))
    {
      ghost var before := pbd;
      for t := 0 to |records[o]|
        invariant forall k :: Lookup(pbd, k) == Output(records[..o], DayPat(k)) + OutputIn(records[o][..t], DayPat(k))
      {
        var e := records[o][t];
        OutputInSnoc(records[o], t);
        if e.Working? && e.machine != AbsentMachine && e.machine != SupportMachine {
          var key := (e.project, e.machine, e.day);
          pbd := pbd[key := Lookup(pbd, key) + e.produced];
        }
      }
      assert records[o][..|records[o]|] == records[o];
      OutputSnoc(records, o);
    }
    assert records[..|records|] == records;
  }

  /** No record produces a negative quantity, so no aggregate is negative. */
  lemma {:induction false} OutputNonNegative(rs: seq<seq<Entry>>, pat: Pattern)
    requires forall o, k :: 0 <= o < |rs| && 0 <= k < |rs[o]| && rs[o][k].Working? ==> rs[o][k].produced >= 0.0
    ensures Output(rs, pat) >= 0.0
  {
    if rs != [] {
      var n := |rs| - 1;
      OutputNonNegative(rs[..n], pat);
      OutputInNonNegative(rs[n], pat);
    }
  }

  lemma {:induction false} OutputInNonNegative(r: seq<Entry>, pat: Pattern)
    requires forall k :: 0 <= k < |r| && r[k].Working? ==> r[k].produced >= 0.0
    ensures OutputIn(r, pat) >= 0.0
  {
    if r != [] {
      OutputInNonNegative(r[..|r| - 1], pat);
    }
  }

  // ---------------------------------------------------------------------------------------------
  // The daily percentages

  /** The cap on a displayed percentage. */
  const CapPercent: real := 140.0

  /** `percent`: the cumulative quantity over the total, in percent; 0 when the total is not positive. */
  function Percent(cumulative: real, total: real): real {
    if total > 0.0 then 100.0 * cumulative / total else 0.0
  }

  function Sum(s: seq<real>): real {
    if s == [] then 0.0 else Sum(s[..|s| - 1]) + s[|s| - 1]
  }

  /** The value stored for day k: the percentage of the initial stock plus days 0..k, capped. */
  function Level(initial: real, total: real, produced: seq<real>, k: nat): real
    requires k < |produced|
  {
    Min(Percent(initial + Sum(produced[..k + 1]), total), CapPercent)
  }

  /** On each day, the quantity produced on (p, m). */
  function Series(pbd: map<DayKey, real>, p: string, m: string): (r: seq<real>)
    ensures |r| == |Days|
  {
    seq(|Days|, k requires 0 <= k < |Days| => Lookup(pbd, (p, m, Days[k])))
  }

  /**
   * Lines 244-255 for one (project, machine): the running cumulative starts at the initial stock
   * and adds each day's production; each day stores the capped percentage; the verdict reads the
   * last day's value.
   */
  method DailyProgress(pbd: map<DayKey, real>, p: string, m: string, initial: real, total: real)
    returns (daily: seq<real>, ready: bool)
    ensures |daily| == |Days|
    ensures forall k :: 0 <= k < |Days| ==> daily[k] == Level(initial, total, Series(pbd, p, m), k)
    ensures ready <==> daily[|Days| - 1] >= 100.0
    ensures ready <==> total > 0.0 && initial + Sum(Series(pbd, p, m)) >= total
  {
    ghost var produced := Series(pbd, p, m);
    daily := [];
    var cumulative := initial;
    for k := 0 to |Days|
      invariant |daily| == k
      invariant cumulative == initial + Sum(produced[..k])
      invariant forall j :: 0 <= j < k ==> daily[j] == Level(initial, total, produced, j)
    {
      var today := Lookup(pbd, (p, m, Days[k]));
      assert produced[..k + 1] == produced[..k] + [today];
      cumulative := cumulative + today;
      var percent := if total > 0.0 then 100.0 * cumulative / total else 0.0;
      daily := daily + [Min(percent, CapPercent)];
    }
    ready := daily[|daily| - 1] >= 100.0;
    ReadyIff(initial, total, produced);
  }

  /** Every stored value is at most 140; with a total that is not positive every value is 0. */
  lemma LevelBounds(initial: real, total: real, produced: seq<real>, k: nat)
    requires k < |produced|
    ensures Level(initial, total, produced, k) <= CapPercent
    ensures total <= 0.0 ==> Level(initial, total, produced, k) == 0.0
    ensures Level(initial, total, produced, k) == Percent(initial + Sum(produced[..k + 1]), total)
            || Level(initial, total, produced, k) == CapPercent
  {
  }

  lemma {:induction false} SumMonotone(s: seq<real>, a: nat, b: nat)
    requires a <= b <= |s|
    requires forall k :: 0 <= k < |s| ==> s[k] >= 0.0
    ensures Sum(s[..a]) <= Sum(s[..b])
    decreases b
  {
    if a < b {
      SumMonotone(s, a, b - 1);
      assert s[..b][..b - 1] == s[..b - 1];
    }
  }

  lemma PercentMonotone(x: real, y: real, total: real)
    requires x <= y
    ensures Percent(x, total) <= Percent(y, total)
  {
    if total > 0.0 {
      assert 100.0 * y / total - 100.0 * x / total == 100.0 * (y - x) / total;
    }
  }

  /** With no negative production the displayed progress never goes down from one day to the next. */
  lemma LevelMonotone(initial: real, total: real, produced: seq<real>, a: nat, b: nat)
    requires a <= b < |produced|
    requires forall k :: 0 <= k < |produced| ==> produced[k] >= 0.0
    ensures Level(initial, total, produced, a) <= Level(initial, total, produced, b)
  {
    SumMonotone(produced, a + 1, b + 1);
    PercentMonotone(initial + Sum(produced[..a + 1]), initial + Sum(produced[..b + 1]), total);
  }

  /**
   * The verdict: the last stored value reaches 100 exactly when the uncapped percentage does, that
   * is when the total is positive and the initial stock plus the week's production covers it.
   */
  lemma ReadyIff(initial: real, total: real, produced: seq<real>)
    requires |produced| > 0
    ensures var last := Level(initial, total, produced, |produced| - 1);
      && (last >= 100.0 <==> Percent(initial + Sum(produced), total) >= 100.0)
      && (last >= 100.0 <==> total > 0.0 && initial + Sum(produced) >= total)
  {
    assert produced[..|produced|] == produced;
    PercentReaches(initial + Sum(produced), total);
  }

  /** A positive total is reached, in percent, exactly when the quantity covers it. */
  lemma PercentReaches(c: real, total: real)
    ensures Percent(c, total) >= 100.0 <==> total > 0.0 && c >= total
  {
    if total > 0.0 {
      var r := c / total;
      assert r * total == c;
      assert Percent(c, total) == 100.0 * r;
      if r >= 1.0 {
        MulMono(1.0, r, total);
      } else {
        MulStrict(r, 1.0, total);
      }
    }
  }

  // ---------------------------------------------------------------------------------------------
  // The progress table

  /** One line of the progress table: project, machine, the five daily values and the verdict. */
  datatype ProgressRow = ProgressRow(project: string, machine: string, daily: seq<real>, ready: bool)

  /** The line for key k, from its initial stock and its total, over the week's production. */
  predicate RowOf(row: ProgressRow, k: (string, string), initial: real, total: real, pbd: map<DayKey, real>) {
    var produced := Series(pbd, k.0, k.1);
    && row.project == k.0 && row.machine == k.1
    && |row.daily| == |Days|
    && (forall j :: 0 <= j < |Days| ==> row.daily[j] == Level(initial, total, produced, j))
    && (row.ready <==> total > 0.0 && initial + Sum(produced) >= total)
  }

  /**
   * Lines 244-255: one line per (project, machine) key of the totals, in the order the keys were
   * first set, each read from the initial stock and the total stored for that key.
   */
  method TrackProgress(order: seq<(string, string)>, totals: map<(string, string), real>,
                       initials: map<(string, string), real>, pbd: map<DayKey, real>)
    returns (rows: seq<ProgressRow>)
    requires forall k :: k in order ==> k in totals && k in initials
    ensures |rows| == |order|
    ensures forall i :: 0 <= i < |order| ==> RowOf(rows[i], order[i], initials[order[i]], totals[order[i]], pbd)
  {
    rows := [];
    for i := 0 to |order|
      invariant |rows| == i
      invariant forall j :: 0 <= j < i ==> RowOf(rows[j], order[j], initials[order[j]], totals[order[j]], pbd)
    {
      var (p, m) := order[i];
      var daily, ready := DailyProgress(pbd, p, m, initials[order[i]], totals[order[i]]);
      rows := rows + [ProgressRow(p, m, daily, ready)];
    }
  }

  /** When the aggregate is the records' output and no record is negative, no aggregate is negative. */
  lemma ProductionNonNegative(records: seq<seq<Entry>>, pbd: map<DayKey, real>)
    requires forall k :: Lookup(pbd, k) == Output(records, DayPat(k))
    requires forall o, k :: 0 <= o < |records| && 0 <= k < |records[o]| && records[o][k].Working? ==>
      records[o][k].produced >= 0.0
    ensures forall k :: Lookup(pbd, k) >= 0.0
  {
    forall k ensures Lookup(pbd, k) >= 0.0 {
      OutputNonNegative(records, DayPat(k));
    }
  }

  /** A line over non-negative production never goes down, and is at most 140 on every day. */
  lemma RowMonotone(row: ProgressRow, k: (string, string), initial: real, total: real, pbd: map<DayKey, real>)
    requires RowOf(row, k, initial, total, pbd)
    requires forall key :: Lookup(pbd, key) >= 0.0
    ensures forall a, b :: 0 <= a <= b < |Days| ==> row.daily[a] <= row.daily[b]
    ensures forall a :: 0 <= a < |Days| ==> row.daily[a] <= CapPercent
  {
    var produced := Series(pbd, k.0, k.1);
    assert forall j :: 0 <= j < |produced| ==> produced[j] == Lookup(pbd, (k.0, k.1, Days[j]));
    forall a, b | 0 <= a <= b < |Days| ensures row.daily[a] <= row.daily[b] {
      LevelMonotone(initial, total, produced, a, b);
    }
    forall a | 0 <= a < |Days| ensures row.daily[a] <= CapPercent {
      LevelBounds(initial, total, produced, a);
    }
  }
}
