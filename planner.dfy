/**
 * One week of the planner end to end: the shift labels read from the roster, the step table
 * resolved from the week's demand, the greedy allocation over the five days, the production
 * per (project, machine, day) and the progress table.
 */
module Planner {
  import opened Base
  import opened Routing
  import opened Demand
  import opened Records
  import opened Allocator
  import opened Progress
  import StableSort

  /** The distinct elements of s, each at its first position. */
  function Unique(s: seq<string>): (r: seq<string>)
    ensures forall x :: x in r <==> x in s
    ensures Distinct(r)
  {
    if s == [] then []
    else
      var u := Unique(s[..|s| - 1]);
      assert forall x :: x in s <==> x in s[..|s| - 1] || x == s[|s| - 1];
      if s[|s| - 1] in u then u else u + [s[|s| - 1]]
  }

  function Identity(x: string): string {
    x
  }

  /** Line 18: the shift labels are the distinct labels of the roster, in ascending string order. */
  function ShiftLabels(roster: seq<Operator>): seq<string> {
    var labels := seq(|roster|, o requires 0 <= o < |roster| => roster[o].shift);
    StableSort.SortBy(Unique(labels), Identity, StrLess)
  }

  lemma StrLessIsStrictTotalOrder()
    ensures StableSort.StrictTotalOrder(StrLess)
  {
    forall a: string ensures !StrLess(a, a) {
      StrLessIrreflexive(a);
    }
    forall a: string, b: string, c: string | StrLess(a, b) && StrLess(b, c) ensures StrLess(a, c) {
      StrLessTransitive(a, b, c);
    }
    forall a: string, b: string | a != b ensures StrLess(a, b) || StrLess(b, a) {
      StrLessConnected(a, b);
    }
  }

  /** A sequence without repetitions holds each value at most once. */
  lemma {:induction false} DistinctOnce(s: seq<string>)
    requires Distinct(s)
    ensures forall x :: multiset(s)[x] <= 1
  {
    if s != [] {
      var n := |s| - 1;
      assert s == s[..n] + [s[n]];
      DistinctOnce(s[..n]);
      assert s[n] !in s[..n];
    }
  }

  /** A value at two positions is counted at least twice. */
  lemma Twice(s: seq<string>, a: nat, b: nat)
    requires a < b < |s| && s[a] == s[b]
    ensures multiset(s)[s[a]] >= 2
  {
    var x := s[a];
    assert s == s[..b] + s[b..];
    assert x in s[..b] && x in s[b..];
    assert multiset(s)[x] == multiset(s[..b])[x] + multiset(s[b..])[x];
  }

  /** A sequence holding each value at most once has no repetitions. */
  lemma OnceDistinct(s: seq<string>)
    requires forall x :: multiset(s)[x] <= 1
    ensures Distinct(s)
  {
    forall a, b | 0 <= a < b < |s| ensures s[a] != s[b] {
      if s[a] == s[b] {
        Twice(s, a, b);
        assert false;
      }
    }
  }

  /**
   * The shift labels are without repetitions, in ascending order, and are exactly the shifts of
   * the roster: the form the allocator requires of its shift list.
   */
  lemma ShiftLabelsSpec(roster: seq<Operator>)
    ensures Distinct(ShiftLabels(roster))
    ensures StableSort.SortedBy(ShiftLabels(roster), Identity, StrLess)
    ensures forall h :: h in ShiftLabels(roster) <==> exists o :: 0 <= o < |roster| && roster[o].shift == h
  {
    var labels := seq(|roster|, o requires 0 <= o < |roster| => roster[o].shift);
    var u := Unique(labels);
    var r := ShiftLabels(roster);
    StrLessIsStrictTotalOrder();
    StableSort.SortBySorted(u, Identity, StrLess);
    DistinctOnce(u);
    OnceDistinct(r);
    forall h ensures h in r <==> exists o :: 0 <= o < |roster| && roster[o].shift == h {
      assert h in r <==> h in multiset(u);
      if h in labels {
        var o :| 0 <= o < |labels| && labels[o] == h;
        assert roster[o].shift == h;
      }
      if exists o :: 0 <= o < |roster| && roster[o].shift == h {
        var o :| 0 <= o < |roster| && roster[o].shift == h;
        assert labels[o] == h;
      }
    }
  }

  /** One line per (project, machine) key of the step table, in first-set order, read from that key's figures. */
  ghost predicate ProgressTable(steps: seq<Step>, pbd: map<DayKey, real>, rows: seq<ProgressRow>) {
    var order := KeyOrder(steps);
    && |rows| == |order|
    && forall i :: 0 <= i < |rows| ==>
         && order[i] in Totals(steps) && order[i] in Initials(steps)
         && RowOf(rows[i], order[i], Initials(steps)[order[i]], Totals(steps)[order[i]], pbd)
  }

  /** Never going down from one day to the next, and never above the cap. */
  ghost predicate Rising(daily: seq<real>) {
    && (forall a, b :: 0 <= a <= b < |daily| ==> daily[a] <= daily[b])
    && (forall a :: 0 <= a < |daily| ==> daily[a] <= CapPercent)
  }

  /**
   * Lines 58-104, 106-182 and 233-256 for one week: the steps are the table resolved from the
   * demand; the plan keeps every invariant of the allocation for the whole week; the production
   * per (project, machine, day) is the records' output; and the progress table has one line per
   * (project, machine) key, in first-set order, each computed from that key's initial stock and
   * total, never going down from one day to the next and never above 140.
   */
  method PlanWeek(week: seq<DemandRow>, table: seq<RoutingRow>, stock: seq<StockRow>, roster: seq<Operator>)
    returns (steps: seq<Step>, shifts: seq<string>, pl: Plan, pbd: map<DayKey, real>, rows: seq<ProgressRow>)
    requires DistinctProjects(week)
    ensures steps == StepTable(week, table, stock)
    ensures shifts == ShiftLabels(roster)
    ensures InWeek(steps, roster, |Days|, pl)
    ensures forall k :: Lookup(pbd, k) == Output(pl.records, DayPat(k))
    ensures ProgressTable(steps, pbd, rows)
    ensures forall i :: 0 <= i < |rows| ==> Rising(rows[i].daily)
  {
    var order, totals, initials;
    steps, order, totals, initials := ResolveDemand(week, table, stock);
    StepTableWellFormed(week, table, stock);
    TotalsKeys(steps);
    shifts := ShiftLabels(roster);
    ShiftLabelsSpec(roster);
    pl := AllocateWeek(steps, roster, shifts);
    pbd := ProducedByDay(pl.records);
    rows := TrackProgress(order, totals, initials, pbd);
    ProductionNonNegative(pl.records, pbd);
    forall i | 0 <= i < |rows| ensures Rising(rows[i].daily) {
      var k := order[i];
      RowMonotone(rows[i], k, initials[k], totals[k], pbd);
    }
  }
}
