/**
 * Demand resolution for one week: the starting-stock lookup, the quantity every routing step must
 * produce, the number of shifts that takes, and the per-(project, machine) totals and initial stock
 * that the progress tracker reads.
 */
module Demand {
  import opened Base
  import opened Text
  import opened Routing

  /** Length of a shift in hours (`shift_hours`). */
  const ShiftHours: real := 7.5

  /** math.ceil on an exact quantity. */
  function Ceil(x: real): (r: int)
    ensures x <= r as real < x + 1.0
  {
    -((-x).Floor)
  }

  /**
   * `to_produce` for step s of a project with weekly demand `demand` and starting stock `initial`
   * on the step's machine: the stock counts against the first step only.
   */
  function ToProduce(s: nat, demand: real, initial: real): real {
    if s == 0 then Max(demand - initial, 0.0) else Max(demand, 0.0)
  }

  /**
   * The quantity is never negative; with it, the stock covers the demand of the first step, and a
   * first step whose stock already covers the demand produces nothing; every later step targets
   * the full demand whatever the stock, and nothing when the demand is negative.
   */
  lemma ToProduceSpec(s: nat, demand: real, initial: real)
    ensures ToProduce(s, demand, initial) >= 0.0
    ensures s == 0 ==> ToProduce(s, demand, initial) + initial >= demand
    ensures s == 0 && demand > initial ==> ToProduce(s, demand, initial) + initial == demand
    ensures demand <= initial ==> ToProduce(0, demand, initial) == 0.0
    ensures s > 0 && demand < 0.0 ==> ToProduce(s, demand, initial) == 0.0
    ensures s > 0 ==> forall other :: ToProduce(s, demand, initial) == ToProduce(s, demand, other)
    ensures s > 0 && demand >= 0.0 ==> ToProduce(s, demand, initial) == demand
    ensures initial >= 0.0 ==> ToProduce(0, demand, initial) <= ToProduce(s, demand, initial)
  {
  }

  /** `shifts_required`: whole shifts at `hourly` units an hour; none when the rate is not positive. */
  function ShiftsRequired(toProduce: real, hourly: real): (r: nat)
    requires toProduce >= 0.0
  {
    if hourly > 0.0 then Ceil(toProduce / (hourly * ShiftHours)) else 0
  }

  /** With a positive rate, the number of shifts is the least that covers the quantity. */
  lemma ShiftsRequiredIsLeast(toProduce: real, hourly: real)
    requires toProduce >= 0.0
    ensures hourly <= 0.0 ==> ShiftsRequired(toProduce, hourly) == 0
    ensures hourly > 0.0 ==> ShiftsRequired(toProduce, hourly) as real * (hourly * ShiftHours) >= toProduce
    ensures hourly > 0.0 && ShiftsRequired(toProduce, hourly) > 0 ==>
              (ShiftsRequired(toProduce, hourly) - 1) as real * (hourly * ShiftHours) < toProduce
  {
    if hourly > 0.0 {
      CeilLeast(toProduce, hourly * ShiftHours);
    }
  }

  lemma CeilLeast(t: real, c: real)
    requires c > 0.0
    ensures Ceil(t / c) as real * c >= t
    ensures (Ceil(t / c) - 1) as real * c < t
  {
    var x := t / c;
    var n := Ceil(x);
    var k := (n - 1) as real;
    assert k == n as real - 1.0;
    DivMul(t, c);
    MulMono(x, n as real, c);
    MulStrict(k, x, c);
    assert k * c < t;
  }

  lemma DivMul(t: real, c: real)
    requires c > 0.0
    ensures (t / c) * c == t
  {
  }

  /** A production cycle that needs no shifts produces nothing; a positive quantity needs one. */
  lemma ShiftsRequiredPositive(toProduce: real, hourly: real)
    requires toProduce >= 0.0
    ensures ShiftsRequired(toProduce, hourly) > 0 <==> hourly > 0.0 && toProduce > 0.0
  {
    if hourly > 0.0 {
      ShiftsRequiredIsLeast(toProduce, hourly);
      if toProduce > 0.0 {
        assert ShiftsRequired(toProduce, hourly) != 0;
      }
    }
  }

  /** One row of the starting-stock table. */
  datatype StockRow = StockRow(project: string, machine: string, qty: real)

  predicate StockMatches(r: StockRow, p: string, m: string) {
    Norm(r.project) == Norm(p) && Norm(r.machine) == Norm(m)
  }

  /** The position of the first stock row at or after `from` for (p, m), comparing normalised keys. */
  function FirstMatch(stock: seq<StockRow>, p: string, m: string, from: nat := 0): (r: Option<nat>)
    requires from <= |stock|
    ensures r.Some? ==> from <= r.value < |stock| && StockMatches(stock[r.value], p, m)
    ensures r.Some? ==> forall j :: from <= j < r.value ==> !StockMatches(stock[j], p, m)
    ensures r.None? ==> forall j :: from <= j < |stock| ==> !StockMatches(stock[j], p, m)
    decreases |stock| - from
  {
    if from == |stock| then None
    else if StockMatches(stock[from], p, m) then Some(from)
    else FirstMatch(stock, p, m, from + 1)
  }

  /** `get_starting_stock(p, m)`: the quantity of the first matching row (`iloc[0]`), else 0. */
  function StartingStock(stock: seq<StockRow>, p: string, m: string): real {
    match FirstMatch(stock, p, m)
    case Some(k) => stock[k].qty
    case None => 0.0
  }

  lemma {:induction false} FirstMatchNormalised(stock: seq<StockRow>, p: string, m: string, from: nat)
    requires from <= |stock|
    ensures FirstMatch(stock, Norm(p), Norm(m), from) == FirstMatch(stock, p, m, from)
    decreases |stock| - from
  {
    NormIdempotent(p);
    NormIdempotent(m);
    if from < |stock| {
      FirstMatchNormalised(stock, p, m, from + 1);
    }
  }

  /**
   * The lookup is insensitive to case and surrounding whitespace of both keys, yields the quantity
   * of the first matching row, and yields 0 when no row matches.
   */
  lemma StartingStockSpec(stock: seq<StockRow>, p: string, m: string)
    ensures StartingStock(stock, Norm(p), Norm(m)) == StartingStock(stock, p, m)
    ensures (forall j :: 0 <= j < |stock| ==> !StockMatches(stock[j], p, m)) ==>
              StartingStock(stock, p, m) == 0.0
    ensures forall k :: (0 <= k < |stock| && StockMatches(stock[k], p, m) &&
              (forall j :: 0 <= j < k ==> !StockMatches(stock[j], p, m))) ==>
              StartingStock(stock, p, m) == stock[k].qty
  {
    FirstMatchNormalised(stock, p, m, 0);
  }

  /** The demand of one project for the week being planned. */
  datatype DemandRow = DemandRow(project: string, qty: real)

  /** One routing step of one project, with what demand resolution computed for it. */
  datatype Step = Step(
    project: string,
    index: nat,        // s, its position in the sorted routing of the project
    machine: string,   // step_machine
    hourly: real,      // step_hourly
    limit: int,        // step_limit
    initial: real,     // get_starting_stock(project, machine)
    toProduce: real,   // remaining_qty at the start of the week
    needed: nat)       // shifts_needed

  function MakeStep(p: string, qty: real, s: nat, row: RoutingRow, stock: seq<StockRow>): Step {
    var initial := StartingStock(stock, p, row.machine);
    var tp := ToProduce(s, qty, initial);
    Step(p, s, row.machine, row.hourly, row.limit, initial, tp, ShiftsRequired(tp, row.hourly))
  }

  /** The steps of one project, from its sorted routing rows. */
  function ProjectSteps(p: string, qty: real, rows: seq<RoutingRow>, stock: seq<StockRow>): (r: seq<Step>)
    ensures |r| == |rows|
  {
    seq(|rows|, s requires 0 <= s < |rows| => MakeStep(p, qty, s, rows[s], stock))
  }

  /** The step table in the order the week's dictionaries are filled: projects, then steps. */
  function StepTable(demand: seq<DemandRow>, table: seq<RoutingRow>, stock: seq<StockRow>): seq<Step> {
    if demand == [] then []
    else
      var d := demand[|demand| - 1];
      StepTable(demand[..|demand| - 1], table, stock) + ProjectSteps(d.project, d.qty, StepsFor(table, d.project), stock)
  }

  /** The weekly demand lists every project once (it is the index of the demand table). */
  ghost predicate DistinctProjects(demand: seq<DemandRow>) {
    forall a, b :: 0 <= a < b < |demand| ==> demand[a].project != demand[b].project
  }

  /** What the allocator relies on: figures as computed above, and one entry per (project, step). */
  ghost predicate WellFormed(steps: seq<Step>) {
    && (forall i :: 0 <= i < |steps| ==>
          steps[i].toProduce >= 0.0 && steps[i].needed == ShiftsRequired(steps[i].toProduce, steps[i].hourly))
    && (forall i, j :: 0 <= i < j < |steps| ==>
          steps[i].project != steps[j].project || steps[i].index != steps[j].index)
  }

  /**
   * A step of project row d sits at its own position in the project's sorted routing, copies that
   * row, looks up stock for its own machine, and targets the project's demand.
   */
  ghost predicate DerivedFrom(st: Step, d: DemandRow, table: seq<RoutingRow>, stock: seq<StockRow>) {
    var rows := StepsFor(table, d.project);
    && st.project == d.project
    && st.index < |rows|
    && st.machine == rows[st.index].machine
    && st.hourly == rows[st.index].hourly
    && st.limit == rows[st.index].limit
    && st.initial == StartingStock(stock, st.project, st.machine)
    && st.toProduce == ToProduce(st.index, d.qty, st.initial)
    && st.needed == ShiftsRequired(st.toProduce, st.hourly)
  }

  ghost predicate FromDemand(st: Step, demand: seq<DemandRow>, table: seq<RoutingRow>, stock: seq<StockRow>) {
    exists a :: 0 <= a < |demand| && DerivedFrom(st, demand[a], table, stock)
  }

  /**
   * Every step of the table is derived from one demand row as the planner's loops derive it, and
   * every position of every listed project's sorted routing yields its step in the table.
   */
  lemma {:induction false} StepTableSpec(demand: seq<DemandRow>, table: seq<RoutingRow>, stock: seq<StockRow>)
    ensures forall i :: 0 <= i < |StepTable(demand, table, stock)| ==>
      FromDemand(StepTable(demand, table, stock)[i], demand, table, stock)
    ensures forall a, s :: 0 <= a < |demand| && 0 <= s < |StepsFor(table, demand[a].project)| ==>
      MakeStep(demand[a].project, demand[a].qty, s, StepsFor(table, demand[a].project)[s], stock)
        in StepTable(demand, table, stock)
  {
    StepTableCovers(demand, table, stock);
    forall a, s | 0 <= a < |demand| && 0 <= s < |StepsFor(table, demand[a].project)|
      ensures MakeStep(demand[a].project, demand[a].qty, s, StepsFor(table, demand[a].project)[s], stock)
        in StepTable(demand, table, stock)
    {
      assert Within(StepsOf(demand[a], table, stock), StepTable(demand, table, stock));
      ProjectStepsAt(demand[a].project, demand[a].qty, StepsFor(table, demand[a].project), stock, s);
    }
    if demand != [] {
      var n := |demand| - 1;
      var pre := demand[..n];
      StepTableSpec(pre, table, stock);
      var d := demand[n];
      var head := StepTable(pre, table, stock);
      var tail := ProjectSteps(d.project, d.qty, StepsFor(table, d.project), stock);
      assert StepTable(demand, table, stock) == head + tail;
      ProjectStepsDerived(d, table, stock);
      forall i | 0 <= i < |head| + |tail|
        ensures FromDemand((head + tail)[i], demand, table, stock)
      {
        if i < |head| {
          var a :| 0 <= a < |pre| && DerivedFrom(head[i], pre[a], table, stock);
          assert (head + tail)[i] == head[i] && demand[a] == pre[a];
        } else {
          assert (head + tail)[i] == tail[i - |head|];
          assert DerivedFrom(tail[i - |head|], demand[n], table, stock);
        }
      }
    }
  }

  /** Every element of part is an element of whole. */
  ghost predicate Within(part: seq<Step>, whole: seq<Step>) {
    forall x :: x in part ==> x in whole
  }

  function StepsOf(d: DemandRow, table: seq<RoutingRow>, stock: seq<StockRow>): seq<Step> {
    ProjectSteps(d.project, d.qty, StepsFor(table, d.project), stock)
  }

  lemma {:induction false} StepTableCovers(demand: seq<DemandRow>, table: seq<RoutingRow>, stock: seq<StockRow>)
    ensures forall a :: 0 <= a < |demand| ==> Within(StepsOf(demand[a], table, stock), StepTable(demand, table, stock))
  {
    if demand != [] {
      var n := |demand| - 1;
      var pre := demand[..n];
      StepTableCovers(pre, table, stock);
      var head := StepTable(pre, table, stock);
      var tail := StepsOf(demand[n], table, stock);
      assert StepTable(demand, table, stock) == head + tail;
      forall a | 0 <= a < |demand| ensures Within(StepsOf(demand[a], table, stock), head + tail) {
        if a < n {
          assert demand[a] == pre[a];
          assert Within(StepsOf(pre[a], table, stock), head);
          WithinAppend(StepsOf(demand[a], table, stock), head, tail);
        } else {
          assert demand[a] == demand[n];
          WithinAppend(tail, head, tail);
        }
      }
    }
  }

  lemma WithinAppend(part: seq<Step>, head: seq<Step>, tail: seq<Step>)
    requires Within(part, head) || Within(part, tail)
    ensures Within(part, head + tail)
  {
  }

  lemma ProjectStepsAt(p: string, qty: real, rows: seq<RoutingRow>, stock: seq<StockRow>, s: nat)
    requires s < |rows|
    ensures MakeStep(p, qty, s, rows[s], stock) in ProjectSteps(p, qty, rows, stock)
  {
    assert ProjectSteps(p, qty, rows, stock)[s] == MakeStep(p, qty, s, rows[s], stock);
  }

  lemma ProjectStepsDerived(d: DemandRow, table: seq<RoutingRow>, stock: seq<StockRow>)
    ensures var tail := ProjectSteps(d.project, d.qty, StepsFor(table, d.project), stock);
      forall s :: 0 <= s < |tail| ==> DerivedFrom(tail[s], d, table, stock)
  {
  }

  ghost predicate Listed(demand: seq<DemandRow>, p: string) {
    exists a :: 0 <= a < |demand| && demand[a].project == p
  }

  /** Every step belongs to a project of the demand. */
  lemma StepTableProjects(demand: seq<DemandRow>, table: seq<RoutingRow>, stock: seq<StockRow>)
    ensures forall i :: 0 <= i < |StepTable(demand, table, stock)| ==>
      Listed(demand, StepTable(demand, table, stock)[i].project)
  {
    var steps := StepTable(demand, table, stock);
    StepTableSpec(demand, table, stock);
    forall i | 0 <= i < |steps| ensures Listed(demand, steps[i].project) {
      assert FromDemand(steps[i], demand, table, stock);
      var a :| 0 <= a < |demand| && DerivedFrom(steps[i], demand[a], table, stock);
      assert demand[a].project == steps[i].project;
    }
  }

  lemma {:induction false} ProjectStepsWellFormed(p: string, qty: real, rows: seq<RoutingRow>, stock: seq<StockRow>)
    ensures WellFormed(ProjectSteps(p, qty, rows, stock))
    ensures forall i :: 0 <= i < |rows| ==> ProjectSteps(p, qty, rows, stock)[i].project == p
  {
    var ps := ProjectSteps(p, qty, rows, stock);
    forall i | 0 <= i < |ps| ensures ps[i].toProduce >= 0.0 && ps[i].index == i && ps[i].project == p {
      ToProduceSpec(i, qty, StartingStock(stock, p, rows[i].machine));
    }
  }

  lemma {:induction false} AppendWellFormed(head: seq<Step>, tail: seq<Step>, p: string)
    requires WellFormed(head) && WellFormed(tail)
    requires forall i :: 0 <= i < |tail| ==> tail[i].project == p
    requires forall i :: 0 <= i < |head| ==> head[i].project != p
    ensures WellFormed(head + tail)
  {
    var all := head + tail;
    forall i | 0 <= i < |all|
      ensures all[i].toProduce >= 0.0 && all[i].needed == ShiftsRequired(all[i].toProduce, all[i].hourly)
    {
      if i < |head| { assert all[i] == head[i]; } else { assert all[i] == tail[i - |head|]; }
    }
    forall i, j | 0 <= i < j < |all|
      ensures all[i].project != all[j].project || all[i].index != all[j].index
    {
      if j < |head| {
        assert all[i] == head[i] && all[j] == head[j];
      } else if i < |head| {
        assert all[i] == head[i] && all[j] == tail[j - |head|];
      } else {
        assert all[i] == tail[i - |head|] && all[j] == tail[j - |head|];
      }
    }
  }

  /** The step table satisfies what the allocator requires of its input. */
  lemma {:induction false} StepTableWellFormed(demand: seq<DemandRow>, table: seq<RoutingRow>, stock: seq<StockRow>)
    requires DistinctProjects(demand)
    ensures WellFormed(StepTable(demand, table, stock))
  {
    if demand != [] {
      var pre := demand[..|demand| - 1];
      var d := demand[|demand| - 1];
      StepTableWellFormed(pre, table, stock);
      StepTableProjects(pre, table, stock);
      var head := StepTable(pre, table, stock);
      var rows := StepsFor(table, d.project);
      ProjectStepsWellFormed(d.project, d.qty, rows, stock);
      forall i | 0 <= i < |head| ensures head[i].project != d.project {
        var a :| 0 <= a < |pre| && pre[a].project == head[i].project;
        assert demand[a] == pre[a];
      }
      AppendWellFormed(head, ProjectSteps(d.project, d.qty, rows, stock), d.project);
    }
  }

  function KeyOf(st: Step): (string, string) {
    (st.project, st.machine)
  }

  /** `total_to_produce_per_project_machine`: one write per step, the last write per key winning. */
  function Totals(steps: seq<Step>): map<(string, string), real> {
    if steps == [] then map[]
    else
      var st := steps[|steps| - 1];
      Totals(steps[..|steps| - 1])[KeyOf(st) := st.toProduce + st.initial]
  }

  /** `initial_stock_per_project_machine`. */
  function Initials(steps: seq<Step>): map<(string, string), real> {
    if steps == [] then map[]
    else
      var st := steps[|steps| - 1];
      Initials(steps[..|steps| - 1])[KeyOf(st) := st.initial]
  }

  /** The order in which the keys of those dictionaries were first inserted. */
  function KeyOrder(steps: seq<Step>): seq<(string, string)> {
    if steps == [] then []
    else
      var order := KeyOrder(steps[..|steps| - 1]);
      var k := KeyOf(steps[|steps| - 1]);
      if k in order then order else order + [k]
  }

  ghost predicate UsedKey(steps: seq<Step>, k: (string, string)) {
    exists i :: 0 <= i < |steps| && KeyOf(steps[i]) == k
  }

  /** The dictionaries hold one entry per (project, machine) some step uses, each listed once in order. */
  lemma {:induction false} TotalsKeys(steps: seq<Step>)
    ensures Totals(steps).Keys == Initials(steps).Keys
    ensures forall k :: k in Totals(steps) <==> UsedKey(steps, k)
    ensures forall k :: k in Totals(steps) <==> k in KeyOrder(steps)
    ensures forall a, b :: 0 <= a < b < |KeyOrder(steps)| ==> KeyOrder(steps)[a] != KeyOrder(steps)[b]
  {
    if steps != [] {
      var n := |steps| - 1;
      var pre := steps[..n];
      TotalsKeys(pre);
      forall k ensures k in Totals(steps) <==> UsedKey(steps, k) {
        if k in Totals(pre) {
          var i :| 0 <= i < |pre| && KeyOf(pre[i]) == k;
          assert steps[i] == pre[i];
        }
        if UsedKey(steps, k) && k != KeyOf(steps[n]) {
          var i :| 0 <= i < |steps| && KeyOf(steps[i]) == k;
          assert pre[i] == steps[i];
          assert UsedKey(pre, k);
        }
      }
    }
  }

  /** For each key, the entry is that of the LAST step using it: its quantity to produce plus its stock. */
  lemma {:induction false} TotalsLastWriteWins(steps: seq<Step>, i: nat)
    requires i < |steps|
    requires forall j :: i < j < |steps| ==> KeyOf(steps[j]) != KeyOf(steps[i])
    ensures KeyOf(steps[i]) in Totals(steps) && KeyOf(steps[i]) in Initials(steps)
    ensures Totals(steps)[KeyOf(steps[i])] == steps[i].toProduce + steps[i].initial
    ensures Initials(steps)[KeyOf(steps[i])] == steps[i].initial
  {
    var n := |steps| - 1;
    if i < n {
      var pre := steps[..n];
      assert pre[i] == steps[i];
      assert KeyOf(steps[n]) != KeyOf(steps[i]);
      TotalsLastWriteWins(pre, i);
    }
  }

  /**
   * The initial stock recorded per (project, machine) is the starting-stock lookup for that pair,
   * whichever step wrote it last.
   */
  lemma {:induction false} InitialsAreLookups(demand: seq<DemandRow>, table: seq<RoutingRow>, stock: seq<StockRow>)
    ensures forall k :: k in Initials(StepTable(demand, table, stock)) ==>
              Initials(StepTable(demand, table, stock))[k] == StartingStock(stock, k.0, k.1)
  {
    var steps := StepTable(demand, table, stock);
    StepTableSpec(demand, table, stock);
    forall i | 0 <= i < |steps|
      ensures steps[i].initial == StartingStock(stock, steps[i].project, steps[i].machine)
    {
      assert FromDemand(steps[i], demand, table, stock);
    }
    InitialsFromSteps(steps, stock);
  }

  lemma {:induction false} InitialsFromSteps(steps: seq<Step>, stock: seq<StockRow>)
    requires forall i :: 0 <= i < |steps| ==> steps[i].initial == StartingStock(stock, steps[i].project, steps[i].machine)
    ensures forall k :: k in Initials(steps) ==> Initials(steps)[k] == StartingStock(stock, k.0, k.1)
  {
    if steps != [] {
      var pre := steps[..|steps| - 1];
      InitialsFromSteps(pre, stock);
    }
  }

  lemma StepTableSnoc(demand: seq<DemandRow>, a: nat, table: seq<RoutingRow>, stock: seq<StockRow>)
    requires a < |demand|
    ensures StepTable(demand[..a + 1], table, stock) ==
      StepTable(demand[..a], table, stock) + ProjectSteps(demand[a].project, demand[a].qty, StepsFor(table, demand[a].project), stock)
  {
    assert demand[..a + 1][..a] == demand[..a];
    assert demand[..a + 1][a] == demand[a];
  }

  lemma ProjectStepsSnoc(p: string, qty: real, rows: seq<RoutingRow>, stock: seq<StockRow>, s: nat)
    requires s < |rows|
    ensures ProjectSteps(p, qty, rows, stock)[..s + 1] ==
      ProjectSteps(p, qty, rows, stock)[..s] + [MakeStep(p, qty, s, rows[s], stock)]
  {
    var all := ProjectSteps(p, qty, rows, stock);
    assert all[s] == MakeStep(p, qty, s, rows[s], stock);
  }

  lemma TablesSnoc(steps: seq<Step>, st: Step)
    ensures Totals(steps + [st]) == Totals(steps)[KeyOf(st) := st.toProduce + st.initial]
    ensures Initials(steps + [st]) == Initials(steps)[KeyOf(st) := st.initial]
    ensures KeyOrder(steps + [st]) == if KeyOf(st) in KeyOrder(steps) then KeyOrder(steps) else KeyOrder(steps) + [KeyOf(st)]
  {
    assert (steps + [st])[..|steps|] == steps;
  }

  /**
   * The inner loop of the demand pass (lines 86-104) for one project: one step per sorted routing
   * row, appended to the step table and written into the per-(project, machine) dictionaries.
   */
  method ResolveProject(p: string, qty: real, rows: seq<RoutingRow>, stock: seq<StockRow>,
                        steps0: seq<Step>, order0: seq<(string, string)>,
                        totals0: map<(string, string), real>, initials0: map<(string, string), real>)
    returns (steps: seq<Step>, order: seq<(string, string)>,
             totals: map<(string, string), real>, initials: map<(string, string), real>)
    requires order0 == KeyOrder(steps0) && totals0 == Totals(steps0) && initials0 == Initials(steps0)
    ensures steps == steps0 + ProjectSteps(p, qty, rows, stock)
    ensures order == KeyOrder(steps) && totals == Totals(steps) && initials == Initials(steps)
  {
    steps, order, totals, initials := steps0, order0, totals0, initials0;
    ghost var all := ProjectSteps(p, qty, rows, stock);
    assert steps0 + all[..0] == steps0;
    for s := 0 to |rows|
      invariant steps == steps0 + all[..s]
      invariant order == KeyOrder(steps)
      invariant totals == Totals(steps)
      invariant initials == Initials(steps)
    {
      // initial stock, quantity to produce and shifts needed (lines 90-96)
      var st := MakeStep(p, qty, s, rows[s], stock);
      ProjectStepsSnoc(p, qty, rows, stock, s);
      var key := (p, st.machine);
      TablesSnoc(steps, st);
      steps := steps + [st];
      if key !in order {
        order := order + [key];
      }
      totals := totals[key := st.toProduce + st.initial];
      initials := initials[key := st.initial];
    }
    assert all[..|rows|] == all;
  }

  /**
   * Lines 83-104 of the planner: one pass over the projects and their sorted routing rows that
   * fills the step table and the per-(project, machine) dictionaries.
   */
  method ResolveDemand(demand: seq<DemandRow>, table: seq<RoutingRow>, stock: seq<StockRow>)
    returns (steps: seq<Step>, order: seq<(string, string)>,
             totals: map<(string, string), real>, initials: map<(string, string), real>)
    ensures steps == StepTable(demand, table, stock)
    ensures order == KeyOrder(steps) && totals == Totals(steps) && initials == Initials(steps)
  {
    steps, order, totals, initials := [], [], map[], map[];
    for a := 0 to |demand|
      invariant steps == StepTable(demand[..a], table, stock)
      invariant order == KeyOrder(steps) && totals == Totals(steps) && initials == Initials(steps)
    {
      var rows := StepsFor(table, demand[a].project);
      StepTableSnoc(demand, a, table, stock);
      steps, order, totals, initials :=
        ResolveProject(demand[a].project, demand[a].qty, rows, stock, steps, order, totals, initials);
    }
    assert demand[..|demand|] == demand;
  }
}
