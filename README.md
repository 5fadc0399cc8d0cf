# Weekly production planner — a Dafny model

This project models one week of `production_planner_Version2.py`, a script that turns customer
demand into a shift plan for a workshop:

- **Routing.** Every project has a routing (the "tree of operations"): its steps, each on a
  machine with an hourly rate and a limit on operators. The steps are ordered by the
  `operation_sorter` key of their "orders of operations" cell, using a stable sort.
- **Demand.** Every step gets a target. The first step's target is the demand minus the starting
  stock of its machine. Every later step's target is the demand. Each target becomes a number
  of 7.5-hour shifts, rounded up.
- **Totals.** Per (project, machine), the script records the total to produce and the initial
  stock. When a key repeats, the last step to write it wins.
- **Allocation.** The allocator is greedy. It goes day by day (Monday to Friday) and shift by
  shift, in sorted label order. It queues the operators of the shift in roster order and visits
  the steps that still need shifts:
  - In shift "C", the steps that allow the most operators come first. A step's machine then gets
    operators until the step reaches its limit.
  - In every other shift, a step gets one operator.
  - A machine used in shift "C" on a day is not used in another shift that day, and the reverse.
  - Every assignment records `min(hourly × 7.5, remaining)`.
  - Every queued operator left without a record for the slot gets an "Assente" (absent)
    placeholder.
- **Progress.** The tracker sums the production per (project, machine, day). For each key it
  reports a cumulative percentage day by day, starting from the initial stock and capped at 140,
  and says whether the key is ready by Friday.

Module layout:

- `base.dfy`: `Option`, `min`/`max`, small facts about products.
- `text.dfy`: Python's `strip`, ASCII `upper`/`lower`, the join-key normalisation
  `strip().upper()`, `int()` on strings, and decimal rendering.
- `stable_sort.dfy`: a stable insertion sort by key. It is proved sorted, a permutation and
  stable.
- `routing.dfy`: the raw order cells, `operation_sorter`, Python's ordering of its key tuples,
  and `steps_per_project`.
- `demand.dfy`: `get_starting_stock`, the targets and shift counts, the step table, the totals and
  initial-stock dictionaries. `ResolveDemand` is the imperative pass over them.
- `records.dfy`: the per-operator record lists and the counts and sums over them.
- `allocator.dfy`: the greedy allocator, written as imperative methods with loop invariants.
  They thread a value state: assignments, remaining quantities and records in `Plan`; the
  per-day machine sets and "C" crews in `Marks`.
- `progress.dfy`: `produced_by_day`, the daily percentages and the verdict.
- `planner.dfy`: the shift labels, and `PlanWeek`, which chains resolution, allocation and
  progress for one week.

## Model

| member | source | states |
|---|---|---|
| Text.NormIdempotent | production_planner_Version2.py:34-35 | Normalising a normalised key changes nothing, so comparing keys normalised at every lookup is consistent. |
| Text.ParseShow | production_planner_Version2.py:24 | `int(str(n)) == n` for every integer: the parser reads back every rendered integer. |
| Text.TrimEnds | production_planner_Version2.py:21 | The stripped string is the slice of the input between a leading and a trailing run of whitespace. Only whitespace is cut on either side, and the result has no whitespace at either end. |
| StableSort.SortBySorted | production_planner_Version2.py:64 | Under a strict total order, the sort returns its input reordered (same multiset), sorted by the key. |
| StableSort.SortByStable | production_planner_Version2.py:64 | For every key value, the items with that key keep their input order. |
| Routing.Truncate | production_planner_Version2.py:24 | `int()` of a float truncates toward zero: the result lies within 1 of the input, on the side of zero. |
| Routing.SorterReadsNumerals | production_planner_Version2.py:21-24 | The text of any integer (negative included) is never the sentinel and sorts as that integer. |
| Routing.FinalStepPlacement | production_planner_Version2.py:20-26 | In a project's sorted routing, a "final step" row never comes after a row whose cell `int()` cannot read (an empty cell or other text). It never comes before a row whose cell reads as an integer below 9999. |
| Routing.KeyLessIsStrictTotalOrder | production_planner_Version2.py:64 | Python's tuple ordering of the sorter keys is irreflexive, transitive and total. |
| Routing.Matching | production_planner_Version2.py:63 | The rows selected for a project are exactly the table rows whose normalised project equals the normalised name. |
| Routing.MatchingCounts | production_planner_Version2.py:63 | The selection keeps every matching row as many times as the table holds it, and no other row. |
| Routing.MatchingInOrder | production_planner_Version2.py:63 | The selected rows are the table's rows at the matching positions, in increasing position order, and those positions are exactly the rows whose normalised project matches. |
| Routing.StepsForSpec | production_planner_Version2.py:62-67 | A project's step list is a permutation of its matching rows, has a row iff the table has it for that project, is sorted by operation key, and keeps table order among equal keys. |
| Demand.StartingStockSpec | production_planner_Version2.py:32-39 | The lookup ignores case and surrounding spaces. It returns the first matching row's quantity, or 0 if no row matches. |
| Demand.ToProduceSpec | production_planner_Version2.py:95-98 | The target is never negative. Step 0's target plus the initial stock covers the demand (exactly, when the demand exceeds the stock). When the stock covers the demand, step 0's target is 0. Later steps' targets ignore stock, equal a non-negative demand, and are 0 for a negative one. |
| Demand.ShiftsRequiredIsLeast | production_planner_Version2.py:99 | With a positive rate, the shift count is the least whose capacity covers the target. With no positive rate it is 0. |
| Demand.ShiftsRequiredPositive | production_planner_Version2.py:99 | A step needs shifts iff its rate and its target are both positive. |
| Demand.StepTableSpec | production_planner_Version2.py:70-101 | Every step of the table comes from one demand row: its position in that project's sorted routing, that row's machine, rate and limit, its own stock lookup, target and shift count. Conversely, every position of every listed project's sorted routing yields its step in the table. |
| Demand.StepTableProjects | production_planner_Version2.py:74-77 | Every step belongs to a project of the week's demand. |
| Demand.StepTableWellFormed | production_planner_Version2.py:77-100 | When each project is listed once, (project, step) identifies one step, and every step's figures are the computed ones. |
| Demand.TotalsKeys | production_planner_Version2.py:102-104 | The totals and initial-stock dictionaries have the same keys: exactly the (project, machine) pairs of the steps, each once, in first-set order. |
| Demand.TotalsLastWriteWins | production_planner_Version2.py:102-104 | For the last step with a given key, the totals hold its target plus its initial stock, and the initial-stock dictionary holds its initial stock. |
| Demand.InitialsAreLookups | production_planner_Version2.py:94-104 | Every recorded initial stock is the starting-stock lookup for its key. |
| Demand.ResolveProject | production_planner_Version2.py:88-104 | One project's pass appends its steps and keeps the order, totals and initials equal to their definitions over the steps so far. |
| Demand.ResolveDemand | production_planner_Version2.py:83-104 | The loop's output is the step table, with the key order, totals and initials defined over it. |
| Allocator.Available | production_planner_Version2.py:120-123 | The queue holds exactly the operators of the shift with fewer than days × shifts records, in roster order. |
| Allocator.Pending | production_planner_Version2.py:133-135 | The candidates are exactly the steps still short of their shifts, in step-table order. |
| Allocator.PrioritisedSpec | production_planner_Version2.py:127-131 | The "C" candidates are the same steps in order of non-increasing limit. Steps with equal limit keep step-table order. |
| Allocator.PrioritisedOrder | production_planner_Version2.py:127-131 | In the "C" candidate list, an earlier step has a larger limit, or the same limit and an earlier place in the step table. |
| Allocator.Candidates | production_planner_Version2.py:126-135 | The steps visited in a shift are steps short of their shifts, and every step short of its shifts is among them. Each candidate comes before the next in the shift's priority: in "C", larger limit first and then step-table order; elsewhere, step-table order. |
| Allocator.ShareIsShiftShare | production_planner_Version2.py:150-154 | A step's next shift produces `min(capacity, what is left)`: a full shift's capacity on every shift but its last, the remainder on the last, never more than one shift's capacity. |
| Allocator.AssignLedger | production_planner_Version2.py:150-158 | One assignment to a step short of its shifts keeps the ledger (assigned count, what is left, output of the records) and keeps every record of every step within one shift's share. |
| Allocator.StaffMachine | production_planner_Version2.py:145-159 | The "C" inner loop keeps the allocation invariant and stops only with the crew at its limit, the queue empty or the step satisfied. The operators it takes are the front of the queue. The j-th of them gains exactly one record, `Working(day, shift, machine, project, step + 1, min(capacity, what was left after the step's j-th new shift))`. No other operator's list changes. The step's assigned count and crew grow by the number taken, and no other step or machine set changes. |
| Allocator.ServedDetermined | production_planner_Version2.py:137-173 | Once the steps that the popped operators went to are known in queue order, every operator's record list and every step's assigned count after the visits are fixed: two outcomes with the same pairing are equal. |
| Allocator.VisitCandidates | production_planner_Version2.py:137-173 | Visiting the candidates keeps the allocation invariant. The operators taken are the front of the queue, taken in queue order. The k-th of them goes to step `took[k]`. `took` lists the candidates in visiting order, each once per operator it got. The k-th operator's list gains exactly one record, step `took[k]`'s next shift, numbered from the step's count before the visits plus the operators `took` gave it earlier. It produces `min(capacity, what was left before that shift)`. Each step's assigned count grows by the number of times `took` names it. No other list changes. In a regular shift only visited steps have an operator in the slot, and at most one. Unless the queue ran out, every candidate ends satisfied, or with its machine used by the other kind of shift that day, or staffed in the slot (to its limit in "C", with one operator elsewhere). Earlier candidates come first: if a candidate gained an operator, every candidate before it ends in one of those settled states. Steps that are not candidates do not change. |
| Allocator.VisitsCapped | production_planner_Version2.py:149-165 | After the visits, no step has more than its cap in the slot: its limit in "C", one elsewhere. |
| Allocator.ServedInOrder | production_planner_Version2.py:126-173 | When the visits serve the candidates in priority order, a step that gained an operator has every step of higher priority settled. |
| Allocator.TookInOrder | production_planner_Version2.py:126-165 | When the candidates are visited in priority order ("C": larger limit first, then step-table order; elsewhere step-table order), the steps the queue's operators went to, taken in queue order, never go back in that order: two of them are the same step, or the earlier has priority. |
| Allocator.StaffShift | production_planner_Version2.py:126-173 | Staffing a shift keeps the invariant and leaves every step within its cap in the slot. The front of the queue goes, in queue order, to the steps listed by `took`, each operator with one share record numbered as in VisitCandidates. Each step's count grows by its number of entries in `took`. `took` is in priority order. Unless the queue ran out, every step ends satisfied, blocked by the other kind of shift's use of its machine that day, or staffed in the slot. If a step gained an operator, every step of higher priority ("C": larger limit, then step-table order; elsewhere step-table order) ends in one of those settled states. |
| Allocator.FillAbsent | production_planner_Version2.py:175-182 | Every operator of the shift ends with its record for the slot. Exactly the unserved operators get a placeholder. Each of them is one entry `Absent(day, shift)` longer, and no other list changes. Assignments, quantities and machine use are unchanged. |
| Allocator.CloseShift | production_planner_Version2.py:175-182 | Filling in the placeholders closes the shift. The day's invariant moves to the next shift. Every operator left in the queue belongs to the shift and gets exactly one `Absent(day, shift)` record. The slot then holds one placeholder per operator left over. The served operators keep their one share record each, paired in queue order with the steps of `took`. The settled and priority facts of the visits still hold. |
| Allocator.AllocateShift | production_planner_Version2.py:119-182 | One shift moves the day's invariant to the next shift. The operators left over are the tail of the shift's roster-order queue. Each one's list is one `Absent(day, shift)` longer. The operators served from the front went, in queue order, to the steps listed by `took`, each with one share record numbered as in VisitCandidates. Each step's count grew by its number of entries in `took`, and `took` is in priority order. No other list changes. The slot has exactly one placeholder per operator left over. If any operator was left over, every step is satisfied, blocked by the other kind of shift's use of its machine that day, or staffed in the slot (to its limit in "C", with one operator elsewhere). A step served in the shift has every step of higher priority in one of those states. |
| Allocator.AllocateDay | production_planner_Version2.py:114-182 | One day, starting from empty machine sets and crews, moves the weekly invariant to the next day. |
| Allocator.WeekOpens | production_planner_Version2.py:107-108 | The initial state (no assignments, full targets left, empty records) satisfies the weekly invariant. |
| Allocator.AllocateWeek | production_planner_Version2.py:106-182 | After the week: no step exceeds its shifts. Assignments equal the records. What is left is the target less one shift's capacity per assignment, floored at 0, and the records produce the rest. Each record of a step produces a full shift's capacity, or on the step's last shift what was left, and never less than 0. Every operator has one record per day in its own shift. No step exceeds its cap in any slot. No machine serves both "C" and another shift on a day. |
| Allocator.StepOutcome | production_planner_Version2.py:152-172 | What is left lies between 0 and the target and the records produce the rest. A step without a positive rate is never staffed. A step given all its shifts produced its whole target. A step short of them has only full shifts. |
| Allocator.OneRecordPerSlot | production_planner_Version2.py:176-182 | After the week, an operator has exactly one record in each of its own slots and none in other shifts' slots. |
| Progress.ProducedByDay | production_planner_Version2.py:233-242 | Each (project, machine, day) holds the summed output of its worked records, skipping "Assente" and "Support". |
| Progress.DailyProgress | production_planner_Version2.py:244-256 | Day k's value is the capped percentage of the initial stock plus production through day k. The verdict holds iff Friday's value reaches 100, iff the total is positive and stock plus production covers it. |
| Progress.LevelBounds | production_planner_Version2.py:252-255 | A value is at most 140, is 0 when the total is not positive, and is the percentage unless capped. |
| Progress.LevelMonotone | production_planner_Version2.py:249-255 | With no negative production, the value never decreases from one day to a later one. |
| Progress.ReadyIff | production_planner_Version2.py:253-256 | Friday's capped value reaches 100 iff the uncapped percentage does, iff the total is positive and is covered. |
| Progress.PercentReaches | production_planner_Version2.py:252 | The percentage reaches 100 iff the total is positive and the quantity covers it. |
| Progress.TrackProgress | production_planner_Version2.py:243-256 | One line per (project, machine) key, in first-set order. Each has that key's daily values and verdict, computed from its initial stock and total. |
| Progress.ProductionNonNegative | production_planner_Version2.py:238-241 | When no record is negative, no produced-by-day figure is negative. |
| Progress.RowMonotone | production_planner_Version2.py:249-255 | Over non-negative production, a line never goes down and never exceeds 140. |
| Planner.Unique | production_planner_Version2.py:18 | The labels keep each roster value once, and only roster values. |
| Planner.ShiftLabelsSpec | production_planner_Version2.py:18 | The shift labels contain no repeats, are in ascending string order, and are exactly the roster's shifts. |
| Planner.PlanWeek | production_planner_Version2.py:60-256 | One week end to end. The steps are the resolved table and the plan meets the weekly invariant of AllocateWeek, including the one-shift bound on every record. Production per key is the records' output. The progress table has one line per key, built from that key's figures, never going down and never above 140. |

## Left out

- File input and output is left out: the CSV reading, column cleaning and the openpyxl workbook
  (headers, styling, the readable plan table). Inputs are typed sequences of rows.
- The loop over up to five weeks (`num_weeks`) is left out. The model plans one week, starting
  with empty records, as each iteration of that loop does. The unused `slots` list and the
  unused `ready` flag of the progress loop are left out too.
- Quantities are exact reals. Floating-point rounding, NaN and infinite quantities are not
  modelled. NaN in the order column is kept as a cell that sorts as the text "nan".
- Upper and lower case cover ASCII letters only. Python's Unicode case mapping is left out.
  `int()` on text covers whitespace, a sign and ASCII digits; underscores and non-ASCII digits
  are left out.
- `get_machine_limit` (lines 28-30) is not an operation of the model. The limit is a field of a
  routing row, already read as an integer. The default of 1 for a missing column, and `int()`
  on that cell, are left out.
- pandas' `sort_values` uses quicksort by default, which is not guaranteed stable. The model
  sorts stably, as a single-key sort over small frames behaves in practice.
- Operators are identified by their position in the roster. The source keys them by name, so
  two roster rows with the same name would share a record list there.
- The shift list of the allocator is an input: distinct labels covering every operator's shift.
  `Planner.ShiftLabels` computes the source's own list and proves it has that form.
- A project listed twice in the demand index is not modelled. `read_csv(..., index_col=0)` keeps
  duplicate labels, and for such a project `week_demand.loc[p]` is a Series of several values, so
  `float(...)` at line 90 raises TypeError and the program stops. The model instead requires
  `DistinctProjects` of its callers, in `Planner.PlanWeek` and `Demand.StepTableWellFormed`.
- AllocateDay: states that the day's shifts keep the weekly invariant. The staffing rule (if an
  operator was left over in a shift, every step was satisfied, blocked or staffed in that slot), the
  priority order of the candidates, the queue-order pairing of operators with steps and the
  placeholder records are proved for each shift at
  Allocator.AllocateShift and not restated for the day.
- PlanWeek: inherits from AllocateWeek the invariants of the plan, including the one-shift bound
  on every record. It does not restate the per-shift staffing rule of Allocator.AllocateShift and
  does not prove the plan is maximal.
- AllocateWeek: states the invariants the allocation keeps, not the plan as a function of its
  inputs. The per-shift staffing rule is proved at Allocator.AllocateShift and not restated for the
  week, so the week-level contract alone does not prove the plan is maximal, that is, that an
  operator left idle could not have been placed under the machine rules.
- Progress.ProducedByDay: the `isinstance(produced, (int, float))` test at line 238 always holds
  in the model, since every record's quantity is a number.
- Where the program's stated intent and its code disagree, the model follows the code:
  - The "final step" sentinel maps to (9999,). It ties with the integer 9999 and sorts before
    every text key, so it is not always last. It is recognised after trimming and lower-casing
    only: "final-step" is not the sentinel.
  - The percentage uses `total > 0` at line 252, so a non-positive total, not only a zero one,
    gives 0.
