/**
 * The greedy week allocator: day by day and shift by shift, the operators of the shift are taken
 * from a FIFO queue in roster order and given to the steps that still need shifts, with the "C"
 * shift staffing multi-worker machines first, and every operator left over recorded as absent.
 *
 * The loops update a value state threaded through the methods: `Plan` holds `shifts_assigned`,
 * `remaining_qty` (both indexed like the step table) and the per-operator record lists; `Marks`
 * holds the per-day sets `machines_used_1_2` and `machines_used_C` and the per-day counters
 * `shift_C_assignments`.
 */
module Allocator {
  import opened Base
  import opened Demand
  import opened Records
  import StableSort

  /** One row of the roster: the operator's display name and the shift label it works. */
  datatype Operator = Operator(name: string, shift: string)

  datatype Plan = Plan(given: seq<nat>, remaining: seq<real>, records: seq<seq<Entry>>)

  datatype Marks = Marks(regular: set<string>, special: set<string>, crew: seq<nat>)

  /** `max_produce`: what one operator produces on the step in one shift. */
  function Capacity(st: Step): real {
    st.hourly * ShiftHours
  }

  /** What is left of the step's target after n full shifts, never below 0. */
  function Left(st: Step, n: nat): real {
    Max(st.toProduce - n as real * Capacity(st), 0.0)
  }

  /** `produce_now` on the step's shift number n + 1: one full shift, or what is left if that is less. */
  function Share(st: Step, n: nat): real {
    Min(Capacity(st), Left(st, n))
  }

  /** The records of a step carry its project and its position counted from 1. */
  function StepPat(st: Step): Pattern {
    StepOf(st.project, st.index + 1)
  }

  function SlotPat(st: Step, day: string, shift: string): Pattern {
    StepInSlot(day, shift, st.project, st.index + 1)
  }

  /** How many operators a step may get in one slot: `step_limit` in shift "C", one otherwise. */
  function Cap(shift: string, st: Step): nat {
    if shift == Special then (if st.limit > 0 then st.limit else 0) else 1
  }

  predicate Increasing(s: seq<nat>) {
    forall a, b :: 0 <= a < b < |s| ==> s[a] < s[b]
  }

  predicate Distinct(s: seq<string>) {
    forall a, b :: 0 <= a < b < |s| ==> s[a] != s[b]
  }

  // ---------------------------------------------------------------------------------------------
  // The candidate and operator lists of one shift

  /**
   * `ops_available` over the first n operators: those of the shift whose record list is shorter
   * than days × shifts, in roster order.
   */
  function Available(roster: seq<Operator>, records: seq<seq<Entry>>, h: string, nShifts: nat, n: nat): (r: seq<nat>)
    requires n <= |roster| && n <= |records|
    ensures Increasing(r)
    ensures forall k :: 0 <= k < |r| ==> r[k] < n && roster[r[k]].shift == h && |records[r[k]]| < |Days| * nShifts
    ensures forall o :: 0 <= o < n && roster[o].shift == h && |records[o]| < |Days| * nShifts ==> o in r
  {
    if n == 0 then []
    else
      Available(roster, records, h, nShifts, n - 1)
      + (if roster[n - 1].shift == h && |records[n - 1]| < |Days| * nShifts then [n - 1] else [])
  }

  /** The steps among the first n that still need shifts, in step-table order. */
  function Pending(steps: seq<Step>, given: seq<nat>, n: nat): (r: seq<nat>)
    requires n <= |steps| && n <= |given|
    ensures Increasing(r)
    ensures forall k :: 0 <= k < |r| ==> r[k] < n && given[r[k]] < steps[r[k]].needed
    ensures forall i :: 0 <= i < n && given[i] < steps[i].needed ==> i in r
  {
    if n == 0 then []
    else Pending(steps, given, n - 1) + (if given[n - 1] < steps[n - 1].needed then [n - 1] else [])
  }

  /** The sort key of the "C" shift, `-step_limit`. */
  function Rank(steps: seq<Step>): nat -> int {
    (i: nat) => if i < |steps| then -steps[i].limit else 0
  }

  const IntLess: (int, int) -> bool := (a: int, b: int) => a < b

  /** The candidate order of the "C" shift: a stable sort by descending `step_limit`. */
  function Prioritised(steps: seq<Step>, pending: seq<nat>): seq<nat> {
    StableSort.SortBy(pending, Rank(steps), IntLess)
  }

  /**
   * The "C" shift visits the same candidates, the ones allowing more workers first, and among
   * steps with the same limit keeps step-table order.
   */
  lemma PrioritisedSpec(steps: seq<Step>, pending: seq<nat>)
    requires forall k :: 0 <= k < |pending| ==> pending[k] < |steps|
    ensures multiset(Prioritised(steps, pending)) == multiset(pending)
    ensures forall k :: 0 <= k < |Prioritised(steps, pending)| ==> Prioritised(steps, pending)[k] < |steps|
    ensures forall a, b :: 0 <= a < b < |Prioritised(steps, pending)| ==>
              steps[Prioritised(steps, pending)[a]].limit >= steps[Prioritised(steps, pending)[b]].limit
    ensures forall key :: StableSort.WithKey(Prioritised(steps, pending), Rank(steps), key)
                          == StableSort.WithKey(pending, Rank(steps), key)
  {
    var r := Prioritised(steps, pending);
    assert StableSort.StrictTotalOrder(IntLess);
    StableSort.SortBySorted(pending, Rank(steps), IntLess);
    forall key {
      StableSort.SortByStable(pending, Rank(steps), IntLess, key);
    }
    forall k | 0 <= k < |r| ensures r[k] < |steps| {
      assert r[k] in multiset(pending);
    }
  }

  /**
   * The order in which shift h visits the steps: descending `step_limit` in shift "C", ties in
   * step-table order; step-table order in every other shift.
   */
  predicate Before(steps: seq<Step>, h: string, i: nat, j: nat) {
    && i < |steps| && j < |steps|
    && if h == Special then steps[i].limit > steps[j].limit || (steps[i].limit == steps[j].limit && i < j)
       else i < j
  }

  /** In shift "C" the sorted candidates follow `Before`: more workers first, then step-table order. */
  lemma PrioritisedOrder(steps: seq<Step>, pending: seq<nat>)
    requires Increasing(pending) && forall k :: 0 <= k < |pending| ==> pending[k] < |steps|
    ensures var r := Prioritised(steps, pending);
      forall a, b :: 0 <= a < b < |r| ==> Before(steps, Special, r[a], r[b])
  {
    var r := Prioritised(steps, pending);
    PrioritisedSpec(steps, pending);
    forall a, b | 0 <= a < b < |r| ensures Before(steps, Special, r[a], r[b]) {
      if steps[r[a]].limit == steps[r[b]].limit {
        var key := Rank(steps);
        var k := key(r[a]);
        StableSort.WithKeyPositions(r, key, k, a, b);
        var w := StableSort.WithKey(r, key, k);
        var x, y :| 0 <= x < y < |w| && w[x] == r[a] && w[y] == r[b];
        assert w == StableSort.WithKey(pending, key, k);
        WithKeyIncreasing(pending, key, k);
      }
    }
  }

  /** Picking the elements of one key from an increasing sequence leaves it increasing. */
  lemma {:induction false} WithKeyIncreasing(p: seq<nat>, key: nat -> int, k: int)
    requires Increasing(p)
    ensures var w := StableSort.WithKey(p, key, k);
      Increasing(w) && (|p| > 0 ==> forall x :: 0 <= x < |w| ==> p[0] <= w[x])
  {
    if p != [] {
      var p1 := p[1..];
      assert Increasing(p1) by {
        forall a, b | 0 <= a < b < |p1| ensures p1[a] < p1[b] {
          assert p1[a] == p[a + 1] && p1[b] == p[b + 1];
        }
      }
      WithKeyIncreasing(p1, key, k);
      var w1 := StableSort.WithKey(p1, key, k);
      assert forall x :: 0 <= x < |w1| ==> p[0] < w1[x] by {
        if |p1| > 0 {
          assert p[0] < p1[0];
        }
      }
      var w := StableSort.WithKey(p, key, k);
      assert w == (if key(p[0]) == k then [p[0]] else []) + w1;
      if key(p[0]) == k {
        forall a, b | 0 <= a < b < |w| ensures w[a] < w[b] {
          assert w[b] == w1[b - 1];
          if a > 0 {
            assert w[a] == w1[a - 1];
          }
        }
      }
    }
  }

  /** The records an operator already has for a slot (`already_assigned`). */
  function SlotRecords(r: seq<Entry>, day: string, shift: string): (s: seq<Entry>)
    ensures forall k :: 0 <= k < |s| ==> s[k].day == day && s[k].shift == shift
  {
    if r == [] then []
    else (if r[0].day == day && r[0].shift == shift then [r[0]] else []) + SlotRecords(r[1..], day, shift)
  }

  lemma {:induction false} SlotRecordsEmpty(r: seq<Entry>, day: string, shift: string)
    ensures SlotRecords(r, day, shift) == [] <==> forall k :: 0 <= k < |r| ==> r[k].day != day || r[k].shift != shift
  {
    if r != [] {
      SlotRecordsEmpty(r[1..], day, shift);
      assert forall k :: 1 <= k < |r| ==> r[k] == r[1..][k - 1];
    }
  }

  // ---------------------------------------------------------------------------------------------
  // One assignment

  /**
   * Lines 150-158 and 165-172: the operator produces `min(max_produce, remaining)` on the step,
   * the record is appended, and the step's counters move by one shift and by that quantity.
   */
  function Assign(steps: seq<Step>, pl: Plan, i: nat, o: nat, day: string, shift: string): Plan
    requires i < |steps| && i < |pl.given| && i < |pl.remaining| && o < |pl.records|
  {
    var st := steps[i];
    var produce := Min(Capacity(st), pl.remaining[i]);
    var e := Working(day, shift, st.machine, st.project, st.index + 1, produce);
    Plan(pl.given[i := pl.given[i] + 1],
         pl.remaining[i := pl.remaining[i] - produce],
         pl.records[o := pl.records[o] + [e]])
  }

  /** The marks after staffing step i's machine m in shift h. */
  function Mark(mk: Marks, h: string, i: nat, m: string): Marks
    requires i < |mk.crew|
  {
    if h == Special then mk.(special := mk.special + {m}, crew := mk.crew[i := mk.crew[i] + 1])
    else mk.(regular := mk.regular + {m})
  }

  // ---------------------------------------------------------------------------------------------
  // The invariants

  /**
   * Per step: the shifts given never exceed the shifts needed and are exactly the step's records;
   * what is left to produce is the target less one full shift per assignment, floored at 0; and the
   * records produce exactly the target less what is left.
   */
  ghost predicate Ledger(steps: seq<Step>, pl: Plan) {
    && |pl.given| == |steps| && |pl.remaining| == |steps|
    && forall i :: 0 <= i < |steps| ==>
         && pl.given[i] <= steps[i].needed
         && pl.given[i] == Count(pl.records, StepPat(steps[i]))
         && pl.remaining[i] == Left(steps[i], pl.given[i])
         && Output(pl.records, StepPat(steps[i])) == steps[i].toProduce - pl.remaining[i]
  }

  /** A quantity one record of the step may carry: a full shift, or what was left for the step's last shift. */
  ghost predicate ShiftShare(st: Step, x: real) {
    && 0.0 <= x <= Capacity(st)
    && (x == Capacity(st) || (st.needed > 0 && x == Left(st, st.needed - 1)))
  }

  /**
   * No record produces a negative quantity, and every record of a step produces at most one shift's
   * capacity: a full shift, or the remainder on the step's last shift.
   */
  ghost predicate Produces(steps: seq<Step>, records: seq<seq<Entry>>) {
    && (forall o, k :: 0 <= o < |records| && 0 <= k < |records[o]| && records[o][k].Working? ==>
          records[o][k].produced >= 0.0)
    && (forall o, k, i ::
          (0 <= o < |records| && 0 <= k < |records[o]| && 0 <= i < |steps| && Matches(records[o][k], StepPat(steps[i])))
          ==> ShiftShare(steps[i], records[o][k].produced))
  }

  /** An operator's list holds one record per day so far, in order, each in its own shift. */
  ghost predicate OnSchedule(r: seq<Entry>, shift: string, n: nat) {
    && n <= |Days| && |r| == n
    && forall k :: 0 <= k < n ==> r[k].day == Days[k] && r[k].shift == shift
  }

  /**
   * During day d, after the shifts `done` and, in the current shift, after the operators `popped`
   * were served: those operators have today's record, the others do not have it yet.
   */
  ghost predicate Scheduled(roster: seq<Operator>, records: seq<seq<Entry>>, d: nat, done: seq<string>, popped: seq<nat>) {
    && |records| == |roster|
    && forall o :: 0 <= o < |roster| ==>
         OnSchedule(records[o], roster[o].shift, if roster[o].shift in done || o in popped then d + 1 else d)
  }

  /** On every finished day, a step has at most its cap in each slot, and no machine served both kinds of shift. */
  ghost predicate PastDays(steps: seq<Step>, records: seq<seq<Entry>>, d: nat) {
    && d <= |Days|
    && (forall k, h, i :: 0 <= k < d && 0 <= i < |steps| ==>
          Count(records, SlotPat(steps[i], Days[k], h)) <= Cap(h, steps[i]))
    && (forall k :: 0 <= k < d ==> Machines(records, Days[k], true) !! Machines(records, Days[k], false))
  }

  /** Today's marks are the machines used today in each kind of shift, and today's "C" crew per step. */
  ghost predicate Marked(steps: seq<Step>, records: seq<seq<Entry>>, day: string, mk: Marks) {
    && mk.regular == Machines(records, day, false)
    && mk.special == Machines(records, day, true)
    && mk.regular !! mk.special
    && |mk.crew| == |steps|
    && forall i :: 0 <= i < |steps| ==>
         mk.crew[i] == Count(records, SlotPat(steps[i], day, Special)) && mk.crew[i] <= Cap(Special, steps[i])
  }

  /** Today, in the finished shifts, every step has at most its cap. */
  ghost predicate SlotsBounded(steps: seq<Step>, records: seq<seq<Entry>>, day: string, done: seq<string>) {
    forall h, i :: 0 <= i < |steps| && h in done ==> Count(records, SlotPat(steps[i], day, h)) <= Cap(h, steps[i])
  }

  /** Today, nothing is recorded in a slot that is neither finished nor current. */
  ghost predicate SlotsQuiet(steps: seq<Step>, records: seq<seq<Entry>>, day: string, done: seq<string>, cur: string) {
    forall h, i :: 0 <= i < |steps| && h !in done && h != cur ==> Count(records, SlotPat(steps[i], day, h)) == 0
  }

  /** In a regular shift, only the candidates already visited have an operator, and one at most. */
  ghost predicate RegularBound(steps: seq<Step>, records: seq<seq<Entry>>, day: string, h: string, visited: seq<nat>) {
    forall i :: 0 <= i < |steps| ==> Count(records, SlotPat(steps[i], day, h)) <= (if i in visited then 1 else 0)
  }

  /**
   * The operators `popped`, in order, each got one record on step `st` in slot (day, h), the j-th
   * producing the step's share of its shift number n0 + j + 1; no other operator's list changed.
   */
  ghost predicate StaffedBy(st: Step, day: string, h: string, n0: nat, rs0: seq<seq<Entry>>, rs: seq<seq<Entry>>,
                            popped: seq<nat>) {
    && |rs| == |rs0|
    && (forall j :: 0 <= j < |popped| ==>
          && popped[j] < |rs|
          && rs[popped[j]] == rs0[popped[j]] + [Working(day, h, st.machine, st.project, st.index + 1, Share(st, n0 + j))])
    && (forall o :: 0 <= o < |rs| && o !in popped ==> rs[o] == rs0[o])
  }

  /** The record of a shift of step `st` in slot (day, h): its share of the step's shift number n + 1. */
  function ShareRecord(st: Step, day: string, h: string, n: nat): Entry {
    Working(day, h, st.machine, st.project, st.index + 1, Share(st, n))
  }

  /** How many entries of s equal x. */
  function Tally(s: seq<nat>, x: nat): nat {
    if |s| == 0 then 0 else Tally(s[..|s| - 1], x) + (if s[|s| - 1] == x then 1 else 0)
  }

  /** How many of the entries before position k equal the k-th. */
  function Earlier(s: seq<nat>, k: nat): nat
    requires k < |s|
  {
    Tally(s[..k], s[k])
  }

  /** The sequence of m copies of x. */
  function Repeat(x: nat, m: nat): (r: seq<nat>)
    ensures |r| == m && forall k :: 0 <= k < m ==> r[k] == x
  {
    seq(m, _ => x)
  }

  /**
   * Since state `pl0`, the operators `popped` were given, in order, to the steps `took`: the k-th
   * got exactly one record, step took[k]'s share of the step's next shift after the ones it had
   * at `pl0` and the ones the earlier operators of `popped` took. Each step was given one shift per
   * operator it took, and the other operators' lists did not change.
   */
  ghost predicate ShiftServed(steps: seq<Step>, pl0: Plan, pl: Plan, day: string, h: string, popped: seq<nat>, took: seq<nat>) {
    && |took| == |popped| && |pl.records| == |pl0.records| && |pl0.given| == |steps| && |pl.given| == |steps|
    && (forall k :: 0 <= k < |took| ==> took[k] < |steps|)
    && (forall k {:trigger popped[k]} :: 0 <= k < |took| ==>
          && popped[k] < |pl.records|
          && pl.records[popped[k]] == pl0.records[popped[k]] + [ShareRecord(steps[took[k]], day, h, pl0.given[took[k]] + Earlier(took, k))])
    && (forall i :: 0 <= i < |steps| ==> pl.given[i] == pl0.given[i] + Tally(took, i))
    && (forall o {:trigger pl0.records[o]} :: 0 <= o < |pl.records| && o !in popped ==> pl.records[o] == pl0.records[o])
  }

  /** The steps the popped operators went to, in order, fix every record list and every count. */
  lemma {:induction false} ServedDetermined(steps: seq<Step>, pl0: Plan, pl: Plan, pl': Plan, day: string, h: string,
                                            popped: seq<nat>, took: seq<nat>)
    requires ShiftServed(steps, pl0, pl, day, h, popped, took) && ShiftServed(steps, pl0, pl', day, h, popped, took)
    ensures pl.records == pl'.records && pl.given == pl'.given
  {
    forall o | 0 <= o < |pl.records| ensures pl.records[o] == pl'.records[o] {
      if o in popped {
        var k :| 0 <= k < |popped| && popped[k] == o;
      } else {
        assert pl.records[o] == pl0.records[o];
      }
    }
  }

  /**
   * The steps `took` were candidates among the first t, taken in visiting order: at[k] is the
   * position of took[k] among the candidates, and it never goes back.
   */
  ghost predicate VisitOrder(cands: seq<nat>, t: nat, took: seq<nat>, at: seq<nat>) {
    && |at| == |took|
    && (forall k :: 0 <= k < |at| ==> at[k] < t && at[k] < |cands| && took[k] == cands[at[k]])
    && (forall k, l :: 0 <= k < l < |at| ==> at[k] <= at[l])
  }

  /** Appending m copies of x to s adds m to the count of x and nothing else. */
  lemma {:induction false} RepeatCount(s: seq<nat>, x: nat, m: nat)
    ensures forall y :: Tally(s + Repeat(x, m), y) == Tally(s, y) + (if y == x then m else 0)
  {
    if m == 0 {
      assert s + Repeat(x, 0) == s;
    } else {
      RepeatCount(s, x, m - 1);
      var r := s + Repeat(x, m);
      assert r[..|r| - 1] == s + Repeat(x, m - 1);
    }
  }

  /** An entry that is not in s has no tally. */
  lemma {:induction false} TallyAbsent(s: seq<nat>, x: nat)
    requires x !in s
    ensures Tally(s, x) == 0
  {
    if s != [] {
      TallyAbsent(s[..|s| - 1], x);
    }
  }

  /**
   * Step i is settled in slot (day, h): it needs no more shifts, or the other kind of shift used its
   * machine today, or it has what the slot offers — its whole crew `step_limit` in shift "C", one
   * operator in any other shift.
   */
  ghost predicate Settled(steps: seq<Step>, pl: Plan, day: string, h: string, i: nat) {
    && i < |steps| && i < |pl.given|
    && (|| pl.given[i] >= steps[i].needed
        || (h == Special && (steps[i].machine in Machines(pl.records, day, false)
                             || Count(pl.records, SlotPat(steps[i], day, h)) >= steps[i].limit))
        || (h != Special && (steps[i].machine in Machines(pl.records, day, true)
                             || Count(pl.records, SlotPat(steps[i], day, h)) >= 1)))
  }

  /** What does not change within a shift: the inputs and the operators of the shift. */
  ghost predicate Context(steps: seq<Step>, roster: seq<Operator>, H: seq<string>, q: nat, avail: seq<nat>) {
    && WellFormed(steps) && Distinct(H) && q < |H|
    && (forall o :: 0 <= o < |roster| ==> roster[o].shift in H)
    && Increasing(avail)
    && (forall k :: 0 <= k < |avail| ==> avail[k] < |roster| && roster[avail[k]].shift == H[q])
  }

  /** The state of the candidate loop of shift H[q] on day d, with `queue` what is left of `avail`. */
  ghost predicate InShift(steps: seq<Step>, roster: seq<Operator>, H: seq<string>, d: nat, q: nat,
                          avail: seq<nat>, queue: seq<nat>, pl: Plan, mk: Marks) {
    && d < |Days| && q < |H| && |queue| <= |avail| && queue == avail[|avail| - |queue|..]
    && Ledger(steps, pl) && Produces(steps, pl.records)
    && Scheduled(roster, pl.records, d, H[..q], avail[..|avail| - |queue|])
    && PastDays(steps, pl.records, d)
    && Marked(steps, pl.records, Days[d], mk)
    && SlotsBounded(steps, pl.records, Days[d], H[..q])
    && SlotsQuiet(steps, pl.records, Days[d], H[..q], H[q])
    && Absences(pl.records, Days[d], H[q]) == 0
  }

  /** The state between the shifts of day d, before shift H[q]. */
  ghost predicate InDay(steps: seq<Step>, roster: seq<Operator>, H: seq<string>, d: nat, q: nat, pl: Plan, mk: Marks) {
    && d < |Days| && q <= |H|
    && Ledger(steps, pl) && Produces(steps, pl.records)
    && Scheduled(roster, pl.records, d, H[..q], [])
    && PastDays(steps, pl.records, d)
    && Marked(steps, pl.records, Days[d], mk)
    && SlotsBounded(steps, pl.records, Days[d], H[..q])
    && (forall h, i :: 0 <= i < |steps| && h !in H[..q] ==> Count(pl.records, SlotPat(steps[i], Days[d], h)) == 0)
  }

  /** The state between days: d days planned. */
  ghost predicate InWeek(steps: seq<Step>, roster: seq<Operator>, d: nat, pl: Plan) {
    && d <= |Days|
    && Ledger(steps, pl) && Produces(steps, pl.records)
    && |pl.records| == |roster|
    && (forall o :: 0 <= o < |roster| ==> OnSchedule(pl.records[o], roster[o].shift, d))
    && PastDays(steps, pl.records, d)
  }

  // ---------------------------------------------------------------------------------------------
  // Lemmas about one assignment

  lemma DaysDistinct()
    ensures forall a, b :: 0 <= a < b < |Days| ==> Days[a] != Days[b]
  {
  }

  /** One assignment with a positive capacity moves the floored remainder by one full shift. */
  lemma RemainingStep(st: Step, a: nat)
    requires Capacity(st) > 0.0
    ensures Left(st, a) - Min(Capacity(st), Left(st, a)) == Left(st, a + 1)
  {
    var c := Capacity(st);
    assert (a + 1) as real * c == a as real * c + c;
  }

  /** A step that still needs shifts has a positive rate. */
  lemma NeedsCapacity(st: Step)
    requires st.toProduce >= 0.0 && st.needed == ShiftsRequired(st.toProduce, st.hourly)
    requires st.needed > 0
    ensures Capacity(st) > 0.0
  {
    ShiftsRequiredPositive(st.toProduce, st.hourly);
  }

  /** What one assignment does to every aggregate over the records. */
  lemma AssignEffect(steps: seq<Step>, pl: Plan, i: nat, o: nat, day: string, shift: string)
    requires WellFormed(steps) && Ledger(steps, pl)
    requires i < |steps| && o < |pl.records|
    ensures var pl' := Assign(steps, pl, i, o, day, shift);
      && (forall j :: 0 <= j < |steps| ==>
            Count(pl'.records, StepPat(steps[j])) == Count(pl.records, StepPat(steps[j])) + (if j == i then 1 else 0))
      && (forall j :: 0 <= j < |steps| ==>
            Output(pl'.records, StepPat(steps[j])) ==
            Output(pl.records, StepPat(steps[j])) + (if j == i then Min(Capacity(steps[i]), pl.remaining[i]) else 0.0))
      && (forall j, D, h :: 0 <= j < |steps| ==>
            Count(pl'.records, SlotPat(steps[j], D, h)) ==
            Count(pl.records, SlotPat(steps[j], D, h)) + (if j == i && D == day && h == shift then 1 else 0))
      && (forall D, sp :: Machines(pl'.records, D, sp) ==
            Machines(pl.records, D, sp) + (if D == day && (shift == Special) == sp then {steps[i].machine} else {}))
  {
    var st := steps[i];
    var produce := Min(Capacity(st), pl.remaining[i]);
    var e := Working(day, shift, st.machine, st.project, st.index + 1, produce);
    AppendEffect(pl.records, o, e);
    forall j | 0 <= j < |steps| && j != i
      ensures !Matches(e, StepPat(steps[j])) && forall D, h :: !Matches(e, SlotPat(steps[j], D, h))
    {
      if i < j {
        assert steps[i].project != steps[j].project || steps[i].index != steps[j].index;
      } else {
        assert steps[j].project != steps[i].project || steps[j].index != steps[i].index;
      }
    }
  }

  /** Two entries of a well-formed step table differ in project or in position. */
  lemma OtherStep(steps: seq<Step>, i: nat, j: nat)
    requires WellFormed(steps) && i < |steps| && j < |steps|
    ensures StepPat(steps[i]) == StepPat(steps[j]) ==> i == j
  {
    if i < j {
      assert steps[i].project != steps[j].project || steps[i].index != steps[j].index;
    } else if j < i {
      assert steps[j].project != steps[i].project || steps[j].index != steps[i].index;
    }
  }

  /**
   * The quantity of the step's shift number n + 1, for a shift the step still needs: a full shift,
   * except on the step's last shift, which produces what is left.
   */
  lemma ShareIsShiftShare(st: Step, n: nat)
    requires st.toProduce >= 0.0 && st.needed == ShiftsRequired(st.toProduce, st.hourly) && n < st.needed
    ensures ShiftShare(st, Share(st, n))
    ensures n + 1 < st.needed ==> Share(st, n) == Capacity(st)
  {
    NeedsCapacity(st);
    var c := Capacity(st);
    var tp := st.toProduce;
    ShiftsRequiredIsLeast(tp, st.hourly);
    var last := (st.needed - 1) as real;
    assert last * c < tp;
    assert st.needed as real == last + 1.0;
    assert st.needed as real * c == last * c + c;
    var x := n as real;
    if n + 1 < st.needed {
      assert x + 1.0 <= last;
      BeforeLastShift(tp, c, x, last);
      assert Left(st, n) == tp - x * c;
    } else {
      assert x == last;
      assert Left(st, n) == tp - last * c;
      assert Left(st, n) <= c;
      assert n == st.needed - 1;
    }
  }

  /** Before its last shift, more than one shift's capacity is left. */
  lemma BeforeLastShift(tp: real, c: real, x: real, last: real)
    requires c > 0.0 && x + 1.0 <= last && last * c < tp
    ensures tp - x * c > c
  {
    MulMono(x + 1.0, last, c);
    assert (x + 1.0) * c == x * c + c;
  }

  /** An assignment to a step that still needs shifts keeps the ledger and produces a non-negative quantity. */
  lemma AssignLedger(steps: seq<Step>, pl: Plan, i: nat, o: nat, day: string, shift: string)
    requires WellFormed(steps) && Ledger(steps, pl) && Produces(steps, pl.records)
    requires i < |steps| && o < |pl.records| && pl.given[i] < steps[i].needed
    ensures Ledger(steps, Assign(steps, pl, i, o, day, shift))
    ensures Produces(steps, Assign(steps, pl, i, o, day, shift).records)
  {
    var pl' := Assign(steps, pl, i, o, day, shift);
    var st := steps[i];
    NeedsCapacity(st);
    AssignEffect(steps, pl, i, o, day, shift);
    RemainingStep(st, pl.given[i]);
    var produce := Min(Capacity(st), pl.remaining[i]);
    assert produce >= 0.0;
    forall j | 0 <= j < |steps|
      ensures pl'.given[j] <= steps[j].needed
      ensures pl'.given[j] == Count(pl'.records, StepPat(steps[j]))
      ensures pl'.remaining[j] == Left(steps[j], pl'.given[j])
      ensures Output(pl'.records, StepPat(steps[j])) == steps[j].toProduce - pl'.remaining[j]
    {
      if j == i {
        assert pl'.given[j] == pl.given[i] + 1 && pl'.remaining[j] == pl.remaining[i] - produce;
      } else {
        assert pl'.given[j] == pl.given[j] && pl'.remaining[j] == pl.remaining[j];
      }
    }
    ShareIsShiftShare(st, pl.given[i]);
    assert produce == Share(st, pl.given[i]);
    var e := Working(day, shift, st.machine, st.project, st.index + 1, produce);
    forall o', k | 0 <= o' < |pl'.records| && 0 <= k < |pl'.records[o']| && pl'.records[o'][k].Working?
      ensures pl'.records[o'][k].produced >= 0.0
      ensures forall j :: 0 <= j < |steps| && Matches(pl'.records[o'][k], StepPat(steps[j])) ==>
                ShiftShare(steps[j], pl'.records[o'][k].produced)
    {
      if o' == o && k == |pl.records[o]| {
        assert pl'.records[o'][k] == e;
        forall j | 0 <= j < |steps| && Matches(e, StepPat(steps[j])) ensures j == i {
          OtherStep(steps, i, j);
          assert StepPat(steps[i]) == StepOf(e.project, e.step) == StepPat(steps[j]);
        }
      } else {
        assert pl'.records[o'][k] == pl.records[o'][k];
      }
    }
  }

  /** An entry appended for a later day leaves the finished days as they were. */
  lemma LaterDay(steps: seq<Step>, rs: seq<seq<Entry>>, rs': seq<seq<Entry>>, d: nat, day: string)
    requires PastDays(steps, rs, d) && d < |Days| && day == Days[d]
    requires forall j, D, h :: 0 <= j < |steps| && D != day ==>
               Count(rs', SlotPat(steps[j], D, h)) == Count(rs, SlotPat(steps[j], D, h))
    requires forall D, sp :: D != day ==> Machines(rs', D, sp) == Machines(rs, D, sp)
    ensures PastDays(steps, rs', d)
  {
    DaysDistinct();
    forall k, h, i | 0 <= k < d && 0 <= i < |steps|
      ensures Count(rs', SlotPat(steps[i], Days[k], h)) <= Cap(h, steps[i])
    {
      assert Days[k] != day;
    }
    forall k | 0 <= k < d ensures Machines(rs', Days[k], true) !! Machines(rs', Days[k], false) {
      assert Days[k] != day;
    }
  }

  /** Giving operator o today's record, in its own shift, moves it to the served operators. */
  lemma Stamp(roster: seq<Operator>, rs: seq<seq<Entry>>, d: nat, done: seq<string>, popped: seq<nat>, o: nat, e: Entry)
    requires Scheduled(roster, rs, d, done, popped) && d < |Days|
    requires o < |roster| && roster[o].shift !in done && o !in popped
    requires e.day == Days[d] && e.shift == roster[o].shift
    ensures Scheduled(roster, rs[o := rs[o] + [e]], d, done, popped + [o])
  {
    var rs' := rs[o := rs[o] + [e]];
    forall x | 0 <= x < |roster|
      ensures OnSchedule(rs'[x], roster[x].shift, if roster[x].shift in done || x in popped + [o] then d + 1 else d)
    {
      if x == o {
        assert OnSchedule(rs[x], roster[x].shift, d);
        assert rs'[x] == rs[x] + [e];
      }
    }
  }

  /** Serving the next operator of the queue keeps the schedule. */
  lemma ServeSchedule(roster: seq<Operator>, H: seq<string>, d: nat, q: nat, avail: seq<nat>, queue: seq<nat>,
                      rs: seq<seq<Entry>>, e: Entry)
    requires Distinct(H) && q < |H| && d < |Days| && Increasing(avail)
    requires forall k :: 0 <= k < |avail| ==> avail[k] < |roster| && roster[avail[k]].shift == H[q]
    requires queue != [] && |queue| <= |avail| && queue == avail[|avail| - |queue|..]
    requires Scheduled(roster, rs, d, H[..q], avail[..|avail| - |queue|])
    requires e.day == Days[d] && e.shift == H[q]
    ensures queue[1..] == avail[|avail| - |queue[1..]|..]
    ensures Scheduled(roster, rs[queue[0] := rs[queue[0]] + [e]], d, H[..q], avail[..|avail| - |queue[1..]|])
  {
    var j := |avail| - |queue|;
    var o := queue[0];
    assert o == avail[j];
    assert avail[..j + 1] == avail[..j] + [o];
    assert H[q] !in H[..q];
    assert o !in avail[..j];
    Stamp(roster, rs, d, H[..q], avail[..j], o, e);
  }

  /** Appending a placeholder changes no aggregate. */
  lemma AbsentEffect(rs: seq<seq<Entry>>, o: nat, day: string, shift: string)
    requires o < |rs|
    ensures forall pat :: Count(rs[o := rs[o] + [Absent(day, shift)]], pat) == Count(rs, pat)
    ensures forall pat :: Output(rs[o := rs[o] + [Absent(day, shift)]], pat) == Output(rs, pat)
    ensures forall D, sp :: Machines(rs[o := rs[o] + [Absent(day, shift)]], D, sp) == Machines(rs, D, sp)
  {
    AppendEffect(rs, o, Absent(day, shift));
  }

  /** Serving one operator of the queue on step i keeps the state of the shift. */
  lemma ServeKeeps(steps: seq<Step>, roster: seq<Operator>, H: seq<string>, d: nat, q: nat,
                   avail: seq<nat>, queue: seq<nat>, pl: Plan, mk: Marks, i: nat)
    requires Context(steps, roster, H, q, avail) && InShift(steps, roster, H, d, q, avail, queue, pl, mk)
    requires queue != [] && i < |steps| && pl.given[i] < steps[i].needed
    requires H[q] == Special ==> steps[i].machine !in mk.regular && mk.crew[i] < steps[i].limit
    requires H[q] != Special ==> steps[i].machine !in mk.special
    ensures InShift(steps, roster, H, d, q, avail, queue[1..],
                    Assign(steps, pl, i, queue[0], Days[d], H[q]), Mark(mk, H[q], i, steps[i].machine))
  {
    var day, h, o, m := Days[d], H[q], queue[0], steps[i].machine;
    var pl' := Assign(steps, pl, i, o, day, h);
    var mk' := Mark(mk, h, i, m);
    var j := |avail| - |queue|;
    assert o == avail[j];
    AssignLedger(steps, pl, i, o, day, h);
    var st := steps[i];
    var e := Working(day, h, st.machine, st.project, st.index + 1, Min(Capacity(st), pl.remaining[i]));
    assert pl'.records == pl.records[o := pl.records[o] + [e]];
    ServeSchedule(roster, H, d, q, avail, queue, pl.records, e);
    AssignPast(steps, pl, i, o, d, h);
    TodayKeeps(steps, H, q, day, pl, mk, i, o);
    AssignAbsences(steps, pl, i, o, day, h);
  }

  /** An assignment made today leaves the finished days as they were. */
  lemma AssignPast(steps: seq<Step>, pl: Plan, i: nat, o: nat, d: nat, h: string)
    requires WellFormed(steps) && Ledger(steps, pl) && i < |steps| && o < |pl.records|
    requires d < |Days| && PastDays(steps, pl.records, d)
    ensures PastDays(steps, Assign(steps, pl, i, o, Days[d], h).records, d)
  {
    AssignEffect(steps, pl, i, o, Days[d], h);
    LaterDay(steps, pl.records, Assign(steps, pl, i, o, Days[d], h).records, d, Days[d]);
  }

  /** Serving step i in shift H[q] keeps today's marks and slot counts. */
  lemma TodayKeeps(steps: seq<Step>, H: seq<string>, q: nat, day: string, pl: Plan, mk: Marks, i: nat, o: nat)
    requires WellFormed(steps) && Ledger(steps, pl) && Distinct(H) && q < |H|
    requires i < |steps| && o < |pl.records|
    requires Marked(steps, pl.records, day, mk)
    requires SlotsBounded(steps, pl.records, day, H[..q]) && SlotsQuiet(steps, pl.records, day, H[..q], H[q])
    requires H[q] == Special ==> steps[i].machine !in mk.regular && mk.crew[i] < steps[i].limit
    requires H[q] != Special ==> steps[i].machine !in mk.special
    ensures var rs' := Assign(steps, pl, i, o, day, H[q]).records;
      && Marked(steps, rs', day, Mark(mk, H[q], i, steps[i].machine))
      && SlotsBounded(steps, rs', day, H[..q]) && SlotsQuiet(steps, rs', day, H[..q], H[q])
  {
    var h := H[q];
    var rs' := Assign(steps, pl, i, o, day, h).records;
    var mk' := Mark(mk, h, i, steps[i].machine);
    AssignEffect(steps, pl, i, o, day, h);
    assert h !in H[..q];
    assert mk'.regular == Machines(rs', day, false);
    assert mk'.special == Machines(rs', day, true);
    forall x | 0 <= x < |steps|
      ensures mk'.crew[x] == Count(rs', SlotPat(steps[x], day, Special)) && mk'.crew[x] <= Cap(Special, steps[x])
    {
    }
    forall g, x | 0 <= x < |steps| && g in H[..q]
      ensures Count(rs', SlotPat(steps[x], day, g)) <= Cap(g, steps[x])
    {
      assert g != h;
    }
  }

  /** In a regular shift, serving the candidate at position t keeps "at most one operator per visited step". */
  lemma RegularKeeps(steps: seq<Step>, pl: Plan, i: nat, o: nat, day: string, h: string, cands: seq<nat>, t: nat)
    requires WellFormed(steps) && Ledger(steps, pl) && o < |pl.records|
    requires Increasing(cands) && t < |cands| && cands[t] == i && i < |steps|
    requires RegularBound(steps, pl.records, day, h, cands[..t])
    ensures RegularBound(steps, Assign(steps, pl, i, o, day, h).records, day, h, cands[..t + 1])
  {
    AssignEffect(steps, pl, i, o, day, h);
    assert cands[..t + 1] == cands[..t] + [i];
    assert i !in cands[..t];
  }

  /** A visited candidate that was not served keeps the bound. */
  lemma RegularSkip(steps: seq<Step>, records: seq<seq<Entry>>, day: string, h: string, cands: seq<nat>, t: nat)
    requires t < |cands| && RegularBound(steps, records, day, h, cands[..t])
    ensures RegularBound(steps, records, day, h, cands[..t + 1])
  {
    assert cands[..t + 1] == cands[..t] + [cands[t]];
  }

  // ---------------------------------------------------------------------------------------------
  // The loops

  /** A worked record is no placeholder. */
  lemma AssignAbsences(steps: seq<Step>, pl: Plan, i: nat, o: nat, day: string, shift: string)
    requires i < |steps| && i < |pl.given| && i < |pl.remaining| && o < |pl.records|
    ensures Absences(Assign(steps, pl, i, o, day, shift).records, day, shift) == Absences(pl.records, day, shift)
  {
    var st := steps[i];
    var e := Working(day, shift, st.machine, st.project, st.index + 1, Min(Capacity(st), pl.remaining[i]));
    AppendAbsences(pl.records, o, e, day, shift);
  }

  /** When a shift begins, its slot holds no record, and so no placeholder. */
  lemma SlotUntouched(roster: seq<Operator>, H: seq<string>, q: nat, d: nat, rs: seq<seq<Entry>>)
    requires Distinct(H) && q < |H| && d < |Days|
    requires Scheduled(roster, rs, d, H[..q], [])
    ensures Absences(rs, Days[d], H[q]) == 0
  {
    DaysDistinct();
    assert H[q] !in H[..q];
    forall o, k | 0 <= o < |rs| && 0 <= k < |rs[o]| ensures rs[o][k].day != Days[d] || rs[o][k].shift != H[q] {
      if roster[o].shift in H[..q] {
        assert OnSchedule(rs[o], roster[o].shift, d + 1);
      } else {
        assert OnSchedule(rs[o], roster[o].shift, d);
      }
    }
    NoAbsences(rs, Days[d], H[q]);
  }


  /**
   * Lines 146-158: staff step i's machine in shift "C" with operators from the queue while the
   * step's crew today is below its limit, the queue is not empty and the step still needs shifts.
   */
  method StaffMachine(steps: seq<Step>, roster: seq<Operator>, H: seq<string>, d: nat, q: nat,
                      avail: seq<nat>, queue0: seq<nat>, pl0: Plan, mk0: Marks, i: nat)
    returns (pl: Plan, mk: Marks, queue: seq<nat>)
    requires Context(steps, roster, H, q, avail) && H[q] == Special
    requires InShift(steps, roster, H, d, q, avail, queue0, pl0, mk0)
    requires i < |steps| && steps[i].machine !in mk0.regular
    ensures MachineStaffed(steps, roster, H, d, q, avail, queue0, pl0, mk0, i, queue, pl, mk)
  {
    pl, mk, queue := pl0, mk0, queue0;
    ghost var popped: seq<nat> := [];
    while mk.crew[i] < steps[i].limit && queue != [] && pl.given[i] < steps[i].needed
      invariant Staffing(steps, roster, H, d, q, avail, queue0, pl0, mk0, i, popped, queue, pl, mk)
      decreases |queue|
    {
      var o := queue[0];
      StaffOne(steps, roster, H, d, q, avail, queue0, pl0, mk0, i, popped, queue, pl, mk);
      popped := popped + [o];
      queue := queue[1..];
      pl := Assign(steps, pl, i, o, Days[d], H[q]);
      mk := Mark(mk, H[q], i, steps[i].machine);
    }
    assert popped == queue0[..|queue0| - |queue|];
  }

  /**
   * What staffing step i's machine in shift "C" achieves: the shift state is kept; the crew reached
   * the limit, or the queue or the step's need ran out; the operators taken are the head of the
   * queue, one shift and one crew member each, every one with a record producing the step's share
   * of its next shift; no other step and no regular machine changed.
   */
  ghost predicate MachineStaffed(steps: seq<Step>, roster: seq<Operator>, H: seq<string>, d: nat, q: nat, avail: seq<nat>,
                                 queue0: seq<nat>, pl0: Plan, mk0: Marks, i: nat, queue: seq<nat>, pl: Plan, mk: Marks) {
    && InShift(steps, roster, H, d, q, avail, queue, pl, mk)
    && i < |steps| && |pl0.given| == |steps| && |mk0.crew| == |steps| && d < |Days| && q < |H|
    && (mk.crew[i] >= steps[i].limit || queue == [] || pl.given[i] >= steps[i].needed)
    && |queue| <= |queue0| && queue == queue0[|queue0| - |queue|..]
    && StaffedBy(steps[i], Days[d], H[q], pl0.given[i], pl0.records, pl.records, queue0[..|queue0| - |queue|])
    && pl.given[i] + |queue| == pl0.given[i] + |queue0| && mk.crew[i] + |queue| == mk0.crew[i] + |queue0|
    && (forall j :: 0 <= j < |steps| && j != i ==> pl.given[j] == pl0.given[j])
    && mk.regular == mk0.regular && (forall j :: 0 <= j < |steps| && j != i ==> mk.crew[j] == mk0.crew[j])
  }

  /** The state of the loop that staffs step i's machine in shift "C", with `popped` the operators it took from `queue0`. */
  ghost predicate Staffing(steps: seq<Step>, roster: seq<Operator>, H: seq<string>, d: nat, q: nat, avail: seq<nat>,
                           queue0: seq<nat>, pl0: Plan, mk0: Marks, i: nat, popped: seq<nat>, queue: seq<nat>, pl: Plan, mk: Marks) {
    && InShift(steps, roster, H, d, q, avail, queue, pl, mk)
    && i < |steps| && steps[i].machine !in mk.regular && mk.regular == mk0.regular
    && |pl0.given| == |steps| && |mk0.crew| == |steps|
    && queue0 == popped + queue
    && StaffedBy(steps[i], Days[d], H[q], pl0.given[i], pl0.records, pl.records, popped)
    && pl.given[i] + |queue| == pl0.given[i] + |queue0| && mk.crew[i] + |queue| == mk0.crew[i] + |queue0|
    && (forall j :: 0 <= j < |steps| && j != i ==> pl.given[j] == pl0.given[j])
    && (forall j :: 0 <= j < |steps| && j != i ==> mk.crew[j] == mk0.crew[j])
  }

  /** One round of the staffing loop keeps its state. */
  lemma StaffOne(steps: seq<Step>, roster: seq<Operator>, H: seq<string>, d: nat, q: nat, avail: seq<nat>,
                 queue0: seq<nat>, pl0: Plan, mk0: Marks, i: nat, popped: seq<nat>, queue: seq<nat>, pl: Plan, mk: Marks)
    requires Context(steps, roster, H, q, avail) && H[q] == Special
    requires Staffing(steps, roster, H, d, q, avail, queue0, pl0, mk0, i, popped, queue, pl, mk)
    requires |queue0| <= |avail| && queue0 == avail[|avail| - |queue0|..]
    requires mk.crew[i] < steps[i].limit && queue != [] && pl.given[i] < steps[i].needed
    ensures Staffing(steps, roster, H, d, q, avail, queue0, pl0, mk0, i, popped + [queue[0]], queue[1..],
                     Assign(steps, pl, i, queue[0], Days[d], H[q]), Mark(mk, H[q], i, steps[i].machine))
  {
    var o := queue[0];
    PopFresh(avail, queue0, popped, queue);
    StaffedStep(steps, pl0.given[i], pl0.records, pl, popped, i, o, Days[d], H[q]);
    ServeKeeps(steps, roster, H, d, q, avail, queue, pl, mk, i);
  }

  /** The head of a queue cut from increasing operators was not popped before. */
  lemma PopFresh(avail: seq<nat>, queue0: seq<nat>, popped: seq<nat>, queue: seq<nat>)
    requires Increasing(avail) && |queue0| <= |avail| && queue0 == avail[|avail| - |queue0|..]
    requires queue != [] && queue0 == popped + queue
    ensures queue[0] !in popped
    ensures queue0 == (popped + [queue[0]]) + queue[1..]
  {
    var k := |avail| - |queue0|;
    assert queue[0] == queue0[|popped|] == avail[k + |popped|];
    forall j | 0 <= j < |popped| ensures popped[j] != queue[0] {
      assert popped[j] == queue0[j] == avail[k + j];
    }
  }

  /** One more operator staffs step i: its record produces the step's share of the next shift. */
  lemma StaffedStep(steps: seq<Step>, n0: nat, rs0: seq<seq<Entry>>, pl: Plan, popped: seq<nat>,
                    i: nat, o: nat, day: string, h: string)
    requires Ledger(steps, pl) && i < |steps| && o < |pl.records| && o !in popped
    requires pl.given[i] == n0 + |popped|
    requires StaffedBy(steps[i], day, h, n0, rs0, pl.records, popped)
    ensures StaffedBy(steps[i], day, h, n0, rs0, Assign(steps, pl, i, o, day, h).records, popped + [o])
  {
    var st := steps[i];
    var rs' := Assign(steps, pl, i, o, day, h).records;
    assert Min(Capacity(st), pl.remaining[i]) == Share(st, n0 + |popped|);
    forall j | 0 <= j < |popped| + 1
      ensures (popped + [o])[j] < |rs'| && rs'[(popped + [o])[j]] ==
              rs0[(popped + [o])[j]] + [Working(day, h, st.machine, st.project, st.index + 1, Share(st, n0 + j))]
    {
      if j < |popped| {
        assert (popped + [o])[j] == popped[j] != o;
      }
    }
  }

  /**
   * Lines 176-182: every operator of the shift that has no record for today's slot gets the
   * placeholder; the served operators already have theirs.
   */
  method FillAbsent(ghost steps: seq<Step>, roster: seq<Operator>, H: seq<string>, d: nat, q: nat, avail: seq<nat>,
                    pl0: Plan, ghost served: nat)
    returns (pl: Plan)
    requires Distinct(H) && q < |H| && d < |Days| && Increasing(avail)
    requires forall k :: 0 <= k < |avail| ==> avail[k] < |roster| && roster[avail[k]].shift == H[q]
    requires served <= |avail| && Scheduled(roster, pl0.records, d, H[..q], avail[..served])
    requires Produces(steps, pl0.records)
    ensures pl.given == pl0.given && pl.remaining == pl0.remaining
    ensures Scheduled(roster, pl.records, d, H[..q], avail)
    ensures Produces(steps, pl.records)
    ensures forall pat :: Count(pl.records, pat) == Count(pl0.records, pat) && Output(pl.records, pat) == Output(pl0.records, pat)
    ensures forall D, sp :: Machines(pl.records, D, sp) == Machines(pl0.records, D, sp)
    ensures Absences(pl.records, Days[d], H[q]) == Absences(pl0.records, Days[d], H[q]) + (|avail| - served)
    ensures FillShape(avail, pl0.records, pl.records, served, |avail|, Days[d], H[q])
  {
    pl := FillAll(steps, roster, H, d, q, avail, pl0, served);
    assert avail[..|avail|] == avail;
  }

  /** The loop of `FillAbsent`, over the shift's operators in roster order. */
  method FillAll(ghost steps: seq<Step>, roster: seq<Operator>, H: seq<string>, d: nat, q: nat, avail: seq<nat>,
                 pl0: Plan, ghost served: nat)
    returns (pl: Plan)
    requires Distinct(H) && q < |H| && d < |Days| && Increasing(avail)
    requires forall k :: 0 <= k < |avail| ==> avail[k] < |roster| && roster[avail[k]].shift == H[q]
    requires served <= |avail| && Scheduled(roster, pl0.records, d, H[..q], avail[..served])
    requires Produces(steps, pl0.records)
    ensures Filling(steps, roster, H, d, q, avail, pl0, served, |avail|, pl)
  {
    pl := pl0;
    for t := 0 to |avail|
      invariant Filling(steps, roster, H, d, q, avail, pl0, served, t, pl)
    {
      pl := FillOne(steps, roster, H, d, q, avail, pl0, served, t, pl);
    }
  }

  /** One round of the loop of `FillAbsent`: the placeholder for operator avail[t] if it has no record in the slot. */
  method FillOne(ghost steps: seq<Step>, roster: seq<Operator>, H: seq<string>, d: nat, q: nat, avail: seq<nat>,
                 ghost pl0: Plan, ghost served: nat, t: nat, pl: Plan)
    returns (pl': Plan)
    requires Distinct(H) && q < |H| && d < |Days| && Increasing(avail) && t < |avail| && served <= |avail|
    requires forall k :: 0 <= k < |avail| ==> avail[k] < |roster| && roster[avail[k]].shift == H[q]
    requires Filling(steps, roster, H, d, q, avail, pl0, served, t, pl)
    ensures Filling(steps, roster, H, d, q, avail, pl0, served, t + 1, pl')
  {
    var o := avail[t];
    FillNext(steps, roster, H, d, q, avail, pl0, served, t, pl);
    pl' := pl;
    if SlotRecords(pl.records[o], Days[d], H[q]) == [] {
      pl' := pl.(records := pl.records[o := pl.records[o] + [Absent(Days[d], H[q])]]);
    }
    assert pl'.records == Filled(pl.records, o, Days[d], H[q]);
  }

  /** The state of the absent fill after it has passed the first t operators of the shift. */
  ghost predicate Filling(steps: seq<Step>, roster: seq<Operator>, H: seq<string>, d: nat, q: nat, avail: seq<nat>,
                          pl0: Plan, served: nat, t: nat, pl: Plan) {
    && q < |H| && d < |Days| && served <= |avail| && t <= |avail|
    && pl.given == pl0.given && pl.remaining == pl0.remaining
    && Scheduled(roster, pl.records, d, H[..q], avail[..if t < served then served else t])
    && Produces(steps, pl.records)
    && (forall pat :: Count(pl.records, pat) == Count(pl0.records, pat) && Output(pl.records, pat) == Output(pl0.records, pat))
    && (forall D, sp :: Machines(pl.records, D, sp) == Machines(pl0.records, D, sp))
    && Absences(pl.records, Days[d], H[q]) == Absences(pl0.records, Days[d], H[q]) + (if t < served then 0 else t - served)
    && FillShape(avail, pl0.records, pl.records, served, t, Days[d], H[q])
  }

  /** Filling operator avail[t] keeps the state of the absent fill. */
  lemma FillNext(steps: seq<Step>, roster: seq<Operator>, H: seq<string>, d: nat, q: nat, avail: seq<nat>,
                 pl0: Plan, served: nat, t: nat, pl: Plan)
    requires Distinct(H) && q < |H| && d < |Days| && Increasing(avail) && t < |avail| && served <= |avail|
    requires forall k :: 0 <= k < |avail| ==> avail[k] < |roster| && roster[avail[k]].shift == H[q]
    requires Filling(steps, roster, H, d, q, avail, pl0, served, t, pl)
    ensures avail[t] < |pl.records|
    ensures Filling(steps, roster, H, d, q, avail, pl0, served, t + 1, pl.(records := Filled(pl.records, avail[t], Days[d], H[q])))
  {
    FillStep(steps, roster, H, d, q, avail, pl.records, served, t);
    FillAbsences(roster, H, d, q, avail, pl.records, served, t);
    FillShapeStep(avail, pl0.records, pl.records, served, t, Days[d], H[q]);
  }

  /**
   * The records after the absent fill has passed the first t operators of the shift: the operators
   * of the shift from position `served` up to t got the placeholder, and no other list changed.
   */
  ghost predicate FillShape(avail: seq<nat>, rs0: seq<seq<Entry>>, rs: seq<seq<Entry>>, served: nat, t: nat, day: string, h: string) {
    && |rs| == |rs0|
    && (forall k :: 0 <= k < |avail| ==> avail[k] < |rs0|)
    && (forall k {:trigger rs0[avail[k]]} :: 0 <= k < |avail| ==> rs[avail[k]] == if served <= k < t then rs0[avail[k]] + [Absent(day, h)] else rs0[avail[k]])
    && (forall o {:trigger rs0[o]} :: 0 <= o < |rs0| && o !in avail ==> rs[o] == rs0[o])
  }

  lemma FillShapeStep(avail: seq<nat>, rs0: seq<seq<Entry>>, rs: seq<seq<Entry>>, served: nat, t: nat, day: string, h: string)
    requires Increasing(avail) && t < |avail| && FillShape(avail, rs0, rs, served, t, day, h)
    ensures FillShape(avail, rs0, if t < served then rs else rs[avail[t] := rs[avail[t]] + [Absent(day, h)]], served, t + 1, day, h)
  {
    if served <= t {
      forall k | 0 <= k < |avail| && k != t ensures avail[k] != avail[t] {
        if k < t { assert avail[k] < avail[t]; } else { assert avail[t] < avail[k]; }
      }
    }
  }

  /** What `FillAbsent` does to the operator at position t of the shift's operators. */
  function Filled(rs: seq<seq<Entry>>, o: nat, day: string, h: string): seq<seq<Entry>>
    requires o < |rs|
  {
    if SlotRecords(rs[o], day, h) == [] then rs[o := rs[o] + [Absent(day, h)]] else rs
  }

  lemma FillStep(steps: seq<Step>, roster: seq<Operator>, H: seq<string>, d: nat, q: nat, avail: seq<nat>,
                 rs: seq<seq<Entry>>, served: nat, t: nat)
    requires Distinct(H) && q < |H| && d < |Days| && Increasing(avail) && t < |avail|
    requires forall k :: 0 <= k < |avail| ==> avail[k] < |roster| && roster[avail[k]].shift == H[q]
    requires served <= |avail| && Scheduled(roster, rs, d, H[..q], avail[..if t < served then served else t])
    requires Produces(steps, rs)
    ensures var rs' := Filled(rs, avail[t], Days[d], H[q]);
      && Scheduled(roster, rs', d, H[..q], avail[..if t + 1 < served then served else t + 1])
      && Produces(steps, rs')
      && (forall pat :: Count(rs', pat) == Count(rs, pat) && Output(rs', pat) == Output(rs, pat))
      && (forall D, sp :: Machines(rs', D, sp) == Machines(rs, D, sp))
      && rs' == if t < served then rs else rs[avail[t] := rs[avail[t]] + [Absent(Days[d], H[q])]]
  {
    var o := avail[t];
    var done := avail[..if t < served then served else t];
    DaysDistinct();
    assert H[q] !in H[..q];
    SlotRecordsEmpty(rs[o], Days[d], H[q]);
    if t < served {
      assert o in done;
      var r := rs[o];
      assert OnSchedule(r, H[q], d + 1);
      assert r[d].day == Days[d] && r[d].shift == H[q];
      assert avail[..if t + 1 < served then served else t + 1] == done;
    } else {
      assert o !in done;
      assert OnSchedule(rs[o], H[q], d);
      AbsentEffect(rs, o, Days[d], H[q]);
      Stamp(roster, rs, d, H[..q], done, o, Absent(Days[d], H[q]));
      assert avail[..t + 1] == done + [o];
      var rs': seq<seq<Entry>> := rs[o := rs[o] + [Absent(Days[d], H[q])]];
      forall x: int, k: int | 0 <= x < |rs'| && 0 <= k < |rs'[x]| && rs'[x][k].Working?
        ensures rs'[x][k].produced >= 0.0
        ensures forall i :: 0 <= i < |steps| && Matches(rs'[x][k], StepPat(steps[i])) ==> ShiftShare(steps[i], rs'[x][k].produced)
      {
        assert rs'[x][k] == rs[x][k];
      }
    }
  }

  /** Filling operator avail[t] adds a placeholder to the slot exactly when that operator was not served. */
  lemma FillAbsences(roster: seq<Operator>, H: seq<string>, d: nat, q: nat, avail: seq<nat>,
                     rs: seq<seq<Entry>>, served: nat, t: nat)
    requires Distinct(H) && q < |H| && d < |Days| && Increasing(avail) && t < |avail|
    requires forall k :: 0 <= k < |avail| ==> avail[k] < |roster| && roster[avail[k]].shift == H[q]
    requires served <= |avail| && Scheduled(roster, rs, d, H[..q], avail[..if t < served then served else t])
    ensures Absences(Filled(rs, avail[t], Days[d], H[q]), Days[d], H[q])
            == Absences(rs, Days[d], H[q]) + (if t < served then 0 else 1)
  {
    var o := avail[t];
    var done := avail[..if t < served then served else t];
    DaysDistinct();
    assert H[q] !in H[..q];
    SlotRecordsEmpty(rs[o], Days[d], H[q]);
    if t < served {
      assert o in done;
      assert OnSchedule(rs[o], H[q], d + 1);
      assert rs[o][d].day == Days[d] && rs[o][d].shift == H[q];
    } else {
      assert o !in done;
      assert OnSchedule(rs[o], H[q], d);
      AppendAbsences(rs, o, Absent(Days[d], H[q]), Days[d], H[q]);
    }
  }

  /** At the start of shift H[q] every operator of the shift is available, and the shift state holds. */
  lemma ShiftOpens(steps: seq<Step>, roster: seq<Operator>, H: seq<string>, d: nat, q: nat, pl: Plan, mk: Marks)
    requires WellFormed(steps) && Distinct(H) && q < |H| && (forall o :: 0 <= o < |roster| ==> roster[o].shift in H)
    requires InDay(steps, roster, H, d, q, pl, mk)
    ensures var avail := Available(roster, pl.records, H[q], |H|, |roster|);
      && Context(steps, roster, H, q, avail)
      && InShift(steps, roster, H, d, q, avail, avail, pl, mk)
      && (forall o :: 0 <= o < |roster| && roster[o].shift == H[q] ==> o in avail)
      && (forall i :: 0 <= i < |steps| ==> Count(pl.records, SlotPat(steps[i], Days[d], H[q])) == 0)
  {
    var avail := Available(roster, pl.records, H[q], |H|, |roster|);
    assert H[q] !in H[..q];
    forall o | 0 <= o < |roster| && roster[o].shift == H[q] ensures o in avail {
      assert OnSchedule(pl.records[o], roster[o].shift, d);
      assert |Days| * |H| >= |Days|;
    }
    assert avail[..0] == [];
    SlotUntouched(roster, H, q, d, pl.records);
  }

  /**
   * After the visits (state `pv`) and the absent fill (state `pl`, which changed no aggregate),
   * every operator of shift H[q] has its record and the slot counts are capped: the next shift may start.
   */
  lemma ShiftCloses(steps: seq<Step>, roster: seq<Operator>, H: seq<string>, d: nat, q: nat, avail: seq<nat>,
                    queue: seq<nat>, pv: Plan, pl: Plan, mk: Marks)
    requires Context(steps, roster, H, q, avail) && InShift(steps, roster, H, d, q, avail, queue, pv, mk)
    requires forall o :: 0 <= o < |roster| && roster[o].shift == H[q] ==> o in avail
    requires forall i :: 0 <= i < |steps| ==> Count(pv.records, SlotPat(steps[i], Days[d], H[q])) <= Cap(H[q], steps[i])
    requires pl.given == pv.given && pl.remaining == pv.remaining
    requires Scheduled(roster, pl.records, d, H[..q], avail) && Produces(steps, pl.records)
    requires forall pat :: Count(pl.records, pat) == Count(pv.records, pat) && Output(pl.records, pat) == Output(pv.records, pat)
    requires forall D, sp :: Machines(pl.records, D, sp) == Machines(pv.records, D, sp)
    ensures InDay(steps, roster, H, d, q + 1, pl, mk)
  {
    ShiftScheduled(roster, H, d, q, avail, pl.records);
    Transfer(steps, pv, pl, d, mk);
    assert H[..q + 1] == H[..q] + [H[q]];
    forall g, i | 0 <= i < |steps| && g in H[..q + 1]
      ensures Count(pl.records, SlotPat(steps[i], Days[d], g)) <= Cap(g, steps[i])
    {
    }
    forall g, i | 0 <= i < |steps| && g !in H[..q + 1]
      ensures Count(pl.records, SlotPat(steps[i], Days[d], g)) == 0
    {
    }
  }

  lemma ShiftScheduled(roster: seq<Operator>, H: seq<string>, d: nat, q: nat, avail: seq<nat>, rs: seq<seq<Entry>>)
    requires q < |H|
    requires forall k :: 0 <= k < |avail| ==> avail[k] < |roster| && roster[avail[k]].shift == H[q]
    requires forall o :: 0 <= o < |roster| && roster[o].shift == H[q] ==> o in avail
    requires Scheduled(roster, rs, d, H[..q], avail)
    ensures Scheduled(roster, rs, d, H[..q + 1], [])
  {
    assert H[..q + 1] == H[..q] + [H[q]];
    forall o | 0 <= o < |roster|
      ensures OnSchedule(rs[o], roster[o].shift, if roster[o].shift in H[..q + 1] || o in [] then d + 1 else d)
    {
      if roster[o].shift == H[q] {
        assert o in avail;
      } else {
        assert o !in avail;
        assert roster[o].shift in H[..q + 1] <==> roster[o].shift in H[..q];
      }
    }
  }

  /** A state with the same counters and the same aggregates satisfies the same record invariants. */
  lemma Transfer(steps: seq<Step>, pv: Plan, pl: Plan, d: nat, mk: Marks)
    requires d < |Days|
    requires pl.given == pv.given && pl.remaining == pv.remaining
    requires forall pat :: Count(pl.records, pat) == Count(pv.records, pat) && Output(pl.records, pat) == Output(pv.records, pat)
    requires forall D, sp :: Machines(pl.records, D, sp) == Machines(pv.records, D, sp)
    requires Ledger(steps, pv) && PastDays(steps, pv.records, d) && Marked(steps, pv.records, Days[d], mk)
    ensures Ledger(steps, pl) && PastDays(steps, pl.records, d) && Marked(steps, pl.records, Days[d], mk)
  {
  }

  /**
   * Lines 133-174: visit the candidates in order; a "C" visit staffs the step's machine with as
   * many operators as its limit allows unless a regular shift used the machine today, a regular
   * visit gives the step one operator unless shift "C" used the machine today. The operators go
   * from the front of the queue to the candidates in visiting order (`took[k]` is the step of the
   * k-th, at candidate position `at[k]`), each with a record producing its step's share of the
   * shift; while operators are left, every candidate is settled.
   */
  method VisitCandidates(steps: seq<Step>, roster: seq<Operator>, H: seq<string>, d: nat, q: nat,
                         avail: seq<nat>, cands: seq<nat>, pl0: Plan, mk0: Marks)
    returns (pl: Plan, mk: Marks, queue: seq<nat>, ghost took: seq<nat>, ghost at: seq<nat>)
    requires Context(steps, roster, H, q, avail) && InShift(steps, roster, H, d, q, avail, avail, pl0, mk0)
    requires forall k :: 0 <= k < |cands| ==> cands[k] < |steps|
    requires forall a, b :: 0 <= a < b < |cands| ==> cands[a] != cands[b]
    requires H[q] != Special ==> Increasing(cands) && RegularBound(steps, pl0.records, Days[d], H[q], [])
    ensures InShift(steps, roster, H, d, q, avail, queue, pl, mk)
    ensures H[q] != Special ==> RegularBound(steps, pl.records, Days[d], H[q], cands)
    ensures ShiftServed(steps, pl0, pl, Days[d], H[q], avail[..|avail| - |queue|], took)
    ensures VisitOrder(cands, |cands|, took, at)
    ensures forall j :: 0 <= j < |steps| ==> pl0.given[j] <= pl.given[j]
    ensures forall j :: 0 <= j < |steps| && j !in cands ==> pl.given[j] == pl0.given[j]
    ensures forall u :: 0 <= u < |cands| ==> queue == [] || Settled(steps, pl, Days[d], H[q], cands[u])
    ensures forall u, v :: 0 <= u < v < |cands| && pl.given[cands[v]] > pl0.given[cands[v]] ==>
              Settled(steps, pl, Days[d], H[q], cands[u])
  {
    VisitOpens(steps, roster, H, d, q, avail, cands, pl0, mk0);
    pl, mk, queue, took, at := VisitAll(steps, roster, H, d, q, avail, cands, pl0, mk0);
    VisitCloses(steps, roster, H, d, q, avail, cands, pl0, queue, pl, mk, took, at);
  }

  /** The loop over the candidates, from the state of the shift's start to the state after all of them. */
  method VisitAll(steps: seq<Step>, roster: seq<Operator>, H: seq<string>, d: nat, q: nat,
                  avail: seq<nat>, cands: seq<nat>, pl0: Plan, mk0: Marks)
    returns (pl: Plan, mk: Marks, queue: seq<nat>, ghost took: seq<nat>, ghost at: seq<nat>)
    requires Context(steps, roster, H, q, avail)
    requires Visiting(steps, roster, H, d, q, avail, cands, pl0, 0, avail, pl0, mk0, [], [])
    ensures Visiting(steps, roster, H, d, q, avail, cands, pl0, |cands|, queue, pl, mk, took, at)
  {
    pl, mk, queue, took, at := pl0, mk0, avail, [], [];
    for t := 0 to |cands|
      invariant Visiting(steps, roster, H, d, q, avail, cands, pl0, t, queue, pl, mk, took, at)
    {
      pl, mk, queue, took, at := Visit(steps, roster, H, d, q, avail, cands, pl0, t, queue, pl, mk, took, at);
    }
  }

  lemma VisitCloses(steps: seq<Step>, roster: seq<Operator>, H: seq<string>, d: nat, q: nat, avail: seq<nat>,
                    cands: seq<nat>, pl0: Plan, queue: seq<nat>, pl: Plan, mk: Marks, took: seq<nat>, at: seq<nat>)
    requires Visiting(steps, roster, H, d, q, avail, cands, pl0, |cands|, queue, pl, mk, took, at)
    ensures InShift(steps, roster, H, d, q, avail, queue, pl, mk)
    ensures H[q] != Special ==> RegularBound(steps, pl.records, Days[d], H[q], cands)
    ensures ShiftServed(steps, pl0, pl, Days[d], H[q], avail[..|avail| - |queue|], took)
    ensures VisitOrder(cands, |cands|, took, at)
    ensures forall j :: 0 <= j < |steps| ==> pl0.given[j] <= pl.given[j]
    ensures forall j :: 0 <= j < |steps| && j !in cands ==> pl.given[j] == pl0.given[j]
    ensures forall u :: 0 <= u < |cands| ==> queue == [] || Settled(steps, pl, Days[d], H[q], cands[u])
    ensures forall u, v :: 0 <= u < v < |cands| && pl.given[cands[v]] > pl0.given[cands[v]] ==>
              Settled(steps, pl, Days[d], H[q], cands[u])
  {
    assert cands[..|cands|] == cands;
  }

  /**
   * Lines 137-173 for the candidate at position t: a step still short of shifts gets its machine
   * staffed in shift "C" unless a regular shift used it today, and one operator in another shift
   * unless shift "C" used the machine today or no operator is left.
   */
  method Visit(steps: seq<Step>, roster: seq<Operator>, H: seq<string>, d: nat, q: nat, avail: seq<nat>,
               cands: seq<nat>, pl0: Plan, t: nat, queue0: seq<nat>, plv: Plan, mkv: Marks,
               ghost took0: seq<nat>, ghost at0: seq<nat>)
    returns (pl: Plan, mk: Marks, queue: seq<nat>, ghost took: seq<nat>, ghost at: seq<nat>)
    requires Context(steps, roster, H, q, avail)
    requires Visiting(steps, roster, H, d, q, avail, cands, pl0, t, queue0, plv, mkv, took0, at0) && t < |cands|
    ensures Visiting(steps, roster, H, d, q, avail, cands, pl0, t + 1, queue, pl, mk, took, at)
  {
    pl, mk, queue, took, at := plv, mkv, queue0, took0, at0;
    var i, h := cands[t], H[q];
    var m := steps[i].machine;
    if pl.given[i] < steps[i].needed && h == Special && m !in mk.regular {
      pl, mk, queue, took, at := VisitMachine(steps, roster, H, d, q, avail, cands, pl0, t, queue, pl, mk, took, at);
    } else if pl.given[i] < steps[i].needed && h != Special && m !in mk.special && queue != [] {
      var o := queue[0];
      VisitServed(steps, roster, H, d, q, avail, cands, pl0, t, queue, pl, mk, took0, at0);
      queue := queue[1..];
      pl := Assign(steps, pl, i, o, Days[d], h);
      mk := Mark(mk, h, i, m);
      took, at := took0 + Repeat(i, 1), at0 + Repeat(t, 1);
    } else {
      VisitSkipped(steps, roster, H, d, q, avail, cands, pl0, t, queue, pl, mk, took, at);
    }
  }

  /** A "C" visit to a step whose machine no regular shift used today: staff the machine. */
  method VisitMachine(steps: seq<Step>, roster: seq<Operator>, H: seq<string>, d: nat, q: nat, avail: seq<nat>,
                      cands: seq<nat>, pl0: Plan, t: nat, queue0: seq<nat>, plv: Plan, mkv: Marks,
                      ghost took0: seq<nat>, ghost at0: seq<nat>)
    returns (pl: Plan, mk: Marks, queue: seq<nat>, ghost took: seq<nat>, ghost at: seq<nat>)
    requires Context(steps, roster, H, q, avail) && H[q] == Special
    requires Visiting(steps, roster, H, d, q, avail, cands, pl0, t, queue0, plv, mkv, took0, at0) && t < |cands|
    requires steps[cands[t]].machine !in mkv.regular
    ensures Visiting(steps, roster, H, d, q, avail, cands, pl0, t + 1, queue, pl, mk, took, at)
  {
    pl, mk, queue := StaffMachine(steps, roster, H, d, q, avail, queue0, plv, mkv, cands[t]);
    VisitStaffed(steps, roster, H, d, q, avail, cands, pl0, t, queue0, plv, mkv, took0, at0, queue, pl, mk);
    took, at := took0 + Repeat(cands[t], |queue0| - |queue|), at0 + Repeat(t, |queue0| - |queue|);
  }

  /** The state of the candidate loop after the first t candidates, with `took` and `at` as in VisitCandidates. */
  ghost predicate Visiting(steps: seq<Step>, roster: seq<Operator>, H: seq<string>, d: nat, q: nat, avail: seq<nat>,
                           cands: seq<nat>, pl0: Plan, t: nat, queue: seq<nat>, pl: Plan, mk: Marks,
                           took: seq<nat>, at: seq<nat>) {
    && InShift(steps, roster, H, d, q, avail, queue, pl, mk)
    && t <= |cands| && (forall k :: 0 <= k < |cands| ==> cands[k] < |steps|)
    && (H[q] != Special ==> Increasing(cands) && RegularBound(steps, pl.records, Days[d], H[q], cands[..t]))
    && ShiftServed(steps, pl0, pl, Days[d], H[q], avail[..|avail| - |queue|], took)
    && VisitOrder(cands, t, took, at)
    && (forall a, b :: 0 <= a < b < |cands| ==> cands[a] != cands[b])
    && Priority(steps, pl0, pl, Days[d], H[q], cands, t, queue)
  }

  /**
   * The queue went to the earlier candidates first: only the first t candidates were given shifts,
   * and each of them is settled unless the queue was empty from its visit on, so that no later
   * candidate got an operator.
   */
  ghost predicate Priority(steps: seq<Step>, pl0: Plan, pl: Plan, day: string, h: string, cands: seq<nat>, t: nat, queue: seq<nat>) {
    && t <= |cands| && |pl.given| == |steps| && |pl0.given| == |steps|
    && (forall j :: 0 <= j < |steps| && j !in cands[..t] ==> pl.given[j] == pl0.given[j])
    && (forall u :: 0 <= u < t ==>
          Settled(steps, pl, day, h, cands[u]) || (queue == [] && Untouched(pl0, pl, cands, u, t)))
  }

  /** One visit keeps `Priority`, given what it did to the counters and the settled steps. */
  lemma PriorityStep(steps: seq<Step>, pl0: Plan, pl: Plan, pl': Plan, day: string, h: string, cands: seq<nat>, t: nat,
                     queue: seq<nat>, queue': seq<nat>)
    requires t < |cands| && cands[t] !in cands[..t] && cands[..t + 1] == cands[..t] + [cands[t]]
    requires Priority(steps, pl0, pl, day, h, cands, t, queue) && |pl'.given| == |steps|
    requires forall j :: 0 <= j < |steps| && j != cands[t] ==> pl'.given[j] == pl.given[j]
    requires queue == [] ==> queue' == [] && forall j :: 0 <= j < |steps| ==> pl'.given[j] == pl.given[j]
    requires forall u :: 0 <= u < t && Settled(steps, pl, day, h, cands[u]) ==> Settled(steps, pl', day, h, cands[u])
    requires queue' == [] || Settled(steps, pl', day, h, cands[t])
    ensures Priority(steps, pl0, pl', day, h, cands, t + 1, queue')
  {
    forall u | 0 <= u < t + 1
      ensures Settled(steps, pl', day, h, cands[u]) || (queue' == [] && Untouched(pl0, pl', cands, u, t + 1))
    {
      if u < t && !Settled(steps, pl, day, h, cands[u]) {
        assert Untouched(pl0, pl, cands, u, t);
      }
    }
  }

  /** The candidates at positions u + 1 .. t - 1 have been given no shift since `pl0`. */
  ghost predicate Untouched(pl0: Plan, pl: Plan, cands: seq<nat>, u: nat, t: nat) {
    forall v :: u < v < t && v < |cands| && cands[v] < |pl.given| && cands[v] < |pl0.given| ==>
      pl.given[cands[v]] == pl0.given[cands[v]]
  }

  lemma VisitOpens(steps: seq<Step>, roster: seq<Operator>, H: seq<string>, d: nat, q: nat,
                   avail: seq<nat>, cands: seq<nat>, pl0: Plan, mk0: Marks)
    requires Context(steps, roster, H, q, avail) && InShift(steps, roster, H, d, q, avail, avail, pl0, mk0)
    requires forall k :: 0 <= k < |cands| ==> cands[k] < |steps|
    requires forall a, b :: 0 <= a < b < |cands| ==> cands[a] != cands[b]
    requires H[q] != Special ==> Increasing(cands) && RegularBound(steps, pl0.records, Days[d], H[q], [])
    ensures Visiting(steps, roster, H, d, q, avail, cands, pl0, 0, avail, pl0, mk0, [], [])
  {
    assert cands[..0] == [];
    assert avail[..|avail| - |avail|] == [];
  }

  /** A candidate visited without an assignment is settled, unless no operator is left. */
  lemma VisitSkipped(steps: seq<Step>, roster: seq<Operator>, H: seq<string>, d: nat, q: nat, avail: seq<nat>,
                     cands: seq<nat>, pl0: Plan, t: nat, queue: seq<nat>, pl: Plan, mk: Marks, took: seq<nat>, at: seq<nat>)
    requires Visiting(steps, roster, H, d, q, avail, cands, pl0, t, queue, pl, mk, took, at) && t < |cands|
    requires var i := cands[t];
      || pl.given[i] >= steps[i].needed
      || (H[q] == Special && steps[i].machine in mk.regular)
      || (H[q] != Special && (steps[i].machine in mk.special || queue == []))
    ensures Visiting(steps, roster, H, d, q, avail, cands, pl0, t + 1, queue, pl, mk, took, at)
  {
    if H[q] != Special {
      RegularSkip(steps, pl.records, Days[d], H[q], cands, t);
    }
    FreshCandidate(cands, t);
    PriorityStep(steps, pl0, pl, pl, Days[d], H[q], cands, t, queue, queue);
  }

  /** No candidate is visited twice: the one at position t is not among the first t. */
  lemma FreshCandidate(cands: seq<nat>, t: nat)
    requires t < |cands| && forall a, b :: 0 <= a < b < |cands| ==> cands[a] != cands[b]
    ensures cands[t] !in cands[..t]
    ensures cands[..t + 1] == cands[..t] + [cands[t]]
  {
  }

  /** A regular visit that takes the next operator settles the candidate. */
  lemma VisitServed(steps: seq<Step>, roster: seq<Operator>, H: seq<string>, d: nat, q: nat, avail: seq<nat>,
                    cands: seq<nat>, pl0: Plan, t: nat, queue: seq<nat>, pl: Plan, mk: Marks, took: seq<nat>, at: seq<nat>)
    requires Context(steps, roster, H, q, avail)
    requires Visiting(steps, roster, H, d, q, avail, cands, pl0, t, queue, pl, mk, took, at) && t < |cands|
    requires H[q] != Special && queue != []
    requires pl.given[cands[t]] < steps[cands[t]].needed && steps[cands[t]].machine !in mk.special
    ensures var i := cands[t];
      Visiting(steps, roster, H, d, q, avail, cands, pl0, t + 1, queue[1..],
               Assign(steps, pl, i, queue[0], Days[d], H[q]), Mark(mk, H[q], i, steps[i].machine),
               took + Repeat(i, 1), at + Repeat(t, 1))
  {
    var i, o, day, h := cands[t], queue[0], Days[d], H[q];
    ServeKeeps(steps, roster, H, d, q, avail, queue, pl, mk, i);
    RegularKeeps(steps, pl, i, o, day, h, cands, t);
    OrderStep(cands, t, took, at, 1);
    ServedRecords(steps, avail, pl0, pl, day, h, queue, i, took);
    ServedSettled(steps, pl, i, o, day, h, cands, t, queue);
    FreshCandidate(cands, t);
    PriorityStep(steps, pl0, pl, Assign(steps, pl, i, o, day, h), day, h, cands, t, queue, queue[1..]);
  }

  /** The operator a regular visit takes joins the popped ones, given to step i with its one record. */
  lemma ServedRecords(steps: seq<Step>, avail: seq<nat>, pl0: Plan, pl: Plan, day: string, h: string,
                      queue: seq<nat>, i: nat, took: seq<nat>)
    requires Increasing(avail) && |queue| <= |avail| && queue == avail[|avail| - |queue|..] && queue != []
    requires WellFormed(steps) && Ledger(steps, pl) && i < |steps| && i !in took && queue[0] < |pl.records|
    requires ShiftServed(steps, pl0, pl, day, h, avail[..|avail| - |queue|], took)
    ensures ShiftServed(steps, pl0, Assign(steps, pl, i, queue[0], day, h), day, h, avail[..|avail| - |queue[1..]|],
                        took + Repeat(i, 1))
  {
    var o := queue[0];
    var pl' := Assign(steps, pl, i, o, day, h);
    var queue' := queue[1..];
    StaffedStep(steps, pl.given[i], pl.records, pl, [], i, o, day, h);
    assert [] + [o] == queue[..|queue| - |queue'|];
    assert pl'.given == pl.given[i := pl.given[i] + 1];
    RecordsStaffed(steps, avail, pl0, pl, pl', day, h, queue, queue', i, took);
    assert Repeat(i, |queue| - |queue'|) == Repeat(i, 1);
  }

  /** A regular visit that takes an operator settles the candidate and keeps the earlier ones settled. */
  lemma ServedSettled(steps: seq<Step>, pl: Plan, i: nat, o: nat, day: string, h: string, cands: seq<nat>, t: nat,
                      queue: seq<nat>)
    requires WellFormed(steps) && Ledger(steps, pl) && o < |pl.records|
    requires t < |cands| && cands[t] == i && i < |steps| && h != Special
    requires forall u :: 0 <= u < t ==> queue == [] || Settled(steps, pl, day, h, cands[u])
    requires queue != []
    ensures forall u :: 0 <= u < t + 1 ==> Settled(steps, Assign(steps, pl, i, o, day, h), day, h, cands[u])
  {
    var pl' := Assign(steps, pl, i, o, day, h);
    AssignEffect(steps, pl, i, o, day, h);
    forall u | 0 <= u < t + 1 ensures Settled(steps, pl', day, h, cands[u]) {
      if u < t {
        assert Settled(steps, pl, day, h, cands[u]);
      }
    }
  }

  /** A "C" visit that staffs the machine leaves the candidate settled, unless no operator is left. */
  lemma VisitStaffed(steps: seq<Step>, roster: seq<Operator>, H: seq<string>, d: nat, q: nat, avail: seq<nat>,
                     cands: seq<nat>, pl0: Plan, t: nat, queue: seq<nat>, pl: Plan, mk: Marks, took: seq<nat>, at: seq<nat>,
                     queue': seq<nat>, pl': Plan, mk': Marks)
    requires Context(steps, roster, H, q, avail)
    requires Visiting(steps, roster, H, d, q, avail, cands, pl0, t, queue, pl, mk, took, at) && t < |cands| && H[q] == Special
    requires MachineStaffed(steps, roster, H, d, q, avail, queue, pl, mk, cands[t], queue', pl', mk')
    ensures Visiting(steps, roster, H, d, q, avail, cands, pl0, t + 1, queue', pl', mk',
                     took + Repeat(cands[t], |queue| - |queue'|), at + Repeat(t, |queue| - |queue'|))
  {
    var i, day, h := cands[t], Days[d], H[q];
    OrderStep(cands, t, took, at, |queue| - |queue'|);
    RecordsStaffed(steps, avail, pl0, pl, pl', day, h, queue, queue', i, took);
    FreshCandidate(cands, t);
    StaffedMono(steps, pl, pl', day, mk, mk');
    assert queue' != [] ==> Settled(steps, pl', day, h, i) by {
      if queue' != [] {
        assert mk'.crew[i] >= steps[i].limit || pl'.given[i] >= steps[i].needed;
      }
    }
    PriorityStep(steps, pl0, pl, pl', day, h, cands, t, queue, queue');
  }

  /** Staffing a machine in shift "C" keeps every settled step settled. */
  lemma StaffedMono(steps: seq<Step>, pl: Plan, pl': Plan, day: string, mk: Marks, mk': Marks)
    requires Marked(steps, pl.records, day, mk) && Marked(steps, pl'.records, day, mk')
    requires |pl.given| == |steps| && |pl'.given| == |steps|
    requires forall j :: 0 <= j < |steps| ==> pl.given[j] <= pl'.given[j] && mk.crew[j] <= mk'.crew[j]
    requires mk'.regular == mk.regular
    ensures forall c :: 0 <= c < |steps| && Settled(steps, pl, day, Special, c) ==> Settled(steps, pl', day, Special, c)
  {
  }

  /** The operators a visit took from the queue join the popped ones, given in order to step i. */
  lemma RecordsStaffed(steps: seq<Step>, avail: seq<nat>, pl0: Plan, pl: Plan, pl': Plan, day: string, h: string,
                       queue: seq<nat>, queue': seq<nat>, i: nat, took: seq<nat>)
    requires Increasing(avail) && |queue| <= |avail| && queue == avail[|avail| - |queue|..]
    requires |queue'| <= |queue| && queue' == queue[|queue| - |queue'|..]
    requires ShiftServed(steps, pl0, pl, day, h, avail[..|avail| - |queue|], took)
    requires i < |steps| && i !in took && |pl'.given| == |steps|
    requires StaffedBy(steps[i], day, h, pl.given[i], pl.records, pl'.records, queue[..|queue| - |queue'|])
    requires pl'.given[i] == pl.given[i] + (|queue| - |queue'|)
    requires forall j :: 0 <= j < |steps| && j != i ==> pl'.given[j] == pl.given[j]
    ensures ShiftServed(steps, pl0, pl', day, h, avail[..|avail| - |queue'|], took + Repeat(i, |queue| - |queue'|))
  {
    var a, k := |avail| - |queue|, |queue| - |queue'|;
    var popped', took' := avail[..a + k], took + Repeat(i, k);
    RecordsServed(steps, avail, pl0, pl, pl', day, h, queue, queue', i, took, popped', took');
    RepeatCount(took, i, k);
    TallyAbsent(took, i);
    forall j | 0 <= j < |steps| ensures pl'.given[j] == pl0.given[j] + Tally(took', j) {
      assert Tally(took', j) == Tally(took, j) + (if j == i then k else 0);
    }
    QueueSplit(avail, queue, queue');
    forall o | 0 <= o < |pl'.records| && o !in popped' ensures pl'.records[o] == pl0.records[o] {
      assert o !in avail[..a] && o !in queue[..k];
    }
    ServedFrom(steps, pl0, pl', day, h, popped', took');
  }

  /** ShiftServed, conjunct by conjunct. */
  lemma ServedFrom(steps: seq<Step>, pl0: Plan, pl: Plan, day: string, h: string, popped: seq<nat>, took: seq<nat>)
    requires |took| == |popped| && |pl.records| == |pl0.records| && |pl0.given| == |steps| && |pl.given| == |steps|
    requires forall k :: 0 <= k < |took| ==> took[k] < |steps|
    requires forall k {:trigger popped[k]} :: 0 <= k < |took| ==>
      && popped[k] < |pl.records|
      && pl.records[popped[k]] == pl0.records[popped[k]] + [ShareRecord(steps[took[k]], day, h, pl0.given[took[k]] + Earlier(took, k))]
    requires forall i :: 0 <= i < |steps| ==> pl.given[i] == pl0.given[i] + Tally(took, i)
    requires forall o :: 0 <= o < |pl.records| && o !in popped ==> pl.records[o] == pl0.records[o]
    ensures ShiftServed(steps, pl0, pl, day, h, popped, took)
  {
  }

  /** The operators popped after a visit are those popped before it followed by those it took. */
  lemma QueueSplit(avail: seq<nat>, queue: seq<nat>, queue': seq<nat>)
    requires |queue| <= |avail| && queue == avail[|avail| - |queue|..]
    requires |queue'| <= |queue| && queue' == queue[|queue| - |queue'|..]
    ensures avail[..|avail| - |queue'|] == avail[..|avail| - |queue|] + queue[..|queue| - |queue'|]
  {
  }

  /** After the visit, each popped operator holds the share of the step it went to. */
  lemma RecordsServed(steps: seq<Step>, avail: seq<nat>, pl0: Plan, pl: Plan, pl': Plan, day: string, h: string,
                      queue: seq<nat>, queue': seq<nat>, i: nat, took: seq<nat>, popped': seq<nat>, took': seq<nat>)
    requires Increasing(avail) && |queue| <= |avail| && queue == avail[|avail| - |queue|..]
    requires |queue'| <= |queue| && queue' == queue[|queue| - |queue'|..]
    requires ShiftServed(steps, pl0, pl, day, h, avail[..|avail| - |queue|], took)
    requires i < |steps| && i !in took && |pl'.given| == |steps|
    requires StaffedBy(steps[i], day, h, pl.given[i], pl.records, pl'.records, queue[..|queue| - |queue'|])
    requires pl'.given[i] == pl.given[i] + (|queue| - |queue'|)
    requires forall j :: 0 <= j < |steps| && j != i ==> pl'.given[j] == pl.given[j]
    requires popped' == avail[..|avail| - |queue'|] && took' == took + Repeat(i, |queue| - |queue'|)
    ensures forall x :: 0 <= x < |took'| ==> took'[x] < |steps|
    ensures forall x {:trigger popped'[x]} :: 0 <= x < |took'| ==>
        && popped'[x] < |pl'.records|
        && pl'.records[popped'[x]] == pl0.records[popped'[x]] +
             [ShareRecord(steps[took'[x]], day, h, pl0.given[took'[x]] + Earlier(took', x))]
  {
    var a, k := |avail| - |queue|, |queue| - |queue'|;
    forall x | 0 <= x < |took| + k
      ensures took'[x] < |steps| && popped'[x] < |pl'.records|
        && pl'.records[popped'[x]] == pl0.records[popped'[x]] +
             [ShareRecord(steps[took'[x]], day, h, pl0.given[took'[x]] + Earlier(took', x))]
    {
      if x < a {
        OldServed(steps, avail, pl0, pl, pl', day, h, queue, queue', i, took, x);
      } else {
        NewServed(steps, avail, pl0, pl, pl', day, h, queue, queue', i, took, x);
      }
    }
  }

  /** An operator popped before the visit keeps the record it had. */
  lemma OldServed(steps: seq<Step>, avail: seq<nat>, pl0: Plan, pl: Plan, pl': Plan, day: string, h: string,
                  queue: seq<nat>, queue': seq<nat>, i: nat, took: seq<nat>, x: nat)
    requires Increasing(avail) && |queue| <= |avail| && queue == avail[|avail| - |queue|..]
    requires |queue'| <= |queue| && queue' == queue[|queue| - |queue'|..]
    requires ShiftServed(steps, pl0, pl, day, h, avail[..|avail| - |queue|], took)
    requires i < |steps| && i !in took && |pl'.given| == |steps|
    requires StaffedBy(steps[i], day, h, pl.given[i], pl.records, pl'.records, queue[..|queue| - |queue'|])
    requires pl'.given[i] == pl.given[i] + (|queue| - |queue'|)
    requires forall j :: 0 <= j < |steps| && j != i ==> pl'.given[j] == pl.given[j]
    requires x < |avail| - |queue|
    ensures var took', popped' := took + Repeat(i, |queue| - |queue'|), avail[..|avail| - |queue'|];
      && took'[x] < |steps| && popped'[x] < |pl'.records|
      && pl'.records[popped'[x]] == pl0.records[popped'[x]] +
           [ShareRecord(steps[took'[x]], day, h, pl0.given[took'[x]] + Earlier(took', x))]
  {
    var a, k := |avail| - |queue|, |queue| - |queue'|;
    var o := avail[x];
    assert avail[..a + k][x] == o && avail[..a][x] == o;
    assert o !in queue[..k] by {
      forall y | 0 <= y < k ensures queue[..k][y] != o {
        assert queue[..k][y] == avail[a + y];
      }
    }
    EarlierPrefix(took, Repeat(i, k), x);
    assert pl'.records[o] == pl.records[o];
  }

  /** An operator the visit took gets step i's share, after the earlier ones the visit took. */
  lemma NewServed(steps: seq<Step>, avail: seq<nat>, pl0: Plan, pl: Plan, pl': Plan, day: string, h: string,
                  queue: seq<nat>, queue': seq<nat>, i: nat, took: seq<nat>, x: nat)
    requires Increasing(avail) && |queue| <= |avail| && queue == avail[|avail| - |queue|..]
    requires |queue'| <= |queue| && queue' == queue[|queue| - |queue'|..]
    requires ShiftServed(steps, pl0, pl, day, h, avail[..|avail| - |queue|], took)
    requires i < |steps| && i !in took && |pl'.given| == |steps|
    requires StaffedBy(steps[i], day, h, pl.given[i], pl.records, pl'.records, queue[..|queue| - |queue'|])
    requires pl'.given[i] == pl.given[i] + (|queue| - |queue'|)
    requires forall j :: 0 <= j < |steps| && j != i ==> pl'.given[j] == pl.given[j]
    requires |avail| - |queue| <= x < |avail| - |queue'|
    ensures var took', popped' := took + Repeat(i, |queue| - |queue'|), avail[..|avail| - |queue'|];
      && took'[x] < |steps| && popped'[x] < |pl'.records|
      && pl'.records[popped'[x]] == pl0.records[popped'[x]] +
           [ShareRecord(steps[took'[x]], day, h, pl0.given[took'[x]] + Earlier(took', x))]
  {
    var a, k := |avail| - |queue|, |queue| - |queue'|;
    assert avail[..a + k][x] == queue[x - a] && (took + Repeat(i, k))[x] == i;
    RecordTaken(steps, avail, pl0, pl, pl', day, h, queue, queue', i, took, x - a);
    EarlierRepeat(took, i, k, x - a);
  }

  /** The j-th operator the visit took had no record of this shift before, and now has step i's share of its next shift. */
  lemma RecordTaken(steps: seq<Step>, avail: seq<nat>, pl0: Plan, pl: Plan, pl': Plan, day: string, h: string,
                    queue: seq<nat>, queue': seq<nat>, i: nat, took: seq<nat>, j: nat)
    requires Increasing(avail) && |queue| <= |avail| && queue == avail[|avail| - |queue|..]
    requires |queue'| <= |queue| && queue' == queue[|queue| - |queue'|..]
    requires ShiftServed(steps, pl0, pl, day, h, avail[..|avail| - |queue|], took)
    requires i < |steps| && i !in took
    requires StaffedBy(steps[i], day, h, pl.given[i], pl.records, pl'.records, queue[..|queue| - |queue'|])
    requires j < |queue| - |queue'|
    ensures queue[j] < |pl'.records| &&
      pl'.records[queue[j]] == pl0.records[queue[j]] + [ShareRecord(steps[i], day, h, pl0.given[i] + j)]
  {
    var a, k := |avail| - |queue|, |queue| - |queue'|;
    var o := queue[j];
    assert queue[..k][j] == o;
    assert o !in avail[..a] by {
      forall x | 0 <= x < a ensures avail[x] != o { }
    }
    assert pl.given[i] == pl0.given[i] by {
      TallyAbsent(took, i);
    }
  }

  /** Appending to took does not change what comes before its x-th entry. */
  lemma EarlierPrefix(took: seq<nat>, r: seq<nat>, x: nat)
    requires x < |took|
    ensures (took + r)[x] == took[x] && Earlier(took + r, x) == Earlier(took, x)
  {
    assert (took + r)[..x] == took[..x];
  }

  /** In took followed by k copies of a fresh i, the j-th copy has j copies before it. */
  lemma EarlierRepeat(took: seq<nat>, i: nat, k: nat, j: nat)
    requires i !in took && j < k
    ensures Earlier(took + Repeat(i, k), |took| + j) == j
  {
    var took' := took + Repeat(i, k);
    assert took'[..|took| + j] == took + Repeat(i, j);
    RepeatCount(took, i, j);
    TallyAbsent(took, i);
  }

  /** The operators a visit takes go to the visited candidate, after those of the earlier candidates. */
  lemma OrderStep(cands: seq<nat>, t: nat, took: seq<nat>, at: seq<nat>, m: nat)
    requires t < |cands| && VisitOrder(cands, t, took, at)
    requires forall a, b :: 0 <= a < b < |cands| ==> cands[a] != cands[b]
    ensures cands[t] !in took
    ensures VisitOrder(cands, t + 1, took + Repeat(cands[t], m), at + Repeat(t, m))
  {
    forall k | 0 <= k < |took| ensures took[k] != cands[t] {
      assert at[k] < t;
    }
  }

  /** After the visits, every step has at most its cap in the current slot. */
  lemma VisitsCapped(steps: seq<Step>, records: seq<seq<Entry>>, day: string, h: string, cands: seq<nat>, mk: Marks)
    requires Marked(steps, records, day, mk)
    requires h != Special ==> RegularBound(steps, records, day, h, cands)
    ensures forall i :: 0 <= i < |steps| ==> Count(records, SlotPat(steps[i], day, h)) <= Cap(h, steps[i])
  {
  }

  /**
   * Lines 126-173: the candidates of the shift (the "C" shift in order of descending limit) are
   * visited once each; afterwards every step has at most its cap of operators in the slot.
   */
  method StaffShift(steps: seq<Step>, roster: seq<Operator>, H: seq<string>, d: nat, q: nat,
                    avail: seq<nat>, pl0: Plan, mk0: Marks)
    returns (pl: Plan, mk: Marks, queue: seq<nat>, ghost took: seq<nat>)
    requires Context(steps, roster, H, q, avail) && InShift(steps, roster, H, d, q, avail, avail, pl0, mk0)
    requires forall i :: 0 <= i < |steps| ==> Count(pl0.records, SlotPat(steps[i], Days[d], H[q])) == 0
    ensures InShift(steps, roster, H, d, q, avail, queue, pl, mk)
    ensures forall i :: 0 <= i < |steps| ==> Count(pl.records, SlotPat(steps[i], Days[d], H[q])) <= Cap(H[q], steps[i])
    ensures ShiftServed(steps, pl0, pl, Days[d], H[q], avail[..|avail| - |queue|], took)
    ensures forall k, l :: 0 <= k < l < |took| ==> took[k] == took[l] || Before(steps, H[q], took[k], took[l])
    ensures forall i :: 0 <= i < |steps| ==> queue == [] || Settled(steps, pl, Days[d], H[q], i)
    ensures forall i: nat, j: nat :: Before(steps, H[q], i, j) && pl.given[j] > pl0.given[j] ==> Settled(steps, pl, Days[d], H[q], i)
  {
    var cands := Candidates(steps, H[q], pl0.given);
    ghost var at;
    pl, mk, queue, took, at := VisitCandidates(steps, roster, H, d, q, avail, cands, pl0, mk0);
    TookInOrder(steps, H[q], cands, took, at);
    VisitsCapped(steps, pl.records, Days[d], H[q], cands, mk);
    AllSettled(steps, pl0, pl, Days[d], H[q], cands, queue);
    ServedInOrder(steps, pl0, pl, Days[d], H[q], cands);
  }

  /** The operators went to the candidates in visiting order, so to the steps in priority order. */
  lemma TookInOrder(steps: seq<Step>, h: string, cands: seq<nat>, took: seq<nat>, at: seq<nat>)
    requires VisitOrder(cands, |cands|, took, at)
    requires forall a, b :: 0 <= a < b < |cands| ==> Before(steps, h, cands[a], cands[b])
    ensures forall k, l :: 0 <= k < l < |took| ==> took[k] == took[l] || Before(steps, h, took[k], took[l])
  {
    forall k, l | 0 <= k < l < |took| && took[k] != took[l] ensures Before(steps, h, took[k], took[l]) {
      assert at[k] < at[l];
    }
  }

  /**
   * A step got an operator in the shift only when every step before it in the shift's visiting
   * order was settled: the queue goes to the earlier candidates first.
   */
  lemma ServedInOrder(steps: seq<Step>, pl0: Plan, pl: Plan, day: string, h: string, cands: seq<nat>)
    requires |pl0.given| == |steps| && |pl.given| == |steps|
    requires forall k :: 0 <= k < |cands| ==> cands[k] < |steps|
    requires forall i :: 0 <= i < |steps| && pl0.given[i] < steps[i].needed ==> i in cands
    requires forall a, b :: 0 <= a < b < |cands| ==> Before(steps, h, cands[a], cands[b])
    requires forall j :: 0 <= j < |steps| ==> pl0.given[j] <= pl.given[j]
    requires forall j :: 0 <= j < |steps| && j !in cands ==> pl.given[j] == pl0.given[j]
    requires forall u, v :: 0 <= u < v < |cands| && pl.given[cands[v]] > pl0.given[cands[v]] ==>
               Settled(steps, pl, day, h, cands[u])
    ensures forall i: nat, j: nat :: Before(steps, h, i, j) && pl.given[j] > pl0.given[j] ==> Settled(steps, pl, day, h, i)
  {
    forall i: nat, j: nat | Before(steps, h, i, j) && pl.given[j] > pl0.given[j] ensures Settled(steps, pl, day, h, i) {
      var v :| 0 <= v < |cands| && cands[v] == j;
      if pl0.given[i] < steps[i].needed {
        var u :| 0 <= u < |cands| && cands[u] == i;
        assert u < v;
      }
    }
  }

  /**
   * Lines 126-134: the steps still short of shifts, in step-table order, or for the "C" shift in
   * order of descending limit. Every step short of shifts is among them.
   */
  function Candidates(steps: seq<Step>, h: string, given: seq<nat>): (r: seq<nat>)
    requires |given| == |steps|
    ensures forall k :: 0 <= k < |r| ==> r[k] < |steps| && given[r[k]] < steps[r[k]].needed
    ensures forall i :: 0 <= i < |steps| && given[i] < steps[i].needed ==> i in r
    ensures forall a, b :: 0 <= a < b < |r| ==> Before(steps, h, r[a], r[b])
    ensures h != Special ==> Increasing(r)
  {
    var pending := Pending(steps, given, |steps|);
    if h == Special then
      PrioritisedSame(steps, given, pending);
      PrioritisedOrder(steps, pending);
      Prioritised(steps, pending)
    else pending
  }

  /** Reordering the candidates neither adds nor drops one. */
  lemma PrioritisedSame(steps: seq<Step>, given: seq<nat>, pending: seq<nat>)
    requires |given| == |steps|
    requires forall k :: 0 <= k < |pending| ==> pending[k] < |steps| && given[pending[k]] < steps[pending[k]].needed
    ensures var r := Prioritised(steps, pending);
      forall k :: 0 <= k < |r| ==> r[k] < |steps| && given[r[k]] < steps[r[k]].needed
    ensures forall i :: i in pending ==> i in Prioritised(steps, pending)
  {
    var r := Prioritised(steps, pending);
    PrioritisedSpec(steps, pending);
    forall k | 0 <= k < |r| ensures r[k] < |steps| && given[r[k]] < steps[r[k]].needed {
      assert r[k] in multiset(r);
      assert r[k] in pending;
    }
    forall i | i in pending ensures i in r {
      assert i in multiset(pending);
    }
  }

  /** Every step that was short of shifts is a candidate, so once all candidates are settled, all steps are. */
  lemma AllSettled(steps: seq<Step>, pl0: Plan, pl: Plan, day: string, h: string, cands: seq<nat>, queue: seq<nat>)
    requires |pl0.given| == |steps| && |pl.given| == |steps|
    requires forall i :: 0 <= i < |steps| && pl0.given[i] < steps[i].needed ==> i in cands
    requires forall j :: 0 <= j < |steps| ==> pl0.given[j] <= pl.given[j]
    requires forall u :: 0 <= u < |cands| ==> queue == [] || Settled(steps, pl, day, h, cands[u])
    ensures forall i :: 0 <= i < |steps| ==> queue == [] || Settled(steps, pl, day, h, i)
  {
    forall i | 0 <= i < |steps| && queue != [] ensures Settled(steps, pl, day, h, i) {
      if pl0.given[i] < steps[i].needed {
        var u :| 0 <= u < |cands| && cands[u] == i;
      }
    }
  }

  /** Placeholders change no counter, no slot count and no machine set, so settled steps stay settled. */
  lemma SettledKept(steps: seq<Step>, pv: Plan, pl: Plan, day: string, h: string)
    requires |pv.given| == |steps| && pl.given == pv.given
    requires forall pat :: Count(pl.records, pat) == Count(pv.records, pat)
    requires forall D, sp :: Machines(pl.records, D, sp) == Machines(pv.records, D, sp)
    ensures forall i :: 0 <= i < |steps| && Settled(steps, pv, day, h, i) ==> Settled(steps, pl, day, h, i)
  {
    forall i | 0 <= i < |steps| && Settled(steps, pv, day, h, i) ensures Settled(steps, pl, day, h, i) {
      assert Count(pl.records, SlotPat(steps[i], day, h)) == Count(pv.records, SlotPat(steps[i], day, h));
      assert Machines(pl.records, day, true) == Machines(pv.records, day, true);
      assert Machines(pl.records, day, false) == Machines(pv.records, day, false);
    }
  }

  /**
   * Since state `pl0`, the operators `served` were given to the steps `took` as in `ShiftServed`,
   * each operator of `idle` got the placeholder, and no other list changed.
   */
  ghost predicate ShiftFilled(steps: seq<Step>, pl0: Plan, pl: Plan, day: string, h: string, served: seq<nat>, idle: seq<nat>,
                              took: seq<nat>) {
    && |took| == |served| && |pl.records| == |pl0.records| && |pl0.given| == |steps| && |pl.given| == |steps|
    && (forall k :: 0 <= k < |took| ==> took[k] < |steps|)
    && (forall k {:trigger served[k]} :: 0 <= k < |took| ==>
          && served[k] < |pl.records|
          && pl.records[served[k]] == pl0.records[served[k]] + [ShareRecord(steps[took[k]], day, h, pl0.given[took[k]] + Earlier(took, k))])
    && (forall i :: 0 <= i < |steps| ==> pl.given[i] == pl0.given[i] + Tally(took, i))
    && (forall k :: 0 <= k < |idle| ==> idle[k] < |pl.records| && pl.records[idle[k]] == pl0.records[idle[k]] + [Absent(day, h)])
    && (forall o :: 0 <= o < |pl.records| && o !in served && o !in idle ==> pl.records[o] == pl0.records[o])
  }

  /** The visits give the front of the queue its share records, and the absent fill gives the rest the placeholder. */
  lemma ShiftFilledFrom(steps: seq<Step>, avail: seq<nat>, pl0: Plan, pv: Plan, pl: Plan, day: string, h: string, n: nat,
                        took: seq<nat>)
    requires Increasing(avail) && n <= |avail|
    requires ShiftServed(steps, pl0, pv, day, h, avail[..n], took) && pl.given == pv.given
    requires FillShape(avail, pv.records, pl.records, n, |avail|, day, h)
    ensures ShiftFilled(steps, pl0, pl, day, h, avail[..n], avail[n..], took)
  {
    var served, idle := avail[..n], avail[n..];
    forall k | 0 <= k < |took|
      ensures took[k] < |steps| && served[k] < |pl.records|
      ensures pl.records[served[k]] == pl0.records[served[k]] +
                [ShareRecord(steps[took[k]], day, h, pl0.given[took[k]] + Earlier(took, k))]
    {
      assert served[k] == avail[k];
      assert pl.records[avail[k]] == pv.records[avail[k]];
    }
    forall k | 0 <= k < |idle| ensures idle[k] < |pl.records| && pl.records[idle[k]] == pl0.records[idle[k]] + [Absent(day, h)] {
      var o := idle[k];
      assert o == avail[n + k];
      assert o !in served by {
        forall x | 0 <= x < n ensures served[x] != o { }
      }
    }
    forall o | 0 <= o < |pl.records| && o !in served && o !in idle ensures pl.records[o] == pl0.records[o] {
      assert avail == served + idle;
      assert o !in avail;
    }
  }

  /**
   * Lines 119-182 for one shift: the operators of the shift are queued, the candidates are staffed,
   * and every queued operator left over gets the "Assente" placeholder. The operators left over
   * (`idle`) belong to the shift, and the slot holds exactly that many placeholders.
   */
  method AllocateShift(steps: seq<Step>, roster: seq<Operator>, H: seq<string>, d: nat, q: nat, pl0: Plan, mk0: Marks)
    returns (pl: Plan, mk: Marks, idle: seq<nat>, ghost took: seq<nat>)
    requires WellFormed(steps) && Distinct(H) && q < |H| && (forall o :: 0 <= o < |roster| ==> roster[o].shift in H)
    requires InDay(steps, roster, H, d, q, pl0, mk0)
    ensures InDay(steps, roster, H, d, q + 1, pl, mk)
    ensures forall k :: 0 <= k < |idle| ==> idle[k] < |roster| && roster[idle[k]].shift == H[q]
    ensures Absences(pl.records, Days[d], H[q]) == |idle|
    ensures forall i :: 0 <= i < |steps| ==> idle == [] || Settled(steps, pl, Days[d], H[q], i)
    ensures forall i: nat, j: nat :: Before(steps, H[q], i, j) && pl.given[j] > pl0.given[j] ==> Settled(steps, pl, Days[d], H[q], i)
    ensures var avail := Available(roster, pl0.records, H[q], |H|, |roster|);
      && |idle| <= |avail| && idle == avail[|avail| - |idle|..]
      && ShiftFilled(steps, pl0, pl, Days[d], H[q], avail[..|avail| - |idle|], idle, took)
    ensures forall k, l :: 0 <= k < l < |took| ==> took[k] == took[l] || Before(steps, H[q], took[k], took[l])
  {
    var avail := Available(roster, pl0.records, H[q], |H|, |roster|);
    ShiftOpens(steps, roster, H, d, q, pl0, mk0);
    var queue;
    pl, mk, queue, took := StaffShift(steps, roster, H, d, q, avail, pl0, mk0);
    idle := queue;
    pl := CloseShift(steps, roster, H, d, q, pl0, avail, idle, pl, mk, took);
  }

  /**
   * Lines 175-182: after the visits, every operator left in the queue gets the "Assente"
   * placeholder, which closes the shift.
   */
  method CloseShift(ghost steps: seq<Step>, roster: seq<Operator>, H: seq<string>, d: nat, q: nat, ghost pl0: Plan,
                    avail: seq<nat>, queue: seq<nat>, pv: Plan, ghost mk: Marks, ghost took: seq<nat>)
    returns (pl: Plan)
    requires Context(steps, roster, H, q, avail) && InShift(steps, roster, H, d, q, avail, queue, pv, mk)
    requires forall o :: 0 <= o < |roster| && roster[o].shift == H[q] ==> o in avail
    requires forall i :: 0 <= i < |steps| ==> Count(pv.records, SlotPat(steps[i], Days[d], H[q])) <= Cap(H[q], steps[i])
    requires ShiftServed(steps, pl0, pv, Days[d], H[q], avail[..|avail| - |queue|], took)
    requires forall i :: 0 <= i < |steps| ==> queue == [] || Settled(steps, pv, Days[d], H[q], i)
    requires forall i: nat, j: nat :: Before(steps, H[q], i, j) && pv.given[j] > pl0.given[j] ==> Settled(steps, pv, Days[d], H[q], i)
    ensures InDay(steps, roster, H, d, q + 1, pl, mk)
    ensures forall k :: 0 <= k < |queue| ==> queue[k] < |roster| && roster[queue[k]].shift == H[q]
    ensures Absences(pl.records, Days[d], H[q]) == |queue|
    ensures forall i :: 0 <= i < |steps| ==> queue == [] || Settled(steps, pl, Days[d], H[q], i)
    ensures forall i: nat, j: nat :: Before(steps, H[q], i, j) && pl.given[j] > pl0.given[j] ==> Settled(steps, pl, Days[d], H[q], i)
    ensures |queue| <= |avail| && queue == avail[|avail| - |queue|..]
    ensures ShiftFilled(steps, pl0, pl, Days[d], H[q], avail[..|avail| - |queue|], queue, took)
  {
    pl := FillAbsent(steps, roster, H, d, q, avail, pv, |avail| - |queue|);
    ShiftEnds(steps, roster, H, d, q, pl0, avail, queue, pv, pl, mk, took);
  }

  /** From the state after the visits and the one after the absent fill to what the whole shift did. */
  lemma ShiftEnds(steps: seq<Step>, roster: seq<Operator>, H: seq<string>, d: nat, q: nat, pl0: Plan, avail: seq<nat>,
                  queue: seq<nat>, pv: Plan, pl: Plan, mk: Marks, took: seq<nat>)
    requires Context(steps, roster, H, q, avail) && InShift(steps, roster, H, d, q, avail, queue, pv, mk)
    requires forall o :: 0 <= o < |roster| && roster[o].shift == H[q] ==> o in avail
    requires forall i :: 0 <= i < |steps| ==> Count(pv.records, SlotPat(steps[i], Days[d], H[q])) <= Cap(H[q], steps[i])
    requires ShiftServed(steps, pl0, pv, Days[d], H[q], avail[..|avail| - |queue|], took)
    requires forall i :: 0 <= i < |steps| ==> queue == [] || Settled(steps, pv, Days[d], H[q], i)
    requires forall i: nat, j: nat :: Before(steps, H[q], i, j) && pv.given[j] > pl0.given[j] ==> Settled(steps, pv, Days[d], H[q], i)
    requires pl.given == pv.given && pl.remaining == pv.remaining
    requires Scheduled(roster, pl.records, d, H[..q], avail) && Produces(steps, pl.records)
    requires forall pat :: Count(pl.records, pat) == Count(pv.records, pat) && Output(pl.records, pat) == Output(pv.records, pat)
    requires forall D, sp :: Machines(pl.records, D, sp) == Machines(pv.records, D, sp)
    requires Absences(pl.records, Days[d], H[q]) == Absences(pv.records, Days[d], H[q]) + |queue|
    requires FillShape(avail, pv.records, pl.records, |avail| - |queue|, |avail|, Days[d], H[q])
    ensures InDay(steps, roster, H, d, q + 1, pl, mk)
    ensures forall k :: 0 <= k < |queue| ==> queue[k] < |roster| && roster[queue[k]].shift == H[q]
    ensures Absences(pl.records, Days[d], H[q]) == |queue|
    ensures forall i :: 0 <= i < |steps| ==> queue == [] || Settled(steps, pl, Days[d], H[q], i)
    ensures forall i: nat, j: nat :: Before(steps, H[q], i, j) && pl.given[j] > pl0.given[j] ==> Settled(steps, pl, Days[d], H[q], i)
    ensures |queue| <= |avail| && queue == avail[|avail| - |queue|..]
    ensures ShiftFilled(steps, pl0, pl, Days[d], H[q], avail[..|avail| - |queue|], queue, took)
  {
    ShiftCloses(steps, roster, H, d, q, avail, queue, pv, pl, mk);
    LeftOfShift(roster, H[q], avail, queue);
    SettledKept(steps, pv, pl, Days[d], H[q]);
    ShiftFilledFrom(steps, avail, pl0, pv, pl, Days[d], H[q], |avail| - |queue|, took);
  }

  /** What is left of the shift's operators are operators of the shift. */
  lemma LeftOfShift(roster: seq<Operator>, h: string, avail: seq<nat>, queue: seq<nat>)
    requires forall k :: 0 <= k < |avail| ==> avail[k] < |roster| && roster[avail[k]].shift == h
    requires |queue| <= |avail| && queue == avail[|avail| - |queue|..]
    ensures forall k :: 0 <= k < |queue| ==> queue[k] < |roster| && roster[queue[k]].shift == h
  {
    forall k | 0 <= k < |queue| ensures queue[k] < |roster| && roster[queue[k]].shift == h {
      assert queue[k] == avail[|avail| - |queue| + k];
    }
  }

  /** A fresh day: no record names it yet, so the new marks and counters describe it. */
  lemma DayOpens(steps: seq<Step>, roster: seq<Operator>, H: seq<string>, d: nat, pl: Plan)
    requires d < |Days| && InWeek(steps, roster, d, pl)
    ensures InDay(steps, roster, H, d, 0, pl, Marks({}, {}, seq(|steps|, _ => 0)))
  {
    var rs: seq<seq<Entry>> := pl.records;
    DaysDistinct();
    forall o: int, k: int | 0 <= o < |rs| && 0 <= k < |rs[o]| ensures rs[o][k].day != Days[d] {
      assert OnSchedule(rs[o], roster[o].shift, d);
    }
    NothingOn(rs, Days[d]);
  }

  /** After the last shift of day d, that day is finished. */
  lemma DayCloses(steps: seq<Step>, roster: seq<Operator>, H: seq<string>, d: nat, pl: Plan, mk: Marks)
    requires forall o :: 0 <= o < |roster| ==> roster[o].shift in H
    requires InDay(steps, roster, H, d, |H|, pl, mk)
    ensures InWeek(steps, roster, d + 1, pl)
  {
    assert H[..|H|] == H;
    forall k, h, i | 0 <= k < d + 1 && 0 <= i < |steps|
      ensures Count(pl.records, SlotPat(steps[i], Days[k], h)) <= Cap(h, steps[i])
    {
      if k == d && h !in H {
        assert Count(pl.records, SlotPat(steps[i], Days[d], h)) == 0;
      }
    }
  }

  /** Lines 113-182 for day d: fresh marks and counters, then every shift in order. */
  method AllocateDay(steps: seq<Step>, roster: seq<Operator>, H: seq<string>, d: nat, pl0: Plan)
    returns (pl: Plan)
    requires WellFormed(steps) && Distinct(H) && (forall o :: 0 <= o < |roster| ==> roster[o].shift in H)
    requires d < |Days| && InWeek(steps, roster, d, pl0)
    ensures InWeek(steps, roster, d + 1, pl)
  {
    pl := pl0;
    var mk := Marks({}, {}, seq(|steps|, _ => 0));
    DayOpens(steps, roster, H, d, pl);
    for q := 0 to |H|
      invariant InDay(steps, roster, H, d, q, pl, mk)
    {
      var idle;
      ghost var took;
      pl, mk, idle, took := AllocateShift(steps, roster, H, d, q, pl, mk);
    }
    DayCloses(steps, roster, H, d, pl, mk);
  }

  /** The state before the first day: nothing given, the full target left, no records. */
  function Initial(steps: seq<Step>, roster: seq<Operator>): Plan {
    Plan(seq(|steps|, _ => 0),
         seq(|steps|, i requires 0 <= i < |steps| => steps[i].toProduce),
         seq(|roster|, _ => []))
  }

  lemma WeekOpens(steps: seq<Step>, roster: seq<Operator>)
    requires WellFormed(steps)
    ensures InWeek(steps, roster, 0, Initial(steps, roster))
  {
    var pl := Initial(steps, roster);
    EmptyRecords(pl.records);
  }

  /**
   * Lines 106-182: the week's allocation. Every step gets at most the shifts it needs, each shift
   * producing min(max_produce, remaining); every operator ends with one record per day, in its own
   * shift; on each day no machine serves both shift "C" and another shift, and no step exceeds its
   * cap in any slot.
   */
  method AllocateWeek(steps: seq<Step>, roster: seq<Operator>, H: seq<string>) returns (pl: Plan)
    requires WellFormed(steps) && Distinct(H) && (forall o :: 0 <= o < |roster| ==> roster[o].shift in H)
    ensures InWeek(steps, roster, |Days|, pl)
  {
    pl := Initial(steps, roster);
    WeekOpens(steps, roster);
    for d := 0 to |Days|
      invariant InWeek(steps, roster, d, pl)
    {
      pl := AllocateDay(steps, roster, H, d, pl);
    }
  }

  // ---------------------------------------------------------------------------------------------
  // What the invariants say about a step and an operator

  /**
   * A step's outcome: what is left lies between 0 and the target and the records produce the rest;
   * a step with no positive rate is never staffed; a step that got all its shifts produced its whole
   * target; a step that did not get them all was given full shifts only.
   */
  lemma StepOutcome(steps: seq<Step>, pl: Plan, i: nat)
    requires WellFormed(steps) && Ledger(steps, pl) && i < |steps|
    ensures 0.0 <= pl.remaining[i] <= steps[i].toProduce
    ensures Output(pl.records, StepPat(steps[i])) == steps[i].toProduce - pl.remaining[i]
    ensures steps[i].hourly <= 0.0 ==> pl.given[i] == 0 && pl.remaining[i] == steps[i].toProduce
    ensures steps[i].hourly > 0.0 && pl.given[i] == steps[i].needed ==>
              pl.remaining[i] == 0.0 && Output(pl.records, StepPat(steps[i])) == steps[i].toProduce
    ensures pl.given[i] < steps[i].needed ==>
              pl.remaining[i] > 0.0 && Output(pl.records, StepPat(steps[i])) == pl.given[i] as real * Capacity(steps[i])
  {
    var st := steps[i];
    var a := pl.given[i];
    var c := Capacity(st);
    assert st.toProduce >= 0.0 && st.needed == ShiftsRequired(st.toProduce, st.hourly);
    ShiftsRequiredIsLeast(st.toProduce, st.hourly);
    if st.hourly > 0.0 {
      assert c == st.hourly * ShiftHours > 0.0;
      MulMono(0.0, a as real, c);
      if a == st.needed {
        assert a as real * c >= st.toProduce;
      }
      if a < st.needed {
        var b := (st.needed - 1) as real;
        assert b * c < st.toProduce;
        MulBelow(a as real, b, c, st.toProduce);
        assert pl.remaining[i] == st.toProduce - a as real * c;
      }
    }
  }

  /** With one record per day in its own shift, an operator has exactly one record for each of its slots and none in other shifts. */
  lemma OneRecordPerSlot(r: seq<Entry>, shift: string, k: nat)
    requires OnSchedule(r, shift, |Days|) && k < |Days|
    ensures SlotRecords(r, Days[k], shift) == [r[k]]
    ensures forall h :: h != shift ==> SlotRecords(r, Days[k], h) == []
  {
    DaysDistinct();
    SlotRecordsSingle(r, Days[k], shift, k);
    forall h | h != shift ensures SlotRecords(r, Days[k], h) == [] {
      SlotRecordsEmpty(r, Days[k], h);
    }
  }

  lemma {:induction false} SlotRecordsSingle(r: seq<Entry>, day: string, shift: string, k: nat)
    requires k < |r| && r[k].day == day && r[k].shift == shift
    requires forall j :: 0 <= j < |r| && j != k ==> r[j].day != day || r[j].shift != shift
    ensures SlotRecords(r, day, shift) == [r[k]]
  {
    if k == 0 {
      SlotRecordsEmpty(r[1..], day, shift);
      assert forall j :: 0 <= j < |r[1..]| ==> r[1..][j] == r[j + 1];
    } else {
      assert forall j :: 0 <= j < |r[1..]| ==> r[1..][j] == r[j + 1];
      SlotRecordsSingle(r[1..], day, shift, k - 1);
    }
  }
}
