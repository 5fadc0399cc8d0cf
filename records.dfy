/**
 * The per-operator record lists the allocator appends to (`operator_day_shift_assignments`), and
 * the aggregates over them that its invariants and the progress tracker are stated with.
 */
module Records {

  /** The working days of the week, in plan order. */
  const Days: seq<string> := ["Monday", "Tuesday", "Wednesday", "Thursday", "Friday"]

  /** The shift label that may staff a machine with several operators. */
  const Special: string := "C"

  /** The machine name the absent placeholder carries, and the one the progress tracker also skips. */
  const AbsentMachine: string := "Assente"
  const SupportMachine: string := "Support"

  /**
   * One record: a worked slot (day, shift, machine, project, step number counted from 1, quantity
   * produced), or the placeholder (day, shift, "Assente", "Assente", "", 0).
   */
  datatype Entry =
    | Working(day: string, shift: string, machine: string, project: string, step: nat, produced: real)
    | Absent(day: string, shift: string)

  /** What an aggregate counts: the records of one step, of one step in one slot, of one machine on one day. */
  datatype Pattern =
    | StepOf(project: string, step: nat)
    | StepInSlot(day: string, shift: string, project: string, step: nat)
    | MachineDay(project: string, machine: string, day: string)

  predicate Matches(e: Entry, pat: Pattern) {
    match pat
    case StepOf(p, s) => e.Working? && e.project == p && e.step == s
    case StepInSlot(d, h, p, s) => e.Working? && e.day == d && e.shift == h && e.project == p && e.step == s
    case MachineDay(p, m, d) =>
      e.Working? && e.project == p && e.machine == m && e.day == d
      && m != AbsentMachine && m != SupportMachine
  }

  function Hit(e: Entry, pat: Pattern): nat {
    if Matches(e, pat) then 1 else 0
  }

  function Amount(e: Entry, pat: Pattern): real {
    if Matches(e, pat) then e.produced else 0.0
  }

  /** The machines worked on `day` in the special shift (special) or in the other shifts (!special). */
  function MachineUse(e: Entry, day: string, special: bool): set<string> {
    if e.Working? && e.day == day && (e.shift == Special) == special then {e.machine} else {}
  }

  function CountIn(r: seq<Entry>, pat: Pattern): nat {
    if r == [] then 0 else CountIn(r[..|r| - 1], pat) + Hit(r[|r| - 1], pat)
  }

  function OutputIn(r: seq<Entry>, pat: Pattern): real {
    if r == [] then 0.0 else OutputIn(r[..|r| - 1], pat) + Amount(r[|r| - 1], pat)
  }

  function MachinesIn(r: seq<Entry>, day: string, special: bool): set<string> {
    if r == [] then {} else MachinesIn(r[..|r| - 1], day, special) + MachineUse(r[|r| - 1], day, special)
  }

  /** The number of records, over all operators, that match. */
  function Count(rs: seq<seq<Entry>>, pat: Pattern): nat {
    if rs == [] then 0 else Count(rs[..|rs| - 1], pat) + CountIn(rs[|rs| - 1], pat)
  }

  /** The quantity the matching records produce, over all operators. */
  function Output(rs: seq<seq<Entry>>, pat: Pattern): real {
    if rs == [] then 0.0 else Output(rs[..|rs| - 1], pat) + OutputIn(rs[|rs| - 1], pat)
  }

  /** The machines used on a day in the special shift, or in the other shifts, over all operators. */
  function Machines(rs: seq<seq<Entry>>, day: string, special: bool): set<string> {
    if rs == [] then {} else Machines(rs[..|rs| - 1], day, special) + MachinesIn(rs[|rs| - 1], day, special)
  }

  lemma AppendIn(r: seq<Entry>, e: Entry)
    ensures forall pat :: CountIn(r + [e], pat) == CountIn(r, pat) + Hit(e, pat)
    ensures forall pat :: OutputIn(r + [e], pat) == OutputIn(r, pat) + Amount(e, pat)
    ensures forall day, special :: MachinesIn(r + [e], day, special) == MachinesIn(r, day, special) + MachineUse(e, day, special)
  {
    assert (r + [e])[..|r|] == r;
  }

  /** Appending one record to one operator's list changes every aggregate by that record alone. */
  lemma {:induction false} AppendEffect(rs: seq<seq<Entry>>, o: nat, e: Entry)
    requires o < |rs|
    ensures forall pat :: Count(rs[o := rs[o] + [e]], pat) == Count(rs, pat) + Hit(e, pat)
    ensures forall pat :: Output(rs[o := rs[o] + [e]], pat) == Output(rs, pat) + Amount(e, pat)
    ensures forall day, special :: Machines(rs[o := rs[o] + [e]], day, special)
                                   == Machines(rs, day, special) + MachineUse(e, day, special)
  {
    var n := |rs| - 1;
    var rs' := rs[o := rs[o] + [e]];
    AppendIn(rs[o], e);
    if o == n {
      assert rs'[..n] == rs[..n];
    } else {
      assert rs'[..n] == rs[..n][o := rs[..n][o] + [e]];
      AppendEffect(rs[..n], o, e);
    }
  }

  /** Before anything is recorded every aggregate is empty. */
  lemma {:induction false} EmptyRecords(rs: seq<seq<Entry>>)
    requires forall o :: 0 <= o < |rs| ==> rs[o] == []
    ensures forall pat :: Count(rs, pat) == 0 && Output(rs, pat) == 0.0
    ensures forall day, special :: Machines(rs, day, special) == {}
  {
    if rs != [] {
      EmptyRecords(rs[..|rs| - 1]);
    }
  }

  lemma {:induction false} NothingOnIn(r: seq<Entry>, day: string)
    requires forall k :: 0 <= k < |r| ==> r[k].day != day
    ensures forall h, p, s :: CountIn(r, StepInSlot(day, h, p, s)) == 0
    ensures forall sp :: MachinesIn(r, day, sp) == {}
  {
    if r != [] {
      NothingOnIn(r[..|r| - 1], day);
    }
  }

  /** With no record for a day yet, nothing is counted in that day's slots and no machine is in use. */
  lemma {:induction false} NothingOn(rs: seq<seq<Entry>>, day: string)
    requires forall o, k :: 0 <= o < |rs| && 0 <= k < |rs[o]| ==> rs[o][k].day != day
    ensures forall h, p, s :: Count(rs, StepInSlot(day, h, p, s)) == 0
    ensures forall sp :: Machines(rs, day, sp) == {}
  {
    if rs != [] {
      NothingOnIn(rs[|rs| - 1], day);
      NothingOn(rs[..|rs| - 1], day);
    }
  }

  // ---------------------------------------------------------------------------------------------
  // The placeholder records

  function AbsentHit(e: Entry, day: string, shift: string): nat {
    if e.Absent? && e.day == day && e.shift == shift then 1 else 0
  }

  function AbsencesIn(r: seq<Entry>, day: string, shift: string): nat {
    if r == [] then 0 else AbsencesIn(r[..|r| - 1], day, shift) + AbsentHit(r[|r| - 1], day, shift)
  }

  /** The number of "Assente" placeholders in a slot, over all operators. */
  function Absences(rs: seq<seq<Entry>>, day: string, shift: string): nat {
    if rs == [] then 0 else Absences(rs[..|rs| - 1], day, shift) + AbsencesIn(rs[|rs| - 1], day, shift)
  }

  /** Appending one record changes the placeholder count of a slot by that record alone. */
  lemma {:induction false} AppendAbsences(rs: seq<seq<Entry>>, o: nat, e: Entry, day: string, shift: string)
    requires o < |rs|
    ensures Absences(rs[o := rs[o] + [e]], day, shift) == Absences(rs, day, shift) + AbsentHit(e, day, shift)
  {
    var n := |rs| - 1;
    var rs' := rs[o := rs[o] + [e]];
    assert (rs[o] + [e])[..|rs[o]|] == rs[o];
    if o == n {
      assert rs'[..n] == rs[..n];
    } else {
      assert rs'[..n] == rs[..n][o := rs[..n][o] + [e]];
      AppendAbsences(rs[..n], o, e, day, shift);
    }
  }

  lemma {:induction false} NoAbsencesIn(r: seq<Entry>, day: string, shift: string)
    requires forall k :: 0 <= k < |r| ==> r[k].day != day || r[k].shift != shift
    ensures AbsencesIn(r, day, shift) == 0
  {
    if r != [] {
      NoAbsencesIn(r[..|r| - 1], day, shift);
    }
  }

  /** With no record in a slot, the slot has no placeholder. */
  lemma {:induction false} NoAbsences(rs: seq<seq<Entry>>, day: string, shift: string)
    requires forall o, k :: 0 <= o < |rs| && 0 <= k < |rs[o]| ==> rs[o][k].day != day || rs[o][k].shift != shift
    ensures Absences(rs, day, shift) == 0
  {
    if rs != [] {
      NoAbsencesIn(rs[|rs| - 1], day, shift);
      NoAbsences(rs[..|rs| - 1], day, shift);
    }
  }
}
