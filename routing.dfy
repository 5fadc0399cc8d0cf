/**
 * The routing index: the sort key `operation_sorter` computes from a row's "orders of operations"
 * cell, Python's ordering of those keys, and the per-project list of routing rows sorted by it.
 */
module Routing {
  import opened Base
  import opened Text
  import StableSort

  /** A cell of the "orders of operations" column as pandas hands it over. */
  datatype RawOrder =
    | IntCell(n: int)       // an integer column
    | RealCell(x: real)     // a float column (int() truncates it)
    | MissingCell           // an empty cell in a float column: NaN, which int() rejects
    | TextCell(s: string)   // a text column

  /**
   * The key tuples the sorter produces: NumKey(n) is the tuple (n,),
   * TextKey(s) the tuple (10000, s).
   */
  datatype OrderKey = NumKey(n: int) | TextKey(s: string)

  /** The key of the "final step" sentinel, the tuple (9999,). */
  const FinalKey: OrderKey := NumKey(9999)

  /** The tag of every non-numeric key. */
  const TextTag: int := 10000

  /** Python's int(x) for a float: truncation toward zero. */
  function Truncate(x: real): (r: int)
    ensures x >= 0.0 ==> r as real <= x < r as real + 1.0
    ensures x < 0.0 ==> r as real - 1.0 < x <= r as real
  {
    if x >= 0.0 then x.Floor else -((-x).Floor)
  }

  /** Whether a text cell names the last operation: "final step" or "finalstep", any case, trimmed. */
  predicate IsFinalStep(s: string) {
    var t := Lower(Trim(s));
    t == "final step" || t == "finalstep"
  }

  /** Whether a cell holds the "final step" sentinel. */
  predicate IsSentinel(v: RawOrder) {
    v.TextCell? && IsFinalStep(v.s)
  }

  /** Python's int(value) on a cell, None where it raises. */
  function IntValue(v: RawOrder): Option<int> {
    match v
    case IntCell(n) => Some(n)
    case RealCell(x) => Some(Truncate(x))
    case MissingCell => None
    case TextCell(s) => ParseInt(s)
  }

  /** `operation_sorter`. */
  function OperationSorter(v: RawOrder): OrderKey {
    match v
    case TextCell(s) =>
      if IsFinalStep(s) then FinalKey
      else if ParseInt(s).Some? then NumKey(ParseInt(s).value)
      else TextKey(s)
    case IntCell(n) => NumKey(n)
    case RealCell(x) => NumKey(Truncate(x))
    case MissingCell => TextKey("nan")
  }

  /** Python's < on strings: code points, lexicographically, a proper prefix first. */
  predicate StrLess(a: string, b: string) {
    if |a| == 0 then |b| > 0
    else if |b| == 0 then false
    else a[0] < b[0] || (a[0] == b[0] && StrLess(a[1..], b[1..]))
  }

  /** Python's < on the key tuples: first components, then the shorter tuple first, then the strings. */
  predicate KeyLess(a: OrderKey, b: OrderKey) {
    match (a, b)
    case (NumKey(x), NumKey(y)) => x < y
    case (NumKey(x), TextKey(_)) => x <= TextTag
    case (TextKey(_), NumKey(y)) => TextTag < y
    case (TextKey(s), TextKey(t)) => StrLess(s, t)
  }

  lemma {:induction false} StrLessIrreflexive(a: string)
    ensures !StrLess(a, a)
  {
    if |a| > 0 {
      StrLessIrreflexive(a[1..]);
    }
  }

  lemma {:induction false} StrLessTransitive(a: string, b: string, c: string)
    requires StrLess(a, b) && StrLess(b, c)
    ensures StrLess(a, c)
  {
    if |a| > 0 && a[0] == b[0] && b[0] == c[0] {
      StrLessTransitive(a[1..], b[1..], c[1..]);
    }
  }

  lemma {:induction false} StrLessConnected(a: string, b: string)
    requires a != b
    ensures StrLess(a, b) || StrLess(b, a)
  {
    if |a| > 0 && |b| > 0 && a[0] == b[0] {
      assert a == [a[0]] + a[1..] && b == [b[0]] + b[1..];
      StrLessConnected(a[1..], b[1..]);
    }
  }

  /** Python's tuple order on the keys is a strict total order, so sorting by it is well defined. */
  lemma KeyLessIsStrictTotalOrder()
    ensures StableSort.StrictTotalOrder(KeyLess)
  {
    forall a: OrderKey ensures !KeyLess(a, a) {
      if a.TextKey? {
        StrLessIrreflexive(a.s);
      }
    }
    forall a: OrderKey, b: OrderKey, c: OrderKey | KeyLess(a, b) && KeyLess(b, c)
      ensures KeyLess(a, c)
    {
      if a.TextKey? && b.TextKey? && c.TextKey? {
        StrLessTransitive(a.s, b.s, c.s);
      }
    }
    forall a: OrderKey, b: OrderKey | a != b ensures KeyLess(a, b) || KeyLess(b, a) {
      if a.TextKey? && b.TextKey? {
        StrLessConnected(a.s, b.s);
      }
    }
  }

  /** An integer written as text is never read as the sentinel, and sorts as that integer. */
  lemma {:induction false} SorterReadsNumerals(n: int)
    ensures !IsFinalStep(Show(n))
    ensures OperationSorter(TextCell(Show(n))) == NumKey(n)
  {
    ParseShow(n);
    var s := Show(n);
    assert s[0] == '-' || IsDigit(s[0]);
    TrimKeepsTrimmed(s);
    var t := Lower(Trim(s));
    assert t[0] == s[0];
    assert !IsFinalStep(s) by {
      assert "final step"[0] == 'f' && "finalstep"[0] == 'f';
    }
  }

  /** One row of the routing table ("tree of operations"). */
  datatype RoutingRow = RoutingRow(
    project: string,
    order: RawOrder,
    machine: string,
    hourly: real,   // "Hourly prod"
    limit: int)     // "Workers per machine", read by `get_machine_limit`

  function RowKey(r: RoutingRow): OrderKey {
    OperationSorter(r.order)
  }

  /** The rows of the table whose project matches p after trimming and upper-casing, in table order. */
  function Matching(table: seq<RoutingRow>, p: string): (r: seq<RoutingRow>)
    ensures forall i :: 0 <= i < |r| ==> Norm(r[i].project) == Norm(p)
    ensures forall x :: x in table && Norm(x.project) == Norm(p) ==> x in r
  {
    if table == [] then []
    else (if Norm(table[0].project) == Norm(p) then [table[0]] else []) + Matching(table[1..], p)
  }

  /** The positions, from `from` on, of the rows of the table whose project matches p, in increasing order. */
  function MatchIndex(table: seq<RoutingRow>, p: string, from: nat := 0): (r: seq<nat>)
    requires from <= |table|
    ensures forall j :: 0 <= j < |r| ==> from <= r[j] < |table|
    decreases |table| - from
  {
    if from == |table| then []
    else (if Norm(table[from].project) == Norm(p) then [from] else []) + MatchIndex(table, p, from + 1)
  }

  /** The selection keeps every copy of a matching row: it holds each row as often as the table does, or not at all. */
  lemma {:induction false} MatchingCounts(table: seq<RoutingRow>, p: string)
    ensures forall x :: multiset(Matching(table, p))[x] == if Norm(x.project) == Norm(p) then multiset(table)[x] else 0
  {
    if table != [] {
      MatchingCounts(table[1..], p);
      assert table == [table[0]] + table[1..];
    }
  }

  /** The selection keeps table order: its rows are the table's rows at the matching positions, in increasing order. */
  lemma MatchingInOrder(table: seq<RoutingRow>, p: string)
    ensures var idx := MatchIndex(table, p);
      && |idx| == |Matching(table, p)|
      && (forall a, b :: 0 <= a < b < |idx| ==> idx[a] < idx[b])
      && (forall j :: 0 <= j < |idx| ==> Matching(table, p)[j] == table[idx[j]])
      && (forall k :: 0 <= k < |table| ==> (k in idx <==> Norm(table[k].project) == Norm(p)))
  {
    MatchIndexOrder(table, p, 0);
    MatchIndexMembers(table, p, 0);
    assert table[0..] == table;
  }

  lemma {:induction false} MatchIndexOrder(table: seq<RoutingRow>, p: string, from: nat)
    requires from <= |table|
    ensures var idx := MatchIndex(table, p, from);
      && |idx| == |Matching(table[from..], p)|
      && (forall a, b :: 0 <= a < b < |idx| ==> idx[a] < idx[b])
      && (forall j :: 0 <= j < |idx| ==> Matching(table[from..], p)[j] == table[idx[j]])
    decreases |table| - from
  {
    if from < |table| {
      MatchIndexOrder(table, p, from + 1);
      var hit := Norm(table[from].project) == Norm(p);
      var rest := MatchIndex(table, p, from + 1);
      var mt := Matching(table[from + 1..], p);
      assert table[from..][1..] == table[from + 1..];
      var m := (if hit then [table[from]] else []) + mt;
      assert Matching(table[from..], p) == m;
      if hit {
        var idx := [from] + rest;
        forall j | 1 <= j < |idx| ensures m[j] == table[idx[j]] {
          assert idx[j] == rest[j - 1] && m[j] == mt[j - 1];
        }
      }
    }
  }

  lemma {:induction false} MatchIndexMembers(table: seq<RoutingRow>, p: string, from: nat)
    requires from <= |table|
    ensures forall k :: from <= k < |table| ==> (k in MatchIndex(table, p, from) <==> Norm(table[k].project) == Norm(p))
    decreases |table| - from
  {
    if from < |table| {
      MatchIndexMembers(table, p, from + 1);
    }
  }

  /** `steps_per_project[p]`: the project's routing rows, stably sorted by operation key. */
  function StepsFor(table: seq<RoutingRow>, p: string): seq<RoutingRow> {
    StableSort.SortBy(Matching(table, p), RowKey, KeyLess)
  }

  /**
   * The step list of a project holds exactly its routing rows, ordered by operation key, and rows
   * with equal keys keep the order they have in the table.
   */
  lemma StepsForSpec(table: seq<RoutingRow>, p: string)
    ensures multiset(StepsFor(table, p)) == multiset(Matching(table, p))
    ensures forall x :: x in StepsFor(table, p) <==> x in table && Norm(x.project) == Norm(p)
    ensures StableSort.SortedBy(StepsFor(table, p), RowKey, KeyLess)
    ensures forall k :: StableSort.WithKey(StepsFor(table, p), RowKey, k)
                        == StableSort.WithKey(Matching(table, p), RowKey, k)
  {
    var m := Matching(table, p);
    KeyLessIsStrictTotalOrder();
    StableSort.SortBySorted(m, RowKey, KeyLess);
    forall k {
      StableSort.SortByStable(m, RowKey, KeyLess, k);
    }
    MatchingMembers(table, p);
    forall x ensures x in StepsFor(table, p) <==> x in m {
      assert x in StepsFor(table, p) <==> x in multiset(StepsFor(table, p));
    }
  }

  /** The key of a cell other than the sentinel is its int() value, or a text key when int() raises. */
  lemma SorterKey(v: RawOrder)
    ensures IsSentinel(v) ==> OperationSorter(v) == FinalKey
    ensures !IsSentinel(v) && IntValue(v).Some? ==> OperationSorter(v) == NumKey(IntValue(v).value)
    ensures !IsSentinel(v) && IntValue(v).None? ==> OperationSorter(v).TextKey?
  {
  }

  /**
   * Where a project's sorted routing puts the "final step" sentinel: never after a row whose cell
   * int() cannot read (an empty cell or other text), and never before a row whose cell reads as an
   * integer below 9999.
   */
  lemma FinalStepPlacement(table: seq<RoutingRow>, p: string)
    ensures var r := StepsFor(table, p);
      forall a, b :: 0 <= a < b < |r| && IsSentinel(r[b].order) ==>
        IsSentinel(r[a].order) || IntValue(r[a].order).Some?
    ensures var r := StepsFor(table, p);
      forall a, b :: 0 <= a < b < |r| && IsSentinel(r[a].order) && IntValue(r[b].order).Some? ==>
        IsSentinel(r[b].order) || IntValue(r[b].order).value >= 9999
  {
    var r := StepsFor(table, p);
    StepsForSpec(table, p);
    forall a, b | 0 <= a < b < |r|
      ensures IsSentinel(r[b].order) ==> IsSentinel(r[a].order) || IntValue(r[a].order).Some?
      ensures IsSentinel(r[a].order) && IntValue(r[b].order).Some? ==>
        IsSentinel(r[b].order) || IntValue(r[b].order).value >= 9999
    {
      assert !KeyLess(RowKey(r[b]), RowKey(r[a]));
      SorterKey(r[a].order);
      SorterKey(r[b].order);
    }
  }

  lemma {:induction false} MatchingMembers(table: seq<RoutingRow>, p: string)
    ensures forall x :: x in Matching(table, p) ==> x in table
  {
    if table != [] {
      MatchingMembers(table[1..], p);
    }
  }
}
