/** A player's profile: balance totals over their attendance, the history
    table for a date range, the due within that range, and the total of
    their recorded payments. */
module PlayerProfiles {
  import opened Basics
  import opened Calendar
  import opened Tables

  /** `str(from_date) <= r["session_date"] <= str(to_date)`. */
  predicate InRange(r: Attendance, from: Date, to: Date)
  {
    DateLe(from, r.date) && DateLe(r.date, to)
  }

  /** The history rows inside the chosen range, in the order the query
      returned them. */
  function FilterRange(rows: seq<Attendance>, from: Date, to: Date): (r: seq<Attendance>)
    ensures |r| <= |rows|
    decreases |rows|
  {
    if |rows| == 0 then []
    else
      FilterRange(rows[..|rows| - 1], from, to)
      + (if InRange(rows[|rows| - 1], from, to) then [rows[|rows| - 1]] else [])
  }

  /** The rows the range leaves out. */
  function FilterOutside(rows: seq<Attendance>, from: Date, to: Date): (r: seq<Attendance>)
    ensures |r| <= |rows|
    decreases |rows|
  {
    if |rows| == 0 then []
    else
      FilterOutside(rows[..|rows| - 1], from, to)
      + (if InRange(rows[|rows| - 1], from, to) then [] else [rows[|rows| - 1]])
  }

  /** A row is shown exactly when it is in the history and in the range;
      every other history row is left out. */
  lemma {:induction false} FilterMembers(rows: seq<Attendance>, from: Date, to: Date)
    ensures forall x :: x in FilterRange(rows, from, to) <==> x in rows && InRange(x, from, to)
    ensures forall x :: x in FilterOutside(rows, from, to) <==> x in rows && !InRange(x, from, to)
    decreases |rows|
  {
    if |rows| > 0 {
      var init := rows[..|rows| - 1];
      FilterMembers(init, from, to);
      assert rows == init + [rows[|rows| - 1]];
    }
  }

  /** Filtering a history in two pieces gives the two filtered pieces one
      after the other: the filter keeps the query's order. */
  lemma {:induction false} FilterRangeConcat(a: seq<Attendance>, b: seq<Attendance>, from: Date, to: Date)
    ensures FilterRange(a + b, from, to) == FilterRange(a, from, to) + FilterRange(b, from, to)
    decreases |b|
  {
    if |b| == 0 {
      assert a + b == a;
    } else {
      var ab, b', x := a + b, b[..|b| - 1], b[|b| - 1];
      assert ab[..|ab| - 1] == a + b';
      assert ab[|ab| - 1] == x;
      var t := if InRange(x, from, to) then [x] else [];
      FilterRangeConcat(a, b', from, to);
      calc {
        FilterRange(ab, from, to);
        FilterRange(a + b', from, to) + t;
        (FilterRange(a, from, to) + FilterRange(b', from, to)) + t;
        FilterRange(a, from, to) + (FilterRange(b', from, to) + t);
        FilterRange(a, from, to) + FilterRange(b, from, to);
      }
    }
  }

  /** `total_due_filtered`: the sum of the dues shown in the range table. */
  function TotalDueInRange(rows: seq<Attendance>, from: Date, to: Date): int
  {
    Sum(FilterRange(rows, from, to), Due)
  }

  /** The dues of a history split between the rows inside the range and the
      rows outside it. */
  lemma {:induction false} DueSplit(rows: seq<Attendance>, from: Date, to: Date)
    ensures Sum(FilterRange(rows, from, to), Due) + Sum(FilterOutside(rows, from, to), Due) == Sum(rows, Due)
    decreases |rows|
  {
    if |rows| > 0 {
      var init, x := rows[..|rows| - 1], rows[|rows| - 1];
      var fi, fo := FilterRange(init, from, to), FilterOutside(init, from, to);
      DueSplit(init, from, to);
      assert Sum([x], Due) == Due(x) by { assert [x][..0] == []; }
      if InRange(x, from, to) {
        SumConcat(fi, [x], Due);
        assert FilterRange(rows, from, to) == fi + [x];
        assert FilterOutside(rows, from, to) == fo + [];
        assert fo + [] == fo;
      } else {
        SumConcat(fo, [x], Due);
        assert FilterOutside(rows, from, to) == fo + [x];
        assert FilterRange(rows, from, to) == fi + [];
        assert fi + [] == fi;
      }
    }
  }

  /** The due inside the range plus the due outside it is the balance due
      at the top of the page. */
  lemma DueInsideAndOutside(rows: seq<Attendance>, from: Date, to: Date)
    ensures TotalDueInRange(rows, from, to) + Sum(FilterOutside(rows, from, to), Due)
         == TotalCharged(rows) - TotalPaid(rows)
  {
    DueSplit(rows, from, to);
    BalanceIsSumOfDues(rows);
  }

  function Amount(p: Payment): int
  {
    p.amount
  }

  /** "Total payments recorded": the sum of the player's payment amounts. */
  function TotalPayments(pays: seq<Payment>): int
  {
    Sum(pays, Amount)
  }

  /** With no negative payment the total is not negative and is at least
      every single payment. */
  lemma {:induction false} TotalPaymentsBounds(pays: seq<Payment>)
    requires forall i :: 0 <= i < |pays| ==> pays[i].amount >= 0
    ensures TotalPayments(pays) >= 0
    ensures forall i :: 0 <= i < |pays| ==> TotalPayments(pays) >= pays[i].amount
    decreases |pays|
  {
    if |pays| > 0 {
      TotalPaymentsBounds(pays[..|pays| - 1]);
    }
  }
}
