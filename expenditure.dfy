/** The expenditure and profit page: logging an expense, the month's
    profit and loss, the spend per category, and deleting an entry from the
    full log. */
module ExpenditurePage {
  import opened Basics
  import opened Text
  import opened Calendar
  import opened Tables

  /** The category drop-down. */
  const Categories: seq<string> := ["Court booking", "Shuttles", "Equipment", "Other"]

  datatype AddOutcome = NonPositiveAmount | Saved(id: Id)

  /** "💾 Save Expenditure": an amount of zero or less is refused and nothing
      is written; otherwise one entry is inserted with the notes stripped
      and blank notes stored as NULL. */
  method AddExpenditure(db: Ledger, date: Date, category: string, amount: int, notes: string)
    returns (outcome: AddOutcome)
    requires db.Valid()
    modifies db`expenditures, db`nextId
    ensures db.Valid()
    ensures outcome == NonPositiveAmount <==> amount <= 0
    ensures outcome == NonPositiveAmount ==> db.expenditures == old(db.expenditures) && db.nextId == old(db.nextId)
    ensures outcome.Saved? ==>
      && outcome.id !in old(db.expenditures)
      && db.expenditures == old(db.expenditures)[outcome.id := Expenditure(date, category, amount, NoneIfEmpty(Strip(notes)))]
      && (db.expenditures[outcome.id].notes.None? <==> AllSpace(notes))
  {
    if amount <= 0 {
      return NonPositiveAmount;
    }
    StripEmptyIffBlank(notes);
    var id := db.FreshId();
    db.expenditures := db.expenditures[id := Expenditure(date, category, amount, NoneIfEmpty(Strip(notes)))];
    outcome := Saved(id);
  }

  /** The ids below n of the entries dated from `from` to `to`, both
      included: `.gte("exp_date", ..).lte("exp_date", ..)`. */
  function SelectSpending(m: map<Id, Expenditure>, n: nat, from: Date, to: Date): (ids: seq<Id>)
    ensures forall i :: 0 <= i < |ids| ==> ids[i] < n && ids[i] in m && DateLe(from, m[ids[i]].date) && DateLe(m[ids[i]].date, to)
    ensures forall i, j :: 0 <= i < j < |ids| ==> ids[i] < ids[j]
    ensures forall k :: 0 <= k < n && k in m && DateLe(from, m[k].date) && DateLe(m[k].date, to) ==> k in ids
  {
    if n == 0 then []
    else
      var ids := SelectSpending(m, n - 1, from, to);
      if n - 1 in m && DateLe(from, m[n - 1].date) && DateLe(m[n - 1].date, to) then ids + [n - 1] else ids
  }

  function Spent(e: Expenditure): int
  {
    e.amount
  }

  /** The month's figures: fees charged, money collected, money spent, and
      the profit, which is collected less spent. */
  datatype PnL = PnL(revenue: int, collected: int, expenditure: int, profit: int)

  function MonthPnL(att: seq<Attendance>, exps: seq<Expenditure>): (r: PnL)
    ensures r.profit == r.collected - r.expenditure
  {
    var collected, spent := TotalPaid(att), Sum(exps, Spent);
    PnL(TotalCharged(att), collected, spent, collected - spent)
  }

  /** The entries of the listed ids, in list order. */
  function Entries(m: map<Id, Expenditure>, ids: seq<Id>): (es: seq<Expenditure>)
    requires forall i :: 0 <= i < |ids| ==> ids[i] in m
    ensures |es| == |ids| && forall i :: 0 <= i < |ids| ==> es[i] == m[ids[i]]
  {
    seq(|ids|, i requires 0 <= i < |ids| => m[ids[i]])
  }

  /** The page's P&L for a month, from the sessions and the entries the two
      date-range queries return. */
  function MonthFigures(att: map<Id, Attendance>, exps: map<Id, Expenditure>, n: nat, mo: Month): PnL
    requires ValidMonth(mo)
  {
    var sessions := Rows(att, Select(att, n, MonthWide(mo)));
    MonthPnL(sessions, Entries(exps, SelectSpending(exps, n, FirstDay(mo), LastDay(mo))))
  }

  /** f added up over the sessions below n held in month mo. */
  function SessionsOfMonth(att: map<Id, Attendance>, n: nat, mo: Month, f: Attendance -> int): int
  {
    if n == 0 then 0
    else SessionsOfMonth(att, n - 1, mo, f) + (if n - 1 in att && MonthOf(att[n - 1].date) == mo then f(att[n - 1]) else 0)
  }

  /** The amounts of the entries below n dated in month mo, added up. */
  function SpentInMonth(exps: map<Id, Expenditure>, n: nat, mo: Month): int
  {
    if n == 0 then 0
    else SpentInMonth(exps, n - 1, mo) + (if n - 1 in exps && MonthOf(exps[n - 1].date) == mo then exps[n - 1].amount else 0)
  }

  /** The sessions a query returns add up, under any f, to f over exactly
      the sessions held in month mo, when the query keeps exactly the
      sessions of that month. */
  lemma {:induction false} MonthSessionsSum(att: map<Id, Attendance>, n: nat, q: Query, mo: Month, f: Attendance -> int)
    requires forall k :: k in att ==> (Matches(q, att[k]) <==> MonthOf(att[k].date) == mo)
    ensures Sum(Rows(att, Select(att, n, q)), f) == SessionsOfMonth(att, n, mo, f)
    decreases n
  {
    if n > 0 {
      var k := n - 1;
      MonthSessionsSum(att, k, q, mo, f);
      SelectedStep(att, k, q, f);
      if k in att {
        assert Matches(q, att[k]) <==> MonthOf(att[k].date) == mo;
      }
    }
  }

  /** One more id adds f of its session to the query's sum exactly when
      that session matches the query. */
  lemma SelectedStep(att: map<Id, Attendance>, k: nat, q: Query, f: Attendance -> int)
    ensures Sum(Rows(att, Select(att, k + 1, q)), f)
         == Sum(Rows(att, Select(att, k, q)), f) + (if k in att && Matches(q, att[k]) then f(att[k]) else 0)
  {
    var ids := Select(att, k, q);
    if k in att && Matches(q, att[k]) {
      assert Select(att, k + 1, q) == ids + [k];
      RowsSnoc(att, ids, k);
      SumSnoc(Rows(att, ids), att[k], f);
    } else {
      assert Select(att, k + 1, q) == ids;
    }
  }

  /** The entries dated from `from` to `to` add up to the amounts of exactly
      the entries dated in month mo, when those dates bound exactly that
      month. */
  lemma {:induction false} MonthSpendingSum(exps: map<Id, Expenditure>, n: nat, from: Date, to: Date, mo: Month)
    requires forall k :: k in exps ==> (DateLe(from, exps[k].date) && DateLe(exps[k].date, to) <==> MonthOf(exps[k].date) == mo)
    ensures Sum(Entries(exps, SelectSpending(exps, n, from, to)), Spent) == SpentInMonth(exps, n, mo)
    decreases n
  {
    if n > 0 {
      var k := n - 1;
      MonthSpendingSum(exps, k, from, to, mo);
      SpendingStep(exps, k, from, to);
      if k in exps {
        assert DateLe(from, exps[k].date) && DateLe(exps[k].date, to) <==> MonthOf(exps[k].date) == mo;
      }
    }
  }

  /** One more id adds its entry's amount to the range's spend exactly
      when that entry is in the range. */
  lemma SpendingStep(exps: map<Id, Expenditure>, k: nat, from: Date, to: Date)
    ensures Sum(Entries(exps, SelectSpending(exps, k + 1, from, to)), Spent)
         == Sum(Entries(exps, SelectSpending(exps, k, from, to)), Spent)
            + (if k in exps && DateLe(from, exps[k].date) && DateLe(exps[k].date, to) then exps[k].amount else 0)
  {
    var ids := SelectSpending(exps, k, from, to);
    var es := Entries(exps, ids);
    if k in exps && DateLe(from, exps[k].date) && DateLe(exps[k].date, to) {
      assert SelectSpending(exps, k + 1, from, to) == ids + [k];
      assert Entries(exps, ids + [k]) == es + [exps[k]];
      SumSnoc(es, exps[k], Spent);
    } else {
      assert SelectSpending(exps, k + 1, from, to) == ids;
    }
  }

  /** The page's figures for a month: revenue is the fees charged, collected
      the amounts paid, over exactly the sessions held in the month, and
      expenditure the amounts of exactly the entries dated in it; the profit
      is collected less spent. */
  lemma MonthFiguresAddUp(att: map<Id, Attendance>, exps: map<Id, Expenditure>, n: nat, mo: Month)
    requires ValidMonth(mo)
    requires forall k :: k in att ==> ValidDate(att[k].date)
    requires forall k :: k in exps ==> ValidDate(exps[k].date)
    ensures var r := MonthFigures(att, exps, n, mo);
      && r.revenue == SessionsOfMonth(att, n, mo, Charged)
      && r.collected == SessionsOfMonth(att, n, mo, PaidOf)
      && r.expenditure == SpentInMonth(exps, n, mo)
      && r.profit == r.collected - r.expenditure
  {
    var q, from, to := MonthWide(mo), FirstDay(mo), LastDay(mo);
    forall k | k in att
      ensures Matches(q, att[k]) <==> MonthOf(att[k].date) == mo
    {
      InMonthIffMonthOf(mo, att[k].date);
    }
    forall k | k in exps
      ensures DateLe(from, exps[k].date) && DateLe(exps[k].date, to) <==> MonthOf(exps[k].date) == mo
    {
      InMonthIffMonthOf(mo, exps[k].date);
    }
    MonthSessionsSum(att, n, q, mo, Charged);
    MonthSessionsSum(att, n, q, mo, PaidOf);
    MonthSpendingSum(exps, n, from, to, mo);
  }

  /** The "in profit" message shows exactly when the profit is not negative. */
  predicate InProfit(p: PnL)
  {
    p.profit >= 0
  }

  /** Profit is counted on money collected, not on fees charged: changing
      what the sessions charge, and nothing they paid, leaves it where it
      was. */
  lemma {:induction false} ProfitIgnoresFees(att: seq<Attendance>, att': seq<Attendance>, exps: seq<Expenditure>)
    requires |att'| == |att| && forall i :: 0 <= i < |att| ==> att'[i].paid == att[i].paid
    ensures MonthPnL(att', exps).profit == MonthPnL(att, exps).profit
    ensures MonthPnL(att', exps).collected == MonthPnL(att, exps).collected
    decreases |att|
  {
    if |att| > 0 {
      var k := |att| - 1;
      ProfitIgnoresFees(att[..k], att'[..k], exps);
    }
  }

  /** The same month is in profit or at a loss as collected is at least
      or below what was spent. */
  lemma InProfitIffCovered(att: seq<Attendance>, exps: seq<Expenditure>)
    ensures InProfit(MonthPnL(att, exps)) <==> TotalPaid(att) >= Sum(exps, Spent)
  {
  }

  /** One category's spend: the `groupby("category")["amount"].sum()` entry. */
  function CategoryTotal(exps: seq<Expenditure>, c: string): int
    decreases |exps|
  {
    if |exps| == 0 then 0
    else CategoryTotal(exps[..|exps| - 1], c) + (if exps[|exps| - 1].category == c then exps[|exps| - 1].amount else 0)
  }

  /** The spend of the listed categories added up. */
  function CategoriesTotal(exps: seq<Expenditure>, cats: seq<string>): int
    decreases |cats|
  {
    if |cats| == 0 then 0
    else CategoriesTotal(exps, cats[..|cats| - 1]) + CategoryTotal(exps, cats[|cats| - 1])
  }

  /** One more entry adds its amount to the listed categories' spend when
      its category is listed once among them, and nothing otherwise. */
  lemma {:induction false} CategoriesTotalSnoc(exps: seq<Expenditure>, e: Expenditure, cats: seq<string>)
    requires Distinct(cats)
    ensures CategoriesTotal(exps + [e], cats) == CategoriesTotal(exps, cats) + (if e.category in cats then e.amount else 0)
    decreases |cats|
  {
    assert (exps + [e])[..|exps|] == exps;
    if |cats| > 0 {
      var k := |cats| - 1;
      CategoriesTotalSnoc(exps, e, cats[..k]);
      assert cats == cats[..k] + [cats[k]];
    }
  }

  /** The slices of the spend-by-category chart add up to the month's
      total expenditure, whatever order the categories come in. */
  lemma {:induction false} CategoriesAddUp(exps: seq<Expenditure>, cats: seq<string>)
    requires Distinct(cats)
    requires forall i :: 0 <= i < |exps| ==> exps[i].category in cats
    ensures CategoriesTotal(exps, cats) == Sum(exps, Spent)
    decreases |exps|
  {
    if |exps| == 0 {
      CategoriesNone(cats);
    } else {
      var k := |exps| - 1;
      CategoriesAddUp(exps[..k], cats);
      CategoriesTotalSnoc(exps[..k], exps[k], cats);
      assert exps == exps[..k] + [exps[k]];
    }
  }

  lemma {:induction false} CategoriesNone(cats: seq<string>)
    ensures CategoriesTotal([], cats) == 0
    decreases |cats|
  {
    if |cats| > 0 {
      CategoriesNone(cats[..|cats| - 1]);
    }
  }

  /** What an entry of the delete drop-down reads: date, category, amount
      and notes (empty when NULL). The category comes from a fixed list and
      the notes come last, so two entries read alike exactly when these
      four parts agree. */
  datatype EntryLabel = EntryLabel(date: Date, category: string, amount: int, notes: string)

  function LabelOf(e: Expenditure): EntryLabel
  {
    EntryLabel(e.date, e.category, e.amount, match e.notes case None => "" case Some(s) => s)
  }

  /** `del_options`: the drop-down entries of the log, in its order. */
  function Labels(m: map<Id, Expenditure>, log: seq<Id>): (r: seq<EntryLabel>)
    requires forall i :: 0 <= i < |log| ==> log[i] in m
    ensures |r| == |log| && forall i :: 0 <= i < |log| ==> r[i] == LabelOf(m[log[i]])
  {
    seq(|log|, i requires 0 <= i < |log| => LabelOf(m[log[i]]))
  }

  /** "🗑️ Delete this entry" for the entry chosen from the full log, listed
      newest first as `log`. The id deleted is that of the first entry that
      reads like the chosen one: one entry goes, it reads exactly like the
      chosen one, and when no two entries read alike it is the chosen one. */
  method DeleteExpenditure(db: Ledger, log: seq<Id>, chosen: nat) returns (deleted: Id)
    requires chosen < |log| && forall i :: 0 <= i < |log| ==> log[i] in db.expenditures
    requires db.Valid()
    modifies db`expenditures
    ensures db.Valid()
    ensures deleted in old(db.expenditures) && db.expenditures == old(db.expenditures) - {deleted}
    ensures LabelOf(old(db.expenditures)[deleted]) == LabelOf(old(db.expenditures)[log[chosen]])
    ensures Distinct(Labels(old(db.expenditures), log)) ==> deleted == log[chosen]
  {
    var labels := Labels(db.expenditures, log);
    // `del_options.index(del_choice)`
    var idx := IndexOf(labels, labels[chosen]);
    if Distinct(labels) {
      IndexOfDistinct(labels, chosen);
    }
    deleted := log[idx];
    db.expenditures := db.expenditures - {deleted};
  }
}
