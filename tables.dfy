/** The club's tables as the pages see them: players, attendance rows,
    payments, payment-to-session links, monthly fee overrides and
    expenditures, held in one `Ledger` object whose fields every page action
    updates; plus the attendance filter chains the pages query with and the
    sums they take over the rows they get back. */
module Tables {
  import opened Basics
  import opened Calendar

  /** A row id, as the database assigns it. */
  type Id = nat

  /** `session_time`: "morning" or "evening". */
  datatype Slot = Morning | Evening

  datatype Player = Player(
    name: string,
    phone: string,
    membership: string,        // "regular" or "monthly"
    monthlyFee: Option<int>,   // paise; NULL for regular members
    skill: Option<int>,
    profession: Option<string>,
    workTiming: Option<string>,
    active: bool)

  /** One player at one session: what the session costs and how much of it
      has been paid, both in paise and both possibly NULL. */
  datatype Attendance = Attendance(
    player: Id,
    date: Date,
    slot: Slot,
    fee: Option<int>,
    paid: Option<int>,
    monthlyMember: bool,
    notes: Option<string>)

  /** Money received from a player. */
  datatype Payment = Payment(player: Id, amount: int, date: Date, notes: Option<string>)

  /** Key of a `payment_attendance` row; its value is `applied_amount`. */
  datatype LinkKey = LinkKey(payment: Id, attendance: Id)

  /** Key of a `monthly_fee_config` row; its value is `monthly_fee`. */
  datatype FeeKey = FeeKey(player: Id, month: Month)

  datatype Expenditure = Expenditure(date: Date, category: string, amount: int, notes: Option<string>)

  predicate IsMonthly(p: Player)
  {
    p.membership == "monthly"
  }

  /** `fee_charged or 0`. */
  function Charged(r: Attendance): int
  {
    OrZero(r.fee)
  }

  /** `amount_paid or 0`. */
  function PaidOf(r: Attendance): int
  {
    OrZero(r.paid)
  }

  /** A session's due: `(fee_charged or 0) - (amount_paid or 0)`. */
  function Due(r: Attendance): int
  {
    Charged(r) - PaidOf(r)
  }

  /** A missing fee or payment behaves exactly like a recorded zero. */
  lemma MissingReadsAsZero(r: Attendance)
    ensures Due(r.(fee := None)) == Due(r.(fee := Some(0)))
    ensures Due(r.(paid := None)) == Due(r.(paid := Some(0)))
    ensures Due(r.(fee := None, paid := None)) == 0
  {
  }

  /** A filter chain on the attendance table: `.eq("player_id", ..)`,
      `.eq("session_date", ..)`, `.eq("session_time", ..)`,
      `.gte("session_date", ..)`, `.lte("session_date", ..)`,
      `.lt("session_date", ..)`; an absent part does not filter. */
  datatype Query = Query(
    player: Option<Id>,
    on: Option<Date>,
    slot: Option<Slot>,
    from: Option<Date>,
    to: Option<Date>,
    before: Option<Date>)

  predicate Matches(q: Query, r: Attendance)
  {
    && (q.player.Some? ==> r.player == q.player.value)
    && (q.on.Some? ==> r.date == q.on.value)
    && (q.slot.Some? ==> r.slot == q.slot.value)
    && (q.from.Some? ==> DateLe(q.from.value, r.date))
    && (q.to.Some? ==> DateLe(r.date, q.to.value))
    && (q.before.Some? ==> DateLt(r.date, q.before.value))
  }

  /** A player's sessions in a month. */
  function MonthQuery(pid: Id, mo: Month): (q: Query)
    requires ValidMonth(mo)
  {
    Query(Some(pid), None, None, Some(FirstDay(mo)), Some(LastDay(mo)), None)
  }

  /** Every session of a month, whoever attended it. */
  function MonthWide(mo: Month): (q: Query)
    requires ValidMonth(mo)
    ensures forall pid :: q.(player := Some(pid)) == MonthQuery(pid, mo)
  {
    Query(None, None, None, Some(FirstDay(mo)), Some(LastDay(mo)), None)
  }

  /** The ids below n of the rows that satisfy q, in increasing order: the
      rows such a query returns. */
  function Select(m: map<Id, Attendance>, n: nat, q: Query): (ids: seq<Id>)
    ensures forall i :: 0 <= i < |ids| ==> ids[i] < n && ids[i] in m && Matches(q, m[ids[i]])
    ensures forall i, j :: 0 <= i < j < |ids| ==> ids[i] < ids[j]
    ensures forall k :: 0 <= k < n && k in m && Matches(q, m[k]) ==> k in ids
  {
    if n == 0 then []
    else
      var ids := Select(m, n - 1, q);
      if n - 1 in m && Matches(q, m[n - 1]) then ids + [n - 1] else ids
  }

  /** Raising the bound past every key selects nothing more. */
  lemma {:induction false} SelectBeyond(m: map<Id, Attendance>, n: nat, n': nat, q: Query)
    requires n <= n' && forall k :: k in m ==> k < n
    ensures Select(m, n', q) == Select(m, n, q)
    decreases n' - n
  {
    if n < n' {
      SelectBeyond(m, n, n' - 1, q);
    }
  }

  /** The rows behind a list of ids. */
  function Rows(m: map<Id, Attendance>, ids: seq<Id>): (rows: seq<Attendance>)
    requires forall i :: 0 <= i < |ids| ==> ids[i] in m
    ensures |rows| == |ids| && forall i :: 0 <= i < |ids| ==> rows[i] == m[ids[i]]
  {
    seq(|ids|, i requires 0 <= i < |ids| => m[ids[i]])
  }

  /** The rows that belong to one player, in their original order. */
  function OfPlayer(rows: seq<Attendance>, pid: Id): (r: seq<Attendance>)
    decreases |rows|
  {
    if |rows| == 0 then []
    else
      var last := rows[|rows| - 1];
      OfPlayer(rows[..|rows| - 1], pid) + (if last.player == pid then [last] else [])
  }

  /** A player with a row among rows has a share of them. */
  lemma {:induction false} OfPlayerHas(rows: seq<Attendance>, j: nat)
    requires j < |rows|
    ensures |OfPlayer(rows, rows[j].player)| > 0
    decreases |rows|
  {
    var k := |rows| - 1;
    if j < k {
      OfPlayerHas(rows[..k], j);
    }
  }

  /** One more row joins its own player's share and no one else's. */
  lemma OfPlayerSnoc(rows: seq<Attendance>, r: Attendance, pid: Id)
    ensures OfPlayer(rows + [r], pid) == OfPlayer(rows, pid) + (if r.player == pid then [r] else [])
  {
    assert (rows + [r])[..|rows|] == rows;
  }

  /** One more row adds one to its own player's number of rows and its
      value under f to their sum, and changes no one else's; a player with
      no rows sums to nothing. */
  lemma OfPlayerSumSnoc(pre: seq<Attendance>, r: Attendance, pid: Id, f: Attendance -> int)
    ensures |OfPlayer(pre + [r], pid)| == |OfPlayer(pre, pid)| + (if r.player == pid then 1 else 0)
    ensures Sum(OfPlayer(pre + [r], pid), f) == Sum(OfPlayer(pre, pid), f) + (if r.player == pid then f(r) else 0)
    ensures |OfPlayer(pre, pid)| == 0 ==> Sum(OfPlayer(pre, pid), f) == 0
  {
    OfPlayerSnoc(pre, r, pid);
    if r.player == pid {
      SumSnoc(OfPlayer(pre, pid), r, f);
    } else {
      assert OfPlayer(pre, pid) + [] == OfPlayer(pre, pid);
    }
  }

  /** The rows behind one more id. */
  lemma RowsSnoc(m: map<Id, Attendance>, ids: seq<Id>, k: Id)
    requires (forall i :: 0 <= i < |ids| ==> ids[i] in m) && k in m
    ensures Rows(m, ids + [k]) == Rows(m, ids) + [m[k]]
  {
  }

  /** A player who has no rows has an empty share of them. */
  lemma {:induction false} OfAbsentPlayer(rows: seq<Attendance>, pid: Id)
    requires forall i :: 0 <= i < |rows| ==> rows[i].player != pid
    ensures OfPlayer(rows, pid) == []
    decreases |rows|
  {
    if |rows| > 0 {
      OfAbsentPlayer(rows[..|rows| - 1], pid);
    }
  }

  /** `sum(fee_charged or 0 for r in rows)`. */
  function TotalCharged(rows: seq<Attendance>): int
  {
    Sum(rows, Charged)
  }

  /** `sum(amount_paid or 0 for r in rows)`. */
  function TotalPaid(rows: seq<Attendance>): int
  {
    Sum(rows, PaidOf)
  }

  /** Balance due as the pages print it, total charged minus total paid,
      is the sum of the sessions' own dues. */
  lemma {:induction false} BalanceIsSumOfDues(rows: seq<Attendance>)
    ensures TotalCharged(rows) - TotalPaid(rows) == Sum(rows, Due)
    decreases |rows|
  {
    if |rows| > 0 {
      BalanceIsSumOfDues(rows[..|rows| - 1]);
    }
  }

  /** `applied_amount` of the link from payment pay to session a, or 0. */
  function Applied(links: map<LinkKey, int>, pay: Id, a: Id): int
  {
    if LinkKey(pay, a) in links then links[LinkKey(pay, a)] else 0
  }

  /** The sum of what payment pay has applied to sessions below n. */
  function AppliedTotal(links: map<LinkKey, int>, pay: Id, n: nat): int
  {
    if n == 0 then 0 else AppliedTotal(links, pay, n - 1) + Applied(links, pay, n - 1)
  }

  /** Setting one link of payment pay changes its applied total by exactly
      the change in that link. */
  lemma {:induction false} AppliedTotalSet(links: map<LinkKey, int>, pay: Id, n: nat, a: Id, v: int)
    requires a < n
    ensures AppliedTotal(links[LinkKey(pay, a) := v], pay, n) == AppliedTotal(links, pay, n) - Applied(links, pay, a) + v
  {
    var links' := links[LinkKey(pay, a) := v];
    if n - 1 == a {
      AppliedTotalOutside(links, pay, n - 1, a, v);
    } else {
      AppliedTotalSet(links, pay, n - 1, a, v);
    }
  }

  /** A link to a session at or above n does not count below n. */
  lemma {:induction false} AppliedTotalOutside(links: map<LinkKey, int>, pay: Id, n: nat, a: Id, v: int)
    requires n <= a
    ensures AppliedTotal(links[LinkKey(pay, a) := v], pay, n) == AppliedTotal(links, pay, n)
  {
    if n > 0 {
      AppliedTotalOutside(links, pay, n - 1, a, v);
    }
  }

  /** Links of other payments do not count toward pay. */
  lemma {:induction false} AppliedTotalOther(links: map<LinkKey, int>, pay: Id, n: nat, k: LinkKey, v: int)
    requires k.payment != pay
    ensures AppliedTotal(links[k := v], pay, n) == AppliedTotal(links, pay, n)
  {
    if n > 0 {
      AppliedTotalOther(links, pay, n - 1, k, v);
    }
  }

  /** A payment without links has applied nothing. */
  lemma {:induction false} AppliedTotalNone(links: map<LinkKey, int>, pay: Id, n: nat)
    requires forall k :: k in links ==> k.payment != pay
    ensures AppliedTotal(links, pay, n) == 0
  {
    if n > 0 {
      AppliedTotalNone(links, pay, n - 1);
    }
  }

  /** The sessions below n that payment pay is linked to, in increasing
      order: `payment_attendance.select(..).eq("payment_id", pay)`. */
  function LinkedSessions(links: map<LinkKey, int>, pay: Id, n: nat): (ids: seq<Id>)
    ensures forall i :: 0 <= i < |ids| ==> ids[i] < n && LinkKey(pay, ids[i]) in links
    ensures forall i, j :: 0 <= i < j < |ids| ==> ids[i] < ids[j]
    ensures forall a :: 0 <= a < n && LinkKey(pay, a) in links ==> a in ids
  {
    if n == 0 then []
    else
      var ids := LinkedSessions(links, pay, n - 1);
      if LinkKey(pay, n - 1) in links then ids + [n - 1] else ids
  }

  /** The sum of `amount_paid` over every session below n. */
  function PaidTotal(m: map<Id, Attendance>, n: nat): int
  {
    if n == 0 then 0 else PaidTotal(m, n - 1) + (if n - 1 in m then PaidOf(m[n - 1]) else 0)
  }

  /** Rewriting one session changes the paid total by exactly the change in
      that session's `amount_paid`. */
  lemma {:induction false} PaidTotalSet(m: map<Id, Attendance>, n: nat, a: Id, row: Attendance)
    requires a < n && a in m
    ensures PaidTotal(m[a := row], n) == PaidTotal(m, n) - PaidOf(m[a]) + PaidOf(row)
  {
    if n - 1 == a {
      PaidTotalOutside(m, n - 1, a, row);
    } else {
      PaidTotalSet(m, n - 1, a, row);
    }
  }

  lemma {:induction false} PaidTotalOutside(m: map<Id, Attendance>, n: nat, a: Id, row: Attendance)
    requires n <= a
    ensures PaidTotal(m[a := row], n) == PaidTotal(m, n)
  {
    if n > 0 {
      PaidTotalOutside(m, n - 1, a, row);
    }
  }

  /** Every id in use, and both ids of every link, are below n. */
  ghost predicate Bounded(players: map<Id, Player>, attendance: map<Id, Attendance>, payments: map<Id, Payment>,
                          links: map<LinkKey, int>, expenditures: map<Id, Expenditure>, n: nat)
  {
    && (forall k :: k in players ==> k < n)
    && (forall k :: k in attendance ==> k < n)
    && (forall k :: k in payments ==> k < n)
    && (forall k :: k in expenditures ==> k < n)
    && (forall l :: l in links ==> l.payment < n && l.attendance < n)
  }

  /** The club's database. Every insert takes the next id from one counter,
      so every id in use is below `nextId`. */
  class Ledger {
    var players: map<Id, Player>
    var attendance: map<Id, Attendance>
    var payments: map<Id, Payment>
    var links: map<LinkKey, int>
    var feeConfig: map<FeeKey, int>
    var expenditures: map<Id, Expenditure>
    var nextId: nat

    ghost predicate Valid()
      reads this
    {
      Bounded(players, attendance, payments, links, expenditures, nextId)
    }

    constructor ()
      ensures Valid()
      ensures players == map[] && attendance == map[] && payments == map[]
      ensures links == map[] && feeConfig == map[] && expenditures == map[]
    {
      players, attendance, payments := map[], map[], map[];
      links, feeConfig, expenditures := map[], map[], map[];
      nextId := 0;
    }

    /** The id the database gives the row about to be inserted. */
    method FreshId() returns (id: Id)
      requires Valid()
      modifies this`nextId
      ensures Valid()
      ensures id == old(nextId) && nextId == id + 1
    {
      id := nextId;
      nextId := nextId + 1;
    }
  }

  /** `amount_paid` never negative anywhere. */
  predicate PaidNonNegative(m: map<Id, Attendance>)
  {
    forall k :: k in m ==> PaidOf(m[k]) >= 0
  }

  /** The attendance table keeps at most one row per player and session. */
  predicate OneRowPerSession(m: map<Id, Attendance>)
  {
    forall a, b :: a in m && b in m && a != b ==>
      !(m[a].player == m[b].player && m[a].date == m[b].date && m[a].slot == m[b].slot)
  }
}
