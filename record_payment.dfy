/** Collecting money from a player: quick pay for today's or recent
    sessions, settling chosen sessions, a monthly lump sum, and the history
    tab's delete, edit, bulk-fill and per-session edits. Every action is a
    method on the `Ledger` that inserts payments and links and rewrites
    `amount_paid`. */
module RecordPayment {
  import opened Basics
  import opened Text
  import opened Calendar
  import opened Tables
  import opened Sessions

  /** The separator the payment notes are joined with. */
  const Dash: string := " \U{2014} "

  /** A session after `amount` more is paid on it:
      `amount_paid = round(paid + amount, 2)`. */
  function Credit(r: Attendance, amount: int): (r': Attendance)
    ensures r'.player == r.player && r'.date == r.date && r'.slot == r.slot && r'.fee == r.fee
    ensures PaidOf(r') == PaidOf(r) + amount && Due(r') == Due(r) - amount
  {
    r.(paid := Some(PaidOf(r) + amount))
  }

  /** Crediting sessions raises the paid total by the sum of the amounts. */
  lemma {:induction false} CreditPaidTotal(m: map<Id, Attendance>, ids: seq<Id>, amounts: seq<int>, n: nat)
    requires |amounts| == |ids| && forall i :: 0 <= i < |ids| ==> ids[i] in m && ids[i] < n
    requires Distinct(ids)
    ensures PaidTotal(Rewrite(m, ids, amounts, Credit), n) == PaidTotal(m, n) + Total(amounts)
    decreases |ids|
  {
    if |ids| > 0 {
      var k := |ids| - 1;
      var prev := Rewrite(m, ids[..k], amounts[..k], Credit);
      CreditPaidTotal(m, ids[..k], amounts[..k], n);
      RewriteRows(m, ids[..k], amounts[..k], Credit);
      assert ids[k] !in ids[..k];
      PaidTotalSet(prev, n, ids[k], Credit(m[ids[k]], amounts[k]));
    }
  }

  /** The link rows of payment `pay` to the sessions `ids`, each carrying its
      own amount. */
  function LinkAll(links: map<LinkKey, int>, pay: Id, ids: seq<Id>, amounts: seq<int>): map<LinkKey, int>
    requires |amounts| == |ids|
    decreases |ids|
  {
    if |ids| == 0 then links
    else
      var k := |ids| - 1;
      LinkAll(links, pay, ids[..k], amounts[..k])[LinkKey(pay, ids[k]) := amounts[k]]
  }

  /** Linking adds exactly one row per listed session, carrying its amount,
      and keeps every other link. */
  lemma {:induction false} LinkAllRows(links: map<LinkKey, int>, pay: Id, ids: seq<Id>, amounts: seq<int>)
    requires |amounts| == |ids| && Distinct(ids)
    ensures forall key :: key in LinkAll(links, pay, ids, amounts) <==>
      key in links || (key.payment == pay && key.attendance in ids)
    ensures forall key :: key in links && !(key.payment == pay && key.attendance in ids) ==>
      LinkAll(links, pay, ids, amounts)[key] == links[key]
    ensures forall i :: 0 <= i < |ids| ==> LinkAll(links, pay, ids, amounts)[LinkKey(pay, ids[i])] == amounts[i]
    decreases |ids|
  {
    if |ids| > 0 {
      var k := |ids| - 1;
      LinkAllRows(links, pay, ids[..k], amounts[..k]);
      assert ids == ids[..k] + [ids[k]];
      assert forall i :: 0 <= i < k ==> ids[..k][i] == ids[i] && amounts[..k][i] == amounts[i];
    }
  }

  /** Linking sessions below n to a payment below n keeps every link's ids
      below n. */
  lemma {:induction false} LinkAllBounded(links: map<LinkKey, int>, pay: Id, ids: seq<Id>, amounts: seq<int>, n: nat)
    requires |amounts| == |ids| && pay < n && forall i :: 0 <= i < |ids| ==> ids[i] < n
    requires forall key :: key in links ==> key.payment < n && key.attendance < n
    ensures forall key :: key in LinkAll(links, pay, ids, amounts) ==> key.payment < n && key.attendance < n
    decreases |ids|
  {
    if |ids| > 0 {
      LinkAllBounded(links, pay, ids[..|ids| - 1], amounts[..|ids| - 1], n);
    }
  }

  /** Crediting and linking existing sessions to a payment below the id
      counter keeps every id below it. */
  lemma ApplyKeepsBounded(players: map<Id, Player>, m: map<Id, Attendance>, pays: map<Id, Payment>,
                          links: map<LinkKey, int>, exps: map<Id, Expenditure>, n: nat,
                          pay: Id, ids: seq<Id>, amounts: seq<int>)
    requires Bounded(players, m, pays, links, exps, n) && pay < n
    requires |amounts| == |ids| && forall i :: 0 <= i < |ids| ==> ids[i] in m
    ensures Bounded(players, Rewrite(m, ids, amounts, Credit), pays, LinkAll(links, pay, ids, amounts), exps, n)
  {
    LinkAllBounded(links, pay, ids, amounts, n);
  }

  /** A payment that had no links applies, after linking, exactly the sum of
      the amounts. */
  lemma {:induction false} LinkAllAppliedTotal(links: map<LinkKey, int>, pay: Id, ids: seq<Id>, amounts: seq<int>, n: nat)
    requires |amounts| == |ids| && Distinct(ids) && forall i :: 0 <= i < |ids| ==> ids[i] < n
    requires forall key :: key in links ==> key.payment != pay
    ensures AppliedTotal(LinkAll(links, pay, ids, amounts), pay, n) == Total(amounts)
    decreases |ids|
  {
    if |ids| == 0 {
      AppliedTotalNone(links, pay, n);
    } else {
      var k := |ids| - 1;
      var prev := LinkAll(links, pay, ids[..k], amounts[..k]);
      DistinctInit(ids);
      LinkAllAppliedTotal(links, pay, ids[..k], amounts[..k], n);
      LinkAllUntouched(links, pay, ids[..k], amounts[..k], ids[k]);
      AppliedTotalSet(prev, pay, n, ids[k], amounts[k]);
    }
  }

  /** Linking leaves what the payment applied to an unlisted session alone. */
  lemma {:induction false} LinkAllUntouched(links: map<LinkKey, int>, pay: Id, ids: seq<Id>, amounts: seq<int>, a: Id)
    requires |amounts| == |ids| && a !in ids
    ensures Applied(LinkAll(links, pay, ids, amounts), pay, a) == Applied(links, pay, a)
    decreases |ids|
  {
    if |ids| > 0 {
      var k := |ids| - 1;
      assert ids[k] in ids;
      assert forall x :: x in ids[..k] ==> x in ids;
      LinkAllUntouched(links, pay, ids[..k], amounts[..k], a);
    }
  }

  /** Applies payment `pay` to the sessions `ids` one at a time: each
      session's `amount_paid` grows by its own amount and a link row records
      that amount. This is the loop shared by quick pay, settling and the
      lump-sum split. */
  method ApplyToSessions(db: Ledger, pay: Id, ids: seq<Id>, amounts: seq<int>)
    requires db.Valid() && pay < db.nextId
    requires |amounts| == |ids| && Distinct(ids)
    requires forall i :: 0 <= i < |ids| ==> ids[i] in db.attendance
    modifies db`attendance, db`links
    ensures db.Valid()
    ensures db.attendance == Rewrite(old(db.attendance), ids, amounts, Credit)
    ensures db.links == LinkAll(old(db.links), pay, ids, amounts)
  {
    ghost var m0 := db.attendance;
    ApplyKeepsBounded(db.players, db.attendance, db.payments, db.links, db.expenditures, db.nextId, pay, ids, amounts);
    var i := 0;
    while i < |ids|
      invariant 0 <= i <= |ids|
      invariant db.attendance == Rewrite(old(db.attendance), ids[..i], amounts[..i], Credit)
      invariant db.links == LinkAll(old(db.links), pay, ids[..i], amounts[..i])
    {
      assert ids[..i + 1][..i] == ids[..i] && amounts[..i + 1][..i] == amounts[..i];
      db.attendance := db.attendance[ids[i] := Credit(db.attendance[ids[i]], amounts[i])];
      db.links := db.links[LinkKey(pay, ids[i]) := amounts[i]];
      i := i + 1;
    }
    assert ids[..|ids|] == ids && amounts[..|ids|] == amounts;
  }

  /** What applying a fresh payment adds up to: its links sum to the amounts,
      and the sessions' paid total grows by the same sum. */
  lemma ApplyTotals(m: map<Id, Attendance>, links: map<LinkKey, int>, pay: Id, ids: seq<Id>, amounts: seq<int>, n: nat)
    requires |amounts| == |ids| && Distinct(ids)
    requires forall i :: 0 <= i < |ids| ==> ids[i] in m && ids[i] < n
    requires forall key :: key in links ==> key.payment != pay
    ensures AppliedTotal(LinkAll(links, pay, ids, amounts), pay, n) == Total(amounts)
    ensures PaidTotal(Rewrite(m, ids, amounts, Credit), n) == PaidTotal(m, n) + Total(amounts)
  {
    LinkAllAppliedTotal(links, pay, ids, amounts, n);
    CreditPaidTotal(m, ids, amounts, n);
  }

  // ── Quick pay ─────────────────────────────────────────────────────────────

  /** The player's sessions on `today`, ordered by `session_time` as text:
      "evening" sorts before "morning". */
  function TodaySessions(m: map<Id, Attendance>, n: nat, pid: Id, today: Date): (r: seq<Id>)
    ensures forall k :: k in r <==> k < n && k in m && m[k].player == pid && m[k].date == today
    ensures forall i, j :: 0 <= i < j < |r| && m[r[i]].slot == Morning ==> m[r[j]].slot == Morning
  {
    var ev := Select(m, n, Query(Some(pid), Some(today), Some(Evening), None, None, None));
    var mo := Select(m, n, Query(Some(pid), Some(today), Some(Morning), None, None, None));
    assert forall k :: k in m && m[k].player == pid && m[k].date == today && k < n ==> k in ev || k in mo;
    ev + mo
  }

  /** A session's date; ids with no row read as a date before any other. */
  function DateOf(m: map<Id, Attendance>, k: Id): Date
  {
    if k in m then m[k].date else Date(0, 0, 0)
  }

  /** `.order("session_date", desc=True)`: newest first. */
  predicate NewestFirst(m: map<Id, Attendance>, ids: seq<Id>)
  {
    forall i, j :: 0 <= i < j < |ids| ==> DateLe(DateOf(m, ids[j]), DateOf(m, ids[i]))
  }

  /** x placed in front of the first session that is not newer than it. */
  function InsertByDate(m: map<Id, Attendance>, x: Id, ids: seq<Id>): (r: seq<Id>)
    ensures multiset(r) == multiset(ids) + multiset{x}
    decreases |ids|
  {
    if |ids| == 0 || DateLe(DateOf(m, ids[0]), DateOf(m, x)) then [x] + ids
    else
      assert ids == [ids[0]] + ids[1..];
      [ids[0]] + InsertByDate(m, x, ids[1..])
  }

  lemma {:induction false} InsertKeepsNewestFirst(m: map<Id, Attendance>, x: Id, ids: seq<Id>)
    requires NewestFirst(m, ids)
    ensures NewestFirst(m, InsertByDate(m, x, ids))
    decreases |ids|
  {
    if |ids| > 0 && !DateLe(DateOf(m, ids[0]), DateOf(m, x)) {
      var rest := InsertByDate(m, x, ids[1..]);
      InsertKeepsNewestFirst(m, x, ids[1..]);
      forall j | 0 <= j < |rest|
        ensures DateLe(DateOf(m, rest[j]), DateOf(m, ids[0]))
      {
        assert rest[j] in multiset(rest);
        if rest[j] != x {
          assert rest[j] in multiset(ids[1..]);
          var p :| 0 <= p < |ids[1..]| && ids[1..][p] == rest[j];
          assert ids[p + 1] == rest[j];
        }
      }
    }
  }

  /** The sessions sorted newest first. */
  function SortNewestFirst(m: map<Id, Attendance>, ids: seq<Id>): (r: seq<Id>)
    ensures multiset(r) == multiset(ids)
    decreases |ids|
  {
    if |ids| == 0 then []
    else
      assert ids == [ids[0]] + ids[1..];
      InsertByDate(m, ids[0], SortNewestFirst(m, ids[1..]))
  }

  lemma {:induction false} SortIsNewestFirst(m: map<Id, Attendance>, ids: seq<Id>)
    ensures NewestFirst(m, SortNewestFirst(m, ids))
    decreases |ids|
  {
    if |ids| > 0 {
      SortIsNewestFirst(m, ids[1..]);
      InsertKeepsNewestFirst(m, ids[0], SortNewestFirst(m, ids[1..]));
    }
  }

  /** `.lt("session_date", today).order("session_date", desc=True).limit(6)`. */
  function RecentSessions(m: map<Id, Attendance>, n: nat, pid: Id, today: Date): seq<Id>
  {
    var s := SortNewestFirst(m, Select(m, n, Query(Some(pid), None, None, None, None, Some(today))));
    if |s| <= 6 then s else s[..6]
  }

  /** The sessions still owing something (`round(fee - paid, 2) > 0`), in
      their order. */
  function Owing(m: map<Id, Attendance>, ids: seq<Id>): (r: seq<Id>)
    ensures |r| <= |ids|
    ensures forall k :: k in r <==> k in ids && k in m && Due(m[k]) > 0
    decreases |ids|
  {
    if |ids| == 0 then []
    else
      var k := |ids| - 1;
      assert ids == ids[..k] + [ids[k]];
      Owing(m, ids[..k]) + (if ids[k] in m && Due(m[ids[k]]) > 0 then [ids[k]] else [])
  }

  predicate HasToday(m: map<Id, Attendance>, n: nat, pid: Id, today: Date)
  {
    exists k :: k < n && k in m && m[k].player == pid && m[k].date == today
  }

  /** `sessions_to_show`: today's sessions when there are any, otherwise the
      owing ones among the six most recent earlier sessions. */
  function QuickPayCandidates(m: map<Id, Attendance>, n: nat, pid: Id, today: Date): seq<Id>
  {
    var t := TodaySessions(m, n, pid, today);
    if |t| > 0 then t else Owing(m, RecentSessions(m, n, pid, today))
  }

  /** Today's sessions win whenever there is one. */
  lemma QuickPayToday(m: map<Id, Attendance>, n: nat, pid: Id, today: Date)
    ensures HasToday(m, n, pid, today) <==> |TodaySessions(m, n, pid, today)| > 0
    ensures HasToday(m, n, pid, today) ==> QuickPayCandidates(m, n, pid, today) == TodaySessions(m, n, pid, today)
  {
    var t := TodaySessions(m, n, pid, today);
    if |t| > 0 {
      assert t[0] in t;
    }
    if HasToday(m, n, pid, today) {
      var k :| k < n && k in m && m[k].player == pid && m[k].date == today;
      assert k in t;
    }
  }

  /** The recent list holds at most six of the player's sessions from
      before today, newest first. */
  lemma RecentSessionsSound(m: map<Id, Attendance>, n: nat, pid: Id, today: Date)
    ensures var recent := RecentSessions(m, n, pid, today);
      && |recent| <= 6
      && NewestFirst(m, recent)
      && (forall k :: k in recent ==> k < n && k in m && m[k].player == pid && DateLt(m[k].date, today))
  {
    var sel := Select(m, n, Query(Some(pid), None, None, None, None, Some(today)));
    var s := SortNewestFirst(m, sel);
    SortIsNewestFirst(m, sel);
    var recent := RecentSessions(m, n, pid, today);
    forall k | k in recent
      ensures k < n && k in m && m[k].player == pid && DateLt(m[k].date, today)
    {
      assert k in s;
      assert k in multiset(s);
      assert k in sel;
    }
  }

  /** Any earlier session of the player that the recent list leaves out is
      no newer than each of the six sessions it holds. */
  lemma RecentSessionsMostRecent(m: map<Id, Attendance>, n: nat, pid: Id, today: Date)
    ensures var recent := RecentSessions(m, n, pid, today);
      forall k :: k < n && k in m && m[k].player == pid && DateLt(m[k].date, today) && k !in recent ==>
        |recent| == 6 && forall j :: j in recent ==> DateLe(m[k].date, DateOf(m, j))
  {
    var sel := Select(m, n, Query(Some(pid), None, None, None, None, Some(today)));
    var s := SortNewestFirst(m, sel);
    SortIsNewestFirst(m, sel);
    var recent := RecentSessions(m, n, pid, today);
    forall k | k < n && k in m && m[k].player == pid && DateLt(m[k].date, today) && k !in recent
      ensures |recent| == 6 && forall j :: j in recent ==> DateLe(m[k].date, DateOf(m, j))
    {
      assert k in sel;
      assert k in multiset(s);
      var p :| 0 <= p < |s| && s[p] == k;
      assert p >= 6;
      forall j | j in recent
        ensures DateLe(m[k].date, DateOf(m, j))
      {
        var q :| 0 <= q < 6 && s[q] == j;
      }
    }
  }

  /** With no session today at most six sessions are offered, all earlier
      than today and all owing; an owing earlier session is left out only
      when six sessions at least as recent as it filled the query's limit. */
  lemma QuickPayRecent(m: map<Id, Attendance>, n: nat, pid: Id, today: Date)
    requires !HasToday(m, n, pid, today)
    ensures var r := QuickPayCandidates(m, n, pid, today);
      && |r| <= 6
      && (forall k :: k in r ==> k < n && k in m && m[k].player == pid && DateLt(m[k].date, today) && Due(m[k]) > 0)
    ensures var r := QuickPayCandidates(m, n, pid, today);
      var recent := RecentSessions(m, n, pid, today);
      forall k :: k < n && k in m && m[k].player == pid && DateLt(m[k].date, today) && Due(m[k]) > 0 && k !in r ==>
        |recent| == 6 && forall j :: j in recent ==> DateLe(m[k].date, DateOf(m, j))
  {
    QuickPayToday(m, n, pid, today);
    RecentSessionsSound(m, n, pid, today);
    RecentSessionsMostRecent(m, n, pid, today);
  }

  /** The "💰 Pay" button of a quick-pay card: one payment of `amount` noted
      with the payment method, the session credited with it, and one link. */
  method QuickPay(db: Ledger, pid: Id, att: Id, amount: int, payDate: Date, via: string) returns (pay: Id)
    requires db.Valid() && att in db.attendance
    modifies db`attendance, db`payments, db`links, db`nextId
    ensures db.Valid()
    ensures pay !in old(db.payments) && pay == old(db.nextId)
    ensures db.payments == old(db.payments)[pay := Payment(pid, amount, payDate, Some(via))]
    ensures db.attendance == old(db.attendance)[att := Credit(old(db.attendance)[att], amount)]
    ensures db.links == old(db.links)[LinkKey(pay, att) := amount]
    ensures LinkKey(pay, att) !in old(db.links)
    ensures AppliedTotal(db.links, pay, db.nextId) == amount
    ensures PaidTotal(db.attendance, db.nextId) == old(PaidTotal(db.attendance, db.nextId)) + amount
  {
    pay := db.FreshId();
    assert PaidTotal(db.attendance, db.nextId) == PaidTotal(db.attendance, pay);
    db.payments := db.payments[pay := Payment(pid, amount, payDate, Some(via))];
    ApplyTotals(db.attendance, db.links, pay, [att], [amount], db.nextId);
    ApplyToSessions(db, pay, [att], [amount]);
    assert [att][..0] == [] && [amount][..0] == [];
  }

  /** The note of a settled payment: the method, then the extra notes after a
      dash when there are any. */
  function SettleNote(via: string, notes: string): (r: string)
    ensures |via| <= |r| && r[..|via|] == via
    ensures r == via <==> notes == ""
  {
    via + (if notes != "" then Dash + notes else "")
  }

  datatype SettleOutcome = NothingSelected | NonPositiveTotal | Settled(payment: Id)

  /** "💾 Record Payment" of the settle-pending form: `selected` are the
      ticked sessions and `amounts` the amounts typed against them. */
  method SettleSessions(db: Ledger, pid: Id, selected: seq<Id>, amounts: seq<int>,
                        payDate: Date, via: string, notes: string)
    returns (outcome: SettleOutcome)
    requires db.Valid()
    requires |amounts| == |selected| && Distinct(selected)
    requires forall i :: 0 <= i < |selected| ==> selected[i] in db.attendance
    modifies db`attendance, db`payments, db`links, db`nextId
    ensures db.Valid()
    ensures outcome == NothingSelected <==> |selected| == 0
    ensures outcome == NonPositiveTotal <==> |selected| > 0 && Total(amounts) <= 0
    ensures !outcome.Settled? ==> unchanged(db)
    ensures outcome.Settled? ==>
      && outcome.payment !in old(db.payments)
      && db.payments == old(db.payments)[outcome.payment := Payment(pid, Total(amounts), payDate, Some(SettleNote(via, notes)))]
      && db.attendance.Keys == old(db.attendance).Keys
      && (forall i :: 0 <= i < |selected| ==> db.attendance[selected[i]] == Credit(old(db.attendance)[selected[i]], amounts[i]))
      && (forall k :: k in old(db.attendance) && k !in selected ==> db.attendance[k] == old(db.attendance)[k])
      && (forall k :: k in db.links <==> k in old(db.links) || (k.payment == outcome.payment && k.attendance in selected))
      && (forall k :: k in old(db.links) ==> db.links[k] == old(db.links)[k])
      && (forall i :: 0 <= i < |selected| ==> db.links[LinkKey(outcome.payment, selected[i])] == amounts[i])
      && AppliedTotal(db.links, outcome.payment, db.nextId) == Total(amounts)
      && PaidTotal(db.attendance, db.nextId) == old(PaidTotal(db.attendance, db.nextId)) + Total(amounts)
  {
    if |selected| == 0 {
      return NothingSelected;
    }
    var total := Total(amounts);
    if total <= 0 {
      return NonPositiveTotal;
    }
    var pay := db.FreshId();
    assert PaidTotal(db.attendance, db.nextId) == PaidTotal(db.attendance, pay);
    db.payments := db.payments[pay := Payment(pid, total, payDate, Some(SettleNote(via, notes)))];
    ApplyTotals(db.attendance, db.links, pay, selected, amounts, db.nextId);
    RewriteRows(db.attendance, selected, amounts, Credit);
    LinkAllRows(db.links, pay, selected, amounts);
    ApplyToSessions(db, pay, selected, amounts);
    outcome := Settled(pay);
  }

  /** The note of a lump sum: "<month> monthly", the method and, when given,
      the extra notes, joined by dashes. */
  function LumpNote(mo: Month, via: string, notes: string): (r: string)
    requires ValidMonth(mo)
    ensures var head := MonthText(mo) + " monthly" + Dash + via;
      |head| <= |r| && r[..|head|] == head && (r == head <==> notes == "")
  {
    var first := [MonthText(mo) + " monthly", via];
    var parts := if notes != "" then first + [notes] else first;
    assert first[..1] == [MonthText(mo) + " monthly"];
    assert Join(first, Dash) == MonthText(mo) + " monthly" + Dash + via;
    assert notes != "" ==> parts[..2] == first;
    Join(parts, Dash)
  }

  /** What the split of a lump sum leaves behind: every session q selects
      gained `per` on `amount_paid` and every other session is as it was;
      the link table kept its links and gained one of `per` from payment
      `pay` to each of the selected sessions `ids`, and no other. */
  ghost predicate CreditedEqually(m0: map<Id, Attendance>, m: map<Id, Attendance>,
                                  links0: map<LinkKey, int>, links: map<LinkKey, int>,
                                  pay: Id, q: Query, ids: seq<Id>, per: int)
  {
    && m.Keys == m0.Keys
    && (forall k :: k in m0 ==> m[k] == if Matches(q, m0[k]) then Credit(m0[k], per) else m0[k])
    && (forall k :: k in links <==> k in links0 || (k.payment == pay && k.attendance in ids))
    && (forall k :: k in links0 ==> links[k] == links0[k])
    && (forall i :: 0 <= i < |ids| ==> links[LinkKey(pay, ids[i])] == per)
  }

  /** The split of a lump sum: every session a query selects gains the same
      amount `per`, each with a link of `per` to payment `pay`. */
  method CreditEqually(db: Ledger, pay: Id, q: Query, per: int) returns (ids: seq<Id>)
    requires db.Valid() && pay < db.nextId
    requires forall key :: key in db.links ==> key.payment != pay
    modifies db`attendance, db`links
    ensures db.Valid()
    ensures ids == Select(old(db.attendance), db.nextId, q)
    ensures CreditedEqually(old(db.attendance), db.attendance, old(db.links), db.links, pay, q, ids, per)
    ensures AppliedTotal(db.links, pay, db.nextId) == per * |ids|
  {
    ids := Select(db.attendance, db.nextId, q);
    var amounts := Repeat(per, |ids|);
    TotalConstant(amounts, per);
    RewriteSelected(db.attendance, db.nextId, q, per, Credit);
    ApplyTotals(db.attendance, db.links, pay, ids, amounts, db.nextId);
    LinkAllRows(db.links, pay, ids, amounts);
    ApplyToSessions(db, pay, ids, amounts);
  }

  datatype LumpOutcome = NonPositiveAmount | Recorded(payment: Id, perSession: Option<int>)

  /** "💾 Record Payment" of the monthly lump-sum form. With `distribute`
      ticked and sessions in the month, the amount is split equally over
      them, to the nearest paisa. */
  method LumpSum(db: Ledger, pid: Id, mo: Month, amount: int, payDate: Date,
                 via: string, notes: string, distribute: bool)
    returns (outcome: LumpOutcome)
    requires db.Valid() && ValidMonth(mo)
    modifies db`attendance, db`payments, db`links, db`nextId
    ensures db.Valid()
    ensures outcome == NonPositiveAmount <==> amount <= 0
    ensures amount <= 0 ==> unchanged(db)
    ensures outcome.Recorded? ==>
      var ids := Select(old(db.attendance), old(db.nextId), MonthQuery(pid, mo));
      && outcome.payment !in old(db.payments)
      && db.payments == old(db.payments)[outcome.payment := Payment(pid, amount, payDate, Some(LumpNote(mo, via, notes)))]
      && (outcome.perSession.Some? <==> distribute && |ids| > 0)
      && (outcome.perSession.None? ==> db.attendance == old(db.attendance) && db.links == old(db.links))
      && (outcome.perSession.Some? ==>
           var per := outcome.perSession.value;
           && per == RoundDiv(amount, |ids|)
           && CreditedEqually(old(db.attendance), db.attendance, old(db.links), db.links, outcome.payment, MonthQuery(pid, mo), ids, per)
           && AppliedTotal(db.links, outcome.payment, db.nextId) == per * |ids|
           && 2 * Abs(AppliedTotal(db.links, outcome.payment, db.nextId) - amount) <= |ids|)
  {
    if amount <= 0 {
      return NonPositiveAmount;
    }
    var n0 := db.nextId;
    var ids := Select(db.attendance, n0, MonthQuery(pid, mo));
    var pay := db.FreshId();
    db.payments := db.payments[pay := Payment(pid, amount, payDate, Some(LumpNote(mo, via, notes)))];
    if distribute && |ids| > 0 {
      var per := RoundDiv(amount, |ids|);
      assert Select(db.attendance, db.nextId, MonthQuery(pid, mo)) == ids by {
        SelectBeyond(db.attendance, n0, db.nextId, MonthQuery(pid, mo));
      }
      var credited := CreditEqually(db, pay, MonthQuery(pid, mo), per);
      assert credited == ids;
      outcome := Recorded(pay, Some(per));
    } else {
      outcome := Recorded(pay, None);
    }
  }

  // ── History tab ───────────────────────────────────────────────────────────

  /** A session's `amount_paid` moved by `delta` and kept from going below
      zero: `max(0.0, round(paid + delta, 2))`. */
  function Clamp(r: Attendance, delta: int): (r': Attendance)
    ensures r'.player == r.player && r'.date == r.date && r'.slot == r.slot && r'.fee == r.fee
    ensures PaidOf(r') >= 0 && PaidOf(r') >= PaidOf(r) + delta
    ensures PaidOf(r') == PaidOf(r) + delta || PaidOf(r') == 0
  {
    r.(paid := Some(Max0(PaidOf(r) + delta)))
  }

  /** Deleting a payment right after it was applied to a session gives the
      session back the `amount_paid` it had, as long as that was not
      negative. */
  lemma ClampUndoesCredit(r: Attendance, amount: int)
    requires PaidOf(r) >= 0
    ensures Clamp(Credit(r, amount), -amount) == r.(paid := Some(PaidOf(r)))
  {
  }

  /** What payment `pay` applied to each of the sessions `ids`, negated. */
  function Reversals(links: map<LinkKey, int>, pay: Id, ids: seq<Id>): (ds: seq<int>)
    ensures |ds| == |ids| && forall i :: 0 <= i < |ids| ==> ds[i] == -Applied(links, pay, ids[i])
  {
    seq(|ids|, i requires 0 <= i < |ids| => -Applied(links, pay, ids[i]))
  }

  /** What deleting payment `pay` does to the sessions, from m to m': each
      session the payment is linked to has its `amount_paid` reduced by the
      link's applied amount, never below zero, and every other session is
      as it was. So the linked sessions end with nothing negative paid, and
      a table with nothing negative paid keeps it that way. */
  ghost predicate Reversed(m: map<Id, Attendance>, m': map<Id, Attendance>, links: map<LinkKey, int>, pay: Id)
  {
    && m'.Keys == m.Keys
    && (forall k :: k in m ==>
          m'[k] == if LinkKey(pay, k) in links then Clamp(m[k], -links[LinkKey(pay, k)]) else m[k])
    && (forall k :: k in m' && LinkKey(pay, k) in links ==> PaidOf(m'[k]) >= 0)
    && (PaidNonNegative(m) ==> PaidNonNegative(m'))
  }

  /** The 🗑️ button (and the Delete button of the edit form): every session
      the payment is linked to that still exists gets `amount_paid` reduced by
      the link's applied amount, never below zero; then the payment row is
      removed. The link rows are kept. */
  method DeletePayment(db: Ledger, pay: Id)
    requires db.Valid()
    modifies db`attendance, db`payments
    ensures db.Valid()
    ensures db.payments == old(db.payments) - {pay}
    ensures Reversed(old(db.attendance), db.attendance, db.links, pay)
  {
    var ids := LinkedSessions(db.links, pay, db.nextId);
    ReverseRows(db.attendance, db.links, pay, db.nextId);
    RewriteSessions(db, ids, Reversals(db.links, pay, ids), Clamp);
    db.payments := db.payments - {pay};
  }

  /** Clamping each session a payment is linked to by minus its applied
      amount, one by one, is deleting the payment. */
  lemma ReverseRows(m: map<Id, Attendance>, links: map<LinkKey, int>, pay: Id, n: nat)
    requires forall key :: key in links ==> key.attendance < n
    ensures var ids := LinkedSessions(links, pay, n);
      Reversed(m, Rewrite(m, ids, Reversals(links, pay, ids), Clamp), links, pay)
  {
    var ids := LinkedSessions(links, pay, n);
    var m' := Rewrite(m, ids, Reversals(links, pay, ids), Clamp);
    forall k | k in m
      ensures m'[k] == if LinkKey(pay, k) in links then Clamp(m[k], -links[LinkKey(pay, k)]) else m[k]
    {
      ReverseRow(m, links, pay, n, k);
    }
  }

  /** ... one session at a time. */
  lemma ReverseRow(m: map<Id, Attendance>, links: map<LinkKey, int>, pay: Id, n: nat, k: Id)
    requires forall key :: key in links ==> key.attendance < n
    requires k in m
    ensures var ids := LinkedSessions(links, pay, n);
      Rewrite(m, ids, Reversals(links, pay, ids), Clamp)[k]
        == if LinkKey(pay, k) in links then Clamp(m[k], -links[LinkKey(pay, k)]) else m[k]
  {
    var ids := LinkedSessions(links, pay, n);
    var vals := Reversals(links, pay, ids);
    assert Distinct(ids);
    if LinkKey(pay, k) in links {
      assert k in ids;
      var i :| 0 <= i < |ids| && ids[i] == k;
      assert vals[i] == -links[LinkKey(pay, k)];
      RewriteAt(m, ids, vals, Clamp, i);
      assert Rewrite(m, ids, vals, Clamp)[k] == Clamp(m[k], -links[LinkKey(pay, k)]);
    } else {
      RewriteOff(m, ids, vals, Clamp, k);
      assert Rewrite(m, ids, vals, Clamp)[k] == m[k];
    }
  }

  /** What an entry of the two payment drop-downs reads: date, amount with
      two decimals and, when there are any, the notes. The amount always
      ends in two decimals and is followed either by nothing or by the
      notes separator, so two entries read alike exactly when these three
      parts agree; NULL notes read like empty ones. */
  datatype PaymentLabel = PaymentLabel(date: Date, amount: int, notes: string)

  function PaymentLabelOf(p: Payment): PaymentLabel
  {
    PaymentLabel(p.date, p.amount, match p.notes case None => "" case Some(s) => s)
  }

  /** `pay_labels`: the drop-down entries of the player's payments, in the
      order they are listed (`history`, newest first). */
  function PaymentLabels(m: map<Id, Payment>, history: seq<Id>): (r: seq<PaymentLabel>)
    requires forall i :: 0 <= i < |history| ==> history[i] in m
    ensures |r| == |history| && forall i :: 0 <= i < |history| ==> r[i] == PaymentLabelOf(m[history[i]])
  {
    seq(|history|, i requires 0 <= i < |history| => PaymentLabelOf(m[history[i]]))
  }

  /** The position in `history` of the payment both edit forms act on when
      the entry at `chosen` is picked: `pay_labels.index(...)` finds the
      first entry that reads like the chosen one. It is at or before the
      chosen entry, reads exactly like it, no earlier entry does, and when
      no two entries read alike it is the chosen entry itself. */
  function ChosenPayment(m: map<Id, Payment>, history: seq<Id>, chosen: nat): (idx: nat)
    requires chosen < |history| && forall i :: 0 <= i < |history| ==> history[i] in m
    ensures idx <= chosen
    ensures PaymentLabelOf(m[history[idx]]) == PaymentLabelOf(m[history[chosen]])
    ensures forall j :: 0 <= j < idx ==> PaymentLabelOf(m[history[j]]) != PaymentLabelOf(m[history[chosen]])
    ensures Distinct(PaymentLabels(m, history)) ==> idx == chosen
  {
    var labels := PaymentLabels(m, history);
    var idx := IndexOf(labels, labels[chosen]);
    if Distinct(labels) then
      IndexOfDistinct(labels, chosen);
      idx
    else
      idx
  }

  /** "💾 Update Payment" of the first edit form: only the payment row
      changes, with empty notes stored as NULL. Updating an id that has no
      row changes nothing. */
  method EditPayment(db: Ledger, pay: Id, amount: int, date: Date, notes: string)
    requires db.Valid()
    modifies db`payments
    ensures db.Valid()
    ensures pay in old(db.payments) ==>
      db.payments == old(db.payments)[pay := old(db.payments)[pay].(amount := amount, date := date, notes := NoneIfEmpty(notes))]
    ensures pay !in old(db.payments) ==> db.payments == old(db.payments)
  {
    if pay in db.payments {
      db.payments := db.payments[pay := db.payments[pay].(amount := amount, date := date, notes := NoneIfEmpty(notes))];
    }
  }

  /** Every link of payment `pay` to the sessions `ids` raised by `share`. */
  function ShiftAll(links: map<LinkKey, int>, pay: Id, ids: seq<Id>, share: int): map<LinkKey, int>
    decreases |ids|
  {
    if |ids| == 0 then links
    else
      var k := |ids| - 1;
      var prev := ShiftAll(links, pay, ids[..k], share);
      prev[LinkKey(pay, ids[k]) := Applied(links, pay, ids[k]) + share]
  }

  /** Shifting the links of distinct, already linked sessions keeps the link
      table's keys, raises each of those links by `share` and leaves every
      other link alone. */
  lemma {:induction false} ShiftAllRows(links: map<LinkKey, int>, pay: Id, ids: seq<Id>, share: int)
    requires Distinct(ids) && forall i :: 0 <= i < |ids| ==> LinkKey(pay, ids[i]) in links
    ensures ShiftAll(links, pay, ids, share).Keys == links.Keys
    ensures forall i :: 0 <= i < |ids| ==> ShiftAll(links, pay, ids, share)[LinkKey(pay, ids[i])] == links[LinkKey(pay, ids[i])] + share
    ensures forall key :: key in links && !(key.payment == pay && key.attendance in ids) ==>
      ShiftAll(links, pay, ids, share)[key] == links[key]
    decreases |ids|
  {
    if |ids| > 0 {
      var k := |ids| - 1;
      ShiftAllRows(links, pay, ids[..k], share);
      assert ids == ids[..k] + [ids[k]];
      assert forall i :: 0 <= i < k ==> ids[..k][i] == ids[i];
    }
  }

  /** ... and so raises the payment's applied total by `share` per link. */
  lemma {:induction false} ShiftAllTotal(links: map<LinkKey, int>, pay: Id, ids: seq<Id>, share: int, n: nat)
    requires Distinct(ids) && forall i :: 0 <= i < |ids| ==> ids[i] < n
    ensures AppliedTotal(ShiftAll(links, pay, ids, share), pay, n) == AppliedTotal(links, pay, n) + share * |ids|
    decreases |ids|
  {
    if |ids| > 0 {
      var k := |ids| - 1;
      var prev := ShiftAll(links, pay, ids[..k], share);
      DistinctInit(ids);
      ShiftAllTotal(links, pay, ids[..k], share, n);
      ShiftAllUntouched(links, pay, ids[..k], share, ids[k]);
      AppliedTotalSet(prev, pay, n, ids[k], Applied(links, pay, ids[k]) + share);
      assert share * |ids| == share * k + share;
    }
  }

  /** A session not among those shifted keeps its applied amount. */
  lemma {:induction false} ShiftAllUntouched(links: map<LinkKey, int>, pay: Id, ids: seq<Id>, share: int, a: Id)
    requires a !in ids
    ensures Applied(ShiftAll(links, pay, ids, share), pay, a) == Applied(links, pay, a)
    decreases |ids|
  {
    if |ids| > 0 {
      var k := |ids| - 1;
      assert ids[k] in ids;
      assert forall x :: x in ids[..k] ==> x in ids;
      ShiftAllUntouched(links, pay, ids[..k], share, a);
    }
  }

  /** The applied-amount updates of the edit-with-spread loop. */
  method ShiftLinks(db: Ledger, pay: Id, ids: seq<Id>, share: int)
    requires db.Valid()
    requires forall i :: 0 <= i < |ids| ==> LinkKey(pay, ids[i]) in db.links
    modifies db`links
    ensures db.Valid()
    ensures db.links == ShiftAll(old(db.links), pay, ids, share)
  {
    var l0 := db.links;
    var i := 0;
    while i < |ids|
      invariant 0 <= i <= |ids|
      invariant db.links == ShiftAll(l0, pay, ids[..i], share)
      invariant db.links.Keys == l0.Keys
    {
      assert ids[..i + 1][..i] == ids[..i];
      db.links := db.links[LinkKey(pay, ids[i]) := Applied(l0, pay, ids[i]) + share];
      i := i + 1;
    }
    assert ids[..|ids|] == ids;
  }

  /** The spread loop: each linked session that exists moves by `share`,
      never below zero, and each link's applied amount moves by it too. */
  method SpreadShare(db: Ledger, pay: Id, ids: seq<Id>, share: int)
    requires db.Valid()
    requires ids == LinkedSessions(db.links, pay, db.nextId)
    modifies db`attendance, db`links
    ensures db.Valid()
    ensures db.attendance.Keys == old(db.attendance).Keys
    ensures forall k :: k in old(db.attendance) ==>
      db.attendance[k] == if LinkKey(pay, k) in old(db.links)
                          then Clamp(old(db.attendance)[k], share) else old(db.attendance)[k]
    ensures db.links.Keys == old(db.links).Keys
    ensures forall key :: key in old(db.links) ==>
      db.links[key] == if key.payment == pay then old(db.links)[key] + share else old(db.links)[key]
    ensures AppliedTotal(db.links, pay, db.nextId) == old(AppliedTotal(db.links, pay, db.nextId)) + share * |ids|
  {
    SpreadRows(db.attendance, db.links, pay, db.nextId, share);
    SpreadLinks(db.links, pay, db.nextId, share);
    ShiftAllTotal(db.links, pay, ids, share, db.nextId);
    RewriteSessions(db, ids, Repeat(share, |ids|), Clamp);
    ShiftLinks(db, pay, ids, share);
  }

  /** Clamping the sessions a payment is linked to, one by one, moves
      exactly those sessions; their ids are distinct. */
  lemma SpreadRows(m: map<Id, Attendance>, links: map<LinkKey, int>, pay: Id, n: nat, share: int)
    requires forall key :: key in links ==> key.attendance < n
    ensures Distinct(LinkedSessions(links, pay, n))
    ensures var ids := LinkedSessions(links, pay, n);
      forall k :: k in m ==>
        Rewrite(m, ids, Repeat(share, |ids|), Clamp)[k] == if LinkKey(pay, k) in links then Clamp(m[k], share) else m[k]
  {
    var ids := LinkedSessions(links, pay, n);
    var vals := Repeat(share, |ids|);
    RewriteRows(m, ids, vals, Clamp);
    forall k | k in m
      ensures Rewrite(m, ids, vals, Clamp)[k] == if LinkKey(pay, k) in links then Clamp(m[k], share) else m[k]
    {
      if LinkKey(pay, k) in links {
        assert k in ids;
        var i :| 0 <= i < |ids| && ids[i] == k;
        assert vals[i] == share;
      } else {
        assert k !in ids;
      }
    }
  }

  /** Shifting the links a payment has moves exactly its links. */
  lemma SpreadLinks(links: map<LinkKey, int>, pay: Id, n: nat, share: int)
    requires forall key :: key in links ==> key.attendance < n
    ensures var ids := LinkedSessions(links, pay, n);
      && ShiftAll(links, pay, ids, share).Keys == links.Keys
      && forall key :: key in links ==>
           ShiftAll(links, pay, ids, share)[key] == if key.payment == pay then links[key] + share else links[key]
  {
    var ids := LinkedSessions(links, pay, n);
    ShiftAllRows(links, pay, ids, share);
    forall key | key in links && key.payment == pay
      ensures ShiftAll(links, pay, ids, share)[key] == links[key] + share
    {
      assert key.attendance in ids;
      var i :| 0 <= i < |ids| && ids[i] == key.attendance;
      assert key == LinkKey(pay, ids[i]);
    }
  }

  datatype SpreadOutcome = NoSpread | Spread(share: int)

  /** "💾 Update" of the second edit form: the payment row is updated and the
      change in amount is split equally, to the nearest paisa, over the
      payment's links; each linked session that exists moves by the share
      (never below zero) and each link's applied amount moves by it too. */
  method EditPaymentSpread(db: Ledger, pay: Id, amount: int, date: Date, notes: string)
    returns (outcome: SpreadOutcome)
    requires db.Valid() && pay in db.payments
    modifies db`attendance, db`payments, db`links
    ensures db.Valid()
    ensures db.payments == old(db.payments)[pay := old(db.payments)[pay].(amount := amount, date := date, notes := NoneIfEmpty(notes))]
    ensures var k := |LinkedSessions(old(db.links), pay, db.nextId)|;
      outcome.Spread? <==> amount != old(db.payments)[pay].amount && k > 0
    ensures outcome == NoSpread ==> db.attendance == old(db.attendance) && db.links == old(db.links)
    ensures outcome.Spread? ==>
      var ids := LinkedSessions(old(db.links), pay, db.nextId);
      var diff := amount - old(db.payments)[pay].amount;
      && outcome.share == RoundDiv(diff, |ids|)
      && db.attendance.Keys == old(db.attendance).Keys
      && (forall k :: k in old(db.attendance) ==>
           db.attendance[k] == if LinkKey(pay, k) in old(db.links)
                               then Clamp(old(db.attendance)[k], outcome.share) else old(db.attendance)[k])
      && db.links.Keys == old(db.links).Keys
      && (forall key :: key in old(db.links) ==>
           db.links[key] == if key.payment == pay then old(db.links)[key] + outcome.share else old(db.links)[key])
      && AppliedTotal(db.links, pay, db.nextId) == old(AppliedTotal(db.links, pay, db.nextId)) + outcome.share * |ids|
      && 2 * Abs(outcome.share * |ids| - diff) <= |ids|
      && (old(AppliedTotal(db.links, pay, db.nextId) == db.payments[pay].amount) ==>
           2 * Abs(AppliedTotal(db.links, pay, db.nextId) - amount) <= |ids|)
  {
    var diff := amount - db.payments[pay].amount;
    EditPayment(db, pay, amount, date, notes);
    var ids := LinkedSessions(db.links, pay, db.nextId);
    if diff == 0 || |ids| == 0 {
      return NoSpread;
    }
    var share := RoundDiv(diff, |ids|);
    SpreadShare(db, pay, ids, share);
    outcome := Spread(share);
  }

  /** A session whose `amount_paid` is overwritten with v. */
  function SetPaid(r: Attendance, v: int): (r': Attendance)
    ensures r'.player == r.player && r'.date == r.date && r'.slot == r.slot && r'.fee == r.fee
    ensures PaidOf(r') == v && Due(r') == Charged(r) - v
  {
    r.(paid := Some(v))
  }

  /** The "Apply" button of the monthly bulk fill: every session of the
      player in the month gets `amount_paid` overwritten with the total split
      equally to the nearest paisa. No payment and no link is written. */
  method BulkFill(db: Ledger, pid: Id, mo: Month, total: int) returns (per: Option<int>)
    requires db.Valid() && ValidMonth(mo)
    modifies db`attendance
    ensures db.Valid()
    ensures var ids := Select(old(db.attendance), db.nextId, MonthQuery(pid, mo));
      && (per.None? <==> |ids| == 0)
      && (per.None? ==> db.attendance == old(db.attendance))
      && (per.Some? ==>
           && per.value == RoundDiv(total, |ids|)
           && 2 * Abs(per.value * |ids| - total) <= |ids|
           && db.attendance.Keys == old(db.attendance).Keys
           && forall k :: k in old(db.attendance) ==>
                db.attendance[k] == if Matches(MonthQuery(pid, mo), old(db.attendance)[k])
                                    then SetPaid(old(db.attendance)[k], per.value) else old(db.attendance)[k])
  {
    var ids := Select(db.attendance, db.nextId, MonthQuery(pid, mo));
    if |ids| == 0 {
      return None;
    }
    var v := RoundDiv(total, |ids|);
    var written := RewriteEqually(db, MonthQuery(pid, mo), v, SetPaid);
    per := Some(v);
  }

  /** A session as "Save All Changes" leaves it: rewritten with v only when
      v differs from its stored `amount_paid` (missing read as 0). */
  function Overwrite(r: Attendance, v: int): (r': Attendance)
    ensures PaidOf(r') == v
    ensures r' == r <==> PaidOf(r) == v
  {
    if v != PaidOf(r) then r.(paid := Some(v)) else r
  }

  /** How many of the listed sessions hold a value different from the one
      typed against them. */
  function CountChanged(m: map<Id, Attendance>, ids: seq<Id>, vals: seq<int>): (c: nat)
    requires |vals| == |ids| && forall i :: 0 <= i < |ids| ==> ids[i] in m
    ensures c <= |ids|
    decreases |ids|
  {
    if |ids| == 0 then 0
    else
      var k := |ids| - 1;
      CountChanged(m, ids[..k], vals[..k]) + (if vals[k] != PaidOf(m[ids[k]]) then 1 else 0)
  }

  /** No change is counted exactly when every listed session already holds
      its value, that is when saving rewrites nothing. */
  lemma {:induction false} CountChangedZero(m: map<Id, Attendance>, ids: seq<Id>, vals: seq<int>)
    requires |vals| == |ids| && forall i :: 0 <= i < |ids| ==> ids[i] in m
    ensures CountChanged(m, ids, vals) == 0 <==> forall i :: 0 <= i < |ids| ==> vals[i] == PaidOf(m[ids[i]])
    decreases |ids|
  {
    if |ids| > 0 {
      var k := |ids| - 1;
      CountChangedZero(m, ids[..k], vals[..k]);
      assert forall i :: 0 <= i < k ==> ids[..k][i] == ids[i] && vals[..k][i] == vals[i];
    }
  }

  /** Before the i-th of distinct ids is reached, its row is still the one
      it started with. */
  lemma RewriteNotYet(m: map<Id, Attendance>, ids: seq<Id>, vals: seq<int>, f: (Attendance, int) -> Attendance, i: nat)
    requires |vals| == |ids| && Distinct(ids) && i < |ids| && ids[i] in m
    ensures Rewrite(m, ids[..i], vals[..i], f)[ids[i]] == m[ids[i]]
  {
    RewriteRows(m, ids[..i], vals[..i], f);
    assert ids[i] !in ids[..i];
  }

  /** "💾 Save All Changes": `ids` are the sessions shown and `vals` the
      paid amounts in their inputs. A session is written only when its value
      changed; `changes` counts the writes. */
  method SaveSessionEdits(db: Ledger, ids: seq<Id>, vals: seq<int>) returns (changes: nat)
    requires db.Valid()
    requires |vals| == |ids| && Distinct(ids)
    requires forall i :: 0 <= i < |ids| ==> ids[i] in db.attendance
    modifies db`attendance
    ensures db.Valid()
    ensures db.attendance == Rewrite(old(db.attendance), ids, vals, Overwrite)
    ensures changes == CountChanged(old(db.attendance), ids, vals)
  {
    var shown := db.attendance;
    changes := 0;
    var i := 0;
    while i < |ids|
      invariant 0 <= i <= |ids|
      invariant db.attendance == Rewrite(shown, ids[..i], vals[..i], Overwrite)
      invariant changes == CountChanged(shown, ids[..i], vals[..i])
    {
      assert ids[..i + 1][..i] == ids[..i] && vals[..i + 1][..i] == vals[..i];
      var orig := shown[ids[i]];
      RewriteNotYet(shown, ids, vals, Overwrite, i);
      if vals[i] != PaidOf(orig) {
        db.attendance := db.attendance[ids[i] := orig.(paid := Some(vals[i]))];
        changes := changes + 1;
      }
      i := i + 1;
    }
    assert ids[..|ids|] == ids && vals[..|ids|] == vals;
  }

  /** What saving does to the table: every shown session ends up holding its
      typed value, it is rewritten exactly when that value differs from the
      stored one, no other session changes, and the count of changes is zero
      exactly when nothing was rewritten ("No changes detected."). */
  lemma SaveFacts(m: map<Id, Attendance>, ids: seq<Id>, vals: seq<int>)
    requires |vals| == |ids| && Distinct(ids)
    requires forall i :: 0 <= i < |ids| ==> ids[i] in m
    ensures var m' := Rewrite(m, ids, vals, Overwrite);
      && m'.Keys == m.Keys
      && (forall i :: 0 <= i < |ids| ==> PaidOf(m'[ids[i]]) == vals[i])
      && (forall i :: 0 <= i < |ids| ==> (m'[ids[i]] == m[ids[i]] <==> vals[i] == PaidOf(m[ids[i]])))
      && (forall k :: k in m && k !in ids ==> m'[k] == m[k])
      && (CountChanged(m, ids, vals) == 0 <==> m' == m)
  {
    var m' := Rewrite(m, ids, vals, Overwrite);
    RewriteRows(m, ids, vals, Overwrite);
    CountChangedZero(m, ids, vals);
    if CountChanged(m, ids, vals) == 0 {
      assert forall k :: k in m ==> m'[k] == m[k];
    } else {
      var j :| 0 <= j < |ids| && vals[j] != PaidOf(m[ids[j]]);
      assert m'[ids[j]] != m[ids[j]];
    }
  }
}
