/** The monthly dues page: each monthly member's fee for a month, the
    summary of what they attended and paid in it, and the end-of-month
    distribution of the fee over the sessions they attended. */
module MonthlySettlement {
  import opened Basics
  import opened Calendar
  import opened Tables
  import opened Sessions

  /** The fee a monthly member owes for a month: the month's configured fee
      when there is one, otherwise the player's default `monthly_fee`, and 0
      when that is missing too. */
  function EffectiveFee(config: map<FeeKey, int>, pid: Id, p: Player, mo: Month): (fee: int)
    ensures FeeKey(pid, mo) in config ==> fee == config[FeeKey(pid, mo)]
    ensures FeeKey(pid, mo) !in config ==> fee == OrZero(p.monthlyFee)
  {
    if FeeKey(pid, mo) in config then config[FeeKey(pid, mo)] else OrZero(p.monthlyFee)
  }

  /** The fee table after the entered fee of each listed player is written
      for month mo, one player at a time. */
  function SetFees(config: map<FeeKey, int>, mo: Month, pids: seq<Id>, fees: seq<int>): map<FeeKey, int>
    requires |fees| == |pids|
    decreases |pids|
  {
    if |pids| == 0 then config
    else
      var k := |pids| - 1;
      SetFees(config, mo, pids[..k], fees[..k])[FeeKey(pids[k], mo) := fees[k]]
  }

  /** With every player listed once, each listed player ends with exactly
      the fee entered for them; the month gains a row for each listed player
      and nothing else, and every other row keeps its fee. */
  lemma {:induction false} SetFeesRows(config: map<FeeKey, int>, mo: Month, pids: seq<Id>, fees: seq<int>)
    requires |fees| == |pids| && Distinct(pids)
    ensures forall i :: 0 <= i < |pids| ==> FeeKey(pids[i], mo) in SetFees(config, mo, pids, fees)
    ensures forall i :: 0 <= i < |pids| ==> SetFees(config, mo, pids, fees)[FeeKey(pids[i], mo)] == fees[i]
    ensures forall key :: key in SetFees(config, mo, pids, fees) <==> key in config || (key.month == mo && key.player in pids)
    ensures forall key :: key in config && !(key.month == mo && key.player in pids) ==>
      SetFees(config, mo, pids, fees)[key] == config[key]
    decreases |pids|
  {
    if |pids| > 0 {
      var k := |pids| - 1;
      SetFeesRows(config, mo, pids[..k], fees[..k]);
      assert pids == pids[..k] + [pids[k]];
      assert forall i :: 0 <= i < k ==> pids[..k][i] == pids[i] && fees[..k][i] == fees[i];
    }
  }

  /** "💾 Save Monthly Dues": every listed member's fee for the month is
      written, as an update when the month already has a row for them and
      as an insert otherwise; on a table keyed by player and month both
      writes leave that one row holding the entered fee. */
  method SaveMonthlyDues(db: Ledger, mo: Month, pids: seq<Id>, fees: seq<int>)
    requires |fees| == |pids|
    modifies db`feeConfig
    ensures db.feeConfig == SetFees(old(db.feeConfig), mo, pids, fees)
  {
    ghost var c0 := db.feeConfig;
    var i := 0;
    while i < |pids|
      invariant 0 <= i <= |pids|
      invariant db.feeConfig == SetFees(c0, mo, pids[..i], fees[..i])
    {
      assert pids[..i + 1][..i] == pids[..i] && fees[..i + 1][..i] == fees[..i];
      db.feeConfig := db.feeConfig[FeeKey(pids[i], mo) := fees[i]];
      i := i + 1;
    }
    assert pids[..|pids|] == pids && fees[..|pids|] == fees;
  }

  /** After saving, the fee in force for each listed member this month is
      the one entered for them, and no other member's or month's fee moved. */
  lemma SavedDuesInForce(config: map<FeeKey, int>, players: map<Id, Player>, mo: Month, pids: seq<Id>, fees: seq<int>)
    requires |fees| == |pids| && Distinct(pids)
    requires forall i :: 0 <= i < |pids| ==> pids[i] in players
    ensures forall i :: 0 <= i < |pids| ==>
      EffectiveFee(SetFees(config, mo, pids, fees), pids[i], players[pids[i]], mo) == fees[i]
    ensures forall pid, mo' :: pid in players && (mo' != mo || pid !in pids) ==>
      EffectiveFee(SetFees(config, mo, pids, fees), pid, players[pid], mo') == EffectiveFee(config, pid, players[pid], mo')
  {
    SetFeesRows(config, mo, pids, fees);
  }

  /** Picking one player's rows out of what a query returned gives what the
      same query restricted to that player returns. */
  lemma {:induction false} OfPlayerSelect(m: map<Id, Attendance>, n: nat, q: Query, pid: Id)
    requires q.player.None?
    ensures OfPlayer(Rows(m, Select(m, n, q)), pid) == Rows(m, Select(m, n, q.(player := Some(pid))))
  {
    if n > 0 {
      var q', k := q.(player := Some(pid)), n - 1;
      OfPlayerSelect(m, k, q, pid);
      var ids, ids' := Select(m, k, q), Select(m, k, q');
      if k in m && Matches(q, m[k]) {
        MatchesPlayer(q, pid, m[k]);
        assert Select(m, n, q) == ids + [k];
        assert Select(m, n, q') == if m[k].player == pid then ids' + [k] else ids';
        OfPlayerStep(m, ids, ids', k, pid);
      } else {
        if k in m {
          MatchesPlayer(q, pid, m[k]);
        }
        assert Select(m, n, q) == ids;
        assert Select(m, n, q') == ids';
      }
    }
  }

  /** One more selected row joins the player's share exactly when it is
      the player's. */
  lemma OfPlayerStep(m: map<Id, Attendance>, ids: seq<Id>, ids': seq<Id>, k: Id, pid: Id)
    requires forall i :: 0 <= i < |ids| ==> ids[i] in m
    requires forall i :: 0 <= i < |ids'| ==> ids'[i] in m
    requires k in m && OfPlayer(Rows(m, ids), pid) == Rows(m, ids')
    ensures OfPlayer(Rows(m, ids + [k]), pid) == Rows(m, if m[k].player == pid then ids' + [k] else ids')
  {
    RowsSnoc(m, ids, k);
    OfPlayerSnoc(Rows(m, ids), m[k], pid);
    if m[k].player == pid {
      RowsSnoc(m, ids', k);
    }
  }

  /** Adding a player filter to a query without one keeps exactly that
      player's matches. */
  lemma MatchesPlayer(q: Query, pid: Id, r: Attendance)
    requires q.player.None?
    ensures Matches(q.(player := Some(pid)), r) <==> Matches(q, r) && r.player == pid
  {
  }

  /** `.get(pid, 0)`. */
  function Get(m: map<Id, int>, pid: Id): int
  {
    if pid in m then m[pid] else 0
  }

  /** What the two tallies hold after a run of rows: every player's
      number of rows and the sum of their `amount_paid`, with a player who
      has no rows absent from both and read as 0 and 0. */
  ghost predicate Tallies(rows: seq<Attendance>, count: map<Id, int>, paid: map<Id, int>)
  {
    && (forall pid :: pid in count <==> pid in paid)
    && (forall pid :: pid in count <==> |OfPlayer(rows, pid)| > 0)
    && (forall pid :: Get(count, pid) == |OfPlayer(rows, pid)|)
    && (forall pid :: Get(paid, pid) == TotalPaid(OfPlayer(rows, pid)))
  }

  /** One more row adds one to its player's count and its paid amount to
      their sum, and leaves everyone else's figures alone. */
  lemma TalliesSnoc(pre: seq<Attendance>, r: Attendance, count: map<Id, int>, paid: map<Id, int>)
    requires Tallies(pre, count, paid)
    ensures Tallies(pre + [r], count[r.player := Get(count, r.player) + 1], paid[r.player := Get(paid, r.player) + PaidOf(r)])
  {
    var count', paid' := count[r.player := Get(count, r.player) + 1], paid[r.player := Get(paid, r.player) + PaidOf(r)];
    forall pid
      ensures pid in count' <==> |OfPlayer(pre + [r], pid)| > 0
      ensures Get(count', pid) == |OfPlayer(pre + [r], pid)|
      ensures Get(paid', pid) == TotalPaid(OfPlayer(pre + [r], pid))
    {
      OfPlayerSumSnoc(pre, r, pid, PaidOf);
    }
  }

  /** The loop over the month's rows that fills `att_count_by_pid` and
      `att_paid_by_pid`. */
  method Aggregate(rows: seq<Attendance>) returns (count: map<Id, int>, paid: map<Id, int>)
    ensures Tallies(rows, count, paid)
  {
    count, paid := map[], map[];
    var i := 0;
    while i < |rows|
      invariant 0 <= i <= |rows|
      invariant Tallies(rows[..i], count, paid)
    {
      var r := rows[i];
      assert rows[..i + 1] == rows[..i] + [r];
      TalliesSnoc(rows[..i], r, count, paid);
      count := count[r.player := Get(count, r.player) + 1];
      paid := paid[r.player := Get(paid, r.player) + PaidOf(r)];
      i := i + 1;
    }
    assert rows[..|rows|] == rows;
  }

  /** One line of the "Current dues for this month" table. */
  datatype SummaryRow = SummaryRow(fee: int, sessions: int, paid: int, due: int, configured: bool)

  /** The line a monthly member should get, from that member's own sessions
      of the month: the fee in force, how many sessions they attended, what
      they paid on them, the fee less that payment (negative when they paid
      more), and whether the month has a fee row for them. */
  function SummaryFor(att: map<Id, Attendance>, n: nat, config: map<FeeKey, int>, pid: Id, p: Player, mo: Month): SummaryRow
    requires ValidMonth(mo)
  {
    var rows := Rows(att, Select(att, n, MonthQuery(pid, mo)));
    var fee := EffectiveFee(config, pid, p, mo);
    SummaryRow(fee, |rows|, TotalPaid(rows), fee - TotalPaid(rows), FeeKey(pid, mo) in config)
  }

  /** The summary table, one line per listed monthly member. The page
      computes it from one pass over all of the month's sessions; every line
      is the one that member's own sessions give. */
  method MonthSummary(db: Ledger, mo: Month, pids: seq<Id>) returns (summary: seq<SummaryRow>)
    requires ValidMonth(mo)
    requires forall i :: 0 <= i < |pids| ==> pids[i] in db.players
    ensures |summary| == |pids|
    ensures forall i :: 0 <= i < |pids| ==>
      summary[i] == SummaryFor(db.attendance, db.nextId, db.feeConfig, pids[i], db.players[pids[i]], mo)
  {
    var att, n, config, players := db.attendance, db.nextId, db.feeConfig, db.players;
    var rows := Rows(att, Select(att, n, MonthWide(mo)));
    var count, paid := Aggregate(rows);
    ghost var want := seq(|pids|, j requires 0 <= j < |pids| => SummaryFor(att, n, config, pids[j], players[pids[j]], mo));
    summary := [];
    var i := 0;
    while i < |pids|
      invariant 0 <= i <= |pids| && summary == want[..i]
    {
      var pid := pids[i];
      OfPlayerSelect(att, n, MonthWide(mo), pid);
      assert OfPlayer(rows, pid) == Rows(att, Select(att, n, MonthQuery(pid, mo)));
      var fee := EffectiveFee(config, pid, players[pid], mo);
      var p := Get(paid, pid);
      var line := SummaryRow(fee, Get(count, pid), p, fee - p, FeeKey(pid, mo) in config);
      assert line == want[i];
      TakeSnoc(want, i);
      summary := summary + [line];
      i := i + 1;
    }
    assert want[..|pids|] == want;
  }

  /** A session with `fee_charged` set to v; what was paid on it stays. */
  function SetFee(r: Attendance, v: int): (r': Attendance)
    ensures r'.player == r.player && r'.date == r.date && r'.slot == r.slot && r'.paid == r.paid
    ensures Charged(r') == v && Due(r') == v - PaidOf(r)
  {
    r.(fee := Some(v))
  }

  datatype DistributeOutcome = NoSessions | NonPositiveFee | Distributed(perSession: int)

  /** Sessions that are all charged `round(fee / n, 2)` add up to the fee to
      within half a paisa per session. */
  lemma DistributedCharges(m: map<Id, Attendance>, ids: seq<Id>, fee: int)
    requires |ids| > 0 && forall i :: 0 <= i < |ids| ==> ids[i] in m
    requires forall i :: 0 <= i < |ids| ==> Charged(m[ids[i]]) == RoundDiv(fee, |ids|)
    ensures 2 * Abs(TotalCharged(Rows(m, ids)) - fee) <= |ids|
  {
    SumConstant(Rows(m, ids), Charged, RoundDiv(fee, |ids|));
  }

  /** "⚡ Apply Distribution" for one member and month. With no session in
      the month there is no button; a fee of zero or less is refused.
      Otherwise the month's fee row is written (updated or inserted) and
      every session the member attended in the month is charged the fee
      split equally to the nearest paisa, leaving what was paid on it. */
  method Distribute(db: Ledger, pid: Id, mo: Month, fee: int) returns (outcome: DistributeOutcome)
    requires db.Valid() && ValidMonth(mo)
    modifies db`attendance, db`feeConfig
    ensures db.Valid()
    ensures var ids := Select(old(db.attendance), db.nextId, MonthQuery(pid, mo));
      && (outcome == NoSessions <==> |ids| == 0)
      && (outcome == NonPositiveFee <==> |ids| > 0 && fee <= 0)
      && (!outcome.Distributed? ==> db.attendance == old(db.attendance) && db.feeConfig == old(db.feeConfig))
      && (outcome.Distributed? ==>
           && outcome.perSession == RoundDiv(fee, |ids|)
           && db.feeConfig == old(db.feeConfig)[FeeKey(pid, mo) := fee]
           && db.attendance.Keys == old(db.attendance).Keys
           && (forall k :: k in old(db.attendance) ==>
                db.attendance[k] == if Matches(MonthQuery(pid, mo), old(db.attendance)[k])
                                    then SetFee(old(db.attendance)[k], outcome.perSession) else old(db.attendance)[k])
           && 2 * Abs(TotalCharged(Rows(db.attendance, ids)) - fee) <= |ids|)
  {
    ghost var m0 := db.attendance;
    var q := MonthQuery(pid, mo);
    var ids := Select(db.attendance, db.nextId, q);
    if |ids| == 0 {
      return NoSessions;
    }
    if fee <= 0 {
      return NonPositiveFee;
    }
    db.feeConfig := db.feeConfig[FeeKey(pid, mo) := fee];
    var per := RoundDiv(fee, |ids|);
    var written := RewriteEqually(db, q, per, SetFee);
    assert written == ids;
    DistributedCharges(db.attendance, ids, fee);
    assert ids == Select(m0, db.nextId, q);
    outcome := Distributed(per);
  }
}
