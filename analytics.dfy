/** The dues tab of the analytics page: every player's outstanding balance
    over all their sessions, the players who owe something listed largest
    balance first, and the total outstanding. */
module Analytics {
  import opened Basics
  import opened Tables

  /** A player's aggregated due: the sum over their rows of `fee_charged`
      less `amount_paid`, missing values read as 0. */
  function DueOf(rows: seq<Attendance>, pid: Id): int
  {
    Sum(OfPlayer(rows, pid), Due)
  }

  /** The position of the first row of player pid, or |rows| when the
      player has none. */
  function FirstRow(rows: seq<Attendance>, pid: Id): (i: nat)
    ensures i <= |rows| && forall k :: 0 <= k < i ==> rows[k].player != pid
    ensures i < |rows| ==> rows[i].player == pid
  {
    if rows == [] || rows[0].player == pid then 0 else FirstRow(rows[1..], pid) + 1
  }

  /** The loop that fills `dues_by_player`, with the order in which the
      dictionary first saw each player (the order its items come out in):
      a player listed before another has their first row earlier. */
  method DuesByPlayer(rows: seq<Attendance>) returns (dues: map<Id, int>, order: seq<Id>)
    ensures forall pid :: pid in dues <==> |OfPlayer(rows, pid)| > 0
    ensures forall pid :: pid in dues ==> dues[pid] == DueOf(rows, pid)
    ensures forall pid :: pid in order <==> pid in dues
    ensures Distinct(order)
    ensures forall a, b :: 0 <= a < b < |order| ==> FirstRow(rows, order[a]) < FirstRow(rows, order[b])
  {
    dues, order := map[], [];
    var i := 0;
    while i < |rows|
      invariant 0 <= i <= |rows|
      invariant DueTallies(rows[..i], dues)
      invariant forall pid :: pid in order <==> pid in dues
      invariant Distinct(order)
      invariant FirstSeenOrder(rows, order, i)
    {
      var r := rows[i];
      var pre := rows[..i];
      assert rows[..i + 1] == pre + [r];
      FirstSeenStep(rows, order, i, dues);
      if r.player !in dues {
        order := order + [r.player];
      }
      DueTalliesSnoc(pre, r, dues);
      dues := dues[r.player := (if r.player in dues then dues[r.player] else 0) + Due(r)];
      i := i + 1;
    }
    assert rows[..|rows|] == rows;
  }

  /** `dues` holds an entry exactly for the players with rows, each their
      aggregated due. */
  ghost predicate DueTallies(rows: seq<Attendance>, dues: map<Id, int>)
  {
    && (forall pid :: pid in dues <==> |OfPlayer(rows, pid)| > 0)
    && (forall pid :: pid in dues ==> dues[pid] == DueOf(rows, pid))
  }

  /** Adding one row's due to its player's entry keeps the entries equal
      to the players' aggregated dues. */
  lemma DueTalliesSnoc(pre: seq<Attendance>, r: Attendance, dues: map<Id, int>)
    requires DueTallies(pre, dues)
    ensures DueTallies(pre + [r], dues[r.player := (if r.player in dues then dues[r.player] else 0) + Due(r)])
  {
    var dues' := dues[r.player := (if r.player in dues then dues[r.player] else 0) + Due(r)];
    forall pid
      ensures pid in dues' <==> |OfPlayer(pre + [r], pid)| > 0
      ensures pid in dues' ==> dues'[pid] == DueOf(pre + [r], pid)
    {
      OfPlayerSumSnoc(pre, r, pid, Due);
    }
  }

  /** The players of `order` all have their first row before row i, and
      they come in the order of their first rows. */
  ghost predicate FirstSeenOrder(rows: seq<Attendance>, order: seq<Id>, i: nat)
  {
    && (forall a :: 0 <= a < |order| ==> FirstRow(rows, order[a]) < i)
    && (forall a, b :: 0 <= a < b < |order| ==> FirstRow(rows, order[a]) < FirstRow(rows, order[b]))
  }

  /** Row i appends its player to `order` exactly when the player is new,
      and that keeps `order` in first-seen order. */
  lemma FirstSeenStep(rows: seq<Attendance>, order: seq<Id>, i: nat, seen: map<Id, int>)
    requires i < |rows| && FirstSeenOrder(rows, order, i)
    requires DueTallies(rows[..i], seen)
    ensures FirstSeenOrder(rows, if rows[i].player in seen then order else order + [rows[i].player], i + 1)
  {
    var p := rows[i].player;
    if p !in seen {
      FirstRowAt(rows, i, seen);
      var o := order + [p];
      forall a | 0 <= a < |o|
        ensures FirstRow(rows, o[a]) < i + 1
      {
        if a < |order| {
          assert o[a] == order[a];
        }
      }
      forall a, b | 0 <= a < b < |o|
        ensures FirstRow(rows, o[a]) < FirstRow(rows, o[b])
      {
        assert o[a] == order[a];
        if b < |order| {
          assert o[b] == order[b];
        }
      }
    }
  }

  /** A player seen at row i but not among the players of the earlier
      rows has their first row at i. */
  lemma FirstRowAt(rows: seq<Attendance>, i: nat, seen: map<Id, int>)
    requires i < |rows|
    requires DueTallies(rows[..i], seen)
    requires rows[i].player !in seen
    ensures FirstRow(rows, rows[i].player) == i
  {
    var pid := rows[i].player;
    if FirstRow(rows, pid) < i {
      OfPlayerHas(rows[..i], FirstRow(rows, pid));
    }
  }

  /** `due > 0.005` with the due in rupees: more than half a paisa, which
      for a whole number of paise is at least one paisa. */
  function AboveThreshold(due: int): (b: bool)
    ensures b <==> due >= 1
  {
    2 * due > 1
  }

  /** One line of the dues table. `round(due, 2)` leaves a whole number of
      paise as it is, so the balance is the aggregated due itself. */
  datatype DueRow = DueRow(player: Id, balance: int)

  function Balance(r: DueRow): int
  {
    r.balance
  }

  /** `dues_rows`: the players in dictionary order whose due is above the
      threshold. */
  function OutstandingRows(dues: map<Id, int>, order: seq<Id>): (r: seq<DueRow>)
    requires forall pid :: pid in order ==> pid in dues
    ensures |r| <= |order|
    ensures forall x :: x in r <==> x.player in order && x.balance == dues[x.player] && AboveThreshold(x.balance)
    ensures Distinct(order) ==> forall i, j :: 0 <= i < j < |r| ==> r[i].player != r[j].player
    decreases |order|
  {
    if |order| == 0 then []
    else
      var k := |order| - 1;
      var pid := order[k];
      assert forall q :: q in order[..k] ==> q in order;
      OutstandingRows(dues, order[..k])
      + (if AboveThreshold(dues[pid]) then [DueRow(pid, dues[pid])] else [])
  }

  /** Largest balance first. */
  predicate Descending(s: seq<DueRow>)
  {
    forall i, j :: 0 <= i < j < |s| ==> s[i].balance >= s[j].balance
  }

  /** `dues_rows.sort(key=balance, reverse=True)`, in place, by insertion:
      the rows end largest balance first and are the same rows as before. */
  method SortByBalance(a: array<DueRow>)
    modifies a
    ensures Descending(a[..])
    ensures multiset(a[..]) == multiset(old(a[..]))
  {
    if a.Length == 0 {
      return;
    }
    var i := 1;
    while i < a.Length
      invariant 1 <= i <= a.Length
      invariant forall k, l :: 0 <= k < l < i ==> a[k].balance >= a[l].balance
      invariant multiset(a[..]) == multiset(old(a[..]))
    {
      InsertDown(a, i);
      i := i + 1;
    }
  }

  /** Moves `a[i]` down past every smaller balance before it, so that the
      first i + 1 rows are largest first when the first i were. */
  method InsertDown(a: array<DueRow>, i: int)
    requires 1 <= i < a.Length
    requires forall k, l :: 0 <= k < l < i ==> a[k].balance >= a[l].balance
    modifies a
    ensures forall k, l :: 0 <= k < l <= i ==> a[k].balance >= a[l].balance
    ensures multiset(a[..]) == multiset(old(a[..]))
  {
    var j := i;
    while j > 0 && a[j - 1].balance < a[j].balance
      invariant 0 <= j <= i
      invariant forall k, l :: 0 <= k < l <= i && k != j && l != j ==> a[k].balance >= a[l].balance
      invariant forall l :: j < l <= i ==> a[j].balance > a[l].balance
      invariant multiset(a[..]) == multiset(old(a[..]))
    {
      Swap(a, j - 1, j);
      j := j - 1;
    }
  }

  /** Exchanges two rows of the array and touches no other. */
  method Swap(a: array<DueRow>, i: int, j: int)
    requires 0 <= i < a.Length && 0 <= j < a.Length
    modifies a
    ensures a[i] == old(a[j]) && a[j] == old(a[i])
    ensures forall k :: 0 <= k < a.Length && k != i && k != j ==> a[k] == old(a[k])
    ensures multiset(a[..]) == multiset(old(a[..]))
  {
    a[i], a[j] := a[j], a[i];
  }

  /** Sorting keeps the same rows, so it keeps each player on one row. */
  lemma Rearranged(s: seq<DueRow>, t: seq<DueRow>)
    requires multiset(s) == multiset(t)
    requires forall i, j :: 0 <= i < j < |s| ==> s[i].player != s[j].player
    ensures forall x :: x in t <==> x in s
    ensures forall i, j :: 0 <= i < j < |t| ==> t[i].player != t[j].player
  {
    forall x
      ensures x in t <==> x in s
    {
      assert x in t <==> x in multiset(t);
      assert x in s <==> x in multiset(s);
    }
    PermutationDistinct(s, t);
    forall i, j | 0 <= i < j < |t|
      ensures t[i].player != t[j].player
    {
      assert t[i] in t && t[j] in t;
      var p :| 0 <= p < |s| && s[p] == t[i];
      var q :| 0 <= q < |s| && s[q] == t[j];
    }
  }

  /** A sum of positive balances is positive exactly when there is at least
      one, and is at least each of them. */
  lemma {:induction false} OutstandingTotal(rows: seq<DueRow>)
    requires forall x :: x in rows ==> x.balance > 0
    ensures Sum(rows, Balance) > 0 <==> |rows| > 0
    ensures forall x :: x in rows ==> Sum(rows, Balance) >= x.balance
    decreases |rows|
  {
    if |rows| > 0 {
      var k := |rows| - 1;
      assert forall x :: x in rows[..k] ==> x in rows;
      OutstandingTotal(rows[..k]);
      assert forall x :: x in rows ==> x in rows[..k] || x == rows[k];
    }
  }

  /** Whatever order the outstanding rows end up in, they are the players
      owing at least a paisa, each once, with their aggregated due. */
  lemma ListedRows(rows: seq<Attendance>, dues: map<Id, int>, order: seq<Id>, listed: seq<DueRow>)
    requires forall pid :: pid in dues <==> |OfPlayer(rows, pid)| > 0
    requires forall pid :: pid in dues ==> dues[pid] == DueOf(rows, pid)
    requires forall pid :: pid in order <==> pid in dues
    requires Distinct(order)
    requires multiset(listed) == multiset(OutstandingRows(dues, order))
    ensures forall x :: x in listed <==> |OfPlayer(rows, x.player)| > 0 && x.balance == DueOf(rows, x.player) && x.balance >= 1
    ensures forall i, j :: 0 <= i < j < |listed| ==> listed[i].player != listed[j].player
  {
    Rearranged(OutstandingRows(dues, order), listed);
  }

  /** The dues tab: the aggregated dues, the players above the threshold
      sorted by balance largest first, and the total outstanding. Each
      player owing at least a paisa is listed once with their aggregated
      due; nobody else is listed; the total is positive exactly when the
      list is not empty, so an empty list is the all-clear message. */
  method DuesTab(rows: seq<Attendance>) returns (listed: seq<DueRow>, total: int)
    ensures Descending(listed)
    ensures forall x :: x in listed <==> |OfPlayer(rows, x.player)| > 0 && x.balance == DueOf(rows, x.player) && x.balance >= 1
    ensures forall i, j :: 0 <= i < j < |listed| ==> listed[i].player != listed[j].player
    ensures total == Sum(listed, Balance)
    ensures total > 0 <==> |listed| > 0
    ensures forall x :: x in listed ==> total >= x.balance
  {
    var dues, order := DuesByPlayer(rows);
    var unsorted := OutstandingRows(dues, order);
    var a := new DueRow[|unsorted|](i requires 0 <= i < |unsorted| => unsorted[i]);
    assert a[..] == unsorted;
    SortByBalance(a);
    listed := a[..];
    ListedRows(rows, dues, order, listed);
    total := Sum(listed, Balance);
    OutstandingTotal(listed);
  }
}
