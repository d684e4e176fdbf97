/** Rewriting attendance rows in place: a list of sessions, each rewritten
    with its own value by a row update such as "add to `amount_paid`" or
    "set `fee_charged`", one row at a time, as the pages' update loops do. */
module Sessions {
  import opened Basics
  import opened Tables

  /** The table after every listed session that exists is rewritten by f
      with its own value, one row at a time, each from the row as it stands
      at that point; ids with no row are skipped, as the source's `if att:`
      guards skip them. */
  function Rewrite(m: map<Id, Attendance>, ids: seq<Id>, vals: seq<int>,
                   f: (Attendance, int) -> Attendance): (m': map<Id, Attendance>)
    requires |vals| == |ids|
    ensures m'.Keys == m.Keys
    decreases |ids|
  {
    if |ids| == 0 then m
    else
      var k := |ids| - 1;
      var prev := Rewrite(m, ids[..k], vals[..k], f);
      if ids[k] in prev then prev[ids[k] := f(prev[ids[k]], vals[k])] else prev
  }

  /** With no id listed twice, each listed session that exists is rewritten
      once, from its original row, and every other session is left as it
      was. */
  lemma {:induction false} RewriteRows(m: map<Id, Attendance>, ids: seq<Id>, vals: seq<int>,
                                       f: (Attendance, int) -> Attendance)
    requires |vals| == |ids| && Distinct(ids)
    ensures forall i :: 0 <= i < |ids| && ids[i] in m ==> Rewrite(m, ids, vals, f)[ids[i]] == f(m[ids[i]], vals[i])
    ensures forall k :: k in m && k !in ids ==> Rewrite(m, ids, vals, f)[k] == m[k]
    decreases |ids|
  {
    if |ids| > 0 {
      var k := |ids| - 1;
      RewriteRows(m, ids[..k], vals[..k], f);
      assert forall i :: 0 <= i < k ==> ids[..k][i] == ids[i] && vals[..k][i] == vals[i];
    }
  }

  /** The row of one listed session after the rewrite. */
  lemma RewriteAt(m: map<Id, Attendance>, ids: seq<Id>, vals: seq<int>, f: (Attendance, int) -> Attendance, i: nat)
    requires |vals| == |ids| && Distinct(ids) && i < |ids| && ids[i] in m
    ensures Rewrite(m, ids, vals, f)[ids[i]] == f(m[ids[i]], vals[i])
  {
    RewriteRows(m, ids, vals, f);
  }

  /** The row of one unlisted session after the rewrite. */
  lemma RewriteOff(m: map<Id, Attendance>, ids: seq<Id>, vals: seq<int>, f: (Attendance, int) -> Attendance, k: Id)
    requires |vals| == |ids| && Distinct(ids) && k in m && k !in ids
    ensures Rewrite(m, ids, vals, f)[k] == m[k]
  {
    RewriteRows(m, ids, vals, f);
  }

  /** `v` repeated n times. */
  function Repeat(v: int, n: nat): (r: seq<int>)
    ensures |r| == n && forall i :: 0 <= i < n ==> r[i] == v
  {
    seq(n, _ => v)
  }

  /** Rewriting every session a query selects with the same value rewrites
      exactly the rows that match it. */
  lemma RewriteSelected(m: map<Id, Attendance>, n: nat, q: Query, v: int, f: (Attendance, int) -> Attendance)
    requires forall k :: k in m ==> k < n
    ensures var ids := Select(m, n, q);
      forall k :: k in m ==>
        Rewrite(m, ids, Repeat(v, |ids|), f)[k] == if Matches(q, m[k]) then f(m[k], v) else m[k]
  {
    var ids := Select(m, n, q);
    RewriteRows(m, ids, Repeat(v, |ids|), f);
    forall k | k in m && Matches(q, m[k])
      ensures Rewrite(m, ids, Repeat(v, |ids|), f)[k] == f(m[k], v)
    {
      var i :| 0 <= i < |ids| && ids[i] == k;
    }
  }

  /** Rewrites the listed sessions that exist with f, one row at a time. */
  method RewriteSessions(db: Ledger, ids: seq<Id>, vals: seq<int>, f: (Attendance, int) -> Attendance)
    requires db.Valid() && |vals| == |ids|
    modifies db`attendance
    ensures db.Valid()
    ensures db.attendance == Rewrite(old(db.attendance), ids, vals, f)
  {
    ghost var m0 := db.attendance;
    var i := 0;
    while i < |ids|
      invariant 0 <= i <= |ids|
      invariant db.attendance == Rewrite(m0, ids[..i], vals[..i], f)
    {
      assert ids[..i + 1][..i] == ids[..i] && vals[..i + 1][..i] == vals[..i];
      if ids[i] in db.attendance {
        db.attendance := db.attendance[ids[i] := f(db.attendance[ids[i]], vals[i])];
      }
      i := i + 1;
    }
    assert ids[..|ids|] == ids && vals[..|ids|] == vals;
  }

  /** Every session a query selects rewritten by f with the same value v. */
  method RewriteEqually(db: Ledger, q: Query, v: int, f: (Attendance, int) -> Attendance) returns (ids: seq<Id>)
    requires db.Valid()
    modifies db`attendance
    ensures db.Valid()
    ensures ids == Select(old(db.attendance), db.nextId, q)
    ensures db.attendance.Keys == old(db.attendance).Keys
    ensures forall k :: k in old(db.attendance) ==>
      db.attendance[k] == if Matches(q, old(db.attendance)[k]) then f(old(db.attendance)[k], v) else old(db.attendance)[k]
  {
    ids := Select(db.attendance, db.nextId, q);
    RewriteSelected(db.attendance, db.nextId, q, v, f);
    RewriteSessions(db, ids, Repeat(v, |ids|), f);
  }
}
