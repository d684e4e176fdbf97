/** Marking a player present at a session: the session key chosen from the
    drop-down label, the guard against marking a player twice, and the
    attendance row that is inserted. */
module MarkAttendance {
  import opened Basics
  import opened Text
  import opened Calendar
  import opened Tables

  /** The session drop-down. */
  const SessionLabels: seq<string> := ["morning (7\U{2013}8 AM)", "evening (7\U{2013}8 PM)"]

  /** `"morning" if "morning" in session_time else "evening"`. */
  function SessionKey(sessionTime: string): (k: Slot)
    ensures k == Morning <==> exists i :: OccursAt(sessionTime, "morning", i)
  {
    if Contains(sessionTime, "morning") then Morning else Evening
  }

  /** The two labels on offer map to the two sessions. */
  lemma SessionLabelKeys()
    ensures SessionKey(SessionLabels[0]) == Morning
    ensures SessionKey(SessionLabels[1]) == Evening
  {
    var e := SessionLabels[1];
    // the evening label has no lower-case 'm' at all
    assert forall i :: 0 <= i < |e| ==> e[i] != 'm';
    assert forall i :: OccursAt(e, "morning", i) ==> e[i] == 'm';
  }

  /** Whether the player already has a row for this session
      (`p_id in already_marked_ids`). */
  predicate IsMarked(m: map<Id, Attendance>, pid: Id, date: Date, slot: Slot)
  {
    exists k :: k in m && m[k].player == pid && m[k].date == date && m[k].slot == slot
  }

  /** The row the form inserts. */
  function NewRow(pid: Id, p: Player, date: Date, slot: Slot, fee: int, notes: string): Attendance
  {
    Attendance(pid, date, slot, Some(if IsMonthly(p) then 0 else fee), Some(0), IsMonthly(p), NoneIfEmpty(notes))
  }

  datatype MarkOutcome = NoPlayerChosen | AlreadyMarked | Marked(id: Id)

  /** Submitting the attendance form. `choice` is None when the placeholder
      "— Select —" is still chosen. */
  method Mark(db: Ledger, choice: Option<Id>, date: Date, sessionTime: string, fee: int, notes: string)
    returns (outcome: MarkOutcome)
    requires db.Valid()
    requires choice.Some? ==> choice.value in db.players
    modifies db`attendance, db`nextId
    ensures db.Valid()
    ensures outcome == NoPlayerChosen <==> choice.None?
    ensures outcome.Marked? <==>
      choice.Some? && !IsMarked(old(db.attendance), choice.value, date, SessionKey(sessionTime))
    ensures !outcome.Marked? ==> db.attendance == old(db.attendance)
    ensures outcome.Marked? ==> outcome.id in db.attendance
    ensures outcome.Marked? ==>
      var r := db.attendance[outcome.id];
      && outcome.id !in old(db.attendance)
      && db.attendance == old(db.attendance)[outcome.id := r]
      && r.player == choice.value && r.date == date && r.slot == SessionKey(sessionTime)
      && r.fee == Some(if IsMonthly(db.players[choice.value]) then 0 else fee)
      && r.paid == Some(0)
      && r.monthlyMember == IsMonthly(db.players[choice.value])
      && r.notes == NoneIfEmpty(notes)
      && (r.notes == None <==> notes == "")
    ensures old(OneRowPerSession(db.attendance)) ==> OneRowPerSession(db.attendance)
  {
    var slot := SessionKey(sessionTime);
    if choice.None? {
      return NoPlayerChosen;
    }
    var pid := choice.value;
    if IsMarked(db.attendance, pid, date, slot) {
      return AlreadyMarked;
    }
    var row := NewRow(pid, db.players[pid], date, slot, fee, notes);
    var id := db.FreshId();
    db.attendance := db.attendance[id := row];
    outcome := Marked(id);
  }
}
