/** The player management page: adding a player, the defaults the edit form
    opens with, and saving an edited player. */
module ManagePlayers {
  import opened Basics
  import opened Text
  import opened Tables
  import opened Helpers

  /** The membership drop-down. */
  const Memberships: seq<string> := ["regular", "monthly"]

  /** `monthly_fee if membership_type == "monthly" else None`. */
  function FeeFor(membership: string, fee: int): (r: Option<int>)
    ensures r.Some? <==> membership == "monthly"
    ensures r.Some? ==> r.value == fee
  {
    if membership == "monthly" then Some(fee) else None
  }

  /** The row the add and edit forms write: name, phone and profession
      stripped, a blank profession stored as NULL, and the monthly fee kept
      for monthly members only. */
  function PlayerRecord(name: string, phone: string, membership: string, fee: int, skill: int,
                        profession: string, workTiming: string, active: bool): (p: Player)
    ensures p.name == Strip(name) && p.phone == Strip(phone) && p.membership == membership
    ensures p.monthlyFee == FeeFor(membership, fee)
    ensures p.skill == Some(skill) && p.workTiming == Some(workTiming) && p.active == active
    ensures p.profession.None? <==> AllSpace(profession)
    ensures p.profession.Some? ==> p.profession.value == Strip(profession)
  {
    StripEmptyIffBlank(profession);
    Player(Strip(name), Strip(phone), membership, FeeFor(membership, fee), Some(skill),
           NoneIfEmpty(Strip(profession)), Some(workTiming), active)
  }

  datatype AddOutcome = NameOrPhoneMissing | Added(id: Id)

  /** "✅ Add Player": refused, with nothing written, when the name or the
      phone is blank; otherwise one active player is inserted. */
  method AddPlayer(db: Ledger, name: string, phone: string, membership: string, fee: int, skill: int,
                   profession: string, workTiming: string)
    returns (outcome: AddOutcome)
    requires db.Valid()
    modifies db`players, db`nextId
    ensures db.Valid()
    ensures outcome == NameOrPhoneMissing <==> AllSpace(name) || AllSpace(phone)
    ensures outcome == NameOrPhoneMissing ==> db.players == old(db.players) && db.nextId == old(db.nextId)
    ensures outcome.Added? ==>
      && outcome.id !in old(db.players)
      && db.players == old(db.players)[outcome.id := PlayerRecord(name, phone, membership, fee, skill, profession, workTiming, true)]
      && db.players[outcome.id].active
      && db.players[outcome.id].name != "" && db.players[outcome.id].phone != ""
  {
    StripEmptyIffBlank(name);
    StripEmptyIffBlank(phone);
    if Strip(name) == "" || Strip(phone) == "" {
      return NameOrPhoneMissing;
    }
    var id := db.FreshId();
    db.players := db.players[id := PlayerRecord(name, phone, membership, fee, skill, profession, workTiming, true)];
    outcome := Added(id);
  }

  /** `WORK_TIMINGS.index(cur)` when the stored timing (missing or empty
      read as the last entry) is one of the list, else the last index. */
  function TimingIndex(t: Option<string>): (i: nat)
    ensures i < |WorkTimings|
    ensures t.None? || t.value == "" || t.value !in WorkTimings ==> i == |WorkTimings| - 1
    ensures t.Some? && t.value in WorkTimings ==> WorkTimings[i] == t.value
  {
    var cur := match t case None => "" case Some(s) => s;
    var cur' := if cur == "" then WorkTimings[|WorkTimings| - 1] else cur;
    if cur' in WorkTimings then IndexOf(WorkTimings, cur') else |WorkTimings| - 1
  }

  /** `0 if membership_type == "regular" else 1`. */
  function MembershipIndex(membership: string): (i: nat)
    ensures i < |Memberships|
    ensures i == 0 <==> membership == "regular"
    ensures Memberships[i] == membership <==> membership in Memberships
  {
    if membership == "regular" then 0 else 1
  }

  /** The values the edit form opens with for a stored player. */
  datatype EditForm = EditForm(name: string, phone: string, membership: string, fee: int, skill: int,
                               profession: string, workTiming: string, active: bool)

  function EditDefaults(p: Player): (f: EditForm)
    ensures f.skill == Level(p.skill) && f.fee == OrZero(p.monthlyFee)
    ensures f.workTiming in WorkTimings
  {
    EditForm(p.name, p.phone, Memberships[MembershipIndex(p.membership)], OrZero(p.monthlyFee), Level(p.skill),
             match p.profession case None => "" case Some(s) => s,
             WorkTimings[TimingIndex(p.workTiming)], p.active)
  }

  /** What "💾 Update Player" writes for the form's values. Unlike adding,
      editing checks nothing: a blank name or phone is stored blank. */
  function Edited(f: EditForm): Player
  {
    PlayerRecord(f.name, f.phone, f.membership, f.fee, f.skill, f.profession, f.workTiming, f.active)
  }

  /** A player record as the forms leave it: name, phone and profession
      stripped, no empty profession, a fee exactly for monthly members, a
      skill level from the slider and a timing from the list. */
  predicate WellFormed(p: Player)
  {
    && Strip(p.name) == p.name && Strip(p.phone) == p.phone
    && p.membership in Memberships
    && (p.monthlyFee.Some? <==> p.membership == "monthly")
    && p.skill.Some? && 1 <= p.skill.value <= 10
    && (p.profession.Some? ==> p.profession.value != "" && Strip(p.profession.value) == p.profession.value)
    && p.workTiming.Some? && p.workTiming.value in WorkTimings
  }

  /** Every player the add form writes, from the slider's range and the two
      drop-downs, is well formed. */
  lemma AddedWellFormed(name: string, phone: string, membership: string, fee: int, skill: int,
                        profession: string, workTiming: string)
    requires membership in Memberships && 1 <= skill <= 10 && workTiming in WorkTimings
    ensures WellFormed(PlayerRecord(name, phone, membership, fee, skill, profession, workTiming, true))
  {
    StripIdempotent(name);
    StripIdempotent(phone);
    StripIdempotent(profession);
  }

  /** Saving the edit form without touching it writes back the very record
      it was opened on, for every well-formed player. */
  lemma EditUnchangedKeepsRecord(p: Player)
    requires WellFormed(p)
    ensures Edited(EditDefaults(p)) == p
  {
    var f := EditDefaults(p);
    MembershipRoundTrip(p.membership);
    ProfessionRoundTrip(p.profession);
    assert f.workTiming == p.workTiming.value;
    assert f.skill == p.skill.value;
  }

  /** The membership drop-down opens on the stored membership. */
  lemma MembershipRoundTrip(m: string)
    requires m in Memberships
    ensures Memberships[MembershipIndex(m)] == m
  {
  }

  /** The profession box opens on the stored profession, and saving it
      stores it back. */
  lemma ProfessionRoundTrip(pr: Option<string>)
    requires pr.Some? ==> pr.value != "" && Strip(pr.value) == pr.value
    ensures NoneIfEmpty(Strip(match pr case None => "" case Some(s) => s)) == pr
  {
    if pr.None? {
      assert AllSpace("");
      StripEmptyIffBlank("");
    }
  }

  /** "💾 Update Player" for the player picked by name from the list sorted
      by name: the first player carrying the chosen name is the one
      rewritten, and with no two players sharing a name that is the one
      chosen. Every other player is left as it was. */
  method UpdatePlayer(db: Ledger, list: seq<Id>, chosen: nat, f: EditForm) returns (target: Id)
    requires chosen < |list| && forall i :: 0 <= i < |list| ==> list[i] in db.players
    requires db.Valid()
    modifies db`players
    ensures db.Valid()
    ensures target in old(db.players) && db.players == old(db.players)[target := Edited(f)]
    ensures old(db.players)[target].name == old(db.players)[list[chosen]].name
    ensures Distinct(Names(old(db.players), list)) ==> target == list[chosen]
  {
    var names := Names(db.players, list);
    // `next(p for p in players if p["name"] == edit_name)`
    var idx := IndexOf(names, names[chosen]);
    target := list[idx];
    if Distinct(names) {
      IndexOfDistinct(names, chosen);
    }
    db.players := db.players[target := Edited(f)];
  }

  /** `player_names`: the names of the listed players, in order. */
  function Names(m: map<Id, Player>, list: seq<Id>): (r: seq<string>)
    requires forall i :: 0 <= i < |list| ==> list[i] in m
    ensures |r| == |list| && forall i :: 0 <= i < |list| ==> r[i] == m[list[i]].name
  {
    seq(|list|, i requires 0 <= i < |list| => m[list[i]].name)
  }
}
