/** Shared display helpers: the skill-level label and the list of work
    timings offered on the player forms. */
module Helpers {
  import opened Basics
  import opened Text

  /** `int(v or 5)`: a missing or zero skill level reads as 5. */
  function Level(v: Option<int>): (l: int)
    ensures l != 0
    ensures (v.None? || v.value == 0) ==> l == 5
    ensures v.Some? && v.value != 0 ==> l == v.value
  {
    match v
    case None => 5
    case Some(x) => if x == 0 then 5 else x
  }

  datatype Band = Beginner | Casual | Intermediate | Advanced | Expert | Pro

  /** The skill band of level v. */
  function BandOf(v: int): (b: Band)
    ensures b == Beginner <==> v <= 2
    ensures b == Casual <==> 3 <= v <= 4
    ensures b == Intermediate <==> 5 <= v <= 6
    ensures b == Advanced <==> 7 <= v <= 8
    ensures b == Expert <==> v == 9
    ensures b == Pro <==> v >= 10
  {
    if v <= 2 then Beginner
    else if v <= 4 then Casual
    else if v <= 6 then Intermediate
    else if v <= 8 then Advanced
    else if v == 9 then Expert
    else Pro
  }

  function BandName(b: Band): string
  {
    match b
    case Beginner => "Beginner"
    case Casual => "Casual"
    case Intermediate => "Intermediate"
    case Advanced => "Advanced"
    case Expert => "Expert"
    case Pro => "Pro \U{1F3C6}"
  }

  /** Position of a band from lowest to highest. */
  function Rank(b: Band): nat
  {
    match b
    case Beginner => 0
    case Casual => 1
    case Intermediate => 2
    case Advanced => 3
    case Expert => 4
    case Pro => 5
  }

  /** The separator between the level and its band name. */
  const Separator: string := " \U{2014} "

  /** `skill_label(v)`. */
  function SkillLabel(v: Option<int>): string
  {
    IntToString(Level(v)) + Separator + BandName(BandOf(Level(v)))
  }

  /** The label starts with the level in decimal followed by the separator. */
  lemma SkillLabelPrefix(v: Option<int>)
    ensures var p := IntToString(Level(v)) + Separator;
      |p| <= |SkillLabel(v)| && SkillLabel(v)[..|p|] == p
  {
  }

  /** Bands never go down as the level goes up. */
  lemma BandMonotone(v: int, w: int)
    requires v <= w
    ensures Rank(BandOf(v)) <= Rank(BandOf(w))
  {
  }

  /** Different levels get different labels: the level can be read back from
      the text before the separator. */
  lemma SkillLabelInjective(v: Option<int>, w: Option<int>)
    requires SkillLabel(v) == SkillLabel(w)
    ensures Level(v) == Level(w)
  {
    var a, b := IntToString(Level(v)), IntToString(Level(w));
    var s := SkillLabel(v);
    // neither decimal text contains a space, so both end where the first
    // space of the label is
    IntToStringHasNoSpace(Level(v));
    IntToStringHasNoSpace(Level(w));
    assert s == a + Separator + BandName(BandOf(Level(v)));
    assert s == b + Separator + BandName(BandOf(Level(w)));
    assert s[|a|] == ' ' && s[|b|] == ' ';
    assert forall i :: 0 <= i < |a| ==> s[i] == a[i];
    assert forall i :: 0 <= i < |b| ==> s[i] == b[i];
    assert |a| == |b|;
    assert a == s[..|a|] == b;
    IntToStringInjective(Level(v), Level(w));
  }

  lemma IntToStringHasNoSpace(v: int)
    ensures forall i :: 0 <= i < |IntToString(v)| ==> IntToString(v)[i] != ' '
  {
    var d := NatToString(if v < 0 then -v else v);
    assert forall i :: 0 <= i < |d| ==> d[i] != ' ';
  }

  /** `WORK_TIMINGS`. */
  const WorkTimings: seq<string> := [
    "9 AM \U{2013} 6 PM (Office)",
    "10 AM \U{2013} 7 PM (Office)",
    "8 AM \U{2013} 5 PM (Office)",
    "Night shift",
    "Flexible / WFH",
    "Student",
    "Business owner",
    "Other / Not specified"
  ]

  /** Eight distinct timings, the last of them the catch-all. */
  lemma WorkTimingsShape()
    ensures |WorkTimings| == 8
    ensures forall i, j :: 0 <= i < j < |WorkTimings| ==> WorkTimings[i] != WorkTimings[j]
    ensures WorkTimings[|WorkTimings| - 1] == "Other / Not specified"
  {
  }
}
