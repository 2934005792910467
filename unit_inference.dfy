/**
 * Guessing a measurement unit from a column name: case-insensitive
 * substring tests in a fixed priority order, the first rule that matches
 * deciding. Lower-casing covers ASCII letters only.
 */
module Units {
  import opened Common

  /** One rule: the keywords that select `unit`. */
  datatype Rule = Rule(keywords: seq<string>, unit: string)

  /** The rules in priority order. */
  const Rules: seq<Rule> := [
    Rule(["inc", "azi", "tool-face", "angle"], "Degrees"),
    Rule(["vibe", "accel", "shock", "gx", "gy", "gz", "grav"], "G"),
    Rule(["temp"], "°C"),
    Rule(["gamma"], "CPS"),
    Rule(["pulse", "flow"], "Counts"),
    Rule(["1v8", "5v", "3v3", "bat", "bus"], "V"),
    Rule(["current"], "mA"),
    Rule(["mag", "mx", "my", "mz"], "Gauss"),
    Rule(["rpm"], "RPM")
  ]

  const Fallback: string := "units"

  /** Every unit `infer_unit` can return. */
  const UnitNames: set<string> := {"Degrees", "G", "°C", "CPS", "Counts", "V", "mA", "Gauss", "RPM", "units"}

  predicate AnyContains(s: string, keywords: seq<string>)
  {
    exists k :: 0 <= k < |keywords| && Contains(s, keywords[k])
  }

  /** The unit of the first rule with a keyword in `s`, else the fallback. */
  function FirstMatch(rules: seq<Rule>, s: string): string
  {
    if rules == [] then Fallback
    else if AnyContains(s, rules[0].keywords) then rules[0].unit
    else FirstMatch(rules[1..], s)
  }

  /** `infer_unit`: the unit of the first rule with a keyword in the
      lower-cased name, else "units". */
  function InferUnit(name: string): (u: string)
    ensures u in UnitNames
  {
    var l := Lower(name);
    ChainIsTable(l);
    FirstMatch(Rules, l)
  }

  /** The program's chain of keyword tests, one `if` per rule in priority
      order, decides the same unit. */
  lemma InferUnitIsChain(name: string)
    ensures var l := Lower(name);
      InferUnit(name) ==
      if Contains(l, "inc") || Contains(l, "azi") || Contains(l, "tool-face") || Contains(l, "angle") then "Degrees"
      else if Contains(l, "vibe") || Contains(l, "accel") || Contains(l, "shock") ||
        Contains(l, "gx") || Contains(l, "gy") || Contains(l, "gz") || Contains(l, "grav") then "G"
      else if Contains(l, "temp") then "°C"
      else if Contains(l, "gamma") then "CPS"
      else if Contains(l, "pulse") || Contains(l, "flow") then "Counts"
      else if Contains(l, "1v8") || Contains(l, "5v") || Contains(l, "3v3") ||
        Contains(l, "bat") || Contains(l, "bus") then "V"
      else if Contains(l, "current") then "mA"
      else if Contains(l, "mag") || Contains(l, "mx") || Contains(l, "my") || Contains(l, "mz") then "Gauss"
      else if Contains(l, "rpm") then "RPM"
      else "units"
  {
    ChainIsTable(Lower(name));
  }

  /** The written-out chain agrees with the rule table. */
  lemma ChainIsTable(l: string)
    ensures FirstMatch(Rules, l) ==
      if Contains(l, "inc") || Contains(l, "azi") || Contains(l, "tool-face") || Contains(l, "angle") then "Degrees"
      else if Contains(l, "vibe") || Contains(l, "accel") || Contains(l, "shock") ||
        Contains(l, "gx") || Contains(l, "gy") || Contains(l, "gz") || Contains(l, "grav") then "G"
      else if Contains(l, "temp") then "°C"
      else if Contains(l, "gamma") then "CPS"
      else if Contains(l, "pulse") || Contains(l, "flow") then "Counts"
      else if Contains(l, "1v8") || Contains(l, "5v") || Contains(l, "3v3") ||
        Contains(l, "bat") || Contains(l, "bus") then "V"
      else if Contains(l, "current") then "mA"
      else if Contains(l, "mag") || Contains(l, "mx") || Contains(l, "my") || Contains(l, "mz") then "Gauss"
      else if Contains(l, "rpm") then "RPM"
      else "units"
  {
    var r := Rules;
    KeywordsOf(l, r[0].keywords, ["inc", "azi", "tool-face", "angle"]);
    KeywordsOf(l, r[1].keywords, ["vibe", "accel", "shock", "gx", "gy", "gz", "grav"]);
    KeywordsOf(l, r[2].keywords, ["temp"]);
    KeywordsOf(l, r[3].keywords, ["gamma"]);
    KeywordsOf(l, r[4].keywords, ["pulse", "flow"]);
    MatchStep(r[0..], l);
    assert r[0..][1..] == r[1..];
    MatchStep(r[1..], l);
    assert r[1..][1..] == r[2..];
    MatchStep(r[2..], l);
    assert r[2..][1..] == r[3..];
    MatchStep(r[3..], l);
    assert r[3..][1..] == r[4..];
    MatchStep(r[4..], l);
    assert r[4..][1..] == r[5..];
    ChainTail(l);
  }

  /** The last four rules of the chain and the fallback. */
  lemma ChainTail(l: string)
    ensures FirstMatch(Rules[5..], l) ==
      if Contains(l, "1v8") || Contains(l, "5v") || Contains(l, "3v3") ||
        Contains(l, "bat") || Contains(l, "bus") then "V"
      else if Contains(l, "current") then "mA"
      else if Contains(l, "mag") || Contains(l, "mx") || Contains(l, "my") || Contains(l, "mz") then "Gauss"
      else if Contains(l, "rpm") then "RPM"
      else "units"
  {
    var r := Rules;
    KeywordsOf(l, r[5].keywords, ["1v8", "5v", "3v3", "bat", "bus"]);
    KeywordsOf(l, r[6].keywords, ["current"]);
    KeywordsOf(l, r[7].keywords, ["mag", "mx", "my", "mz"]);
    KeywordsOf(l, r[8].keywords, ["rpm"]);
    MatchStep(r[5..], l);
    assert r[5..][1..] == r[6..];
    MatchStep(r[6..], l);
    assert r[6..][1..] == r[7..];
    MatchStep(r[7..], l);
    assert r[7..][1..] == r[8..];
    MatchStep(r[8..], l);
    assert r[8..][1..] == r[9..];
    assert r[9..] == [];
  }

  /** One step of the rule search. */
  lemma MatchStep(rules: seq<Rule>, s: string)
    requires rules != []
    ensures FirstMatch(rules, s) == if AnyContains(s, rules[0].keywords) then rules[0].unit else FirstMatch(rules[1..], s)
  {
  }

  /** `AnyContains` over a literal keyword list, one disjunct per keyword. */
  lemma KeywordsOf(s: string, kws: seq<string>, lit: seq<string>)
    requires kws == lit && 1 <= |lit| <= 7
    ensures AnyContains(s, kws) <==>
      Contains(s, lit[0]) ||
      (|lit| > 1 && Contains(s, lit[1])) || (|lit| > 2 && Contains(s, lit[2])) ||
      (|lit| > 3 && Contains(s, lit[3])) || (|lit| > 4 && Contains(s, lit[4])) ||
      (|lit| > 5 && Contains(s, lit[5])) || (|lit| > 6 && Contains(s, lit[6]))
  {
  }

  /** A name matches the fallback exactly when no keyword of any rule occurs
      in its lower-cased form. */
  lemma {:induction false} FallbackIffNoKeyword(rules: seq<Rule>, s: string)
    requires forall i :: 0 <= i < |rules| ==> rules[i].unit != Fallback
    ensures FirstMatch(rules, s) == Fallback <==>
      forall i :: 0 <= i < |rules| ==> !AnyContains(s, rules[i].keywords)
  {
    if rules != [] {
      FallbackIffNoKeyword(rules[1..], s);
      assert forall i :: 1 <= i < |rules| ==> rules[i] == rules[1..][i - 1];
    }
  }

  /** `infer_unit` returns "units" exactly when no rule's keyword occurs. */
  lemma UnitsIffNoRule(name: string)
    ensures InferUnit(name) == Fallback <==>
      forall i :: 0 <= i < |Rules| ==> !AnyContains(Lower(name), Rules[i].keywords)
  {
    var l := Lower(name);
    assert InferUnit(name) == FirstMatch(Rules, l);
    RulesAvoidFallback();
    FallbackIffNoKeyword(Rules, l);
  }

  /** No rule of the table yields the fallback unit. */
  lemma RulesAvoidFallback()
    ensures forall i :: 0 <= i < |Rules| ==> Rules[i].unit != Fallback
  {
  }

  /** A keyword containing a character the text lacks does not occur in it. */
  lemma MissingCharNotContained(s: string, sub: string, c: char)
    requires c in sub && c !in s
    ensures !Contains(s, sub)
  {
    ContainsFromMeans(s, sub, 0);
  }

  /** A keyword occurring at a known offset is contained. */
  lemma OccursContained(s: string, sub: string, m: nat)
    requires OccursAt(s, sub, m)
    ensures Contains(s, sub)
  {
    ContainsFromMeans(s, sub, 0);
  }

  /** "Temp Inc" is in degrees: the "inc" rule is checked before "temp". */
  lemma TempIncIsDegrees()
    ensures InferUnit("Temp Inc") == "Degrees"
  {
    var l := Lower("Temp Inc");
    assert l == "temp inc";
    assert l[5..8] == "inc";
    OccursContained(l, "inc", 5);
    InferUnitIsChain("Temp Inc");
  }

  /** None of the degree keywords occurs in "battery current". */
  lemma BatteryCurrentNoDegrees(l: string)
    requires l == "battery current"
    ensures !Contains(l, "inc") && !Contains(l, "azi") && !Contains(l, "tool-face") && !Contains(l, "angle")
  {
    assert 'i' !in l && 'z' !in l && 'o' !in l && 'g' !in l;
    MissingCharNotContained(l, "inc", 'i');
    MissingCharNotContained(l, "azi", 'z');
    MissingCharNotContained(l, "tool-face", 'o');
    MissingCharNotContained(l, "angle", 'g');
  }

  /** None of the acceleration keywords occurs in "battery current". */
  lemma BatteryCurrentNoG(l: string)
    requires l == "battery current"
    ensures !Contains(l, "vibe") && !Contains(l, "accel") && !Contains(l, "shock")
    ensures !Contains(l, "gx") && !Contains(l, "gy") && !Contains(l, "gz") && !Contains(l, "grav")
  {
    assert 'i' !in l && 'l' !in l && 'h' !in l && 'g' !in l;
    MissingCharNotContained(l, "vibe", 'i');
    MissingCharNotContained(l, "accel", 'l');
    MissingCharNotContained(l, "shock", 'h');
    MissingCharNotContained(l, "gx", 'g');
    MissingCharNotContained(l, "gy", 'g');
    MissingCharNotContained(l, "gz", 'g');
    MissingCharNotContained(l, "grav", 'g');
  }

  /** None of the temperature, gamma or count keywords occurs in "battery
      current". */
  lemma BatteryCurrentNoOthers(l: string)
    requires l == "battery current"
    ensures !Contains(l, "temp") && !Contains(l, "gamma") && !Contains(l, "pulse") && !Contains(l, "flow")
  {
    assert 'm' !in l && 'p' !in l && 'f' !in l;
    MissingCharNotContained(l, "temp", 'm');
    MissingCharNotContained(l, "gamma", 'm');
    MissingCharNotContained(l, "pulse", 'p');
    MissingCharNotContained(l, "flow", 'f');
  }

  /** None of the supply-rail keywords occurs in "battery current". */
  lemma BatteryCurrentNoRails(l: string)
    requires l == "battery current"
    ensures !Contains(l, "1v8") && !Contains(l, "5v") && !Contains(l, "3v3")
  {
    assert 'v' !in l;
    MissingCharNotContained(l, "1v8", 'v');
    MissingCharNotContained(l, "5v", 'v');
    MissingCharNotContained(l, "3v3", 'v');
  }

  /** "Battery Current" is in volts: the "bat" rule is checked before
      "current". */
  lemma BatteryCurrentIsVolts()
    ensures InferUnit("Battery Current") == "V"
  {
    LowerBatteryCurrent("Battery Current");
    BatteryCurrentMatch("battery current");
  }

  lemma LowerBatteryCurrent(name: string)
    requires name == "Battery Current"
    ensures Lower(name) == "battery current"
  {
    var l := Lower(name);
    assert l[0] == 'b' && l[1] == 'a' && l[2] == 't' && l[3] == 't' && l[4] == 'e';
    assert l[5] == 'r' && l[6] == 'y' && l[7] == ' ' && l[8] == 'c' && l[9] == 'u';
    assert l[10] == 'r' && l[11] == 'r' && l[12] == 'e' && l[13] == 'n' && l[14] == 't';
  }

  lemma BatteryCurrentMatch(l: string)
    requires l == "battery current"
    ensures FirstMatch(Rules, l) == "V"
  {
    ChainIsTable(l);
    BatteryCurrentNoDegrees(l);
    BatteryCurrentNoG(l);
    BatteryCurrentNoOthers(l);
    BatteryCurrentNoRails(l);
    assert l[0..3] == "bat";
    OccursContained(l, "bat", 0);
  }
}
