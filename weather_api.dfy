/** The text side of the weather client (WeatherAPI.cpp): turning a provider's
    condition text into a `WeatherCondition`, and naming a condition. */
module WeatherApi {
  import opened Config

  /** ASCII lower-casing of one character, as Arduino's `String::toLowerCase`
      does with `tolower` in the C locale. */
  function LowerChar(ch: char): (r: char)
    ensures 'A' <= ch <= 'Z' ==> 'a' <= r <= 'z' && r as int == ch as int + 32
    ensures !('A' <= ch <= 'Z') ==> r == ch
  {
    if 'A' <= ch <= 'Z' then (ch as int + 32) as char else ch
  }

  /** True when no character of `s` is an upper-case ASCII letter. */
  predicate IsLower(s: string) {
    forall i :: 0 <= i < |s| ==> !('A' <= s[i] <= 'Z')
  }

  /** The lower-cased copy `condition` that `parseCondition` examines. */
  function ToLower(s: string): (r: string)
    ensures |r| == |s|
    ensures forall i :: 0 <= i < |s| ==> r[i] == LowerChar(s[i])
    ensures IsLower(r)
  {
    seq(|s|, i requires 0 <= i < |s| => LowerChar(s[i]))
  }

  /** `pat` occurs in `s` starting at position `i`. */
  ghost predicate OccursAt(pat: string, s: string, i: int) {
    0 <= i && i + |pat| <= |s| && s[i..i + |pat|] == pat
  }

  /** `pat` occurs somewhere in `s`. */
  ghost predicate Occurs(pat: string, s: string) {
    exists i :: OccursAt(pat, s, i)
  }

  /** `String::indexOf`: the first position at which `pat` occurs in `s`, or -1. */
  function IndexOf(s: string, pat: string): (r: int)
    ensures -1 <= r <= |s|
    ensures r >= 0 ==> OccursAt(pat, s, r)
    ensures r >= 0 ==> forall j :: 0 <= j < r ==> !OccursAt(pat, s, j)
    ensures r == -1 <==> !Occurs(pat, s)
    decreases |s|
  {
    if |pat| > |s| then
      -1
    else if s[..|pat|] == pat then
      assert OccursAt(pat, s, 0);
      0
    else
      var k := IndexOf(s[1..], pat);
      if k < 0 then
        assert forall j :: 1 <= j ==> OccursAt(pat, s, j) == OccursAt(pat, s[1..], j - 1);
        -1
      else
        assert OccursAt(pat, s, k + 1) by { assert s[k + 1..k + 1 + |pat|] == s[1..][k..k + |pat|]; }
        assert forall j :: 1 <= j ==> OccursAt(pat, s, j) == OccursAt(pat, s[1..], j - 1);
        k + 1
  }

  /** `condition.indexOf(pat) >= 0`. */
  function Contains(s: string, pat: string): bool {
    IndexOf(s, pat) >= 0
  }

  /** `WeatherAPI::parseCondition`: the keyword chain below, applied to a
      lower-cased copy of the text. */
  function ParseCondition(apiCondition: string): WeatherCondition {
    Classify(ToLower(apiCondition))
  }

  /** The priority-ordered keyword tests of `parseCondition`, first match wins. */
  function Classify(condition: string): WeatherCondition {
    if Contains(condition, "clear") then
      Clear
    else if Contains(condition, "cloud") then
      if Contains(condition, "few") || Contains(condition, "scatter") then PartlyCloudy else Cloudy
    else if Contains(condition, "thunder") || Contains(condition, "storm") then
      Storm
    else if Contains(condition, "rain") || Contains(condition, "drizzle") then
      Rain
    else if Contains(condition, "snow") then
      Snow
    else if Contains(condition, "fog") || Contains(condition, "mist") then
      Fog
    else
      Unknown
  }

  /** `WeatherAPI::getConditionName`. */
  function ConditionName(condition: WeatherCondition): string {
    match condition
    case Clear => "Clear"
    case Cloudy => "Cloudy"
    case PartlyCloudy => "Partly Cloudy"
    case Rain => "Rain"
    case Storm => "Storm"
    case Snow => "Snow"
    case Fog => "Fog"
    case Unknown => "Unknown"
  }

  /** A pattern holding a character that `s` lacks cannot occur in `s`. */
  lemma AbsentChar(pat: string, s: string, c: char)
    requires c in pat && c !in s
    ensures !Occurs(pat, s)
  {
  }

  /** Lower-casing keeps every occurrence of an already lower-case pattern,
      so "CLEAR SKY" passes the same "clear" test as "clear sky". */
  lemma {:induction false} LowerKeepsPattern(pat: string, s: string, i: int)
    requires IsLower(pat) && OccursAt(pat, s, i)
    ensures OccursAt(pat, ToLower(s), i)
  {
    var t := ToLower(s);
    forall j | 0 <= j < |pat|
      ensures t[i..i + |pat|][j] == pat[j]
    {
      assert s[i..i + |pat|][j] == pat[j];
    }
  }

  /** Classification reads only the lower-cased copy: inputs that agree up to
      ASCII case are classified alike, and lower-casing first changes nothing. */
  lemma CaseInsensitive(s: string, u: string)
    requires ToLower(s) == ToLower(u)
    ensures ParseCondition(s) == ParseCondition(u)
    ensures ParseCondition(ToLower(s)) == ParseCondition(s)
  {
    assert ToLower(ToLower(s)) == ToLower(s);
  }

  /** "clear" anywhere, in any case, wins over every other keyword. */
  lemma ClearWins(s: string)
    ensures ParseCondition(s) == Clear <==> Occurs("clear", ToLower(s))
    ensures Occurs("clear", s) ==> ParseCondition(s) == Clear
  {
    if Occurs("clear", s) {
      var i :| OccursAt("clear", s, i);
      LowerKeepsPattern("clear", s, i);
    }
  }

  /** The cloud rule: without "clear", "cloud" yields partly cloudy exactly when
      "few" or "scatter" is present too; both cloud results need "cloud". */
  lemma CloudRule(s: string)
    ensures var t := ToLower(s);
      !Occurs("clear", t) && Occurs("cloud", t) ==>
        (ParseCondition(s) == PartlyCloudy <==> Occurs("few", t) || Occurs("scatter", t)) &&
        (ParseCondition(s) == Cloudy <==> !Occurs("few", t) && !Occurs("scatter", t))
    ensures ParseCondition(s) in {Cloudy, PartlyCloudy} ==> Occurs("cloud", ToLower(s))
  {
  }

  /** "thunder" and "storm" are tested before "rain" and "drizzle", so a
      thunderstorm with rain is a storm. */
  lemma StormBeforeRain(s: string)
    ensures var t := ToLower(s);
      !Occurs("clear", t) && !Occurs("cloud", t) && (Occurs("thunder", t) || Occurs("storm", t)) ==>
        ParseCondition(s) == Storm
    ensures ParseCondition(s) == Rain ==> !Occurs("thunder", ToLower(s)) && !Occurs("storm", ToLower(s))
  {
  }

  /** The nine condition keywords ("few" and "scatter" only refine "cloud"). */
  const KEYWORDS: seq<string> := ["clear", "cloud", "thunder", "storm", "rain", "drizzle", "snow", "fog", "mist"]

  /** The result is unknown exactly when no keyword occurs in the lower-cased text. */
  lemma UnknownIffNoKeyword(s: string)
    ensures ParseCondition(s) == Unknown <==> forall k :: k in KEYWORDS ==> !Occurs(k, ToLower(s))
  {
  }

  /** `getConditionName` gives the conditions pairwise distinct names, and only
      `Unknown` is called "Unknown". */
  lemma NamesDistinct(c: WeatherCondition, d: WeatherCondition)
    ensures c != d ==> ConditionName(c) != ConditionName(d)
    ensures ConditionName(c) == "Unknown" <==> c == Unknown
  {
  }

  // The keyword verdict on each lower-cased condition name, one name at a time.

  lemma LoweredClear(t: string)
    requires t == "clear"
    ensures Classify(t) == Clear
  {
    assert OccursAt("clear", t, 0);
  }

  lemma LoweredCloudy(t: string)
    requires t == "cloudy"
    ensures Classify(t) == Cloudy
  {
    AbsentChar("clear", t, 'e');
    assert OccursAt("cloud", t, 0);
    AbsentChar("few", t, 'f');
    AbsentChar("scatter", t, 's');
  }

  lemma LoweredPartlyCloudy(t: string)
    requires t == "partly cloudy"
    ensures Classify(t) == Cloudy
  {
    AbsentChar("clear", t, 'e');
    assert OccursAt("cloud", t, 7) by { assert t[7..12] == "cloud"; }
    AbsentChar("few", t, 'f');
    AbsentChar("scatter", t, 's');
  }

  lemma LoweredRain(t: string)
    requires t == "rain"
    ensures Classify(t) == Rain
  {
    AbsentChar("clear", t, 'c');
    AbsentChar("cloud", t, 'c');
    AbsentChar("thunder", t, 't');
    AbsentChar("storm", t, 's');
    assert OccursAt("rain", t, 0);
  }

  lemma LoweredStorm(t: string)
    requires t == "storm"
    ensures Classify(t) == Storm
  {
    AbsentChar("clear", t, 'c');
    AbsentChar("cloud", t, 'c');
    assert OccursAt("storm", t, 0);
  }

  lemma LoweredSnow(t: string)
    requires t == "snow"
    ensures Classify(t) == Snow
  {
    AbsentChar("clear", t, 'c');
    AbsentChar("cloud", t, 'c');
    AbsentChar("thunder", t, 't');
    AbsentChar("storm", t, 't');
    AbsentChar("rain", t, 'r');
    AbsentChar("drizzle", t, 'd');
    assert OccursAt("snow", t, 0);
  }

  lemma LoweredFog(t: string)
    requires t == "fog"
    ensures Classify(t) == Fog
  {
    AbsentChar("clear", t, 'c');
    AbsentChar("cloud", t, 'c');
    AbsentChar("thunder", t, 't');
    AbsentChar("storm", t, 's');
    AbsentChar("rain", t, 'r');
    AbsentChar("drizzle", t, 'd');
    AbsentChar("snow", t, 's');
    assert OccursAt("fog", t, 0);
  }

  lemma LoweredUnknown(t: string)
    requires t == "unknown"
    ensures Classify(t) == Unknown
  {
    AbsentChar("clear", t, 'c');
    AbsentChar("cloud", t, 'c');
    AbsentChar("thunder", t, 't');
    AbsentChar("storm", t, 's');
    AbsentChar("rain", t, 'r');
    AbsentChar("drizzle", t, 'd');
    AbsentChar("snow", t, 's');
    AbsentChar("fog", t, 'f');
    AbsentChar("mist", t, 'm');
  }

  /** Naming a condition and parsing the name gives the condition back, except
      "Partly Cloudy", which has "cloud" but neither "few" nor "scatter". */
  lemma {:induction false} NameRoundTrip(c: WeatherCondition)
    ensures ParseCondition(ConditionName(c)) == if c == PartlyCloudy then Cloudy else c
  {
    var t := ToLower(ConditionName(c));
    match c
    case Clear =>
      assert t == "clear";
      LoweredClear(t);
    case Cloudy =>
      assert t == "cloudy";
      LoweredCloudy(t);
    case PartlyCloudy =>
      assert t == "partly cloudy";
      LoweredPartlyCloudy(t);
    case Rain =>
      assert t == "rain";
      LoweredRain(t);
    case Storm =>
      assert t == "storm";
      LoweredStorm(t);
    case Snow =>
      assert t == "snow";
      LoweredSnow(t);
    case Fog =>
      assert t == "fog";
      LoweredFog(t);
    case Unknown =>
      assert t == "unknown";
      LoweredUnknown(t);
  }
}
