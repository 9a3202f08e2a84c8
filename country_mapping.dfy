/**
 * Country-name normalisation: the names the globe's data uses are mapped to
 * the names of the country profile images. Whitespace runs become one
 * underscore, then a fixed alias table renames a handful of countries.
 */
module CountryMapping {
  import opened JsText

  // ------------------------------------------------------------------
  // `name.replace(/\s+/g, '_')`
  // ------------------------------------------------------------------

  /** Each maximal run of `\s` characters is replaced by a single '_'. */
  function CollapseWhitespace(s: string): (r: string)
    decreases |s|
  {
    if s == [] then []
    else if IsWhitespace(s[0]) then "_" + CollapseWhitespace(SkipWhitespace(s[1..]))
    else [s[0]] + CollapseWhitespace(s[1..])
  }

  predicate EndsInWord(s: string) {
    s == [] || !IsWhitespace(s[|s| - 1])
  }

  /** The collapsed name is empty only when the name is, and never longer. */
  lemma {:induction false} CollapseLength(s: string)
    ensures |CollapseWhitespace(s)| <= |s|
    ensures CollapseWhitespace(s) == [] <==> s == []
    decreases |s|
  {
    if s != [] {
      if IsWhitespace(s[0]) {
        CollapseLength(SkipWhitespace(s[1..]));
      } else {
        CollapseLength(s[1..]);
      }
    }
  }

  /** No whitespace survives the replacement. */
  lemma {:induction false} CollapseHasNoWhitespace(s: string)
    ensures NoWhitespace(CollapseWhitespace(s))
    decreases |s|
  {
    if s != [] {
      var tail := if IsWhitespace(s[0]) then SkipWhitespace(s[1..]) else s[1..];
      CollapseHasNoWhitespace(tail);
      var r := CollapseWhitespace(s);
      assert r[1..] == CollapseWhitespace(tail);
      assert forall i :: 1 <= i < |r| ==> r[i] == CollapseWhitespace(tail)[i - 1];
    }
  }

  /** A name without whitespace is left as it is. */
  lemma {:induction false} CollapseFixed(s: string)
    requires NoWhitespace(s)
    ensures CollapseWhitespace(s) == s
    decreases |s|
  {
    if s != [] {
      assert !IsWhitespace(s[0]);
      assert NoWhitespace(s[1..]) by {
        assert forall i :: 0 <= i < |s| - 1 ==> s[1..][i] == s[i + 1];
      }
      CollapseFixed(s[1..]);
    }
  }

  /** Dropping a leading run stops inside `u` when `u` ends in a non-space. */
  lemma {:induction false} SkipWithin(u: string, y: string)
    requires u != [] && EndsInWord(u)
    ensures SkipWhitespace(u + y) == SkipWhitespace(u) + y
    decreases |u|
  {
    if IsWhitespace(u[0]) {
      assert (u + y)[1..] == u[1..] + y;
      SkipWithin(u[1..], y);
    }
  }

  /** The replacement works piecewise when the cut falls right after a non-space. */
  lemma {:induction false} CollapseAppend(x: string, y: string)
    requires EndsInWord(x)
    ensures CollapseWhitespace(x + y) == CollapseWhitespace(x) + CollapseWhitespace(y)
    decreases |x|, 1
  {
    if x == [] {
      assert x + y == y;
    } else if IsWhitespace(x[0]) {
      CollapseAppendAtRun(x, y);
    } else {
      assert (x + y)[1..] == x[1..] + y;
      CollapseAppend(x[1..], y);
      var ct, cy := CollapseWhitespace(x[1..]), CollapseWhitespace(y);
      Associative([x[0]], ct, cy);
    }
  }

  /** The case of `CollapseAppend` where `x` opens with a whitespace run. */
  lemma {:induction false} CollapseAppendAtRun(x: string, y: string)
    requires EndsInWord(x) && x != [] && IsWhitespace(x[0])
    ensures CollapseWhitespace(x + y) == CollapseWhitespace(x) + CollapseWhitespace(y)
    decreases |x|, 0
  {
    var u := x[1..];
    assert (x + y)[1..] == u + y;
    SkipWithin(u, y);
    var v := SkipWhitespace(u);
    assert v != [] && v[|v| - 1] == x[|x| - 1];
    CollapseAppend(v, y);
    var cv, cy := CollapseWhitespace(v), CollapseWhitespace(y);
    assert CollapseWhitespace(x + y) == "_" + (cv + cy);
    assert CollapseWhitespace(x) == "_" + cv;
    Associative("_", cv, cy);
  }

  lemma Associative(a: string, b: string, c: string)
    ensures a + (b + c) == (a + b) + c
  {
  }

  /** One maximal whitespace run in front of a word becomes exactly one '_'. */
  lemma CollapseRun(w: string, rest: string)
    requires w != [] && AllWhitespace(w)
    requires rest == [] || !IsWhitespace(rest[0])
    ensures CollapseWhitespace(w + rest) == "_" + CollapseWhitespace(rest)
  {
    var t := w + rest;
    assert t[0] == w[0] && t[1..] == w[1..] + rest;
    SkipRun(w[1..], rest);
    assert CollapseWhitespace(t) == "_" + CollapseWhitespace(SkipWhitespace(t[1..]));
  }

  /**
   * The two parts of the name on either side of a maximal whitespace run
   * are collapsed on their own, joined by one '_'.
   */
  lemma MaximalRun(a: string, w: string, b: string)
    requires EndsInWord(a) && w != [] && AllWhitespace(w)
    requires b == [] || !IsWhitespace(b[0])
    ensures CollapseWhitespace(a + w + b) == CollapseWhitespace(a) + "_" + CollapseWhitespace(b)
  {
    CollapseAppend(a, w + b);
    CollapseRun(w, b);
    Associative(a, w, b);
    Associative(CollapseWhitespace(a), "_", CollapseWhitespace(b));
  }

  // ------------------------------------------------------------------
  // The alias table and `normalizeCountryName`
  // ------------------------------------------------------------------

  /**
   * The alias table, keyed by the underscored name. The Ivory Coast key is
   * the UTF-8 bytes of "Côte" read as Latin-1, as the table spells it.
   */
  const SpecialCases: map<string, string> := map[
    "United_States_of_America" := "United_States",
    "USA" := "United_States",
    "UK" := "United_Kingdom",
    "UAE" := "United_Arab_Emirates",
    "Democratic_Republic_of_Congo" := "Democratic_Republic_of_the_Congo",
    "Republic_of_the_Congo" := "Congo",
    "C\U{00C3}\U{00B4}te_d'Ivoire" := "Ivory_Coast",
    "Czechia" := "Czechia",
    "Czech_Republic" := "Czechia"
  ]

  /** `specialCases[n] || n`: an alias is used when the key is present and its value is not empty. */
  predicate IsAliased(n: string) {
    n in SpecialCases && SpecialCases[n] != ""
  }

  function NormalizeCountryName(name: string): (r: string) {
    var n := CollapseWhitespace(name);
    if IsAliased(n) then SpecialCases[n] else n
  }

  // The alias values hold no whitespace; the African list reuses these facts for its entries.

  lemma LongAliasValueIsWord()
    ensures NoWhitespace("Democratic_Republic_of_the_Congo")
  {
  }

  lemma UnitedAliasValuesAreWords()
    ensures NoWhitespace("United_States") && NoWhitespace("United_Kingdom")
  {
  }

  lemma EmiratesAliasValueIsWord()
    ensures NoWhitespace("United_Arab_Emirates")
  {
  }

  lemma ShortAliasValuesAreWords()
    ensures NoWhitespace("Congo") && NoWhitespace("Ivory_Coast") && NoWhitespace("Czechia")
  {
  }

  /** Every alias value is a non-empty name without whitespace. */
  lemma AliasValuesAreWords(k: string)
    requires k in SpecialCases
    ensures SpecialCases[k] != "" && NoWhitespace(SpecialCases[k])
  {
    LongAliasValueIsWord();
    UnitedAliasValuesAreWords();
    EmiratesAliasValueIsWord();
    ShortAliasValuesAreWords();
  }

  /** No alias value is also a key, except "Czechia", which maps to itself. */
  lemma AliasValuesSettled(k: string)
    requires k in SpecialCases
    ensures SpecialCases[k] in SpecialCases <==> SpecialCases[k] == "Czechia"
    ensures SpecialCases[k] in SpecialCases ==> SpecialCases[SpecialCases[k]] == SpecialCases[k]
  {
  }

  /** An alias key gives the table's value; any other underscored name is returned as it is. */
  lemma NormalizeCases(name: string)
    ensures var n := CollapseWhitespace(name);
      if n in SpecialCases then NormalizeCountryName(name) == SpecialCases[n]
      else NormalizeCountryName(name) == n
  {
    var n := CollapseWhitespace(name);
    if n in SpecialCases {
      AliasValuesAreWords(n);
    }
  }

  /** The result is an alias value, or has no whitespace and is not a key. */
  lemma NormalizeResult(name: string)
    ensures var r := NormalizeCountryName(name);
      r in SpecialCases.Values || (NoWhitespace(r) && r !in SpecialCases)
  {
    var n := CollapseWhitespace(name);
    CollapseHasNoWhitespace(name);
    if IsAliased(n) {
      assert SpecialCases[n] in SpecialCases.Values;
    }
  }

  /** A name with no whitespace that is not an alias key is its own normal form. */
  lemma NormalizeFixedPoint(s: string)
    requires NoWhitespace(s) && s !in SpecialCases
    ensures NormalizeCountryName(s) == s
  {
    CollapseFixed(s);
  }

  /** Normalising twice is normalising once. */
  lemma NormalizeIdempotent(name: string)
    ensures NormalizeCountryName(NormalizeCountryName(name)) == NormalizeCountryName(name)
  {
    var n := CollapseWhitespace(name);
    var r := NormalizeCountryName(name);
    if IsAliased(n) {
      AliasValuesAreWords(n);
      AliasValuesSettled(n);
      CollapseFixed(r);
    } else {
      CollapseHasNoWhitespace(name);
      CollapseFixed(n);
    }
  }

  /** A word followed by a single space: the space becomes '_' and the word is kept. */
  lemma SpaceAfterWord(a: string, rest: string)
    requires a != [] && NoWhitespace(a)
    requires rest == [] || !IsWhitespace(rest[0])
    ensures CollapseWhitespace(a + " " + rest) == a + "_" + CollapseWhitespace(rest)
  {
    CollapseFixed(a);
    MaximalRun(a, " ", rest);
  }

  lemma UnitedStatesPieces()
    ensures "United States of America" == "United" + " " + ("States" + " " + ("of" + " " + "America"))
    ensures "United" + "_" + ("States" + "_" + ("of" + "_" + "America")) == "United_States_of_America"
  {
  }

  lemma UnitedStatesWords()
    ensures NoWhitespace("United") && NoWhitespace("States") && NoWhitespace("of")
    ensures NoWhitespace("America")
  {
  }

  lemma UnitedStatesUnderscored(name: string)
    requires name == "United States of America"
    ensures CollapseWhitespace(name) == "United_States_of_America"
  {
    var a, b, c, d := "United", "States", "of", "America";
    UnitedStatesPieces();
    UnitedStatesWords();
    CollapseFixed(d);
    SpaceAfterWord(c, d);
    SpaceAfterWord(b, c + " " + d);
    SpaceAfterWord(a, b + " " + (c + " " + d));
  }

  lemma UnitedStatesExample(name: string)
    requires name == "United States of America"
    ensures NormalizeCountryName(name) == "United_States"
  {
    UnitedStatesUnderscored(name);
    UnitedStatesAlias(CollapseWhitespace(name));
    NormalizeCases(name);
  }

  lemma UnitedStatesAlias(n: string)
    requires n == "United_States_of_America"
    ensures n in SpecialCases && SpecialCases[n] == "United_States"
  {
  }

  lemma UnitedStatesShortPieces()
    ensures "United States" == "United" + " " + "States"
    ensures "United" + "_" + "States" == "United_States"
    ensures NoWhitespace("United") && NoWhitespace("States")
    ensures "United_States" !in SpecialCases
  {
  }

  /** The documented example: "United States" becomes "United_States", which no alias renames. */
  lemma UnitedStatesDocExample()
    ensures NormalizeCountryName("United States") == "United_States"
  {
    var a, b := "United", "States";
    UnitedStatesShortPieces();
    CollapseFixed(b);
    SpaceAfterWord(a, b);
  }

  lemma CzechRepublicPieces()
    ensures "Czech Republic" == "Czech" + " " + "Republic"
    ensures "Czech" + "_" + "Republic" == "Czech_Republic"
    ensures NoWhitespace("Czech") && NoWhitespace("Republic")
  {
  }

  lemma CzechRepublicExample()
    ensures NormalizeCountryName("Czech Republic") == "Czechia"
  {
    var a, b := "Czech", "Republic";
    CzechRepublicPieces();
    CollapseFixed(b);
    SpaceAfterWord(a, b);
  }

  lemma CoteDIvoirePieces()
    ensures "C\U{00F4}te d'Ivoire" == "C\U{00F4}te" + " " + "d'Ivoire"
    ensures "C\U{00F4}te" + "_" + "d'Ivoire" == "C\U{00F4}te_d'Ivoire"
    ensures NoWhitespace("C\U{00F4}te") && NoWhitespace("d'Ivoire")
    ensures "C\U{00F4}te_d'Ivoire" !in SpecialCases
  {
  }

  /** The correctly encoded "Côte d'Ivoire" is not in the table and keeps its name. */
  lemma CoteDIvoireUnaliased()
    ensures NormalizeCountryName("C\U{00F4}te d'Ivoire") == "C\U{00F4}te_d'Ivoire"
  {
    var a, b := "C\U{00F4}te", "d'Ivoire";
    CoteDIvoirePieces();
    CollapseFixed(b);
    SpaceAfterWord(a, b);
  }

  /** Only the mis-encoded spelling reaches "Ivory_Coast". */
  lemma IvoryCoastOnlyFromMisencodedKey(name: string)
    ensures NormalizeCountryName(name) == "Ivory_Coast" <==>
      CollapseWhitespace(name) in {"C\U{00C3}\U{00B4}te_d'Ivoire", "Ivory_Coast"}
  {
    var n := CollapseWhitespace(name);
    if IsAliased(n) {
      assert n in SpecialCases;
    }
  }

  // ------------------------------------------------------------------
  // `getCountryProfilePath` and `hasCountryProfile`
  // ------------------------------------------------------------------

  const ProfilePrefix := "/country-profiles/country_profile_"
  const ProfileSuffix := ".png"

  function GetCountryProfilePath(name: string): (path: string)
    ensures |path| == |ProfilePrefix| + |NormalizeCountryName(name)| + |ProfileSuffix|
    ensures path[..|ProfilePrefix|] == ProfilePrefix
    ensures path[|path| - |ProfileSuffix|..] == ProfileSuffix
  {
    ProfilePrefix + NormalizeCountryName(name) + ProfileSuffix
  }

  /** The country part of a profile path, or the path itself when it is not one. */
  function ProfileNameOf(path: string): (name: string)
    ensures |name| <= |path|
  {
    if |path| >= |ProfilePrefix| + |ProfileSuffix| && path[..|ProfilePrefix|] == ProfilePrefix
       && path[|path| - |ProfileSuffix|..] == ProfileSuffix
    then path[|ProfilePrefix|..|path| - |ProfileSuffix|]
    else path
  }

  /** The profile path carries the normalised name, and nothing else. */
  lemma ProfilePathRoundTrip(name: string)
    ensures ProfileNameOf(GetCountryProfilePath(name)) == NormalizeCountryName(name)
  {
    var n := NormalizeCountryName(name);
    var p := GetCountryProfilePath(name);
    assert p[|ProfilePrefix|..|p| - |ProfileSuffix|] == n;
  }

  /** Two names share a profile image exactly when they normalise alike. */
  lemma ProfilePathInjective(a: string, b: string)
    ensures GetCountryProfilePath(a) == GetCountryProfilePath(b) <==>
      NormalizeCountryName(a) == NormalizeCountryName(b)
  {
    ProfilePathRoundTrip(a);
    ProfilePathRoundTrip(b);
  }

  function HasCountryProfile(name: string): (b: bool) {
    |NormalizeCountryName(name)| > 0
  }

  /** Every name but the empty one has a profile: the alias values are not empty. */
  lemma HasProfileIffNonEmpty(name: string)
    ensures HasCountryProfile(name) <==> NormalizeCountryName(name) != ""
    ensures HasCountryProfile(name) <==> name != ""
  {
    var n := CollapseWhitespace(name);
    CollapseLength(name);
    if n in SpecialCases {
      AliasValuesAreWords(n);
    }
  }

  /** A name made only of whitespace becomes a single '_', which has a profile path. */
  lemma BlankNameHasProfile(name: string)
    requires name != [] && AllWhitespace(name)
    ensures NormalizeCountryName(name) == "_" && HasCountryProfile(name)
  {
    CollapseRun(name, "");
    assert name + "" == name;
    assert "_" !in SpecialCases;
  }

  lemma BlankNameExamples()
    ensures !HasCountryProfile("")
    ensures NormalizeCountryName(" ") == "_" && HasCountryProfile(" ")
  {
    BlankNameHasProfile(" ");
  }

  // ------------------------------------------------------------------
  // `regions`
  // ------------------------------------------------------------------

  /** The African countries of `regions`, in the table's order, five to a line. */
  const Africa: seq<string> :=
    AfricaPart0
    + AfricaPart1
    + AfricaPart2
    + AfricaPart3
    + AfricaPart4
    + AfricaPart5
    + AfricaPart6
    + AfricaPart7
    + AfricaPart8
    + AfricaPart9

  const AfricaPart0: seq<string> := ["Algeria", "Angola", "Benin", "Botswana", "Burundi"]
  const AfricaPart1: seq<string> := ["Cameroon", "Central_African_Republic", "Chad", "Comoros", "Congo"]
  const AfricaPart2: seq<string> := ["Democratic_Republic_of_the_Congo", "Djibouti", "Egypt", "Equatorial_Guinea", "Eritrea"]
  const AfricaPart3: seq<string> := ["Eswatini", "Ethiopia", "Gabon", "Gambia", "Ghana"]
  const AfricaPart4: seq<string> := ["Guinea", "Guinea_Bissau", "Ivory_Coast", "Kenya", "Lesotho"]
  const AfricaPart5: seq<string> := ["Liberia", "Libya", "Madagascar", "Malawi", "Mali"]
  const AfricaPart6: seq<string> := ["Mauritania", "Mauritius", "Morocco", "Mozambique", "Namibia"]
  const AfricaPart7: seq<string> := ["Niger", "Nigeria", "Rwanda", "Senegal", "Sierra_Leone"]
  const AfricaPart8: seq<string> := ["Somalia", "South_Africa", "South_Sudan", "Sudan", "Tanzania"]
  const AfricaPart9: seq<string> := ["Togo", "Tunisia", "Uganda", "Zambia", "Zimbabwe"]

  // The spelling of each entry, checked a few names at a time.

  lemma AfricaWords0()
    ensures NoWhitespace("Algeria")
    ensures NoWhitespace("Angola")
    ensures NoWhitespace("Benin")
    ensures NoWhitespace("Botswana")
    ensures NoWhitespace("Burundi")
  {
  }

  lemma AfricaWords1()
    ensures NoWhitespace("Cameroon")
    ensures NoWhitespace("Chad")
    ensures NoWhitespace("Comoros")
  {
  }

  lemma CentralAfricanRepublicIsWord()
    ensures NoWhitespace("Central_African_Republic")
  {
  }

  lemma AfricaWords2()
    ensures NoWhitespace("Djibouti")
    ensures NoWhitespace("Egypt")
    ensures NoWhitespace("Equatorial_Guinea")
    ensures NoWhitespace("Eritrea")
  {
  }

  lemma AfricaWords3()
    ensures NoWhitespace("Eswatini")
    ensures NoWhitespace("Ethiopia")
    ensures NoWhitespace("Gabon")
    ensures NoWhitespace("Gambia")
    ensures NoWhitespace("Ghana")
  {
  }

  lemma AfricaWords4()
    ensures NoWhitespace("Guinea")
    ensures NoWhitespace("Guinea_Bissau")
    ensures NoWhitespace("Kenya")
    ensures NoWhitespace("Lesotho")
  {
  }

  lemma AfricaWords5()
    ensures NoWhitespace("Liberia")
    ensures NoWhitespace("Libya")
    ensures NoWhitespace("Madagascar")
    ensures NoWhitespace("Malawi")
    ensures NoWhitespace("Mali")
  {
  }

  lemma AfricaWords6()
    ensures NoWhitespace("Mauritania")
    ensures NoWhitespace("Mauritius")
    ensures NoWhitespace("Morocco")
    ensures NoWhitespace("Mozambique")
    ensures NoWhitespace("Namibia")
  {
  }

  lemma AfricaWords7()
    ensures NoWhitespace("Niger")
    ensures NoWhitespace("Nigeria")
    ensures NoWhitespace("Rwanda")
    ensures NoWhitespace("Senegal")
    ensures NoWhitespace("Sierra_Leone")
  {
  }

  lemma AfricaWords8()
    ensures NoWhitespace("Somalia")
    ensures NoWhitespace("South_Africa")
    ensures NoWhitespace("South_Sudan")
    ensures NoWhitespace("Sudan")
    ensures NoWhitespace("Tanzania")
  {
  }

  lemma AfricaWords9()
    ensures NoWhitespace("Togo")
    ensures NoWhitespace("Tunisia")
    ensures NoWhitespace("Uganda")
    ensures NoWhitespace("Zambia")
    ensures NoWhitespace("Zimbabwe")
  {
  }

  lemma AfricaPart0IsNormal(name: string)
    requires name in AfricaPart0
    ensures NoWhitespace(name) && name !in SpecialCases
  {
    AfricaWords0();
  }

  lemma AfricaPart1IsNormal(name: string)
    requires name in AfricaPart1
    ensures NoWhitespace(name) && name !in SpecialCases
  {
    AfricaWords1();
    CentralAfricanRepublicIsWord();
    ShortAliasValuesAreWords();
  }

  lemma AfricaPart2IsNormal(name: string)
    requires name in AfricaPart2
    ensures NoWhitespace(name) && name !in SpecialCases
  {
    AfricaWords2();
    LongAliasValueIsWord();
  }

  lemma AfricaPart3IsNormal(name: string)
    requires name in AfricaPart3
    ensures NoWhitespace(name) && name !in SpecialCases
  {
    AfricaWords3();
  }

  lemma AfricaPart4IsNormal(name: string)
    requires name in AfricaPart4
    ensures NoWhitespace(name) && name !in SpecialCases
  {
    AfricaWords4();
    ShortAliasValuesAreWords();
  }

  lemma AfricaPart5IsNormal(name: string)
    requires name in AfricaPart5
    ensures NoWhitespace(name) && name !in SpecialCases
  {
    AfricaWords5();
  }

  lemma AfricaPart6IsNormal(name: string)
    requires name in AfricaPart6
    ensures NoWhitespace(name) && name !in SpecialCases
  {
    AfricaWords6();
  }

  lemma AfricaPart7IsNormal(name: string)
    requires name in AfricaPart7
    ensures NoWhitespace(name) && name !in SpecialCases
  {
    AfricaWords7();
  }

  lemma AfricaPart8IsNormal(name: string)
    requires name in AfricaPart8
    ensures NoWhitespace(name) && name !in SpecialCases
  {
    AfricaWords8();
  }

  lemma AfricaPart9IsNormal(name: string)
    requires name in AfricaPart9
    ensures NoWhitespace(name) && name !in SpecialCases
  {
    AfricaWords9();
  }

  /** Every African country in `regions` is already in normal form. */
  lemma AfricaIsNormalized(name: string)
    requires name in Africa
    ensures NormalizeCountryName(name) == name
  {
    if name in AfricaPart0 {
      AfricaPart0IsNormal(name);
    } else if name in AfricaPart1 {
      AfricaPart1IsNormal(name);
    } else if name in AfricaPart2 {
      AfricaPart2IsNormal(name);
    } else if name in AfricaPart3 {
      AfricaPart3IsNormal(name);
    } else if name in AfricaPart4 {
      AfricaPart4IsNormal(name);
    } else if name in AfricaPart5 {
      AfricaPart5IsNormal(name);
    } else if name in AfricaPart6 {
      AfricaPart6IsNormal(name);
    } else if name in AfricaPart7 {
      AfricaPart7IsNormal(name);
    } else if name in AfricaPart8 {
      AfricaPart8IsNormal(name);
    } else {
      AfricaPart9IsNormal(name);
    }
    NormalizeFixedPoint(name);
  }
}
