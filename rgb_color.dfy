/**
 * `rgbToHex`: reading a CSS `rgb(r,g,b)` colour string with the pattern
 * /rgb\((\d+),\s*(\d+),\s*(\d+)\)/ and writing it in the `#rrggbb`
 * notation of section 5.2 of CSS Color Module Level 4.
 */
module RgbColor {
  import opened Wrappers
  import opened JsText

  /** The three channels the pattern captures, as `parseInt` reads them. */
  datatype Rgb = Rgb(r: nat, g: nat, b: nat)

  predicate IsByteColor(c: Rgb) {
    c.r < 256 && c.g < 256 && c.b < 256
  }

  /** The length of the longest run of `\d` at the front of `t`. */
  function DigitRun(t: string): (n: nat)
    ensures n <= |t|
    ensures forall k :: 0 <= k < n ==> IsDigit(t[k])
    ensures n == |t| || !IsDigit(t[n])
  {
    if t != [] && IsDigit(t[0]) then 1 + DigitRun(t[1..]) else 0
  }

  lemma DecimalDigitsAreRadixDigits(s: string)
    requires forall k :: 0 <= k < |s| ==> IsDigit(s[k])
    ensures AllRadixDigits(s, 10)
  {
  }

  /**
   * The group `(\d+)` followed by the literal `stop` at the front of `t`:
   * the captured value (`parseInt` of the digits) and what follows `stop`.
   */
  function Field(t: string, stop: char): (f: Option<(nat, string)>)
    ensures f.Some? ==> |f.value.1| < |t|
  {
    var n := DigitRun(t);
    if 0 < n < |t| && t[n] == stop then
      DecimalDigitsAreRadixDigits(t[..n]);
      Some((ValueOf(t[..n], 10), t[n + 1..]))
    else None
  }

  /**
   * The pattern matched at the front of `t`. Since `\d`, `\s`, ',' and ')'
   * are disjoint, each greedy run can only end at its maximal length, so a
   * match at a given position needs no backtracking and is unique.
   */
  function MatchPrefix(t: string): Option<Rgb> {
    if StartsWithOpen(t) then
      match Field(t[4..], ',')
      case None => None
      case Some((r, t1)) =>
        match Field(SkipWhitespace(t1), ',')
        case None => None
        case Some((g, t2)) =>
          match Field(SkipWhitespace(t2), ')')
          case None => None
          case Some((b, _)) => Some(Rgb(r, g, b))
    else None
  }

  /** The pattern matches at no position `j` with `lo <= j < hi`. */
  predicate NoMatchIn(s: string, lo: nat, hi: nat)
    requires hi <= |s| + 1
  {
    forall j :: lo <= j < hi ==> MatchPrefix(s[j..]).None?
  }

  /** The first match trying the positions from `from` on, as `String.prototype.match` scans. */
  function SearchFrom(s: string, from: nat): Option<Rgb>
    requires from <= |s|
    decreases |s| - from
  {
    if MatchPrefix(s[from..]).Some? then MatchPrefix(s[from..])
    else if from == |s| then None
    else SearchFrom(s, from + 1)
  }

  /** The scan finds the leftmost match at or after `from`, and none only when there is none. */
  lemma {:induction false} SearchFromLeftmost(s: string, from: nat)
    requires from <= |s|
    ensures SearchFrom(s, from).Some? ==>
      exists i :: from <= i <= |s| && MatchPrefix(s[i..]) == SearchFrom(s, from) && NoMatchIn(s, from, i)
    ensures SearchFrom(s, from).None? <==> NoMatchIn(s, from, |s| + 1)
    decreases |s| - from
  {
    if MatchPrefix(s[from..]).Some? {
      assert NoMatchIn(s, from, from);
    } else if from < |s| {
      SearchFromLeftmost(s, from + 1);
      if SearchFrom(s, from + 1).Some? {
        var i :| from + 1 <= i <= |s| && MatchPrefix(s[i..]) == SearchFrom(s, from + 1) && NoMatchIn(s, from + 1, i);
        assert NoMatchIn(s, from, i);
      }
    }
  }

  function ParseRgb(s: string): Option<Rgb> {
    SearchFrom(s, 0)
  }

  /** One channel as two lower-case hex digits: `toString(16).padStart(2, '0')`. */
  function HexChannel(n: nat): string {
    PadStart(ToRadix(n, 16), 2, '0')
  }

  function HexOf(c: Rgb): string {
    "#" + HexChannel(c.r) + HexChannel(c.g) + HexChannel(c.b)
  }

  /** `rgbToHex`: black when the string does not match the pattern. */
  function RgbToHex(rgb: string): string {
    match ParseRgb(rgb)
    case None => "#000000"
    case Some(c) => HexOf(c)
  }

  // ---------------------------------------------------------------------------
  // What rgbToHex promises

  /** A string with no "rgb(" in it anywhere converts to black. */
  lemma NoPatternIsBlack(s: string)
    requires forall i :: 0 <= i <= |s| ==> !StartsWithOpen(s[i..])
    ensures RgbToHex(s) == "#000000"
  {
    SearchFromLeftmost(s, 0);
    assert NoMatchIn(s, 0, |s| + 1);
  }

  predicate StartsWithOpen(t: string) {
    |t| >= 4 && t[..4] == "rgb("
  }

  lemma RadixTenDigitsAreDigits(s: string)
    requires AllRadixDigits(s, 10)
    ensures forall k :: 0 <= k < |s| ==> IsDigit(s[k])
  {
  }

  /** A run of digits before a non-digit is the run `DigitRun` measures. */
  lemma {:induction false} DigitRunOf(d: string, rest: string)
    requires forall k :: 0 <= k < |d| ==> IsDigit(d[k])
    requires rest == [] || !IsDigit(rest[0])
    ensures DigitRun(d + rest) == |d|
  {
    if d != [] {
      assert (d + rest)[1..] == d[1..] + rest;
      DigitRunOf(d[1..], rest);
    }
  }

  /** A `\d+` group and then `stop` read back as the group's value. */
  lemma FieldOf(d: string, stop: char, rest: string)
    requires d != [] && AllRadixDigits(d, 10) && !IsDigit(stop)
    ensures Field(d + [stop] + rest, stop) == Some((ValueOf(d, 10), rest))
  {
    var t := d + [stop] + rest;
    RadixTenDigitsAreDigits(d);
    assert t == d + ([stop] + rest);
    DigitRunOf(d, [stop] + rest);
    assert t[..|d|] == d && t[|d|] == stop && t[|d| + 1..] == rest;
  }

  /** Whitespace, a `\d+` group and `stop`, read back as the group's value. */
  lemma FieldAfterSpaces(d: string, stop: char, w: string, rest: string)
    requires d != [] && AllRadixDigits(d, 10) && !IsDigit(stop) && AllWhitespace(w)
    ensures Field(SkipWhitespace(w + (d + [stop] + rest)), stop) == Some((ValueOf(d, 10), rest))
  {
    var t := d + [stop] + rest;
    RadixTenDigitsAreDigits(d);
    assert t[0] == d[0];
    SkipRun(w, t);
    FieldOf(d, stop, rest);
  }

  /**
   * A string of the shape the pattern reads, `rgb(dr,w1 dg,w2 db)`: digit
   * groups `dr`, `dg`, `db` and any whitespace `w1`, `w2` after the commas.
   */
  function RgbText(dr: string, w1: string, dg: string, w2: string, db: string): string {
    "rgb(" + (dr + [','] + (w1 + (dg + [','] + (w2 + (db + [')'] + [])))))
  }

  /** Every string of the pattern's shape reads back as its three groups' values. */
  lemma ParseRgbText(dr: string, w1: string, dg: string, w2: string, db: string)
    requires dr != [] && dg != [] && db != []
    requires AllRadixDigits(dr, 10) && AllRadixDigits(dg, 10) && AllRadixDigits(db, 10)
    requires AllWhitespace(w1) && AllWhitespace(w2)
    ensures ParseRgb(RgbText(dr, w1, dg, w2, db)) == Some(Rgb(ValueOf(dr, 10), ValueOf(dg, 10), ValueOf(db, 10)))
  {
    var blue := db + [')'] + [];
    var green := dg + [','] + (w2 + blue);
    var red := dr + [','] + (w1 + green);
    var s := RgbText(dr, w1, dg, w2, db);
    assert s[..4] == "rgb(" && s[4..] == red;
    assert StartsWithOpen(s);
    FieldOf(dr, ',', w1 + green);
    FieldAfterSpaces(dg, ',', w1, w2 + blue);
    FieldAfterSpaces(db, ')', w2, []);
    MatchPrefixOfFields(s, ValueOf(dr, 10), ValueOf(dg, 10), ValueOf(db, 10), w1 + green, w2 + blue, []);
    assert s[0..] == s;
  }

  /** The three fields found one after the other make a match. */
  lemma MatchPrefixOfFields(t: string, r: nat, g: nat, b: nat, t1: string, t2: string, rest: string)
    requires StartsWithOpen(t)
    requires Field(t[4..], ',') == Some((r, t1))
    requires Field(SkipWhitespace(t1), ',') == Some((g, t2))
    requires Field(SkipWhitespace(t2), ')') == Some((b, rest))
    ensures MatchPrefix(t) == Some(Rgb(r, g, b))
  {
  }

  /** The textual form `rgb(r,w1 g,w2 b)` with the channels in decimal. */
  function FormatRgb(c: Rgb, w1: string, w2: string): string {
    RgbText(ToRadix(c.r, 10), w1, ToRadix(c.g, 10), w2, ToRadix(c.b, 10))
  }

  /** Reading back the textual form gives the channels. */
  lemma ParseFormatRgb(c: Rgb, w1: string, w2: string)
    requires AllWhitespace(w1) && AllWhitespace(w2)
    ensures ParseRgb(FormatRgb(c, w1, w2)) == Some(c)
  {
    ToRadixValue(c.r, 10);
    ToRadixValue(c.g, 10);
    ToRadixValue(c.b, 10);
    ParseRgbText(ToRadix(c.r, 10), w1, ToRadix(c.g, 10), w2, ToRadix(c.b, 10));
  }

  // ---------------------------------------------------------------------------
  // The #rrggbb form

  /** Seven characters: '#' and six lower-case hexadecimal digits. */
  predicate IsHexColor(h: string) {
    |h| == 7 && h[0] == '#' && forall i :: 1 <= i < 7 ==> IsRadixDigit(h[i], 16)
  }

  /** Two hexadecimal digits hold a byte. */
  lemma TwoHexDigitsFitByte(x: string)
    requires |x| == 2 && AllRadixDigits(x, 16)
    ensures ValueOf(x, 16) < 256
  {
    assert x[..1][..0] == [];
    assert ValueOf(x[..1], 16) == DigitValue(x[0]);
  }

  /** Reads a `#rrggbb` string back into its channels (the inverse of `HexOf`). */
  function HexToRgb(h: string): (c: Option<Rgb>)
    ensures c.Some? ==> IsByteColor(c.value)
  {
    if IsHexColor(h) then
      var r, g, b := h[1..3], h[3..5], h[5..7];
      assert forall i :: 0 <= i < 2 ==> r[i] == h[1 + i] && g[i] == h[3 + i] && b[i] == h[5 + i];
      TwoHexDigitsFitByte(r);
      TwoHexDigitsFitByte(g);
      TwoHexDigitsFitByte(b);
      Some(Rgb(ValueOf(r, 16), ValueOf(g, 16), ValueOf(b, 16)))
    else None
  }

  /** Three two-digit groups after '#' read back as their values. */
  lemma HexToRgbOf(x: string, y: string, z: string)
    requires |x| == 2 && |y| == 2 && |z| == 2
    requires AllRadixDigits(x, 16) && AllRadixDigits(y, 16) && AllRadixDigits(z, 16)
    ensures HexToRgb("#" + x + y + z) == Some(Rgb(ValueOf(x, 16), ValueOf(y, 16), ValueOf(z, 16)))
  {
    HexShape(x, y, z);
  }

  /** '#' and three groups of two hex digits have the `#rrggbb` form, with the groups in place. */
  lemma HexShape(x: string, y: string, z: string)
    requires |x| == 2 && |y| == 2 && |z| == 2
    requires AllRadixDigits(x, 16) && AllRadixDigits(y, 16) && AllRadixDigits(z, 16)
    ensures var h := "#" + x + y + z; IsHexColor(h) && h[1..3] == x && h[3..5] == y && h[5..7] == z
  {
    var h := "#" + x + y + z;
    assert h[1..3] == x && h[3..5] == y && h[5..7] == z;
    forall i | 1 <= i < 7
      ensures IsRadixDigit(h[i], 16)
    {
      if i < 3 {
        assert h[i] == x[i - 1];
      } else if i < 5 {
        assert h[i] == y[i - 3];
      } else {
        assert h[i] == z[i - 5];
      }
    }
  }

  /** The two digits of a byte channel: its sixteens and its units. */
  lemma HexChannelOfByte(n: nat)
    requires n < 256
    ensures n / 16 < 16 && n % 16 < 16
    ensures HexChannel(n) == [DigitChar(n / 16), DigitChar(n % 16)]
  {
    if n < 16 {
      assert DigitChar(0) == '0';
      assert HexChannel(n) == ['0'] + [DigitChar(n)];
    } else {
      assert ToRadix(n, 16) == ToRadix(n / 16, 16) + [DigitChar(n % 16)];
    }
  }

  /** A channel is written with two digits exactly when it fits in a byte, and they read back as it. */
  lemma HexChannelDigits(n: nat)
    ensures |HexChannel(n)| == 2 <==> n < 256
    ensures n < 256 ==> AllRadixDigits(HexChannel(n), 16) && ValueOf(HexChannel(n), 16) == n
  {
    var d := ToRadix(n, 16);
    HexDigitCount(n);
    ToRadixValue(n, 16);
    if n < 16 {
      DigitCharValue(0);
      assert HexChannel(n) == ['0'] + d;
      assert HexChannel(n)[..1] == ['0'];
    }
  }

  /** `HexOf` has the `#rrggbb` form exactly when every channel fits in a byte. */
  lemma HexOfForm(c: Rgb)
    ensures IsHexColor(HexOf(c)) <==> IsByteColor(c)
    ensures |HexOf(c)| == 7 <==> IsByteColor(c)
  {
    HexChannelDigits(c.r);
    HexChannelDigits(c.g);
    HexChannelDigits(c.b);
    var h := HexOf(c);
    if IsByteColor(c) {
      assert h[1..3] == HexChannel(c.r) && h[3..5] == HexChannel(c.g) && h[5..7] == HexChannel(c.b);
    } else {
      assert |h| == 1 + |HexChannel(c.r)| + |HexChannel(c.g)| + |HexChannel(c.b)|;
    }
  }

  /** Every byte colour survives the trip to `#rrggbb` and back. */
  lemma HexRoundTrip(c: Rgb)
    requires IsByteColor(c)
    ensures HexToRgb(HexOf(c)) == Some(c)
  {
    HexChannelDigits(c.r);
    HexChannelDigits(c.g);
    HexChannelDigits(c.b);
    HexToRgbOf(HexChannel(c.r), HexChannel(c.g), HexChannel(c.b));
  }

  /**
   * For a matching string whose channels fit in a byte, `rgbToHex` gives a
   * `#rrggbb` string whose three groups are the channels' values; with a
   * larger channel the result is longer than seven characters.
   */
  lemma RgbToHexOfMatch(s: string)
    requires ParseRgb(s).Some?
    ensures IsByteColor(ParseRgb(s).value) ==> IsHexColor(RgbToHex(s)) && HexToRgb(RgbToHex(s)) == ParseRgb(s)
    ensures !IsByteColor(ParseRgb(s).value) ==> |RgbToHex(s)| > 7
  {
    var c := ParseRgb(s).value;
    HexOfForm(c);
    if IsByteColor(c) {
      HexRoundTrip(c);
    } else {
      HexChannelDigits(c.r);
      HexChannelDigits(c.g);
      HexChannelDigits(c.b);
    }
  }

  lemma RgbToHexNoMatchExample()
    ensures RgbToHex("no colour") == "#000000"
  {
    var t := "no colour";
    forall i | 0 <= i <= |t| ensures !StartsWithOpen(t[i..]) {
      if |t[i..]| >= 4 {
        assert t[i..][..4][0] == t[i];
      }
    }
    NoPatternIsBlack(t);
  }

  // ---------------------------------------------------------------------------
  // Plain colour strings

  /** The value of a decimal literal of up to three digits. */
  lemma ShortDecimal(d: string)
    requires 1 <= |d| <= 3 && AllRadixDigits(d, 10)
    ensures ValueOf(d, 10) ==
      if |d| == 1 then DigitValue(d[0])
      else if |d| == 2 then DigitValue(d[0]) * 10 + DigitValue(d[1])
      else DigitValue(d[0]) * 100 + DigitValue(d[1]) * 10 + DigitValue(d[2])
  {
    var p := d[..|d| - 1];
    if |d| >= 2 {
      var pp := p[..|p| - 1];
      if |d| == 3 {
        assert pp[..|pp| - 1] == [];
      } else {
        assert pp == [];
      }
    } else {
      assert p == [];
    }
  }

  /** `s` is `rgb(` three decimal groups `)` without blanks, whose values are `c`. */
  ghost predicate PlainText(s: string, c: Rgb) {
    exists dr, dg, db :: s == RgbText(dr, "", dg, "", db) && dr != [] && dg != [] && db != [] &&
      AllRadixDigits(dr, 10) && AllRadixDigits(dg, 10) && AllRadixDigits(db, 10) &&
      c == Rgb(ValueOf(dr, 10), ValueOf(dg, 10), ValueOf(db, 10))
  }

  lemma PlainTextOf(s: string, dr: string, dg: string, db: string, c: Rgb)
    requires s == RgbText(dr, "", dg, "", db)
    requires 1 <= |dr| <= 3 && 1 <= |dg| <= 3 && 1 <= |db| <= 3
    requires AllRadixDigits(dr, 10) && AllRadixDigits(dg, 10) && AllRadixDigits(db, 10)
    requires c == Rgb(ValueOf(dr, 10), ValueOf(dg, 10), ValueOf(db, 10))
    ensures PlainText(s, c)
  {
  }

  lemma PlainTextParses(s: string, c: Rgb)
    requires PlainText(s, c)
    ensures ParseRgb(s) == Some(c)
  {
    var dr, dg, db :| s == RgbText(dr, "", dg, "", db) && dr != [] && dg != [] && db != [] &&
      AllRadixDigits(dr, 10) && AllRadixDigits(dg, 10) && AllRadixDigits(db, 10) &&
      c == Rgb(ValueOf(dr, 10), ValueOf(dg, 10), ValueOf(db, 10));
    ParseRgbText(dr, "", dg, "", db);
  }
}
