/**
 * The JavaScript built-ins the core leans on: the regular-expression
 * classes `\s` and `\d`, `parseInt`, `Number.prototype.toString(radix)`
 * and `String.prototype.padStart`.
 */
module JsText {

  /** ECMAScript `\s`: the WhiteSpace and LineTerminator code points. */
  predicate IsWhitespace(c: char) {
    var n := c as int;
    n == 0x09 || n == 0x0A || n == 0x0B || n == 0x0C || n == 0x0D || n == 0x20
    || n == 0xA0 || n == 0x1680 || (0x2000 <= n <= 0x200A) || n == 0x2028
    || n == 0x2029 || n == 0x202F || n == 0x205F || n == 0x3000 || n == 0xFEFF
  }

  /** ECMAScript `\d` outside Unicode mode: the ASCII digits only. */
  predicate IsDigit(c: char) {
    '0' <= c <= '9'
  }

  predicate NoWhitespace(s: string) {
    forall i :: 0 <= i < |s| ==> !IsWhitespace(s[i])
  }

  predicate AllWhitespace(s: string) {
    forall i :: 0 <= i < |s| ==> IsWhitespace(s[i])
  }

  /** What is left of `s` once its leading whitespace run is dropped. */
  function SkipWhitespace(s: string): (r: string)
    ensures |r| <= |s| && r == s[|s| - |r|..]
    ensures AllWhitespace(s[..|s| - |r|])
    ensures r == [] || !IsWhitespace(r[0])
  {
    if s != [] && IsWhitespace(s[0]) then SkipWhitespace(s[1..]) else s
  }

  /** A whitespace run before a non-space is exactly what `SkipWhitespace` drops. */
  lemma {:induction false} SkipRun(w: string, rest: string)
    requires AllWhitespace(w)
    requires rest == [] || !IsWhitespace(rest[0])
    ensures SkipWhitespace(w + rest) == rest
    decreases |w|
  {
    if w == [] {
      assert w + rest == rest;
    } else {
      assert (w + rest)[1..] == w[1..] + rest;
      SkipRun(w[1..], rest);
    }
  }

  /** The digit that `toString(radix)` writes for `d`; letters are lower-case. */
  function DigitChar(d: nat): (c: char)
    requires d < 16
  {
    if d < 10 then ('0' as int + d) as char else ('a' as int + d - 10) as char
  }

  /** The value of one digit character, or -1 for a character that is not one. */
  function DigitValue(c: char): int {
    if '0' <= c <= '9' then c as int - '0' as int
    else if 'a' <= c <= 'f' then c as int - 'a' as int + 10
    else -1
  }

  predicate IsRadixDigit(c: char, radix: nat) {
    0 <= DigitValue(c) < radix
  }

  predicate AllRadixDigits(s: string, radix: nat) {
    forall i :: 0 <= i < |s| ==> IsRadixDigit(s[i], radix)
  }

  lemma DigitCharValue(d: nat)
    requires d < 16
    ensures DigitValue(DigitChar(d)) == d
  {
  }

  /** The value of a string of digits, most significant first (`parseInt(s, radix)`). */
  function ValueOf(s: string, radix: nat): nat
    requires AllRadixDigits(s, radix)
  {
    if s == [] then 0 else ValueOf(s[..|s| - 1], radix) * radix + DigitValue(s[|s| - 1])
  }

  /** `n.toString(radix)` for a non-negative integer: no leading zeros, "0" for zero. */
  function ToRadix(n: nat, radix: nat): (s: string)
    requires 2 <= radix <= 16
    ensures |s| >= 1 && AllRadixDigits(s, radix)
    decreases n
  {
    if n < radix then
      DigitCharValue(n);
      [DigitChar(n)]
    else
      var q, d := n / radix, n % radix;
      DivMod(n, radix);
      DigitCharValue(d);
      var front := ToRadix(q, radix);
      AppendDigit(front, DigitChar(d), radix);
      front + [DigitChar(d)]
  }

  lemma AppendDigit(front: string, c: char, radix: nat)
    requires AllRadixDigits(front, radix) && IsRadixDigit(c, radix)
    ensures AllRadixDigits(front + [c], radix)
  {
    var r := front + [c];
    assert forall i :: 0 <= i < |front| ==> r[i] == front[i];
  }

  /** `toString` writes no leading zero: the first digit is '0' only for zero itself. */
  lemma {:induction false} ToRadixLeadingDigit(n: nat, radix: nat)
    requires 2 <= radix <= 16
    ensures ToRadix(n, radix)[0] == '0' <==> n == 0
    decreases n
  {
    if n < radix {
      DigitCharValue(n);
      assert DigitValue('0') == 0;
    } else {
      var q := n / radix;
      DivMod(n, radix);
      ToRadixLeadingDigit(q, radix);
      assert ToRadix(n, radix)[0] == ToRadix(q, radix)[0];
    }
  }

  /** Euclidean division by the radix splits off the last digit. */
  lemma DivMod(n: nat, radix: nat)
    requires 2 <= radix <= n
    ensures 1 <= n / radix < n && n % radix < radix
    ensures n == (n / radix) * radix + n % radix
  {
  }

  /** Reading back what `toString(radix)` writes gives the number again. */
  lemma {:induction false} ToRadixValue(n: nat, radix: nat)
    requires 2 <= radix <= 16
    ensures ValueOf(ToRadix(n, radix), radix) == n
    decreases n
  {
    var s := ToRadix(n, radix);
    if n < radix {
      DigitCharValue(n);
      assert s[..|s| - 1] == [];
    } else {
      var q, d := n / radix, n % radix;
      DivMod(n, radix);
      var front := ToRadix(q, radix);
      assert s[..|s| - 1] == front && s[|s| - 1] == DigitChar(d);
      ToRadixValue(q, radix);
      DigitCharValue(d);
      calc {
        ValueOf(s, radix);
        ValueOf(front, radix) * radix + DigitValue(DigitChar(d));
        q * radix + d;
      }
    }
  }

  /** Base 16 needs at most two digits exactly for the values of one byte. */
  lemma {:induction false} HexDigitCount(n: nat)
    ensures |ToRadix(n, 16)| <= 2 <==> n < 256
  {
    if n >= 16 {
      var q := n / 16;
      assert |ToRadix(n, 16)| == |ToRadix(q, 16)| + 1;
      if q >= 16 {
        assert |ToRadix(q, 16)| == |ToRadix(q / 16, 16)| + 1;
      }
    }
  }

  /** `s.padStart(width, [pad])`: `pad` repeated in front of `s` up to `width` characters. */
  function PadStart(s: string, width: nat, pad: char): (r: string)
    ensures |r| == if |s| < width then width else |s|
    ensures r[|r| - |s|..] == s
    ensures forall i :: 0 <= i < |r| - |s| ==> r[i] == pad
  {
    if |s| < width then seq(width - |s|, _ => pad) + s else s
  }
}
