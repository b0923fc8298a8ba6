/**
 * The JavaScript string operations the bot builds on, over `string`
 * (`seq<char>`): `split` and `join` on a one-character separator,
 * `String(n)`, `parseInt`, `padStart(2, "0")`, `trim` and `toLowerCase`.
 */
module Strings {
  import opened Wrappers

  // ---------------------------------------------------------------- split / join

  /** `s.split(sep)`: at least one piece, and no piece holds the separator. */
  function Split(s: string, sep: char): (parts: seq<string>)
    ensures |parts| >= 1
    ensures |parts| == 1 <==> sep !in s
    ensures forall i :: 0 <= i < |parts| ==> sep !in parts[i]
  {
    if |s| == 0 then [""]
    else
      var rest := Split(s[1..], sep);
      if s[0] == sep then [""] + rest
      else [[s[0]] + rest[0]] + rest[1..]
  }

  /** `parts.join(sep)`. */
  function Join(parts: seq<string>, sep: string): string
  {
    if |parts| == 0 then ""
    else if |parts| == 1 then parts[0]
    else parts[0] + sep + Join(parts[1..], sep)
  }

  /** Joining the pieces of a split with the separator gives back the text. */
  lemma {:induction false} JoinSplit(s: string, sep: char)
    ensures Join(Split(s, sep), [sep]) == s
  {
    if |s| > 0 {
      var rest := Split(s[1..], sep);
      JoinSplit(s[1..], sep);
      if s[0] == sep {
        assert ([""] + rest)[1..] == rest;
      } else {
        var head := [s[0]] + rest[0];
        var parts := [head] + rest[1..];
        assert parts[1..] == rest[1..];
        if |rest| == 1 {
          assert Join(parts, [sep]) == head;
        } else {
          assert Join(rest, [sep]) == rest[0] + [sep] + Join(rest[1..], [sep]);
          assert Join(parts, [sep]) == head + [sep] + Join(rest[1..], [sep]);
        }
      }
    }
  }

  /** A text without the separator splits into itself. */
  lemma {:induction false} SplitWithoutSeparator(a: string, sep: char)
    requires sep !in a
    ensures Split(a, sep) == [a]
  {
    if |a| > 0 {
      SplitWithoutSeparator(a[1..], sep);
      assert [a[0]] + a[1..] == a;
    }
  }

  /** Splitting at the first separator: the piece before it comes first. */
  lemma {:induction false} SplitAtSeparator(a: string, sep: char, b: string)
    requires sep !in a
    ensures Split(a + [sep] + b, sep) == [a] + Split(b, sep)
  {
    if |a| == 0 {
      assert (a + [sep] + b)[1..] == b;
    } else {
      assert (a + [sep] + b)[1..] == a[1..] + [sep] + b;
      SplitAtSeparator(a[1..], sep, b);
      assert [a[0]] + a[1..] == a;
    }
  }

  // ---------------------------------------------------------------- decimal numbers

  predicate IsDigit(c: char) {
    '0' <= c <= '9'
  }

  predicate AllDigits(s: string) {
    forall i :: 0 <= i < |s| ==> IsDigit(s[i])
  }

  function DigitChar(d: nat): (c: char)
    requires d < 10
    ensures IsDigit(c)
  {
    (48 + d) as char
  }

  function DigitValue(c: char): (d: nat)
    requires IsDigit(c)
    ensures d < 10
  {
    c as int - 48
  }

  /** `String(n)` for a non-negative integer: its decimal digits, most significant first. */
  function NatToString(n: nat): (s: string)
    ensures |s| >= 1 && AllDigits(s)
    ensures n < 10 ==> |s| == 1
    ensures 10 <= n < 100 ==> |s| == 2
  {
    if n < 10 then [DigitChar(n)] else NatToString(n / 10) + [DigitChar(n % 10)]
  }

  /** The number a string of decimal digits denotes (0 for the empty string). */
  function DigitsValue(s: string): nat
    requires AllDigits(s)
  {
    if |s| == 0 then 0 else 10 * DigitsValue(s[..|s| - 1]) + DigitValue(s[|s| - 1])
  }

  /** Reading back the decimal digits of `n` gives `n`. */
  lemma {:induction false} NatToStringValue(n: nat)
    ensures DigitsValue(NatToString(n)) == n
  {
    if n >= 10 {
      NatToStringValue(n / 10);
      var s := NatToString(n);
      assert s[..|s| - 1] == NatToString(n / 10);
    }
  }

  /** Only zero prints as a lone `0`. */
  lemma NatToStringOfPositive(n: nat)
    requires n > 0
    ensures NatToString(n) != "0"
  {
    if n < 10 {
      assert NatToString(n)[0] != '0';
    } else {
      assert |NatToString(n)| >= 2;
    }
  }

  /** A leading zero does not change the value of a digit string. */
  lemma {:induction false} LeadingZeroValue(s: string)
    requires AllDigits(s)
    ensures AllDigits("0" + s) && DigitsValue("0" + s) == DigitsValue(s)
  {
    if |s| > 0 {
      var t := "0" + s;
      assert t[..|t| - 1] == "0" + s[..|s| - 1];
      LeadingZeroValue(s[..|s| - 1]);
    }
  }

  /** Length of the longest prefix of `s` made of decimal digits. */
  function DigitRun(s: string): (k: nat)
    ensures k <= |s| && AllDigits(s[..k])
    ensures k < |s| ==> !IsDigit(s[k])
  {
    if |s| == 0 || !IsDigit(s[0]) then 0
    else
      var k := 1 + DigitRun(s[1..]);
      assert s[..k] == [s[0]] + s[1..][..k - 1];
      k
  }

  /** The digit run of a digit string followed by a non-digit is that digit string. */
  lemma {:induction false} DigitRunOfDigits(d: string, t: string)
    requires AllDigits(d)
    requires |t| == 0 || !IsDigit(t[0])
    ensures DigitRun(d + t) == |d| && (d + t)[..|d|] == d
  {
    if |d| > 0 {
      assert (d + t)[1..] == d[1..] + t;
      DigitRunOfDigits(d[1..], t);
    }
  }

  /** A hexadecimal digit: `[0-9a-fA-F]`. */
  predicate IsHexDigit(c: char) {
    IsDigit(c) || 'a' <= c <= 'f' || 'A' <= c <= 'F'
  }

  predicate AllHexDigits(s: string) {
    forall i :: 0 <= i < |s| ==> IsHexDigit(s[i])
  }

  function HexDigitValue(c: char): (d: nat)
    requires IsHexDigit(c)
    ensures d < 16
  {
    if IsDigit(c) then c as int - 48
    else if 'a' <= c <= 'f' then c as int - 87
    else c as int - 55
  }

  /** The number a string of hexadecimal digits denotes (0 for the empty string). */
  function HexValue(s: string): nat
    requires AllHexDigits(s)
  {
    if |s| == 0 then 0 else 16 * HexValue(s[..|s| - 1]) + HexDigitValue(s[|s| - 1])
  }

  /** Length of the longest prefix of `s` made of hexadecimal digits. */
  function HexRun(s: string): (k: nat)
    ensures k <= |s| && AllHexDigits(s[..k])
    ensures k < |s| ==> !IsHexDigit(s[k])
  {
    if |s| == 0 || !IsHexDigit(s[0]) then 0
    else
      var k := 1 + HexRun(s[1..]);
      assert s[..k] == [s[0]] + s[1..][..k - 1];
      k
  }

  /** The hex digit run of a hex digit string followed by a non-hex-digit is that string. */
  lemma {:induction false} HexRunOfHexDigits(h: string, t: string)
    requires AllHexDigits(h)
    requires |t| == 0 || !IsHexDigit(t[0])
    ensures HexRun(h + t) == |h| && (h + t)[..|h|] == h
  {
    if |h| > 0 {
      assert (h + t)[1..] == h[1..] + t;
      HexRunOfHexDigits(h[1..], t);
    }
  }

  /** `0x` or `0X`: with no radix given, `parseInt` reads what follows in base 16. */
  predicate HasHexPrefix(body: string) {
    |body| >= 2 && body[0] == '0' && (body[1] == 'x' || body[1] == 'X')
  }

  /**
   * `parseInt(s)` without a radix: leading white space is skipped, then an
   * optional sign; after a `0x`/`0X` prefix the longest run of hexadecimal
   * digits is read in base 16, otherwise the longest run of decimal digits
   * in base 10. `None` stands for `NaN`: no digit where one must come.
   * Characters after the run are ignored.
   */
  function ParseInt(s: string): (r: Option<int>)
    ensures var body := SignFree(TrimStart(s));
      r.None? <==> if HasHexPrefix(body) then HexRun(body[2..]) == 0 else DigitRun(body) == 0
  {
    var u := TrimStart(s);
    match ParseDigits(SignFree(u))
    case None => None
    case Some(v) => if u[0] == '-' then Some(-(v as int)) else Some(v)
  }

  /** The value of the digit run that starts `body`, in base 16 after a hex prefix and in base 10 otherwise. */
  function ParseDigits(body: string): (r: Option<nat>)
    ensures HasHexPrefix(body) ==> (r.None? <==> HexRun(body[2..]) == 0)
    ensures !HasHexPrefix(body) ==> (r.None? <==> DigitRun(body) == 0)
    ensures r.Some? ==> |body| > 0
  {
    if HasHexPrefix(body) then
      var k := HexRun(body[2..]);
      if k == 0 then None else Some(HexValue(body[2..][..k]))
    else
      var k := DigitRun(body);
      if k == 0 then None else Some(DigitsValue(body[..k]))
  }

  /** The text after an optional leading sign. */
  function SignFree(s: string): (body: string)
    ensures |s| > 0 && (s[0] == '-' || s[0] == '+') ==> body == s[1..]
    ensures !(|s| > 0 && (s[0] == '-' || s[0] == '+')) ==> body == s
  {
    if |s| > 0 && (s[0] == '-' || s[0] == '+') then s[1..] else s
  }

  /** `String(i)` for any integer. */
  function IntToString(i: int): (s: string)
    ensures |s| >= 1
  {
    if i < 0 then "-" + NatToString(-i) else NatToString(i)
  }

  /** `parseInt` reads back `String(i)`, whatever non-digit text follows it. */
  lemma ParseIntOfString(i: int, t: string)
    requires |t| == 0 || !IsDigit(t[0])
    requires i == 0 ==> |t| == 0 || (t[0] != 'x' && t[0] != 'X')
    ensures ParseInt(IntToString(i) + t) == Some(i)
  {
    if i < 0 {
      ParseIntOfNegative(i, t);
    } else {
      var d := NatToString(i);
      assert ParseDigits(d + t) == Some(i) by {
        NatToStringValue(i);
        if i > 0 {
          NatToStringOfPositive(i);
        }
        ParseDigitsOf(d, t);
      }
      ParseIntOfDigitRun(d, t, i);
    }
  }

  /** The negative half of `ParseIntOfString`: the minus sign comes back as a negation. */
  lemma ParseIntOfNegative(i: int, t: string)
    requires i < 0
    requires |t| == 0 || !IsDigit(t[0])
    ensures ParseInt(IntToString(i) + t) == Some(i)
  {
    var d := NatToString(-i);
    assert ParseDigits(d + t) == Some(-i) by {
      NatToStringValue(-i);
      NatToStringOfPositive(-i);
      ParseDigitsOf(d, t);
    }
    ParseIntOfMinus(IntToString(i), d, t, -i);
  }

  /** A text that starts with a digit reads as the value of its leading digit run. */
  lemma ParseIntOfDigitRun(d: string, t: string, v: nat)
    requires |d| >= 1 && IsDigit(d[0]) && ParseDigits(d + t) == Some(v)
    ensures ParseInt(d + t) == Some(v)
  {
    var s := d + t;
    assert s[0] == d[0];
    StartsWithDigit(s);
  }

  /** A minus sign, then a text whose digit run reads `v`, reads as `-v`. */
  lemma ParseIntOfMinus(a: string, d: string, t: string, v: nat)
    requires a == "-" + d && ParseDigits(d + t) == Some(v)
    ensures ParseInt(a + t) == Some(-(v as int))
  {
    var m := a + t;
    assert m[0] == '-' && m[1..] == d + t;
    StartsWithMinus(m);
    NegatedParse(m, v);
  }

  /** A minus sign followed by a digit run reads as the negated value of the run. */
  lemma NegatedParse(m: string, v: nat)
    requires |m| > 0 && m[0] == '-' && TrimStart(m) == m && ParseDigits(m[1..]) == Some(v)
    ensures ParseInt(m) == Some(-(v as int))
  {
    assert SignFree(m) == m[1..];
  }

  /** A text starting with a digit has no white space or sign to skip. */
  lemma StartsWithDigit(s: string)
    requires |s| > 0 && IsDigit(s[0])
    ensures TrimStart(s) == s && SignFree(s) == s
  {
    assert !IsJsSpace(s[0]);
  }

  /** A text starting with a minus sign has no white space to skip, and its sign is dropped. */
  lemma StartsWithMinus(s: string)
    requires |s| > 0 && s[0] == '-'
    ensures TrimStart(s) == s && SignFree(s) == s[1..]
  {
    assert !IsJsSpace(s[0]);
  }

  /**
   * The digit run of a digit string followed by a non-digit reads as that
   * string's decimal value, unless the string is a lone `0` followed by an
   * `x` or `X`, which makes a hex prefix.
   */
  lemma ParseDigitsOf(d: string, t: string)
    requires |d| >= 1 && AllDigits(d)
    requires |t| == 0 || !IsDigit(t[0])
    requires d == "0" ==> |t| == 0 || (t[0] != 'x' && t[0] != 'X')
    ensures ParseDigits(d + t) == Some(DigitsValue(d))
  {
    var s := d + t;
    if |d| >= 2 {
      assert s[1] == d[1];
    } else if |t| > 0 {
      assert s[1] == t[0];
      if d[0] == '0' {
        assert d == "0";
      }
    }
    assert !HasHexPrefix(s);
    DigitRunOfDigits(d, t);
  }

  /** A hexadecimal digit string after `0x` reads as its base-16 value, whatever non-hex text follows. */
  lemma ParseIntOfHex(h: string, t: string)
    requires |h| >= 1 && AllHexDigits(h)
    requires |t| == 0 || !IsHexDigit(t[0])
    ensures ParseInt("0x" + h + t) == Some(HexValue(h))
  {
    var v := HexValue(h);
    HexDigitsAfterPrefix(h, t, v);
    ParseIntOfDigitRun("0x" + h, t, v);
  }

  /** After a `0x` prefix the hex digit run is read in base 16. */
  lemma HexDigitsAfterPrefix(h: string, t: string, v: nat)
    requires |h| >= 1 && AllHexDigits(h) && HexValue(h) == v
    requires |t| == 0 || !IsHexDigit(t[0])
    ensures ParseDigits("0x" + h + t) == Some(v)
  {
    var u := h + t;
    var s := "0x" + u;
    assert s == "0x" + h + t;
    assert HasHexPrefix(s) && s[2..] == u by {
      assert s[0] == '0' && s[1] == 'x';
    }
    assert HexRun(u) == |h| && u[..|h|] == h by {
      HexRunOfHexDigits(h, t);
    }
    HexPrefixDigits(s, v);
  }

  /** After a hex prefix, a non-empty hex run reads as its base-16 value. */
  lemma HexPrefixDigits(body: string, v: nat)
    requires HasHexPrefix(body) && HexRun(body[2..]) > 0
    requires HexValue(body[2..][..HexRun(body[2..])]) == v
    ensures ParseDigits(body) == Some(v)
  {
  }

  /** `0x` with no hex digit after it is `NaN`, and a decimal run ends at the first non-digit. */
  lemma ParseIntExamples()
    ensures ParseInt("0x") == None
    ensures ParseInt("-0x1f") == Some(-31)
    ensures ParseInt(" 42abc") == Some(42)
  {
    var h := "-0x1f";
    assert h[1..] == "0x1f" && "0x1f"[2..] == "1f";
    HexRunOfHexDigits("1f", "");
    assert "1f" + "" == "1f";
    StartsWithMinus(h);
    assert HexValue("1f") == 31 by {
      assert "1f"[..1] == "1";
    }
    var d := " 42abc";
    assert TrimStart(d) == d[1..] by {
      assert IsJsSpace(d[0]);
      StartsWithDigit(d[1..]);
    }
    assert d[1..] == "42" + "abc";
    ParseDigitsOf("42", "abc");
    assert DigitsValue("42") == 42 by {
      assert "42"[..1] == "4";
    }
    StartsWithDigit(d[1..]);
    assert "0x"[0] == '0';
    StartsWithDigit("0x");
  }

  /** `String(n).padStart(2, "0")` for a non-negative integer. */
  function PadTwo(n: nat): (s: string)
    ensures |s| >= 2 && AllDigits(s)
    ensures n < 100 ==> |s| == 2
  {
    var d := NatToString(n);
    if |d| < 2 then "0" + d else d
  }

  /** `parseInt` reads back a zero-padded number, whatever non-digit text follows it. */
  lemma PadTwoValue(n: nat, t: string)
    requires |t| == 0 || !IsDigit(t[0])
    ensures ParseInt(PadTwo(n) + t) == Some(n)
  {
    var p := PadTwo(n);
    assert ParseDigits(p + t) == Some(n) by {
      var d := NatToString(n);
      NatToStringValue(n);
      if |d| < 2 {
        LeadingZeroValue(d);
      }
      ParseDigitsOf(p, t);
    }
    ParseIntOfDigitRun(p, t, n);
  }

  // ---------------------------------------------------------------- trim / lower case

  /** The characters `String.prototype.trim` removes: white space and line terminators. */
  predicate IsJsSpace(c: char) {
    || c == '\t' || c == '\n' || c == '\U{000B}' || c == '\U{000C}' || c == '\r' || c == ' '
    || c == '\U{00A0}' || c == '\U{1680}' || ('\U{2000}' <= c <= '\U{200A}')
    || c == '\U{2028}' || c == '\U{2029}' || c == '\U{202F}' || c == '\U{205F}'
    || c == '\U{3000}' || c == '\U{FEFF}'
  }

  function TrimStart(s: string): (r: string)
    ensures |r| <= |s|
    ensures |r| > 0 ==> !IsJsSpace(r[0])
  {
    if |s| > 0 && IsJsSpace(s[0]) then TrimStart(s[1..]) else s
  }

  /** `TrimStart` drops a prefix of white space and keeps the rest as it is. */
  lemma {:induction false} TrimStartDrops(s: string)
    ensures TrimStart(s) == s[|s| - |TrimStart(s)|..]
    ensures forall i :: 0 <= i < |s| - |TrimStart(s)| ==> IsJsSpace(s[i])
  {
    if |s| > 0 && IsJsSpace(s[0]) {
      TrimStartDrops(s[1..]);
      assert forall i :: 1 <= i < |s| ==> s[i] == s[1..][i - 1];
    }
  }

  function TrimEnd(s: string): (r: string)
    ensures |r| <= |s| && r == s[..|r|]
    ensures |r| > 0 ==> !IsJsSpace(r[|r| - 1])
    ensures forall i :: |r| <= i < |s| ==> IsJsSpace(s[i])
  {
    if |s| > 0 && IsJsSpace(s[|s| - 1]) then TrimEnd(s[..|s| - 1]) else s
  }

  /** `s.trim()`: drops the white space at both ends and keeps the rest as it is. */
  function Trim(s: string): (r: string)
    ensures |r| > 0 ==> !IsJsSpace(r[0]) && !IsJsSpace(r[|r| - 1])
    ensures |r| == 0 <==> forall i :: 0 <= i < |s| ==> IsJsSpace(s[i])
    ensures exists a :: Between(s, a, r)
  {
    TrimStartDrops(s);
    TrimMiddle(s);
    TrimEnd(TrimStart(s))
  }

  /** `r` stands at offset `a` of `s`, with only white space before and after it. */
  predicate Between(s: string, a: int, r: string) {
    && 0 <= a <= |s| - |r| && r == s[a..a + |r|]
    && (forall i :: 0 <= i < a ==> IsJsSpace(s[i]))
    && (forall i :: a + |r| <= i < |s| ==> IsJsSpace(s[i]))
  }

  /** Trimming both ends keeps the middle of the text, where the first leading non-space starts. */
  lemma TrimMiddle(s: string)
    ensures Between(s, |s| - |TrimStart(s)|, TrimEnd(TrimStart(s)))
  {
    TrimStartDrops(s);
    var u := TrimStart(s);
    var r := TrimEnd(u);
    var a := |s| - |u|;
    assert u == s[a..];
    assert r == s[a..a + |r|];
    forall i | a + |r| <= i < |s| ensures IsJsSpace(s[i]) {
      assert s[i] == u[i - a];
    }
  }

  /**
   * `c.toLowerCase()` for the characters whose lower case is, or contains,
   * a letter the bot's helpers look at: ASCII capitals, the Turkish
   * capitals Ğ Ü Ş Ö Ç, the dotted capital İ (which lowers to `i` plus a
   * combining dot) and the Kelvin sign (which lowers to `k`).
   */
  function LowerChar(c: char): (r: string)
    ensures |r| >= 1
  {
    if 'A' <= c <= 'Z' then [(c as int + 32) as char]
    else if c == 'Ğ' then "ğ"
    else if c == 'Ü' then "ü"
    else if c == 'Ş' then "ş"
    else if c == 'Ö' then "ö"
    else if c == 'Ç' then "ç"
    else if c == 'İ' then "i\U{0307}"
    else if c == '\U{212A}' then "k"
    else [c]
  }

  /** `s.toLowerCase()`, character by character. */
  function LowerCase(s: string): string
  {
    if |s| == 0 then "" else LowerChar(s[0]) + LowerCase(s[1..])
  }
}
