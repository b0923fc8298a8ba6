/**
 * The pure text helpers of the bot: the file-name slug (`formatFileName`),
 * the progress bar (`createProgressBar`), the access check
 * (`isUserAllowed`) and the caption recovered from a catalogued title when
 * a saved video is selected.
 */
module Formatting {
  import opened Wrappers
  import opened Strings

  // ---------------------------------------------------------------- formatFileName

  /** The characters a slug keeps: `[a-z0-9]`. */
  predicate IsSlugChar(c: char) {
    'a' <= c <= 'z' || '0' <= c <= '9'
  }

  predicate IsSlugOrDash(c: char) {
    IsSlugChar(c) || c == '-'
  }

  predicate SlugOrDashOnly(s: string) {
    forall i :: 0 <= i < |s| ==> IsSlugOrDash(s[i])
  }

  predicate NoDoubleDash(s: string) {
    forall i :: 0 <= i < |s| - 1 ==> !(s[i] == '-' && s[i + 1] == '-')
  }

  /** What `formatFileName` promises of its result. */
  predicate IsSlug(s: string) {
    && SlugOrDashOnly(s)
    && NoDoubleDash(s)
    && (|s| > 0 ==> s[0] != '-' && s[|s| - 1] != '-')
  }

  /** The six Turkish letters the slug spells with an ASCII letter. */
  const TurkishLetters: string := "ğüşıöç"

  /** The ASCII base letter of each Turkish letter, at the same position. */
  const AsciiBases: string := "gusioc"

  /** The base letter of a Turkish letter, looked up in the two tables. */
  function AsciiBase(c: char): char
    requires c in TurkishLetters
  {
    var i :| 0 <= i < |TurkishLetters| && TurkishLetters[i] == c;
    AsciiBases[i]
  }

  /** `.replace(/ğ/g, "g")` and its five siblings, on one character. */
  function Deaccent(c: char): char {
    if c == 'ğ' then 'g'
    else if c == 'ü' then 'u'
    else if c == 'ş' then 's'
    else if c == 'ı' then 'i'
    else if c == 'ö' then 'o'
    else if c == 'ç' then 'c'
    else c
  }

  /**
   * The per-character replacements: the six Turkish letters, then `[^a-z0-9]` to `-`.
   * Slug characters stay, the Turkish letters become their base letter, and
   * every other character becomes a dash.
   */
  function Replaced(s: string): (r: string)
    ensures |r| == |s| && SlugOrDashOnly(r)
    ensures forall i :: 0 <= i < |s| && IsSlugChar(s[i]) ==> r[i] == s[i]
    ensures forall i :: 0 <= i < |s| && s[i] in TurkishLetters ==> r[i] == AsciiBase(s[i])
    ensures forall i :: 0 <= i < |s| && !IsSlugChar(s[i]) && s[i] !in TurkishLetters ==> r[i] == '-'
  {
    seq(|s|, i requires 0 <= i < |s| => var c := Deaccent(s[i]); if IsSlugChar(c) then c else '-')
  }

  /** The text with every dash removed. */
  function Undashed(s: string): string {
    if |s| == 0 then "" else (if s[0] == '-' then "" else [s[0]]) + Undashed(s[1..])
  }

  /**
   * `.replace(/-+/g, "-")`: each run of dashes becomes one dash, and the
   * text starts and ends as before.
   */
  function CollapseDashes(s: string): (r: string)
    ensures NoDoubleDash(r) && |r| <= |s|
    ensures SlugOrDashOnly(s) ==> SlugOrDashOnly(r)
    ensures |s| > 0 ==> |r| > 0 && (r[0] == '-' <==> s[0] == '-')
    ensures |s| > 0 ==> (r[|r| - 1] == '-' <==> s[|s| - 1] == '-')
  {
    if |s| == 0 then ""
    else if |s| > 1 && s[0] == '-' && s[1] == '-' then CollapseDashes(s[1..])
    else
      var rest := CollapseDashes(s[1..]);
      [s[0]] + rest
  }

  /** Collapsing keeps every character other than a dash, in order. */
  lemma {:induction false} CollapseKeepsOthers(s: string)
    ensures Undashed(CollapseDashes(s)) == Undashed(s)
  {
    if |s| > 0 {
      CollapseKeepsOthers(s[1..]);
      if !(|s| > 1 && s[0] == '-' && s[1] == '-') {
        UndashedCons(s[0], CollapseDashes(s[1..]));
      }
    }
  }

  /** Removing the dashes from a text with one more character in front. */
  lemma UndashedCons(c: char, s: string)
    ensures Undashed([c] + s) == (if c == '-' then "" else [c]) + Undashed(s)
  {
    assert ([c] + s)[1..] == s;
  }

  /**
   * Dropping one dash of a double dash does not change the collapsed text.
   * With `CollapseWithoutDoubleDash` this pins `CollapseDashes` down: it
   * removes doubled dashes until none is left, and nothing else.
   */
  lemma {:induction false} CollapseDropsDoubledDash(s: string, i: nat)
    requires i + 1 < |s| && s[i] == '-' && s[i + 1] == '-'
    ensures CollapseDashes(s[..i] + s[i + 1..]) == CollapseDashes(s)
  {
    var t := s[..i] + s[i + 1..];
    if i == 0 {
      assert t == s[1..];
    } else if i == 1 {
      assert t == [s[0]] + s[2..];
      if s[0] == '-' {
        assert t == s[1..];
      } else {
        assert t[1..] == s[2..];
        assert CollapseDashes(s[1..]) == CollapseDashes(s[2..]);
      }
    } else {
      assert t[0] == s[0] && t[1] == s[1];
      assert t[1..] == s[1..][..i - 1] + s[1..][i..];
      CollapseDropsDoubledDash(s[1..], i - 1);
    }
  }

  /** `.replace(/^-|-$/g, "")`: drops one dash at the start and one at the end. */
  function TrimDashes(s: string): (r: string)
    ensures |r| <= |s|
  {
    var a := if |s| > 0 && s[0] == '-' then s[1..] else s;
    if |a| > 0 && a[|a| - 1] == '-' then a[..|a| - 1] else a
  }

  /** `formatFileName(text)`: lower case, Turkish letters to ASCII, everything else to `-`, dashes collapsed and trimmed. */
  function FormatFileName(text: string): (r: string)
    ensures IsSlug(r)
  {
    var collapsed := CollapseDashes(Replaced(LowerCase(text)));
    SlugTrim(collapsed);
    TrimDashes(collapsed)
  }

  /** Trimming the end dashes of a dash-collapsed text leaves a slug. */
  lemma SlugTrim(s: string)
    requires SlugOrDashOnly(s) && NoDoubleDash(s)
    ensures IsSlug(TrimDashes(s))
  {
    var r := TrimDashes(s);
    var a := if |s| > 0 && s[0] == '-' then s[1..] else s;
    assert SlugOrDashOnly(a) && NoDoubleDash(a);
    if |r| > 0 {
      if |a| > 0 && a[|a| - 1] == '-' {
        assert r == a[..|a| - 1];
        if s[0] == '-' {
          assert a[0] == s[1];
        }
      } else {
        assert r == a;
      }
    }
  }

  /** Lower-casing leaves slug characters and dashes alone. */
  lemma {:induction false} LowerCaseOfSlug(s: string)
    requires SlugOrDashOnly(s)
    ensures LowerCase(s) == s
  {
    if |s| > 0 {
      LowerCaseOfSlug(s[1..]);
      assert [s[0]] + s[1..] == s;
    }
  }

  /** Collapsing changes nothing when there is no double dash. */
  lemma {:induction false} CollapseWithoutDoubleDash(s: string)
    requires NoDoubleDash(s)
    ensures CollapseDashes(s) == s
  {
    if |s| > 0 {
      CollapseWithoutDoubleDash(s[1..]);
      assert [s[0]] + s[1..] == s;
    }
  }

  /** Applying `formatFileName` to its own result changes nothing. */
  lemma FormatFileNameIdempotent(text: string)
    ensures FormatFileName(FormatFileName(text)) == FormatFileName(text)
  {
    FormatFileNameOfSlug(FormatFileName(text));
  }

  /** A slug is its own `formatFileName`. */
  lemma FormatFileNameOfSlug(s: string)
    requires IsSlug(s)
    ensures FormatFileName(s) == s
  {
    LowerCaseOfSlug(s);
    ReplacedOfSlug(s);
    CollapseWithoutDoubleDash(s);
    assert TrimDashes(s) == s;
  }

  /** The replacements leave slug characters and dashes alone. */
  lemma ReplacedOfSlug(s: string)
    requires SlugOrDashOnly(s)
    ensures Replaced(s) == s
  {
    forall i | 0 <= i < |s| ensures Replaced(s)[i] == s[i] {
      assert Deaccent(s[i]) == s[i];
    }
  }

  // ---------------------------------------------------------------- createProgressBar

  const BarLength: nat := 20

  /** `c.repeat(n)`. */
  function Repeat(c: char, n: nat): (r: string)
    ensures |r| == n && forall i :: 0 <= i < n ==> r[i] == c
  {
    seq(n, _ => c)
  }

  /** `Math.round(20 * (p / 100))` for a whole percentage `p`. */
  function FilledCells(p: int): int {
    (2 * p + 5) / 10
  }

  /**
   * `createProgressBar(p)` for a whole percentage: twenty cells between
   * brackets, the first `FilledCells(p)` of them full, then the percentage.
   * `None` is the `RangeError` that `repeat` throws when a count is negative.
   */
  function ProgressBar(p: int): (r: Option<string>)
    ensures r.Some? <==> -2 <= p <= 102
    ensures r.Some? ==> |r.value| == 24 + |IntToString(p)|
    ensures r.Some? ==> r.value[0] == '[' && r.value[BarLength + 1..] == "] " + IntToString(p) + "%"
    ensures r.Some? ==> forall i :: 1 <= i <= BarLength ==> r.value[i] == (if i <= FilledCells(p) then '█' else '▒')
  {
    var filled := FilledCells(p);
    var empty := BarLength - filled;
    if filled < 0 || empty < 0 then None
    else Some("[" + Repeat('█', filled) + Repeat('▒', empty) + "] " + IntToString(p) + "%")
  }

  /** The bar never empties as the percentage grows, starts empty and ends full. */
  lemma ProgressBarMonotone(p: int, q: int)
    requires -2 <= p <= q <= 102
    ensures FilledCells(p) <= FilledCells(q)
    ensures FilledCells(0) == 0 && FilledCells(100) == BarLength
  {
  }

  // ---------------------------------------------------------------- isUserAllowed

  /** `isUserAllowed(id)`: everyone when the list is empty, otherwise exactly its members. */
  function IsUserAllowed(userId: int, allowedUsers: seq<int>): bool
  {
    |allowedUsers| == 0 || userId in allowedUsers
  }

  // ---------------------------------------------------------------- caption recovery

  /** `.replace(/^masked_/, "")`. */
  function StripMaskedPrefix(s: string): string {
    if |s| >= 7 && s[..7] == "masked_" then s[7..] else s
  }

  /** Length of the longest suffix of `s` made of decimal digits. */
  function TrailingDigits(s: string): (k: nat)
    ensures k <= |s| && AllDigits(s[|s| - k..])
    ensures k < |s| ==> !IsDigit(s[|s| - k - 1])
  {
    if |s| == 0 || !IsDigit(s[|s| - 1]) then 0
    else
      var k := 1 + TrailingDigits(s[..|s| - 1]);
      assert s[|s| - k..] == s[..|s| - 1][|s| - k..] + [s[|s| - 1]];
      k
  }

  /** `.replace(/_\d+\.mp4$/, "")`: drops an underscore, digits and `.mp4` at the end. */
  function StripStampSuffix(s: string): string {
    if |s| >= 4 && s[|s| - 4..] == ".mp4" then
      var body := s[..|s| - 4];
      var k := TrailingDigits(body);
      if 0 < k < |body| && body[|body| - k - 1] == '_' then body[..|body| - k - 1] else s
    else s
  }

  /** `.replace(/-/g, " ")`: every dash becomes a space and every other character stays. */
  function DashesToSpaces(s: string): (r: string)
    ensures |r| == |s| && '-' !in r
    ensures forall i :: 0 <= i < |s| && s[i] == '-' ==> r[i] == ' '
    ensures forall i :: 0 <= i < |s| && s[i] != '-' ==> r[i] == s[i]
  {
    seq(|s|, i requires 0 <= i < |s| => if s[i] == '-' then ' ' else s[i])
  }

  /** The caption the `select:` handler recovers from a catalogued video's title. */
  function RecoverCaption(title: string): (r: string)
    ensures '-' !in r && |r| <= |title|
  {
    DashesToSpaces(StripStampSuffix(StripMaskedPrefix(title)))
  }

  /** A saved file name around its middle part `x`: `masked_<x>_<stamp>.mp4`. */
  function SavedName(x: string, stamp: nat): string {
    "masked_" + x + "_" + NatToString(stamp) + ".mp4"
  }

  /** The file name a composited video is saved under: `masked_<source>_<slug>_<stamp>.mp4`. */
  function MaskedFileName(source: string, text: string, stamp: nat): string {
    SavedName(source + "_" + FormatFileName(text), stamp)
  }

  /**
   * On a name of the shape the bot saves files under, the recovery drops
   * exactly the `masked_` prefix and the `_<stamp>.mp4` suffix.
   */
  lemma {:induction false} RecoverFromSavedName(x: string, stamp: nat)
    ensures RecoverCaption(SavedName(x, stamp)) == DashesToSpaces(x)
  {
    var d := NatToString(stamp);
    var s := SavedName(x, stamp);
    assert s[..7] == "masked_";
    var t := x + "_" + d + ".mp4";
    assert StripMaskedPrefix(s) == t by { assert s[7..] == t; }
    assert t[|t| - 4..] == ".mp4";
    var body := t[..|t| - 4];
    assert body == x + "_" + d;
    TrailingDigitsOf(x + "_", d);
    assert body[|body| - |d| - 1] == '_';
    assert body[..|body| - |d| - 1] == x;
  }

  /** The trailing digit run of a text that ends in `_` followed by digits is those digits. */
  lemma {:induction false} TrailingDigitsOf(a: string, d: string)
    requires |a| > 0 && a[|a| - 1] == '_'
    requires AllDigits(d)
    ensures TrailingDigits(a + d) == |d|
  {
    if |d| > 0 {
      assert (a + d)[..|a + d| - 1] == a + d[..|d| - 1];
      TrailingDigitsOf(a, d[..|d| - 1]);
    } else {
      assert a + d == a;
    }
  }

  /**
   * What the recovery gives on the saved file name of a video: the source
   * kind and the slug, dashes turned into spaces.
   */
  lemma RecoverFromMaskedFileName(source: string, text: string, stamp: nat)
    ensures RecoverCaption(MaskedFileName(source, text, stamp)) == DashesToSpaces(source + "_" + FormatFileName(text))
  {
    RecoverFromSavedName(source + "_" + FormatFileName(text), stamp);
  }

  /** A title that neither starts with `masked_` nor ends in `.mp4` only has its dashes turned into spaces. */
  lemma RecoverPlainTitle(title: string)
    requires !(|title| >= 7 && title[..7] == "masked_")
    requires !(|title| >= 4 && title[|title| - 4..] == ".mp4")
    ensures RecoverCaption(title) == DashesToSpaces(title)
  {
  }
}
