/** The handful of Python `str` operations the task manager relies on:
    `strip`, `split('\n')`, `'\n'.join`, `lower`, `in`, `startswith`,
    string ordering, and the decimal text of integers. */
module Strings {
  import opened Wrappers

  // ---------------------------------------------------------------------
  // Whitespace and strip
  // ---------------------------------------------------------------------

  /** The characters Python's `str.isspace` accepts (and `str.strip` removes). */
  predicate IsSpace(c: char) {
    var n := c as int;
    (9 <= n <= 13) || (28 <= n <= 32) || n == 0x85 || n == 0xA0 || n == 0x1680
    || (0x2000 <= n <= 0x200A) || n == 0x2028 || n == 0x2029 || n == 0x202F
    || n == 0x205F || n == 0x3000
  }

  predicate AllSpace(s: string) {
    forall i :: 0 <= i < |s| ==> IsSpace(s[i])
  }

  /** `s.lstrip()`: drops the leading whitespace and nothing else. */
  function LStrip(s: string): (r: string)
    ensures |r| <= |s| && r == s[|s| - |r|..]
    ensures r == [] || !IsSpace(r[0])
    ensures AllSpace(s[..|s| - |r|])
    decreases |s|
  {
    if s != [] && IsSpace(s[0]) then LStrip(s[1..]) else s
  }

  /** `s.rstrip()`: drops the trailing whitespace and nothing else. */
  function RStrip(s: string): (r: string)
    ensures |r| <= |s| && r == s[..|r|]
    ensures r == [] || !IsSpace(r[|r| - 1])
    ensures AllSpace(s[|r|..])
    decreases |s|
  {
    if s != [] && IsSpace(s[|s| - 1]) then RStrip(s[..|s| - 1]) else s
  }

  /** `s.strip()`. */
  function Strip(s: string): string {
    LStrip(RStrip(s))
  }

  /** Right-stripping twice is right-stripping once. */
  lemma RStripIdempotent(s: string)
    ensures RStrip(RStrip(s)) == RStrip(s)
  {
    var r := RStrip(s);
    if r != [] {
      assert !IsSpace(r[|r| - 1]);
    }
  }

  /** A string that starts with a non-space character is its own left strip. */
  lemma LStripNonSpace(s: string)
    requires s != [] && !IsSpace(s[0])
    ensures LStrip(s) == s
  {
  }

  /** Stripping twice is stripping once. */
  lemma StripIdempotent(s: string)
    ensures Strip(Strip(s)) == Strip(s)
  {
    var t := Strip(s);
    if t != [] {
      var r := RStrip(s);
      assert t == r[|r| - |t|..];
      assert !IsSpace(t[|t| - 1]);
      assert RStrip(t) == t;
      LStripNonSpace(t);
    }
  }

  /** A stripped string ends in a non-space character, if it has any. */
  lemma StripEndsInNonSpace(s: string)
    ensures Strip(s) == [] || !IsSpace(Strip(s)[|Strip(s)| - 1])
  {
    var t := Strip(s);
    if t != [] {
      var r := RStrip(s);
      assert t == r[|r| - |t|..];
    }
  }

  /** Right-stripping `p + a` only touches `a` when `a` holds a non-space
      character, and strips `a` away entirely otherwise. */
  lemma {:induction false} RStripAppend(p: string, a: string)
    ensures !AllSpace(a) ==> RStrip(p + a) == p + RStrip(a)
    ensures AllSpace(a) ==> RStrip(p + a) == RStrip(p) && RStrip(a) == []
    decreases |a|
  {
    if a == [] {
      assert p + a == p;
    } else {
      var a' := a[..|a| - 1];
      assert (p + a)[..|p + a| - 1] == p + a';
      assert (p + a)[|p + a| - 1] == a[|a| - 1];
      RStripAppend(p, a');
      if IsSpace(a[|a| - 1]) {
        assert AllSpace(a) <==> AllSpace(a') by {
          if AllSpace(a') {
            forall i | 0 <= i < |a| ensures IsSpace(a[i]) {
              if i < |a'| { assert a[i] == a'[i]; }
            }
          }
          if AllSpace(a) {
            forall i | 0 <= i < |a'| ensures IsSpace(a'[i]) { assert a'[i] == a[i]; }
          }
        }
      }
    }
  }

  // ---------------------------------------------------------------------
  // split and join on one separator character
  // ---------------------------------------------------------------------

  /** `s.split(sep)` for a one-character separator: the pieces between
      separators, always at least one (`"".split("\n") == [""]`). */
  function Split(s: string, sep: char): (r: seq<string>)
    ensures |r| >= 1
    ensures forall i :: 0 <= i < |r| ==> sep !in r[i]
    decreases |s|
  {
    if s == [] then [""]
    else if s[0] == sep then [""] + Split(s[1..], sep)
    else
      var rest := Split(s[1..], sep);
      [[s[0]] + rest[0]] + rest[1..]
  }

  /** `sep.join(xs)`. */
  function Join(xs: seq<string>, sep: char): string
    decreases |xs|
  {
    if |xs| == 0 then ""
    else if |xs| == 1 then xs[0]
    else Join(xs[..|xs| - 1], sep) + [sep] + xs[|xs| - 1]
  }

  /** A string without the separator splits into itself. */
  lemma {:induction false} SplitWithoutSeparator(s: string, sep: char)
    requires sep !in s
    ensures Split(s, sep) == [s]
    decreases |s|
  {
    if s != [] {
      SplitWithoutSeparator(s[1..], sep);
      assert [s[0]] + s[1..] == s;
    }
  }

  /** Splitting at one separator splits each side independently. */
  lemma {:induction false} SplitAppend(a: string, b: string, sep: char)
    ensures Split(a + [sep] + b, sep) == Split(a, sep) + Split(b, sep)
    decreases |a|
  {
    if a == [] {
      assert a + [sep] + b == [sep] + b;
      assert ([sep] + b)[1..] == b;
    } else {
      var a' := a[1..];
      assert (a + [sep] + b)[0] == a[0];
      assert (a + [sep] + b)[1..] == a' + [sep] + b;
      SplitAppend(a', b, sep);
    }
  }

  /** Round trip: splitting a join gives back the pieces, provided no piece
      holds the separator. */
  lemma {:induction false} SplitJoin(xs: seq<string>, sep: char)
    requires |xs| >= 1
    requires forall i :: 0 <= i < |xs| ==> sep !in xs[i]
    ensures Split(Join(xs, sep), sep) == xs
    decreases |xs|
  {
    if |xs| == 1 {
      SplitWithoutSeparator(xs[0], sep);
    } else {
      var init := xs[..|xs| - 1];
      SplitJoin(init, sep);
      SplitAppend(Join(init, sep), xs[|xs| - 1], sep);
      SplitWithoutSeparator(xs[|xs| - 1], sep);
      assert init + [xs[|xs| - 1]] == xs;
    }
  }

  /** Lines accumulated with `text += line + "\n"`, in order. */
  function Unlines(ls: seq<string>): string
    decreases |ls|
  {
    if ls == [] then "" else Unlines(ls[..|ls| - 1]) + ls[|ls| - 1] + "\n"
  }

  /** A header line followed by newline-terminated lines is the newline-join
      of the header, the lines and a final empty piece. */
  lemma {:induction false} UnlinesAsJoin(h: string, ls: seq<string>)
    ensures h + "\n" + Unlines(ls) == Join([h] + ls + [""], '\n')
    decreases |ls|
  {
    if ls == [] {
      assert [h] + ls + [""] == [h, ""];
    } else {
      var init := ls[..|ls| - 1];
      var last := ls[|ls| - 1];
      UnlinesAsJoin(h, init);
      var xs := [h] + ls + [""];
      var ys := [h] + init + [last];
      var zs := [h] + init + [""];
      assert ls == init + [last];
      assert xs[..|xs| - 1] == ys && xs[|xs| - 1] == "";
      assert ys[..|ys| - 1] == [h] + init && ys[|ys| - 1] == last;
      assert zs[..|zs| - 1] == [h] + init && zs[|zs| - 1] == "";
      calc {
        Join(xs, '\n');
        Join(ys, '\n') + "\n" + "";
        Join([h] + init, '\n') + "\n" + last + "\n";
        (Join([h] + init, '\n') + "\n" + "") + last + "\n";
        Join(zs, '\n') + last + "\n";
        h + "\n" + Unlines(init) + last + "\n";
        h + "\n" + Unlines(ls);
      }
    }
  }

  // ---------------------------------------------------------------------
  // Prefixes, search, lower case
  // ---------------------------------------------------------------------

  /** `s.startswith(p)`. */
  predicate StartsWith(s: string, p: string) {
    |p| <= |s| && s[..|p|] == p
  }

  /** `needle` occurs in `hay` starting at position `i`. */
  predicate OccursAt(needle: string, hay: string, i: int) {
    0 <= i <= |hay| - |needle| && hay[i..i + |needle|] == needle
  }

  /** `needle in hay` for strings. */
  predicate IsSubstring(needle: string, hay: string) {
    exists i :: 0 <= i <= |hay| - |needle| && OccursAt(needle, hay, i)
  }

  /** The position of the first `c` in `s`, if any (`s.find(c)`). */
  function IndexOf(s: string, c: char): (r: Option<nat>)
    ensures r.None? <==> c !in s
    ensures r.Some? ==> r.value < |s| && s[r.value] == c && c !in s[..r.value]
    decreases |s|
  {
    if s == [] then None
    else if s[0] == c then Some(0)
    else match IndexOf(s[1..], c)
      case None => None
      case Some(k) => assert s[..k + 1] == [s[0]] + s[1..][..k]; Some(k + 1)
  }

  /** `c.lower()` for ASCII and Latin-1 letters: `A`-`Z` and `À`-`Þ` (but not
      the multiplication sign) move down by 32 code points. */
  function LowerChar(c: char): char {
    var n := c as int;
    if (65 <= n <= 90) || (0xC0 <= n <= 0xDE && n != 0xD7) then (n + 32) as char else c
  }

  /** `s.lower()`, character by character. */
  function Lower(s: string): (r: string)
    ensures |r| == |s|
    ensures forall i :: 0 <= i < |s| ==> r[i] == LowerChar(s[i])
  {
    seq(|s|, i requires 0 <= i < |s| => LowerChar(s[i]))
  }

  /** Lower-casing a lower-cased string changes nothing. */
  lemma LowerIdempotent(s: string)
    ensures Lower(Lower(s)) == Lower(s)
  {
  }

  // ---------------------------------------------------------------------
  // String order (Python's `<=` on `str`: code point by code point)
  // ---------------------------------------------------------------------

  predicate StrLe(a: string, b: string)
    decreases |a|
  {
    a == [] || (b != [] && (a[0] < b[0] || (a[0] == b[0] && StrLe(a[1..], b[1..]))))
  }

  lemma {:induction false} StrLeTotal(a: string, b: string)
    ensures StrLe(a, b) || StrLe(b, a)
    decreases |a|
  {
    if a != [] && b != [] && a[0] == b[0] {
      StrLeTotal(a[1..], b[1..]);
    }
  }

  lemma {:induction false} StrLeAntisymmetric(a: string, b: string)
    requires StrLe(a, b) && StrLe(b, a)
    ensures a == b
    decreases |a|
  {
    if a != [] {
      StrLeAntisymmetric(a[1..], b[1..]);
      assert a == [a[0]] + a[1..] && b == [b[0]] + b[1..];
    }
  }

  lemma {:induction false} StrLeTransitive(a: string, b: string, c: string)
    requires StrLe(a, b) && StrLe(b, c)
    ensures StrLe(a, c)
    decreases |a|
  {
    if a != [] && a[0] == b[0] && b[0] == c[0] {
      StrLeTransitive(a[1..], b[1..], c[1..]);
    }
  }

  // ---------------------------------------------------------------------
  // Decimal text of integers (`str(n)`, and SQLite's reading of digit text)
  // ---------------------------------------------------------------------

  predicate IsDigit(c: char) {
    '0' <= c <= '9'
  }

  predicate AllDigits(s: string) {
    forall i :: 0 <= i < |s| ==> IsDigit(s[i])
  }

  /** A non-empty run of decimal digits. */
  predicate IsDecimal(s: string) {
    |s| > 0 && AllDigits(s)
  }

  function DigitChar(d: nat): (c: char)
    requires d < 10
    ensures IsDigit(c)
  {
    ('0' as int + d) as char
  }

  /** The number a run of digits spells (leading zeros allowed). */
  function DecimalValue(s: string): nat
    requires AllDigits(s)
    decreases |s|
  {
    if s == [] then 0
    else DecimalValue(s[..|s| - 1]) * 10 + (s[|s| - 1] as int - '0' as int)
  }

  /** `str(n)` for a non-negative `n`. */
  function NatToDecimal(n: nat): (r: string)
    ensures IsDecimal(r)
    ensures n >= 10 ==> |r| >= 2
    decreases n
  {
    if n < 10 then [DigitChar(n)] else NatToDecimal(n / 10) + [DigitChar(n % 10)]
  }

  /** `str(n)` for any integer. */
  function IntToDecimal(n: int): string {
    if n < 0 then "-" + NatToDecimal(-n) else NatToDecimal(n)
  }

  /** Reading back the decimal text of `n` gives `n`. */
  lemma {:induction false} DecimalRoundTrip(n: nat)
    ensures DecimalValue(NatToDecimal(n)) == n
    decreases n
  {
    if n >= 10 {
      var s := NatToDecimal(n);
      assert s[..|s| - 1] == NatToDecimal(n / 10);
      DecimalRoundTrip(n / 10);
    }
  }

  /** Leading zeros do not change the value a run of digits spells. */
  lemma {:induction false} LeadingZero(s: string)
    requires AllDigits(s)
    ensures AllDigits("0" + s) && DecimalValue("0" + s) == DecimalValue(s)
    decreases |s|
  {
    if s != [] {
      var s' := s[..|s| - 1];
      assert ("0" + s)[..|"0" + s| - 1] == "0" + s';
      LeadingZero(s');
    }
  }

  /** `s` left-padded with `'0'` to at least `width` characters (`%04d`). */
  function ZeroPad(s: string, width: nat): (r: string)
    ensures |r| == if |s| >= width then |s| else width
    ensures AllDigits(s) ==> AllDigits(r) && DecimalValue(r) == DecimalValue(s)
    decreases width - |s|
  {
    if |s| >= width then s
    else
      var r := ZeroPad("0" + s, width);
      assert AllDigits(s) ==> AllDigits("0" + s) && DecimalValue("0" + s) == DecimalValue(s) by {
        if AllDigits(s) { LeadingZero(s); }
      }
      r
  }
}
