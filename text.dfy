/**
 * The pieces of Python's `str` behaviour the core relies on: whitespace, `strip`,
 * `split()`, `split(sep)`, `join`, `find`, `replace`, `lower`, and the decimal
 * rendering of integers used by f-strings.
 */
module Text {
  import opened Wrappers

  function Max(a: int, b: int): int { if a < b then b else a }

  function Min(a: int, b: int): int { if a < b then a else b }

  // ---------------------------------------------------------------- characters

  /** Python's `str.isspace()`, which is also what `strip()`, `split()` and the
      regular-expression class `\s` use. */
  predicate IsSpace(c: char) {
    || c == ' '
    || ('\t' <= c <= '\r')
    || ('\U{1C}' <= c <= '\U{1F}')
    || c == '\U{85}' || c == '\U{A0}' || c == '\U{1680}'
    || ('\U{2000}' <= c <= '\U{200A}')
    || c == '\U{2028}' || c == '\U{2029}' || c == '\U{202F}' || c == '\U{205F}' || c == '\U{3000}'
  }

  predicate IsDigit(c: char) { '0' <= c <= '9' }

  predicate IsAsciiLetter(c: char) { ('a' <= c <= 'z') || ('A' <= c <= 'Z') }

  /** The character class `[a-zA-Z0-9]`. */
  predicate IsAlnum(c: char) { IsAsciiLetter(c) || IsDigit(c) }

  /** The regular-expression class `\w`, restricted to ASCII. */
  predicate IsWordChar(c: char) { IsAlnum(c) || c == '_' }

  /** `str.lower()` on one character, restricted to ASCII. */
  function LowerChar(c: char): (r: char)
    ensures IsWordChar(r) == IsWordChar(c)
    ensures !('A' <= c <= 'Z') ==> r == c
  {
    if 'A' <= c <= 'Z' then (c as int + 32) as char else c
  }

  function Lower(s: string): (r: string)
    ensures |r| == |s|
  {
    seq(|s|, i requires 0 <= i < |s| => LowerChar(s[i]))
  }

  /** Case-insensitive equality, as the `re.IGNORECASE` flag compares ASCII text. */
  predicate EqualsIgnoreCase(a: string, b: string) { Lower(a) == Lower(b) }

  // ---------------------------------------------------------------- strip

  /** No character of `s` is not whitespace: `s.strip()` is falsy. */
  predicate IsBlank(s: string) { forall k :: 0 <= k < |s| ==> IsSpace(s[k]) }

  /** `s.lstrip()`. */
  function LStrip(s: string): string
    decreases |s|
  {
    if s != [] && IsSpace(s[0]) then LStrip(s[1..]) else s
  }

  /** `s.rstrip()`. */
  function RStrip(s: string): string
    decreases |s|
  {
    if s != [] && IsSpace(s[|s| - 1]) then RStrip(s[..|s| - 1]) else s
  }

  /** `s.strip()`. */
  function Strip(s: string): string { RStrip(LStrip(s)) }

  /** `s.lstrip()` is a suffix of `s`, only whitespace was removed, and it does not
      start with whitespace. */
  lemma {:induction false} LStripShape(s: string)
    ensures var r := LStrip(s);
      && |r| <= |s| && r == s[|s| - |r|..]
      && IsBlank(s[..|s| - |r|])
      && (r != [] ==> !IsSpace(r[0]))
    decreases |s|
  {
    if s != [] && IsSpace(s[0]) {
      var t := s[1..];
      LStripShape(t);
      var r := LStrip(t);
      assert LStrip(s) == r;
      assert t[|t| - |r|..] == s[|s| - |r|..];
      var removed := s[..|s| - |r|];
      forall k | 0 <= k < |removed| ensures IsSpace(removed[k]) {
        if k > 0 {
          assert removed[k] == t[..|t| - |r|][k - 1];
        }
      }
    }
  }

  /** `s.rstrip()` is a prefix of `s`, only whitespace was removed, and it does not
      end with whitespace. */
  lemma {:induction false} RStripShape(s: string)
    ensures var r := RStrip(s);
      && |r| <= |s| && r == s[..|r|]
      && IsBlank(s[|r|..])
      && (r != [] ==> !IsSpace(r[|r| - 1]))
    decreases |s|
  {
    if s != [] && IsSpace(s[|s| - 1]) {
      RStripShape(s[..|s| - 1]);
      var r := RStrip(s[..|s| - 1]);
      assert s[..|s| - 1][..|r|] == s[..|r|];
      assert s[|r|..] == s[..|s| - 1][|r|..] + [s[|s| - 1]];
    }
  }

  /** `s.strip()` is empty exactly when `s` is all whitespace. */
  lemma StripEmptyIffBlank(s: string)
    ensures Strip(s) == "" <==> IsBlank(s)
  {
    LStripShape(s);
    var l := LStrip(s);
    RStripShape(l);
    if Strip(s) == "" {
      assert IsBlank(l[0..]);
      assert s == s[..|s| - |l|] + l;
    }
  }

  /** `s.strip()` is a slice of `s` with whitespace at neither end, and only whitespace
      was removed around it. */
  lemma StripShape(s: string)
    ensures var r := Strip(s);
      && (r != [] ==> !IsSpace(r[0]) && !IsSpace(r[|r| - 1]))
      && exists i :: 0 <= i <= |s| - |r| && r == s[i..i + |r|] && IsBlank(s[..i]) && IsBlank(s[i + |r|..])
  {
    LStripShape(s);
    var l := LStrip(s);
    RStripShape(l);
    var r := RStrip(l);
    var i := |s| - |l|;
    assert r == s[i..i + |r|];
    assert s[i + |r|..] == l[|r|..];
  }

  /** Stripping twice is stripping once. */
  lemma StripIdempotent(s: string)
    ensures Strip(Strip(s)) == Strip(s)
  {
    StripShape(s);
    var r := Strip(s);
    if r != [] {
      assert LStrip(r) == r;
      assert RStrip(r) == r;
    }
  }

  /** `s.lstrip(chars)`: drop leading characters that belong to `chars`. */
  function LStripChars(s: string, chars: set<char>): (r: string)
    ensures |r| <= |s| && r == s[|s| - |r|..]
    ensures r != [] ==> r[0] !in chars
    ensures forall k :: 0 <= k < |s| - |r| ==> s[k] in chars
    decreases |s|
  {
    if s != [] && s[0] in chars then LStripChars(s[1..], chars) else s
  }

  // ---------------------------------------------------------------- split()

  /** A maximal run of non-whitespace characters, one item of `s.split()`. */
  predicate IsWord(w: string) { w != [] && forall k :: 0 <= k < |w| ==> !IsSpace(w[k]) }

  /** Length of the run of non-whitespace characters at the start of `s`. */
  function WordEnd(s: string): (n: nat)
    ensures n <= |s|
    ensures forall k :: 0 <= k < n ==> !IsSpace(s[k])
    ensures n < |s| ==> IsSpace(s[n])
    decreases |s|
  {
    if s == [] || IsSpace(s[0]) then 0 else 1 + WordEnd(s[1..])
  }

  /** `s.split()` with no argument. */
  function Split(s: string): (r: seq<string>)
    ensures forall k :: 0 <= k < |r| ==> IsWord(r[k])
    decreases |s|
  {
    if s == [] then []
    else if IsSpace(s[0]) then Split(s[1..])
    else
      var n := WordEnd(s);
      [s[..n]] + Split(s[n..])
  }

  /** `len(s.split())`. */
  function WordCount(s: string): nat { |Split(s)| }

  /** A text has no words exactly when it is blank. */
  lemma {:induction false} WordCountZeroIffBlank(s: string)
    ensures WordCount(s) == 0 <==> IsBlank(s)
    decreases |s|
  {
    if s != [] && IsSpace(s[0]) {
      WordCountZeroIffBlank(s[1..]);
      assert IsBlank(s) <==> IsBlank(s[1..]) by {
        if IsBlank(s[1..]) {
          forall k | 0 <= k < |s| ensures IsSpace(s[k]) {
            if k > 0 { assert s[k] == s[1..][k - 1]; }
          }
        }
      }
    }
  }

  // ---------------------------------------------------------------- join and split(sep)

  /** `sep.join(parts)`. */
  function Join(sep: string, parts: seq<string>): string
    decreases |parts|
  {
    if |parts| == 0 then ""
    else if |parts| == 1 then parts[0]
    else parts[0] + sep + Join(sep, parts[1..])
  }

  /** Joining one more part appends the separator and that part. */
  lemma {:induction false} JoinSnoc(sep: string, parts: seq<string>, p: string)
    requires parts != []
    ensures Join(sep, parts + [p]) == Join(sep, parts) + sep + p
    decreases |parts|
  {
    if |parts| > 1 {
      assert (parts + [p])[1..] == parts[1..] + [p];
      JoinSnoc(sep, parts[1..], p);
    }
  }

  /** `s.split(c)` for a one-character separator. */
  function SplitChar(s: string, c: char): (r: seq<string>)
    ensures |r| >= 1
    decreases |s|
  {
    if s == [] then [""]
    else
      var rest := SplitChar(s[1..], c);
      if s[0] == c then [""] + rest else [[s[0]] + rest[0]] + rest[1..]
  }

  /** No part of `s.split(c)` contains `c`. */
  lemma {:induction false} SplitCharParts(s: string, c: char)
    ensures forall k :: 0 <= k < |SplitChar(s, c)| ==> c !in SplitChar(s, c)[k]
    decreases |s|
  {
    if s != [] {
      var rest := SplitChar(s[1..], c);
      SplitCharParts(s[1..], c);
      if s[0] != c {
        assert c !in [s[0]] + rest[0];
      }
    }
  }

  /** Splitting on a character and joining with it gives the text back. */
  lemma {:induction false} JoinSplitChar(s: string, c: char)
    ensures Join([c], SplitChar(s, c)) == s
    decreases |s|
  {
    if s != [] {
      var rest := SplitChar(s[1..], c);
      JoinSplitChar(s[1..], c);
      if s[0] == c {
        assert ([""] + rest)[1..] == rest;
      } else if |rest| > 1 {
        var parts := [[s[0]] + rest[0]] + rest[1..];
        assert parts[1..] == rest[1..];
      }
    }
  }

  // ---------------------------------------------------------------- searching

  predicate StartsWith(s: string, prefix: string) { |prefix| <= |s| && s[..|prefix|] == prefix }

  /** `s.endswith(suffix)`. */
  predicate EndsWith(s: string, suffix: string) { |suffix| <= |s| && s[|s| - |suffix|..] == suffix }

  /** A concatenation starts with its first part and ends with its second. */
  lemma StartsWithConcat(a: string, b: string)
    ensures StartsWith(a + b, a) && EndsWith(a + b, b)
  {
    assert (a + b)[..|a|] == a;
    assert (a + b)[|a + b| - |b|..] == b;
  }

  /** What follows a prefix `a` in a prefix `a + b` occurs right after `a`. */
  lemma OccursAfterPrefix(s: string, a: string, b: string)
    requires StartsWith(s, a + b)
    ensures OccursAt(s, b, |a|)
  {
    assert s[|a|..|a| + |b|] == s[..|a + b|][|a|..];
  }

  /** A prefix of a prefix is a prefix. */
  /** A text that starts with another keeps doing so with more text added. */
  lemma StartsWithExtend(s: string, prefix: string, more: string)
    requires StartsWith(s, prefix)
    ensures StartsWith(s + more, prefix)
  {
    assert (s + more)[..|prefix|] == s[..|prefix|];
  }

  /** A text that starts with `base`, and after it with `p`, starts with `base + p`; the
      character after that is the one after `p` in the remainder. */
  lemma StartsWithAfter(s: string, base: string, p: string)
    requires StartsWith(s, base) && StartsWith(s[|base|..], p)
    ensures StartsWith(s, base + p)
    ensures |base + p| < |s| ==> s[|base + p|] == s[|base|..][|p|]
  {
    assert s[..|base + p|] == s[..|base|] + s[|base|..][..|p|];
  }

  lemma StartsWithTrans(s: string, a: string, b: string)
    requires StartsWith(s, a) && StartsWith(a, b)
    ensures StartsWith(s, b)
  {
    assert s[..|b|] == s[..|a|][..|b|];
  }

  /** `sub` occurs in `s` at index `j`. */
  predicate OccursAt(s: string, sub: string, j: int) {
    0 <= j && j + |sub| <= |s| && s[j..j + |sub|] == sub
  }

  /** `s.find(sub, from)`: the first index at or after `from` where `sub` occurs. */
  function FindFrom(s: string, sub: string, from: nat): (r: Option<nat>)
    ensures r.Some? ==> from <= r.value && OccursAt(s, sub, r.value)
    ensures r.Some? ==> forall j :: from <= j < r.value ==> !OccursAt(s, sub, j)
    ensures r.None? ==> forall j :: from <= j ==> !OccursAt(s, sub, j)
    decreases |s| - from
  {
    if from + |sub| > |s| then None
    else if s[from..from + |sub|] == sub then Some(from)
    else FindFrom(s, sub, from + 1)
  }

  /** `s.find(sub)`, `None` standing for -1. */
  function Find(s: string, sub: string): Option<nat> { FindFrom(s, sub, 0) }

  /** `sub in s`. */
  predicate Contains(s: string, sub: string) { Find(s, sub).Some? }

  /** `s.split(sep)[0]`: the text before the first `sep`. */
  function Before(s: string, sep: string): string {
    match Find(s, sep)
    case Some(k) => s[..k]
    case None => s
  }

  /** The text after the first `sep`, the remainder `s.split(sep, 1)[1]`. */
  function After(s: string, sep: string): string
    requires Contains(s, sep)
  {
    var k := Find(s, sep).value;
    s[k + |sep|..]
  }

  /** The first piece of a split on `sep` never contains `sep`, and the text is that
      piece, the separator and the rest. */
  lemma BeforeAfter(s: string, sep: string)
    requires sep != []
    ensures !Contains(Before(s, sep), sep)
    ensures Contains(s, sep) ==> s == Before(s, sep) + sep + After(s, sep)
    ensures !Contains(s, sep) ==> Before(s, sep) == s
  {
    var b := Before(s, sep);
    match Find(s, sep)
    case None =>
    case Some(k) =>
      if Contains(b, sep) {
        var j := Find(b, sep).value;
        assert b[j..j + |sep|] == s[j..j + |sep|];
        assert OccursAt(s, sep, j);
        assert false;
      }
      assert s == s[..k] + s[k..k + |sep|] + s[k + |sep|..];
  }

  /** `s.split(sep)` for a non-empty separator. */
  function SplitOn(s: string, sep: string): (r: seq<string>)
    requires sep != []
    ensures |r| >= 1
    decreases |s|
  {
    if Contains(s, sep) then [Before(s, sep)] + SplitOn(After(s, sep), sep) else [s]
  }

  /** The first two items of `s.split(sep)`: the text before the first `sep`, and the
      text between the first and the second. */
  lemma SplitOnFirstTwo(s: string, sep: string)
    requires sep != []
    ensures SplitOn(s, sep)[0] == Before(s, sep)
    ensures Contains(s, sep) <==> |SplitOn(s, sep)| >= 2
    ensures Contains(s, sep) ==> SplitOn(s, sep)[1] == Before(After(s, sep), sep)
  {
    BeforeAfter(s, sep);
    if Contains(s, sep) {
      BeforeAfter(After(s, sep), sep);
    }
  }

  /** Joining the pieces with the separator gives the text back. */
  lemma {:induction false} JoinSplitOn(s: string, sep: string)
    requires sep != []
    ensures Join(sep, SplitOn(s, sep)) == s
    decreases |s|
  {
    if Contains(s, sep) {
      var a := After(s, sep);
      BeforeAfter(s, sep);
      JoinSplitOn(a, sep);
      assert SplitOn(s, sep)[1..] == SplitOn(a, sep);
    }
  }

  /** A slice of a text that lacks `sep` lacks it too. */
  lemma ContainsSlice(s: string, sep: string, i: nat, j: nat)
    requires i <= j <= |s|
    requires Contains(s[i..j], sep)
    ensures Contains(s, sep)
  {
    var k := Find(s[i..j], sep).value;
    assert OccursAt(s[i..j], sep, k);
    assert s[i..j][k..k + |sep|] == s[i + k..i + k + |sep|];
    assert OccursAt(s, sep, i + k);
  }

  /** Stripping a text that lacks `sep` leaves a text that lacks it. */
  lemma StripLacks(s: string, sep: string)
    requires !Contains(s, sep)
    ensures !Contains(Strip(s), sep)
  {
    StripIsSlice(s);
    var i := |s| - |LStrip(s)|;
    if Contains(Strip(s), sep) { ContainsSlice(s, sep, i, i + |Strip(s)|); }
  }

  /** `s.strip()` is the slice of `s` that starts where `s.lstrip()` does. */
  lemma StripIsSlice(s: string)
    ensures var i := |s| - |LStrip(s)|;
      0 <= i <= i + |Strip(s)| <= |s| && Strip(s) == s[i..i + |Strip(s)|]
  {
    LStripShape(s);
    RStripShape(LStrip(s));
  }

  // ---------------------------------------------------------------- replace

  /** `s.replace(c, by)` for a one-character `c`. */
  function ReplaceChar(s: string, c: char, with: string): string
    decreases |s|
  {
    if s == [] then []
    else ReplaceChar(s[..|s| - 1], c, with) + (if s[|s| - 1] == c then with else [s[|s| - 1]])
  }

  /** Every character of the result comes from `s` or from `with`, and none is `c` unless
      `with` holds it. */
  lemma {:induction false} ReplaceCharMembers(s: string, c: char, with: string, x: char)
    requires x in ReplaceChar(s, c, with)
    ensures x in s || x in with
    ensures x == c ==> c in with
    decreases |s|
  {
    var init := s[..|s| - 1];
    var last := if s[|s| - 1] == c then with else [s[|s| - 1]];
    assert ReplaceChar(s, c, with) == ReplaceChar(init, c, with) + last;
    if x in ReplaceChar(init, c, with) {
      ReplaceCharMembers(init, c, with, x);
      assert x in s || x in with by {
        if x in init { var k :| 0 <= k < |init| && init[k] == x; assert s[k] == x; }
      }
    }
  }

  /** Replacing characters works piece by piece. */
  lemma {:induction false} ReplaceCharConcat(a: string, b: string, c: char, with: string)
    ensures ReplaceChar(a + b, c, with) == ReplaceChar(a, c, with) + ReplaceChar(b, c, with)
    decreases |b|
  {
    if b == [] {
      assert a + b == a;
    } else {
      var b' := b[..|b| - 1];
      assert (a + b)[..|a + b| - 1] == a + b';
      assert (a + b)[|a + b| - 1] == b[|b| - 1];
      ReplaceCharConcat(a, b', c, with);
    }
  }

  /** `s.count(c)` for a one-character `c`. */
  function CountChar(s: string, c: char): nat
    decreases |s|
  {
    if s == [] then 0 else CountChar(s[..|s| - 1], c) + (if s[|s| - 1] == c then 1 else 0)
  }

  /** Each replaced character turns into `with`; the others stay one character each. */
  lemma {:induction false} ReplaceCharLength(s: string, c: char, with: string)
    ensures |ReplaceChar(s, c, with)| == |s| - CountChar(s, c) + CountChar(s, c) * |with|
    decreases |s|
  {
    if s != [] {
      var init := s[..|s| - 1];
      var n := CountChar(init, c);
      ReplaceCharLength(init, c, with);
      assert ReplaceChar(s, c, with) == ReplaceChar(init, c, with) + (if s[|s| - 1] == c then with else [s[|s| - 1]]);
      assert (n + 1) * |with| == n * |with| + |with|;
    }
  }

  /** Replacing `c` by a text without `d` keeps the number of `d`s, for `d` other than `c`. */
  lemma {:induction false} ReplaceCharKeepsCount(s: string, c: char, with: string, d: char)
    requires d != c && d !in with
    ensures CountChar(ReplaceChar(s, c, with), d) == CountChar(s, d)
    decreases |s|
  {
    if s != [] {
      var init := s[..|s| - 1];
      var last := if s[|s| - 1] == c then with else [s[|s| - 1]];
      ReplaceCharKeepsCount(init, c, with, d);
      CountCharConcat(ReplaceChar(init, c, with), last, d);
      if s[|s| - 1] == c { CountCharAbsent(with, d); }
      else { assert last[..0] == []; }
    }
  }

  lemma {:induction false} CountCharConcat(a: string, b: string, d: char)
    ensures CountChar(a + b, d) == CountChar(a, d) + CountChar(b, d)
    decreases |b|
  {
    if b == [] {
      assert a + b == a;
    } else {
      assert (a + b)[..|a + b| - 1] == a + b[..|b| - 1];
      CountCharConcat(a, b[..|b| - 1], d);
    }
  }

  lemma {:induction false} CountCharAbsent(s: string, d: char)
    requires d !in s
    ensures CountChar(s, d) == 0
    decreases |s|
  {
    if s != [] { CountCharAbsent(s[..|s| - 1], d); }
  }

  /** Lower-casing keeps the number of every character that is not an ASCII letter. */
  lemma {:induction false} LowerKeepsCount(s: string, d: char)
    requires !('A' <= d <= 'Z') && !('a' <= d <= 'z')
    ensures CountChar(Lower(s), d) == CountChar(s, d)
    decreases |s|
  {
    if s != [] {
      var init := s[..|s| - 1];
      assert Lower(s)[..|s| - 1] == Lower(init);
      LowerKeepsCount(init, d);
    }
  }

  /** A lower-cased text holds no ASCII capital. */
  lemma LowerHasNoCapital(s: string, x: char)
    requires 'A' <= x <= 'Z'
    ensures x !in Lower(s)
  {
    forall k | 0 <= k < |s| ensures Lower(s)[k] != x { }
  }

  // ---------------------------------------------------------------- integers

  function DigitChar(d: nat): (c: char)
    requires d < 10
    ensures IsDigit(c)
  {
    ('0' as int + d) as char
  }

  predicate AllDigits(s: string) { forall k :: 0 <= k < |s| ==> IsDigit(s[k]) }

  /** `str(n)` for a natural number: decimal digits, no leading zero. */
  function NatToString(n: nat): (r: string)
    ensures |r| >= 1 && AllDigits(r)
    ensures (r[0] == '0') == (n == 0)
  {
    if n < 10 then [DigitChar(n)] else NatToString(n / 10) + [DigitChar(n % 10)]
  }

  /** `str(n)` for any integer (also what `f"{n}"` and `f"{n:.0f}"` give for integral `n`). */
  function IntToString(n: int): string {
    if n < 0 then "-" + NatToString(-n) else NatToString(n)
  }

  /** The number a string of decimal digits denotes. */
  function DigitsValue(s: string): nat
    requires AllDigits(s)
  {
    if s == [] then 0 else DigitsValue(s[..|s| - 1]) * 10 + (s[|s| - 1] as int - '0' as int)
  }

  /** Reading back the decimal rendering gives the number. */
  lemma {:induction false} NatToStringRoundTrip(n: nat)
    ensures DigitsValue(NatToString(n)) == n
  {
    if n >= 10 {
      NatToStringRoundTrip(n / 10);
      var r := NatToString(n);
      assert r[..|r| - 1] == NatToString(n / 10);
    }
  }

  /** `f"{n:02d}"`: at least two characters, zero-padded after any sign. */
  function Pad2(n: int): string {
    if 0 <= n < 10 then "0" + NatToString(n) else IntToString(n)
  }

  /** For a number below 100, `f"{n:02d}"` is exactly two digits denoting it. */
  lemma Pad2TwoDigits(n: int)
    requires 0 <= n < 100
    ensures |Pad2(n)| == 2 && AllDigits(Pad2(n)) && DigitsValue(Pad2(n)) == n
  {
    NatToStringRoundTrip(n);
    if n < 10 {
      assert Pad2(n)[..1] == "0";
    } else {
      assert NatToString(n / 10) == [DigitChar(n / 10)];
    }
  }

  /** For any natural number, `f"{n:02d}"` is its digits, at least two of them, and
      exactly two below 100. */
  lemma Pad2Digits(n: int)
    requires 0 <= n
    ensures |Pad2(n)| >= 2 && AllDigits(Pad2(n)) && DigitsValue(Pad2(n)) == n
    ensures |Pad2(n)| == 2 <==> n < 100
  {
    if n < 100 {
      Pad2TwoDigits(n);
    } else {
      NatToStringRoundTrip(n);
      assert NatToString(n) == NatToString(n / 10) + [DigitChar(n % 10)];
      assert NatToString(n / 10) == NatToString(n / 100) + [DigitChar((n / 10) % 10)];
    }
  }

  /** `(t // 60, t % 60)`, Python's floor division and remainder. */
  function MinutesSeconds(t: int): (r: (int, int))
    ensures r.0 * 60 + r.1 == t && 0 <= r.1 < 60
  {
    (t / 60, t % 60)
  }

  // ---------------------------------------------------------------- list comprehensions

  /** The items each line contributes, concatenated in line order (a loop of `append`s). */
  function Collect(lines: seq<string>, f: string -> seq<string>): seq<string>
    decreases |lines|
  {
    if lines == [] then [] else Collect(lines[..|lines| - 1], f) + f(lines[|lines| - 1])
  }

  /** Growing the prefix a loop over `lines` has read by one line adds what that line contributes. */
  lemma CollectPrefixSnoc(lines: seq<string>, i: nat, f: string -> seq<string>)
    requires i < |lines|
    ensures Collect(lines[..i + 1], f) == Collect(lines[..i], f) + f(lines[i])
  {
    assert lines[..i + 1] == lines[..i] + [lines[i]];
    CollectSnoc(lines[..i], lines[i], f);
  }

  /** One more line adds what that line contributes. */
  lemma CollectSnoc(lines: seq<string>, line: string, f: string -> seq<string>)
    ensures Collect(lines + [line], f) == Collect(lines, f) + f(line)
  {
    assert (lines + [line])[..|lines|] == lines;
  }

  /** Collecting over consecutive blocks of lines gives the blocks' items in turn. */
  lemma {:induction false} CollectConcat(a: seq<string>, b: seq<string>, f: string -> seq<string>)
    ensures Collect(a + b, f) == Collect(a, f) + Collect(b, f)
    decreases |b|
  {
    if b == [] {
      assert a + b == a;
    } else {
      var init, last := b[..|b| - 1], b[|b| - 1];
      assert b == init + [last];
      CollectConcat(a, init, f);
      CollectConcatStep(a, init, last, f);
    }
  }

  lemma CollectConcatStep(a: seq<string>, init: seq<string>, last: string, f: string -> seq<string>)
    requires Collect(a + init, f) == Collect(a, f) + Collect(init, f)
    ensures Collect(a + (init + [last]), f) == Collect(a, f) + Collect(init + [last], f)
  {
    SnocAssoc(a, init, last);
    CollectSnoc(a + init, last, f);
    CollectSnoc(init, last, f);
  }

  lemma SnocAssoc<T>(a: seq<T>, init: seq<T>, last: T)
    ensures a + (init + [last]) == (a + init) + [last]
  {
  }

  /** An item is collected exactly when some line contributes it. */
  lemma {:induction false} CollectMembers(lines: seq<string>, f: string -> seq<string>)
    ensures forall x :: x in Collect(lines, f) <==> exists k :: 0 <= k < |lines| && x in f(lines[k])
  {
    forall x ensures x in Collect(lines, f) <==> exists k :: 0 <= k < |lines| && x in f(lines[k]) {
      CollectMember(lines, f, x);
    }
  }

  lemma {:induction false} CollectMember(lines: seq<string>, f: string -> seq<string>, x: string)
    ensures x in Collect(lines, f) <==> exists k :: 0 <= k < |lines| && x in f(lines[k])
    decreases |lines|
  {
    if lines != [] {
      var init := lines[..|lines| - 1];
      CollectMember(init, f, x);
      assert Collect(lines, f) == Collect(init, f) + f(lines[|lines| - 1]);
      if x in Collect(init, f) {
        var k :| 0 <= k < |init| && x in f(init[k]);
        assert lines[k] == init[k];
      }
      if exists k :: 0 <= k < |lines| && x in f(lines[k]) {
        var k :| 0 <= k < |lines| && x in f(lines[k]);
        if k < |init| {
          assert init[k] == lines[k];
        }
      }
    }
  }
}
