/**
 * The few Python string operations the core relies on, over ASCII text: `str(n)`,
 * `f"{n:02d}"`, `int(s)`, `s.lower()`, `s.replace(p, "")`, `s.startswith(p)`,
 * `os.path.basename` and the lines of a text file.
 */
module Text {
  import opened Wrappers

  predicate IsDigit(c: char) { '0' <= c <= '9' }

  function DigitValue(c: char): nat
    requires IsDigit(c)
  {
    c as int - '0' as int
  }

  function DigitChar(d: nat): (c: char)
    requires d < 10
    ensures IsDigit(c) && DigitValue(c) == d
  {
    ('0' as int + d) as char
  }

  /** `str(n)` for a natural number: decimal digits, no leading zero. */
  function NatToString(n: nat): (s: string)
    ensures |s| > 0 && forall k :: 0 <= k < |s| ==> IsDigit(s[k])
  {
    if n < 10 then [DigitChar(n)] else NatToString(n / 10) + [DigitChar(n % 10)]
  }

  /** `str(i)` for any integer: a minus sign exactly for negatives, then decimal digits. */
  function IntToString(i: int): (s: string)
    ensures |s| > 0 && (s[0] == '-' <==> i < 0)
    ensures forall k :: 0 <= k < |s| ==> IsDigit(s[k]) || (k == 0 && s[k] == '-')
  {
    if i < 0 then "-" + NatToString(-i) else NatToString(i)
  }

  /** `f"{i:02d}"`: a leading zero for 0 .. 9, otherwise `str(i)`. */
  function Format02(i: int): (s: string)
    ensures 2 <= |s|
  {
    if 0 <= i < 10 then ['0', DigitChar(i)] else IntToString(i)
  }

  /** The ASCII characters `str.isspace()` accepts: tab to carriage return, the separators 0x1C to 0x1F, space. */
  predicate IsSpace(c: char)
  {
    ('\t' <= c <= '\r') || ('\U{1C}' <= c <= '\U{1F}') || c == ' '
  }

  function StripLeft(s: string): string
  {
    if s != [] && IsSpace(s[0]) then StripLeft(s[1..]) else s
  }

  function StripRight(s: string): string
  {
    if s != [] && IsSpace(s[|s| - 1]) then StripRight(s[..|s| - 1]) else s
  }

  function Strip(s: string): string
  {
    StripRight(StripLeft(s))
  }

  /** Python's integer literal body for `int()`: digits, single underscores between digits. */
  predicate DigitGroups(s: string)
  {
    && |s| > 0
    && IsDigit(s[0]) && IsDigit(s[|s| - 1])
    && (forall k :: 0 <= k < |s| ==> IsDigit(s[k]) || s[k] == '_')
    && (forall k :: 0 <= k < |s| - 1 ==> s[k] == '_' ==> s[k + 1] != '_')
  }

  /** The value of a digit string, underscores ignored. */
  function DigitsValue(s: string): nat
    requires forall k :: 0 <= k < |s| ==> IsDigit(s[k]) || s[k] == '_'
  {
    if s == [] then 0
    else if s[|s| - 1] == '_' then DigitsValue(s[..|s| - 1])
    else DigitsValue(s[..|s| - 1]) * 10 + DigitValue(s[|s| - 1])
  }

  function Signed(sign: char, magnitude: nat): int
  {
    if sign == '-' then 0 - magnitude as int else magnitude as int
  }

  /** `int(s)` in base 10: None where Python raises ValueError. */
  function ParseInt(s: string): Option<int>
  {
    var t := Strip(s);
    if |t| > 0 && (t[0] == '-' || t[0] == '+') then
      var body := t[1..];
      if DigitGroups(body) then Some(Signed(t[0], DigitsValue(body))) else None
    else if DigitGroups(t) then Some(DigitsValue(t))
    else None
  }

  /** `s.lower()` on ASCII letters. */
  function Lower(s: string): (r: string)
    ensures |r| == |s|
  {
    seq(|s|, k requires 0 <= k < |s| => if 'A' <= s[k] <= 'Z' then (s[k] as int + 32) as char else s[k])
  }

  predicate StartsWith(s: string, prefix: string)
  {
    |prefix| <= |s| && s[..|prefix|] == prefix
  }

  /** `s.replace(pat, "")`: every non-overlapping occurrence, scanned left to right, removed. */
  function RemoveAll(s: string, pat: string): string
    requires |pat| > 0
    decreases |s|
  {
    if |s| < |pat| then s
    else if s[..|pat|] == pat then RemoveAll(s[|pat|..], pat)
    else [s[0]] + RemoveAll(s[1..], pat)
  }

  /** `os.path.basename(path)`: what follows the last '/'. */
  function BaseName(path: string): (b: string)
    ensures '/' !in b && |b| <= |path|
  {
    if path == [] then []
    else if path[|path| - 1] == '/' then []
    else BaseName(path[..|path| - 1]) + [path[|path| - 1]]
  }

  /** The position of the first c in s, or |s| when there is none. */
  function IndexOf(s: string, c: char): (k: nat)
    ensures k <= |s| && (k < |s| ==> s[k] == c) && forall j :: 0 <= j < k ==> s[j] != c
  {
    if s == [] then 0 else if s[0] == c then 0 else 1 + IndexOf(s[1..], c)
  }

  /** The lines of a text: pieces between newlines, a final newline ending the last line. */
  function Lines(text: string): (ls: seq<string>)
    ensures forall k :: 0 <= k < |ls| ==> '\n' !in ls[k]
    decreases |text|
  {
    if text == [] then []
    else
      var k := IndexOf(text, '\n');
      assert forall j :: 0 <= j < k ==> text[..k][j] == text[j];
      if k == |text| then [text] else [text[..k]] + Lines(text[k + 1..])
  }

  // ----- lemmas -----

  lemma {:induction false} NatToStringValue(n: nat)
    ensures DigitsValue(NatToString(n)) == n
  {
    if n >= 10 {
      NatToStringValue(n / 10);
      var s := NatToString(n);
      assert s[..|s| - 1] == NatToString(n / 10);
    }
  }

  lemma NatToStringGroups(n: nat)
    ensures DigitGroups(NatToString(n))
  {
  }

  lemma StripUnchanged(s: string)
    requires |s| > 0 && !IsSpace(s[0]) && !IsSpace(s[|s| - 1])
    ensures Strip(s) == s
  {
  }

  /** Leading whitespace removed: a suffix of s. */
  lemma {:induction false} StripLeftSuffix(s: string)
    ensures |StripLeft(s)| <= |s| && StripLeft(s) == s[|s| - |StripLeft(s)|..]
  {
    if s != [] && IsSpace(s[0]) {
      StripLeftSuffix(s[1..]);
    }
  }

  /** Trailing whitespace removed: a prefix of s. */
  lemma {:induction false} StripRightPrefix(s: string)
    ensures |StripRight(s)| <= |s| && StripRight(s) == s[..|StripRight(s)|]
  {
    if s != [] && IsSpace(s[|s| - 1]) {
      StripRightPrefix(s[..|s| - 1]);
    }
  }

  /** `int()` fails on a text without a decimal digit. */
  lemma ParseIntNeedsDigit(s: string)
    requires ParseInt(s).Some?
    ensures exists k :: 0 <= k < |s| && IsDigit(s[k])
  {
    var left := StripLeft(s);
    var t := Strip(s);
    StripLeftSuffix(s);
    StripRightPrefix(left);
    var i := if IsDigit(t[0]) then 0 else 1;
    assert IsDigit(t[i]);
    assert t[i] == left[i] == s[|s| - |left| + i];
  }

  /** `s.replace(pat, "")` only deletes: every character of the result comes from s. */
  lemma {:induction false} RemoveAllOnlyDeletes(s: string, pat: string)
    requires |pat| > 0
    ensures multiset(RemoveAll(s, pat)) <= multiset(s)
    decreases |s|
  {
    if |s| >= |pat| {
      if s[..|pat|] == pat {
        RemoveAllOnlyDeletes(s[|pat|..], pat);
        assert s == s[..|pat|] + s[|pat|..];
      } else {
        RemoveAllOnlyDeletes(s[1..], pat);
        assert s == [s[0]] + s[1..];
      }
    }
  }

  /** An unsigned digit string parses to its value. */
  lemma ParseDigits(d: string)
    requires DigitGroups(d)
    ensures ParseInt(d) == Some(DigitsValue(d))
  {
    StripUnchanged(d);
  }

  /** A minus sign then a digit string parses to the negated value. */
  lemma ParseNegative(d: string)
    requires DigitGroups(d)
    ensures ParseInt("-" + d) == Some(0 - DigitsValue(d))
  {
    var s := "-" + d;
    assert s[|s| - 1] == d[|d| - 1];
    StripUnchanged(s);
    assert s[1..] == d;
  }

  /** `int(str(i)) == i` for every integer i. */
  lemma ParseIntOfIntToString(i: int)
    ensures ParseInt(IntToString(i)) == Some(i)
  {
    if i < 0 {
      var n: nat := -i;
      var d := NatToString(n);
      assert IntToString(i) == "-" + d;
      NatToStringValue(n);
      NatToStringGroups(n);
      ParseNegative(d);
      assert 0 - DigitsValue(d) == i;
    } else {
      var n: nat := i;
      var d := NatToString(n);
      assert IntToString(i) == d;
      NatToStringValue(n);
      NatToStringGroups(n);
      ParseDigits(d);
    }
  }

  /** Zero padding is undone by `int()`: the two-digit format of any integer parses back to it. */
  lemma ParseFormat02(i: int)
    ensures ParseInt(Format02(i)) == Some(i)
  {
    if 0 <= i < 10 {
      var s := Format02(i);
      assert s[..1] == ['0'];
      assert ['0'][..0] == [];
      assert DigitsValue(['0']) == 0;
      assert DigitsValue(s) == i;
      ParseDigits(s);
    } else {
      ParseIntOfIntToString(i);
    }
  }

  /** A text with no first character of the pattern has nothing to remove. */
  lemma {:induction false} RemoveAllAbsent(s: string, pat: string)
    requires |pat| > 0 && pat[0] !in s
    ensures RemoveAll(s, pat) == s
  {
    if |s| >= |pat| {
      assert s[0] in s;
      RemoveAllAbsent(s[1..], pat);
      assert [s[0]] + s[1..] == s;
    }
  }

  /** An occurrence at the front is removed, and the scan continues after it. */
  lemma RemoveAllPrefix(pat: string, s: string)
    requires |pat| > 0
    ensures RemoveAll(pat + s, pat) == RemoveAll(s, pat)
  {
    assert (pat + s)[..|pat|] == pat && (pat + s)[|pat|..] == s;
  }

  /** `s.lower()` leaves no capital and keeps every other character, a lower-case letter included. */
  lemma LowerMeaning(s: string)
    ensures forall k :: 0 <= k < |s| ==> !('A' <= Lower(s)[k] <= 'Z')
    ensures forall k :: 0 <= k < |s| && !('A' <= s[k] <= 'Z') ==> Lower(s)[k] == s[k]
    ensures forall k :: 0 <= k < |s| && 'A' <= s[k] <= 'Z' ==> Lower(s)[k] as int == s[k] as int + 32
  {
  }

  lemma LowerIdempotent(s: string)
    ensures Lower(Lower(s)) == Lower(s)
  {
  }

  /** The base name of `dir/name` is `name` when name holds no '/'. */
  lemma {:induction false} BaseNameOfJoin(dir: string, name: string)
    requires '/' !in name
    ensures BaseName(dir + "/" + name) == name
    decreases |name|
  {
    if name != [] {
      var init := name[..|name| - 1];
      assert dir + "/" + name == (dir + "/" + init) + [name[|name| - 1]];
      BaseNameOfJoin(dir, init);
      assert init + [name[|name| - 1]] == name;
    } else {
      assert (dir + "/" + name)[|dir + "/" + name| - 1] == '/';
    }
  }

  /** The first newline of `line + "\n" + rest` ends `line` when line holds none. */
  lemma {:induction false} IndexOfNewline(line: string, rest: string)
    requires '\n' !in line
    ensures IndexOf(line + "\n" + rest, '\n') == |line|
    decreases |line|
  {
    if line != [] {
      assert (line + "\n" + rest)[1..] == line[1..] + "\n" + rest;
      IndexOfNewline(line[1..], rest);
    }
  }

  /** A newline-terminated line is split off the front of a text. */
  lemma LinesOfLine(line: string, rest: string)
    requires '\n' !in line
    ensures Lines(line + "\n" + rest) == [line] + Lines(rest)
  {
    var text := line + "\n" + rest;
    IndexOfNewline(line, rest);
    assert text[..|line|] == line;
    assert text[|line| + 1..] == rest;
  }

  /** The base name is the part of the path after its last '/': a suffix preceded by '/' or the whole path. */
  lemma {:induction false} BaseNameIsLastComponent(path: string)
    ensures path[|path| - |BaseName(path)|..] == BaseName(path)
    ensures |BaseName(path)| < |path| ==> path[|path| - |BaseName(path)| - 1] == '/'
    decreases |path|
  {
    if path != [] && path[|path| - 1] != '/' {
      var init := path[..|path| - 1];
      BaseNameIsLastComponent(init);
      assert path[|path| - |BaseName(path)|..] == init[|init| - |BaseName(init)|..] + [path[|path| - 1]];
    }
  }
}
