/** The Python string operations the scripts rely on: prefix tests, stripping,
    splitting at a separator, splitting text into lines, and conversion between
    integers and their decimal text. Lines are split at '\n' only. */
module Text {
  import opened Outcomes

  /** str.isspace() restricted to ASCII. */
  predicate IsSpace(c: char) {
    c == ' ' || c == '\t' || c == '\n' || c == '\r'
    || c as int == 0x0B || c as int == 0x0C || 0x1C <= c as int <= 0x1F
  }

  predicate IsDigit(c: char) {
    '0' <= c <= '9'
  }

  predicate AllDigits(s: string) {
    forall i :: 0 <= i < |s| ==> IsDigit(s[i])
  }

  predicate StartsWith(s: string, prefix: string) {
    |prefix| <= |s| && s[..|prefix|] == prefix
  }

  /** `sub in s` */
  predicate Contains(s: string, sub: string) {
    StartsWith(s, sub) || (|s| > 0 && Contains(s[1..], sub))
  }

  /** `sub` occurs in `s` at position k. */
  lemma {:induction false} ContainsAt(s: string, sub: string, k: nat)
    requires k + |sub| <= |s| && s[k..k + |sub|] == sub
    ensures Contains(s, sub)
  {
    if k > 0 {
      assert s[1..][k - 1..k - 1 + |sub|] == sub;
      ContainsAt(s[1..], sub, k - 1);
    }
  }

  /** str.lstrip(chars): drops every leading character that is in `chars`. */
  function LStrip(s: string, chars: set<char>): (r: string)
    ensures |r| <= |s| && r == s[|s| - |r|..]
    ensures |r| > 0 ==> r[0] !in chars
    ensures forall i :: 0 <= i < |s| - |r| ==> s[i] in chars
  {
    if |s| > 0 && s[0] in chars then LStrip(s[1..], chars) else s
  }

  /** Stripping a padding made only of `chars` from the front of text that
      does not start with one of them leaves the text. */
  lemma {:induction false} LStripPadding(pad: string, t: string, chars: set<char>)
    requires forall i :: 0 <= i < |pad| ==> pad[i] in chars
    requires |t| > 0 ==> t[0] !in chars
    ensures LStrip(pad + t, chars) == t
  {
    if |pad| > 0 {
      assert (pad + t)[1..] == pad[1..] + t;
      LStripPadding(pad[1..], t, chars);
    }
  }

  /** str.lstrip() with no argument. */
  function LStripSpace(s: string): (r: string)
    ensures |r| <= |s| && r == s[|s| - |r|..]
    ensures |r| > 0 ==> !IsSpace(r[0])
  {
    if |s| > 0 && IsSpace(s[0]) then LStripSpace(s[1..]) else s
  }

  /** Leading whitespace in front of text that does not start with any is
      removed and nothing else. */
  lemma {:induction false} LStripSpacePadding(pad: string, t: string)
    requires forall i :: 0 <= i < |pad| ==> IsSpace(pad[i])
    requires |t| > 0 ==> !IsSpace(t[0])
    ensures LStripSpace(pad + t) == t
  {
    if |pad| > 0 {
      assert (pad + t)[1..] == pad[1..] + t;
      LStripSpacePadding(pad[1..], t);
    }
  }

  /** str.rstrip() with no argument. */
  function RStripSpace(s: string): (r: string)
    ensures |r| <= |s| && r == s[..|r|]
    ensures |r| > 0 ==> !IsSpace(r[|r| - 1])
  {
    if |s| > 0 && IsSpace(s[|s| - 1]) then RStripSpace(s[..|s| - 1]) else s
  }

  /** Trailing whitespace behind text that does not end with any is removed
      and nothing else. */
  lemma {:induction false} RStripSpacePadding(t: string, pad: string)
    requires forall i :: 0 <= i < |pad| ==> IsSpace(pad[i])
    requires |t| > 0 ==> !IsSpace(t[|t| - 1])
    ensures RStripSpace(t + pad) == t
  {
    if |pad| > 0 {
      assert (t + pad)[..|t + pad| - 1] == t + pad[..|pad| - 1];
      RStripSpacePadding(t, pad[..|pad| - 1]);
    } else {
      assert t + pad == t;
    }
  }

  /** str.strip() with no argument. */
  function Strip(s: string): string {
    RStripSpace(LStripSpace(s))
  }

  /** True when `s` has no surrounding whitespace. */
  predicate Trimmed(s: string) {
    |s| > 0 ==> !IsSpace(s[0]) && !IsSpace(s[|s| - 1])
  }

  lemma StripTrimmed(s: string)
    requires Trimmed(s)
    ensures Strip(s) == s
  {
  }

  /** Stripping removes exactly the whitespace around trimmed text. */
  lemma StripPadded(before: string, core: string, after: string)
    requires forall i :: 0 <= i < |before| ==> IsSpace(before[i])
    requires forall i :: 0 <= i < |after| ==> IsSpace(after[i])
    requires Trimmed(core)
    ensures Strip(before + core + after) == core
  {
    if |core| == 0 {
      assert before + core + after == (before + after) + "";
      LStripSpacePadding(before + after, "");
      RStripSpacePadding("", "");
    } else {
      assert before + core + after == before + (core + after);
      LStripSpacePadding(before, core + after);
      RStripSpacePadding(core, after);
    }
  }

  lemma StripIsTrimmed(s: string)
    ensures Trimmed(Strip(s))
  {
    var l := LStripSpace(s);
    var r := RStripSpace(l);
    if |r| > 0 {
      assert r == l[..|r|];
      assert r[0] == l[0];
    }
  }

  /** Index of the first occurrence of `c`, if any. */
  function IndexOf(s: string, c: char): (r: Option<nat>)
    ensures r.None? <==> c !in s
    ensures r.Some? ==> r.value < |s| && s[r.value] == c && c !in s[..r.value]
  {
    if |s| == 0 then None
    else if s[0] == c then Some(0)
    else match IndexOf(s[1..], c)
      case None => None
      case Some(i) => Some(i + 1)
  }

  /** Index of the last occurrence of `c`, if any. */
  function LastIndexOf(s: string, c: char): (r: Option<nat>)
    ensures r.None? <==> c !in s
    ensures r.Some? ==> r.value < |s| && s[r.value] == c && c !in s[r.value + 1..]
  {
    if |s| == 0 then None
    else if s[|s| - 1] == c then Some(|s| - 1)
    else
      var r := LastIndexOf(s[..|s| - 1], c);
      assert r.Some? ==> s[r.value + 1..] == s[..|s| - 1][r.value + 1..] + [s[|s| - 1]];
      r
  }

  /** s.split(c, maxsplit=1) when it has two parts; None when it has one. */
  function SplitOnce(s: string, c: char): (r: Option<(string, string)>)
    ensures r.None? <==> c !in s
    ensures r.Some? ==> s == r.value.0 + [c] + r.value.1 && c !in r.value.0
  {
    match IndexOf(s, c)
    case None => None
    case Some(i) =>
      assert s == s[..i] + [c] + s[i + 1..];
      Some((s[..i], s[i + 1..]))
  }

  /** s.rsplit(c, maxsplit=1) when it has two parts; None when it has one. */
  function RSplitOnce(s: string, c: char): (r: Option<(string, string)>)
    ensures r.None? <==> c !in s
    ensures r.Some? ==> s == r.value.0 + [c] + r.value.1 && c !in r.value.1
  {
    match LastIndexOf(s, c)
    case None => None
    case Some(i) =>
      assert s == s[..i] + [c] + s[i + 1..];
      Some((s[..i], s[i + 1..]))
  }

  /** Splitting at the first `c` when `head` holds none. */
  lemma SplitOnceAt(head: string, c: char, tail: string)
    requires c !in head
    ensures SplitOnce(head + [c] + tail, c) == Some((head, tail))
  {
    var s := head + [c] + tail;
    assert s[|head|] == c;
    assert s[..|head|] == head && s[|head| + 1..] == tail;
  }

  lemma Assoc<T>(a: seq<T>, b: seq<T>, c: seq<T>)
    ensures a + b + c == a + (b + c)
  {
  }

  lemma TakeDrop<T>(s: seq<T>, k: nat)
    requires k <= |s|
    ensures s[..k] + s[k..] == s
  {
  }

  /** Splitting at the last `c` when `tail` holds none. */
  lemma RSplitOnceAt(head: string, c: char, tail: string)
    requires c !in tail
    ensures RSplitOnce(head + [c] + tail, c) == Some((head, tail))
  {
    var s := head + [c] + tail;
    assert s[|head|] == c;
    assert s[..|head|] == head && s[|head| + 1..] == tail;
  }

  /** The pieces of `s` between occurrences of `c`, in order (s.split(c)). */
  function Split(s: string, c: char): (r: seq<string>)
    ensures |r| >= 1
    ensures forall k :: 0 <= k < |r| ==> c !in r[k]
    decreases |s|
  {
    match SplitOnce(s, c)
    case None => [s]
    case Some((head, tail)) => [head] + Split(tail, c)
  }

  /** The inverse of Split: the pieces joined by single separators. */
  function Join(parts: seq<string>, c: char): string {
    if |parts| == 0 then ""
    else if |parts| == 1 then parts[0]
    else parts[0] + [c] + Join(parts[1..], c)
  }

  lemma {:induction false} JoinSplit(s: string, c: char)
    ensures Join(Split(s, c), c) == s
    decreases |s|
  {
    match SplitOnce(s, c)
    case None =>
    case Some((head, tail)) =>
      JoinSplit(tail, c);
      assert Split(s, c) == [head] + Split(tail, c);
  }

  /** Split undoes Join when no piece holds the separator. */
  lemma {:induction false} SplitJoin(parts: seq<string>, c: char)
    requires |parts| >= 1
    requires forall k :: 0 <= k < |parts| ==> c !in parts[k]
    ensures Split(Join(parts, c), c) == parts
  {
    if |parts| > 1 {
      SplitJoin(parts[1..], c);
      SplitOnceAt(parts[0], c, Join(parts[1..], c));
    }
  }

  /** Python's `<` on strings: lexicographic by character code. */
  predicate StrLess(a: string, b: string)
    decreases |a|
  {
    if |a| == 0 then |b| > 0
    else if |b| == 0 then false
    else if a[0] == b[0] then StrLess(a[1..], b[1..])
    else a[0] < b[0]
  }

  lemma {:induction false} StrLessIrreflexive(a: string)
    ensures !StrLess(a, a)
  {
    if |a| > 0 {
      StrLessIrreflexive(a[1..]);
    }
  }

  lemma {:induction false} StrLessTransitive(a: string, b: string, c: string)
    requires StrLess(a, b) && StrLess(b, c)
    ensures StrLess(a, c)
  {
    if |a| > 0 && a[0] == b[0] && b[0] == c[0] {
      StrLessTransitive(a[1..], b[1..], c[1..]);
    }
  }

  /** Any two different strings are ordered one way or the other. */
  lemma {:induction false} StrLessTotal(a: string, b: string)
    requires a != b
    ensures StrLess(a, b) || StrLess(b, a)
  {
    if |a| > 0 && |b| > 0 && a[0] == b[0] {
      assert a == [a[0]] + a[1..] && b == [b[0]] + b[1..];
      StrLessTotal(a[1..], b[1..]);
    }
  }

  lemma {:induction false} StrLessAsymmetric(a: string, b: string)
    requires StrLess(a, b)
    ensures !StrLess(b, a)
  {
    if |a| > 0 && |b| > 0 && a[0] == b[0] {
      StrLessAsymmetric(a[1..], b[1..]);
    }
  }

  function Concat(parts: seq<string>): string {
    if |parts| == 0 then "" else parts[0] + Concat(parts[1..])
  }

  lemma {:induction false} ConcatAppend(a: seq<string>, b: seq<string>)
    ensures Concat(a + b) == Concat(a) + Concat(b)
  {
    if |a| > 0 {
      assert (a + b)[1..] == a[1..] + b;
      ConcatAppend(a[1..], b);
    } else {
      assert a + b == b;
    }
  }

  /** Length of the first line of `s`, including its '\n' when it has one. */
  function FirstLineLength(s: string): (k: nat)
    requires |s| > 0
    ensures 0 < k <= |s|
    ensures '\n' !in s[..k - 1]
    ensures k < |s| ==> s[k - 1] == '\n'
  {
    match IndexOf(s, '\n')
    case None => |s|
    case Some(i) => i + 1
  }

  /** The lines of `s`, each with its '\n' when it has one. */
  function LinesOf(s: string): seq<string>
    decreases |s|
  {
    if |s| == 0 then [] else [s[..FirstLineLength(s)]] + LinesOf(s[FirstLineLength(s)..])
  }

  /** The lines put together give the text back. */
  lemma {:induction false} LinesOfConcat(s: string)
    ensures Concat(LinesOf(s)) == s
    decreases |s|
  {
    if |s| > 0 {
      var k := FirstLineLength(s);
      LinesOfConcat(s[k..]);
      assert s == s[..k] + s[k..];
    }
  }

  /** Every line is non-empty, only the last may lack a line break, and none
      holds one before its end. */
  lemma {:induction false} LinesOfBreaks(s: string)
    ensures forall k :: 0 <= k < |LinesOf(s)| ==> (|LinesOf(s)[k]| > 0
      && '\n' !in LinesOf(s)[k][..|LinesOf(s)[k]| - 1]
      && (k < |LinesOf(s)| - 1 ==> LinesOf(s)[k][|LinesOf(s)[k]| - 1] == '\n'))
    decreases |s|
  {
    if |s| > 0 {
      var k := FirstLineLength(s);
      var tail := LinesOf(s[k..]);
      LinesOfBreaks(s[k..]);
      var lines := LinesOf(s);
      assert lines == [s[..k]] + tail;
      forall j | 0 <= j < |lines|
        ensures |lines[j]| > 0 && '\n' !in lines[j][..|lines[j]| - 1]
          && (j < |lines| - 1 ==> lines[j][|lines[j]| - 1] == '\n')
      {
        if j > 0 {
          assert lines[j] == tail[j - 1];
        }
      }
    }
  }

  /** s.splitlines(keepends=True), with '\n' as the only line break. */
  function SplitLinesKeepEnds(s: string): (lines: seq<string>)
    ensures Concat(lines) == s
    ensures forall k :: 0 <= k < |lines| ==> |lines[k]| > 0
    ensures forall k :: 0 <= k < |lines| - 1 ==> lines[k][|lines[k]| - 1] == '\n'
    ensures forall k :: 0 <= k < |lines| ==> '\n' !in lines[k][..|lines[k]| - 1]
  {
    LinesOfConcat(s);
    LinesOfBreaks(s);
    LinesOf(s)
  }

  /** Index of `c` in `a + b` is its index in `a` when `a` holds it. */
  lemma IndexOfAppend(a: string, b: string, c: char)
    requires c in a
    ensures IndexOf(a + b, c) == IndexOf(a, c)
  {
    var i := IndexOf(a, c).value;
    var j := IndexOf(a + b, c).value;
    assert (a + b)[i] == c;
    assert a[..i] == (a + b)[..i];
  }

  lemma FirstLineAppend(a: string, b: string)
    requires |a| > 0 && a[|a| - 1] == '\n'
    ensures FirstLineLength(a + b) == FirstLineLength(a)
  {
    IndexOfAppend(a, b, '\n');
  }

  /** The first line of text ending at a line break is the same whatever
      follows the text. */
  lemma LinesOfStep(a: string, b: string)
    requires |a| > 0 && a[|a| - 1] == '\n'
    ensures var k := FirstLineLength(a);
      && LinesOf(a + b) == [a[..k]] + LinesOf(a[k..] + b)
      && (|a[k..]| == 0 || a[k..][|a[k..]| - 1] == '\n')
  {
    FirstLineAppend(a, b);
    var k := FirstLineLength(a);
    var rest := a[k..];
    assert |rest| == 0 || rest[|rest| - 1] == '\n' by {
      if |rest| > 0 {
        assert rest[|rest| - 1] == a[|a| - 1];
      }
    }
    assert (a + b)[..k] == a[..k];
    assert (a + b)[k..] == rest + b;
  }

  /** Text that ends at a line break splits into lines independently of
      what follows it. */
  lemma {:induction false} LinesOfAppend(a: string, b: string)
    requires |a| == 0 || a[|a| - 1] == '\n'
    ensures LinesOf(a + b) == LinesOf(a) + LinesOf(b)
    decreases |a|
  {
    if |a| == 0 {
      assert a + b == b;
    } else {
      var k := FirstLineLength(a);
      LinesOfStep(a, b);
      LinesOfAppend(a[k..], b);
      Assoc([a[..k]], LinesOf(a[k..]), LinesOf(b));
    }
  }

  lemma LastLineBreak(line: string)
    requires |line| > 0 && line[|line| - 1] == '\n' && '\n' !in line[..|line| - 1]
    ensures FirstLineLength(line) == |line|
  {
    assert IndexOf(line, '\n') == Some(|line| - 1);
  }

  /** A single line ending in its only line break. */
  lemma OneLine(line: string)
    requires |line| > 0 && line[|line| - 1] == '\n' && '\n' !in line[..|line| - 1]
    ensures LinesOf(line) == [line]
  {
    LastLineBreak(line);
    assert line[|line|..] == [];
    assert line[..|line|] == line;
  }

  /** Drops one trailing '\n'. */
  function DropNewline(line: string): (r: string)
    requires |line| > 0 && '\n' !in line[..|line| - 1]
    ensures '\n' !in r
  {
    if |line| > 0 && line[|line| - 1] == '\n' then line[..|line| - 1] else line
  }

  /** s.splitlines(keepends=False), with '\n' as the only line break. */
  function SplitLines(s: string): (lines: seq<string>)
    ensures |lines| == |SplitLinesKeepEnds(s)|
    ensures forall k :: 0 <= k < |lines| ==> '\n' !in lines[k]
  {
    var keep := SplitLinesKeepEnds(s);
    seq(|keep|, k requires 0 <= k < |keep| => DropNewline(keep[k]))
  }

  function DigitValue(c: char): nat
    requires IsDigit(c)
  {
    c as nat - '0' as nat
  }

  function DigitChar(d: nat): (c: char)
    requires d < 10
    ensures IsDigit(c) && DigitValue(c) == d
  {
    ('0' as nat + d) as char
  }

  /** The value of a string of decimal digits. */
  function DigitsValue(ds: string): nat
    requires AllDigits(ds)
  {
    if |ds| == 0 then 0 else DigitsValue(ds[..|ds| - 1]) * 10 + DigitValue(ds[|ds| - 1])
  }

  /** str(n) for a natural number. */
  function NatToString(n: nat): (s: string)
    ensures |s| > 0 && AllDigits(s)
    ensures DigitsValue(s) == n
  {
    if n < 10 then [DigitChar(n)]
    else
      var s := NatToString(n / 10) + [DigitChar(n % 10)];
      assert s[..|s| - 1] == NatToString(n / 10);
      s
  }

  /** str(n) for any integer. */
  function IntToString(n: int): string {
    if n < 0 then "-" + NatToString(-n) else NatToString(n)
  }

  /** int(s) for the literals a stats file holds: surrounding whitespace, an
      optional sign and at least one decimal digit. */
  function ParseInt(s: string): (r: Result<int>)
    ensures r.Err? ==> r.error.ValueError?
  {
    var t := Strip(s);
    if |t| > 0 && (t[0] == '-' || t[0] == '+') then
      if |t| > 1 && AllDigits(t[1..]) then
        Ok(if t[0] == '-' then -(DigitsValue(t[1..]) as int) else DigitsValue(t[1..]))
      else Err(ValueError("invalid literal for int()"))
    else if |t| > 0 && AllDigits(t) then Ok(DigitsValue(t))
    else Err(ValueError("invalid literal for int()"))
  }

  lemma DigitsTrimmed(s: string)
    requires |s| > 0 && AllDigits(s)
    ensures Trimmed(s)
  {
    assert IsDigit(s[0]) && IsDigit(s[|s| - 1]);
  }

  /** Decimal text read back by int() gives the number it was made from. */
  lemma ParseIntToString(n: int)
    ensures ParseInt(IntToString(n)) == Ok(n)
  {
    var s := IntToString(n);
    if n < 0 {
      var d := NatToString(-n);
      DigitsTrimmed(d);
      assert s[0] == '-' && !IsSpace(s[0]);
      assert s[|s| - 1] == d[|d| - 1];
      StripTrimmed(s);
      assert s[1..] == d;
    } else {
      DigitsTrimmed(s);
      StripTrimmed(s);
    }
  }
}
