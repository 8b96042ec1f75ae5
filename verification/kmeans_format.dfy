/** print_with_spaces of the k-means benchmark (k-means_sca_single.c): the
    cycle count is printed with sprintf("%lld") and a space is put in front of
    every group of three characters counted from the right, so that
    1234567 reads "1 234 567". */
module KMeansFormat {
  import opened Text

  /** The range of a C long long. */
  const LongLongMin: int := -0x8000_0000_0000_0000
  const LongLongMax: int := 0x7FFF_FFFF_FFFF_FFFF

  /** The size of the `formatted` buffer, terminating NUL included. */
  const FormattedSize: nat := 64

  /** C's `%` on int: the remainder takes the sign of the dividend. */
  function CRem(x: int, d: int): int
    requires d > 0
  {
    if x >= 0 then x % d else -((-x) % d)
  }

  /** len % 3, or 3 when that is 0: how many characters come before the
      first space. */
  function FirstGroup(len: nat): (g: nat)
    ensures 1 <= g <= 3 && (len - g) % 3 == 0
  {
    var g := CRem(len, 3);
    if g == 0 then 3 else g
  }

  /** The loop's test: a space goes in front of position i. */
  predicate SpaceBefore(i: nat, firstGroup: nat) {
    i != 0 && CRem(i - firstGroup, 3) == 0
  }

  // ------------------------------------------------ the reference grouping

  /** `s` cut into a first group of `g` characters and then groups of 3. */
  function Chunks(s: string, g: nat): (groups: seq<string>)
    requires g >= 1
    ensures |groups| >= 1
    decreases |s|
  {
    if |s| <= g then [s] else [s[..g]] + Chunks(s[g..], 3)
  }

  /** The groups of `s` joined by single spaces. */
  function Spaced(s: string, g: nat): string
    requires g >= 1
  {
    Join(Chunks(s, g), ' ')
  }

  /** Appending one character to the text adds a space in front of it
      exactly when it starts a new group. */
  lemma {:induction false} SpacedSnoc(s: string, c: char, g: nat)
    requires g >= 1
    ensures Spaced(s + [c], g) == Spaced(s, g) + (if |s| >= g && (|s| - g) % 3 == 0 then [' '] else []) + [c]
    decreases |s|
  {
    var t := s + [c];
    if |s| < g {
      assert Chunks(t, g) == [t];
      assert Chunks(s, g) == [s];
    } else if |s| == g {
      assert t[..g] == s && t[g..] == [c];
      assert Chunks(t, g) == [s] + [[c]];
      assert Chunks(s, g) == [s];
      assert Join([s] + [[c]], ' ') == s + [' '] + Join([[c]], ' ');
    } else {
      SnocTail(s, c, g);
      SpacedStep(s, g);
      SpacedSnoc(s[g..], c, 3);
      var sep := if |s[g..]| >= 3 && (|s[g..]| - 3) % 3 == 0 then [' '] else [];
      Regroup(s[..g] + [' '], Spaced(s[g..], 3), sep, [c]);
    }
  }

  /** Appending past the first group appends to the groups after it. */
  lemma SnocTail(s: string, c: char, g: nat)
    requires g >= 1 && |s| > g
    ensures Spaced(s + [c], g) == s[..g] + [' '] + Spaced(s[g..] + [c], 3)
  {
    var t := s + [c];
    assert t[..g] == s[..g] && t[g..] == s[g..] + [c];
    SpacedStep(t, g);
  }

  lemma Regroup<T>(a: seq<T>, b: seq<T>, x: seq<T>, c: seq<T>)
    ensures a + (b + x + c) == a + b + x + c
  {
  }

  lemma JoinCons(first: string, rest: seq<string>)
    requires |rest| >= 1
    ensures Join([first] + rest, ' ') == first + [' '] + Join(rest, ' ')
  {
    assert ([first] + rest)[1..] == rest;
  }

  // ------------------------------------------------------------- the loop

  /** The loop's space test agrees with the groups' boundaries. */
  lemma SpaceBeforeIsBoundary(i: nat, len: nat)
    ensures SpaceBefore(i, FirstGroup(len)) <==> (i >= FirstGroup(len) && (i - FirstGroup(len)) % 3 == 0)
  {
  }

  /** One turn of the loop: the character at i, with a space before it
      when the loop's test says so. */
  lemma PrintStep(buf: string, i: nat)
    requires i < |buf|
    ensures var g := FirstGroup(|buf|);
      Spaced(buf[..i + 1], g) == Spaced(buf[..i], g) + (if SpaceBefore(i, g) then [' '] else []) + [buf[i]]
  {
    SpaceBeforeIsBoundary(i, |buf|);
    SpacedSnoc(buf[..i], buf[i], FirstGroup(|buf|));
    assert buf[..i + 1] == buf[..i] + [buf[i]];
  }

  /** print_with_spaces(n): the text between "Time for K-means: " and
      " cycles". */
  method PrintWithSpaces(n: int) returns (formatted: string)
    requires LongLongMin <= n <= LongLongMax
    ensures var buf := IntToString(n); formatted == Spaced(buf, FirstGroup(|buf|))
  {
    var buf := IntToString(n);
    var len := |buf|;
    var firstGroup := FirstGroup(len);
    formatted := [];
    var i := 0;
    while i < len
      invariant 0 <= i <= len
      invariant formatted == Spaced(buf[..i], firstGroup)
    {
      PrintStep(buf, i);
      if SpaceBefore(i, firstGroup) {
        formatted := formatted + [' '];
      }
      formatted := formatted + [buf[i]];
      i := i + 1;
    }
    assert buf[..len] == buf;
  }

  // ---------------------------------------------------- what the text is

  /** The text with every space taken out. */
  function Unspace(s: string): string {
    if |s| == 0 then "" else (if s[0] == ' ' then "" else [s[0]]) + Unspace(s[1..])
  }

  lemma {:induction false} UnspaceAppend(a: string, b: string)
    ensures Unspace(a + b) == Unspace(a) + Unspace(b)
  {
    if |a| > 0 {
      assert (a + b)[1..] == a[1..] + b;
      UnspaceAppend(a[1..], b);
    } else {
      assert a + b == b;
    }
  }

  lemma {:induction false} UnspaceNoSpace(s: string)
    requires ' ' !in s
    ensures Unspace(s) == s
  {
    if |s| > 0 {
      UnspaceNoSpace(s[1..]);
    }
  }

  /** The pieces of a chunking put back together give the text. */
  lemma {:induction false} ChunksConcat(s: string, g: nat)
    requires g >= 1
    ensures Concat(Chunks(s, g)) == s
    decreases |s|
  {
    if |s| > g {
      ChunksConcat(s[g..], 3);
      assert s == s[..g] + s[g..];
    }
  }

  /** Past the first group, the text is that group, a space, and the rest
      grouped by three. */
  lemma SpacedStep(s: string, g: nat)
    requires g >= 1 && |s| > g
    ensures Spaced(s, g) == s[..g] + [' '] + Spaced(s[g..], 3)
  {
    JoinCons(s[..g], Chunks(s[g..], 3));
  }

  lemma UnspaceGroup(head: string, tail: string)
    requires ' ' !in head
    ensures Unspace(head + [' '] + tail) == head + Unspace(tail)
  {
    UnspaceAppend(head + [' '], tail);
    UnspaceAppend(head, [' ']);
    UnspaceNoSpace(head);
    assert Unspace([' ']) == [] by {
      assert [' '][1..] == [];
    }
    assert head + [] == head;
  }

  /** Removing the spaces gives back the text, when it held none. */
  lemma {:induction false} UnspaceSpaced(s: string, g: nat)
    requires g >= 1 && ' ' !in s
    ensures Unspace(Spaced(s, g)) == s
    decreases |s|
  {
    if |s| <= g {
      UnspaceNoSpace(s);
    } else {
      SpacedStep(s, g);
      UnspaceGroup(s[..g], Spaced(s[g..], 3));
      UnspaceSpaced(s[g..], 3);
      TakeDrop(s, g);
    }
  }

  /** When the text's length is `g` more than a multiple of three, the
      first group has `g` characters (all of them when there are fewer),
      every later group exactly three, and no group holds a space. */
  lemma {:induction false} ChunkSizes(s: string, g: nat)
    requires g >= 1 && ' ' !in s && (|s| < g || (|s| - g) % 3 == 0)
    ensures var groups := Chunks(s, g);
      && |groups[0]| == (if |s| < g then |s| else g)
      && (forall k :: 1 <= k < |groups| ==> |groups[k]| == 3)
      && (forall k :: 0 <= k < |groups| ==> ' ' !in groups[k])
    decreases |s|
  {
    if |s| > g {
      var t := s[g..];
      assert |t| >= 3;
      ChunkSizes(t, 3);
      var rest := Chunks(t, 3);
      assert Chunks(s, g) == [s[..g]] + rest;
      assert forall k :: 1 <= k < |Chunks(s, g)| ==> Chunks(s, g)[k] == rest[k - 1];
    }
  }

  /** The number of groups: one, plus one per three characters after the
      first group. */
  lemma {:induction false} ChunkCount(s: string, g: nat)
    requires g >= 1
    ensures |Chunks(s, g)| == if |s| <= g then 1 else 1 + (|s| - g + 2) / 3
    decreases |s|
  {
    if |s| > g {
      ChunkCount(s[g..], 3);
    }
  }

  /** The spaces in the printed text are exactly the ones between groups. */
  lemma {:induction false} SpaceCount(s: string, g: nat)
    requires g >= 1 && ' ' !in s
    ensures |Spaced(s, g)| == |s| + |Chunks(s, g)| - 1
    decreases |s|
  {
    if |s| > g {
      JoinCons(s[..g], Chunks(s[g..], 3));
      SpaceCount(s[g..], 3);
    }
  }

  function Pow10(k: nat): nat {
    if k == 0 then 1 else 10 * Pow10(k - 1)
  }

  lemma Pow10Nineteen()
    ensures Pow10(19) == 10_000_000_000_000_000_000
  {
    assert Pow10(5) == 100_000;
    assert Pow10(10) == 10_000_000_000;
    assert Pow10(15) == 1_000_000_000_000_000;
  }

  /** A number below 10^k has at most k digits. */
  lemma {:induction false} DigitCount(n: nat, k: nat)
    requires k >= 1 && n < Pow10(k)
    ensures |NatToString(n)| <= k
  {
    if n >= 10 {
      DigitCount(n / 10, k - 1);
    }
  }

  /** What sprintf("%lld") writes holds no space. */
  lemma NoSpaceInNumber(n: int)
    ensures ' ' !in IntToString(n)
  {
    var d := if n < 0 then NatToString(-n) else NatToString(n);
    assert forall k :: 0 <= k < |d| ==> IsDigit(d[k]);
  }

  /** Grouping a text without spaces: removing the spaces gives it back,
      and splitting at the spaces gives its groups. */
  lemma GroupedText(buf: string)
    requires ' ' !in buf
    ensures var out := Spaced(buf, FirstGroup(|buf|));
      Unspace(out) == buf && Split(out, ' ') == Chunks(buf, FirstGroup(|buf|))
  {
    var g := FirstGroup(|buf|);
    UnspaceSpaced(buf, g);
    ChunkSizes(buf, g);
    SplitJoin(Chunks(buf, g), ' ');
  }

  /** Grouping adds (len - 1) / 3 spaces to a non-empty text. */
  lemma GroupedLength(buf: string)
    requires |buf| >= 1 && ' ' !in buf
    ensures |Spaced(buf, FirstGroup(|buf|))| == |buf| + (|buf| - 1) / 3
  {
    var g := FirstGroup(|buf|);
    ChunkCount(buf, g);
    SpaceCount(buf, g);
    var m := (|buf| - g) / 3;
    assert |buf| - g == 3 * m;
    assert |buf| - 1 == 3 * m + (g - 1);
  }

  /** A long long takes at most 20 characters, sign included. */
  lemma LongLongLength(n: int)
    requires LongLongMin <= n <= LongLongMax
    ensures |IntToString(n)| <= 20
  {
    Pow10Nineteen();
    DigitCount(if n < 0 then -n else n, 19);
  }

  /** The printed text: the characters sprintf wrote, with the spaces taken
      out; groups split at the spaces, of the sizes the loop intends; and
      (len - 1) / 3 spaces, so that even the longest long long fits the
      64-byte buffer with its NUL. */
  lemma Printed(n: int)
    requires LongLongMin <= n <= LongLongMax
    ensures var buf := IntToString(n); var out := Spaced(buf, FirstGroup(|buf|));
      && Unspace(out) == buf
      && Split(out, ' ') == Chunks(buf, FirstGroup(|buf|))
      && |out| == |buf| + (|buf| - 1) / 3
      && |out| + 1 <= FormattedSize
  {
    var buf := IntToString(n);
    NoSpaceInNumber(n);
    GroupedText(buf);
    GroupedLength(buf);
    LongLongLength(n);
  }

  /** For n >= 0 the groups are the decimal digits of n, and reading them
      back without the spaces gives n. */
  lemma DigitsOfNonNegative(n: nat)
    requires n <= LongLongMax
    ensures var buf := IntToString(n); var out := Spaced(buf, FirstGroup(|buf|));
      && Unspace(out) == NatToString(n)
      && AllDigits(Unspace(out)) && DigitsValue(Unspace(out)) == n
  {
    Printed(n);
  }

  // ------------------------------------------------------ negative numbers

  /** A negative number whose digit count is a multiple of three is printed
      with a space between the minus sign and its digits: the '-' is
      counted as a digit and becomes a group of its own. */
  lemma NegativeSignDetached(n: int)
    requires LongLongMin <= n < 0 && |NatToString(-n)| % 3 == 0
    ensures var buf := IntToString(n); var out := Spaced(buf, FirstGroup(|buf|));
      |out| >= 2 && out[..2] == "- "
  {
    SignGroupAlone(NatToString(-n));
  }

  /** A sign in front of 3m digits is a first group of one character. */
  lemma SignGroupAlone(digits: string)
    requires |digits| >= 1 && |digits| % 3 == 0
    ensures var buf := "-" + digits; var out := Spaced(buf, FirstGroup(|buf|));
      |out| >= 2 && out[..2] == "- "
  {
    var buf := "-" + digits;
    assert FirstGroup(|buf|) == 1;
    assert buf[..1] == "-" && buf[1..] == digits;
    var rest := Chunks(digits, 3);
    assert Chunks(buf, 1) == ["-"] + rest;
    JoinCons("-", rest);
  }

  /** -123 comes out as "- 123". */
  lemma MinusOneTwoThree()
    ensures Spaced(IntToString(-123), FirstGroup(|IntToString(-123)|)) == "- 123"
  {
    assert NatToString(123) == "123";
    var buf := IntToString(-123);
    assert buf == "-123";
    assert FirstGroup(4) == 1;
    assert Chunks("123", 3) == ["123"];
    JoinCons("-", ["123"]);
  }

  /** Digit grouping with the sign kept in front of the first group. */
  function FormatSigned(n: int): string {
    var digits := if n < 0 then NatToString(-n) else NatToString(n);
    var grouped := Spaced(digits, FirstGroup(|digits|));
    if n < 0 then "-" + grouped else grouped
  }

  /** The corrected grouping keeps the sign next to the digits, groups the
      digits alone, and agrees with print_with_spaces on every n >= 0. */
  lemma FormatSignedGroupsDigits(n: int)
    requires LongLongMin <= n <= LongLongMax
    ensures var digits := if n < 0 then NatToString(-n) else NatToString(n);
      && Unspace(FormatSigned(n)) == IntToString(n)
      && (n < 0 ==> FormatSigned(n)[1] != ' ')
      && Split(FormatSigned(n), ' ') == (if n < 0 then ["-" + Chunks(digits, FirstGroup(|digits|))[0]]
           + Chunks(digits, FirstGroup(|digits|))[1..] else Chunks(digits, FirstGroup(|digits|)))
      && (n >= 0 ==> FormatSigned(n) == Spaced(IntToString(n), FirstGroup(|IntToString(n)|)))
  {
    var digits := if n < 0 then NatToString(-n) else NatToString(n);
    var g := FirstGroup(|digits|);
    var chunks := Chunks(digits, g);
    assert ' ' !in digits by {
      assert forall k :: 0 <= k < |digits| ==> IsDigit(digits[k]);
    }
    UnspaceSpaced(digits, g);
    ChunkSizes(digits, g);
    if n < 0 {
      UnspaceAppend("-", Spaced(digits, g));
      var signed := ["-" + chunks[0]] + chunks[1..];
      assert Join(signed, ' ') == "-" + Join(chunks, ' ') by {
        SignedJoin(chunks);
      }
      assert forall k :: 0 <= k < |signed| ==> ' ' !in signed[k] by {
        assert signed[0] == "-" + chunks[0];
        assert forall k :: 1 <= k < |signed| ==> signed[k] == chunks[k];
      }
      SplitJoin(signed, ' ');
      assert |chunks[0]| >= 1;
      assert FormatSigned(n)[1] == chunks[0][0] == digits[0];
    } else {
      SplitJoin(chunks, ' ');
    }
  }

  /** Putting the sign in front of the first group is putting it in front of
      the joined text. */
  lemma SignedJoin(chunks: seq<string>)
    requires |chunks| >= 1
    ensures Join(["-" + chunks[0]] + chunks[1..], ' ') == "-" + Join(chunks, ' ')
  {
    var first, rest := chunks[0], chunks[1..];
    assert chunks == [first] + rest;
    if |rest| > 0 {
      JoinCons("-" + first, rest);
      JoinCons(first, rest);
      Assoc("-", first + [' '], Join(rest, ' '));
      Assoc("-", first, [' ']);
    } else {
      assert ["-" + first] + rest == ["-" + first];
      assert chunks == [first];
    }
  }
}
