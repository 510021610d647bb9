/** The Python string, integer and list behaviour the scripts rely on:
    str.split, str.join, str.strip, str.replace, str.startswith, `in`,
    int(), str() of an int, "{:,}" grouping and negative list indexing.
    Characters are Unicode scalar values, as Python's str iterates them. */
module PyStr {

  datatype Option<+T> = None | Some(value: T) {
    predicate IsFailure() { None? }
    function PropagateFailure<U>(): Option<U> requires None? { None }
    function Extract(): T requires Some? { value }
  }

  /** str.isspace() for one character (the whitespace Python strips and splits on). */
  predicate IsSpace(c: char) {
    || c == ' '
    || ('\t' <= c <= '\r')
    || ('\U{1c}' <= c <= '\U{1f}')
    || c == '\U{85}' || c == '\U{a0}' || c == '\U{1680}'
    || ('\U{2000}' <= c <= '\U{200a}')
    || c == '\U{2028}' || c == '\U{2029}' || c == '\U{202f}' || c == '\U{205f}' || c == '\U{3000}'
  }

  predicate IsDigit(c: char) { '0' <= c <= '9' }

  predicate AllDigits(s: string) { forall i :: 0 <= i < |s| ==> IsDigit(s[i]) }

  /** The value of a decimal digit; other characters never reach it in a parse. */
  function DigitValue(c: char): nat {
    if IsDigit(c) then c as int - '0' as int else 0
  }

  function DigitChar(n: nat): (c: char)
    requires n < 10
    ensures IsDigit(c) && DigitValue(c) == n
  {
    ('0' as int + n) as char
  }

  /** s.startswith(p) */
  predicate StartsWith(s: string, p: string) {
    |p| <= |s| && s[..|p|] == p
  }

  /** `p in s` for two strings */
  predicate Contains(s: string, p: string) {
    exists i :: 0 <= i <= |s| && StartsWith(s[i..], p)
  }

  // ---------------------------------------------------------------- split / join

  /** s.split(sep) for a one-character separator. */
  function Split(s: string, sep: char): (parts: seq<string>)
    ensures |parts| >= 1
    ensures forall i :: 0 <= i < |parts| ==> sep !in parts[i]
  {
    if |s| == 0 then [""]
    else
      var rest := Split(s[1..], sep);
      if s[0] == sep then [""] + rest
      else [[s[0]] + rest[0]] + rest[1..]
  }

  /** sep.join(parts) for a one-character separator. */
  function Join(parts: seq<string>, sep: char): string {
    if |parts| == 0 then ""
    else if |parts| == 1 then parts[0]
    else parts[0] + ([sep] + Join(parts[1..], sep))
  }

  /** Joining the pieces of a split gives back the string. */
  lemma {:induction false} JoinSplit(s: string, sep: char)
    ensures Join(Split(s, sep), sep) == s
  {
    if s != [] {
      JoinSplit(s[1..], sep);
      var rest := Split(s[1..], sep);
      if s[0] == sep {
        assert Join([""] + rest, sep) == [sep] + Join(rest, sep);
      } else {
        var parts := [[s[0]] + rest[0]] + rest[1..];
        if |rest| == 1 {
          assert Join(parts, sep) == [s[0]] + rest[0];
        } else {
          assert Join(rest, sep) == rest[0] + [sep] + Join(rest[1..], sep);
          assert parts[1..] == rest[1..];
          assert Join(parts, sep) == [s[0]] + rest[0] + [sep] + Join(rest[1..], sep);
        }
      }
    }
  }

  lemma {:induction false} SplitSeparatorFirst(rest: string, sep: char)
    ensures Split([sep] + rest, sep) == [""] + Split(rest, sep)
  {
    assert ([sep] + rest)[1..] == rest;
  }

  /** A separator-free prefix is glued to the first piece of what follows it. */
  lemma {:induction false} SplitPlainPrefix(a: string, rest: string, sep: char)
    requires sep !in a
    ensures Split(a + rest, sep) == [a + Split(rest, sep)[0]] + Split(rest, sep)[1..]
    decreases |a|
  {
    if a != [] {
      SplitPlainPrefix(a[1..], rest, sep);
      assert (a + rest)[1..] == a[1..] + rest;
      assert (a + rest)[0] == a[0];
      assert [a[0]] + (a[1..] + Split(rest, sep)[0]) == a + Split(rest, sep)[0];
    } else {
      var parts := Split(rest, sep);
      assert a + rest == rest;
      assert a + parts[0] == parts[0];
      assert parts == [parts[0]] + parts[1..];
    }
  }

  /** Splitting a join of separator-free pieces gives back the pieces. */
  lemma {:induction false} SplitJoin(parts: seq<string>, sep: char)
    requires |parts| >= 1
    requires forall i :: 0 <= i < |parts| ==> sep !in parts[i]
    ensures Split(Join(parts, sep), sep) == parts
  {
    if |parts| == 1 {
      SplitPlainPrefix(parts[0], "", sep);
      assert Split("", sep) == [""];
      assert parts[0] + "" == parts[0];
    } else {
      var tail := Join(parts[1..], sep);
      SplitJoin(parts[1..], sep);
      assert Join(parts, sep) == parts[0] + ([sep] + tail);
      SplitPlainPrefix(parts[0], [sep] + tail, sep);
      SplitSeparatorFirst(tail, sep);
      assert Split([sep] + tail, sep) == [""] + parts[1..];
      assert parts[0] + "" == parts[0];
      assert parts == [parts[0]] + parts[1..];
    }
  }

  // ---------------------------------------------------------------- strip / split()

  /** s.lstrip() */
  function LStrip(s: string): (r: string)
    ensures |r| <= |s|
    ensures |r| == 0 || !IsSpace(r[0])
  {
    if |s| > 0 && IsSpace(s[0]) then LStrip(s[1..]) else s
  }

  /** s.rstrip() */
  function RStrip(s: string): (r: string)
    ensures |r| <= |s| && r == s[..|r|]
    ensures |r| == 0 || !IsSpace(r[|r| - 1])
  {
    if |s| > 0 && IsSpace(s[|s| - 1]) then RStrip(s[..|s| - 1]) else s
  }

  /** s.strip() */
  function Strip(s: string): (r: string)
    ensures |r| == 0 || (!IsSpace(r[0]) && !IsSpace(r[|r| - 1]))
  {
    RStrip(LStrip(s))
  }

  lemma StripNoSpaceEnds(s: string)
    requires s == [] || (!IsSpace(s[0]) && !IsSpace(s[|s| - 1]))
    ensures Strip(s) == s
  {
  }

  predicate NoSpace(s: string) {
    forall i :: 0 <= i < |s| ==> !IsSpace(s[i])
  }

  /** The longest prefix without whitespace. */
  function TakeWord(s: string): (w: string)
    ensures |w| <= |s| && w == s[..|w|]
    ensures forall i :: 0 <= i < |w| ==> !IsSpace(w[i])
    ensures s != [] && !IsSpace(s[0]) ==> |w| >= 1
  {
    if |s| > 0 && !IsSpace(s[0]) then [s[0]] + TakeWord(s[1..]) else []
  }

  /** s.split() with no argument: the maximal runs of non-whitespace. */
  function SplitWs(s: string): (words: seq<string>)
    ensures forall k :: 0 <= k < |words| ==> words[k] != [] && forall i :: 0 <= i < |words[k]| ==> !IsSpace(words[k][i])
    decreases |s|
  {
    var t := LStrip(s);
    if |t| == 0 then []
    else
      var w := TakeWord(t);
      [w] + SplitWs(t[|w|..])
  }

  /** A word runs up to the first whitespace. */
  lemma {:induction false} TakeWordPrefix(a: string, rest: string)
    requires NoSpace(a)
    requires rest == [] || IsSpace(rest[0])
    ensures TakeWord(a + rest) == a
  {
    if a == [] {
      assert a + rest == rest;
    } else {
      assert (a + rest)[1..] == a[1..] + rest;
      TakeWordPrefix(a[1..], rest);
    }
  }

  /** A leading word is split off as the first piece. */
  lemma SplitWsLeadingWord(a: string, rest: string)
    requires a != [] && NoSpace(a)
    requires rest == [] || IsSpace(rest[0])
    ensures SplitWs(a + rest) == [a] + SplitWs(rest)
  {
    var s := a + rest;
    assert s[0] == a[0];
    assert LStrip(s) == s;
    TakeWordPrefix(a, rest);
    assert s[|a|..] == rest;
  }

  lemma SplitWsLeadingSpace(b: string)
    requires b == [] || !IsSpace(b[0])
    ensures SplitWs(" " + b) == SplitWs(b)
  {
    var t := " " + b;
    assert t[1..] == b;
    assert LStrip(t) == LStrip(b);
  }

  lemma SplitWsSpaceWord(b: string)
    requires b != [] && NoSpace(b)
    ensures SplitWs(" " + b) == [b]
  {
    SplitWsLeadingSpace(b);
    SplitWsLeadingWord(b, []);
    assert b + [] == b;
  }

  /** Two words with one space between them split into those two words. */
  lemma SplitWsTwoWords(a: string, b: string)
    requires a != [] && b != [] && NoSpace(a) && NoSpace(b)
    ensures SplitWs(a + (" " + b)) == [a, b]
  {
    SplitWsLeadingWord(a, " " + b);
    SplitWsSpaceWord(b);
  }

  /** A character absent from both pieces is absent from their concatenation. */
  lemma ConcatFree(x: string, y: string, c: char)
    requires c !in x && c !in y
    ensures c !in x + y
  {
  }

  lemma ConcatFree3(a: string, b: string, x: string, y: string, c: char)
    requires c !in a && c !in b && c !in x && c !in y
    ensures c !in a + (b + (x + y))
  {
    ConcatFree(x, y, c);
    ConcatFree(b, x + y, c);
    ConcatFree(a, b + (x + y), c);
  }

  /** Three separator-free pieces joined by the separator split back into them. */
  lemma SplitThree(a: string, b: string, c: string, sep: char)
    requires sep !in a && sep !in b && sep !in c
    ensures Split(a + ([sep] + (b + ([sep] + c))), sep) == [a, b, c]
  {
    var parts := [a, b, c];
    assert parts[1..][1..] == [c];
    assert Join(parts[1..], sep) == b + ([sep] + c);
    assert Join(parts, sep) == a + ([sep] + (b + ([sep] + c)));
    SplitJoin(parts, sep);
  }

  // ---------------------------------------------------------------- replace

  /** s.replace(pat, sub) for a non-empty pat: left to right, non-overlapping. */
  function Replace(s: string, pat: string, sub: string): string
    requires pat != []
    decreases |s|
  {
    if |s| < |pat| then s
    else if s[..|pat|] == pat then sub + Replace(s[|pat|..], pat, sub)
    else [s[0]] + Replace(s[1..], pat, sub)
  }

  /** Removing every occurrence of one character leaves none of it. */
  lemma {:induction false} RemoveCharLeavesNone(s: string, c: char)
    ensures c !in Replace(s, [c], "")
    decreases |s|
  {
    if |s| >= 1 {
      RemoveCharLeavesNone(s[1..], c);
      assert s[1..] == s[|[c]|..];
    }
  }

  /** Removing a character from a string that has none of it changes nothing. */
  lemma {:induction false} RemoveAbsentChar(s: string, c: char)
    requires c !in s
    ensures Replace(s, [c], "") == s
    decreases |s|
  {
    if |s| >= 1 {
      RemoveAbsentChar(s[1..], c);
      assert s == [s[0]] + s[1..];
    }
  }

  lemma {:induction false} RemoveCharDistributes(a: string, b: string, c: char)
    ensures Replace(a + b, [c], "") == Replace(a, [c], "") + Replace(b, [c], "")
    decreases |a|
  {
    if a == [] {
      assert a + b == b;
    } else {
      RemoveCharDistributes(a[1..], b, c);
      assert (a + b)[1..] == a[1..] + b;
      assert (a + b)[..1] == a[..1];
    }
  }

  /** A pattern whose first character does not occur in s does not occur in s. */
  lemma AbsentFirstChar(s: string, p: string)
    requires p != [] && p[0] !in s
    ensures !Contains(s, p)
  {
  }

  /** Replacing a pattern that does not occur changes nothing. */
  lemma {:induction false} ReplaceAbsent(s: string, pat: string, sub: string)
    requires pat != [] && !Contains(s, pat)
    ensures Replace(s, pat, sub) == s
    decreases |s|
  {
    if |s| >= |pat| {
      assert s[0..] == s;
      assert s[..|pat|] != pat;
      ReplaceAbsent(s[1..], pat, sub);
    }
  }

  /** A leading occurrence is replaced and the scan goes on after it. */
  lemma ReplaceLeading(pat: string, x: string, sub: string)
    requires pat != []
    ensures Replace(pat + x, pat, sub) == sub + Replace(x, pat, sub)
  {
    assert (pat + x)[..|pat|] == pat && (pat + x)[|pat|..] == x;
  }

  // ---------------------------------------------------------------- numbers

  /** The value of a run of ASCII digits, most significant first. */
  function DigitsValue(d: string): nat {
    if |d| == 0 then 0 else 10 * DigitsValue(d[..|d| - 1]) + DigitValue(d[|d| - 1])
  }

  function Pow10(n: nat): (p: nat)
    ensures p >= 1
  {
    if n == 0 then 1 else 10 * Pow10(n - 1)
  }

  lemma {:induction false} DigitsValueAppend(a: string, b: string)
    requires AllDigits(a) && AllDigits(b)
    ensures AllDigits(a + b)
    ensures DigitsValue(a + b) == DigitsValue(a) * Pow10(|b|) + DigitsValue(b)
    decreases |b|
  {
    if b == [] {
      assert a + b == a;
    } else {
      var b' := b[..|b| - 1];
      DigitsValueAppend(a, b');
      assert (a + b)[..|a + b| - 1] == a + b';
      assert DigitsValue(a + b) == 10 * DigitsValue(a + b') + DigitValue(b[|b| - 1]);
      ShiftDigit(DigitsValue(a), Pow10(|b'|), DigitsValue(b'), DigitValue(b[|b| - 1]));
    }
  }

  lemma ShiftDigit(x: int, p: int, v: int, d: int)
    ensures 10 * (x * p + v) + d == x * (10 * p) + (10 * v + d)
  {
  }

  /** str(n) for a natural number. */
  function NatToString(n: nat): (s: string)
    ensures |s| >= 1 && AllDigits(s) && DigitsValue(s) == n
  {
    if n < 10 then [DigitChar(n)]
    else
      var s := NatToString(n / 10) + [DigitChar(n % 10)];
      assert s[..|s| - 1] == NatToString(n / 10);
      s
  }

  /** str(n) for an int. */
  function IntToString(n: int): string {
    if n < 0 then "-" + NatToString(-n) else NatToString(n)
  }

  /** Digits with single underscores between them: the literals int() accepts. */
  predicate IsDecimalLiteral(d: string) {
    && |d| >= 1 && IsDigit(d[0])
    && (|d| == 1 || (d[1] == '_' && IsDecimalLiteral(d[2..])) || IsDecimalLiteral(d[1..]))
  }

  function DropUnderscores(d: string): string {
    if |d| == 0 then []
    else (if d[0] == '_' then [] else [d[0]]) + DropUnderscores(d[1..])
  }

  lemma {:induction false} LiteralDigits(d: string)
    requires IsDecimalLiteral(d)
    ensures AllDigits(DropUnderscores(d))
  {
    var r := DropUnderscores(d);
    if |d| == 1 {
      assert d[1..] == [];
      assert r == [d[0]] + DropUnderscores([]);
    } else if d[1] == '_' && IsDecimalLiteral(d[2..]) {
      LiteralDigits(d[2..]);
      assert d[1..][1..] == d[2..] && d[1..][0] == '_';
      assert DropUnderscores(d[1..]) == DropUnderscores(d[2..]);
      assert r == [d[0]] + DropUnderscores(d[2..]);
    } else {
      LiteralDigits(d[1..]);
    }
  }

  lemma {:induction false} DigitsAreLiteral(d: string)
    requires |d| >= 1 && AllDigits(d)
    ensures IsDecimalLiteral(d)
  {
    if |d| > 1 {
      DigitsAreLiteral(d[1..]);
    }
  }

  lemma {:induction false} DropUnderscoresOfDigits(d: string)
    requires AllDigits(d)
    ensures DropUnderscores(d) == d
  {
    if d != [] {
      DropUnderscoresOfDigits(d[1..]);
    }
  }

  /** The unsigned body of int(): a decimal literal. */
  function ParseUnsigned(d: string): Option<nat> {
    if IsDecimalLiteral(d) then Some(DigitsValue(DropUnderscores(d)))
    else None
  }

  /** int(s) for a str (base 10, ASCII digits). */
  function ParseInt(s: string): Option<int> {
    ParseStripped(Strip(s))
  }

  /** int() after the surrounding whitespace is gone: an optional sign, then a literal. */
  function ParseStripped(t: string): Option<int> {
    if |t| == 0 then None
    else if t[0] == '-' then Negate(ParseUnsigned(t[1..]))
    else if t[0] == '+' then Widen(ParseUnsigned(t[1..]))
    else Widen(ParseUnsigned(t))
  }

  function Widen(m: Option<nat>): Option<int> {
    if m.Some? then Some(m.value as int) else None
  }

  function Negate(m: Option<nat>): Option<int> {
    if m.Some? then Some(-(m.value as int)) else None
  }

  /** A run of digits is a decimal literal whose value is that of the digits. */
  lemma ParseUnsignedDigits(d: string)
    requires |d| >= 1 && AllDigits(d)
    ensures ParseUnsigned(d) == Some(DigitsValue(d))
  {
    DropUnderscoresOfDigits(d);
    DigitsAreLiteral(d);
  }

  lemma ParseStrippedDigits(d: string)
    requires |d| >= 1 && AllDigits(d)
    ensures ParseStripped(d) == Some(DigitsValue(d) as int)
  {
    ParseUnsignedDigits(d);
  }

  lemma ParseStrippedNegative(d: string, n: nat)
    requires ParseUnsigned(d) == Some(n)
    ensures ParseStripped("-" + d) == Some(-(n as int))
  {
    ParseStrippedMinus(d);
  }

  lemma ParseStrippedMinus(d: string)
    ensures ParseStripped("-" + d) == Negate(ParseUnsigned(d))
  {
    assert ("-" + d)[1..] == d;
  }

  /** int() reads plain digits as their value. */
  lemma ParseDigits(d: string)
    requires |d| >= 1 && AllDigits(d)
    ensures ParseInt(d) == Some(DigitsValue(d) as int)
  {
    StripNoSpaceEnds(d);
    ParseStrippedDigits(d);
  }

  /** int() reads a minus sign followed by an unsigned literal as the negated value. */
  lemma ParseNegative(d: string, n: nat)
    requires |d| >= 1 && !IsSpace(d[|d| - 1]) && ParseUnsigned(d) == Some(n)
    ensures ParseInt("-" + d) == Some(-(n as int))
  {
    var s := "-" + d;
    assert s[0] == '-' && s[|s| - 1] == d[|d| - 1];
    StripNoSpaceEnds(s);
    ParseStrippedNegative(d, n);
  }

  /** int(str(n)) == n */
  lemma IntToStringRoundTrip(n: int)
    ensures ParseInt(IntToString(n)) == Some(n)
  {
    if n < 0 {
      var d := NatToString(-n);
      ParseUnsignedDigits(d);
      ParseNegative(d, -n);
    } else {
      ParseDigits(NatToString(n));
    }
  }

  // ---------------------------------------------------------------- "{:,}"

  lemma DigitsValueThree(a: char, b: char, c: char)
    ensures DigitsValue([a, b, c]) == 100 * DigitValue(a) + 10 * DigitValue(b) + DigitValue(c)
  {
    assert [a, b, c][..2] == [a, b];
    assert [a, b][..1] == [a];
    assert [a][..0] == [];
    assert DigitsValue([a]) == DigitValue(a);
    assert DigitsValue([a, b]) == 10 * DigitValue(a) + DigitValue(b);
  }

  /** Exactly three digits, zero-padded. */
  function Pad3(n: nat): (s: string)
    requires n < 1000
    ensures |s| == 3 && AllDigits(s) && DigitsValue(s) == n
  {
    var h, t, u := n / 100, n / 10 % 10, n % 10;
    assert 100 * h + 10 * t + u == n;
    DigitsValueThree(DigitChar(h), DigitChar(t), DigitChar(u));
    [DigitChar(h), DigitChar(t), DigitChar(u)]
  }

  /** "{:,}".format(n) for a natural number: digits grouped by three with commas. */
  function GroupNat(n: nat): string {
    if n < 1000 then NatToString(n) else GroupNat(n / 1000) + "," + Pad3(n % 1000)
  }

  /** "{:,}".format(n) for an int. */
  function GroupThousands(n: int): string {
    if n < 0 then "-" + GroupNat(-n) else GroupNat(n)
  }

  lemma {:induction false} GroupNatDigits(n: nat)
    ensures var d := Replace(GroupNat(n), ",", "");
            |d| >= 1 && AllDigits(d) && DigitsValue(d) == n
  {
    if n >= 1000 {
      GroupNatDigits(n / 1000);
      var head := GroupNat(n / 1000);
      var tail := Pad3(n % 1000);
      RemoveCharDistributes(head, "," + tail, ',');
      RemoveCharDistributes(",", tail, ',');
      RemoveAbsentChar(tail, ',');
      var d0 := Replace(head, ",", "");
      DigitsValueAppend(d0, tail);
      assert Pow10(3) == 1000;
      assert GroupNat(n) == head + ("," + tail);
      assert Replace(",", ",", "") == "";
      assert Replace(GroupNat(n), ",", "") == d0 + tail;
      assert DigitsValue(d0 + tail) == (n / 1000) * 1000 + n % 1000;
    } else {
      RemoveAbsentChar(NatToString(n), ',');
    }
  }

  /** Taking the commas out of a grouped number and reading it with int() gives the number back. */
  lemma GroupThousandsRoundTrip(n: int)
    ensures ParseInt(Replace(GroupThousands(n), ",", "")) == Some(n)
  {
    var m := if n < 0 then -n else n;
    GroupNatDigits(m);
    var d := Replace(GroupNat(m), ",", "");
    if n < 0 {
      RemoveCharDistributes("-", GroupNat(m), ',');
      assert Replace("-", ",", "") == "-";
      assert Replace(GroupThousands(n), ",", "") == "-" + d;
      ParseUnsignedDigits(d);
      ParseNegative(d, m);
    } else {
      ParseDigits(d);
    }
  }

  /** int(s.replace(",", "")): a number that may carry thousands separators. */
  function ParseGrouped(s: string): Option<int> {
    ParseInt(Replace(s, ",", ""))
  }

  /** A plain run of digits reads as its decimal value. */
  lemma ParseGroupedDigits(s: string)
    requires AllDigits(s) && s != []
    ensures ParseGrouped(s) == Some(DigitsValue(s))
  {
    RemoveAbsentChar(s, ',');
    ParseDigits(s);
  }

  // ---------------------------------------------------------------- lists

  /** xs[i] with Python's negative indexing; None where Python raises IndexError. */
  function PyIndex<T>(xs: seq<T>, i: int): (r: Option<T>)
    ensures r.Some? <==> -|xs| <= i < |xs|
    ensures r.Some? ==> r.value == xs[if i < 0 then |xs| + i else i]
  {
    if 0 <= i < |xs| then Some(xs[i])
    else if -|xs| <= i < 0 then Some(xs[|xs| + i])
    else None
  }

  /** xs[::-1] */
  function Reverse<T>(xs: seq<T>): (r: seq<T>)
    ensures |r| == |xs|
    ensures forall i :: 0 <= i < |xs| ==> r[i] == xs[|xs| - 1 - i]
  {
    if |xs| == 0 then [] else Reverse(xs[1..]) + [xs[0]]
  }
}
