/** Greedy line wrapping as both video renderers do it, with the font measure
    `draw.textlength` left uninterpreted.

    Two modes exist.  Character mode grows a line one character at a time and
    breaks before the first character that would make it too wide (a line is
    never left empty, so a single character wider than the limit still gets a
    line of its own).  Word mode splits the paragraph on single spaces, places
    the first word of each line unconditionally and adds following words while
    the line still fits.

    The specifications are the functions `CharWrap` and `WordWrap`; the loops
    the renderers run are the methods `CharWrapLoop` and `WordWrapLoop`,
    proved equal to them. */
module TextWrap {
  import opened PyStr

  /** draw.textlength(text, font=font) for the one font in use. */
  type Measure = string -> real

  /** The lines glued back together with nothing in between. */
  function Concat(lines: seq<string>): string {
    if lines == [] then "" else lines[0] + Concat(lines[1..])
  }

  predicate FitsIn(width: Measure, maxWidth: int, line: string) {
    width(line) <= maxWidth as real
  }

  // ---------------------------------------------------------------- character mode

  /** The lines still to come when `current` is being grown and `rest` is unread. */
  function CharWrapFrom(width: Measure, maxWidth: int, current: string, rest: string): seq<string>
    decreases |rest|
  {
    if rest == [] then (if current == [] then [] else [current])
    else
      var trial := current + [rest[0]];
      if FitsIn(width, maxWidth, trial) || current == [] then CharWrapFrom(width, maxWidth, trial, rest[1..])
      else [current] + CharWrapFrom(width, maxWidth, [rest[0]], rest[1..])
  }

  function CharWrap(width: Measure, maxWidth: int, paragraph: string): seq<string> {
    CharWrapFrom(width, maxWidth, "", paragraph)
  }

  /** Character mode loses and adds nothing: the lines concatenate back to the input. */
  lemma {:induction false} CharWrapFromConcat(width: Measure, maxWidth: int, current: string, rest: string)
    ensures Concat(CharWrapFrom(width, maxWidth, current, rest)) == current + rest
    decreases |rest|
  {
    if rest == [] {
      if current != [] {
        assert Concat([current]) == current + Concat([]);
      }
    } else {
      var trial := current + [rest[0]];
      assert trial + rest[1..] == current + rest;
      if FitsIn(width, maxWidth, trial) || current == [] {
        CharWrapFromConcat(width, maxWidth, trial, rest[1..]);
      } else {
        CharWrapFromConcat(width, maxWidth, [rest[0]], rest[1..]);
        var tail := CharWrapFrom(width, maxWidth, [rest[0]], rest[1..]);
        assert ([current] + tail)[1..] == tail;
        assert [rest[0]] + rest[1..] == rest;
      }
    }
  }

  lemma CharWrapConcat(width: Measure, maxWidth: int, paragraph: string)
    ensures Concat(CharWrap(width, maxWidth, paragraph)) == paragraph
  {
    CharWrapFromConcat(width, maxWidth, "", paragraph);
  }

  /** A line character mode may emit: it fits, or it is one character. */
  predicate CharLineOk(width: Measure, maxWidth: int, line: string) {
    line != [] && (FitsIn(width, maxWidth, line) || |line| == 1)
  }

  predicate CharLinesOk(width: Measure, maxWidth: int, lines: seq<string>) {
    forall k :: 0 <= k < |lines| ==> CharLineOk(width, maxWidth, lines[k])
  }

  /** Each break was forced: the next line's first character would not have fit. */
  predicate CharBreaksGreedy(width: Measure, maxWidth: int, lines: seq<string>) {
    forall i :: 0 < i < |lines| ==>
      lines[i] != [] && !FitsIn(width, maxWidth, lines[i - 1] + [lines[i][0]])
  }

  lemma {:induction false} CharWrapFromLinesOk(width: Measure, maxWidth: int, current: string, rest: string)
    requires current == [] || CharLineOk(width, maxWidth, current)
    ensures CharLinesOk(width, maxWidth, CharWrapFrom(width, maxWidth, current, rest))
    decreases |rest|
  {
    if rest != [] {
      var trial := current + [rest[0]];
      if FitsIn(width, maxWidth, trial) || current == [] {
        CharWrapFromLinesOk(width, maxWidth, trial, rest[1..]);
      } else {
        CharWrapFromLinesOk(width, maxWidth, [rest[0]], rest[1..]);
      }
    }
  }

  /** Every character-mode line is non-empty and fits, or is a single character. */
  lemma CharWrapLinesOk(width: Measure, maxWidth: int, paragraph: string)
    ensures CharLinesOk(width, maxWidth, CharWrap(width, maxWidth, paragraph))
  {
    CharWrapFromLinesOk(width, maxWidth, "", paragraph);
  }

  /** The first line starts with what is being grown (or with the next character). */
  lemma {:induction false} CharWrapFromFirst(width: Measure, maxWidth: int, current: string, rest: string)
    requires current != [] || rest != []
    ensures CharWrapFrom(width, maxWidth, current, rest) != []
    ensures CharWrapFrom(width, maxWidth, current, rest)[0] != []
    ensures CharWrapFrom(width, maxWidth, current, rest)[0][0] == (if current != [] then current[0] else rest[0])
    decreases |rest|
  {
    if rest != [] {
      var trial := current + [rest[0]];
      if FitsIn(width, maxWidth, trial) || current == [] {
        CharWrapFromFirst(width, maxWidth, trial, rest[1..]);
      }
    }
  }

  /** Putting a line in front of greedy lines keeps them greedy when the break
      before them was forced. */
  lemma CharBreaksCons(width: Measure, maxWidth: int, line: string, tail: seq<string>)
    requires tail != [] && tail[0] != [] && !FitsIn(width, maxWidth, line + [tail[0][0]])
    requires CharBreaksGreedy(width, maxWidth, tail)
    ensures CharBreaksGreedy(width, maxWidth, [line] + tail)
  {
    var lines := [line] + tail;
    forall i | 0 < i < |lines|
      ensures lines[i] != [] && !FitsIn(width, maxWidth, lines[i - 1] + [lines[i][0]])
    {
      if i == 1 {
        assert lines[i - 1] == line && lines[i] == tail[0];
      } else {
        assert lines[i - 1] == tail[i - 2] && lines[i] == tail[i - 1];
      }
    }
  }

  /** A line break is taken only when the next character would not fit on the line. */
  lemma {:induction false} CharWrapFromGreedy(width: Measure, maxWidth: int, current: string, rest: string)
    ensures CharBreaksGreedy(width, maxWidth, CharWrapFrom(width, maxWidth, current, rest))
    decreases |rest|
  {
    if rest == [] {
      assert |CharWrapFrom(width, maxWidth, current, rest)| <= 1;
    } else {
      var trial := current + [rest[0]];
      if FitsIn(width, maxWidth, trial) || current == [] {
        CharWrapFromGreedy(width, maxWidth, trial, rest[1..]);
      } else {
        var tail := CharWrapFrom(width, maxWidth, [rest[0]], rest[1..]);
        CharWrapFromGreedy(width, maxWidth, [rest[0]], rest[1..]);
        CharWrapFromFirst(width, maxWidth, [rest[0]], rest[1..]);
        CharBreaksCons(width, maxWidth, current, tail);
      }
    }
  }

  lemma CharWrapGreedy(width: Measure, maxWidth: int, paragraph: string)
    ensures CharBreaksGreedy(width, maxWidth, CharWrap(width, maxWidth, paragraph))
  {
    CharWrapFromGreedy(width, maxWidth, "", paragraph);
  }

  /** The character-mode loop. */
  method CharWrapLoop(width: Measure, maxWidth: int, paragraph: string) returns (lines: seq<string>)
    ensures lines == CharWrap(width, maxWidth, paragraph)
  {
    lines := [];
    var current := "";
    for i := 0 to |paragraph|
      invariant lines + CharWrapFrom(width, maxWidth, current, paragraph[i..]) == CharWrap(width, maxWidth, paragraph)
    {
      var ch := paragraph[i];
      var trial := current + [ch];
      assert paragraph[i..][1..] == paragraph[i + 1..];
      if FitsIn(width, maxWidth, trial) || current == [] {
        current := trial;
      } else {
        assert lines + ([current] + CharWrapFrom(width, maxWidth, [ch], paragraph[i + 1..]))
            == (lines + [current]) + CharWrapFrom(width, maxWidth, [ch], paragraph[i + 1..]);
        lines := lines + [current];
        current := [ch];
      }
    }
    assert paragraph[|paragraph|..] == [];
    if current != [] {
      lines := lines + [current];
    } else {
      assert lines + [] == lines;
    }
  }

  // ---------------------------------------------------------------- word mode

  /** The lines still to come when `current` holds the line being built and
      `words` are the words not yet placed. */
  function WordWrapFrom(width: Measure, maxWidth: int, current: string, words: seq<string>): (lines: seq<string>)
    ensures |lines| >= 1
    decreases |words|
  {
    if words == [] then [current]
    else
      var trial := current + (" " + words[0]);
      if FitsIn(width, maxWidth, trial) then WordWrapFrom(width, maxWidth, trial, words[1..])
      else [current] + WordWrapFrom(width, maxWidth, words[0], words[1..])
  }

  function WordWrap(width: Measure, maxWidth: int, paragraph: string): seq<string> {
    var words := Split(paragraph, ' ');
    WordWrapFrom(width, maxWidth, words[0], words[1..])
  }

  /** The first word of a line: line.split(" ")[0]. */
  function FirstWord(line: string): string {
    Split(line, ' ')[0]
  }

  /** Every line of two or more words fits. */
  predicate WordLinesFit(width: Measure, maxWidth: int, lines: seq<string>) {
    forall k :: 0 <= k < |lines| ==> ' ' in lines[k] ==> FitsIn(width, maxWidth, lines[k])
  }

  /** Each break was forced: the next line's first word would not have fit after a space. */
  predicate WordBreaksGreedy(width: Measure, maxWidth: int, lines: seq<string>) {
    forall i :: 0 < i < |lines| ==>
      !FitsIn(width, maxWidth, lines[i - 1] + (" " + FirstWord(lines[i])))
  }

  lemma JoinCons(x: string, ys: seq<string>, sep: char)
    requires ys != []
    ensures Join([x] + ys, sep) == x + ([sep] + Join(ys, sep))
  {
    assert ([x] + ys)[1..] == ys;
  }

  lemma JoinMergeFirst(a: string, b: string, xs: seq<string>, sep: char)
    ensures Join([a + ([sep] + b)] + xs, sep) == Join([a, b] + xs, sep)
  {
    if xs == [] {
      assert [a, b] + xs == [a, b];
      assert [a, b][1..] == [b];
    } else {
      JoinCons(a + ([sep] + b), xs, sep);
      JoinCons(b, xs, sep);
      assert [a, b] + xs == [a] + ([b] + xs);
      JoinCons(a, [b] + xs, sep);
    }
  }

  lemma {:induction false} WordWrapFromJoin(width: Measure, maxWidth: int, current: string, words: seq<string>)
    ensures Join(WordWrapFrom(width, maxWidth, current, words), ' ') == Join([current] + words, ' ')
    decreases |words|
  {
    if words == [] {
      assert [current] + words == [current];
    } else {
      var trial := current + (" " + words[0]);
      assert [current] + words == [current, words[0]] + words[1..];
      if FitsIn(width, maxWidth, trial) {
        WordWrapFromJoin(width, maxWidth, trial, words[1..]);
        JoinMergeFirst(current, words[0], words[1..], ' ');
      } else {
        var tail := WordWrapFrom(width, maxWidth, words[0], words[1..]);
        WordWrapFromJoin(width, maxWidth, words[0], words[1..]);
        JoinCons(current, tail, ' ');
        assert [current, words[0]] + words[1..] == [current] + ([words[0]] + words[1..]);
        JoinCons(current, [words[0]] + words[1..], ' ');
      }
    }
  }

  /** Word mode loses and adds nothing: joining the lines with " " gives back the paragraph. */
  lemma WordWrapJoin(width: Measure, maxWidth: int, paragraph: string)
    ensures Join(WordWrap(width, maxWidth, paragraph), ' ') == paragraph
  {
    var words := Split(paragraph, ' ');
    WordWrapFromJoin(width, maxWidth, words[0], words[1..]);
    assert [words[0]] + words[1..] == words;
    JoinSplit(paragraph, ' ');
  }

  lemma {:induction false} WordWrapFromFits(width: Measure, maxWidth: int, current: string, words: seq<string>)
    requires ' ' in current ==> FitsIn(width, maxWidth, current)
    requires forall i :: 0 <= i < |words| ==> ' ' !in words[i]
    ensures WordLinesFit(width, maxWidth, WordWrapFrom(width, maxWidth, current, words))
    decreases |words|
  {
    if words != [] {
      var trial := current + (" " + words[0]);
      if FitsIn(width, maxWidth, trial) {
        WordWrapFromFits(width, maxWidth, trial, words[1..]);
      } else {
        WordWrapFromFits(width, maxWidth, words[0], words[1..]);
      }
    }
  }

  /** Only a line of one word may be too wide: every line holding a space fits. */
  lemma WordWrapFits(width: Measure, maxWidth: int, paragraph: string)
    ensures WordLinesFit(width, maxWidth, WordWrap(width, maxWidth, paragraph))
  {
    var words := Split(paragraph, ' ');
    WordWrapFromFits(width, maxWidth, words[0], words[1..]);
  }

  /** The first line is `current` followed by nothing or by a space and more. */
  lemma {:induction false} WordWrapFromFirst(width: Measure, maxWidth: int, current: string, words: seq<string>)
    ensures var line := WordWrapFrom(width, maxWidth, current, words)[0];
            |current| <= |line| && line[..|current|] == current
            && (|line| == |current| || line[|current|] == ' ')
    decreases |words|
  {
    if words != [] {
      var trial := current + (" " + words[0]);
      if FitsIn(width, maxWidth, trial) {
        WordWrapFromFirst(width, maxWidth, trial, words[1..]);
        var line := WordWrapFrom(width, maxWidth, trial, words[1..])[0];
        assert line[..|current|] == trial[..|current|];
        assert line[|current|] == trial[|current|];
      }
    }
  }

  lemma FirstWordOfLine(current: string, line: string)
    requires ' ' !in current
    requires |current| <= |line| && line[..|current|] == current
    requires |line| == |current| || line[|current|] == ' '
    ensures FirstWord(line) == current
  {
    var x := line[|current|..];
    assert line == current + x;
    SplitPlainPrefix(current, x, ' ');
    if x != [] {
      assert x == [' '] + x[1..];
      SplitSeparatorFirst(x[1..], ' ');
    }
    assert current + "" == current;
  }

  /** A line break is taken only when the next line's first word would not fit after a space. */
  lemma {:induction false} WordWrapFromGreedy(width: Measure, maxWidth: int, current: string, words: seq<string>)
    requires forall i :: 0 <= i < |words| ==> ' ' !in words[i]
    ensures WordBreaksGreedy(width, maxWidth, WordWrapFrom(width, maxWidth, current, words))
    decreases |words|
  {
    if words != [] {
      var trial := current + (" " + words[0]);
      if FitsIn(width, maxWidth, trial) {
        WordWrapFromGreedy(width, maxWidth, trial, words[1..]);
      } else {
        var tail := WordWrapFrom(width, maxWidth, words[0], words[1..]);
        WordWrapFromGreedy(width, maxWidth, words[0], words[1..]);
        WordWrapFromFirst(width, maxWidth, words[0], words[1..]);
        FirstWordOfLine(words[0], tail[0]);
        var lines := [current] + tail;
        forall i | 0 < i < |lines|
          ensures !FitsIn(width, maxWidth, lines[i - 1] + (" " + FirstWord(lines[i])))
        {
          if i == 1 {
            assert lines[i - 1] == current && lines[i] == tail[0];
          } else {
            assert lines[i - 1] == tail[i - 2] && lines[i] == tail[i - 1];
          }
        }
      }
    }
  }

  lemma WordWrapGreedy(width: Measure, maxWidth: int, paragraph: string)
    ensures WordBreaksGreedy(width, maxWidth, WordWrap(width, maxWidth, paragraph))
  {
    var words := Split(paragraph, ' ');
    WordWrapFromGreedy(width, maxWidth, words[0], words[1..]);
  }

  /** An empty paragraph gives one empty line, because "".split(" ") is [""]. */
  lemma WordWrapEmpty(width: Measure, maxWidth: int)
    ensures WordWrap(width, maxWidth, "") == [""]
  {
    assert Split("", ' ') == [""];
  }

  /** The word-mode loop. */
  method WordWrapLoop(width: Measure, maxWidth: int, paragraph: string) returns (lines: seq<string>)
    ensures lines == WordWrap(width, maxWidth, paragraph)
  {
    var words := Split(paragraph, ' ');
    lines := [];
    var current := words[0];
    for i := 1 to |words|
      invariant lines + WordWrapFrom(width, maxWidth, current, words[i..]) == WordWrap(width, maxWidth, paragraph)
    {
      var w := words[i];
      var trial := current + (" " + w);
      assert words[i..][1..] == words[i + 1..];
      if FitsIn(width, maxWidth, trial) {
        current := trial;
      } else {
        assert lines + ([current] + WordWrapFrom(width, maxWidth, w, words[i + 1..]))
            == (lines + [current]) + WordWrapFrom(width, maxWidth, w, words[i + 1..]);
        lines := lines + [current];
        current := w;
      }
    }
    assert words[|words|..] == [];
    lines := lines + [current];
  }

  // ---------------------------------------------------------------- whole texts

  /** The lines of a text whose paragraphs are wrapped one after the other,
      each by `wrap`, into one list. */
  function WrapAll(wrap: string -> seq<string>, paragraphs: seq<string>): seq<string>
    decreases |paragraphs|
  {
    if paragraphs == [] then []
    else WrapAll(wrap, paragraphs[..|paragraphs| - 1]) + wrap(paragraphs[|paragraphs| - 1])
  }

  /** Paragraphs are wrapped independently of each other. */
  lemma {:induction false} WrapAllAppend(wrap: string -> seq<string>, a: seq<string>, b: seq<string>)
    ensures WrapAll(wrap, a + b) == WrapAll(wrap, a) + WrapAll(wrap, b)
    decreases |b|
  {
    if b == [] {
      assert a + b == a;
    } else {
      var b' := b[..|b| - 1];
      assert (a + b)[..|a + b| - 1] == a + b';
      WrapAllAppend(wrap, a, b');
    }
  }

  lemma NotInConcatPart(x: string, y: string, c: char)
    requires c !in x + y
    ensures c !in x && c !in y
  {
  }

  /** A character absent from the whole is absent from every line. */
  lemma {:induction false} NotInConcat(lines: seq<string>, c: char)
    requires c !in Concat(lines)
    ensures forall k :: 0 <= k < |lines| ==> c !in lines[k]
  {
    if lines != [] {
      NotInConcatPart(lines[0], Concat(lines[1..]), c);
      NotInConcat(lines[1..], c);
      assert forall k :: 1 <= k < |lines| ==> lines[k] == lines[1..][k - 1];
    }
  }

  lemma {:induction false} NotInJoin(parts: seq<string>, sep: char, c: char)
    requires c !in Join(parts, sep)
    ensures forall k :: 0 <= k < |parts| ==> c !in parts[k]
  {
    if |parts| >= 2 {
      NotInConcatPart(parts[0], [sep] + Join(parts[1..], sep), c);
      NotInConcatPart([sep], Join(parts[1..], sep), c);
      NotInJoin(parts[1..], sep, c);
      assert forall k :: 1 <= k < |parts| ==> parts[k] == parts[1..][k - 1];
    }
  }

  /** Wrapping never introduces a character, so a separator absent from every
      paragraph is absent from every line. */
  ghost predicate Keeps(wrap: string -> seq<string>, c: char) {
    forall p :: c !in p ==> |wrap(p)| >= 1 && forall k :: 0 <= k < |wrap(p)| ==> c !in wrap(p)[k]
  }

  lemma {:induction false} WrapAllLines(wrap: string -> seq<string>, paragraphs: seq<string>, c: char)
    requires Keeps(wrap, c)
    requires forall i :: 0 <= i < |paragraphs| ==> c !in paragraphs[i]
    ensures |WrapAll(wrap, paragraphs)| >= |paragraphs|
    ensures forall k :: 0 <= k < |WrapAll(wrap, paragraphs)| ==> c !in WrapAll(wrap, paragraphs)[k]
    decreases |paragraphs|
  {
    if paragraphs != [] {
      var init := paragraphs[..|paragraphs| - 1];
      WrapAllLines(wrap, init, c);
      var a := WrapAll(wrap, init);
      var b := wrap(paragraphs[|paragraphs| - 1]);
      assert forall k :: |a| <= k < |a + b| ==> (a + b)[k] == b[k - |a|];
    }
  }

  /** The text produced is the lines joined by "\n"; splitting it on "\n"
      gives back exactly those lines. */
  lemma WrapAllSplit(wrap: string -> seq<string>, text: string)
    requires Keeps(wrap, '\n')
    ensures Split(Join(WrapAll(wrap, Split(text, '\n')), '\n'), '\n') == WrapAll(wrap, Split(text, '\n'))
  {
    WrapAllLines(wrap, Split(text, '\n'), '\n');
    SplitJoin(WrapAll(wrap, Split(text, '\n')), '\n');
  }
}
