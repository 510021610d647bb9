/** The first video renderer's text helpers: Thai detection, the two-mode
    wrapper and the plain-text entry summary. */
module AppPanel {
  import opened PyStr
  import opened Records
  import opened TextWrap

  /** A character of the Thai Unicode block U+0E00..U+0E7F. */
  predicate IsThai(c: char) {
    0x0E00 <= c as int <= 0x0E7F
  }

  predicate HasThai(s: string) {
    exists i :: 0 <= i < |s| && IsThai(s[i])
  }

  /** contains_thai: scans the text and stops at the first Thai character. */
  method ContainsThai(text: string) returns (found: bool)
    ensures found <==> HasThai(text)
  {
    for i := 0 to |text|
      invariant forall j :: 0 <= j < i ==> !IsThai(text[j])
    {
      if IsThai(text[i]) {
        return true;
      }
    }
    return false;
  }

  /** The lines one paragraph contributes: one empty line for an empty
      paragraph, character mode for Thai text or text without a space, word
      mode otherwise. */
  function ParagraphLines(width: Measure, maxWidth: int, paragraph: string): seq<string> {
    if paragraph == "" then [""]
    else if HasThai(paragraph) || ' ' !in paragraph then CharWrap(width, maxWidth, paragraph)
    else WordWrap(width, maxWidth, paragraph)
  }

  /** What the wrapper promises of one paragraph's lines, mode by mode. */
  lemma ParagraphLinesModes(width: Measure, maxWidth: int, paragraph: string)
    ensures paragraph == "" ==> ParagraphLines(width, maxWidth, paragraph) == [""]
    ensures paragraph != "" && (HasThai(paragraph) || ' ' !in paragraph) ==>
              var lines := ParagraphLines(width, maxWidth, paragraph);
              Concat(lines) == paragraph && CharLinesOk(width, maxWidth, lines)
              && CharBreaksGreedy(width, maxWidth, lines)
    ensures paragraph != "" && !(HasThai(paragraph) || ' ' !in paragraph) ==>
              var lines := ParagraphLines(width, maxWidth, paragraph);
              Join(lines, ' ') == paragraph && WordLinesFit(width, maxWidth, lines)
              && WordBreaksGreedy(width, maxWidth, lines)
  {
    CharWrapConcat(width, maxWidth, paragraph);
    CharWrapLinesOk(width, maxWidth, paragraph);
    CharWrapGreedy(width, maxWidth, paragraph);
    WordWrapJoin(width, maxWidth, paragraph);
    WordWrapFits(width, maxWidth, paragraph);
    WordWrapGreedy(width, maxWidth, paragraph);
  }

  /** Lines never hold a character their paragraph lacks, other than the
      space word mode joins with; and every paragraph yields a line. */
  lemma ParagraphLinesKeep(width: Measure, maxWidth: int, c: char)
    requires c != ' '
    ensures Keeps(p => ParagraphLines(width, maxWidth, p), c)
  {
    forall p | c !in p
      ensures |ParagraphLines(width, maxWidth, p)| >= 1
      ensures forall k :: 0 <= k < |ParagraphLines(width, maxWidth, p)| ==> c !in ParagraphLines(width, maxWidth, p)[k]
    {
      if p != "" {
        if HasThai(p) || ' ' !in p {
          CharWrapConcat(width, maxWidth, p);
          NotInConcat(CharWrap(width, maxWidth, p), c);
          CharWrapFromFirst(width, maxWidth, "", p);
        } else {
          WordWrapJoin(width, maxWidth, p);
          NotInJoin(WordWrap(width, maxWidth, p), ' ', c);
        }
      }
    }
  }

  /** wrap_text: every paragraph's lines, in order, joined by "\n". */
  method WrapText(width: Measure, maxWidth: int, text: string) returns (wrapped: string)
    ensures wrapped == Join(WrapAll(p => ParagraphLines(width, maxWidth, p), Split(text, '\n')), '\n')
  {
    var wrap := p => ParagraphLines(width, maxWidth, p);
    var paragraphs := Split(text, '\n');
    var lines: seq<string> := [];
    for i := 0 to |paragraphs|
      invariant lines == WrapAll(wrap, paragraphs[..i])
    {
      var paragraph := paragraphs[i];
      assert paragraphs[..i + 1][..i] == paragraphs[..i];
      if paragraph == "" {
        lines := lines + [""];
      } else {
        var thai := ContainsThai(paragraph);
        var more;
        if thai || ' ' !in paragraph {
          more := CharWrapLoop(width, maxWidth, paragraph);
        } else {
          more := WordWrapLoop(width, maxWidth, paragraph);
        }
        lines := lines + more;
      }
    }
    assert paragraphs[..|paragraphs|] == paragraphs;
    wrapped := Join(lines, '\n');
  }

  /** The wrapped text splits on "\n" into exactly the paragraphs' lines. */
  lemma WrapTextLines(width: Measure, maxWidth: int, text: string)
    ensures var wrap := p => ParagraphLines(width, maxWidth, p);
            Split(Join(WrapAll(wrap, Split(text, '\n')), '\n'), '\n') == WrapAll(wrap, Split(text, '\n'))
  {
    ParagraphLinesKeep(width, maxWidth, '\n');
    WrapAllSplit(p => ParagraphLines(width, maxWidth, p), text);
  }

  /** format_entry's four lines: the header and three rows of prices, any
      missing field shown as "-". */
  function EntryLines(entry: Record): (lines: seq<string>) {
    var field := k => Shown(entry, k);
    ["Gold Prices • " + field(AsDate),
     "OM Buy:  " + (field(OmBuy) + ("  |  OM Sell: " + field(OmSell))),
     "BL Buy:  " + (field(BlBuy) + ("  |  BL Sell: " + field(BlSell))),
     "Diff: " + (field(Diff) + ("   Spot: " + (field(GoldSpot) + ("   USD/THB: " + field(BahtUsd)))))]
  }

  /** entry.get(k, "-") */
  function Shown(entry: Record, k: Key): string {
    Get(entry, k, "-")
  }

  /** format_entry */
  function FormatEntry(entry: Record): string {
    Join(EntryLines(entry), '\n')
  }

  /** The summary is a header line plus exactly three lines. */
  lemma FormatEntryLines(entry: Record)
    requires SingleLineValues(entry)
    ensures Split(FormatEntry(entry), '\n') == EntryLines(entry)
    ensures |Split(FormatEntry(entry), '\n')| == 4
  {
    var field := k => Shown(entry, k);
    forall k: Key
      ensures '\n' !in Shown(entry, k)
    {
    }
    var lines := EntryLines(entry);
    ConcatFree("Gold Prices • ", field(AsDate), '\n');
    ConcatFree3("OM Buy:  ", field(OmBuy), "  |  OM Sell: ", field(OmSell), '\n');
    ConcatFree3("BL Buy:  ", field(BlBuy), "  |  BL Sell: ", field(BlSell), '\n');
    ConcatFree3("   Spot: ", field(GoldSpot), "   USD/THB: ", field(BahtUsd), '\n');
    ConcatFree3("Diff: ", field(Diff), "   Spot: " + field(GoldSpot), "   USD/THB: " + field(BahtUsd), '\n');
    SplitJoin(lines, '\n');
  }
}
