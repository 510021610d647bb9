/** The second video renderer's text helpers: word-only wrapping, the arrow
    and colour of a price change, and the change of the bar prices since the
    previous entry. */
module ClipPanel {
  import opened PyStr
  import opened Records
  import opened TextWrap

  /** The second renderer wraps every paragraph in word mode. */
  lemma WordWrapKeeps(width: Measure, maxWidth: int, c: char)
    requires c != ' '
    ensures Keeps(p => WordWrap(width, maxWidth, p), c)
  {
    forall p | c !in p
      ensures |WordWrap(width, maxWidth, p)| >= 1
      ensures forall k :: 0 <= k < |WordWrap(width, maxWidth, p)| ==> c !in WordWrap(width, maxWidth, p)[k]
    {
      WordWrapJoin(width, maxWidth, p);
      NotInJoin(WordWrap(width, maxWidth, p), ' ', c);
    }
  }

  /** wrap_text: word mode on every paragraph, the lines joined by "\n". */
  method WrapText(width: Measure, maxWidth: int, text: string) returns (wrapped: string)
    ensures wrapped == Join(WrapAll(p => WordWrap(width, maxWidth, p), Split(text, '\n')), '\n')
  {
    var wrap := p => WordWrap(width, maxWidth, p);
    var paragraphs := Split(text, '\n');
    var lines: seq<string> := [];
    for i := 0 to |paragraphs|
      invariant lines == WrapAll(wrap, paragraphs[..i])
    {
      assert paragraphs[..i + 1][..i] == paragraphs[..i];
      var more := WordWrapLoop(width, maxWidth, paragraphs[i]);
      lines := lines + more;
    }
    assert paragraphs[..|paragraphs|] == paragraphs;
    wrapped := Join(lines, '\n');
  }

  /** The wrapped text splits on "\n" into exactly the paragraphs' lines. */
  lemma WrapTextLines(width: Measure, maxWidth: int, text: string)
    ensures var wrap := p => WordWrap(width, maxWidth, p);
            Split(Join(WrapAll(wrap, Split(text, '\n')), '\n'), '\n') == WrapAll(wrap, Split(text, '\n'))
  {
    WordWrapKeeps(width, maxWidth, '\n');
    WrapAllSplit(p => WordWrap(width, maxWidth, p), text);
  }

  type Rgb = (int, int, int)

  const Grey: Rgb := (200, 200, 200)
  const Green: Rgb := (46, 125, 50)
  const Red: Rgb := (211, 47, 47)
  const Neutral: Rgb := (180, 180, 180)

  /** arrow_and_color: the label and colour of a change; the magnitude is
      written with thousands separators. */
  function ArrowAndColor(delta: Option<int>): (r: (string, Rgb))
    ensures delta.None? <==> r == ("—", Grey)
    ensures delta.Some? && delta.value > 0 <==> r.1 == Green
    ensures delta.Some? && delta.value < 0 <==> r.1 == Red
    ensures delta == Some(0) <==> r == ("0", Neutral)
    ensures delta.Some? && delta.value != 0 ==> |r.0| >= 2 && r.0[1] == ' '
  {
    match delta
    case None => ("—", Grey)
    case Some(d) =>
      if d > 0 then ("▲ " + GroupNat(d), Green)
      else if d < 0 then ("▼ " + GroupNat(-d), Red)
      else ("0", Neutral)
  }

  /** The label after the arrow reads back, commas removed, as the magnitude. */
  lemma ArrowMagnitude(d: int)
    requires d != 0
    ensures ArrowAndColor(Some(d)).0[..2] == (if d > 0 then "▲ " else "▼ ")
    ensures ParseGrouped(ArrowAndColor(Some(d)).0[2..]) == Some(if d > 0 then d else -d)
  {
    var m := if d > 0 then d else -d;
    var caption := ArrowAndColor(Some(d)).0;
    assert caption[2..] == GroupNat(m);
    GroupThousandsRoundTrip(m);
  }

  /** parse_money, on whole amounts only: commas removed, then a number. */
  function ParseMoney(value: string): Option<int> {
    ParseGrouped(value)
  }

  /** The change of one field since the previous entry: computed only when
      there is a (non-empty) previous entry and both values parse. */
  function Delta(entry: Record, prev: Option<Record>, key: Key): (delta: Option<int>)
    ensures delta.Some? <==> prev.Some? && Truthy(prev.value)
                             && ParseMoney(Get(entry, key, "")).Some?
                             && ParseMoney(Get(prev.value, key, "")).Some?
    ensures delta.Some? ==> delta.value == ParseMoney(Get(entry, key, "")).value
                                           - ParseMoney(Get(prev.value, key, "")).value
  {
    if prev.Some? && Truthy(prev.value) then
      var current := ParseMoney(Get(entry, key, ""));
      var previous := ParseMoney(Get(prev.value, key, ""));
      if current.Some? && previous.Some? then Some(current.value - previous.value) else None
    else None
  }

  /** delta_buy and delta_sell, from the bar prices. */
  function Deltas(entry: Record, prev: Option<Record>): (Option<int>, Option<int>) {
    (Delta(entry, prev, BlBuy), Delta(entry, prev, BlSell))
  }

  /** up = (delta or 0) >= 0 */
  function UpFlag(delta: Option<int>): (up: bool)
    ensures up <==> delta.None? || delta.value >= 0
  {
    (if delta.Some? then delta.value else 0) >= 0
  }

  /** The triangle points down exactly when the label is red. */
  lemma UpFlagMatchesColour(delta: Option<int>)
    ensures !UpFlag(delta) <==> ArrowAndColor(delta).1 == Red
  {
  }

  /** The triangle points down exactly when the bar price fell since the previous entry. */
  lemma UpUnlessCheaper(entry: Record, prev: Record, key: Key, now: int, before: int)
    requires prev != map[]
    requires ParseMoney(Get(entry, key, "")) == Some(now)
    requires ParseMoney(Get(prev, key, "")) == Some(before)
    ensures !UpFlag(Delta(entry, Some(prev), key)) <==> now < before
  {
  }
}
