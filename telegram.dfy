/** The Telegram notifier: the message built from the latest record, its
    trend rule, and the guards that stop a send before any request is made.
    The HTTP requests themselves are not modelled; their status is a parameter. */
module TelegramNotify {
  import opened PyStr
  import opened Records

  /** gold_data.get(key, "-") */
  function Field(gold: Record, key: Key): string {
    Get(gold, key, "-")
  }

  /** The trend rule: only the diff's first character counts. */
  function Trend(diff: string): (trend: string)
    ensures trend == "📉 ลง" <==> StartsWith(diff, "-")
    ensures trend == "📈 ขึ้น" <==> StartsWith(diff, "+")
    ensures trend == "➡️ คงที่" <==> !StartsWith(diff, "-") && !StartsWith(diff, "+")
  {
    assert "📉 ลง" != "📈 ขึ้น" && "📉 ลง" != "➡️ คงที่" && "📈 ขึ้น" != "➡️ คงที่";
    if StartsWith(diff, "-") then "📉 ลง"
    else if StartsWith(diff, "+") then "📈 ขึ้น"
    else "➡️ คงที่"
  }

  /** A record without a diff shows "-" and is therefore reported as falling. */
  lemma MissingDiffIsDown(gold: Record)
    requires Diff !in gold
    ensures Trend(Field(gold, Diff)) == "📉 ลง"
  {
    assert StartsWith("-", "-") by { assert "-"[..1] == "-"; }
  }

  /** A diff written without a sign, "0" or "120" say, is reported as steady. */
  lemma UnsignedIsSteady(diff: string)
    requires diff != [] && IsDigit(diff[0])
    ensures Trend(diff) == "➡️ คงที่"
  {
    assert diff[..1] == [diff[0]];
  }

  /** format_gold_message, line by line: the heading, the two price blocks
      and the change with the market rates. */
  function MessageLines(gold: Record): (lines: seq<string>) {
    HeadingLines(gold) + (PriceLines(gold) + ChangeLines(gold))
  }

  function HeadingLines(gold: Record): seq<string> {
    ["🏆 ราคาทองคำล่าสุด",
     "",
     "📅 วันที่: " + Field(gold, AsDate),
     "🔢 ครั้งที่: " + Field(gold, Nqy),
     ""]
  }

  function PriceLines(gold: Record): seq<string> {
    ["💰 ทองคำแท่ง 96.5%",
     "├ รับซื้อ: " + (Field(gold, BlBuy) + " บาท"),
     "└ ขายออก: " + (Field(gold, BlSell) + " บาท"),
     "",
     "💍 ทองรูปพรรณ",
     "├ รับซื้อ: " + (Field(gold, OmBuy) + " บาท"),
     "└ ขายออก: " + (Field(gold, OmSell) + " บาท"),
     ""]
  }

  function ChangeLines(gold: Record): seq<string> {
    [Trend(Field(gold, Diff)) + (" การเปลี่ยนแปลง: " + (Field(gold, Diff) + " บาท")),
     "",
     "🌍 Gold Spot: $" + Field(gold, GoldSpot),
     "💵 USD/THB: " + Field(gold, BahtUsd),
     "",
     "━━━━━━━━━━━━━━━━",
     "ข้อมูลจาก: สมาคมค้าทองคำ"]
  }

  function FormatGoldMessage(gold: Record): string {
    Join(MessageLines(gold), '\n')
  }

  /** No line of a block holds a line break. */
  predicate SingleLines(lines: seq<string>) {
    forall k :: 0 <= k < |lines| ==> '\n' !in lines[k]
  }

  lemma SingleLinesAppend(a: seq<string>, b: seq<string>)
    requires SingleLines(a) && SingleLines(b)
    ensures SingleLines(a + b)
  {
    forall k | 0 <= k < |a + b|
      ensures '\n' !in (a + b)[k]
    {
      if k < |a| { assert (a + b)[k] == a[k]; } else { assert (a + b)[k] == b[k - |a|]; }
    }
  }

  lemma FieldSingleLine(gold: Record, k: Key)
    requires SingleLineValues(gold)
    ensures '\n' !in Field(gold, k)
  {
  }

  lemma HeadingSingle(gold: Record)
    requires SingleLineValues(gold)
    ensures SingleLines(HeadingLines(gold))
  {
    FieldSingleLine(gold, AsDate);
    FieldSingleLine(gold, Nqy);
    ConcatFree("📅 วันที่: ", Field(gold, AsDate), '\n');
    ConcatFree("🔢 ครั้งที่: ", Field(gold, Nqy), '\n');
  }

  lemma PriceSingle(gold: Record)
    requires SingleLineValues(gold)
    ensures SingleLines(PriceLines(gold))
  {
    FieldSingleLine(gold, BlBuy);
    FieldSingleLine(gold, BlSell);
    FieldSingleLine(gold, OmBuy);
    FieldSingleLine(gold, OmSell);
    ConcatFree3("├ รับซื้อ: ", Field(gold, BlBuy), " บาท", "", '\n');
    ConcatFree3("└ ขายออก: ", Field(gold, BlSell), " บาท", "", '\n');
    ConcatFree3("├ รับซื้อ: ", Field(gold, OmBuy), " บาท", "", '\n');
    ConcatFree3("└ ขายออก: ", Field(gold, OmSell), " บาท", "", '\n');
  }

  lemma TrendLineSingle(gold: Record)
    requires SingleLineValues(gold)
    ensures '\n' !in ChangeLines(gold)[0]
  {
    var diff := Field(gold, Diff);
    FieldSingleLine(gold, Diff);
    var trend := Trend(diff);
    assert '\n' !in trend by {
      if StartsWith(diff, "-") {
        assert trend == "📉 ลง";
      } else if StartsWith(diff, "+") {
        assert trend == "📈 ขึ้น";
      } else {
        assert trend == "➡️ คงที่";
      }
    }
    ConcatFree3(trend, " การเปลี่ยนแปลง: ", diff, " บาท", '\n');
  }

  lemma ChangeSingle(gold: Record)
    requires SingleLineValues(gold)
    ensures SingleLines(ChangeLines(gold))
  {
    TrendLineSingle(gold);
    FieldSingleLine(gold, GoldSpot);
    FieldSingleLine(gold, BahtUsd);
    ConcatFree("🌍 Gold Spot: $", Field(gold, GoldSpot), '\n');
    ConcatFree("💵 USD/THB: ", Field(gold, BahtUsd), '\n');
  }

  /** The message is twenty lines, and a record whose values hold no line
      break gives back exactly those lines when split on "\n". */
  lemma MessageSplit(gold: Record)
    requires SingleLineValues(gold)
    ensures Split(FormatGoldMessage(gold), '\n') == MessageLines(gold)
    ensures |Split(FormatGoldMessage(gold), '\n')| == 20
  {
    HeadingSingle(gold);
    PriceSingle(gold);
    ChangeSingle(gold);
    SingleLinesAppend(PriceLines(gold), ChangeLines(gold));
    SingleLinesAppend(HeadingLines(gold), PriceLines(gold) + ChangeLines(gold));
    SplitJoin(MessageLines(gold), '\n');
  }

  /** The fields in the order the message shows them, each with the unit after it. */
  function FieldOrder(gold: Record): seq<string> {
    [Field(gold, AsDate), Field(gold, Nqy),
     Field(gold, BlBuy) + " บาท", Field(gold, BlSell) + " บาท",
     Field(gold, OmBuy) + " บาท", Field(gold, OmSell) + " บาท",
     Field(gold, Diff) + " บาท", Field(gold, GoldSpot), Field(gold, BahtUsd)]
  }

  /** The line numbers those fields end, in increasing order. */
  const FieldRows: seq<nat> := [2, 3, 6, 7, 10, 11, 13, 15, 16]

  predicate EndsWith(s: string, suffix: string) {
    |suffix| <= |s| && s[|s| - |suffix|..] == suffix
  }

  lemma EndsWithConcat(pre: string, suffix: string)
    ensures EndsWith(pre + suffix, suffix)
  {
    assert (pre + suffix)[|pre|..] == suffix;
  }

  lemma HeadingOrder(gold: Record)
    ensures EndsWith(HeadingLines(gold)[2], Field(gold, AsDate))
    ensures EndsWith(HeadingLines(gold)[3], Field(gold, Nqy))
  {
    EndsWithConcat("📅 วันที่: ", Field(gold, AsDate));
    EndsWithConcat("🔢 ครั้งที่: ", Field(gold, Nqy));
  }

  lemma PriceOrder(gold: Record)
    ensures EndsWith(PriceLines(gold)[1], Field(gold, BlBuy) + " บาท")
    ensures EndsWith(PriceLines(gold)[2], Field(gold, BlSell) + " บาท")
    ensures EndsWith(PriceLines(gold)[5], Field(gold, OmBuy) + " บาท")
    ensures EndsWith(PriceLines(gold)[6], Field(gold, OmSell) + " บาท")
  {
    EndsWithConcat("├ รับซื้อ: ", Field(gold, BlBuy) + " บาท");
    EndsWithConcat("└ ขายออก: ", Field(gold, BlSell) + " บาท");
    EndsWithConcat("├ รับซื้อ: ", Field(gold, OmBuy) + " บาท");
    EndsWithConcat("└ ขายออก: ", Field(gold, OmSell) + " บาท");
  }

  lemma ChangeOrder(gold: Record)
    ensures EndsWith(ChangeLines(gold)[0], Field(gold, Diff) + " บาท")
    ensures EndsWith(ChangeLines(gold)[2], Field(gold, GoldSpot))
    ensures EndsWith(ChangeLines(gold)[3], Field(gold, BahtUsd))
  {
    EndsWithConcat(Trend(Field(gold, Diff)) + " การเปลี่ยนแปลง: ", Field(gold, Diff) + " บาท");
    EndsWithConcat("🌍 Gold Spot: $", Field(gold, GoldSpot));
    EndsWithConcat("💵 USD/THB: ", Field(gold, BahtUsd));
  }

  /** Read back line by line, the message ends its rows with date, round, bar
      buy and sell, jewellery buy and sell, change, spot and rate, in that order. */
  lemma MessageFieldOrder(gold: Record)
    requires SingleLineValues(gold)
    ensures var lines := Split(FormatGoldMessage(gold), '\n');
            forall j :: 0 <= j < 9 ==> FieldRows[j] < |lines| && EndsWith(lines[FieldRows[j]], FieldOrder(gold)[j])
  {
    MessageSplit(gold);
    HeadingOrder(gold);
    PriceOrder(gold);
    ChangeOrder(gold);
    var heading, prices, change := HeadingLines(gold), PriceLines(gold), ChangeLines(gold);
    var lines := heading + (prices + change);
    assert lines[2] == heading[2] && lines[3] == heading[3];
    assert lines[6] == prices[1] && lines[7] == prices[2] && lines[10] == prices[5] && lines[11] == prices[6];
    assert lines[13] == change[0] && lines[15] == change[2] && lines[16] == change[3];
  }

  /** What load_config gives: nothing (no file, a read error or an empty
      object), or the two settings, each possibly absent. */
  datatype Config = NoConfig | Config(token: Option<string>, chatId: Option<string>)

  /** `config and token and chat_id and "YOUR_" not in token` */
  predicate CredentialsOk(config: Config) {
    && config.Config?
    && config.token.Some? && config.token.value != ""
    && config.chatId.Some? && config.chatId.value != ""
    && !Contains(config.token.value, "YOUR_")
  }

  /** How a request ended. */
  datatype Response = Status(code: int) | RequestError

  /** send_telegram_message: returns whether it was sent and whether a request
      was made at all; `response` is what the request would give. */
  function SendTelegramMessage(config: Config, response: Response): (r: (bool, bool))
    ensures !CredentialsOk(config) ==> r == (false, false)
    ensures CredentialsOk(config) ==> r.1 && (r.0 <==> response == Status(200))
  {
    if !CredentialsOk(config) then (false, false)
    else (response == Status(200), true)
  }

  /** send_telegram_video: the same guard, then the video file must exist. */
  function SendTelegramVideo(config: Config, videoExists: bool, response: Response): (r: (bool, bool))
    ensures !CredentialsOk(config) || !videoExists ==> r == (false, false)
    ensures CredentialsOk(config) && videoExists ==> r.1 && (r.0 <==> response == Status(200))
  {
    if !CredentialsOk(config) then (false, false)
    else if !videoExists then (false, false)
    else (response == Status(200), true)
  }

  /** A placeholder token is never used, whatever surrounds it. */
  lemma PlaceholderNeverSent(before: string, after: string, chatId: string, response: Response)
    ensures SendTelegramMessage(Config(Some(before + ("YOUR_" + after)), Some(chatId)), response) == (false, false)
  {
    var token := before + ("YOUR_" + after);
    assert StartsWith(token[|before|..], "YOUR_") by {
      assert token[|before|..] == "YOUR_" + after;
      assert token[|before|..][..5] == "YOUR_";
    }
  }
}
