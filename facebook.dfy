/** The Facebook post builder: it keeps the latest price record it loaded and
    builds posts of four kinds from it.  The posts' fixed wording and layout
    are not modelled; a post is represented by the values it shows. */
module FacebookPost {
  import opened PyStr
  import opened Records

  /** get_trend_emoji: the direction word of a diff, "" when it is not an integer. */
  function TrendEmoji(diff: string): string {
    match ParseGrouped(diff)
    case None => ""
    case Some(v) => if v > 0 then "ขึ้น" else if v < 0 then "ลง" else "คงที่"
  }

  /** get_trend_color_text: the same classification, worded for the colour line. */
  function TrendColorText(diff: string): string {
    match ParseGrouped(diff)
    case None => ""
    case Some(v) => if v > 0 then "เพิ่มขึ้น" else if v < 0 then "ลดลง" else "ไม่เปลี่ยนแปลง"
  }

  /** The two trend texts always tell the same story. */
  lemma TrendTextsAgree(diff: string)
    ensures TrendEmoji(diff) == "ขึ้น" <==> TrendColorText(diff) == "เพิ่มขึ้น"
    ensures TrendEmoji(diff) == "ลง" <==> TrendColorText(diff) == "ลดลง"
    ensures TrendEmoji(diff) == "คงที่" <==> TrendColorText(diff) == "ไม่เปลี่ยนแปลง"
    ensures TrendEmoji(diff) == "" <==> TrendColorText(diff) == ""
    ensures TrendEmoji(diff) == "" <==> ParseGrouped(diff).None?
  {
    assert "ขึ้น" != "ลง" && "ขึ้น" != "คงที่" && "ลง" != "คงที่";
    assert "เพิ่มขึ้น" != "ลดลง" && "เพิ่มขึ้น" != "ไม่เปลี่ยนแปลง" && "ลดลง" != "ไม่เปลี่ยนแปลง";
  }

  const TakeProfit := "ราคาขึ้นแรง! ผู้ถือทองอาจพิจารณาขายทำกำไร"
  const Accumulate := "ราคาลดลง! โอกาสดีสำหรับผู้ที่ต้องการสะสมทอง"
  const Steady := "ราคาค่อนข้างคงที่ รอจังหวะที่เหมาะสม"
  const FollowUp := "ติดตามราคาทองอย่างต่อเนื่อง"

  /** The advice of the detailed post: thresholds of 100 baht either way, both exclusive. */
  function Advice(diff: string): string {
    match ParseGrouped(diff)
    case None => FollowUp
    case Some(v) => if v > 100 then TakeProfit else if v < -100 then Accumulate else Steady
  }

  /** The advice is consistent with the trend word: a strong rise is a rise,
      a strong fall a fall, and follow-up advice means the diff did not parse. */
  lemma AdviceFollowsTrend(diff: string)
    ensures Advice(diff) == TakeProfit ==> TrendEmoji(diff) == "ขึ้น"
    ensures Advice(diff) == Accumulate ==> TrendEmoji(diff) == "ลง"
    ensures Advice(diff) == FollowUp <==> TrendEmoji(diff) == ""
    ensures TrendEmoji(diff) == "คงที่" ==> Advice(diff) == Steady
  {
    assert TakeProfit != Accumulate && TakeProfit != Steady && TakeProfit != FollowUp;
    assert Accumulate != Steady && Accumulate != FollowUp && Steady != FollowUp;
    assert "ขึ้น" != "" && "ลง" != "" && "คงที่" != "";
  }

  /** Exactly 100 either way is still steady. */
  lemma AdviceBoundary(diff: string)
    requires ParseGrouped(diff) == Some(100) || ParseGrouped(diff) == Some(-100)
    ensures Advice(diff) == Steady
  {
  }

  /** format_price returns its argument. */
  function FormatPrice(price: string): (shown: string)
    ensures |shown| == |price| && forall i :: 0 <= i < |price| ==> shown[i] == price[i]
  {
    price
  }

  /** The values a post shows. */
  datatype Post =
    | Basic(data: Record, emoji: string, colorText: string)
    | Short(data: Record, emoji: string)
    | Detailed(data: Record, emoji: string, colorText: string, advice: string)
    | Comparison(current: Record, previous: Record, hours: int, trend: string, change: string)

  /** What a create_post_* call ends in: None, a KeyError, or a post. */
  datatype Made = NoPost | Raises | Made(post: Post)

  /** What load_latest_price ends in: a boolean, or an exception it does not catch. */
  datatype Loaded = Returned(ok: bool) | Uncaught

  /** The fields the basic and detailed posts read with data[...]. */
  const AllFields: set<Key> := {AsDate, Nqy, BlBuy, BlSell, OmBuy, OmSell, GoldSpot, BahtUsd, Diff}
  /** The fields the short post reads. */
  const ShortFields: set<Key> := {AsDate, BlBuy, BlSell, OmBuy, OmSell, Diff}

  /** compare_index = min(2 * hours, len(prices) - 1), counted from the front. */
  function CompareIndex(count: nat, hours: int): (i: int)
    ensures i <= count - 1 && i <= 2 * hours && (i == 2 * hours || i == count - 1)
  {
    if 2 * hours < count - 1 then 2 * hours else count - 1
  }

  /** As written, with the latest entry last, the entry compared with is 2 * hours
      entries from the OLDEST one: with more than 4 * hours + 1 entries it lies
      further back than 2 * hours updates. */
  lemma CompareIndexFromFront(count: nat, hours: int)
    requires hours >= 1 && count > 4 * hours + 1
    ensures CompareIndex(count, hours) == 2 * hours
    ensures (count - 1) - CompareIndex(count, hours) > 2 * hours
  {
  }

  /** The evidently intended index: 2 * hours updates before the latest, or
      the oldest entry when there are not that many. */
  function CompareIndexBack(count: nat, hours: nat): (i: int)
    requires count >= 1
    ensures 0 <= i < count
    ensures count > 2 * hours ==> (count - 1) - i == 2 * hours
    ensures count <= 2 * hours ==> i == 0
  {
    if count - 1 - 2 * hours >= 0 then count - 1 - 2 * hours else 0
  }

  /** The two agree only when the list has exactly 4 * hours + 1 entries (or
      is too short to look back that far). */
  lemma CompareIndicesAgree(count: nat, hours: nat)
    requires count > 2 * hours
    ensures CompareIndex(count, hours) == CompareIndexBack(count, hours) <==> count == 4 * hours + 1
  {
  }

  /** The trend word of the comparison post follows the sign of the change in bar buy price. */
  function ChangeTrend(change: int): (trend: string)
    ensures change > 0 <==> trend == "เพิ่มขึ้น"
    ensures change < 0 <==> trend == "ลดลง"
    ensures change == 0 <==> trend == "คงที่"
  {
    assert "เพิ่มขึ้น" != "ลดลง" && "เพิ่มขึ้น" != "คงที่" && "ลดลง" != "คงที่";
    if change > 0 then "เพิ่มขึ้น" else if change < 0 then "ลดลง" else "คงที่"
  }

  /** float(current['blbuy'].replace(',', '')) - float(previous['blbuy'].replace(',', '')),
      on whole amounts; None where a field is missing or does not parse. */
  function BuyChange(current: Record, previous: Record): (change: Option<int>)
    ensures change.Some? <==> BlBuy in current && BlBuy in previous
                              && ParseGrouped(current[BlBuy]).Some? && ParseGrouped(previous[BlBuy]).Some?
    ensures change.Some? ==> change.value == ParseGrouped(current[BlBuy]).value - ParseGrouped(previous[BlBuy]).value
  {
    if BlBuy !in current || BlBuy !in previous then None
    else
      var currBuy :- ParseGrouped(current[BlBuy]);
      var prevBuy :- ParseGrouped(previous[BlBuy]);
      Some(currBuy - prevBuy)
  }

  /** The fields the comparison post reads from the latest entry and from the earlier one. */
  const CurrentFields: set<Key> := {AsDate, BlBuy, BlSell, OmBuy, OmSell}
  const PreviousFields: set<Key> := {AsDate, BlBuy, BlSell}

  /** The body of create_post_with_comparison's `try` over the re-read file:
      None wherever it raises (a missing or malformed file, no entries, an
      index out of range, a missing field, a price that is not a number). */
  function ComparisonOf(doc: JsonDoc, hours: int): (r: Option<Post>)
    ensures r.Some? <==>
              && doc.List? && doc.items != []
              && PyIndex(doc.items, CompareIndex(|doc.items|, hours)).Some?
              && var current := doc.items[|doc.items| - 1];
                 var previous := PyIndex(doc.items, CompareIndex(|doc.items|, hours)).value;
                 && BuyChange(current, previous).Some?
                 && CurrentFields <= current.Keys && PreviousFields <= previous.Keys
    ensures r.Some? ==> doc.List? && doc.items != []
    ensures r.Some? ==> r.value.Comparison? && r.value.current == doc.items[|doc.items| - 1]
    ensures r.Some? ==> PyIndex(doc.items, CompareIndex(|doc.items|, hours)) == Some(r.value.previous)
    ensures r.Some? ==> BuyChange(r.value.current, r.value.previous).Some?
    ensures r.Some? ==> r.value.trend == ChangeTrend(BuyChange(r.value.current, r.value.previous).value)
    ensures r.Some? ==> r.value.hours == hours
    ensures r.Some? ==> var change := BuyChange(r.value.current, r.value.previous).value;
                        r.value.change == GroupNat(if change < 0 then -change else change)
  {
    if !doc.List? || doc.items == [] then None
    else
      var prices := doc.items;
      var current := prices[|prices| - 1];
      var previous :- PyIndex(prices, CompareIndex(|prices|, hours));
      var change :- BuyChange(current, previous);
      if CurrentFields <= current.Keys && PreviousFields <= previous.Keys
      then Some(Comparison(current, previous, hours, ChangeTrend(change),
                           GroupNat(if change < 0 then -change else change)))
      else None
  }

  /** The amount in the comparison post, "{abs(change):,.0f}", reads back as
      the size of the change in bar buy price. */
  lemma ComparisonAmount(doc: JsonDoc, hours: int)
    requires ComparisonOf(doc, hours).Some?
    ensures var post := ComparisonOf(doc, hours).value;
            var change := BuyChange(post.current, post.previous).value;
            ParseGrouped(post.change) == Some(if change < 0 then -change else change)
  {
    var post := ComparisonOf(doc, hours).value;
    var change := BuyChange(post.current, post.previous).value;
    GroupThousandsRoundTrip(if change < 0 then -change else change);
  }

  class FacebookGoldPost {
    var dataFile: string
    var latestPrice: Option<Record>

    constructor (dataFile: string)
      ensures this.dataFile == dataFile && latestPrice == None
    {
      this.dataFile := dataFile;
      latestPrice := None;
    }

    /** load_latest_price, given what the data file holds. */
    method LoadLatestPrice(doc: JsonDoc) returns (outcome: Loaded)
      modifies this
      ensures dataFile == old(dataFile)
      ensures doc.List? && doc.items != [] ==>
                outcome == Returned(true) && latestPrice == Some(doc.items[|doc.items| - 1])
      ensures doc.Missing? || doc.Malformed? || doc == List([]) || doc == Object(0) ==>
                outcome == Returned(false) && latestPrice == old(latestPrice)
      ensures doc.Object? && doc.size > 0 ==> outcome == Uncaught && latestPrice == old(latestPrice)
    {
      match doc
      case Missing => return Returned(false);
      case Malformed => return Returned(false);
      case Object(size) =>
        // A non-empty object is truthy, and prices[-1] then raises KeyError.
        if size > 0 {
          return Uncaught;
        }
        return Returned(false);
      case List(items) =>
        if items == [] {
          return Returned(false);
        }
        latestPrice := Some(items[|items| - 1]);
        return Returned(true);
    }

    /** `if not self.latest_price: return None`: the record to post, if it is set and non-empty. */
    function PostData(): (data: Option<Record>)
      reads this
      ensures data.Some? <==> latestPrice.Some? && latestPrice.value != map[]
      ensures data.Some? ==> data == latestPrice
    {
      if latestPrice.Some? && Truthy(latestPrice.value) then latestPrice else None
    }

    function CreatePostBasic(): (r: Made)
      reads this
      ensures PostData().None? <==> r == NoPost
      ensures PostData().Some? ==> (r.Made? <==> AllFields <= PostData().value.Keys)
      ensures r.Made? ==> r.post == Basic(PostData().value, TrendEmoji(PostData().value[Diff]),
                                          TrendColorText(PostData().value[Diff]))
    {
      match PostData()
      case None => NoPost
      case Some(data) =>
        if !(AllFields <= data.Keys) then Raises
        else Made(Basic(data, TrendEmoji(data[Diff]), TrendColorText(data[Diff])))
    }

    function CreatePostShort(): (r: Made)
      reads this
      ensures PostData().None? <==> r == NoPost
      ensures PostData().Some? ==> (r.Made? <==> ShortFields <= PostData().value.Keys)
      ensures r.Made? ==> r.post == Short(PostData().value, TrendEmoji(PostData().value[Diff]))
    {
      match PostData()
      case None => NoPost
      case Some(data) =>
        if !(ShortFields <= data.Keys) then Raises
        else Made(Short(data, TrendEmoji(data[Diff])))
    }

    function CreatePostDetailed(): (r: Made)
      reads this
      ensures PostData().None? <==> r == NoPost
      ensures PostData().Some? ==> (r.Made? <==> AllFields <= PostData().value.Keys)
      ensures r.Made? ==> r.post == Detailed(PostData().value, TrendEmoji(PostData().value[Diff]),
                                             TrendColorText(PostData().value[Diff]), Advice(PostData().value[Diff]))
    {
      match PostData()
      case None => NoPost
      case Some(data) =>
        if !(AllFields <= data.Keys) then Raises
        else Made(Detailed(data, TrendEmoji(data[Diff]), TrendColorText(data[Diff]), Advice(data[Diff])))
    }

    /** create_post_with_comparison: `doc` is the data file as re-read; any
        failure inside the `try` falls back to the basic post. */
    function CreatePostWithComparison(doc: JsonDoc, hours: int): (r: Made)
      reads this
      ensures PostData().None? <==> r == NoPost
      ensures PostData().Some? && ComparisonOf(doc, hours).Some? ==> r == Made(ComparisonOf(doc, hours).value)
      ensures PostData().Some? && ComparisonOf(doc, hours).None? ==> r == CreatePostBasic()
    {
      if PostData().None? then NoPost
      else
        match ComparisonOf(doc, hours)
        case Some(post) => Made(post)
        case None => CreatePostBasic()
    }
  }
}
