/** The image-panel web page: it loads the cache file, sums the changes of
    every record, and lists the records newest first with a Thai date and the
    time.  The Flask route and the template are not modelled; the page is the
    values handed to the template. */
module GoldImgApp {
  import opened PyStr
  import opened Records
  import PanelText

  /** load_data: an absent file is an empty list; a file that is not JSON
      raises, and a JSON object breaks the page at .reverse(), so both are
      None here. */
  function LoadData(doc: JsonDoc): (items: Option<seq<Record>>)
    ensures doc.Missing? ==> items == Some([])
    ensures doc.List? ==> items == Some(doc.items)
    ensures items.None? <==> doc.Malformed? || doc.Object?
  {
    match doc
    case Missing => Some([])
    case List(xs) => Some(xs)
    case _ => None
  }

  /** thai_months: a blank at index 0, so that month m is at index m. */
  const ThaiMonths: seq<string> := [""] + PanelText.ThMonths

  /** format_thai_date: "d/m/y" becomes "{int d} {month name} {y}"; anything
      that raises inside the `try` gives the input back. */
  function FormatThaiDate(s: string): (r: string)
    ensures |Split(s, '/')| != 3 ==> r == s
    ensures |Split(s, '/')| == 3 && (ParseInt(Split(s, '/')[0]).None? || ParseInt(Split(s, '/')[1]).None?) ==> r == s
  {
    var parts := Split(s, '/');
    if |parts| != 3 then s
    else
      match ParseInt(parts[0])
      case None => s
      case Some(day) =>
        match ParseInt(parts[1])
        case None => s
        case Some(month) =>
          match PyIndex(ThaiMonths, month)
          case None => s
          case Some(name) => IntToString(day) + (" " + (name + (" " + parts[2])))
  }

  lemma FormatThaiDateSteps(s: string, ds: string, ms: string, ys: string, day: int, month: int)
    requires Split(s, '/') == [ds, ms, ys]
    requires ParseInt(ds) == Some(day) && ParseInt(ms) == Some(month)
    ensures FormatThaiDate(s) == if -13 <= month <= 12
                                  then IntToString(day) + (" " + (ThaiMonths[if month < 0 then month + 13 else month] + (" " + ys)))
                                  else s
  {
    assert |ThaiMonths| == 13;
  }

  /** A "d/m/y" date: the day as an integer, month m by its name (the blank for
      0, counting from the end for a negative m), the year verbatim; a month
      past either end of the list gives the input back. */
  lemma FormatThaiDateOf(ds: string, ms: string, ys: string, day: int, month: int)
    requires '/' !in ds && '/' !in ms && '/' !in ys
    requires ParseInt(ds) == Some(day) && ParseInt(ms) == Some(month)
    ensures var s := ds + ("/" + (ms + ("/" + ys)));
            FormatThaiDate(s) == if -13 <= month <= 12
                                 then IntToString(day) + (" " + (ThaiMonths[if month < 0 then month + 13 else month] + (" " + ys)))
                                 else s
  {
    SplitThree(ds, ms, ys, '/');
    FormatThaiDateSteps(ds + ("/" + (ms + ("/" + ys))), ds, ms, ys, day, month);
  }

  /** Months 1..12 are named as in the video captions. */
  lemma MonthNamesAgree(month: int)
    requires 1 <= month <= 12
    ensures ThaiMonths[if month < 0 then month + 13 else month] == PanelText.ThMonths[month - 1]
  {
    assert |ThaiMonths| == 13;
  }

  /** The change of one record: int(item['diff'].replace(',', '')); None where
      the key is missing or the text is not an integer. */
  function DiffValue(item: Record): (v: Option<int>)
  {
    if Diff in item then ParseGrouped(item[Diff]) else None
  }

  /** Each record's parsed value, in file order. */
  function ParseEach(items: seq<Record>, parse: Record -> Option<int>): (vals: seq<Option<int>>)
    ensures |vals| == |items| && forall k :: 0 <= k < |items| ==> vals[k] == parse(items[k])
  {
    if |items| == 0 then [] else [parse(items[0])] + ParseEach(items[1..], parse)
  }

  /** Each record's change, in file order. */
  function DiffValues(items: seq<Record>): seq<Option<int>> {
    ParseEach(items, DiffValue)
  }

  lemma ParseEachReverse(items: seq<Record>, parse: Record -> Option<int>)
    ensures ParseEach(Reverse(items), parse) == Reverse(ParseEach(items, parse))
  {
  }

  /** A running sum from the first value to the last; None at the first value
      that is missing. */
  function SumOf(vals: seq<Option<int>>): (total: Option<int>)
  {
    if |vals| == 0 then Some(0)
    else
      match SumOf(vals[..|vals| - 1])
      case None => None
      case Some(s) =>
        match vals[|vals| - 1]
        case None => None
        case Some(v) => Some(s + v)
  }

  /** The sum of all the changes; None when any record breaks the loop. */
  function SumDiffs(items: seq<Record>): Option<int> {
    SumOf(DiffValues(items))
  }

  predicate AllSome(vals: seq<Option<int>>) {
    forall k :: 0 <= k < |vals| ==> vals[k].Some?
  }

  /** The sum exists exactly when every value does. */
  lemma {:induction false} SumOfDefined(vals: seq<Option<int>>)
    ensures SumOf(vals).Some? <==> AllSome(vals)
    decreases |vals|
  {
    if |vals| > 0 {
      var init := vals[..|vals| - 1];
      SumOfDefined(init);
      assert forall k :: 0 <= k < |init| ==> init[k] == vals[k];
    }
  }

  lemma SumOfSnoc(vals: seq<Option<int>>, s: int, v: int)
    requires SumOf(vals) == Some(s)
    ensures SumOf(vals + [Some(v)]) == Some(s + v)
  {
    assert (vals + [Some(v)])[..|vals|] == vals;
  }

  /** The last value of a run with a sum is present, and the rest sums to
      the difference. */
  lemma SumOfInit(vals: seq<Option<int>>, t: int)
    requires |vals| > 0 && SumOf(vals) == Some(t)
    ensures vals[|vals| - 1].Some?
    ensures SumOf(vals[..|vals| - 1]) == Some(t - vals[|vals| - 1].value)
  {
  }

  /** Summing two runs adds their sums. */
  lemma {:induction false} SumOfAppend(a: seq<Option<int>>, b: seq<Option<int>>, x: int, y: int)
    requires SumOf(a) == Some(x) && SumOf(b) == Some(y)
    ensures SumOf(a + b) == Some(x + y)
    decreases |b|
  {
    if |b| == 0 {
      assert a + b == a;
    } else {
      var init := b[..|b| - 1];
      SumOfInit(b, y);
      var w := b[|b| - 1].value;
      SumOfAppend(a, init, x, y - w);
      assert a + b == (a + init) + [Some(w)];
      SumOfSnoc(a + init, x + (y - w), w);
    }
  }

  lemma SumOfOne(w: int)
    ensures SumOf([Some(w)]) == Some(w)
  {
    assert [Some(w)][..0] == [];
  }

  /** Reversing a run puts its last value first. */
  lemma ReverseSnoc(init: seq<Option<int>>, v: Option<int>)
    ensures Reverse(init + [v]) == [v] + Reverse(init)
  {
  }

  /** The order of the values does not change the sum. */
  lemma {:induction false} SumOfReverse(vals: seq<Option<int>>, t: int)
    requires SumOf(vals) == Some(t)
    ensures SumOf(Reverse(vals)) == Some(t)
    decreases |vals|
  {
    if |vals| > 0 {
      var init := vals[..|vals| - 1];
      SumOfInit(vals, t);
      var w := vals[|vals| - 1].value;
      SumOfReverse(init, t - w);
      assert vals == init + [Some(w)];
      ReverseSnoc(init, Some(w));
      SumOfOne(w);
      SumOfAppend([Some(w)], Reverse(init), w, t - w);
    }
  }

  /** A missing value anywhere leaves the sum missing, in either order. */
  lemma SumOfReverseNone(vals: seq<Option<int>>)
    requires !AllSome(vals)
    ensures SumOf(vals).None? && SumOf(Reverse(vals)).None?
  {
    SumOfDefined(vals);
    SumOfDefined(Reverse(vals));
    var k :| 0 <= k < |vals| && vals[k].None?;
    assert Reverse(vals)[|vals| - 1 - k] == vals[k];
  }

  /** The sum of the changes exists exactly when every record has a change
      that parses, and it does not depend on the order of the records. */
  lemma SumDiffsOrderFree(items: seq<Record>)
    ensures SumDiffs(items).Some? <==> forall k :: 0 <= k < |items| ==> DiffValue(items[k]).Some?
    ensures SumDiffs(Reverse(items)) == SumDiffs(items)
  {
    var vals := DiffValues(items);
    ParseEachReverse(items, DiffValue);
    SumOfDefined(vals);
    if AllSome(vals) {
      SumOfReverse(vals, SumOf(vals).value);
    } else {
      SumOfReverseNone(vals);
    }
  }

  /** Extending the summed prefix by one present value adds that value. */
  lemma SumOfPrefixStep(vals: seq<Option<int>>, i: int, s: int, v: int)
    requires 0 <= i < |vals| && SumOf(vals[..i]) == Some(s) && vals[i] == Some(v)
    ensures SumOf(vals[..i + 1]) == Some(s + v)
  {
    assert vals[..i + 1] == vals[..i] + [Some(v)];
    SumOfSnoc(vals[..i], s, v);
  }

  /** A missing value anywhere leaves the whole sum missing. */
  lemma SumOfBreaks(vals: seq<Option<int>>, i: int)
    requires 0 <= i < |vals| && vals[i].None?
    ensures SumOf(vals).None?
  {
    SumOfDefined(vals);
  }

  /** The loop over raw_data that accumulates total_diff_val, with `parse`
      standing for the conversion of one record; an exception ends it. */
  method SumParsed(items: seq<Record>, parse: Record -> Option<int>) returns (total: Option<int>)
    ensures total == SumOf(ParseEach(items, parse))
  {
    ghost var vals := ParseEach(items, parse);
    var sum := 0;
    for i := 0 to |items|
      invariant SumOf(vals[..i]) == Some(sum)
    {
      var d := parse(items[i]);
      if d.None? {
        SumOfBreaks(vals, i);
        return None;
      }
      SumOfPrefixStep(vals, i, sum, d.value);
      sum := sum + d.value;
    }
    assert vals[..|items|] == vals;
    return Some(sum);
  }

  /** total_diff_val: the sum of every record's change. */
  method TotalDiff(items: seq<Record>) returns (total: Option<int>)
    ensures total == SumDiffs(items)
  {
    total := SumParsed(items, DiffValue);
  }

  /** The keys index() adds to each displayed record. */
  const DisplayDate: Key := Other("display_date")
  const DisplayTime: Key := Other("display_time")

  /** One record as displayed: split on single spaces, the date part formatted
      in Thai and the time part kept; None where asdate is missing or has no
      space. */
  function Displayed(item: Record): (r: Option<Record>)
    ensures r.Some? <==> AsDate in item && |Split(item[AsDate], ' ')| >= 2
    ensures r.Some? ==> r.value == item[DisplayDate := FormatThaiDate(Split(item[AsDate], ' ')[0])]
                                       [DisplayTime := Split(item[AsDate], ' ')[1]]
  {
    if AsDate !in item then None
    else
      var parts := Split(item[AsDate], ' ');
      if |parts| < 2 then None
      else Some(item[DisplayDate := FormatThaiDate(parts[0])][DisplayTime := parts[1]])
  }

  /** Every record put through `show`, in the given order; None when one of
      them breaks. */
  function ShowEach(items: seq<Record>, show: Record -> Option<Record>): (r: Option<seq<Record>>)
    ensures r.Some? <==> forall k :: 0 <= k < |items| ==> show(items[k]).Some?
    ensures r.Some? ==> |r.value| == |items|
                        && forall k :: 0 <= k < |items| ==> r.value[k] == show(items[k]).value
  {
    if |items| == 0 then Some([])
    else
      var init := items[..|items| - 1];
      assert forall k :: 0 <= k < |init| ==> init[k] == items[k];
      var shown :- ShowEach(init, show);
      var last :- show(items[|items| - 1]);
      Some(shown + [last])
  }

  /** Every record displayed, in the given order. */
  function DisplayAll(items: seq<Record>): Option<seq<Record>> {
    ShowEach(items, Displayed)
  }

  lemma ShowEachStep(items: seq<Record>, show: Record -> Option<Record>, i: int, shown: seq<Record>, last: Record)
    requires 0 <= i < |items|
    requires ShowEach(items[..i], show) == Some(shown) && show(items[i]) == Some(last)
    ensures ShowEach(items[..i + 1], show) == Some(shown + [last])
  {
    assert items[..i + 1][..i] == items[..i];
  }

  /** What the route hands to the template, or Crashed where it raises. */
  datatype Page = Crashed | Page(prices: seq<Record>, totalDiff: string, totalVal: int)

  /** index(): the total over the file order, the display newest first. */
  function IndexPage(doc: JsonDoc): (page: Page)
  {
    match LoadData(doc)
    case None => Crashed
    case Some(items) =>
      match SumDiffs(items)
      case None => Crashed
      case Some(total) =>
        match DisplayAll(Reverse(items))
        case None => Crashed
        case Some(display) => Page(display, GroupThousands(total), total)
  }

  /** The page lists the records in exactly the reverse of file order, each with
      its date and time added, and its total reads back, commas removed, as the
      sum of the changes, which does not depend on the order. */
  lemma IndexPageShows(doc: JsonDoc)
    requires IndexPage(doc).Page?
    ensures doc.Missing? || doc.List?
    ensures var items := LoadData(doc).value;
            var page := IndexPage(doc);
            && |page.prices| == |items|
            && (forall k :: 0 <= k < |items| ==> Displayed(items[|items| - 1 - k]) == Some(page.prices[k]))
            && Some(page.totalVal) == SumDiffs(items) == SumDiffs(Reverse(items))
            && ParseGrouped(page.totalDiff) == Some(page.totalVal)
  {
    var items := LoadData(doc).value;
    SumDiffsOrderFree(items);
    GroupThousandsRoundTrip(IndexPage(doc).totalVal);
  }

  /** Without a file the page is empty and the total is "0". */
  lemma NoFilePage()
    ensures IndexPage(Missing) == Page([], "0", 0)
  {
    assert Reverse<Record>([]) == [];
    assert GroupThousands(0) == "0";
  }

  /** reverse() on the display list, in place. */
  method ReverseInPlace(a: array<Record>)
    modifies a
    ensures a[..] == Reverse(old(a[..]))
  {
    var lo, hi := 0, a.Length - 1;
    while lo < hi
      invariant 0 <= lo <= a.Length && hi == a.Length - 1 - lo
      invariant forall k :: 0 <= k < lo ==> a[k] == old(a[a.Length - 1 - k]) && a[a.Length - 1 - k] == old(a[k])
      invariant forall k :: lo <= k <= hi ==> a[k] == old(a[k])
    {
      a[lo], a[hi] := a[hi], a[lo];
      lo, hi := lo + 1, hi - 1;
    }
  }

  /** The loop that writes display_date and display_time into each displayed
      record, with `show` standing for the update of one record; false where
      a record breaks it. */
  method ShowAll(display: array<Record>, show: Record -> Option<Record>) returns (ok: bool)
    modifies display
    ensures ok <==> ShowEach(old(display[..]), show).Some?
    ensures ok ==> ShowEach(old(display[..]), show) == Some(display[..])
  {
    ghost var before := display[..];
    for i := 0 to display.Length
      invariant forall k :: i <= k < display.Length ==> display[k] == before[k]
      invariant ShowEach(before[..i], show) == Some(display[..i])
    {
      var shown := show(display[i]);
      if shown.None? {
        return false;
      }
      ghost var done := display[..i];
      ShowEachStep(before, show, i, done, shown.value);
      display[i] := shown.value;
      assert display[..i + 1] == done + [shown.value] by {
        assert forall k :: 0 <= k < i ==> display[k] == done[k];
      }
    }
    assert before[..display.Length] == before;
    assert display[..display.Length] == display[..];
    return true;
  }

  /** index() as it runs: the sum loop, a copy reversed in place, and the loop
      that writes display_date and display_time into each displayed record. */
  method Index(doc: JsonDoc) returns (page: Page)
    ensures page == IndexPage(doc)
  {
    var raw := LoadData(doc);
    if raw.None? {
      return Crashed;
    }
    var items := raw.value;
    var total := TotalDiff(items);
    if total.None? {
      return Crashed;
    }
    var display := new Record[|items|](k requires 0 <= k < |items| => items[k]);
    assert display[..] == items;
    ReverseInPlace(display);
    var ok := ShowAll(display, Displayed);
    if !ok {
      return Crashed;
    }
    page := Page(display[..], GroupThousands(total.value), total.value);
  }
}
