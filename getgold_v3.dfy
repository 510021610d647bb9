/** The second scraper: the history table of the updated price page, today's
    date joined to each row's time, the cleaned change column, the
    newest-first sort before saving, and the exit code of the script.

    Its columns run bar-sell, bar-buy, jewellery-sell, jewellery-buy, the
    opposite order to the first scraper's, and each is modelled as written. */
module GetGoldV3 {
  import opened PyStr
  import opened Calendar
  import opened Records
  import GetGold

  // ---------------------------------------------------------------- the change column

  /** txt[8].replace('Change ', '').replace('change ', '').strip() */
  function CleanDiff(s: string): (r: string)
    ensures r == [] || (!IsSpace(r[0]) && !IsSpace(r[|r| - 1]))
    ensures |r| <= |s|
  {
    ReplaceShrinks(s, "Change ");
    ReplaceShrinks(Replace(s, "Change ", ""), "change ");
    Strip(Replace(Replace(s, "Change ", ""), "change ", ""))
  }

  lemma {:induction false} ReplaceShrinks(s: string, pat: string)
    requires pat != []
    ensures |Replace(s, pat, "")| <= |s|
    decreases |s|
  {
    if |s| >= |pat| {
      if s[..|pat|] == pat {
        ReplaceShrinks(s[|pat|..], pat);
      } else {
        ReplaceShrinks(s[1..], pat);
      }
    }
  }

  /** A change value with either label in front loses the label, and a bare
      value is kept as it is. */
  lemma CleanDiffOfLabel(x: string)
    requires 'C' !in x && 'c' !in x
    requires x == [] || (!IsSpace(x[0]) && !IsSpace(x[|x| - 1]))
    ensures CleanDiff("Change " + x) == x
    ensures CleanDiff("change " + x) == x
    ensures CleanDiff(x) == x
  {
    AbsentFirstChar(x, "Change ");
    AbsentFirstChar(x, "change ");
    ReplaceAbsent(x, "Change ", "");
    ReplaceAbsent(x, "change ", "");
    StripNoSpaceEnds(x);

    ReplaceLeading("Change ", x, "");
    assert "" + x == x;

    var t := "change " + x;
    assert 'C' !in t by {
      assert forall i :: 0 <= i < 7 ==> t[i] == "change "[i];
      assert forall i :: 7 <= i < |t| ==> t[i] == x[i - 7];
    }
    AbsentFirstChar(t, "Change ");
    ReplaceAbsent(t, "Change ", "");
    ReplaceLeading("change ", x, "");
  }

  // ---------------------------------------------------------------- rows

  /** The record of one history row; `today` is datetime.now().strftime("%d/%m/%Y"). */
  function RecordOfRowV3(today: string, cells: FullRow): (r: Record)
    ensures r.Keys == {AsDate, Nqy, BlBuy, BlSell, OmBuy, OmSell, GoldSpot, BahtUsd, Diff}
    ensures r[AsDate] == today + (" " + cells[1]) && r[Nqy] == cells[0]
    ensures r[OmSell] == cells[2] && r[OmBuy] == cells[3]
    ensures r[BlSell] == cells[4] && r[BlBuy] == cells[5]
    ensures r[GoldSpot] == cells[6] && r[BahtUsd] == cells[7]
    ensures r[Diff] == CleanDiff(cells[8])
  {
    map[AsDate := today + (" " + cells[1]), Nqy := cells[0], OmBuy := cells[3], OmSell := cells[2],
        BlBuy := cells[5], BlSell := cells[4], GoldSpot := cells[6], BahtUsd := cells[7],
        Diff := CleanDiff(cells[8])]
  }

  /** What the browser session yields. */
  datatype Page =
    | NavError                      // goto or wait_for_selector raised
    | NoBody                        // no tbody with id history-body
    | Body(rows: seq<seq<string>>)

  /** get_gold_price_data, with today's date given. */
  method GetGoldPriceData(page: Page, today: DateTime) returns (data: seq<Record>)
    requires Valid(today)
    ensures page.Body? ==> data == RecordsOfRows(page.rows, (cells: FullRow) => RecordOfRowV3(FormatDmy(today), cells))
    ensures !page.Body? ==> data == []
  {
    if !page.Body? {
      return [];
    }
    var todayStr := FormatDmy(today);
    data := CollectRows(page.rows, (cells: FullRow) => RecordOfRowV3(todayStr, cells));
  }

  /** A row whose time cell is a zero-padded HH:MM gets a date-and-time that the sort key reads as today at that time. */
  lemma AsdateReadsBack(today: DateTime, cells: FullRow, h: nat, mi: nat)
    requires Valid(today) && h <= 23 && mi <= 59 && cells[1] == FormatHm(h, mi)
    ensures ParseDmyHm(RecordOfRowV3(FormatDmy(today), cells)[AsDate])
            == Some(today.(hour := h, minute := mi, second := 0))
  {
    DmyThenHm(today, h, mi);
    DmyHmRoundTrip(today.(hour := h, minute := mi, second := 0));
  }

  // ---------------------------------------------------------------- newest first

  /** The sort key: datetime.strptime(x['asdate'], '%d/%m/%Y %H:%M') as seconds;
      None where the lookup or the parse raises. */
  function SortKey(r: Record): (k: Option<int>)
    ensures k.Some? <==> AsDate in r && ParseDmyHm(r[AsDate]).Some?
    ensures k.Some? ==> k.value == EpochSeconds(ParseDmyHm(r[AsDate]).value)
  {
    if AsDate in r then
      match ParseDmyHm(r[AsDate])
      case Some(dt) => Some(EpochSeconds(dt))
      case None => None
    else None
  }

  /** Non-increasing keys: the newest first. */
  predicate NewestFirst(keys: seq<int>) {
    forall p, q :: 0 <= p < q < |keys| ==> keys[p] >= keys[q]
  }

  /** The keys of every element, computed before anything moves; None as soon as one raises. */
  method KeysOf(a: array<Record>, key: Record -> Option<int>) returns (ks: Option<seq<int>>)
    ensures ks.Some? <==> forall i :: 0 <= i < a.Length ==> key(a[i]).Some?
    ensures ks.Some? ==> |ks.value| == a.Length && forall i :: 0 <= i < a.Length ==> key(a[i]) == Some(ks.value[i])
  {
    var acc: seq<int> := [];
    for i := 0 to a.Length
      invariant |acc| == i
      invariant forall k :: 0 <= k < i ==> key(a[k]) == Some(acc[k])
    {
      var k := key(a[i]);
      if k.None? {
        return None;
      }
      acc := acc + [k.value];
    }
    ks := Some(acc);
  }

  /** ks holds the key of every element. */
  predicate KeysHeld(a: array<Record>, key: Record -> Option<int>, ks: seq<int>)
    reads a
  {
    |ks| == a.Length && forall k :: 0 <= k < a.Length ==> key(a[k]) == Some(ks[k])
  }

  /** Exchanges elements j - 1 and j together with their keys. */
  method Swap(a: array<Record>, key: Record -> Option<int>, ks: seq<int>, j: int) returns (ks': seq<int>)
    requires 0 < j < a.Length && KeysHeld(a, key, ks)
    modifies a
    ensures KeysHeld(a, key, ks') && ks' == ks[j - 1 := ks[j]][j := ks[j - 1]]
    ensures multiset(a[..]) == multiset(old(a[..]))
  {
    a[j - 1], a[j] := a[j], a[j - 1];
    ks' := ks[j - 1 := ks[j]][j := ks[j - 1]];
  }

  /** Midway through a pass: keys 0..i are in order except for the one at j,
      which is larger than every key after it. */
  predicate Inserting(ks: seq<int>, j: int, i: int)
    requires 0 <= j <= i < |ks|
  {
    && (forall p, q :: 0 <= p < q <= i && p != j && q != j ==> ks[p] >= ks[q])
    && (forall q :: j < q <= i ==> ks[j] > ks[q])
  }

  lemma InsertingStarts(ks: seq<int>, i: int)
    requires 1 <= i < |ks| && NewestFirst(ks[..i])
    ensures Inserting(ks, i, i)
  {
    assert forall p :: 0 <= p < i ==> ks[..i][p] == ks[p];
  }

  lemma InsertingSteps(ks: seq<int>, j: int, i: int)
    requires 0 < j <= i < |ks| && Inserting(ks, j, i) && ks[j - 1] < ks[j]
    ensures Inserting(ks[j - 1 := ks[j]][j := ks[j - 1]], j - 1, i)
  {
  }

  lemma InsertingEnds(ks: seq<int>, j: int, i: int)
    requires 0 <= j <= i < |ks| && Inserting(ks, j, i) && (j == 0 || ks[j - 1] >= ks[j])
    ensures NewestFirst(ks[..i + 1])
  {
  }

  /** One pass of the insertion: element i moves left past every element with a smaller key. */
  method InsertNewest(a: array<Record>, key: Record -> Option<int>, ks: seq<int>, i: int) returns (ks': seq<int>)
    requires 1 <= i < a.Length && KeysHeld(a, key, ks) && NewestFirst(ks[..i])
    modifies a
    ensures KeysHeld(a, key, ks') && NewestFirst(ks'[..i + 1])
    ensures multiset(a[..]) == multiset(old(a[..]))
  {
    ks' := ks;
    var j := i;
    InsertingStarts(ks, i);
    while j > 0 && ks'[j - 1] < ks'[j]
      invariant 0 <= j <= i && KeysHeld(a, key, ks') && Inserting(ks', j, i)
      invariant multiset(a[..]) == multiset(old(a[..]))
    {
      InsertingSteps(ks', j, i);
      ks' := Swap(a, key, ks', j);
      j := j - 1;
    }
    InsertingEnds(ks', j, i);
  }

  /** data.sort(key=key, reverse=True): every key is computed first and a key
      that raises leaves the list as it was; otherwise the list is rearranged
      so that the keys do not increase. */
  method SortNewestFirst(a: array<Record>, key: Record -> Option<int>) returns (sorted: bool)
    modifies a
    ensures sorted <==> forall i :: 0 <= i < a.Length ==> key(old(a[i])).Some?
    ensures !sorted ==> a[..] == old(a[..])
    ensures multiset(a[..]) == multiset(old(a[..]))
    ensures sorted ==> (forall i :: 0 <= i < a.Length ==> key(a[i]).Some?)
                       && forall p, q :: 0 <= p < q < a.Length ==> key(a[p]).value >= key(a[q]).value
  {
    var keys := KeysOf(a, key);
    if keys.None? {
      return false;
    }
    var ks := keys.value;
    if a.Length > 0 {
      var i := 1;
      while i < a.Length
        invariant 1 <= i <= a.Length && KeysHeld(a, key, ks) && NewestFirst(ks[..i])
        invariant multiset(a[..]) == multiset(old(a[..]))
      {
        ks := InsertNewest(a, key, ks, i);
        i := i + 1;
      }
      assert ks[..a.Length] == ks;
    }
    sorted := true;
  }

  /** The moment a record's asdate names, where the sort key reads one. */
  function TimeOf(r: Record): DateTime
    requires SortKey(r).Some?
  {
    ParseDmyHm(r[AsDate]).value
  }

  /** Non-increasing keys mean no record is placed before one that is later in time. */
  lemma NewestFirstByTime(data: seq<Record>)
    requires forall i :: 0 <= i < |data| ==> SortKey(data[i]).Some?
    requires forall p, q :: 0 <= p < q < |data| ==> SortKey(data[p]).value >= SortKey(data[q]).value
    ensures forall p, q :: 0 <= p < q < |data| ==> !Before(TimeOf(data[p]), TimeOf(data[q]))
  {
    forall p, q | 0 <= p < q < |data|
      ensures !Before(TimeOf(data[p]), TimeOf(data[q]))
    {
      EpochSecondsOrder(TimeOf(data[p]), TimeOf(data[q]));
    }
  }

  /** save_and_sort_json: the sort, whose failure is only reported, then the
      file is written with whatever order the list has. */
  method SaveAndSortJson(data: array<Record>) returns (sorted: bool, saved: seq<Record>)
    modifies data
    ensures saved == data[..]
    ensures multiset(saved) == multiset(old(data[..]))
    ensures sorted <==> forall i :: 0 <= i < data.Length ==> SortKey(old(data[i])).Some?
    ensures !sorted ==> saved == old(data[..])
    ensures sorted ==> (forall i :: 0 <= i < |saved| ==> SortKey(saved[i]).Some?)
                       && forall p, q :: 0 <= p < q < |saved| ==> !Before(TimeOf(saved[p]), TimeOf(saved[q]))
  {
    sorted := SortNewestFirst(data, SortKey);
    saved := data[..];
    if sorted {
      NewestFirstByTime(saved);
    }
  }

  // ---------------------------------------------------------------- entry point

  /** __main__, given the scraped data, its saved (sorted) form and the answer of the POST. */
  function V3Main(data: seq<Record>, saved: seq<Record>, status: GetGold.PostStatus): (o: GetGold.Outcome)
    ensures data == [] ==> o == GetGold.Outcome(1, [])
    ensures data != [] ==> o.effects == [GetGold.SaveJson(saved), GetGold.PostJson(saved)]
    ensures data != [] ==> (o.exitCode == 0 <==> status == GetGold.Status(200) || status == GetGold.Status(201))
    ensures data != [] ==> (o.exitCode == 3 <==> status == GetGold.NoStatus)
    ensures data != [] ==> (o.exitCode == 4 <==> status.Status? && status.code != 200 && status.code != 201)
  {
    if data == [] then GetGold.Outcome(1, [])
    else
      var code := match status
        case Status(200) => 0
        case Status(201) => 0
        case NoStatus => 3
        case Status(_) => 4;
      GetGold.Outcome(code, [GetGold.SaveJson(saved), GetGold.PostJson(saved)])
  }

  /** __main__ from the scraped data on: the list is sorted in place by
      save_and_sort_json, and that same list is what gets written and posted. */
  method RunV3Main(data: seq<Record>, status: GetGold.PostStatus) returns (o: GetGold.Outcome)
    ensures data == [] ==> o == GetGold.Outcome(1, [])
    ensures data != [] ==>
              && |o.effects| == 2 && o.effects[0].SaveJson?
              && o.effects[1] == GetGold.PostJson(o.effects[0].content)
              && multiset(o.effects[0].content) == multiset(data)
    ensures data != [] && (forall i :: 0 <= i < |data| ==> SortKey(data[i]).Some?) ==>
              var saved := o.effects[0].content;
              && (forall i :: 0 <= i < |saved| ==> SortKey(saved[i]).Some?)
              && forall p, q :: 0 <= p < q < |saved| ==> !Before(TimeOf(saved[p]), TimeOf(saved[q]))
    ensures data != [] && !(forall i :: 0 <= i < |data| ==> SortKey(data[i]).Some?) ==>
              o.effects[0].content == data
    ensures o.exitCode == V3Main(data, data, status).exitCode
  {
    if data == [] {
      return V3Main(data, [], status);
    }
    var list := new Record[|data|](i requires 0 <= i < |data| => data[i]);
    assert list[..] == data;
    var sorted, saved := SaveAndSortJson(list);
    o := V3Main(data, saved, status);
  }
}
