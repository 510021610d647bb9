/** The price-table scraper: Buddhist-era timestamps, the row-to-record
    mapping, the retry loop and the exit code of its entry point.

    The page is seen only through what each attempt fetches; the table is the
    list of its rows, each row the stripped texts of its cells. */
module GetGold {
  import opened PyStr
  import opened Calendar
  import opened Records

  // ---------------------------------------------------------------- timestamps

  /** The datetime parse_be_datetime reads from 'd/m/BE HH:MM', before formatting. */
  function ReadBeDatetime(s: string): (r: Option<DateTime>)
    ensures r.Some? ==> Valid(r.value) && r.value.second == 0
  {
    var parts := SplitWs(s);
    if |parts| != 2 then None
    else
      var dmy := Split(parts[0], '/');
      if |dmy| != 3 then None
      else
        var yBe :- ParseInt(dmy[2]);
        ParseDmyHm(dmy[0] + ("/" + (dmy[1] + ("/" + (IntToString(yBe - 543) + (" " + parts[1]))))))
  }

  /** parse_be_datetime: the Common-era ISO text of a Buddhist-era timestamp, None where it fails. */
  function ParseBeDatetime(s: string): (r: Option<string>)
    ensures r.Some? <==> ReadBeDatetime(s).Some?
    ensures r.Some? ==> ParseIso(r.value) == ReadBeDatetime(s)
  {
    var dt :- ReadBeDatetime(s);
    IsoRoundTrip(dt);
    Some(FormatIso(dt))
  }

  /** A numeric field followed by a delimiter it cannot contain consumes
      exactly the text before that delimiter. */
  lemma FieldUpTo(a: string, c: char, rest: string, lo: int, hi: int)
    requires !IsDigit(c) && c !in a
    requires Field(a + ([c] + rest), lo, hi).Some?
    requires Lit(Field(a + ([c] + rest), lo, hi).value.rest, c).Some?
    ensures Field(a + ([c] + rest), lo, hi).value.rest == [c] + rest
  {
    var s := a + ([c] + rest);
    var d := TakeDigits(s);
    assert s[|d|] == c;
    assert |d| == |a| by {
      assert forall i :: 0 <= i < |a| ==> s[i] == a[i];
      assert s[|a|] == c;
    }
    assert s[|a|..] == [c] + rest;
  }

  lemma DayFieldUpTo(a: string, c: char, rest: string)
    requires !IsDigit(c) && c != ' ' && c !in a
    requires DayField(a + ([c] + rest)).Some?
    requires Lit(DayField(a + ([c] + rest)).value.rest, c).Some?
    ensures DayField(a + ([c] + rest)).value.rest == [c] + rest
  {
    var s := a + ([c] + rest);
    if |s| >= 2 && s[0] == ' ' && '1' <= s[1] <= '9' && (|s| == 2 || !IsDigit(s[2])) {
      assert s[2] == c;
      assert |a| == 2 by {
        assert forall i :: 0 <= i < |a| ==> s[i] == a[i];
        assert s[|a|] == c;
      }
      assert s[2..] == [c] + rest;
    } else {
      FieldUpTo(a, c, rest, 1, 31);
    }
  }

  /** A timestamp parse_be_datetime accepts carries a Common-era year 543 below its Buddhist-era year. */
  lemma {:induction false} BeYearToCe(s: string)
    requires ReadBeDatetime(s).Some?
    ensures |SplitWs(s)| == 2 && |Split(SplitWs(s)[0], '/')| == 3
    ensures ParseInt(Split(SplitWs(s)[0], '/')[2]).Some?
    ensures ReadBeDatetime(s).value.year == ParseInt(Split(SplitWs(s)[0], '/')[2]).value - 543
  {
    var parts := SplitWs(s);
    var dmy := Split(parts[0], '/');
    var yCe := ParseInt(dmy[2]).value - 543;
    var y := IntToString(yCe) + (" " + parts[1]);
    var x := dmy[1] + ("/" + y);
    var built := dmy[0] + ("/" + x);
    assert ParseDmyHm(built).Some?;
    DayFieldUpTo(dmy[0], '/', x);
    var d := DayField(built).value;
    assert Lit(d.rest, '/') == Some(x);
    FieldUpTo(dmy[1], '/', y, 1, 12);
    var mo := Field(x, 1, 12).value;
    assert Lit(mo.rest, '/') == Some(y);
    assert YearField(y).Some?;
    if yCe >= 0 {
      TakeDigitsPrefix(NatToString(yCe), " " + parts[1]);
    }
  }

  /** The table's own date text: zero-padded day and month and a Buddhist-era year. */
  function BeDate(d: nat, m: nat, yBe: nat): string
    requires d < 100 && m < 100
  {
    assert Pow10(2) == 100;
    Pad(d, 2) + ("/" + (Pad(m, 2) + ("/" + NatToString(yBe))))
  }

  /** The table's timestamp is reassembled into the day-first Common-era text of its moment. */
  lemma ReadBeDatetimeOfTable(d: nat, m: nat, yBe: nat, h: nat, mi: nat)
    requires 1543 <= yBe && Valid(DateTime(yBe - 543, m, d, h, mi, 0))
    ensures ReadBeDatetime(BeDate(d, m, yBe) + (" " + FormatHm(h, mi)))
            == ParseDmyHm(FormatDmyHm(DateTime(yBe - 543, m, d, h, mi, 0)))
  {
    assert Pow10(2) == 100 && Pow10(3) == 1000 && Pow10(4) == 10000;
    var dd, mm, yy := Pad(d, 2), Pad(m, 2), NatToString(yBe);
    var date, time := BeDate(d, m, yBe), FormatHm(h, mi);
    assert NoSpace(date) by {
      forall i | 0 <= i < |date| ensures !IsSpace(date[i]) {
        assert date[i] == '/' || IsDigit(date[i]);
      }
    }
    assert NoSpace(time) by {
      forall i | 0 <= i < |time| ensures !IsSpace(time[i]) {
        assert time[i] == ':' || IsDigit(time[i]);
      }
    }
    SplitWsTwoWords(date, time);
    assert '/' !in dd && '/' !in mm && '/' !in yy by {
      assert forall i :: 0 <= i < |dd| ==> IsDigit(dd[i]);
      assert forall i :: 0 <= i < |mm| ==> IsDigit(mm[i]);
      assert forall i :: 0 <= i < |yy| ==> IsDigit(yy[i]);
    }
    SplitThree(dd, mm, yy, '/');
    IntToStringRoundTrip(yBe);
    ReadBeDatetimeSteps(date + (" " + time), date, time, dd, mm, yy, yBe);
    NatToStringPad(yBe - 543, 4);
    var dt := DateTime(yBe - 543, m, d, h, mi, 0);
    assert dd + ("/" + (mm + ("/" + (IntToString(yBe - 543) + (" " + time))))) == FormatDmyHm(dt);
  }

  /** How parse_be_datetime reassembles a timestamp once it is split. */
  lemma ReadBeDatetimeSteps(s: string, date: string, time: string, dd: string, mm: string, yy: string, yBe: int)
    requires SplitWs(s) == [date, time] && Split(date, '/') == [dd, mm, yy] && ParseInt(yy) == Some(yBe)
    ensures ReadBeDatetime(s) == ParseDmyHm(dd + ("/" + (mm + ("/" + (IntToString(yBe - 543) + (" " + time))))))
  {
  }

  /** Every real timestamp of the table is converted, to the same moment with the year moved back 543. */
  lemma ParseBeDatetimeOfTable(d: nat, m: nat, yBe: nat, h: nat, mi: nat)
    requires 1543 <= yBe && Valid(DateTime(yBe - 543, m, d, h, mi, 0))
    ensures ParseBeDatetime(BeDate(d, m, yBe) + (" " + FormatHm(h, mi)))
            == Some(FormatIso(DateTime(yBe - 543, m, d, h, mi, 0)))
  {
    ReadBeDatetimeOfTable(d, m, yBe, h, mi);
    DmyHmRoundTrip(DateTime(yBe - 543, m, d, h, mi, 0));
  }

  // ---------------------------------------------------------------- rows

  /** The nine fields every record has, in the order of the table's columns. */
  const Columns: seq<Key> := [AsDate, Nqy, BlBuy, BlSell, OmBuy, OmSell, GoldSpot, BahtUsd, Diff]

  /** The fields of a row, cell by cell, with the ISO timestamp added when there is one. */
  function WithIso(cells: seq<string>, iso: Option<string>): (r: Record)
    requires |cells| >= 9
    ensures forall k :: k in r <==> k in Columns || (k == AsDateIso && iso.Some?)
    ensures forall i :: 0 <= i < 9 ==> r[Columns[i]] == cells[i]
    ensures iso.Some? ==> r[AsDateIso] == iso.value
  {
    var item := map[AsDate := cells[0], Nqy := cells[1], BlBuy := cells[2], BlSell := cells[3],
                     OmBuy := cells[4], OmSell := cells[5], GoldSpot := cells[6],
                     BahtUsd := cells[7], Diff := cells[8]];
    if iso.Some? then item[AsDateIso := iso.value] else item
  }

  /** The record of one table row of at least nine cells: its fields, and
      "asdate_iso" exactly when parse_be_datetime accepts the first cell. */
  function RecordOfRow(cells: FullRow): Record {
    WithIso(cells, ParseBeDatetime(cells[0]))
  }

  // ---------------------------------------------------------------- retries

  /** What one attempt fetches. */
  datatype Fetch =
    | FetchError                    // the request, its status or the parse raised
    | NoTable                       // no table with the expected id
    | Table(rows: seq<seq<string>>)

  /** What scrape_gold_data returns from the first attempt that did not raise. */
  function Answer(f: Fetch): seq<Record>
    requires !f.FetchError?
  {
    if f.NoTable? || |f.rows| <= 1 then [] else Reverse(RecordsOfRows(f.rows[1..], RecordOfRow))
  }

  /** The first attempt from `a` on that does not raise; retries + 1 when every one does. */
  function FirstAnswer(fetch: nat -> Fetch, retries: int, a: nat): (k: nat)
    ensures a <= k && (k > retries ==> k <= if a > retries then a else retries + 1)
    ensures forall b :: a <= b < k ==> fetch(b).FetchError?
    ensures k <= retries ==> !fetch(k).FetchError?
    decreases retries - a + 1
  {
    if a > retries then a
    else if !fetch(a).FetchError? then a
    else FirstAnswer(fetch, retries, a + 1)
  }

  /** [lo, lo + 1, ..., hi - 1] */
  function Range(lo: int, hi: int): (r: seq<int>)
    ensures |r| == if hi > lo then hi - lo else 0
    ensures forall i :: 0 <= i < |r| ==> r[i] == lo + i
    decreases hi - lo
  {
    if hi <= lo then [] else Range(lo, hi - 1) + [hi - 1]
  }

  function Min(a: int, b: int): int {
    if a < b then a else b
  }

  /** scrape_gold_data: `fetch(a)` is what attempt a fetches; `sleeps` lists the
      attempts after which the loop slept backoff ** attempt seconds. */
  method ScrapeGoldData(fetch: nat -> Fetch, retries: int)
    returns (data: seq<Record>, attempts: nat, sleeps: seq<int>)
    ensures var k := FirstAnswer(fetch, retries, 1);
            && attempts == (if k <= retries then k else if retries > 0 then retries else 0)
            && sleeps == Range(1, Min(k, retries))
            && data == (if k <= retries then Answer(fetch(k)) else [])
  {
    var attempt: nat := 1;
    attempts, sleeps := 0, [];
    while attempt <= retries
      invariant 1 <= attempt && (retries > 0 ==> attempt <= retries + 1)
      invariant FirstAnswer(fetch, retries, attempt) == FirstAnswer(fetch, retries, 1)
      invariant attempts == attempt - 1
      invariant sleeps == Range(1, Min(attempt, retries))
      decreases retries - attempt
    {
      attempts := attempt;
      var page := fetch(attempt);
      if page.NoTable? {
        return [], attempts, sleeps;
      }
      if page.Table? {
        var rows := page.rows;
        if |rows| <= 1 {
          return [], attempts, sleeps;
        }
        var collected := CollectRows(rows[1..], RecordOfRow);
        data := Reverse(collected);
        return;
      }
      if attempt < retries {
        sleeps := sleeps + [attempt];
      }
      attempt := attempt + 1;
    }
    data := [];
  }

  /** The newest row of the table, its last, becomes the first record. */
  lemma NewestRowFirst(rows: seq<seq<string>>)
    requires |rows| >= 2 && |rows[|rows| - 1]| >= 9
    ensures Answer(Table(rows)) != []
    ensures Answer(Table(rows))[0] == RecordOfRow(rows[|rows| - 1])
  {
    var body := rows[1..];
    assert body == body[..|body| - 1] + [rows[|rows| - 1]];
    RecordsOfRowsAppend(body[..|body| - 1], [rows[|rows| - 1]], RecordOfRow);
    RecordsOfOneRow(rows[|rows| - 1], RecordOfRow);
  }

  // ---------------------------------------------------------------- entry point

  datatype PostStatus = NoStatus | Status(code: int)

  /** What main writes and sends, in order. */
  datatype Effect = SaveJson(content: seq<Record>) | PostJson(payload: seq<Record>)

  datatype Outcome = Outcome(exitCode: int, effects: seq<Effect>)

  /** main, given the scraped data and the answer of the POST. */
  function GetGoldMain(data: seq<Record>, status: PostStatus): (o: Outcome)
    ensures data == [] ==> o == Outcome(2, [SaveJson([])])
    ensures data != [] ==> o.effects == [SaveJson(data), PostJson(data)]
    ensures data != [] ==> (o.exitCode == 0 <==> status == Status(201))
    ensures data != [] ==> (o.exitCode == 3 <==> status == NoStatus)
    ensures data != [] ==> (o.exitCode == 4 <==> status.Status? && status.code != 201)
  {
    if data == [] then Outcome(2, [SaveJson([])])
    else
      var code := match status
        case Status(201) => 0
        case NoStatus => 3
        case Status(_) => 4;
      Outcome(code, [SaveJson(data), PostJson(data)])
  }
}
