/** Text shared by both video renderers: the Thai date and time captions and
    the choice of the entry to show and the entry to compare it with. */
module PanelText {
  import opened PyStr
  import opened Records

  /** TH_MONTHS: the Thai month names, January first. */
  const ThMonths: seq<string> := [
    "มกราคม", "กุมภาพันธ์", "มีนาคม", "เมษายน", "พฤษภาคม", "มิถุนายน",
    "กรกฎาคม", "สิงหาคม", "กันยายน", "ตุลาคม", "พฤศจิกายน", "ธันวาคม"
  ]

  /** The month name looked up as the renderers do, TH_MONTHS[month - 1] with
      Python's negative indexing; with `strict` only months 1..12 are accepted. */
  function MonthName(month: int, strict: bool): (name: Option<string>)
    ensures name.Some? <==> (if strict then 1 <= month <= 12 else -11 <= month <= 12)
    ensures name.Some? ==> name.value == ThMonths[(month + 11) % 12]
  {
    if strict && !(1 <= month <= 12) then None else PyIndex(ThMonths, month - 1)
  }

  /** The body of thai_date_time's `try`: None where it raises. */
  function ReadThaiDate(asdate: string, strict: bool): (r: Option<(string, string)>)
    ensures r.Some? ==> |SplitWs(asdate)| == 2 && r.value.1 == "เวลา " + (SplitWs(asdate)[1] + " น.")
  {
    var parts := SplitWs(asdate);
    if |parts| != 2 then None
    else
      var dmy := Split(parts[0], '/');
      if |dmy| != 3 then None
      else
        var day :- ParseInt(dmy[0]);
        var month :- ParseInt(dmy[1]);
        var year :- ParseInt(dmy[2]);
        var name :- MonthName(month, strict);
        Some((IntToString(day) + (" " + (name + (" " + IntToString(year)))),
              "เวลา " + (parts[1] + " น.")))
  }

  /** thai_date_time: the date caption and the time caption, or the input and
      "" when the input is malformed. */
  function ThaiDateTime(asdate: string): (r: (string, string))
    ensures r.1 == "" <==> ReadThaiDate(asdate, false).None?
    ensures r.1 == "" ==> r.0 == asdate
    ensures |SplitWs(asdate)| != 2 ==> r == (asdate, "")
  {
    match ReadThaiDate(asdate, false)
    case Some(captions) => captions
    case None => (asdate, "")
  }

  /** thai_date_time with the month checked to lie in 1..12. */
  function ThaiDateTimeChecked(asdate: string): (r: (string, string))
    ensures r.1 == "" <==> ReadThaiDate(asdate, true).None?
    ensures r.1 == "" ==> r.0 == asdate
  {
    match ReadThaiDate(asdate, true)
    case Some(captions) => captions
    case None => (asdate, "")
  }

  lemma NoSpaceJoin(a: string, b: string)
    requires NoSpace(a) && NoSpace(b)
    ensures NoSpace(a + b)
  {
    assert forall i :: 0 <= i < |a + b| ==> (a + b)[i] == if i < |a| then a[i] else b[i - |a|];
  }

  lemma ReadThaiDateSteps(asdate: string, strict: bool, date: string, t: string,
                          ds: string, ms: string, ys: string, day: int, month: int, year: int)
    requires SplitWs(asdate) == [date, t] && Split(date, '/') == [ds, ms, ys]
    requires ParseInt(ds) == Some(day) && ParseInt(ms) == Some(month) && ParseInt(ys) == Some(year)
    requires MonthName(month, strict).Some?
    ensures ReadThaiDate(asdate, strict)
            == Some((IntToString(day) + (" " + (MonthName(month, strict).value + (" " + IntToString(year)))),
                     "เวลา " + (t + " น.")))
  {
  }

  lemma DateNoSpace(ds: string, ms: string, ys: string)
    requires NoSpace(ds) && NoSpace(ms) && NoSpace(ys)
    ensures NoSpace(ds + ("/" + (ms + ("/" + ys))))
  {
    NoSpaceJoin("/", ys);
    NoSpaceJoin(ms, "/" + ys);
    NoSpaceJoin("/", ms + ("/" + ys));
    NoSpaceJoin(ds, "/" + (ms + ("/" + ys)));
  }

  lemma SplitDate(ds: string, ms: string, ys: string, t: string)
    requires NoSpace(ds) && NoSpace(ms) && NoSpace(ys) && NoSpace(t) && t != []
    ensures SplitWs((ds + ("/" + (ms + ("/" + ys)))) + (" " + t)) == [ds + ("/" + (ms + ("/" + ys))), t]
  {
    DateNoSpace(ds, ms, ys);
    SplitWsTwoWords(ds + ("/" + (ms + ("/" + ys))), t);
  }

  /** The captions of a well-formed "d/m/y t": the day and year as integers
      (so leading zeros are dropped), the month by name, the time verbatim. */
  lemma ReadThaiDateOf(ds: string, ms: string, ys: string, t: string, strict: bool,
                       day: int, month: int, year: int, name: string)
    requires NoSpace(ds) && NoSpace(ms) && NoSpace(ys) && NoSpace(t) && t != []
    requires '/' !in ds && '/' !in ms && '/' !in ys
    requires ParseInt(ds) == Some(day) && ParseInt(ms) == Some(month) && ParseInt(ys) == Some(year)
    requires MonthName(month, strict) == Some(name)
    ensures ReadThaiDate((ds + ("/" + (ms + ("/" + ys)))) + (" " + t), strict)
            == Some((IntToString(day) + (" " + (name + (" " + IntToString(year)))), "เวลา " + (t + " น.")))
  {
    SplitDate(ds, ms, ys, t);
    SplitThree(ds, ms, ys, '/');
    ReadThaiDateSteps((ds + ("/" + (ms + ("/" + ys)))) + (" " + t), strict, ds + ("/" + (ms + ("/" + ys))), t,
                      ds, ms, ys, day, month, year);
  }

  lemma ThaiDateTimeOf(ds: string, ms: string, ys: string, t: string, day: int, month: int, year: int)
    requires NoSpace(ds) && NoSpace(ms) && NoSpace(ys) && NoSpace(t) && t != []
    requires '/' !in ds && '/' !in ms && '/' !in ys
    requires ParseInt(ds) == Some(day) && ParseInt(ms) == Some(month) && ParseInt(ys) == Some(year)
    requires 1 <= month <= 12
    ensures ThaiDateTime((ds + ("/" + (ms + ("/" + ys)))) + (" " + t))
            == (IntToString(day) + (" " + (ThMonths[month - 1] + (" " + IntToString(year)))), "เวลา " + (t + " น."))
  {
    ReadThaiDateOf(ds, ms, ys, t, false, day, month, year, ThMonths[month - 1]);
  }

  /** As written, month 0 is not rejected: TH_MONTHS[-1] names December. */
  lemma MonthZeroIsDecember(ds: string, ms: string, ys: string, t: string, day: int, year: int)
    requires NoSpace(ds) && NoSpace(ms) && NoSpace(ys) && NoSpace(t) && t != []
    requires '/' !in ds && '/' !in ms && '/' !in ys
    requires ParseInt(ds) == Some(day) && ParseInt(ms) == Some(0) && ParseInt(ys) == Some(year)
    ensures ThaiDateTime((ds + ("/" + (ms + ("/" + ys)))) + (" " + t))
            == (IntToString(day) + (" " + (ThMonths[11] + (" " + IntToString(year)))), "เวลา " + (t + " น."))
  {
    ReadThaiDateOf(ds, ms, ys, t, false, day, 0, year, ThMonths[11]);
  }

  /** With the check, a month outside 1..12 falls back to (asdate, ""), and a
      month inside it is captioned as before. */
  lemma CheckedMonth(ds: string, ms: string, ys: string, t: string, day: int, month: int, year: int)
    requires NoSpace(ds) && NoSpace(ms) && NoSpace(ys) && NoSpace(t) && t != []
    requires '/' !in ds && '/' !in ms && '/' !in ys
    requires ParseInt(ds) == Some(day) && ParseInt(ms) == Some(month) && ParseInt(ys) == Some(year)
    ensures var s := (ds + ("/" + (ms + ("/" + ys)))) + (" " + t);
            if 1 <= month <= 12 then ThaiDateTimeChecked(s) == ThaiDateTime(s)
            else ThaiDateTimeChecked(s) == (s, "")
  {
    var s := (ds + ("/" + (ms + ("/" + ys)))) + (" " + t);
    if 1 <= month <= 12 {
      ReadThaiDateOf(ds, ms, ys, t, true, day, month, year, ThMonths[month - 1]);
      ThaiDateTimeOf(ds, ms, ys, t, day, month, year);
    } else {
      SplitDate(ds, ms, ys, t);
      SplitThree(ds, ms, ys, '/');
    }
  }

  /** build_video: the last entry ({} when there is none) and the one before it. */
  function LatestAndPrev(entries: seq<Record>): (r: (Record, Option<Record>))
    ensures entries == [] ==> r.0 == map[]
    ensures entries != [] ==> r.0 == entries[|entries| - 1]
    ensures r.1.Some? <==> |entries| >= 2
    ensures r.1.Some? ==> r.1.value == entries[|entries| - 2]
  {
    (if entries != [] then PyIndex(entries, -1).value else map[],
     if |entries| >= 2 then PyIndex(entries, -2) else None)
  }
}
