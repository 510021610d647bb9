/** The freshness check: how old the first record of the cache file is, and
    whether that age is within the allowed number of minutes.  The clock is a
    parameter; the human-readable message is not modelled. */
module Freshness {
  import opened PyStr
  import opened Records
  import opened Calendar

  /** The second element of the returned tuple: nothing, the raw time string
      that failed to parse, or the parsed datetime. */
  datatype LatestTime = NoTime | Raw(text: string) | Parsed(dt: DateTime)

  /** (is_fresh, latest_time, age_minutes) */
  datatype Report = Report(isFresh: bool, latest: LatestTime, ageMinutes: Option<real>)

  /** latest.get('asdate_iso') or latest.get('asdate'): a present but empty
      ISO field falls through to the plain date. */
  function TimeText(latest: Record): (text: Option<string>)
    ensures AsDateIso in latest && latest[AsDateIso] != "" ==> text == Some(latest[AsDateIso])
    ensures !(AsDateIso in latest && latest[AsDateIso] != "") ==>
              (text.Some? <==> AsDate in latest) && (text.Some? ==> text.value == latest[AsDate])
  {
    if AsDateIso in latest && latest[AsDateIso] != "" then Some(latest[AsDateIso])
    else if AsDate in latest then Some(latest[AsDate])
    else None
  }

  /** The format is chosen by whether the ISO key is present, not by which
      value was taken; a None time makes strptime raise. */
  function ParseLatest(latest: Record): (r: Option<DateTime>)
    ensures r.Some? ==> Valid(r.value)
  {
    var text :- TimeText(latest);
    if AsDateIso in latest then ParseIso(text) else ParseDmyHm(text)
  }

  /** The age in whole seconds; datetime.now() is taken to the second. */
  function AgeSeconds(now: DateTime, t: DateTime): int
    requires Valid(now) && Valid(t)
  {
    EpochSeconds(now) - EpochSeconds(t)
  }

  /** Comparing the age in minutes is comparing the seconds with 60 times the bound. */
  lemma MinutesWithin(seconds: int, minutes: int)
    ensures seconds as real / 60.0 <= minutes as real <==> seconds <= 60 * minutes
  {
    assert seconds as real / 60.0 * 60.0 == seconds as real;
  }

  /** The report for a record dated `t`: fresh iff its age is within the bound. */
  function Aged(now: DateTime, t: DateTime, maxAgeMinutes: int): (r: Report)
    requires Valid(now) && Valid(t)
    ensures r.latest == Parsed(t) && r.ageMinutes == Some(AgeSeconds(now, t) as real / 60.0)
    ensures r.isFresh <==> AgeSeconds(now, t) <= 60 * maxAgeMinutes
  {
    var seconds := AgeSeconds(now, t);
    MinutesWithin(seconds, maxAgeMinutes);
    Report(seconds as real / 60.0 <= maxAgeMinutes as real, Parsed(t), Some(seconds as real / 60.0))
  }

  /** check_data_freshness(data_file, max_age_minutes), with `now` the clock. */
  function CheckDataFreshness(doc: JsonDoc, maxAgeMinutes: int, now: DateTime): (r: Report)
    requires Valid(now)
    ensures !(doc.List? && doc.items != []) ==> r == Report(false, NoTime, None)
    ensures r.isFresh ==> r.latest.Parsed?
    ensures r.latest.Parsed? <==> r.ageMinutes.Some?
    ensures doc.List? && doc.items != [] && ParseLatest(doc.items[0]).None? ==>
              r.ageMinutes.None? && !r.isFresh
              && (r.latest == NoTime <==> TimeText(doc.items[0]).None?)
              && (r.latest.Raw? ==> Some(r.latest.text) == TimeText(doc.items[0]))
    ensures r.latest.Parsed? ==>
              && doc.List? && doc.items != [] && ParseLatest(doc.items[0]) == Some(r.latest.dt)
              && r == Aged(now, r.latest.dt, maxAgeMinutes)
    ensures doc.List? && doc.items != [] && ParseLatest(doc.items[0]).Some? ==>
              r == Aged(now, ParseLatest(doc.items[0]).value, maxAgeMinutes)
  {
    match doc
    case Missing => Report(false, NoTime, None)        // FileNotFoundError
    case Malformed => Report(false, NoTime, None)      // JSONDecodeError
    case Object(size) => Report(false, NoTime, None)   // `not data`, or data[0] raises KeyError
    case List(items) =>
      if items == [] then Report(false, NoTime, None)
      else
        var latest := items[0];
        var text := TimeText(latest);
        match ParseLatest(latest)
        case None => Report(false, if text.Some? then Raw(text.value) else NoTime, None)
        case Some(t) => Aged(now, t, maxAgeMinutes)
  }

  /** The boundary is inclusive: a record exactly max_age_minutes old is fresh,
      one a second older is not. */
  lemma FreshnessBoundary(t: DateTime, now: DateTime, maxAgeMinutes: int, rest: Record)
    requires Valid(t) && Valid(now)
    requires AgeSeconds(now, t) == 60 * maxAgeMinutes || AgeSeconds(now, t) == 60 * maxAgeMinutes + 1
    ensures var latest := rest[AsDateIso := FormatIso(t)];
            CheckDataFreshness(List([latest]), maxAgeMinutes, now).isFresh <==> AgeSeconds(now, t) == 60 * maxAgeMinutes
  {
    IsoRoundTrip(t);
    var latest := rest[AsDateIso := FormatIso(t)];
    assert FormatIso(t) != "" by { FormatIsoLength(t); }
    assert ParseLatest(latest) == Some(t);
  }

  lemma FormatIsoLength(t: DateTime)
    requires Valid(t)
    ensures |FormatIso(t)| > 0
  {
    IsoRoundTrip(t);
  }

  /** A record the primary scraper wrote (its asdate_iso set by strftime) is
      dated by that field, and the first record is the one checked. */
  lemma IsoRecordDated(t: DateTime, latest: Record, more: seq<Record>, maxAgeMinutes: int, now: DateTime)
    requires Valid(t) && Valid(now)
    requires AsDateIso in latest && latest[AsDateIso] == FormatIso(t)
    ensures CheckDataFreshness(List([latest] + more), maxAgeMinutes, now).latest == Parsed(t)
  {
    IsoRoundTrip(t);
    FormatIsoLength(t);
    assert ([latest] + more)[0] == latest;
  }

  /** A record without asdate_iso is dated by its '%d/%m/%Y %H:%M' asdate. */
  lemma DmyRecordDated(t: DateTime, latest: Record, more: seq<Record>, maxAgeMinutes: int, now: DateTime)
    requires Valid(t) && Valid(now) && t.second == 0
    requires AsDateIso !in latest && AsDate in latest && latest[AsDate] == FormatDmyHm(t)
    ensures CheckDataFreshness(List([latest] + more), maxAgeMinutes, now).latest == Parsed(t)
  {
    DmyHmRoundTrip(t);
    assert ([latest] + more)[0] == latest;
  }

  /** Freshness only wears off: a file fresh at some time was fresh at every
      earlier time. */
  lemma FreshEarlier(doc: JsonDoc, maxAgeMinutes: int, earlier: DateTime, later: DateTime)
    requires Valid(earlier) && Valid(later)
    requires Before(earlier, later)
    requires CheckDataFreshness(doc, maxAgeMinutes, later).isFresh
    ensures CheckDataFreshness(doc, maxAgeMinutes, earlier).isFresh
  {
    EpochSecondsOrder(earlier, later);
  }

  /** More allowed minutes never turn a fresh record stale. */
  lemma FreshWider(doc: JsonDoc, maxAgeMinutes: int, wider: int, now: DateTime)
    requires Valid(now) && maxAgeMinutes <= wider
    requires CheckDataFreshness(doc, maxAgeMinutes, now).isFresh
    ensures CheckDataFreshness(doc, wider, now).isFresh
  {
  }
}
