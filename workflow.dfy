/** The automation driver: a ledger of processed updates and the step sequence
    that scrapes, checks the ledger, renders, publishes, notifies and records.

    The ledger is the `processed_updates` table; its rows are (nqy, asdate)
    pairs under a UNIQUE constraint, kept in insertion order.  Each child
    script is seen only through how it ended. */
module MainWorkflow {
  import opened PyStr
  import opened Records

  type Pair = (string, string)

  /** How often a pair occurs among the rows: SELECT COUNT(*) ... WHERE nqy = ? AND asdate = ? */
  function CountOf(rows: seq<Pair>, p: Pair): nat {
    if rows == [] then 0 else (if rows[0] == p then 1 else 0) + CountOf(rows[1..], p)
  }

  /** The UNIQUE(nqy, asdate) constraint. */
  predicate Unique(rows: seq<Pair>) {
    forall i, j :: 0 <= i < j < |rows| ==> rows[i] != rows[j]
  }

  lemma {:induction false} CountPositiveIffPresent(rows: seq<Pair>, p: Pair)
    ensures CountOf(rows, p) > 0 <==> p in rows
  {
    if rows != [] {
      CountPositiveIffPresent(rows[1..], p);
      assert rows == [rows[0]] + rows[1..];
    }
  }

  lemma {:induction false} CountOfUnique(rows: seq<Pair>, p: Pair)
    requires Unique(rows)
    ensures CountOf(rows, p) <= 1
  {
    if rows != [] {
      CountOfUnique(rows[1..], p);
      if rows[0] == p {
        CountPositiveIffPresent(rows[1..], p);
      }
    }
  }

  lemma {:induction false} CountOfAppend(rows: seq<Pair>, x: Pair, p: Pair)
    ensures CountOf(rows + [x], p) == CountOf(rows, p) + (if x == p then 1 else 0)
  {
    if rows == [] {
      assert rows + [x] == [x];
    } else {
      assert (rows + [x])[1..] == rows[1..] + [x];
      CountOfAppend(rows[1..], x, p);
    }
  }

  class Ledger {
    var tableExists: bool
    var rows: seq<Pair>

    /** Rows exist only in an existing table, and no pair is stored twice. */
    predicate Valid()
      reads this
    {
      (!tableExists ==> rows == []) && Unique(rows)
    }

    /** The database file as the driver finds it. */
    constructor (exists_: bool, stored: seq<Pair>)
      requires exists_ || stored == []
      requires Unique(stored)
      ensures Valid()
      ensures tableExists == exists_ && rows == stored
    {
      tableExists := exists_;
      rows := stored;
    }

    /** init_database: CREATE TABLE IF NOT EXISTS; on an existing table nothing changes. */
    method InitDatabase()
      requires Valid()
      modifies this
      ensures Valid()
      ensures tableExists && rows == old(rows)
    {
      tableExists := true;
    }

    /** is_already_processed: the count of rows holding exactly this pair is positive. */
    function IsAlreadyProcessed(nqy: string, asdate: string): (found: bool)
      requires Valid() && tableExists
      reads this
      ensures found <==> (nqy, asdate) in rows
    {
      CountPositiveIffPresent(rows, (nqy, asdate));
      CountOf(rows, (nqy, asdate)) > 0
    }

    /** mark_as_processed: INSERT; a duplicate pair raises IntegrityError, which is swallowed. */
    method MarkAsProcessed(nqy: string, asdate: string)
      requires Valid() && tableExists
      modifies this
      ensures Valid() && tableExists
      ensures rows == if (nqy, asdate) in old(rows) then old(rows) else old(rows) + [(nqy, asdate)]
      ensures CountOf(rows, (nqy, asdate)) == 1
      ensures forall q :: q != (nqy, asdate) ==> CountOf(rows, q) == CountOf(old(rows), q)
    {
      var p := (nqy, asdate);
      if !IsAlreadyProcessed(nqy, asdate) {
        CountOfUnique(rows, p);
        forall q | q != p
          ensures CountOf(rows + [p], q) == CountOf(rows, q)
        {
          CountOfAppend(rows, p, q);
        }
        CountOfAppend(rows, p, p);
        CountPositiveIffPresent(rows, p);
        rows := rows + [p];
      } else {
        CountPositiveIffPresent(rows, p);
        CountOfUnique(rows, p);
      }
    }
  }

  /** How a child script ended. */
  datatype ChildOutcome = Exited(code: int) | TimedOut | RaisedError

  /** run_script: success iff the child exited with code 0. */
  function RunScript(outcome: ChildOutcome): (ok: bool)
    ensures ok <==> outcome == Exited(0)
  {
    match outcome
    case Exited(code) => code == 0
    case TimedOut => false
    case RaisedError => false
  }

  /** The steps the driver performs, in the order it performs them. */
  datatype Step =
    | InitDatabase
    | Scrape
    | ReadLatest
    | CheckLedger
    | RenderVideo
    | PostBlogger
    | NotifyTelegram
    | MarkProcessed

  /** get_latest_gold_data followed by `if not latest_data`: the record to
      process, present only when it is a non-empty dict. */
  function LatestToProcess(doc: JsonDoc): (r: Option<Record>)
    ensures r.Some? <==> doc.List? && |doc.items| > 0 && Truthy(doc.items[|doc.items| - 1])
    ensures r.Some? ==> r.value == doc.items[|doc.items| - 1]
  {
    var latest := LastOfList(doc);
    if latest.Some? && Truthy(latest.value) then latest else None
  }

  /** The (nqy, asdate) pair of a record, missing keys read as "". */
  function KeyOf(r: Record): Pair {
    (Get(r, Nqy, ""), Get(r, AsDate, ""))
  }

  /** main: `scraped` is the state of the cache file after the scraper ran. */
  method RunWorkflow(ledger: Ledger, scraper: ChildOutcome, scraped: JsonDoc,
                     video: ChildOutcome, blogger: ChildOutcome, telegram: ChildOutcome)
    returns (exitCode: int, trace: seq<Step>)
    requires ledger.Valid()
    modifies ledger
    ensures ledger.Valid() && ledger.tableExists
    ensures !RunScript(scraper) ==>
              exitCode == 1 && trace == [InitDatabase, Scrape] && ledger.rows == old(ledger.rows)
    ensures RunScript(scraper) && LatestToProcess(scraped).None? ==>
              exitCode == 1 && trace == [InitDatabase, Scrape, ReadLatest] && ledger.rows == old(ledger.rows)
    ensures RunScript(scraper) && LatestToProcess(scraped).Some?
            && KeyOf(LatestToProcess(scraped).value) in old(ledger.rows) ==>
              exitCode == 0 && trace == [InitDatabase, Scrape, ReadLatest, CheckLedger]
              && ledger.rows == old(ledger.rows)
    ensures RunScript(scraper) && LatestToProcess(scraped).Some?
            && KeyOf(LatestToProcess(scraped).value) !in old(ledger.rows) ==>
              exitCode == 0
              && trace == [InitDatabase, Scrape, ReadLatest, CheckLedger,
                           RenderVideo, PostBlogger, NotifyTelegram, MarkProcessed]
              && ledger.rows == old(ledger.rows) + [KeyOf(LatestToProcess(scraped).value)]
  {
    ledger.InitDatabase();
    trace := [InitDatabase];

    trace := trace + [Scrape];
    if !RunScript(scraper) {
      return 1, trace;
    }

    trace := trace + [ReadLatest];
    var latest := LatestToProcess(scraped);
    if latest.None? {
      return 1, trace;
    }

    var key := KeyOf(latest.value);
    trace := trace + [CheckLedger];
    if ledger.IsAlreadyProcessed(key.0, key.1) {
      return 0, trace;
    }

    // Each of the three publishing steps may fail; the driver carries on.
    var videoOk := RunScript(video);
    trace := trace + [RenderVideo];
    var bloggerOk := RunScript(blogger);
    trace := trace + [PostBlogger];
    var telegramOk := RunScript(telegram);
    trace := trace + [NotifyTelegram];

    ledger.MarkAsProcessed(key.0, key.1);
    trace := trace + [MarkProcessed];
    exitCode := 0;
  }

  /** Two runs over the same scraped data: the second finds the update in the
      ledger and stops before rendering, publishing or writing. */
  method RunTwice(scraped: JsonDoc, video: ChildOutcome, blogger: ChildOutcome, telegram: ChildOutcome)
    returns (first: seq<Step>, second: seq<Step>, rows: seq<Pair>)
    requires LatestToProcess(scraped).Some?
    ensures first == [InitDatabase, Scrape, ReadLatest, CheckLedger,
                      RenderVideo, PostBlogger, NotifyTelegram, MarkProcessed]
    ensures second == [InitDatabase, Scrape, ReadLatest, CheckLedger]
    ensures rows == [KeyOf(LatestToProcess(scraped).value)]
  {
    var ledger := new Ledger(false, []);
    var code1, code2;
    code1, first := RunWorkflow(ledger, Exited(0), scraped, video, blogger, telegram);
    code2, second := RunWorkflow(ledger, Exited(0), scraped, video, blogger, telegram);
    rows := ledger.rows;
  }
}
