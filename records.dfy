/** The price records the scripts pass around and the JSON file that holds them.

    A record is a JSON object of strings (a Python dict).  Its keys are the
    field names the scripts read and write; any other key is kept by name.  The cache file is
    either absent, not valid JSON, a list of records, or some other JSON
    object; which of these it is decides every loader's behaviour. */
module Records {
  import opened PyStr

  /** The keys of a record: "asdate", "asdate_iso", "nqy", "blbuy", "blsell",
      "ombuy", "omsell", "goldspot", "bahtusd", "diff", or any other name. */
  datatype Key =
    | AsDate | AsDateIso | Nqy | BlBuy | BlSell | OmBuy | OmSell | GoldSpot | BahtUsd | Diff
    | Other(name: string)

  type Record = map<Key, string>

  /** record.get(key, default) */
  function Get(r: Record, key: Key, default: string): (v: string)
    ensures key in r ==> v == r[key]
    ensures key !in r ==> v == default
  {
    if key in r then r[key] else default
  }

  /** A dict is truthy iff it is non-empty. */
  predicate Truthy(r: Record) {
    r != map[]
  }

  /** A field's value holds no line break. */
  predicate SingleLineValues(entry: Record) {
    forall k :: k in entry ==> '\n' !in entry[k]
  }

  datatype JsonDoc =
    | Missing                     // the file does not exist
    | Malformed                   // json.load raises JSONDecodeError
    | List(items: seq<Record>)    // a JSON array of objects
    | Object(size: nat)           // a JSON object with `size` keys

  /** The loaders of the workflow driver and of the Telegram notifier: the last
      element of a non-empty list, None for anything else. */
  function LastOfList(doc: JsonDoc): (r: Option<Record>)
    ensures r.Some? <==> doc.List? && |doc.items| > 0
    ensures r.Some? ==> r.value == doc.items[|doc.items| - 1]
  {
    if doc.List? && |doc.items| > 0 then PyIndex(doc.items, -1) else None
  }

  // ---------------------------------------------------------------- scraped rows

  /** A table row with at least the nine cells a record is read from. */
  type FullRow = cells: seq<string> | |cells| >= 9 witness ["", "", "", "", "", "", "", "", ""]

  /** One record per row of at least nine cells, in row order; shorter rows give none. */
  function RecordsOfRows(rows: seq<seq<string>>, f: FullRow -> Record): (data: seq<Record>)
    ensures |data| <= |rows|
  {
    if rows == [] then []
    else
      var last := rows[|rows| - 1];
      RecordsOfRows(rows[..|rows| - 1], f) + (if |last| >= 9 then [f(last)] else [])
  }

  /** The records of two consecutive stretches of rows follow one another. */
  lemma {:induction false} RecordsOfRowsAppend(a: seq<seq<string>>, b: seq<seq<string>>, f: FullRow -> Record)
    ensures RecordsOfRows(a + b, f) == RecordsOfRows(a, f) + RecordsOfRows(b, f)
    decreases |b|
  {
    if b == [] {
      assert a + b == a;
    } else {
      var b0 := b[..|b| - 1];
      assert (a + b)[..|a + b| - 1] == a + b0;
      RecordsOfRowsAppend(a, b0, f);
    }
  }

  /** A row too short to read adds nothing; a full row adds exactly its own record. */
  lemma RecordsOfOneRow(row: seq<string>, f: FullRow -> Record)
    ensures RecordsOfRows([row], f) == if |row| >= 9 then [f(row)] else []
  {
    assert [row][..0] == [];
  }

  /** When every row is full, record i is the record of row i. */
  lemma {:induction false} RecordsOfFullRows(rows: seq<seq<string>>, f: FullRow -> Record)
    requires forall i :: 0 <= i < |rows| ==> |rows[i]| >= 9
    ensures |RecordsOfRows(rows, f)| == |rows|
    ensures forall i :: 0 <= i < |rows| ==> RecordsOfRows(rows, f)[i] == f(rows[i])
  {
    if rows != [] {
      RecordsOfFullRows(rows[..|rows| - 1], f);
    }
  }

  /** The loop over the rows: one record appended per row of at least nine cells. */
  method CollectRows(rows: seq<seq<string>>, f: FullRow -> Record) returns (collected: seq<Record>)
    ensures collected == RecordsOfRows(rows, f)
  {
    collected := [];
    for i := 0 to |rows|
      invariant collected == RecordsOfRows(rows[..i], f)
    {
      assert rows[..i + 1][..i] == rows[..i];
      if |rows[i]| >= 9 {
        collected := collected + [f(rows[i])];
      }
    }
    assert rows[..|rows|] == rows;
  }
}
