/** The Blogger auto-poster: it reads the latest record and builds the post's
    title, the sign prefix and status icon of the change, and the change's
    colour.  The HTML body beyond those values and the Blogger API call are
    not modelled. */
module BloggerPost {
  import opened PyStr
  import opened Records

  /** "+" unless the diff already starts with "-" or is exactly "0". */
  function Prefix(diff: string): (prefix: string)
    ensures prefix == "+" <==> !StartsWith(diff, "-") && diff != "0"
    ensures prefix == "" <==> StartsWith(diff, "-") || diff == "0"
  {
    if !StartsWith(diff, "-") && diff != "0" then "+" else ""
  }

  /** ▲ for a "+" prefix, ▼ for a leading "-", ● otherwise. */
  function StatusIcon(diff: string): string {
    if Prefix(diff) == "+" then "▲" else if StartsWith(diff, "-") then "▼" else "●"
  }

  /** The icon is ● only for a diff of exactly "0". */
  lemma StatusIconCases(diff: string)
    ensures StatusIcon(diff) == "▲" <==> Prefix(diff) == "+"
    ensures StatusIcon(diff) == "▼" <==> StartsWith(diff, "-")
    ensures StatusIcon(diff) == "●" <==> diff == "0"
  {
    assert "▲" != "▼" && "▲" != "●" && "▼" != "●";
    if diff == "0" {
      assert !StartsWith(diff, "-") by { assert diff[..1] == "0"; }
    }
  }

  /** The change as the title and the table show it: prefix then diff. */
  function SignedDiff(diff: string): string {
    Prefix(diff) + diff
  }

  /** A diff that already starts with "+" is shown with a doubled "+". */
  lemma PlusDoubled(rest: string)
    ensures SignedDiff("+" + rest) == "++" + rest
  {
    var diff := "+" + rest;
    assert diff[..1] == "+";
    assert diff != "0" by { assert diff[0] == '+'; }
  }

  /** A negative diff is shown as it is. */
  lemma MinusKept(rest: string)
    ensures SignedDiff("-" + rest) == "-" + rest
  {
    assert ("-" + rest)[..1] == "-";
  }

  /** The post title. */
  function Title(nqy: string, asdate: string, diff: string): string {
    "ราคาทองคำวันนี้ อัปเดตครั้งที่ " + (nqy + (" (" + (asdate + (") [ " + (SignedDiff(diff) + " ]")))))
  }

  /** The colour of the change cell: green exactly for a "+" prefix. */
  function ChangeColour(diff: string): (colour: string)
    ensures colour == "green" <==> Prefix(diff) == "+"
    ensures colour == "red" <==> StartsWith(diff, "-") || diff == "0"
  {
    assert "green" != "red";
    if Prefix(diff) == "+" then "green" else "red"
  }

  /** The fields the post reads with latest[...], outside any `try`. */
  const PostFields: set<Key> := {AsDate, BlBuy, BlSell, Diff, Nqy, GoldSpot, BahtUsd}

  /** How run_auto_post ends before the Blogger call: it returns after a read
      failure, raises KeyError on a missing field, or has a post ready. */
  datatype AutoPost =
    | ReadFailed
    | MissingField
    | Ready(title: string, icon: string, signedDiff: string, colour: string, latest: Record)

  /** run_auto_post up to the Blogger call; the latest record is the last one. */
  function RunAutoPost(doc: JsonDoc): (r: AutoPost)
    ensures r == ReadFailed <==> !(doc.List? && doc.items != [])
    ensures r.Ready? ==> r.latest == doc.items[|doc.items| - 1] && PostFields <= r.latest.Keys
    ensures r.Ready? ==> r.title == Title(r.latest[Nqy], r.latest[AsDate], r.latest[Diff])
    ensures doc.List? && doc.items != [] ==> (r.Ready? <==> PostFields <= doc.items[|doc.items| - 1].Keys)
    ensures r.Ready? ==> r.icon == StatusIcon(r.latest[Diff]) && r.signedDiff == SignedDiff(r.latest[Diff])
    ensures r.Ready? ==> r.colour == ChangeColour(r.latest[Diff])
    ensures r.Ready? ==> (r.colour == "green" <==> Prefix(r.latest[Diff]) == "+")
  {
    // A missing or malformed file, an empty list (IndexError) and an object
    // (KeyError on -1) are all caught by the read's `except`.
    if !(doc.List? && doc.items != []) then ReadFailed
    else
      var latest := doc.items[|doc.items| - 1];
      if !(PostFields <= latest.Keys) then MissingField
      else
        var diff := latest[Diff];
        Ready(Title(latest[Nqy], latest[AsDate], diff), StatusIcon(diff), SignedDiff(diff),
              ChangeColour(diff), latest)
  }
}
