/**
 * The report `Main` writes once every detail is known: a fixed header line, then one
 * line per video whose six fields are each wrapped in double quotes, without escaping,
 * and joined by commas.
 */
module Csv {
  import opened Wrappers
  import opened Numbers
  import opened Api

  const HEADER := "ID,Title,Likes,Views,Comments,PublishedDate"
  const WATCH_URL_PREFIX := "https://www.youtube.com/watch?v="

  /** `$"\"{s}\""`: the field between two double quotes, as it is. */
  function Quote(s: string): (q: string)
    ensures |q| == |s| + 2 && q[0] == '"' && q[|q| - 1] == '"'
    ensures q[1..|q| - 1] == s
  {
    "\"" + s + "\""
  }

  /** `string.Join(',', fields.Select(Quote))`. */
  function JoinQuoted(fields: seq<string>): (line: string)
    decreases |fields|
  {
    if fields == [] then ""
    else if |fields| == 1 then Quote(fields[0])
    else Quote(fields[0]) + "," + JoinQuoted(fields[1..])
  }

  /** The six texts of one row, in header order. */
  function Fields(d: VideoDetail, showDate: DateTime -> string): (fields: seq<string>)
    ensures |fields| == 6
    ensures fields[0] == WATCH_URL_PREFIX + d.id
  {
    [ WATCH_URL_PREFIX + d.id,
      d.title,
      ToInvariantString(d.likes),
      ToInvariantString(d.views),
      ToInvariantString(d.comments),
      showDate(d.publishedDate) ]
  }

  function Row(d: VideoDetail, showDate: DateTime -> string): string {
    JoinQuoted(Fields(d, showDate))
  }

  /** One row per detail, in the same order. */
  function Rows(details: seq<VideoDetail>, showDate: DateTime -> string): (rows: seq<string>)
    ensures |rows| == |details|
    ensures forall i :: 0 <= i < |details| ==> rows[i] == Row(details[i], showDate)
    decreases |details|
  {
    if details == [] then [] else Rows(details[..|details| - 1], showDate) + [Row(details[|details| - 1], showDate)]
  }

  /** The whole report: the header, then exactly one row per detail, in order. */
  function Report(details: seq<VideoDetail>, showDate: DateTime -> string): (lines: seq<string>)
    ensures |lines| == |details| + 1 && lines[0] == HEADER
    ensures forall i :: 0 <= i < |details| ==> lines[i + 1] == Row(details[i], showDate)
  {
    [HEADER] + Rows(details, showDate)
  }

  /** The rows of one more detail are the rows so far and that detail's row. */
  lemma RowsExtend(details: seq<VideoDetail>, showDate: DateTime -> string, i: nat)
    requires i < |details|
    ensures Rows(details[..i + 1], showDate) == Rows(details[..i], showDate) + [Row(details[i], showDate)]
  {
    assert details[..i + 1][..i] == details[..i];
  }

  /** The report loop of `Main`: the header, then one row per detail, in order. */
  method WriteReport(videoDetails: seq<VideoDetail>, showDate: DateTime -> string) returns (lines: seq<string>)
    ensures lines == Report(videoDetails, showDate)
  {
    lines := [HEADER];
    for i := 0 to |videoDetails|
      invariant lines == [HEADER] + Rows(videoDetails[..i], showDate)
    {
      RowsExtend(videoDetails, showDate, i);
      lines := lines + [Row(videoDetails[i], showDate)];
    }
    assert videoDetails[..|videoDetails|] == videoDetails;
  }

  /** The length of the longest prefix of `s` without a double quote. */
  function QuoteFreePrefix(s: string): (n: nat)
    ensures n <= |s|
    ensures forall i :: 0 <= i < n ==> s[i] != '"'
    ensures n < |s| ==> s[n] == '"'
    decreases |s|
  {
    if s == [] || s[0] == '"' then 0 else 1 + QuoteFreePrefix(s[1..])
  }

  /**
   * How a reader of the report splits a line: fields that open and close with a
   * double quote, separated by single commas; anything else is no valid line.
   */
  function ParseQuoted(line: string): (r: Option<seq<string>>)
    ensures r.Some? ==> |r.value| > 0
    ensures r.Some? ==> forall i :: 0 <= i < |r.value| ==> '"' !in r.value[i]
    decreases |line|
  {
    if line == [] || line[0] != '"' then None
    else
      var n := QuoteFreePrefix(line[1..]);
      if n == |line| - 1 then None
      else
        var field := line[1..n + 1];
        var rest := line[n + 2..];
        assert forall i :: 0 <= i < |field| ==> field[i] == line[1..][i];
        if rest == [] then Some([field])
        else if rest[0] != ',' then None
        else match ParseQuoted(rest[1..])
          case None => None
          case Some(more) => Some([field] + more)
  }

  /** A quote-free text followed by a double quote: the prefix ends right at that quote. */
  lemma QuoteFreePrefixStopsAtQuote(f: string, tail: string)
    requires '"' !in f
    ensures QuoteFreePrefix(f + "\"" + tail) == |f|
  {
    var s := f + "\"" + tail;
    var n := QuoteFreePrefix(s);
    assert s[|f|] == '"';
    if n < |f| {
      assert false;
    }
  }

  /** Reading a line that starts with one quoted, quote-free field. */
  lemma ParseQuotedFirstField(f: string, tail: string)
    requires '"' !in f
    ensures tail == [] ==> ParseQuoted(Quote(f) + tail) == Some([f])
    ensures tail != [] && tail[0] == ',' && ParseQuoted(tail[1..]).Some? ==>
              ParseQuoted(Quote(f) + tail) == Some([f] + ParseQuoted(tail[1..]).value)
  {
    var line := Quote(f) + tail;
    assert line[1..] == f + "\"" + tail;
    QuoteFreePrefixStopsAtQuote(f, tail);
    assert line[1..|f| + 1] == f;
    assert line[|f| + 2..] == tail;
  }

  /** A quote-free field put in front of fields that read back reads back with them. */
  lemma JoinQuotedCons(f: string, rest: seq<string>)
    requires '"' !in f && rest != []
    requires ParseQuoted(JoinQuoted(rest)) == Some(rest)
    ensures ParseQuoted(JoinQuoted([f] + rest)) == Some([f] + rest)
  {
    var fields := [f] + rest;
    assert fields[0] == f && fields[1..] == rest;
    var tail := "," + JoinQuoted(rest);
    assert JoinQuoted(fields) == Quote(f) + tail;
    assert tail[1..] == JoinQuoted(rest);
    ParseQuotedFirstField(f, tail);
  }

  /** Fields without a double quote are read back exactly as they were written. */
  lemma {:induction false} JoinQuotedRoundTrip(fields: seq<string>)
    requires fields != []
    requires forall i :: 0 <= i < |fields| ==> '"' !in fields[i]
    ensures ParseQuoted(JoinQuoted(fields)) == Some(fields)
    decreases |fields|
  {
    var f := fields[0];
    if |fields| == 1 {
      assert fields == [f] && JoinQuoted(fields) == Quote(f);
      assert ParseQuoted(Quote(f)) == Some([f]) by {
        ParseQuotedFirstField(f, "");
        assert Quote(f) + "" == Quote(f);
      }
    } else {
      JoinQuotedRoundTrip(fields[1..]);
      JoinQuotedCons(f, fields[1..]);
      assert [f] + fields[1..] == fields;
    }
  }

  /** A rendered count holds digits and at most a minus sign, never a double quote. */
  lemma NoQuoteInCount(n: Int32)
    ensures '"' !in ToInvariantString(n)
  {
    var s := ToInvariantString(n);
    assert forall k :: 0 <= k < |s| ==> s[k] != '"';
  }

  /**
   * A row reads back as its six fields exactly when none of them holds a double
   * quote: there is no escaping, so a quote inside a title breaks the row.
   */
  lemma RowReadsBack(d: VideoDetail, showDate: DateTime -> string)
    ensures ParseQuoted(Row(d, showDate)) == Some(Fields(d, showDate)) <==>
              ('"' !in d.id && '"' !in d.title && '"' !in showDate(d.publishedDate))
  {
    var fields := Fields(d, showDate);
    QuoteFreeFields(d, showDate);
    if '"' !in d.id && '"' !in d.title && '"' !in showDate(d.publishedDate) {
      JoinQuotedRoundTrip(fields);
    }
  }

  /** The watch URL of a video holds a double quote exactly when its id does. */
  lemma WatchUrlQuoteFree(id: string)
    ensures '"' !in WATCH_URL_PREFIX + id <==> '"' !in id
  {
    var url := WATCH_URL_PREFIX + id;
    assert forall k :: 0 <= k < |WATCH_URL_PREFIX| ==> url[k] == WATCH_URL_PREFIX[k] != '"';
    assert forall k :: 0 <= k < |id| ==> id[k] == url[|WATCH_URL_PREFIX| + k];
  }

  /** The six fields of a row are free of double quotes exactly when the id, the title and the date text are. */
  lemma QuoteFreeFields(d: VideoDetail, showDate: DateTime -> string)
    ensures (forall i :: 0 <= i < 6 ==> '"' !in Fields(d, showDate)[i]) <==>
              ('"' !in d.id && '"' !in d.title && '"' !in showDate(d.publishedDate))
  {
    var fields := Fields(d, showDate);
    NoQuoteInCount(d.likes);
    NoQuoteInCount(d.views);
    NoQuoteInCount(d.comments);
    WatchUrlQuoteFree(d.id);
    if forall i :: 0 <= i < 6 ==> '"' !in fields[i] {
      assert '"' !in fields[0] && '"' !in fields[1] && '"' !in fields[5];
    }
  }

  /** Every row starts with the quoted watch URL of its video, then a comma. */
  lemma RowStartsWithWatchUrl(d: VideoDetail, showDate: DateTime -> string)
    ensures Quote(WATCH_URL_PREFIX + d.id) + "," <= Row(d, showDate)
  {
    var fields := Fields(d, showDate);
    assert Row(d, showDate) == Quote(fields[0]) + "," + JoinQuoted(fields[1..]);
  }
}
