/**
 * Row building for the output CSV file: the text sanitisation applied to
 * every field (`cleanReviewText`), the quoting of one field (`clean_n_quote`)
 * and the nine-field line written per place.  A small parser for that line
 * shape is defined beside it, so that the line can be shown to carry back
 * exactly the nine sanitised fields.
 */
module Csv {
  import opened JsValues

  predicate LineBreak(c: char)
  {
    c == '\n' || c == '\r'
  }

  /** A character that would break a quoted CSV field or a CSV line. */
  predicate Unsafe(c: char)
  {
    c == '"' || LineBreak(c)
  }

  predicate Sanitised(s: string)
  {
    forall i :: 0 <= i < |s| ==> !Unsafe(s[i])
  }

  /** `s.replace(/"/g, "'")`: every double quote becomes an apostrophe. */
  function ReplaceQuotes(s: string): (r: string)
    ensures |r| == |s|
    ensures forall i :: 0 <= i < |s| ==> if s[i] == '"' then r[i] == '\'' else r[i] == s[i]
  {
    if s == [] then [] else [if s[0] == '"' then '\'' else s[0]] + ReplaceQuotes(s[1..])
  }

  /** `s.replace(/\n|\r/g, " ")`: every line feed and carriage return becomes one space. */
  function ReplaceLineBreaks(s: string): (r: string)
    ensures |r| == |s|
    ensures forall i :: 0 <= i < |s| ==> if LineBreak(s[i]) then r[i] == ' ' else r[i] == s[i]
  {
    if s == [] then [] else [if LineBreak(s[0]) then ' ' else s[0]] + ReplaceLineBreaks(s[1..])
  }

  /** What cleaning makes of one character. */
  function CleanChar(c: char): char
  {
    if c == '"' then '\'' else if LineBreak(c) then ' ' else c
  }

  /**
   * The two chained replacements of `cleanReviewText`: one character for one
   * character, nothing unsafe left, every safe character kept in place.
   */
  function CleanText(s: string): (r: string)
    ensures |r| == |s|
    ensures Sanitised(r)
    ensures forall i :: 0 <= i < |s| ==> r[i] == CleanChar(s[i])
  {
    ReplaceLineBreaks(ReplaceQuotes(s))
  }

  /** `cleanReviewText(str)`: undefined (or null) becomes the empty string. */
  function CleanReviewText(v: JsValue): (r: string)
    ensures LooselyUndefined(v) ==> r == ""
    ensures v.Text? ==> |r| == |v.s|
    ensures Sanitised(r)
  {
    if LooselyUndefined(v) then "" else CleanText(v.s)
  }

  /** Sanitised text is left alone. */
  lemma CleanTextFixesSanitised(s: string)
    requires Sanitised(s)
    ensures CleanText(s) == s
  {
    assert forall i :: 0 <= i < |s| ==> CleanText(s)[i] == s[i];
  }

  /** Cleaning twice is cleaning once. */
  lemma CleanTextIdempotent(s: string)
    ensures CleanText(CleanText(s)) == CleanText(s)
  {
    CleanTextFixesSanitised(CleanText(s));
  }

  lemma CleanReviewTextIdempotent(v: JsValue)
    ensures CleanReviewText(Text(CleanReviewText(v))) == CleanReviewText(v)
  {
    CleanTextIdempotent(CleanReviewText(v));
    CleanTextFixesSanitised(CleanReviewText(v));
  }

  /** Cleaning works character by character, so it distributes over concatenation. */
  lemma CleanTextAppend(a: string, b: string)
    ensures CleanText(a + b) == CleanText(a) + CleanText(b)
  {
    var l, r := CleanText(a + b), CleanText(a) + CleanText(b);
    assert |l| == |r|;
    forall i | 0 <= i < |l|
      ensures l[i] == r[i]
    {
      if i < |a| {
        assert l[i] == CleanChar(a[i]) == r[i];
      } else {
        assert l[i] == CleanChar(b[i - |a|]) == r[i];
      }
    }
  }

  function Quoted(f: string): string
  {
    "\"" + f + "\""
  }

  /** `clean_n_quote(str)`. */
  function CleanAndQuote(v: JsValue): string
  {
    Quoted(CleanReviewText(v))
  }

  /** A quoted field is the sanitised text between two double quotes, the only ones in it. */
  lemma CleanAndQuoteShape(v: JsValue)
    ensures var r := CleanAndQuote(v);
      && |r| == |CleanReviewText(v)| + 2
      && r[0] == '"' && r[|r| - 1] == '"'
      && r[1..|r| - 1] == CleanReviewText(v)
      && (forall i :: 0 < i < |r| - 1 ==> !Unsafe(r[i]))
  {
    var r := CleanAndQuote(v);
    assert r[1..|r| - 1] == CleanReviewText(v);
  }

  /** The header line written before any row. */
  const HEADER: string :=
    "continent,country,capital,place_id,place_name,place_type,place_review_score,number_of_reviewers,text_of_five_reviews\n"

  /** The nine values one output line is built from, in column order. */
  datatype Row = Row(
    continent: JsValue,
    country: JsValue,
    capital: JsValue,
    placeId: JsValue,
    name: JsValue,
    placeType: JsValue,
    rating: JsValue,
    ratingsTotal: JsValue,
    reviewText: JsValue)

  /** The line appended to the output file for one place. */
  function CsvLine(row: Row): string
  {
    CleanAndQuote(row.continent) + "," + CleanAndQuote(row.country) + "," + CleanAndQuote(row.capital) + "," +
    CleanAndQuote(row.placeId) + "," + CleanAndQuote(row.name) + "," + CleanAndQuote(row.placeType) + "," +
    CleanAndQuote(row.rating) + "," + CleanAndQuote(row.ratingsTotal) + "," + CleanAndQuote(row.reviewText) + "\n"
  }

  /** The nine sanitised field texts of a row, in column order. */
  function CleanedFields(row: Row): (fs: seq<string>)
    ensures |fs| == 9
    ensures forall i :: 0 <= i < |fs| ==> Sanitised(fs[i])
  {
    [CleanReviewText(row.continent), CleanReviewText(row.country), CleanReviewText(row.capital),
     CleanReviewText(row.placeId), CleanReviewText(row.name), CleanReviewText(row.placeType),
     CleanReviewText(row.rating), CleanReviewText(row.ratingsTotal), CleanReviewText(row.reviewText)]
  }

  /** Fields, each between double quotes, separated by commas, ending the line. */
  function QuotedJoin(fs: seq<string>): string
    requires |fs| > 0
    decreases |fs|
  {
    if |fs| == 1 then Quoted(fs[0]) + "\n"
    else Quoted(fs[0]) + ("," + QuotedJoin(fs[1..]))
  }

  lemma Regroup(q0: string, q1: string, q2: string, q3: string, q4: string, q5: string, q6: string, q7: string, q8: string)
    ensures q0 + "," + q1 + "," + q2 + "," + q3 + "," + q4 + "," + q5 + "," + q6 + "," + q7 + "," + q8 + "\n"
         == (q0 + ("," + (q1 + ("," + (q2 + ("," + (q3 + ("," + (q4 + ("," + (q5 + ("," + (q6 + ("," + (q7 + ("," + (q8 + "\n")))))))))))))))))
  {
  }

  lemma CsvLineIsQuotedJoin(row: Row)
    ensures CsvLine(row) == QuotedJoin(CleanedFields(row))
  {
    var fs := CleanedFields(row);
    var q0, q1, q2 := Quoted(fs[0]), Quoted(fs[1]), Quoted(fs[2]);
    var q3, q4, q5 := Quoted(fs[3]), Quoted(fs[4]), Quoted(fs[5]);
    var q6, q7, q8 := Quoted(fs[6]), Quoted(fs[7]), Quoted(fs[8]);
    assert CsvLine(row) == q0 + "," + q1 + "," + q2 + "," + q3 + "," + q4 + "," + q5 + "," + q6 + "," + q7 + "," + q8 + "\n";
    Regroup(q0, q1, q2, q3, q4, q5, q6, q7, q8);
    var t := q8 + "\n";
    assert QuotedJoin(fs[8..]) == t;
    assert fs[7..][1..] == fs[8..];
    t := q7 + ("," + t);
    assert QuotedJoin(fs[7..]) == t;
    assert fs[6..][1..] == fs[7..];
    t := q6 + ("," + t);
    assert QuotedJoin(fs[6..]) == t;
    assert fs[5..][1..] == fs[6..];
    t := q5 + ("," + t);
    assert QuotedJoin(fs[5..]) == t;
    assert fs[4..][1..] == fs[5..];
    t := q4 + ("," + t);
    assert QuotedJoin(fs[4..]) == t;
    assert fs[3..][1..] == fs[4..];
    t := q3 + ("," + t);
    assert QuotedJoin(fs[3..]) == t;
    assert fs[2..][1..] == fs[3..];
    t := q2 + ("," + t);
    assert QuotedJoin(fs[2..]) == t;
    assert fs[1..][1..] == fs[2..];
    t := q1 + ("," + t);
    assert QuotedJoin(fs[1..]) == t;
    t := q0 + ("," + t);
    assert QuotedJoin(fs) == t;
  }

  /** Index of the first double quote in `s`, or `|s|` when there is none. */
  function FindQuote(s: string): (k: nat)
    ensures k <= |s|
    ensures k < |s| ==> s[k] == '"'
    ensures forall j :: 0 <= j < k ==> s[j] != '"'
  {
    if s == [] then 0 else if s[0] == '"' then 0 else 1 + FindQuote(s[1..])
  }

  /**
   * Reads back a line of quoted fields: a double quote, the field text up to
   * the next double quote, then either a comma and the next field or the
   * final line feed.  Anything else is rejected.
   */
  function ParseFields(s: string): Option<seq<string>>
    decreases |s|
  {
    if |s| == 0 || s[0] != '"' then None
    else
      var k := FindQuote(s[1..]);
      if k == |s| - 1 then None
      else
        var rest := s[k + 2..];
        if rest == "\n" then Some([s[1..k + 1]])
        else if |rest| > 0 && rest[0] == ',' then
          match ParseFields(rest[1..])
          case None => None
          case Some(more) => Some([s[1..k + 1]] + more)
        else None
  }

  lemma FindQuoteAfterSanitised(f: string, tail: string)
    requires Sanitised(f)
    requires |tail| > 0 && tail[0] == '"'
    ensures FindQuote(f + tail) == |f|
  {
    var s := f + tail;
    assert s[|f|] == '"';
    assert forall j :: 0 <= j < |f| ==> s[j] == f[j];
  }

  /** The first field of a line: its text is found up to the closing quote, and what follows is left. */
  lemma ParseFieldHead(f: string, after: string)
    requires Sanitised(f)
    ensures var line := Quoted(f) + after;
      && |line| > 0 && line[0] == '"'
      && FindQuote(line[1..]) == |f| && |f| != |line| - 1
      && line[1..|f| + 1] == f
      && line[|f| + 2..] == after
  {
    var line := Quoted(f) + after;
    var tail := "\"" + after;
    assert line == "\"" + (f + tail);
    assert line[1..] == f + tail;
    FindQuoteAfterSanitised(f, tail);
    assert line[1..|f| + 1] == f;
    assert line[|f| + 2..] == after;
  }

  /** One field of the line is read back, and the parser goes on with what follows it. */
  lemma ParseFieldStep(f: string, after: string)
    requires Sanitised(f)
    requires |after| > 0
    ensures after == "\n" ==> ParseFields(Quoted(f) + after) == Some([f])
    ensures after[0] == ',' ==>
      ParseFields(Quoted(f) + after) ==
        match ParseFields(after[1..])
        case None => None
        case Some(more) => Some([f] + more)
  {
    ParseFieldHead(f, after);
  }

  /** Parsing a join of sanitised fields gives the fields back. */
  lemma {:induction false} ParseQuotedJoin(fs: seq<string>)
    requires |fs| > 0
    requires forall i :: 0 <= i < |fs| ==> Sanitised(fs[i])
    ensures ParseFields(QuotedJoin(fs)) == Some(fs)
    decreases |fs|
  {
    if |fs| == 1 {
      ParseFieldStep(fs[0], "\n");
      assert [fs[0]] == fs;
    } else {
      var more := QuotedJoin(fs[1..]);
      ParseFieldStep(fs[0], "," + more);
      assert ("," + more)[1..] == more;
      ParseQuotedJoin(fs[1..]);
      assert [fs[0]] + fs[1..] == fs;
    }
  }

  /** Splitting a CSV line at its field boundaries recovers the nine sanitised fields. */
  lemma CsvRoundTrip(row: Row)
    ensures ParseFields(CsvLine(row)) == Some(CleanedFields(row))
  {
    CsvLineIsQuotedJoin(row);
    ParseQuotedJoin(CleanedFields(row));
  }

  function Count(s: string, c: char): nat
  {
    if s == [] then 0 else (if s[0] == c then 1 else 0) + Count(s[1..], c)
  }

  lemma {:induction false} CountAppend(a: string, b: string, c: char)
    ensures Count(a + b, c) == Count(a, c) + Count(b, c)
    decreases |a|
  {
    if a == [] {
      assert a + b == b;
    } else {
      assert (a + b)[1..] == a[1..] + b;
      CountAppend(a[1..], b, c);
    }
  }

  lemma {:induction false} CountSanitised(s: string)
    requires Sanitised(s)
    ensures Count(s, '"') == 0 && Count(s, '\n') == 0
    decreases |s|
  {
    if s != [] {
      CountSanitised(s[1..]);
    }
  }

  /**
   * A join of sanitised fields holds two double quotes per field, and ends
   * with its one and only line feed; no carriage return occurs in it.
   */
  lemma {:induction false} QuotedJoinShape(fs: seq<string>)
    requires |fs| > 0
    requires forall i :: 0 <= i < |fs| ==> Sanitised(fs[i])
    ensures var line := QuotedJoin(fs);
      && |line| > 0 && line[|line| - 1] == '\n'
      && (forall i :: 0 <= i < |line| - 1 ==> !LineBreak(line[i]))
      && Count(line, '"') == 2 * |fs|
      && Count(line, '\n') == 1
    decreases |fs|
  {
    var f := fs[0];
    CountSanitised(f);
    var tail := if |fs| == 1 then "\"\n" else "\"," + QuotedJoin(fs[1..]);
    var line := QuotedJoin(fs);
    assert line == "\"" + f + tail;
    CountAppend("\"" + f, tail, '"');
    CountAppend("\"", f, '"');
    CountAppend("\"" + f, tail, '\n');
    CountAppend("\"", f, '\n');
    if |fs| == 1 {
      assert tail[1..] == "\n" && tail[1..][1..] == "";
      assert Count(tail, '"') == 1 && Count(tail, '\n') == 1;
    } else {
      var more := QuotedJoin(fs[1..]);
      QuotedJoinShape(fs[1..]);
      CountAppend("\",", more, '"');
      CountAppend("\",", more, '\n');
      assert Count("\",", '"') == 1 && Count("\",", '\n') == 0;
      forall i | 0 <= i < |line| - 1
        ensures !LineBreak(line[i])
      {
        if i >= |f| + 3 {
          assert line[i] == more[i - |f| - 3];
        }
      }
    }
  }

  /**
   * A CSV line has eighteen double quotes (two around each of its nine
   * fields) and ends with a line feed that is its only line break.
   */
  lemma CsvLineShape(row: Row)
    ensures var line := CsvLine(row);
      && |line| > 0 && line[|line| - 1] == '\n'
      && (forall i :: 0 <= i < |line| - 1 ==> !LineBreak(line[i]))
      && Count(line, '"') == 18
      && Count(line, '\n') == 1
  {
    CsvLineIsQuotedJoin(row);
    QuotedJoinShape(CleanedFields(row));
  }
}
