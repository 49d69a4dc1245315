/** CSV export of saved inspections (src/lib/csv.ts). Fields are quoted in
    the style of rules 6 and 7 of section 2 of RFC 4180: a field holding a
    comma, a double quote or a line feed is wrapped in double quotes and its
    quotes are doubled. Unlike RFC 4180, records are separated by a bare
    line feed, and a carriage return alone does not cause quoting.

    `ParseCsv` is an independent reader of that format; the main theorem,
    `ParseExport`, states that it recovers the header and every row's field
    strings from the export. */
module Csv {
  import Strings
  import Schemas

  predicate NeedsQuoting(s: string) {
    ',' in s || '"' in s || '\n' in s
  }

  /** `str.replace(/"/g, '""')` */
  function DoubleQuotes(s: string): (r: string)
    ensures |r| >= |s|
    decreases |s|
  {
    if |s| == 0 then []
    else (if s[0] == '"' then "\"\"" else [s[0]]) + DoubleQuotes(s[1..])
  }

  /** `escapeCsvField` on the string form of a field. */
  function EscapeField(s: string): (r: string)
    ensures !NeedsQuoting(s) ==> r == s
    ensures NeedsQuoting(s) ==> |r| >= 2 && r[0] == '"' && r[|r| - 1] == '"'
  {
    if NeedsQuoting(s) then "\"" + DoubleQuotes(s) + "\"" else s
  }

  /** Turns every doubled quote back into one. */
  function UndoubleQuotes(s: string): string
    decreases |s|
  {
    if |s| >= 2 && s[0] == '"' && s[1] == '"' then "\"" + UndoubleQuotes(s[2..])
    else if |s| == 0 then []
    else [s[0]] + UndoubleQuotes(s[1..])
  }

  /** Strips a pair of outer quotes and undoubles the quotes between them. */
  function UnescapeField(e: string): string {
    if |e| >= 2 && e[0] == '"' && e[|e| - 1] == '"' then UndoubleQuotes(e[1..|e| - 1]) else e
  }

  lemma {:induction false} UndoubleDouble(s: string)
    ensures UndoubleQuotes(DoubleQuotes(s)) == s
    decreases |s|
  {
    if |s| > 0 {
      UndoubleDouble(s[1..]);
      var d := DoubleQuotes(s[1..]);
      if s[0] == '"' {
        assert ("\"\"" + d)[2..] == d;
      } else {
        assert ([s[0]] + d)[1..] == d;
      }
    }
  }

  /** Escaping loses nothing: unescaping gives the original field back. */
  lemma UnescapeEscape(s: string)
    ensures UnescapeField(EscapeField(s)) == s
  {
    var e := EscapeField(s);
    if NeedsQuoting(s) {
      assert e[1..|e| - 1] == DoubleQuotes(s);
      UndoubleDouble(s);
    } else {
      assert |s| >= 2 ==> s[0] != '"';
    }
  }

  /** `Array.prototype.join` */
  function Join(xs: seq<string>, sep: char): string
    decreases |xs|
  {
    if |xs| == 0 then ""
    else if |xs| == 1 then xs[0]
    else xs[0] + [sep] + Join(xs[1..], sep)
  }

  function EscapeAll(fields: seq<string>): (r: seq<string>)
    ensures |r| == |fields|
  {
    seq(|fields|, i requires 0 <= i < |fields| => EscapeField(fields[i]))
  }

  /** One record: the escaped fields joined by commas. */
  function RecordText(fields: seq<string>): string {
    Join(EscapeAll(fields), ',')
  }

  const Headers: seq<string> :=
    ["id", "createdAt", "municipalityId", "bottleCount", "cupCount", "utensilsCount", "fillPercent", "litersEst"]

  const HeaderRow: string := Join(Headers, ',')

  /** The eight field strings of a row, in header column order; numbers are
      rendered by `String(n)`. */
  function RowFields(row: Schemas.Inspection): (r: seq<string>)
    ensures |r| == |Headers|
  {
    [row.id, row.createdAt, row.municipalityId,
     Strings.DecimalString(row.counts.bottle),
     Strings.DecimalString(row.counts.cup),
     Strings.DecimalString(row.counts.utensils),
     Strings.DecimalString(row.fillPercent),
     Strings.DecimalString(row.litersEst)]
  }

  /** The records of the data rows, in input order. */
  function DataLines(rows: seq<Schemas.Inspection>): (r: seq<string>)
    ensures |r| == |rows| && forall i :: 0 <= i < |rows| ==> r[i] == RecordText(RowFields(rows[i]))
  {
    seq(|rows|, i requires 0 <= i < |rows| => RecordText(RowFields(rows[i])))
  }

  function Lines(rows: seq<Schemas.Inspection>): (r: seq<string>)
    ensures |r| == |rows| + 1
  {
    [HeaderRow] + DataLines(rows)
  }

  /** `inspectionsToCsv`: the header row, then one record per row in input
      order, joined by line feeds with no trailing line feed. */
  function InspectionsToCsv(rows: seq<Schemas.Inspection>): (r: string)
    ensures Strings.StartsWith(r, HeaderRow)
    ensures |rows| == 0 ==> r == HeaderRow
    ensures |rows| > 0 ==> |r| > |HeaderRow| && r[|HeaderRow|] == '\n'
    ensures |r| > 0 && r[|r| - 1] != '\n'
  {
    JoinedLinesShape(rows);
    Join(Lines(rows), '\n')
  }

  // ----- shape of the export -----

  lemma JoinedLinesShape(rows: seq<Schemas.Inspection>)
    ensures var r := Join(Lines(rows), '\n');
            && Strings.StartsWith(r, HeaderRow)
            && (|rows| == 0 ==> r == HeaderRow)
            && (|rows| > 0 ==> |r| > |HeaderRow| && r[|HeaderRow|] == '\n')
            && |r| > 0 && r[|r| - 1] != '\n'
  {
    LastLineEnd(rows);
    JoinShape(Lines(rows));
  }

  /** The last line of the export ends in a letter or a digit. */
  lemma LastLineEnd(rows: seq<Schemas.Inspection>)
    ensures var l := Lines(rows)[|rows|]; |l| > 0 && l[|l| - 1] != '\n'
  {
    if |rows| > 0 {
      var last := rows[|rows| - 1];
      assert Lines(rows)[|rows|] == RecordText(RowFields(last));
      assert RowFields(last)[7] == Strings.DecimalString(last.litersEst);
      RecordEndsInDigit(RowFields(last));
    } else {
      HeaderRowShape();
    }
  }

  /** Lines joined by line feeds start with the first line, have a line
      feed right after it when there are more, and end as the last line
      ends. */
  lemma JoinShape(lines: seq<string>)
    requires |lines| > 0
    requires var l := lines[|lines| - 1]; |l| > 0 && l[|l| - 1] != '\n'
    ensures var r := Join(lines, '\n');
            && Strings.StartsWith(r, lines[0])
            && (|lines| == 1 ==> r == lines[0])
            && (|lines| > 1 ==> |r| > |lines[0]| && r[|lines[0]|] == '\n')
            && |r| > 0 && r[|r| - 1] != '\n'
  {
    JoinStart(lines, '\n');
    JoinLast(lines, '\n');
  }

  /** A field made of letters only is written as it is. */
  lemma WordNeedsNoQuoting(w: string)
    requires forall i :: 0 <= i < |w| ==> 'a' <= w[i] <= 'z' || 'A' <= w[i] <= 'Z'
    ensures !NeedsQuoting(w) && EscapeField(w) == w
  {
  }

  lemma HeadersNeedNoQuoting()
    ensures forall k :: 0 <= k < |Headers| ==> EscapeField(Headers[k]) == Headers[k]
  {
    forall k | 0 <= k < |Headers|
      ensures !NeedsQuoting(Headers[k])
    {
      var h := Headers[k];
      assert forall i :: 0 <= i < |h| ==> 'a' <= h[i] <= 'z' || 'A' <= h[i] <= 'Z';
      WordNeedsNoQuoting(h);
    }
  }

  lemma HeaderRowShape()
    ensures EscapeAll(Headers) == Headers
    ensures HeaderRow == RecordText(Headers)
    ensures |HeaderRow| > 0 && HeaderRow[|HeaderRow| - 1] == 't'
  {
    HeadersNeedNoQuoting();
    assert EscapeAll(Headers) == Headers;
    JoinLast(Headers, ',');
  }

  /** Joining puts the first string, then the separator, before the rest. */
  lemma JoinCons(xs: seq<string>, sep: char)
    requires |xs| > 1
    ensures Join(xs, sep) == xs[0] + [sep] + Join(xs[1..], sep)
  {
  }

  lemma StartsWithCons(a: string, sep: char, b: string, p: string)
    requires Strings.StartsWith(b, p)
    ensures Strings.StartsWith(a + [sep] + b, a + [sep] + p)
  {
    assert (a + [sep] + b)[..|a| + 1 + |p|] == a + [sep] + p;
  }

  /** A join of at least three strings begins with the first three and
      the two separators between them. */
  lemma JoinFirstThree(xs: seq<string>, sep: char)
    requires |xs| >= 3
    ensures Strings.StartsWith(Join(xs, sep), xs[0] + [sep] + (xs[1] + [sep] + xs[2]))
  {
    JoinCons(xs, sep);
    JoinCons(xs[1..], sep);
    assert xs[1..][1..] == xs[2..];
    JoinStart(xs[2..], sep);
    StartsWithCons(xs[1], sep, Join(xs[2..], sep), xs[2]);
    StartsWithCons(xs[0], sep, Join(xs[1..], sep), xs[1] + [sep] + xs[2]);
  }

  /** The header line begins `id,createdAt,municipalityId`. */
  lemma HeaderRowStart()
    ensures Strings.StartsWith(HeaderRow, "id,createdAt,municipalityId")
  {
    JoinFirstThree(Headers, ',');
    FirstThreeText();
  }

  lemma FirstThreeText()
    ensures "id" + [','] + ("createdAt" + [','] + "municipalityId") == "id,createdAt,municipalityId"
  {
  }

  lemma {:induction false} JoinStart(xs: seq<string>, sep: char)
    requires |xs| > 0
    ensures Strings.StartsWith(Join(xs, sep), xs[0])
    ensures |xs| > 1 ==> |Join(xs, sep)| > |xs[0]| && Join(xs, sep)[|xs[0]|] == sep
  {
    var j := Join(xs, sep);
    if |xs| > 1 {
      assert j == xs[0] + [sep] + Join(xs[1..], sep);
      assert j[..|xs[0]|] == xs[0];
    } else {
      assert j[..|xs[0]|] == xs[0];
    }
  }

  lemma {:induction false} JoinLast(xs: seq<string>, sep: char)
    requires |xs| > 0 && |xs[|xs| - 1]| > 0
    ensures var j := Join(xs, sep); |j| > 0 && j[|j| - 1] == xs[|xs| - 1][|xs[|xs| - 1]| - 1]
    decreases |xs|
  {
    if |xs| > 1 {
      JoinLast(xs[1..], sep);
    }
  }

  lemma DecimalNeedsNoQuoting(n: int)
    ensures !NeedsQuoting(Strings.DecimalString(n))
    ensures EscapeField(Strings.DecimalString(n)) == Strings.DecimalString(n)
  {
    var d := Strings.DecimalString(n);
    assert forall i :: 0 <= i < |d| ==> d[i] != ',' && d[i] != '"' && d[i] != '\n';
  }

  lemma {:induction false} RecordTextCons(fields: seq<string>)
    requires |fields| > 1
    ensures RecordText(fields) == EscapeField(fields[0]) + [','] + RecordText(fields[1..])
  {
    assert EscapeAll(fields)[1..] == EscapeAll(fields[1..]);
  }

  lemma RecordEndsInDigit(fields: seq<string>)
    requires |fields| == |Headers|
    requires exists n :: fields[|fields| - 1] == Strings.DecimalString(n)
    ensures var t := RecordText(fields); |t| > 0 && Strings.IsDigit(t[|t| - 1])
  {
    var n :| fields[|fields| - 1] == Strings.DecimalString(n);
    DecimalNeedsNoQuoting(n);
    JoinLast(EscapeAll(fields), ',');
  }

  // ----- an independent reader -----

  /** An unquoted field: everything up to the next comma or line feed. */
  function ParseBare(s: string): (r: (string, string))
    ensures |r.1| <= |s|
    decreases |s|
  {
    if |s| == 0 then ([], [])
    else if s[0] == ',' || s[0] == '\n' then ([], s)
    else var (f, rest) := ParseBare(s[1..]); ([s[0]] + f, rest)
  }

  /** A quoted field after its opening quote: `""` stands for one quote and
      a lone quote closes the field. */
  function ParseQuoted(s: string): (r: (string, string))
    ensures |r.1| <= |s|
    decreases |s|
  {
    if |s| == 0 then ([], [])
    else if s[0] == '"' then
      if |s| > 1 && s[1] == '"' then var (f, rest) := ParseQuoted(s[2..]); ("\"" + f, rest)
      else ([], s[1..])
    else var (f, rest) := ParseQuoted(s[1..]); ([s[0]] + f, rest)
  }

  function ParseField(s: string): (r: (string, string))
    ensures |r.1| <= |s|
  {
    if |s| > 0 && s[0] == '"' then ParseQuoted(s[1..]) else ParseBare(s)
  }

  /** The fields of one record, and what follows the record. */
  function ParseFields(s: string): (r: (seq<string>, string))
    ensures |r.1| <= |s|
    decreases |s|
  {
    var (f, rest) := ParseField(s);
    if |rest| > 0 && rest[0] == ',' then
      var (fs, rest2) := ParseFields(rest[1..]);
      ([f] + fs, rest2)
    else ([f], rest)
  }

  /** All records of a document. */
  function ParseCsv(s: string): seq<seq<string>>
    decreases |s|
  {
    var (fs, rest) := ParseFields(s);
    if |rest| == 0 then [fs] else [fs] + ParseCsv(rest[1..])
  }

  // ----- the reader inverts the writer -----

  lemma {:induction false} ParseQuotedDoubled(f: string, t: string)
    requires |t| == 0 || t[0] != '"'
    ensures ParseQuoted(DoubleQuotes(f) + "\"" + t) == (f, t)
    decreases |f|
  {
    if |f| == 0 {
      assert DoubleQuotes(f) + "\"" + t == "\"" + t;
      ParseQuotedClose(t);
    } else {
      ParseQuotedDoubled(f[1..], t);
      ParseQuotedDoubledStep(f, t);
    }
  }

  /** The inductive step of `ParseQuotedDoubled`: one more character in
      front of a field that already reads back. */
  lemma ParseQuotedDoubledStep(f: string, t: string)
    requires |f| > 0
    requires ParseQuoted(DoubleQuotes(f[1..]) + "\"" + t) == (f[1..], t)
    ensures ParseQuoted(DoubleQuotes(f) + "\"" + t) == (f, t)
  {
    var rest := DoubleQuotes(f[1..]) + "\"" + t;
    DoubledThen(f, t);
    HeadTail(f);
    if f[0] == '"' {
      ParseQuotedPair(rest);
    } else {
      ParseQuotedOther(f[0], rest);
    }
  }

  lemma DoubledThen(f: string, t: string)
    requires |f| > 0
    ensures f[0] == '"' ==> DoubleQuotes(f) + "\"" + t == "\"\"" + (DoubleQuotes(f[1..]) + "\"" + t)
    ensures f[0] != '"' ==> DoubleQuotes(f) + "\"" + t == [f[0]] + (DoubleQuotes(f[1..]) + "\"" + t)
  {
    var h: string := if f[0] == '"' then "\"\"" else [f[0]];
    assert DoubleQuotes(f) == h + DoubleQuotes(f[1..]);
    ConcatAssoc(h, DoubleQuotes(f[1..]), "\"", t);
  }

  lemma ConcatAssoc<T>(a: seq<T>, b: seq<T>, c: seq<T>, d: seq<T>)
    ensures a + b + c + d == a + (b + c + d)
  {
  }

  lemma ParseQuotedClose(t: string)
    requires |t| == 0 || t[0] != '"'
    ensures ParseQuoted("\"" + t) == ([], t)
  {
    assert ("\"" + t)[1..] == t;
  }

  lemma ParseQuotedPair(rest: string)
    ensures ParseQuoted("\"\"" + rest) == ("\"" + ParseQuoted(rest).0, ParseQuoted(rest).1)
  {
    assert ("\"\"" + rest)[2..] == rest;
  }

  lemma ParseQuotedOther(c: char, rest: string)
    requires c != '"'
    ensures ParseQuoted([c] + rest) == ([c] + ParseQuoted(rest).0, ParseQuoted(rest).1)
  {
    assert ([c] + rest)[1..] == rest;
  }

  lemma {:induction false} ParseBarePlain(f: string, t: string)
    requires ',' !in f && '\n' !in f
    requires |t| == 0 || t[0] == ',' || t[0] == '\n'
    ensures ParseBare(f + t) == (f, t)
    decreases |f|
  {
    if |f| == 0 {
      assert f + t == t;
    } else {
      assert (f + t)[1..] == f[1..] + t;
      assert f[0] in f;
      ParseBarePlain(f[1..], t);
      assert f == [f[0]] + f[1..];
    }
  }

  /** Reading an escaped field back stops exactly at the separator. */
  lemma ParseEscapedField(f: string, t: string)
    requires |t| == 0 || t[0] == ',' || t[0] == '\n'
    ensures ParseField(EscapeField(f) + t) == (f, t)
  {
    if NeedsQuoting(f) {
      ParseQuotedField(f, t);
    } else {
      ParsePlainField(f, t);
    }
  }

  lemma ParseQuotedField(f: string, t: string)
    requires NeedsQuoting(f)
    requires |t| == 0 || t[0] == ',' || t[0] == '\n'
    ensures ParseField(EscapeField(f) + t) == (f, t)
  {
    var inner := DoubleQuotes(f) + "\"" + t;
    assert EscapeField(f) + t == "\"" + inner;
    assert ("\"" + inner)[1..] == inner;
    ParseQuotedDoubled(f, t);
  }

  lemma ParsePlainField(f: string, t: string)
    requires !NeedsQuoting(f)
    requires |t| == 0 || t[0] == ',' || t[0] == '\n'
    ensures ParseField(EscapeField(f) + t) == (f, t)
  {
    assert |f + t| > 0 ==> (f + t)[0] != '"' by {
      if |f| > 0 {
        assert f[0] in f;
      }
    }
    ParseBarePlain(f, t);
  }

  lemma {:induction false} ParseRecord(fields: seq<string>, t: string)
    requires |fields| > 0
    requires |t| == 0 || t[0] == '\n'
    ensures ParseFields(RecordText(fields) + t) == (fields, t)
    decreases |fields|
  {
    if |fields| == 1 {
      ParseRecordSingle(fields, t);
    } else {
      ParseRecord(fields[1..], t);
      ParseRecordCons(fields, t);
    }
  }

  lemma ParseRecordSingle(fields: seq<string>, t: string)
    requires |fields| == 1
    requires |t| == 0 || t[0] == '\n'
    ensures ParseFields(RecordText(fields) + t) == (fields, t)
  {
    assert EscapeAll(fields) == [EscapeField(fields[0])];
    assert RecordText(fields) == EscapeField(fields[0]);
    ParseEscapedField(fields[0], t);
    ParseFieldsLast(EscapeField(fields[0]) + t, fields[0], t);
    assert [fields[0]] == fields;
  }

  /** The inductive step of `ParseRecord`: one more field in front of a
      record that already reads back. */
  lemma ParseRecordCons(fields: seq<string>, t: string)
    requires |fields| > 1
    requires ParseFields(RecordText(fields[1..]) + t) == (fields[1..], t)
    ensures ParseFields(RecordText(fields) + t) == (fields, t)
  {
    RecordTextConsThen(fields, t);
    ParseFieldThenRest(fields[0], RecordText(fields[1..]) + t, fields[1..], t);
    HeadTail(fields);
  }

  lemma RecordTextConsThen(fields: seq<string>, t: string)
    requires |fields| > 1
    ensures RecordText(fields) + t == EscapeField(fields[0]) + ([','] + (RecordText(fields[1..]) + t))
  {
    RecordTextCons(fields);
  }

  lemma HeadTail<T>(xs: seq<T>)
    requires |xs| > 0
    ensures [xs[0]] + xs[1..] == xs
  {
  }

  lemma ParseFieldThenRest(f: string, inner: string, fs: seq<string>, t: string)
    requires ParseFields(inner) == (fs, t)
    ensures ParseFields(EscapeField(f) + ([','] + inner)) == ([f] + fs, t)
  {
    ParseEscapedField(f, [','] + inner);
    ParseFieldsNext(EscapeField(f) + ([','] + inner), f, inner);
  }

  lemma ParseFieldsLast(s: string, f: string, t: string)
    requires ParseField(s) == (f, t)
    requires |t| == 0 || t[0] == '\n'
    ensures ParseFields(s) == ([f], t)
  {
  }

  lemma ParseFieldsNext(s: string, f: string, inner: string)
    requires ParseField(s) == (f, [','] + inner)
    ensures ParseFields(s) == ([f] + ParseFields(inner).0, ParseFields(inner).1)
  {
    assert ([','] + inner)[1..] == inner;
  }

  function RecordTexts(records: seq<seq<string>>): (r: seq<string>)
    ensures |r| == |records| && forall k :: 0 <= k < |records| ==> r[k] == RecordText(records[k])
  {
    seq(|records|, k requires 0 <= k < |records| => RecordText(records[k]))
  }

  lemma {:induction false} ParseRecords(records: seq<seq<string>>)
    requires |records| > 0
    requires forall k :: 0 <= k < |records| ==> |records[k]| > 0
    ensures ParseCsv(Join(RecordTexts(records), '\n')) == records
    decreases |records|
  {
    var texts := RecordTexts(records);
    if |records| == 1 {
      ParseRecord(records[0], []);
      assert RecordText(records[0]) + [] == RecordText(records[0]);
    } else {
      var rest := records[1..];
      var restTexts := RecordTexts(rest);
      assert texts[1..] == restTexts;
      var tail := ['\n'] + Join(restTexts, '\n');
      assert Join(texts, '\n') == RecordText(records[0]) + tail;
      ParseRecord(records[0], tail);
      assert tail[1..] == Join(restTexts, '\n');
      ParseRecords(rest);
      assert [records[0]] + rest == records;
    }
  }

  /** The eight field strings of every row, in input order. */
  function DataRecords(rows: seq<Schemas.Inspection>): (r: seq<seq<string>>)
    ensures |r| == |rows| && forall i :: 0 <= i < |rows| ==> r[i] == RowFields(rows[i])
  {
    seq(|rows|, i requires 0 <= i < |rows| => RowFields(rows[i]))
  }

  /** The header and the eight field strings of every row, in order. */
  function ExportRecords(rows: seq<Schemas.Inspection>): (r: seq<seq<string>>)
    ensures |r| == |rows| + 1 && forall k :: 0 <= k < |r| ==> |r[k]| == |Headers|
    ensures forall i :: 0 <= i < |rows| ==> r[i + 1] == RowFields(rows[i])
  {
    [Headers] + DataRecords(rows)
  }

  /** A first line that is the record of `first`, followed by the data
      rows, is the list of records of `first` and the data rows. */
  lemma PrependRecord(line: string, first: seq<string>, rows: seq<Schemas.Inspection>)
    requires line == RecordText(first)
    ensures [line] + DataLines(rows) == RecordTexts([first] + DataRecords(rows))
  {
    var lhs := [line] + DataLines(rows);
    var rhs := RecordTexts([first] + DataRecords(rows));
    forall k | 0 <= k < |lhs|
      ensures lhs[k] == rhs[k]
    {
      if k > 0 {
        assert lhs[k] == DataLines(rows)[k - 1];
        assert ([first] + DataRecords(rows))[k] == DataRecords(rows)[k - 1];
      }
    }
  }

  lemma LinesAreRecordTexts(rows: seq<Schemas.Inspection>)
    ensures Lines(rows) == RecordTexts(ExportRecords(rows))
  {
    HeaderRowShape();
    PrependRecord(HeaderRow, Headers, rows);
  }

  /** Reading the export back yields the header and, for every row in input
      order, its eight field strings. */
  lemma ParseExport(rows: seq<Schemas.Inspection>)
    ensures ParseCsv(InspectionsToCsv(rows)) == ExportRecords(rows)
  {
    var records := ExportRecords(rows);
    LinesAreRecordTexts(rows);
    ParseRecords(records);
  }

  /** Since every row has eight fields, every record of the export reads
      back as eight fields. */
  lemma ExportRecordsHaveEightFields(rows: seq<Schemas.Inspection>)
    ensures forall k :: 0 <= k < |ParseCsv(InspectionsToCsv(rows))| ==> |ParseCsv(InspectionsToCsv(rows))[k]| == 8
    ensures |ParseCsv(InspectionsToCsv(rows))| == |rows| + 1
  {
    ParseExport(rows);
  }
}
