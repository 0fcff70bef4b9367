/** The CSV export of the time entries table. Every cell is wrapped in double
    quotes, cells are joined by ',' and lines by a line feed. The writer as
    written does not double quotes inside a cell (section 2 item 7 of RFC
    4180 requires it); `QuoteRfc` is the corrected quoting. A reader for
    fully quoted RFC 4180 records (with LF line breaks, as the writer emits)
    gives the meaning of an output. */
module CsvExport {
  import opened Records
  import opened Seqs
  import opened Text
  import opened Numbers

  const Headers: seq<string> := ["Date", "Durée (h)", "Client", "Projet", "Notes", "Facturable", "Type"]

  /** `s || fallback` for a nullable string. */
  function Or(o: Option<string>, fallback: string): (r: string)
    ensures o.Some? && o.value != "" ==> r == o.value
    ensures (o.None? || o.value == "") ==> r == fallback
  {
    if o.Some? && o.value != "" then o.value else fallback
  }

  /** `e.project?.client?.company || e.project?.client?.name || '-'`. */
  function ClientLabel(e: TimeEntry): (r: string)
    ensures r != ""
    ensures e.project.None? || e.project.value.client.None? ==> r == "-"
    ensures e.project.Some? && e.project.value.client.Some? ==>
      var c := e.project.value.client.value;
      && (c.company.Some? && c.company.value != "" ==> r == c.company.value)
      && (c.company.None? || c.company.value == "" ==> r == if c.name != "" then c.name else "-")
  {
    match e.project
    case None => "-"
    case Some(p) =>
      match p.client
      case None => "-"
      case Some(c) => Or(c.company, Or(Some(c.name), "-"))
  }

  /** `e.project?.name || '-'`. */
  function ProjectLabel(e: TimeEntry): (r: string)
    ensures e.project.Some? && e.project.value.name != "" ==> r == e.project.value.name
    ensures e.project.None? || e.project.value.name == "" ==> r == "-"
  {
    match e.project
    case None => "-"
    case Some(p) => Or(Some(p.name), "-")
  }

  /** The seven cells of an entry's line. */
  function Cells(e: TimeEntry): (r: seq<string>)
    ensures |r| == |Headers| == 7
    ensures r[0] == e.date && r[1] == HoursFixed2(e.durationMinutes)
    ensures r[2] == ClientLabel(e) && r[3] == ProjectLabel(e)
    ensures e.notes.Some? && e.notes.value != "" ==> r[4] == e.notes.value
    ensures e.notes.None? || e.notes.value == "" ==> r[4] == "-"
    ensures r[5] == "Oui" <==> e.isBillable
    ensures r[5] == "Non" <==> !e.isBillable
    ensures r[6] == "Timer" <==> e.isTimer
    ensures r[6] == "Manuel" <==> !e.isTimer
  {
    [ e.date,
      HoursFixed2(e.durationMinutes),
      ClientLabel(e),
      ProjectLabel(e),
      Or(e.notes, "-"),
      if e.isBillable then "Oui" else "Non",
      if e.isTimer then "Timer" else "Manuel" ]
  }

  /** The header line followed by one line per entry, in entry order. */
  function Table(entries: seq<TimeEntry>): (t: seq<seq<string>>)
    ensures |t| == |entries| + 1 && t[0] == Headers
    ensures forall i :: 0 <= i < |entries| ==> t[i + 1] == Cells(entries[i])
    ensures forall i :: 0 <= i < |t| ==> |t[i]| == 7
  {
    [Headers] + Map(entries, Cells)
  }

  /** `` `"${cell}"` ``: the quoting as written. */
  function QuoteAsWritten(cell: string): string {
    "\"" + cell + "\""
  }

  /** Each `"` doubled. */
  function Escape(cell: string): (r: string)
    ensures |r| == |cell| + QuoteCount(cell)
  {
    if cell == [] then []
    else (if cell[0] == '"' then "\"\"" else [cell[0]]) + Escape(cell[1..])
  }

  function QuoteCount(cell: string): (n: nat)
    ensures n == 0 <==> '"' !in cell
  {
    if cell == [] then 0 else (if cell[0] == '"' then 1 else 0) + QuoteCount(cell[1..])
  }

  /** RFC 4180 quoting: the cell wrapped in `"` with inner quotes doubled. */
  function QuoteRfc(cell: string): string {
    "\"" + Escape(cell) + "\""
  }

  /** `row.map(quote).join(',')`. */
  function Line(row: seq<string>, quote: string -> string): string {
    Join(Map(row, quote), ',')
  }

  function LineOf(quote: string -> string): seq<string> -> string {
    (row: seq<string>) => Line(row, quote)
  }

  /** `table.map(row => ...).join('\n')`. */
  function Document(table: seq<seq<string>>, quote: string -> string): string {
    Join(Map(table, LineOf(quote)), '\n')
  }

  /** The export as written. */
  function Csv(entries: seq<TimeEntry>): string {
    Document(Table(entries), QuoteAsWritten)
  }

  /** The export with RFC 4180 quoting. */
  function CsvRfc(entries: seq<TimeEntry>): string {
    Document(Table(entries), QuoteRfc)
  }

  // ---- Reading fully quoted records back ----

  /** The rest of a quoted field after its opening quote: its content up to
      the closing quote, `""` standing for one quote, and what follows. */
  function ReadQuoted(s: string): (r: Option<(string, string)>)
    ensures r.Some? ==> |r.value.1| < |s|
  {
    if s == [] then None
    else if s[0] == '"' then
      if |s| >= 2 && s[1] == '"' then
        match ReadQuoted(s[2..])
        case None => None
        case Some((c, rest)) => Some(("\"" + c, rest))
      else Some(("", s[1..]))
    else
      match ReadQuoted(s[1..])
      case None => None
      case Some((c, rest)) => Some(([s[0]] + c, rest))
  }

  /** The fields of one record and what follows it. */
  function ReadFields(s: string): (r: Option<(seq<string>, string)>)
    ensures r.Some? ==> |r.value.1| < |s|
    decreases |s|
  {
    if s == [] || s[0] != '"' then None
    else
      match ReadQuoted(s[1..])
      case None => None
      case Some((f, rest)) =>
        if rest != [] && rest[0] == ',' then
          match ReadFields(rest[1..])
          case None => None
          case Some((fs, rest')) => Some(([f] + fs, rest'))
        else Some(([f], rest))
  }

  /** All records of a document, or `None` when it is not well formed. */
  function ReadRecords(s: string): Option<seq<seq<string>>>
    decreases |s|
  {
    match ReadFields(s)
    case None => None
    case Some((fs, rest)) =>
      if rest == [] then Some([fs])
      else if rest[0] == '\n' then
        match ReadRecords(rest[1..])
        case None => None
        case Some(rs) => Some([fs] + rs)
      else None
  }

  // ---- Unfolding the writers ----

  lemma LineCons(row: seq<string>, quote: string -> string)
    requires |row| >= 1
    ensures |row| == 1 ==> Line(row, quote) == quote(row[0])
    ensures |row| >= 2 ==> Line(row, quote) == quote(row[0]) + "," + Line(row[1..], quote)
  {
    if |row| >= 2 {
      assert Map(row, quote)[1..] == Map(row[1..], quote);
    }
  }

  lemma DocumentCons(table: seq<seq<string>>, quote: string -> string)
    requires |table| >= 1
    ensures |table| == 1 ==> Document(table, quote) == Line(table[0], quote)
    ensures |table| >= 2 ==> Document(table, quote) == Line(table[0], quote) + "\n" + Document(table[1..], quote)
  {
    if |table| >= 2 {
      assert Map(table, LineOf(quote))[1..] == Map(table[1..], LineOf(quote));
    }
  }

  // ---- The corrected writer round-trips ----

  /** A lone quote not followed by another closes the field. */
  lemma ReadQuotedClose(tail: string)
    requires tail == [] || tail[0] != '"'
    ensures ReadQuoted("\"" + tail) == Some(("", tail))
  {
    var s := "\"" + tail;
    assert s[0] == '"' && s[1..] == tail;
  }

  /** A doubled quote reads as one quote of the content. */
  lemma ReadQuotedPair(c: string, inner: string, tail: string)
    requires ReadQuoted(inner) == Some((c, tail))
    ensures ReadQuoted("\"\"" + inner) == Some(("\"" + c, tail))
  {
    var s := "\"\"" + inner;
    assert s[0] == '"' && s[1] == '"' && s[2..] == inner;
  }

  /** Any other character is content. */
  lemma ReadQuotedChar(x: char, c: string, inner: string, tail: string)
    requires x != '"' && ReadQuoted(inner) == Some((c, tail))
    ensures ReadQuoted([x] + inner) == Some(([x] + c, tail))
  {
    var s := [x] + inner;
    assert s[0] == x && s[1..] == inner;
  }

  lemma AppendAssoc(p: string, q: string, r: string, t: string)
    ensures p + q + r + t == p + (q + r + t)
  {
  }

  lemma {:induction false} ReadQuotedEscape(cell: string, tail: string)
    requires tail == [] || tail[0] != '"'
    ensures ReadQuoted(Escape(cell) + "\"" + tail) == Some((cell, tail))
  {
    if cell == [] {
      assert Escape(cell) + "\"" + tail == "\"" + tail;
      ReadQuotedClose(tail);
    } else {
      ReadQuotedEscape(cell[1..], tail);
      var inner := Escape(cell[1..]) + "\"" + tail;
      var head := if cell[0] == '"' then "\"\"" else [cell[0]];
      assert Escape(cell) == head + Escape(cell[1..]);
      AppendAssoc(head, Escape(cell[1..]), "\"", tail);
      if cell[0] == '"' {
        ReadQuotedPair(cell[1..], inner, tail);
        assert "\"" + cell[1..] == cell;
      } else {
        ReadQuotedChar(cell[0], cell[1..], inner, tail);
        assert [cell[0]] + cell[1..] == cell;
      }
    }
  }

  /** Reading the quoted field at the start of `s`: its content and what
      follows the closing quote. */
  lemma ReadFieldsHead(s: string, cell: string, after: string)
    requires s == QuoteRfc(cell) + after
    requires after == [] || after[0] != '"'
    ensures s != [] && s[0] == '"' && ReadQuoted(s[1..]) == Some((cell, after))
  {
    assert s[1..] == Escape(cell) + "\"" + after;
    ReadQuotedEscape(cell, after);
  }

  /** The last field of a record. */
  lemma ReadFieldsLast(cell: string, after: string)
    requires after == [] || (after[0] != '"' && after[0] != ',')
    ensures ReadFields(QuoteRfc(cell) + after) == Some(([cell], after))
  {
    ReadFieldsHead(QuoteRfc(cell) + after, cell, after);
  }

  /** A field followed by a comma and more fields. */
  lemma ReadFieldsNext(cell: string, more: string, fs: seq<string>, tail: string)
    requires ReadFields(more) == Some((fs, tail))
    ensures ReadFields(QuoteRfc(cell) + ("," + more)) == Some(([cell] + fs, tail))
  {
    var after := "," + more;
    ReadFieldsHead(QuoteRfc(cell) + after, cell, after);
    assert after[1..] == more;
  }

  lemma {:induction false} ReadFieldsLine(row: seq<string>, tail: string)
    requires |row| >= 1
    requires tail == [] || tail[0] == '\n'
    ensures ReadFields(Line(row, QuoteRfc) + tail) == Some((row, tail))
  {
    LineCons(row, QuoteRfc);
    if |row| == 1 {
      ReadFieldsLast(row[0], tail);
      assert [row[0]] == row;
    } else {
      ReadFieldsLine(row[1..], tail);
      ReadFieldsMoreCells(row, tail);
    }
  }

  lemma ReadFieldsMoreCells(row: seq<string>, tail: string)
    requires |row| >= 2
    requires ReadFields(Line(row[1..], QuoteRfc) + tail) == Some((row[1..], tail))
    ensures ReadFields(Line(row, QuoteRfc) + tail) == Some((row, tail))
  {
    LineCons(row, QuoteRfc);
    ReadFieldsCons(row[0], Line(row[1..], QuoteRfc), tail, row[1..]);
    assert [row[0]] + row[1..] == row;
  }

  /** A quoted cell and a comma before fields read as `fs` read as the cell then `fs`. */
  lemma ReadFieldsCons(cell: string, rest: string, tail: string, fs: seq<string>)
    requires ReadFields(rest + tail) == Some((fs, tail))
    ensures ReadFields(QuoteRfc(cell) + "," + rest + tail) == Some(([cell] + fs, tail))
  {
    AppendAssoc(QuoteRfc(cell), ",", rest, tail);
    assert "," + rest + tail == "," + (rest + tail);
    ReadFieldsNext(cell, rest + tail, fs, tail);
  }

  lemma {:induction false} ReadRecordsDocument(table: seq<seq<string>>)
    requires |table| >= 1
    requires forall i :: 0 <= i < |table| ==> |table[i]| >= 1
    ensures ReadRecords(Document(table, QuoteRfc)) == Some(table)
  {
    if |table| == 1 {
      ReadRecordsOneLine(table);
    } else {
      ReadRecordsDocument(table[1..]);
      ReadRecordsMoreLines(table);
    }
  }

  lemma ReadRecordsOneLine(table: seq<seq<string>>)
    requires |table| == 1 && |table[0]| >= 1
    ensures ReadRecords(Document(table, QuoteRfc)) == Some(table)
  {
    DocumentCons(table, QuoteRfc);
    ReadFieldsLine(table[0], []);
    assert Line(table[0], QuoteRfc) + [] == Line(table[0], QuoteRfc);
    ReadRecordsLast(Document(table, QuoteRfc), table[0]);
    assert [table[0]] == table;
  }

  lemma ReadRecordsMoreLines(table: seq<seq<string>>)
    requires |table| >= 2 && |table[0]| >= 1
    requires ReadRecords(Document(table[1..], QuoteRfc)) == Some(table[1..])
    ensures ReadRecords(Document(table, QuoteRfc)) == Some(table)
  {
    var line, doc := Line(table[0], QuoteRfc), Document(table[1..], QuoteRfc);
    DocumentCons(table, QuoteRfc);
    ReadFieldsLine(table[0], "\n" + doc);
    ReadRecordsJoin(line, doc, table[0], table[1..]);
    assert [table[0]] + table[1..] == table;
  }

  /** A line read as `fs` and a line feed before a document read as `rs`
      read as `fs` followed by `rs`. */
  lemma ReadRecordsJoin(line: string, doc: string, fs: seq<string>, rs: seq<seq<string>>)
    requires ReadFields(line + ("\n" + doc)) == Some((fs, "\n" + doc))
    requires ReadRecords(doc) == Some(rs)
    ensures ReadRecords(line + "\n" + doc) == Some([fs] + rs)
  {
    var tail := "\n" + doc;
    assert line + "\n" + doc == line + tail;
    assert tail[1..] == doc;
    ReadRecordsNext(line + tail, fs, tail, rs);
  }

  /** A record that ends the input is the last one read. */
  lemma ReadRecordsLast(s: string, fs: seq<string>)
    requires ReadFields(s) == Some((fs, []))
    ensures ReadRecords(s) == Some([fs])
  {
  }

  /** A record followed by a line feed comes before the records after it. */
  lemma ReadRecordsNext(s: string, fs: seq<string>, tail: string, rs: seq<seq<string>>)
    requires ReadFields(s) == Some((fs, tail))
    requires tail != [] && tail[0] == '\n' && ReadRecords(tail[1..]) == Some(rs)
    ensures ReadRecords(s) == Some([fs] + rs)
  {
  }

  /** With RFC 4180 quoting the export reads back as the header and the
      entries' cells, whatever the cells contain. */
  lemma CsvRfcRoundTrip(entries: seq<TimeEntry>)
    ensures ReadRecords(CsvRfc(entries)) == Some(Table(entries))
  {
    ReadRecordsDocument(Table(entries));
  }

  // ---- What the reader accepts is exactly what the corrected writer emits ----

  /** Reassembling an escaped cell from its first character and the rest. */
  lemma EscapeCons(s: string, c: string, cell: string, rest: string, n: nat)
    requires n == 1 || n == 2
    requires n <= |s| && s[..n] == (if n == 2 then "\"\"" else [s[0]])
    requires n == 1 ==> s[0] != '"'
    requires s[n..] == Escape(c) + "\"" + rest
    requires cell == (if n == 2 then "\"" else [s[0]]) + c
    ensures s == Escape(cell) + "\"" + rest
  {
    assert cell != [] && cell[1..] == c;
    assert Escape(cell) == s[..n] + Escape(c);
    assert s == s[..n] + s[n..];
  }

  lemma {:induction false} ReadQuotedInverse(s: string, cell: string, rest: string)
    requires ReadQuoted(s) == Some((cell, rest))
    ensures s == Escape(cell) + "\"" + rest
    decreases |s|
  {
    if s[0] == '"' && |s| >= 2 && s[1] == '"' {
      var (c, r) := ReadQuoted(s[2..]).value;
      ReadQuotedInverse(s[2..], c, r);
      EscapeCons(s, c, cell, rest, 2);
    } else if s[0] == '"' {
      assert s == "\"" + s[1..];
    } else {
      var (c, r) := ReadQuoted(s[1..]).value;
      ReadQuotedInverse(s[1..], c, r);
      EscapeCons(s, c, cell, rest, 1);
    }
  }

  /** What a successful `ReadFields` is made of: a quoted field, then either
      a comma and more fields or the end of the record. */
  lemma ReadFieldsShape(s: string, fs: seq<string>, rest: string)
    requires ReadFields(s) == Some((fs, rest))
    ensures s != [] && s[0] == '"' && ReadQuoted(s[1..]).Some? && |fs| >= 1
    ensures var (f, after) := ReadQuoted(s[1..]).value;
      && fs[0] == f
      && (after != [] && after[0] == ',' ==> ReadFields(after[1..]) == Some((fs[1..], rest)))
      && (!(after != [] && after[0] == ',') ==> |fs| == 1 && rest == after)
  {
    var (f, after) := ReadQuoted(s[1..]).value;
    if after != [] && after[0] == ',' {
      var (fs', rest') := ReadFields(after[1..]).value;
      assert fs == [f] + fs';
      assert fs[1..] == fs';
    }
  }

  /** Reassembling a record from its first field and the rest. */
  lemma LineReassemble(s: string, fs: seq<string>, after: string, rest: string)
    requires |fs| >= 1 && s == QuoteRfc(fs[0]) + after
    requires |fs| == 1 ==> after == rest
    requires |fs| >= 2 ==> after != [] && after[0] == ',' && after[1..] == Line(fs[1..], QuoteRfc) + rest
    ensures s == Line(fs, QuoteRfc) + rest
  {
    LineCons(fs, QuoteRfc);
    if |fs| >= 2 {
      assert after == [','] + after[1..];
    }
  }

  lemma {:induction false} ReadFieldsInverse(s: string, fs: seq<string>, rest: string)
    requires ReadFields(s) == Some((fs, rest))
    ensures |fs| >= 1 && s == Line(fs, QuoteRfc) + rest
    decreases |s|
  {
    ReadFieldsShape(s, fs, rest);
    var (f, after) := ReadQuoted(s[1..]).value;
    ReadQuotedInverse(s[1..], f, after);
    assert s == QuoteRfc(f) + after by {
      assert s == [s[0]] + s[1..];
    }
    if after != [] && after[0] == ',' {
      ReadFieldsInverse(after[1..], fs[1..], rest);
    }
    LineReassemble(s, fs, after, rest);
  }

  /** A record followed by a line break and more records. */
  lemma ReadRecordsNextInverse(s: string, fs: seq<string>, rest: string, table: seq<seq<string>>)
    requires ReadFields(s) == Some((fs, rest)) && rest != []
    requires ReadRecords(s) == Some(table)
    ensures rest[0] == '\n' && ReadRecords(rest[1..]).Some?
    ensures table == [fs] + ReadRecords(rest[1..]).value
  {
  }

  /** A document is its first line, a line break and the remaining document. */
  lemma DocumentFromParts(s: string, fs: seq<string>, rest: string, rs: seq<seq<string>>, table: seq<seq<string>>)
    requires s == Line(fs, QuoteRfc) + rest
    requires rest != [] && rest[0] == '\n' && |rs| >= 1 && rest[1..] == Document(rs, QuoteRfc)
    requires table == [fs] + rs
    ensures s == Document(table, QuoteRfc)
  {
    DocumentCons(table, QuoteRfc);
    assert table[1..] == rs && table[0] == fs;
    assert rest == "\n" + rest[1..];
  }

  lemma {:induction false} ReadRecordsInverse(s: string, table: seq<seq<string>>)
    requires ReadRecords(s) == Some(table)
    ensures |table| >= 1 && s == Document(table, QuoteRfc)
    decreases |s|
  {
    var (fs, rest) := ReadFields(s).value;
    ReadFieldsInverse(s, fs, rest);
    if rest == [] {
      assert table == [fs];
      DocumentCons(table, QuoteRfc);
    } else {
      ReadRecordsNextInverse(s, fs, rest, table);
      var rs := ReadRecords(rest[1..]).value;
      ReadRecordsInverse(rest[1..], rs);
      DocumentFromParts(s, fs, rest, rs, table);
    }
  }

  // ---- Lengths: the corrected writer adds one character per inner quote ----

  function RowQuotes(row: seq<string>): nat {
    if row == [] then 0 else QuoteCount(row[0]) + RowQuotes(row[1..])
  }

  function TableQuotes(table: seq<seq<string>>): nat {
    if table == [] then 0 else RowQuotes(table[0]) + TableQuotes(table[1..])
  }

  lemma {:induction false} LineLengths(row: seq<string>)
    requires |row| >= 1
    ensures |Line(row, QuoteRfc)| == |Line(row, QuoteAsWritten)| + RowQuotes(row)
  {
    LineCons(row, QuoteRfc);
    LineCons(row, QuoteAsWritten);
    if |row| >= 2 {
      LineLengths(row[1..]);
    }
  }

  lemma {:induction false} DocumentLengths(table: seq<seq<string>>)
    requires |table| >= 1
    requires forall i :: 0 <= i < |table| ==> |table[i]| >= 1
    ensures |Document(table, QuoteRfc)| == |Document(table, QuoteAsWritten)| + TableQuotes(table)
  {
    DocumentCons(table, QuoteRfc);
    DocumentCons(table, QuoteAsWritten);
    LineLengths(table[0]);
    if |table| >= 2 {
      DocumentLengths(table[1..]);
    }
  }

  lemma {:induction false} RowQuotesZero(row: seq<string>)
    ensures RowQuotes(row) == 0 <==> forall j :: 0 <= j < |row| ==> '"' !in row[j]
  {
    if row != [] {
      RowQuotesZero(row[1..]);
      assert forall j :: 1 <= j < |row| ==> row[j] == row[1..][j - 1];
    }
  }

  lemma {:induction false} TableQuotesZero(table: seq<seq<string>>)
    ensures TableQuotes(table) == 0 <==>
      forall i, j :: 0 <= i < |table| && 0 <= j < |table[i]| ==> '"' !in table[i][j]
  {
    if table != [] {
      RowQuotesZero(table[0]);
      TableQuotesZero(table[1..]);
      assert forall i :: 1 <= i < |table| ==> table[i] == table[1..][i - 1];
    }
  }

  /** Without quotes in any cell the two writers agree. */
  lemma {:induction false} AgreeWithoutQuotes(table: seq<seq<string>>, quote: string -> string)
    requires forall c :: quote(c) == ("\"" + c + "\"")
    requires forall i, j :: 0 <= i < |table| && 0 <= j < |table[i]| ==> '"' !in table[i][j]
    ensures Document(table, quote) == Document(table, QuoteRfc)
  {
    forall i, j | 0 <= i < |table| && 0 <= j < |table[i]|
      ensures quote(table[i][j]) == QuoteRfc(table[i][j])
    {
      EscapeNoQuote(table[i][j]);
    }
    forall i | 0 <= i < |table| ensures Line(table[i], quote) == Line(table[i], QuoteRfc) {
      assert Map(table[i], quote) == Map(table[i], QuoteRfc);
    }
    assert Map(table, LineOf(quote)) == Map(table, LineOf(QuoteRfc));
  }

  lemma {:induction false} EscapeNoQuote(cell: string)
    requires '"' !in cell
    ensures Escape(cell) == cell
  {
    if cell != [] {
      EscapeNoQuote(cell[1..]);
      assert [cell[0]] + cell[1..] == cell;
    }
  }

  /** A document as written reads back as its table exactly when no cell
      contains a double quote. */
  lemma DocumentRoundTripIff(t: seq<seq<string>>)
    requires |t| >= 1 && forall i :: 0 <= i < |t| ==> |t[i]| >= 1
    ensures ReadRecords(Document(t, QuoteAsWritten)) == Some(t) <==> TableQuotes(t) == 0
  {
    TableQuotesZero(t);
    if TableQuotes(t) == 0 {
      AgreeWithoutQuotes(t, QuoteAsWritten);
      ReadRecordsDocument(t);
    }
    if ReadRecords(Document(t, QuoteAsWritten)) == Some(t) {
      ReadRecordsInverse(Document(t, QuoteAsWritten), t);
      DocumentLengths(t);
    }
  }

  /** The export as written reads back as its table exactly when no cell
      contains a double quote. */
  lemma CsvRoundTripIff(entries: seq<TimeEntry>)
    ensures ReadRecords(Csv(entries)) == Some(Table(entries)) <==>
      forall i, j :: 0 <= i < |Table(entries)| && 0 <= j < 7 ==> '"' !in Table(entries)[i][j]
  {
    SevenColumnRoundTripIff(Table(entries));
  }

  lemma SevenColumnRoundTripIff(t: seq<seq<string>>)
    requires |t| >= 1 && forall i :: 0 <= i < |t| ==> |t[i]| == 7
    ensures ReadRecords(Document(t, QuoteAsWritten)) == Some(t) <==>
      forall i, j :: 0 <= i < |t| && 0 <= j < 7 ==> '"' !in t[i][j]
  {
    DocumentRoundTripIff(t);
    TableQuotesZero(t);
  }

  // ---- Lines ----

  lemma {:induction false} LineNoBreak(row: seq<string>, quote: string -> string)
    requires forall c :: '\n' !in c ==> '\n' !in quote(c)
    requires forall j :: 0 <= j < |row| ==> '\n' !in row[j]
    ensures '\n' !in Line(row, quote)
  {
    if |row| >= 1 {
      LineCons(row, quote);
      if |row| >= 2 {
        LineNoBreak(row[1..], quote);
      }
    }
  }

  lemma QuoteAsWrittenNoBreak(c: string)
    requires '\n' !in c
    ensures '\n' !in QuoteAsWritten(c)
  {
    assert QuoteAsWritten(c) == ['"'] + c + ['"'];
  }

  /** When no cell holds a line feed, splitting a document at line feeds
      gives back its lines. */
  lemma DocumentLines(t: seq<seq<string>>)
    requires |t| >= 1
    requires forall i, j :: 0 <= i < |t| && 0 <= j < |t[i]| ==> '\n' !in t[i][j]
    ensures Split(Document(t, QuoteAsWritten), '\n') == Map(t, LineOf(QuoteAsWritten))
  {
    var lines := Map(t, LineOf(QuoteAsWritten));
    forall c | '\n' !in c ensures '\n' !in QuoteAsWritten(c) {
      QuoteAsWrittenNoBreak(c);
    }
    forall i | 0 <= i < |lines| ensures '\n' !in lines[i] {
      LineNoBreak(t[i], QuoteAsWritten);
    }
    SplitJoin(lines, '\n');
  }

  /** When no cell holds a line feed, the export is one header line and one
      line per entry, in entry order, with no final line feed. */
  lemma CsvLines(entries: seq<TimeEntry>)
    requires forall i, j :: 0 <= i < |entries| && 0 <= j < 7 ==> '\n' !in Cells(entries[i])[j]
    ensures var lines := Split(Csv(entries), '\n');
      && |lines| == |entries| + 1
      && lines[0] == Line(Headers, QuoteAsWritten)
      && forall i :: 0 <= i < |entries| ==> lines[i + 1] == Line(Cells(entries[i]), QuoteAsWritten)
  {
    var t := Table(entries);
    forall i, j | 0 <= i < |t| && 0 <= j < |t[i]| ensures '\n' !in t[i][j] {
      if i == 0 {
        HeadersNoBreak(j);
      } else {
        assert t[i] == Cells(entries[i - 1]);
      }
    }
    DocumentLines(t);
    TableLines(entries, Split(Csv(entries), '\n'));
  }

  lemma HeadersNoBreak(j: nat)
    requires j < |Headers|
    ensures '\n' !in Headers[j]
  {
  }

  /** The lines of the table's document are the header's line and the entries' lines. */
  lemma TableLines(entries: seq<TimeEntry>, lines: seq<string>)
    requires lines == Map(Table(entries), LineOf(QuoteAsWritten))
    ensures |lines| == |entries| + 1
    ensures lines[0] == Line(Headers, QuoteAsWritten)
    ensures forall i :: 0 <= i < |entries| ==> lines[i + 1] == Line(Cells(entries[i]), QuoteAsWritten)
  {
    var t := Table(entries);
    forall i | 0 <= i < |entries| ensures lines[i + 1] == Line(Cells(entries[i]), QuoteAsWritten) {
      assert lines[i + 1] == LineOf(QuoteAsWritten)(t[i + 1]);
    }
  }

  // ---- A finding: the unescaped writer loses cell boundaries ----

  /** `","` inside a cell reads like a cell boundary: moving it from one
      cell to the next one does not change the text. */
  lemma QuoteShift(a: string, b: string, c: string)
    ensures QuoteAsWritten(a + "\",\"" + b) + "," + QuoteAsWritten(c)
         == QuoteAsWritten(a) + "," + QuoteAsWritten(b + "\",\"" + c)
  {
    var q := ['"'];
    assert QuoteAsWritten(a + "\",\"" + b) + "," + QuoteAsWritten(c)
        == q + a + q + [','] + q + b + q + [','] + q + c + q;
    assert QuoteAsWritten(a) + "," + QuoteAsWritten(b + "\",\"" + c)
        == q + a + q + [','] + q + b + q + [','] + q + c + q;
  }

  /** Two rows that differ only by where a `","` sits between two adjacent
      cells give the same line as written. */
  lemma RowShift(pre: seq<string>, post: seq<string>, a: string, b: string, c: string)
    requires |pre| >= 1 && |post| >= 1
    ensures Line(pre + [a + "\",\"" + b, c] + post, QuoteAsWritten)
         == Line(pre + [a, b + "\",\"" + c] + post, QuoteAsWritten)
  {
    var r1 := pre + [a + "\",\"" + b, c] + post;
    var r2 := pre + [a, b + "\",\"" + c] + post;
    var k := |pre|;
    LineSplit(r1, k, QuoteAsWritten);
    LineSplit(r2, k, QuoteAsWritten);
    assert r1[..k] == pre == r2[..k];
    LineSplit(r1[k..], 2, QuoteAsWritten);
    LineSplit(r2[k..], 2, QuoteAsWritten);
    assert r1[k..][2..] == post == r2[k..][2..];
    var m1, m2 := r1[k..][..2], r2[k..][..2];
    assert m1 == [a + "\",\"" + b, c] && m2 == [a, b + "\",\"" + c];
    LineCons(m1, QuoteAsWritten);
    LineCons(m2, QuoteAsWritten);
    LineCons(m1[1..], QuoteAsWritten);
    LineCons(m2[1..], QuoteAsWritten);
    QuoteShift(a, b, c);
  }

  const BareEntry := TimeEntry("e", None, None, 60, "2024-01-15", None, true, false)

  /** An entry whose project name holds `","`. */
  const SplitName := BareEntry.(project := Some(Project("p", "P\",\"N", None, None, "active", None, None, None)))

  /** An entry whose project is named `P` and whose note holds `","`. */
  const SplitNote := BareEntry.(project := Some(Project("p", "P", None, None, "active", None, None, None)),
                                notes := Some("N\",\"-"))

  /** The export of a single entry: the header line, a line feed and the
      entry's line. */
  lemma CsvOne(e: TimeEntry, quote: string -> string)
    ensures Document(Table([e]), quote) == Line(Headers, quote) + "\n" + Line(Cells(e), quote)
  {
    var t := Table([e]);
    assert t == [Headers, Cells(e)];
    DocumentCons(t, quote);
    DocumentCons(t[1..], quote);
  }

  /** The two entries' lines as written are the same text. */
  lemma SplitLinesAgree()
    ensures Cells(SplitName)[3] != Cells(SplitNote)[3]
    ensures Line(Cells(SplitName), QuoteAsWritten) == Line(Cells(SplitNote), QuoteAsWritten)
  {
    var x := Cells(SplitName);
    var y := Cells(SplitNote);
    assert x[3] == "P\",\"N" == "P" + "\",\"" + "N" && y[3] == "P";
    assert x[4] == "-" && y[4] == "N\",\"-" == "N" + "\",\"" + "-";
    assert x[..3] == y[..3] && x[5..] == y[5..];
    assert x == x[..3] + [x[3], x[4]] + x[5..];
    assert y == y[..3] + [y[3], y[4]] + y[5..];
    RowShift(x[..3], x[5..], "P", "N", "-");
  }

  /** Two entries with different cells export to the same text as written,
      so no reader can recover both tables; the corrected export tells them
      apart. */
  lemma CsvAsWrittenCollides()
    ensures Table([SplitName]) != Table([SplitNote])
    ensures Csv([SplitName]) == Csv([SplitNote])
    ensures CsvRfc([SplitName]) != CsvRfc([SplitNote])
    ensures ReadRecords(Csv([SplitName])) != Some(Table([SplitName]))
         || ReadRecords(Csv([SplitNote])) != Some(Table([SplitNote]))
  {
    SplitLinesAgree();
    assert Table([SplitName])[1] == Cells(SplitName);
    assert Table([SplitNote])[1] == Cells(SplitNote);
    CsvOne(SplitName, QuoteAsWritten);
    CsvOne(SplitNote, QuoteAsWritten);
    CsvRfcRoundTrip([SplitName]);
    CsvRfcRoundTrip([SplitNote]);
  }

  /** A line splits where a row is cut in two. */
  lemma {:induction false} LineSplit(row: seq<string>, k: nat, quote: string -> string)
    requires 1 <= k < |row|
    ensures Line(row, quote) == Line(row[..k], quote) + "," + Line(row[k..], quote)
  {
    LineCons(row, quote);
    LineCons(row[..k], quote);
    if k >= 2 {
      LineSplit(row[1..], k - 1, quote);
      assert row[1..][..k - 1] == row[..k][1..];
      assert row[1..][k - 1..] == row[k..];
    } else {
      assert row[1..] == row[k..];
    }
  }
}
