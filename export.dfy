/**
 * CSV export: a cell is quoted exactly when it contains a double quote, a
 * comma or a line feed, with inner quotes doubled; a document is a header line
 * followed by one line per row, joined by line feeds. A small reference reader
 * for that format shows that the export loses nothing but the distinction
 * between a missing cell and an empty one.
 */
module CsvExport {
  import opened Text

  /** A cell value: missing (`null`/`undefined`) or present with its `String(value)` text. */
  datatype Value = Missing | Present(text: string)

  /** A column: the row key it reads and its header; an empty header is a falsy one. */
  datatype Column = Column(key: string, header: string)

  /** A row object: what `row[key]` yields for each key it has. */
  type Row = map<string, Value>

  /** The text a cell stands for once read back. */
  function TextOf(v: Value): string {
    if v.Present? then v.text else ""
  }

  predicate NeedsQuotes(s: string) {
    '"' in s || ',' in s || '\n' in s
  }

  /** `s.replace(/"/g, '""')`. */
  function DoubleQuotes(s: string): (r: string)
    ensures |r| >= |s|
  {
    if |s| == 0 then ""
    else (if s[0] == '"' then "\"\"" else [s[0]]) + DoubleQuotes(s[1..])
  }

  /** Doubling the quotes adds no other character and removes none. */
  lemma {:induction false} DoubleQuotesChars(s: string)
    ensures ('"' in s) <==> ('"' in DoubleQuotes(s))
    ensures forall c | c != '"' :: (c in s) <==> (c in DoubleQuotes(s))
  {
    if |s| > 0 {
      DoubleQuotesChars(s[1..]);
      var head := if s[0] == '"' then "\"\"" else [s[0]];
      assert DoubleQuotes(s) == head + DoubleQuotes(s[1..]);
      assert s == [s[0]] + s[1..];
    }
  }

  /** Undoes `DoubleQuotes`: every `""` pair becomes one quote. */
  function UndoubleQuotes(s: string): string {
    if |s| == 0 then ""
    else if |s| >= 2 && s[0] == '"' && s[1] == '"' then "\"" + UndoubleQuotes(s[2..])
    else [s[0]] + UndoubleQuotes(s[1..])
  }

  lemma {:induction false} UndoubleDoubled(s: string)
    ensures UndoubleQuotes(DoubleQuotes(s)) == s
  {
    if |s| > 0 {
      UndoubleDoubled(s[1..]);
      if s[0] == '"' {
        assert DoubleQuotes(s) == "\"\"" + DoubleQuotes(s[1..]);
        assert (DoubleQuotes(s))[2..] == DoubleQuotes(s[1..]);
      } else {
        assert DoubleQuotes(s) == [s[0]] + DoubleQuotes(s[1..]);
        assert (DoubleQuotes(s))[1..] == DoubleQuotes(s[1..]);
      }
      assert s == [s[0]] + s[1..];
    }
  }

  /** `escapeCSV(value)`. */
  function EscapeCSV(v: Value): (r: string)
    ensures v.Missing? ==> r == ""
    ensures v.Present? && !NeedsQuotes(v.text) ==> r == v.text
    ensures v.Present? && NeedsQuotes(v.text) ==>
      |r| >= 2 && r[0] == '"' && r[|r| - 1] == '"' && UndoubleQuotes(r[1..|r| - 1]) == v.text
  {
    match v
    case Missing => ""
    case Present(s) =>
      if NeedsQuotes(s) then
        var r := "\"" + DoubleQuotes(s) + "\"";
        assert r[1..|r| - 1] == DoubleQuotes(s);
        UndoubleDoubled(s);
        r
      else s
  }

  /** Reading one field back on its own: strip the surrounding quotes and undouble. */
  function UnescapeField(f: string): string {
    if |f| >= 2 && f[0] == '"' && f[|f| - 1] == '"' then UndoubleQuotes(f[1..|f| - 1]) else f
  }

  lemma EscapeRoundTrip(v: Value)
    ensures UnescapeField(EscapeCSV(v)) == TextOf(v)
  {
  }

  /** The header cell: `c.header || c.key`. */
  function HeaderText(c: Column): string {
    if c.header != "" then c.header else c.key
  }

  /** `row[c.key]`: a key the row lacks reads as `undefined`. */
  function Cell(row: Row, key: string): Value {
    if key in row then row[key] else Missing
  }

  function HeaderValues(cols: seq<Column>): (vs: seq<Value>)
    ensures |vs| == |cols|
  {
    seq(|cols|, i requires 0 <= i < |cols| => Present(HeaderText(cols[i])))
  }

  function RowValues(row: Row, cols: seq<Column>): (vs: seq<Value>)
    ensures |vs| == |cols|
  {
    seq(|cols|, i requires 0 <= i < |cols| => Cell(row, cols[i].key))
  }

  function Escaped(vs: seq<Value>): (es: seq<string>)
    ensures |es| == |vs|
  {
    seq(|vs|, i requires 0 <= i < |vs| => EscapeCSV(vs[i]))
  }

  function Texts(vs: seq<Value>): (ts: seq<string>)
    ensures |ts| == |vs|
  {
    seq(|vs|, i requires 0 <= i < |vs| => TextOf(vs[i]))
  }

  /** One CSV line: the escaped cells joined by commas. */
  function EncodeLine(vs: seq<Value>): string {
    Join(Escaped(vs), ",")
  }

  /** All lines of the document: header first, then the rows in order. */
  function Lines(rows: seq<Row>, cols: seq<Column>): (ls: seq<seq<Value>>)
    ensures |ls| == |rows| + 1
  {
    [HeaderValues(cols)] + seq(|rows|, j requires 0 <= j < |rows| => RowValues(rows[j], cols))
  }

  function EncodeLines(ls: seq<seq<Value>>): (es: seq<string>)
    ensures |es| == |ls|
  {
    seq(|ls|, j requires 0 <= j < |ls| => EncodeLine(ls[j]))
  }

  /** `toCSV(rows, columns)`. */
  function ToCSV(rows: seq<Row>, cols: seq<Column>): string {
    Join(EncodeLines(Lines(rows, cols)), "\n")
  }

  // ---------------------------------------------------------------------
  // Reference reader

  /** The body of a quoted field after its opening quote: `""` is a quote, a lone `"` closes. */
  function ParseQuoted(s: string): (r: (string, string))
    ensures |r.1| <= |s|
  {
    if |s| == 0 then ("", "")
    else if s[0] == '"' then
      if |s| >= 2 && s[1] == '"' then
        var p := ParseQuoted(s[2..]);
        ("\"" + p.0, p.1)
      else ("", s[1..])
    else
      var p := ParseQuoted(s[1..]);
      ([s[0]] + p.0, p.1)
  }

  /** An unquoted field: everything up to the next comma or line feed. */
  function ParseBare(s: string): (r: (string, string))
    ensures |r.1| <= |s|
  {
    if |s| == 0 || s[0] == ',' || s[0] == '\n' then ("", s)
    else
      var p := ParseBare(s[1..]);
      ([s[0]] + p.0, p.1)
  }

  function ParseField(s: string): (r: (string, string))
    ensures |r.1| <= |s|
  {
    if |s| > 0 && s[0] == '"' then ParseQuoted(s[1..]) else ParseBare(s)
  }

  /** The fields of one line and what follows it. */
  function ParseRecord(s: string): (r: (seq<string>, string))
    ensures |r.1| <= |s|
    ensures |r.0| >= 1
    decreases |s|
  {
    var p := ParseField(s);
    if |p.1| > 0 && p.1[0] == ',' then
      var q := ParseRecord(p.1[1..]);
      ([p.0] + q.0, q.1)
    else ([p.0], p.1)
  }

  /** All records of a document. */
  function ParseDocument(s: string): (r: seq<seq<string>>)
    ensures |r| >= 1
    decreases |s|
  {
    var p := ParseRecord(s);
    if |p.1| > 0 && p.1[0] == '\n' then [p.0] + ParseDocument(p.1[1..]) else [p.0]
  }

  predicate EndsLine(rest: string) {
    rest == "" || rest[0] == '\n'
  }

  predicate EndsField(rest: string) {
    rest == "" || rest[0] == ',' || rest[0] == '\n'
  }

  lemma {:induction false} QuotedRoundTrip(x: string, rest: string)
    requires rest == "" || rest[0] != '"'
    ensures ParseQuoted(DoubleQuotes(x) + "\"" + rest) == (x, rest)
  {
    if |x| == 0 {
      var s := DoubleQuotes(x) + "\"" + rest;
      assert s == "\"" + rest;
      assert s[1..] == rest;
    } else {
      QuotedRoundTrip(x[1..], rest);
      if x[0] == '"' {
        QuotedStepQuote(x, rest);
      } else {
        QuotedStepOther(x, rest);
      }
    }
  }

  /** A doubled quote inside a quoted field reads back as one quote. */
  lemma QuotedStepQuote(x: string, rest: string)
    requires |x| > 0 && x[0] == '"'
    requires ParseQuoted(DoubleQuotes(x[1..]) + "\"" + rest) == (x[1..], rest)
    ensures ParseQuoted(DoubleQuotes(x) + "\"" + rest) == (x, rest)
  {
    var tail := DoubleQuotes(x[1..]) + "\"" + rest;
    var s := DoubleQuotes(x) + "\"" + rest;
    assert s == "\"\"" + tail;
    assert s[2..] == tail;
    assert x == [x[0]] + x[1..];
  }

  /** Any other character inside a quoted field reads back as itself. */
  lemma QuotedStepOther(x: string, rest: string)
    requires |x| > 0 && x[0] != '"'
    requires ParseQuoted(DoubleQuotes(x[1..]) + "\"" + rest) == (x[1..], rest)
    ensures ParseQuoted(DoubleQuotes(x) + "\"" + rest) == (x, rest)
  {
    var tail := DoubleQuotes(x[1..]) + "\"" + rest;
    var s := DoubleQuotes(x) + "\"" + rest;
    assert s == [x[0]] + tail;
    assert s[1..] == tail;
    assert x == [x[0]] + x[1..];
  }

  lemma {:induction false} BareRoundTrip(x: string, rest: string)
    requires ',' !in x && '\n' !in x
    requires EndsField(rest)
    ensures ParseBare(x + rest) == (x, rest)
  {
    if |x| == 0 {
      assert x + rest == rest;
    } else {
      assert (x + rest)[0] == x[0];
      assert (x + rest)[1..] == x[1..] + rest;
      BareRoundTrip(x[1..], rest);
      assert x == [x[0]] + x[1..];
    }
  }

  lemma FieldRoundTrip(v: Value, rest: string)
    requires EndsField(rest)
    ensures ParseField(EscapeCSV(v) + rest) == (TextOf(v), rest)
  {
    if v.Present? && NeedsQuotes(v.text) {
      QuotedFieldRoundTrip(v.text, rest);
    } else {
      BareFieldRoundTrip(v, rest);
    }
  }

  lemma QuotedFieldRoundTrip(t: string, rest: string)
    requires NeedsQuotes(t) && EndsField(rest)
    ensures ParseField(EscapeCSV(Present(t)) + rest) == (t, rest)
  {
    var s := "\"" + DoubleQuotes(t) + "\"" + rest;
    assert EscapeCSV(Present(t)) + rest == s;
    assert s[1..] == DoubleQuotes(t) + "\"" + rest;
    QuotedRoundTrip(t, rest);
  }

  lemma BareFieldRoundTrip(v: Value, rest: string)
    requires !(v.Present? && NeedsQuotes(v.text)) && EndsField(rest)
    ensures ParseField(EscapeCSV(v) + rest) == (TextOf(v), rest)
  {
    var e := EscapeCSV(v);
    assert e == TextOf(v);
    BareRoundTrip(e, rest);
    if |e| > 0 {
      assert (e + rest)[0] == e[0];
    } else {
      assert e + rest == rest;
    }
  }

  /** One field followed by a comma: the record continues after the comma. */
  lemma RecordStep(s: string, tail: string)
    requires ParseField(s).1 == "," + tail
    ensures ParseRecord(s) == ([ParseField(s).0] + ParseRecord(tail).0, ParseRecord(tail).1)
  {
    assert ParseField(s).1[1..] == tail;
  }

  /** The last field of a line. */
  lemma RecordLast(s: string)
    requires EndsLine(ParseField(s).1)
    ensures ParseRecord(s) == ([ParseField(s).0], ParseField(s).1)
  {
  }

  lemma JoinStep(es: seq<string>, sep: string)
    requires |es| >= 2
    ensures Join(es, sep) == es[0] + (sep + Join(es[1..], sep))
  {
  }

  lemma {:induction false} LineRoundTrip(vs: seq<Value>, rest: string)
    requires |vs| > 0
    requires EndsLine(rest)
    ensures ParseRecord(EncodeLine(vs) + rest) == (Texts(vs), rest)
  {
    if |vs| == 1 {
      LastFieldRoundTrip(vs, rest);
    } else {
      LineRoundTrip(vs[1..], rest);
      FieldThenLine(vs, rest);
    }
  }

  lemma LastFieldRoundTrip(vs: seq<Value>, rest: string)
    requires |vs| == 1
    requires EndsLine(rest)
    ensures ParseRecord(EncodeLine(vs) + rest) == (Texts(vs), rest)
  {
    assert EncodeLine(vs) == Escaped(vs)[0];
    FieldRoundTrip(vs[0], rest);
    RecordLast(EncodeLine(vs) + rest);
    assert Texts(vs) == [TextOf(vs[0])];
  }

  /** A field, a comma and a line that parses back parse back as one longer line. */
  lemma FieldThenLine(vs: seq<Value>, rest: string)
    requires |vs| >= 2
    requires ParseRecord(EncodeLine(vs[1..]) + rest) == (Texts(vs[1..]), rest)
    ensures ParseRecord(EncodeLine(vs) + rest) == (Texts(vs), rest)
  {
    var tail := EncodeLine(vs[1..]) + rest;
    LineCons(vs, rest);
    FieldRoundTrip(vs[0], "," + tail);
    RecordStep(EncodeLine(vs) + rest, tail);
    TextsCons(vs);
  }

  lemma LineCons(vs: seq<Value>, rest: string)
    requires |vs| >= 2
    ensures EncodeLine(vs) + rest == EscapeCSV(vs[0]) + ("," + (EncodeLine(vs[1..]) + rest))
  {
    EncodeLineCons(vs);
    Regroup(EscapeCSV(vs[0]), ",", EncodeLine(vs[1..]), rest);
  }

  lemma Regroup(a: string, b: string, c: string, d: string)
    ensures (a + (b + c)) + d == a + (b + (c + d))
  {
  }

  lemma EncodeLineCons(vs: seq<Value>)
    requires |vs| >= 2
    ensures EncodeLine(vs) == EscapeCSV(vs[0]) + ("," + EncodeLine(vs[1..]))
  {
    var es := Escaped(vs);
    assert es[1..] == Escaped(vs[1..]);
    JoinStep(es, ",");
  }

  lemma TextsCons(vs: seq<Value>)
    requires |vs| >= 1
    ensures Texts(vs) == [TextOf(vs[0])] + Texts(vs[1..])
  {
    assert Texts(vs)[1..] == Texts(vs[1..]);
  }

  /** The texts of every line. */
  function TextLines(ls: seq<seq<Value>>): (ts: seq<seq<string>>)
    ensures |ts| == |ls| && forall j | 0 <= j < |ls| :: ts[j] == Texts(ls[j])
  {
    seq(|ls|, j requires 0 <= j < |ls| => Texts(ls[j]))
  }

  lemma {:induction false} LinesRoundTrip(ls: seq<seq<Value>>)
    requires |ls| > 0
    requires forall j | 0 <= j < |ls| :: |ls[j]| > 0
    ensures ParseDocument(Join(EncodeLines(ls), "\n")) == TextLines(ls)
  {
    if |ls| == 1 {
      var es := EncodeLines(ls);
      LineRoundTrip(ls[0], "");
      assert es[0] + "" == es[0];
    } else {
      LinesRoundTrip(ls[1..]);
      LineThenLines(ls);
    }
  }

  /** A line, a line feed and a document that parses back parse back as one longer document. */
  lemma LineThenLines(ls: seq<seq<Value>>)
    requires |ls| >= 2
    requires forall j | 0 <= j < |ls| :: |ls[j]| > 0
    requires ParseDocument(Join(EncodeLines(ls[1..]), "\n")) == TextLines(ls[1..])
    ensures ParseDocument(Join(EncodeLines(ls), "\n")) == TextLines(ls)
  {
    var tail := Join(EncodeLines(ls[1..]), "\n");
    LinesCons(ls);
    LineRoundTrip(ls[0], "\n" + tail);
    DocumentStep(Join(EncodeLines(ls), "\n"), tail);
    TextLinesCons(ls);
  }

  lemma TextLinesCons(ls: seq<seq<Value>>)
    requires |ls| >= 1
    ensures TextLines(ls) == [Texts(ls[0])] + TextLines(ls[1..])
  {
    assert TextLines(ls)[1..] == TextLines(ls[1..]);
  }

  lemma LinesCons(ls: seq<seq<Value>>)
    requires |ls| >= 2
    ensures Join(EncodeLines(ls), "\n") == EncodeLine(ls[0]) + ("\n" + Join(EncodeLines(ls[1..]), "\n"))
  {
    EncodeLinesTail(ls);
    JoinStep(EncodeLines(ls), "\n");
  }

  lemma EncodeLinesTail(ls: seq<seq<Value>>)
    requires |ls| >= 1
    ensures EncodeLines(ls)[1..] == EncodeLines(ls[1..])
  {
  }

  /** One record followed by a line feed: the document continues after it. */
  lemma DocumentStep(s: string, tail: string)
    requires ParseRecord(s).1 == "\n" + tail
    ensures ParseDocument(s) == [ParseRecord(s).0] + ParseDocument(tail)
  {
    assert ParseRecord(s).1[1..] == tail;
  }

  /**
   * Reading the export back yields one record per line: the header texts first,
   * then each row's cells in column order, a missing cell reading as "".
   */
  lemma ToCSVRoundTrip(rows: seq<Row>, cols: seq<Column>)
    requires |cols| > 0
    ensures var doc := ParseDocument(ToCSV(rows, cols));
      |doc| == |rows| + 1 &&
      doc[0] == seq(|cols|, i requires 0 <= i < |cols| => HeaderText(cols[i])) &&
      forall j | 0 <= j < |rows| ::
        |doc[j + 1]| == |cols| &&
        forall i | 0 <= i < |cols| :: doc[j + 1][i] == TextOf(Cell(rows[j], cols[i].key))
  {
    var ls := Lines(rows, cols);
    LinesNonEmpty(rows, cols);
    LinesRoundTrip(ls);
    HeaderLine(rows, cols);
    forall j | 0 <= j < |rows|
      ensures |TextLines(ls)[j + 1]| == |cols|
      ensures forall i | 0 <= i < |cols| :: TextLines(ls)[j + 1][i] == TextOf(Cell(rows[j], cols[i].key))
    {
      RowLine(rows, cols, j);
    }
  }

  lemma LinesNonEmpty(rows: seq<Row>, cols: seq<Column>)
    requires |cols| > 0
    ensures forall j | 0 <= j < |Lines(rows, cols)| :: |Lines(rows, cols)[j]| > 0
  {
    var ls := Lines(rows, cols);
    forall j | 0 <= j < |ls| ensures |ls[j]| > 0 {
      if j > 0 { assert ls[j] == RowValues(rows[j - 1], cols); }
    }
  }

  lemma HeaderLine(rows: seq<Row>, cols: seq<Column>)
    ensures TextLines(Lines(rows, cols))[0] == seq(|cols|, i requires 0 <= i < |cols| => HeaderText(cols[i]))
  {
    assert Lines(rows, cols)[0] == HeaderValues(cols);
  }

  lemma RowLine(rows: seq<Row>, cols: seq<Column>, j: nat)
    requires j < |rows|
    ensures |TextLines(Lines(rows, cols))[j + 1]| == |cols|
    ensures forall i | 0 <= i < |cols| :: TextLines(Lines(rows, cols))[j + 1][i] == TextOf(Cell(rows[j], cols[i].key))
  {
    assert Lines(rows, cols)[j + 1] == RowValues(rows[j], cols);
  }
}
