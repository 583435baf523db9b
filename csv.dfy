/** The CSV export (`toCsv`): a header line of column labels joined by
    commas, then one line per row with every cell in double quotes (quotes
    inside doubled), lines joined by newlines. A reader for that layout
    shows that the export loses no cell. */
module Csv {
  import opened Common

  /** A column of an exported table: the row field it shows and its title. */
  datatype Column = Column(key: string, labelText: string)

  /** A row: field name to value; an absent key or a `None` is an empty
      cell. Values are already text. */
  type Row = map<string, Option<string>>

  /** The parts joined with `sep` between them, as `Array.prototype.join`. */
  function Join(parts: seq<string>, sep: string): string
  {
    if |parts| == 0 then ""
    else if |parts| == 1 then parts[0]
    else parts[0] + sep + Join(parts[1..], sep)
  }

  /** Every double quote doubled. */
  function Escape(s: string): (r: string)
    ensures |r| >= |s|
    ensures '"' !in s ==> r == s
  {
    if s == [] then []
    else (if s[0] == '"' then "\"\"" else [s[0]]) + Escape(s[1..])
  }

  function Quote(s: string): string
  {
    "\"" + Escape(s) + "\""
  }

  /** The text of a cell: empty for an absent or null value. */
  function CellText(row: Row, key: string): string
  {
    if key in row && row[key].Some? then row[key].value else ""
  }

  function Labels(columns: seq<Column>): (r: seq<string>)
    ensures |r| == |columns|
  {
    seq(|columns|, i requires 0 <= i < |columns| => columns[i].labelText)
  }

  /** The cells of each row, column by column. */
  function Cells(rows: seq<Row>, columns: seq<Column>): (r: seq<seq<string>>)
    ensures |r| == |rows|
    ensures forall i :: 0 <= i < |r| ==> |r[i]| == |columns|
  {
    seq(|rows|, i requires 0 <= i < |rows| =>
      seq(|columns|, j requires 0 <= j < |columns| => CellText(rows[i], columns[j].key)))
  }

  function Quoted(cells: seq<string>): (r: seq<string>)
    ensures |r| == |cells|
  {
    seq(|cells|, i requires 0 <= i < |cells| => Quote(cells[i]))
  }

  /** One exported line. */
  function Line(cells: seq<string>): string
  {
    Join(Quoted(cells), ",")
  }

  function Lines(table: seq<seq<string>>): (r: seq<string>)
    ensures |r| == |table|
  {
    seq(|table|, i requires 0 <= i < |table| => Line(table[i]))
  }

  /** `toCsv(rows, columns)`. */
  function ToCsv(rows: seq<Row>, columns: seq<Column>): string
  {
    Join(Labels(columns), ",") + "\n" + Join(Lines(Cells(rows, columns)), "\n")
  }

  /** With no rows the export is the header and one newline. */
  lemma NoRowsIsHeaderLine(columns: seq<Column>)
    ensures ToCsv([], columns) == Join(Labels(columns), ",") + "\n"
  {
    assert Lines(Cells([], columns)) == [];
  }

  // ------------------------------------------------------------ reading

  /** Read the inside of a quoted cell, `s` starting just after its opening
      quote: a doubled quote stands for one, a single quote closes it. The
      unescaped text and what follows the closing quote. */
  function ReadQuoted(s: string): (r: Option<(string, string)>)
    ensures r.Some? ==> |r.value.1| < |s|
    decreases |s|
  {
    if s == [] then None
    else if s[0] == '"' then
      if |s| >= 2 && s[1] == '"' then
        match ReadQuoted(s[2..])
        case None => None
        case Some((c, rest)) => Some(("\"" + c, rest))
      else Some(("", s[1..]))
    else
      match ReadQuoted(s[1..])
      case None => None
      case Some((c, rest)) => Some(([s[0]] + c, rest))
  }

  /** Read `n` quoted cells separated by commas. */
  function ReadRecord(s: string, n: nat): (r: Option<(seq<string>, string)>)
    requires n >= 1
    ensures r.Some? ==> |r.value.1| < |s| && |r.value.0| == n
    decreases n
  {
    if s == [] || s[0] != '"' then None
    else
      match ReadQuoted(s[1..])
      case None => None
      case Some((field, rest)) =>
        if n == 1 then Some(([field], rest))
        else if rest == [] || rest[0] != ',' then None
        else
          match ReadRecord(rest[1..], n - 1)
          case None => None
          case Some((fields, rest')) => Some(([field] + fields, rest'))
  }

  /** Read lines of `n` cells separated by newlines, up to the end. */
  function ReadRecords(s: string, n: nat): Option<seq<seq<string>>>
    requires n >= 1
    decreases |s|
  {
    match ReadRecord(s, n)
    case None => None
    case Some((fields, rest)) =>
      if rest == [] then Some([fields])
      else if rest[0] != '\n' then None
      else
        match ReadRecords(rest[1..], n)
        case None => None
        case Some(more) => Some([fields] + more)
  }

  /** The part before the first `c` and the part after it. */
  function SplitFirst(s: string, c: char): Option<(string, string)>
  {
    if s == [] then None
    else if s[0] == c then Some(([], s[1..]))
    else
      match SplitFirst(s[1..], c)
      case None => None
      case Some((a, b)) => Some(([s[0]] + a, b))
  }

  /** The pieces between the occurrences of `c`. */
  function SplitOn(s: string, c: char): (r: seq<string>)
    ensures |r| >= 1
  {
    if s == [] then [""]
    else
      var tail := SplitOn(s[1..], c);
      if s[0] == c then [""] + tail else [[s[0]] + tail[0]] + tail[1..]
  }

  /** Read an export of `n` columns back: the header labels and the cells. */
  function ParseCsv(text: string, n: nat): Option<(seq<string>, seq<seq<string>>)>
    requires n >= 1
  {
    match SplitFirst(text, '\n')
    case None => None
    case Some((header, body)) =>
      if body == [] then Some((SplitOn(header, ','), []))
      else
        match ReadRecords(body, n)
        case None => None
        case Some(table) => Some((SplitOn(header, ','), table))
  }

  // ------------------------------------------------------------- proofs

  /** A quoted cell reads back as its text. */
  lemma {:induction false} ReadQuotedEscaped(x: string, t: string)
    requires t == [] || t[0] != '"'
    ensures ReadQuoted(Escape(x) + "\"" + t) == Some((x, t))
    decreases |x|
  {
    var s := Escape(x) + "\"" + t;
    if x == [] {
      assert s == "\"" + t;
      assert s[1..] == t;
    } else if x[0] == '"' {
      assert s == "\"\"" + (Escape(x[1..]) + "\"" + t);
      ReadQuotedEscaped(x[1..], t);
      assert [x[0]] + x[1..] == x;
    } else {
      assert s == [x[0]] + (Escape(x[1..]) + "\"" + t);
      ReadQuotedEscaped(x[1..], t);
      assert [x[0]] + x[1..] == x;
    }
  }

  /** A quoted cell followed by anything but a quote reads back as its text. */
  lemma ReadCell(x: string, after: string)
    requires after == [] || after[0] != '"'
    ensures (Quote(x) + after)[0] == '"'
    ensures ReadQuoted((Quote(x) + after)[1..]) == Some((x, after))
  {
    assert (Quote(x) + after)[1..] == Escape(x) + "\"" + after;
    ReadQuotedEscaped(x, after);
  }

  lemma LineSplit(cells: seq<string>)
    requires |cells| >= 2
    ensures Line(cells) == Quote(cells[0]) + "," + Line(cells[1..])
  {
    assert Quoted(cells)[1..] == Quoted(cells[1..]);
  }

  /** A last cell reads back as a record of one. */
  lemma ReadRecordOne(c0: string, t: string)
    requires t == [] || t[0] == '\n'
    ensures ReadRecord(Quote(c0) + t, 1) == Some(([c0], t))
  {
    ReadCell(c0, t);
  }

  /** A cell, a comma and a readable record read back as one longer record. */
  lemma ReadRecordCons(c0: string, after: string, n: nat, fields: seq<string>, t: string)
    requires n >= 2 && after != [] && after[0] == ','
    requires ReadRecord(after[1..], n - 1) == Some((fields, t))
    ensures ReadRecord(Quote(c0) + after, n) == Some(([c0] + fields, t))
  {
    ReadCell(c0, after);
  }

  /** An exported line reads back as its cells. */
  lemma {:induction false} ReadLine(cells: seq<string>, t: string)
    requires |cells| >= 1
    requires t == [] || t[0] == '\n'
    ensures ReadRecord(Line(cells) + t, |cells|) == Some((cells, t))
    decreases |cells|
  {
    if |cells| == 1 {
      assert Line(cells) == Quote(cells[0]);
      ReadRecordOne(cells[0], t);
      assert cells == [cells[0]];
    } else {
      ReadLine(cells[1..], t);
      ReadLineCons(cells, t);
    }
  }

  /** A line of two or more cells reads back when the line of all but its
      first cell does. */
  lemma ReadLineCons(cells: seq<string>, t: string)
    requires |cells| >= 2
    requires ReadRecord(Line(cells[1..]) + t, |cells| - 1) == Some((cells[1..], t))
    ensures ReadRecord(Line(cells) + t, |cells|) == Some((cells, t))
  {
    LineSplit(cells);
    ConsRecord(cells[0], Line(cells[1..]), t, cells[1..], |cells|);
    assert [cells[0]] + cells[1..] == cells;
  }

  lemma ConsRecord(c0: string, rest: string, t: string, fields: seq<string>, n: nat)
    requires n >= 2
    requires ReadRecord(rest + t, n - 1) == Some((fields, t))
    ensures ReadRecord(Quote(c0) + "," + rest + t, n) == Some(([c0] + fields, t))
  {
    var after := "," + (rest + t);
    assert Quote(c0) + "," + rest + t == Quote(c0) + after;
    assert after[1..] == rest + t;
    ReadRecordCons(c0, after, n, fields, t);
  }

  /** The exported lines read back as the table. */
  lemma {:induction false} ReadLines(table: seq<seq<string>>, n: nat)
    requires n >= 1 && |table| >= 1
    requires forall i :: 0 <= i < |table| ==> |table[i]| == n
    ensures ReadRecords(Join(Lines(table), "\n"), n) == Some(table)
    decreases |table|
  {
    if |table| == 1 {
      assert Join(Lines(table), "\n") == Line(table[0]) + [];
      ReadLine(table[0], []);
      assert table == [table[0]];
    } else {
      var more := table[1..];
      assert Lines(table)[1..] == Lines(more);
      var rest := "\n" + Join(Lines(more), "\n");
      assert Join(Lines(table), "\n") == Line(table[0]) + rest;
      ReadLine(table[0], rest);
      assert rest[1..] == Join(Lines(more), "\n");
      ReadLines(more, n);
      assert [table[0]] + more == table;
    }
  }

  lemma {:induction false} SplitFirstAt(p: string, c: char, t: string)
    requires c !in p
    ensures SplitFirst(p + [c] + t, c) == Some((p, t))
    decreases |p|
  {
    if p == [] {
      assert p + [c] + t == [c] + t;
    } else {
      assert (p + [c] + t)[1..] == p[1..] + [c] + t;
      SplitFirstAt(p[1..], c, t);
      assert [p[0]] + p[1..] == p;
    }
  }

  lemma {:induction false} SplitOnNone(p: string, c: char)
    requires c !in p
    ensures SplitOn(p, c) == [p]
    decreases |p|
  {
    if p != [] {
      SplitOnNone(p[1..], c);
      assert [p[0]] + p[1..] == p;
    }
  }

  lemma {:induction false} SplitOnAt(p: string, c: char, t: string)
    requires c !in p
    ensures SplitOn(p + [c] + t, c) == [p] + SplitOn(t, c)
    decreases |p|
  {
    if p == [] {
      assert p + [c] + t == [c] + t;
    } else {
      assert (p + [c] + t)[1..] == p[1..] + [c] + t;
      SplitOnAt(p[1..], c, t);
      assert [p[0]] + p[1..] == p;
    }
  }

  /** A header whose labels hold no comma splits back into the labels. */
  lemma {:induction false} SplitJoin(parts: seq<string>, c: char)
    requires |parts| >= 1
    requires forall i :: 0 <= i < |parts| ==> c !in parts[i]
    ensures SplitOn(Join(parts, [c]), c) == parts
    decreases |parts|
  {
    if |parts| == 1 {
      SplitOnNone(parts[0], c);
    } else {
      SplitOnAt(parts[0], c, Join(parts[1..], [c]));
      SplitJoin(parts[1..], c);
      assert [parts[0]] + parts[1..] == parts;
    }
  }

  lemma {:induction false} NotInJoin(parts: seq<string>, sep: string, x: char)
    requires x !in sep
    requires forall i :: 0 <= i < |parts| ==> x !in parts[i]
    ensures x !in Join(parts, sep)
    decreases |parts|
  {
    if |parts| > 1 {
      NotInJoin(parts[1..], sep, x);
    }
  }

  /** The export is lossless: as long as no column label holds a comma or a
      newline, reading it back gives the labels and every cell. */
  lemma CsvRoundTrip(rows: seq<Row>, columns: seq<Column>)
    requires |columns| >= 1
    requires forall i :: 0 <= i < |columns| ==> ',' !in columns[i].labelText && '\n' !in columns[i].labelText
    ensures ParseCsv(ToCsv(rows, columns), |columns|) == Some((Labels(columns), Cells(rows, columns)))
  {
    var header := Join(Labels(columns), ",");
    var body := Join(Lines(Cells(rows, columns)), "\n");
    NotInJoin(Labels(columns), ",", '\n');
    assert ToCsv(rows, columns) == header + ['\n'] + body;
    SplitFirstAt(header, '\n', body);
    SplitJoin(Labels(columns), ',');
    if |rows| >= 1 {
      ReadLines(Cells(rows, columns), |columns|);
    }
  }
}
