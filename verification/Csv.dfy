/** The client's hand-written CSV reader: the quote-aware scanner and the pairs it yields. */
module Csv {
  import opened Text

  /** The scanner's variables. */
  datatype Scan = Scan(rows: seq<seq<string>>, row: seq<string>, field: string, inQuotes: bool)

  const START := Scan([], [], "", false)

  /** What the scanner yields for the rest of the text from the given variables. */
  function ScanRows(text: string, st: Scan): seq<seq<string>>
    decreases |text|
  {
    if text == [] then st.rows + [st.row + [st.field]]
    else
      var c := text[0];
      if st.inQuotes then
        if c == '"' then
          if |text| > 1 && text[1] == '"' then ScanRows(text[2..], st.(field := st.field + ['"']))
          else ScanRows(text[1..], st.(inQuotes := false))
        else ScanRows(text[1..], st.(field := st.field + [c]))
      else if c == '"' then ScanRows(text[1..], st.(inQuotes := true))
      else if c == ',' then ScanRows(text[1..], st.(row := st.row + [st.field], field := ""))
      else if c == '\n' then ScanRows(text[1..], Scan(st.rows + [st.row + [st.field]], [], "", false))
      else ScanRows(text[1..], st.(field := st.field + [c]))
  }

  function CrLfToLf(text: string): string {
    if text == [] then []
    else if |text| > 1 && text[0] == '\r' && text[1] == '\n' then ['\n'] + CrLfToLf(text[2..])
    else [text[0]] + CrLfToLf(text[1..])
  }

  function CrToLf(text: string): string {
    if text == [] then [] else [if text[0] == '\r' then '\n' else text[0]] + CrToLf(text[1..])
  }

  /** The two replacements made before scanning. */
  function NormalizeNewlines(text: string): string {
    CrToLf(CrLfToLf(text))
  }

  function AsciiLower(c: char): char {
    if 'A' <= c <= 'Z' then c - 'A' + 'a' else c
  }

  predicate SameIgnoringCase(a: string, b: string) {
    |a| == |b| && forall i :: 0 <= i < |a| ==> AsciiLower(a[i]) == AsciiLower(b[i])
  }

  predicate IsHeader(q: string, a: string) {
    SameIgnoringCase(q, "question") && SameIgnoringCase(a, "answer")
  }

  function Column(row: seq<string>, k: nat): string {
    Trim(JsSpace, if k < |row| then row[k] else "")
  }

  /** The pair a row stands for, if it counts. */
  function PairOfRow(row: seq<string>, index: nat): seq<(string, string)> {
    var q, a := Column(row, 0), Column(row, 1);
    if q == "" || a == "" || (index == 0 && IsHeader(q, a)) then [] else [(q, a)]
  }

  function PairsOfRows(rows: seq<seq<string>>): seq<(string, string)> {
    if rows == [] then []
    else PairsOfRows(rows[..|rows| - 1]) + PairOfRow(rows[|rows| - 1], |rows| - 1)
  }

  function ParseCsv(text: string): seq<(string, string)> {
    PairsOfRows(ScanRows(NormalizeNewlines(text), START))
  }

  method ParseCsvQuestions(text: string) returns (out: seq<(string, string)>)
    ensures out == ParseCsv(text)
  {
    hide Trim, IsHeader, NormalizeNewlines;
    var s := NormalizeNewlines(text);
    var rows: seq<seq<string>> := [];
    var row: seq<string> := [];
    var field := "";
    var inQuotes := false;
    var i := 0;
    while i < |s|
      invariant 0 <= i <= |s|
      invariant ScanRows(s[i..], Scan(rows, row, field, inQuotes)) == ScanRows(s, START)
    {
      var c := s[i];
      assert s[i..][1..] == s[i + 1..];
      if inQuotes {
        if c == '"' {
          if i + 1 < |s| && s[i + 1] == '"' {
            assert s[i..][2..] == s[i + 2..];
            field := field + ['"'];
            i := i + 2;
          } else {
            inQuotes := false;
            i := i + 1;
          }
        } else {
          field := field + [c];
          i := i + 1;
        }
      } else {
        if c == '"' {
          inQuotes := true;
        } else if c == ',' {
          row, field := row + [field], "";
        } else if c == '\n' {
          rows, row, field := rows + [row + [field]], [], "";
        } else {
          field := field + [c];
        }
        i := i + 1;
      }
    }
    row := row + [field];
    rows := rows + [row];
    out := [];
    for k := 0 to |rows|
      invariant out == PairsOfRows(rows[..k])
    {
      assert rows[..k + 1][..k] == rows[..k];
      var q, a := Column(rows[k], 0), Column(rows[k], 1);
      if q != "" && a != "" && !(k == 0 && IsHeader(q, a)) {
        out := out + [(q, a)];
      }
    }
    assert rows[..|rows|] == rows;
  }

  // --- printing rows one per line ---

  /** A field and whether it is written in quotes. */
  datatype Cell = Cell(text: string, quoted: bool)

  function Doubled(f: string): string {
    if f == [] then [] else (if f[0] == '"' then "\"\"" else [f[0]]) + Doubled(f[1..])
  }

  function PrintCell(c: Cell): string {
    if c.quoted then "\"" + Doubled(c.text) + "\"" else c.text
  }

  /** A field with a quote, comma or line feed has to be quoted; this one has no carriage return. */
  predicate Printable(c: Cell) {
    && '\r' !in c.text
    && (!c.quoted ==> '"' !in c.text && ',' !in c.text && '\n' !in c.text)
  }

  function PrintRow(cells: seq<Cell>): string
    requires cells != []
  {
    if |cells| == 1 then PrintCell(cells[0]) else PrintCell(cells[0]) + "," + PrintRow(cells[1..])
  }

  predicate PrintableRows(rows: seq<seq<Cell>>) {
    forall i :: 0 <= i < |rows| ==> rows[i] != [] && forall k :: 0 <= k < |rows[i]| ==> Printable(rows[i][k])
  }

  function PrintRows(rows: seq<seq<Cell>>): string
    requires rows != [] && PrintableRows(rows)
  {
    if |rows| == 1 then PrintRow(rows[0]) else PrintRow(rows[0]) + "\n" + PrintRows(rows[1..])
  }

  function Texts(cells: seq<Cell>): (r: seq<string>)
    ensures |r| == |cells| && forall k :: 0 <= k < |r| ==> r[k] == cells[k].text
  {
    seq(|cells|, k requires 0 <= k < |cells| => cells[k].text)
  }

  function RowTexts(rows: seq<seq<Cell>>): (r: seq<seq<string>>)
    ensures |r| == |rows| && forall k :: 0 <= k < |r| ==> r[k] == Texts(rows[k])
  {
    seq(|rows|, k requires 0 <= k < |rows| => Texts(rows[k]))
  }

  // --- scanning what was printed ---

  /** What may follow a printed field. */
  predicate Boundary(rest: string) {
    rest == [] || rest[0] == ',' || rest[0] == '\n'
  }

  lemma {:induction false} ScanQuoted(f: string, rest: string, st: Scan)
    requires st.inQuotes && Boundary(rest)
    ensures ScanRows(Doubled(f) + "\"" + rest, st) == ScanRows(rest, st.(field := st.field + f, inQuotes := false))
    decreases |f|
  {
    var text := Doubled(f) + "\"" + rest;
    if f == [] {
      assert text == "\"" + rest && text[1..] == rest;
      assert st.field + f == st.field;
    } else {
      var more := Doubled(f[1..]) + "\"" + rest;
      var grown := st.(field := st.field + [f[0]]);
      ScanQuoted(f[1..], rest, grown);
      assert st.field + [f[0]] + f[1..] == st.field + f;
      if f[0] == '"' {
        assert text == "\"\"" + more && text[2..] == more;
      } else {
        assert text == [f[0]] + more && text[1..] == more;
      }
    }
  }

  lemma {:induction false} ScanPlain(f: string, rest: string, st: Scan)
    requires !st.inQuotes && '"' !in f && ',' !in f && '\n' !in f
    ensures ScanRows(f + rest, st) == ScanRows(rest, st.(field := st.field + f))
    decreases |f|
  {
    if f == [] {
      assert f + rest == rest && st.field + f == st.field;
    } else {
      ScanPlain(f[1..], rest, st.(field := st.field + [f[0]]));
      assert (f + rest)[1..] == f[1..] + rest;
      assert st.field + [f[0]] + f[1..] == st.field + f;
    }
  }

  lemma ScanCell(c: Cell, rest: string, st: Scan)
    requires Printable(c) && Boundary(rest) && !st.inQuotes && st.field == ""
    ensures ScanRows(PrintCell(c) + rest, st) == ScanRows(rest, st.(field := c.text))
  {
    assert "" + c.text == c.text;
    if c.quoted {
      var text := PrintCell(c) + rest;
      assert text == "\"" + (Doubled(c.text) + "\"" + rest);
      assert text[1..] == Doubled(c.text) + "\"" + rest;
      ScanQuoted(c.text, rest, st.(inQuotes := true));
    } else {
      ScanPlain(c.text, rest, st);
    }
  }

  lemma ScanComma(rest: string, st: Scan)
    requires !st.inQuotes
    ensures ScanRows("," + rest, st) == ScanRows(rest, st.(row := st.row + [st.field], field := ""))
  {
    assert ("," + rest)[1..] == rest;
  }

  /** The scanner at the end of a row whose last field is still open. */
  function AtRowEnd(st: Scan, cells: seq<Cell>): Scan
    requires cells != []
  {
    st.(row := st.row + Texts(cells)[..|cells| - 1], field := cells[|cells| - 1].text)
  }

  lemma {:induction false} ScanRow(cells: seq<Cell>, rest: string, st: Scan)
    requires cells != [] && (forall k :: 0 <= k < |cells| ==> Printable(cells[k]))
    requires (rest == [] || rest[0] == '\n') && !st.inQuotes && st.field == ""
    ensures ScanRows(PrintRow(cells) + rest, st) == ScanRows(rest, AtRowEnd(st, cells))
    decreases |cells|
  {
    hide Printable, PrintCell, ScanRows;
    if |cells| == 1 {
      ScanCell(cells[0], rest, st);
      assert st.row + Texts(cells)[..0] == st.row;
    } else {
      var more := PrintRow(cells[1..]) + rest;
      var next := st.(row := st.row + [cells[0].text]);
      assert PrintRow(cells) + rest == PrintCell(cells[0]) + ("," + more);
      ScanCell(cells[0], "," + more, st);
      ScanComma(more, st.(field := cells[0].text));
      ScanRow(cells[1..], rest, next);
      assert next.row + Texts(cells[1..])[..|cells| - 2] == st.row + Texts(cells)[..|cells| - 1];
    }
  }

  lemma {:induction false} ScanAll(rows: seq<seq<Cell>>, done: seq<seq<string>>)
    requires rows != [] && PrintableRows(rows)
    ensures ScanRows(PrintRows(rows), Scan(done, [], "", false)) == done + RowTexts(rows)
    decreases |rows|
  {
    hide Printable, PrintRow, PrintCell;
    var st := Scan(done, [], "", false);
    var n := |rows[0]|;
    assert Texts(rows[0])[..n - 1] + [rows[0][n - 1].text] == Texts(rows[0]);
    if |rows| == 1 {
      ScanRow(rows[0], [], st);
      assert PrintRow(rows[0]) + [] == PrintRow(rows[0]);
      assert RowTexts(rows) == [Texts(rows[0])];
      assert [] + Texts(rows[0])[..n - 1] == Texts(rows[0])[..n - 1];
    } else {
      var more := PrintRows(rows[1..]);
      assert PrintRows(rows) == PrintRow(rows[0]) + ("\n" + more);
      ScanRow(rows[0], "\n" + more, st);
      assert ("\n" + more)[1..] == more;
      assert [] + Texts(rows[0])[..n - 1] == Texts(rows[0])[..n - 1];
      ScanAll(rows[1..], done + [Texts(rows[0])]);
      assert done + [Texts(rows[0])] + RowTexts(rows[1..]) == done + RowTexts(rows);
    }
  }

  /** Rows without carriage returns, one per line: printing and scanning returns them. */
  lemma ScanPrinted(rows: seq<seq<Cell>>)
    requires rows != [] && PrintableRows(rows)
    ensures ScanRows(PrintRows(rows), START) == RowTexts(rows)
  {
    hide ScanRows, PrintRows, Printable;
    ScanAll(rows, []);
    assert [] + RowTexts(rows) == RowTexts(rows);
  }

  // --- printing as section 2 of RFC 4180 says, with any line breaks ---

  /** Both replacements in one pass. */
  function Normalize(text: string): string {
    if text == [] then []
    else if text[0] == '\r' then ['\n'] + Normalize(if |text| > 1 && text[1] == '\n' then text[2..] else text[1..])
    else [text[0]] + Normalize(text[1..])
  }

  lemma {:induction false} NormalizeIsBoth(text: string)
    ensures NormalizeNewlines(text) == Normalize(text)
    decreases |text|
  {
    if text != [] {
      if |text| > 1 && text[0] == '\r' && text[1] == '\n' {
        NormalizeIsBoth(text[2..]);
        assert (['\n'] + CrLfToLf(text[2..]))[1..] == CrLfToLf(text[2..]);
      } else {
        NormalizeIsBoth(text[1..]);
        assert ([text[0]] + CrLfToLf(text[1..]))[1..] == CrLfToLf(text[1..]);
      }
    }
  }

  lemma {:induction false} NormalizeKeeps(text: string)
    requires '\r' !in text
    ensures Normalize(text) == text
  {
    if text != [] {
      NormalizeKeeps(text[1..]);
    }
  }

  lemma {:induction false} NormalizeHasNoReturns(text: string)
    ensures '\r' !in Normalize(text)
    decreases |text|
  {
    if text != [] {
      NormalizeHasNoReturns(text[1..]);
      if |text| > 1 {
        NormalizeHasNoReturns(text[2..]);
      }
    }
  }

  /** b does not complete a line break that a begins. */
  predicate Separate(a: string, b: string) {
    a == [] || a[|a| - 1] != '\r' || b == [] || b[0] != '\n'
  }

  /** One character, or one two-character line break, is normalized at a time. */
  lemma NormalizeOne(text: string, n: nat)
    requires text != [] && n == if |text| > 1 && text[0] == '\r' && text[1] == '\n' then 2 else 1
    ensures Normalize(text) == [if text[0] == '\r' then '\n' else text[0]] + Normalize(text[n..])
  {
  }

  lemma FirstBreak(a: string, b: string) returns (n: nat)
    requires Separate(a, b) && a != []
    ensures 1 <= n <= |a| && (a + b)[0] == a[0] && (a + b)[n..] == a[n..] + b && Separate(a[n..], b)
    ensures n == if |a| > 1 && a[0] == '\r' && a[1] == '\n' then 2 else 1
    ensures n == if |a + b| > 1 && (a + b)[0] == '\r' && (a + b)[1] == '\n' then 2 else 1
  {
    n := if |a| > 1 && a[0] == '\r' && a[1] == '\n' then 2 else 1;
    assert |a| == 1 && b != [] ==> (a + b)[1] == b[0];
  }

  lemma {:induction false} NormalizeAppend(a: string, b: string)
    requires Separate(a, b)
    ensures Normalize(a + b) == Normalize(a) + Normalize(b)
    decreases |a|
  {
    hide Normalize;
    if a == [] {
      NormalizeKeeps([]);
      assert a + b == b;
    } else {
      var n := FirstBreak(a, b);
      NormalizeOne(a, n);
      NormalizeOne(a + b, n);
      NormalizeAppend(a[n..], b);
    }
  }

  lemma {:induction false} NormalizeDoubled(f: string)
    ensures Normalize(Doubled(f)) == Doubled(Normalize(f))
    decreases |f|
  {
    if f != [] {
      var d := Doubled(f[1..]);
      if f[0] == '\r' {
        assert Doubled(f) == ['\r'] + d && (['\r'] + d)[1..] == d;
        if |f| > 1 && f[1] == '\n' {
          assert d == ['\n'] + Doubled(f[2..]) && (['\r'] + d)[2..] == Doubled(f[2..]);
          NormalizeDoubled(f[2..]);
          assert (['\n'] + Normalize(f[2..]))[1..] == Normalize(f[2..]);
        } else {
          NormalizeDoubled(f[1..]);
          assert (['\n'] + Normalize(f[1..]))[1..] == Normalize(f[1..]);
        }
      } else {
        NormalizeDoubled(f[1..]);
        var first := if f[0] == '"' then "\"\"" else [f[0]];
        assert Doubled(f) == first + d;
        NormalizeKeeps(first);
        NormalizeAppend(first, d);
        assert ([f[0]] + Normalize(f[1..]))[1..] == Normalize(f[1..]);
      }
    }
  }

  /** A field with a quote, comma or any line break has to be quoted; any field may be. */
  predicate Writable(c: Cell) {
    !c.quoted ==> '"' !in c.text && ',' !in c.text && '\n' !in c.text && '\r' !in c.text
  }

  predicate WritableRow(cells: seq<Cell>) {
    cells != [] && forall k :: 0 <= k < |cells| ==> Writable(cells[k])
  }

  function NormalCell(c: Cell): Cell {
    Cell(Normalize(c.text), c.quoted)
  }

  function NormalRow(cells: seq<Cell>): (r: seq<Cell>)
    ensures |r| == |cells| && forall k :: 0 <= k < |r| ==> r[k] == NormalCell(cells[k])
  {
    seq(|cells|, k requires 0 <= k < |cells| => NormalCell(cells[k]))
  }

  function NormalRows(rows: seq<seq<Cell>>): (r: seq<seq<Cell>>)
    ensures |r| == |rows| && forall k :: 0 <= k < |r| ==> r[k] == NormalRow(rows[k])
  {
    seq(|rows|, k requires 0 <= k < |rows| => NormalRow(rows[k]))
  }

  /** No printed field or row ends in half a line break. */
  predicate EndsWhole(s: string) {
    s == [] || s[|s| - 1] != '\r'
  }

  lemma CellNormalizes(c: Cell)
    requires Writable(c)
    ensures Normalize(PrintCell(c)) == PrintCell(NormalCell(c)) && EndsWhole(PrintCell(c)) && Printable(NormalCell(c))
  {
    hide Normalize, Doubled;
    NormalizeHasNoReturns(c.text);
    if c.quoted {
      NormalizeDoubled(c.text);
      NormalizeKeeps("\"");
      NormalizeAppend(Doubled(c.text), "\"");
      NormalizeAppend("\"", Doubled(c.text) + "\"");
      assert PrintCell(c) == "\"" + (Doubled(c.text) + "\"");
      assert PrintCell(NormalCell(c)) == "\"" + (Doubled(Normalize(c.text)) + "\"");
    } else {
      NormalizeKeeps(c.text);
    }
  }

  lemma {:induction false} RowNormalizes(cells: seq<Cell>)
    requires WritableRow(cells)
    ensures Normalize(PrintRow(cells)) == PrintRow(NormalRow(cells)) && EndsWhole(PrintRow(cells))
    ensures forall k :: 0 <= k < |cells| ==> Printable(NormalRow(cells)[k])
  {
    hide Normalize, PrintCell, Printable, Writable;
    CellNormalizes(cells[0]);
    if |cells| > 1 {
      var rest := cells[1..];
      RowNormalizes(rest);
      assert NormalRow(cells)[1..] == NormalRow(rest);
      assert PrintRow(cells) == PrintCell(cells[0]) + ("," + PrintRow(rest));
      NormalizeKeeps(",");
      NormalizeAppend(",", PrintRow(rest));
      NormalizeAppend(PrintCell(cells[0]), "," + PrintRow(rest));
      assert forall k :: 0 < k < |cells| ==> NormalRow(cells)[k] == NormalRow(rest)[k - 1];
    }
  }

  /** The line breaks that reading accepts. */
  predicate IsBreak(e: string) {
    e == "\n" || e == "\r" || e == "\r\n"
  }

  /** A row that prints as nothing: one empty field, not quoted. */
  predicate Blank(cells: seq<Cell>) {
    cells == [Cell("", false)]
  }

  /** Rows with the line breaks between them. */
  ghost predicate Sheet(rows: seq<seq<Cell>>, ends: seq<string>) {
    && rows != [] && |ends| == |rows| - 1
    && (forall i :: 0 <= i < |rows| ==> WritableRow(rows[i]))
    && (forall i :: 0 <= i < |ends| ==> IsBreak(ends[i]))
    // a lone carriage return and the line feed after a blank row would read as one break
    && (forall i :: 0 <= i < |ends| - 1 && ends[i] == "\r" && Blank(rows[i + 1]) ==> ends[i + 1] == "\r")
  }

  function PrintSheet(rows: seq<seq<Cell>>, ends: seq<string>): string
    requires rows != [] && |ends| == |rows| - 1 && forall i :: 0 <= i < |rows| ==> rows[i] != []
  {
    if |rows| == 1 then PrintRow(rows[0]) else PrintRow(rows[0]) + ends[0] + PrintSheet(rows[1..], ends[1..])
  }

  lemma RowStart(cells: seq<Cell>)
    requires WritableRow(cells)
    ensures PrintRow(cells) == "" <==> Blank(cells)
    ensures PrintRow(cells) != "" ==> PrintRow(cells)[0] != '\n'
  {
    if !cells[0].quoted && cells[0].text != "" {
      assert cells[0].text[0] in cells[0].text;
    }
  }

  lemma BreakNormalizes(e: string, text: string)
    requires IsBreak(e) && Separate(e, text)
    ensures Normalize(e + text) == "\n" + Normalize(text)
  {
    if e == "\r\n" {
      assert (e + text)[2..] == text;
    } else {
      assert (e + text)[1..] == text;
    }
  }

  lemma RowIsThere(cells: seq<Cell>)
    requires WritableRow(cells)
    ensures cells != []
  {
  }

  lemma SheetStart(rows: seq<seq<Cell>>, ends: seq<string>)
    requires Sheet(rows, ends) && |rows| > 1
    ensures (forall i :: 0 <= i < |rows[1..]| ==> rows[1..][i] != [])
    ensures Separate(ends[0], PrintSheet(rows[1..], ends[1..]))
  {
    hide PrintRow, Writable;
    RowStart(rows[1]);
    if ends[0] == "\r" && |rows| > 2 {
      assert PrintSheet(rows[1..], ends[1..]) ==
        PrintRow(rows[1]) + ends[1] + PrintSheet(rows[1..][1..], ends[1..][1..]);
    }
  }

  lemma {:induction false} SheetNormalizes(rows: seq<seq<Cell>>, ends: seq<string>)
    requires Sheet(rows, ends)
    ensures PrintableRows(NormalRows(rows)) && Normalize(PrintSheet(rows, ends)) == PrintRows(NormalRows(rows))
    decreases |rows|
  {
    hide Normalize, PrintRow, WritableRow, Printable;
    forall i | 0 <= i < |rows| ensures rows[i] != [] && NormalRow(rows[i]) != [] {
      RowIsThere(rows[i]);
    }
    forall i, k | 0 <= i < |rows| && 0 <= k < |rows[i]| ensures Printable(NormalRow(rows[i])[k]) {
      RowNormalizes(rows[i]);
    }
    RowNormalizes(rows[0]);
    if |rows| > 1 {
      var rest := PrintSheet(rows[1..], ends[1..]);
      SheetNormalizes(rows[1..], ends[1..]);
      SheetStart(rows, ends);
      assert NormalRows(rows)[1..] == NormalRows(rows[1..]);
      BreakNormalizes(ends[0], rest);
      NormalizeAppend(PrintRow(rows[0]), ends[0] + rest);
      assert PrintSheet(rows, ends) == PrintRow(rows[0]) + (ends[0] + rest);
      assert PrintRows(NormalRows(rows)) ==
        PrintRow(NormalRow(rows[0])) + ("\n" + PrintRows(NormalRows(rows[1..])));
    }
  }

  lemma SheetHasRows(rows: seq<seq<Cell>>, ends: seq<string>)
    requires Sheet(rows, ends)
    ensures forall i :: 0 <= i < |rows| ==> rows[i] != []
  {
  }

  /** Printing any rows, with any of the three line breaks after each, and scanning returns
      the same rows; only line breaks inside fields come back as line feeds. */
  lemma CsvRoundTrip(rows: seq<seq<Cell>>, ends: seq<string>)
    requires Sheet(rows, ends)
    ensures ScanRows(NormalizeNewlines(PrintSheet(rows, ends)), START) == RowTexts(NormalRows(rows))
  {
    hide Normalize, NormalizeNewlines, ScanRows, PrintRows, PrintSheet, WritableRow;
    SheetHasRows(rows, ends);
    NormalizeIsBoth(PrintSheet(rows, ends));
    SheetNormalizes(rows, ends);
    ScanPrinted(NormalRows(rows));
  }

  /** A final line break is a blank last row. */
  lemma {:induction false} FinalBreak(rows: seq<seq<Cell>>, ends: seq<string>, e: string)
    requires rows != [] && |ends| == |rows| - 1 && forall i :: 0 <= i < |rows| ==> rows[i] != []
    ensures PrintSheet(rows + [[Cell("", false)]], ends + [e]) == PrintSheet(rows, ends) + e
    decreases |rows|
  {
    hide PrintRow;
    var last := [Cell("", false)];
    assert PrintRow(last) == "" by { RowStart(last); }
    if |rows| == 1 {
      assert (rows + [last])[1..] == [last] && (ends + [e])[1..] == [];
    } else {
      FinalBreak(rows[1..], ends[1..], e);
      assert (rows + [last])[1..] == rows[1..] + [last] && (ends + [e])[1..] == ends[1..] + [e];
    }
  }

  // --- pairs ---

  /** A question and an answer as a two-column row, written with or without quotes. */
  predicate RowOf(row: seq<Cell>, pair: (string, string)) {
    |row| == 2 && row[0].text == pair.0 && row[1].text == pair.1
  }

  predicate Trimmed(s: string) {
    s != "" && Trim(JsSpace, s) == s
  }

  lemma PairComesBack(row: seq<string>, pair: (string, string), index: nat)
    requires |row| == 2 && row[0] == pair.0 && row[1] == pair.1 && Trimmed(pair.0) && Trimmed(pair.1)
    ensures PairOfRow(row, index) == if index == 0 && IsHeader(pair.0, pair.1) then [] else [pair]
  {
    hide Trim, IsHeader;
  }

  lemma {:induction false} PairsComeBack(rows: seq<seq<string>>, pairs: seq<(string, string)>)
    requires |rows| == |pairs| > 0
    requires forall i :: 0 <= i < |rows| ==> |rows[i]| == 2 && rows[i][0] == pairs[i].0 && rows[i][1] == pairs[i].1
    requires forall i :: 0 <= i < |rows| ==> Trimmed(pairs[i].0) && Trimmed(pairs[i].1)
    ensures PairsOfRows(rows) == if IsHeader(pairs[0].0, pairs[0].1) then pairs[1..] else pairs
  {
    hide Trimmed, IsHeader, PairOfRow;
    var n := |rows| - 1;
    PairComesBack(rows[n], pairs[n], n);
    if n == 0 {
      assert rows[..0] == [];
    } else {
      var before := pairs[..n];
      PairsComeBack(rows[..n], before);
      assert pairs == before + [pairs[n]] && before[0] == pairs[0];
      assert (before + [pairs[n]])[1..] == before[1..] + [pairs[n]];
    }
  }

  lemma BlankRowIsNoPair(rows: seq<seq<string>>)
    ensures PairsOfRows(rows + [[""]]) == PairsOfRows(rows)
  {
    var all := rows + [[""]];
    assert all[..|all| - 1] == rows && Column([""], 0) == "";
  }

  lemma BlankTexts(blank: seq<Cell>)
    requires blank == [Cell("", false)]
    ensures Texts(NormalRow(blank)) == [""]
  {
  }

  /** Pairs written as two-column rows, with any of the three line breaks after each and with
      or without one after the last, come back trimmed and in order; only a first pair that
      is the header is dropped. */
  lemma CsvPairsRoundTrip(rows: seq<seq<Cell>>, ends: seq<string>, pairs: seq<(string, string)>, last: string)
    requires Sheet(rows, ends) && |rows| == |pairs|
    requires last == "" || (IsBreak(last) && Sheet(rows + [[Cell("", false)]], ends + [last]))
    requires forall i :: 0 <= i < |rows| ==>
      RowOf(NormalRow(rows[i]), pairs[i]) && Trimmed(pairs[i].0) && Trimmed(pairs[i].1)
    ensures ParseCsv(PrintSheet(rows, ends) + last) == if IsHeader(pairs[0].0, pairs[0].1) then pairs[1..] else pairs
  {
    hide NormalizeNewlines, ScanRows, PrintSheet, Trimmed, IsHeader, WritableRow, PairOfRow, PairsOfRows;
    SheetHasRows(rows, ends);
    PairsComeBack(RowTexts(NormalRows(rows)), pairs);
    if last == "" {
      CsvRoundTrip(rows, ends);
      assert PrintSheet(rows, ends) + last == PrintSheet(rows, ends);
    } else {
      var blank := [Cell("", false)];
      FinalBreak(rows, ends, last);
      CsvRoundTrip(rows + [blank], ends + [last]);
      BlankTexts(blank);
      assert RowTexts(NormalRows(rows + [blank])) == RowTexts(NormalRows(rows)) + [[""]];
      BlankRowIsNoPair(RowTexts(NormalRows(rows)));
    }
  }

  /** The header is "question" and "answer", each letter in either case. */
  lemma HeaderExactly(q: string, a: string)
    ensures IsHeader(q, a) <==>
      && |q| == 8 && (forall i :: 0 <= i < 8 ==> q[i] == "question"[i] || q[i] == "QUESTION"[i])
      && |a| == 6 && (forall i :: 0 <= i < 6 ==> a[i] == "answer"[i] || a[i] == "ANSWER"[i])
  {
    assert forall i :: 0 <= i < 8 ==> "question"[i] == "QUESTION"[i] - 'A' + 'a';
    assert forall i :: 0 <= i < 6 ==> "answer"[i] == "ANSWER"[i] - 'A' + 'a';
  }
}
