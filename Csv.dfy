/** The CSV codec: `toCsvValue` and the row encoding of `exportCSV` on one
    side, the hand-written `parseCSV` state machine on the other. */
module Csv {
  import opened Options
  import opened Text
  import opened Records
  import opened Normalize

  /** `s.replaceAll('"', '""')`. */
  function DoubleQuotes(s: string): (r: string)
    ensures |r| >= |s|
    ensures '"' !in s ==> r == s
  {
    if s == [] then []
    else (if s[0] == '"' then "\"\"" else [s[0]]) + DoubleQuotes(s[1..])
  }

  /** `toCsvValue`: the trimmed text between double quotes, its own quotes
      doubled. */
  function ToCsvValue(v: string): (r: string)
    ensures |r| >= 2 && r[0] == '"' && r[|r| - 1] == '"'
  {
    "\"" + DoubleQuotes(Trim(v)) + "\""
  }

  /** `parts.join(sep)`. */
  function Join(parts: seq<string>, sep: char): (r: string)
    ensures parts == [] ==> r == []
    ensures |parts| == 1 ==> r == parts[0]
  {
    if parts == [] then []
    else if |parts| == 1 then parts[0]
    else parts[0] + [sep] + Join(parts[1..], sep)
  }

  /** `fs.map(toCsvValue)`. */
  function EncodeCells(fs: seq<string>): (r: seq<string>)
    ensures |r| == |fs|
    ensures forall k :: 0 <= k < |fs| ==> r[k] == ToCsvValue(fs[k])
  {
    seq(|fs|, k requires 0 <= k < |fs| => ToCsvValue(fs[k]))
  }

  /** The encoded fields of one row, joined by commas. */
  function EncodeRow(fs: seq<string>): string {
    Join(EncodeCells(fs), ',')
  }

  /** `t.map(EncodeRow)`. */
  function EncodeRows(t: seq<seq<string>>): (r: seq<string>)
    ensures |r| == |t|
    ensures forall k :: 0 <= k < |t| ==> r[k] == EncodeRow(t[k])
  {
    seq(|t|, k requires 0 <= k < |t| => EncodeRow(t[k]))
  }

  /** Encoded rows joined by line feeds. */
  function EncodeTable(t: seq<seq<string>>): string {
    Join(EncodeRows(t), '\n')
  }

  /** `row.every(c => safeStr(c) === "")`. */
  predicate AllBlank(row: seq<string>) {
    forall k :: 0 <= k < |row| ==> Trim(row[k]) == ""
  }

  predicate NoBlankRows(rows: seq<seq<string>>) {
    forall k :: 0 <= k < |rows| ==> !AllBlank(rows[k])
  }

  /** The variables of `parseCSV`: the finished `rows`, the current `row`,
      the current cell `cur` and whether a quoted section is open. */
  datatype Scanner = Scanner(rows: seq<seq<string>>, row: seq<string>, cur: string, inQuotes: bool)

  const Start := Scanner([], [], "", false)

  /** The end of a line (and of the text): the cell goes into the row, and
      the row into `rows` unless all its cells are blank. */
  function EndRow(st: Scanner): (r: Scanner)
    ensures NoBlankRows(st.rows) ==> NoBlankRows(r.rows)
    ensures r.row == [] && r.cur == "" && r.inQuotes == st.inQuotes
    ensures r.rows == st.rows || r.rows == st.rows + [st.row + [st.cur]]
  {
    var row := st.row + [st.cur];
    Scanner(if AllBlank(row) then st.rows else st.rows + [row], [], "", st.inQuotes)
  }

  /** The scanner after reading all of `s`, one character (two for a doubled
      quote inside quotes) at a time. */
  function Run(s: string, st: Scanner): (r: Scanner)
    ensures NoBlankRows(st.rows) ==> NoBlankRows(r.rows)
    decreases |s|
  {
    if s == [] then st
    else
      var ch := s[0];
      if st.inQuotes then
        if ch == '"' && |s| > 1 && s[1] == '"' then Run(s[2..], st.(cur := st.cur + "\""))
        else if ch == '"' then Run(s[1..], st.(inQuotes := false))
        else Run(s[1..], st.(cur := st.cur + [ch]))
      else if ch == '"' then Run(s[1..], st.(inQuotes := true))
      else if ch == ',' then Run(s[1..], st.(row := st.row + [st.cur], cur := ""))
      else if ch == '\n' then Run(s[1..], EndRow(st))
      else if ch == '\r' then Run(s[1..], st)
      else Run(s[1..], st.(cur := st.cur + [ch]))
  }

  /** What `parseCSV(text)` returns. */
  function Parse(text: string): (rows: seq<seq<string>>)
    ensures NoBlankRows(rows)
  {
    EndRow(Run(text, Start)).rows
  }

  /** `parseCSV`: the character loop of the application, proved to compute
      `Parse`. */
  method ParseCSV(text: string) returns (rows: seq<seq<string>>)
    ensures rows == Parse(text)
    ensures NoBlankRows(rows)
  {
    rows := [];
    var row: seq<string> := [];
    var cur: string := "";
    var inQuotes := false;
    var i := 0;
    while i < |text|
      invariant i <= |text|
      invariant Run(text[i..], Scanner(rows, row, cur, inQuotes)) == Run(text, Start)
      decreases |text| - i
    {
      var ch := text[i];
      assert text[i..][1..] == text[i + 1..];
      if inQuotes {
        if ch == '"' && i + 1 < |text| && text[i + 1] == '"' {
          assert text[i..][2..] == text[i + 2..];
          cur := cur + "\"";
          i := i + 1;
        } else if ch == '"' {
          inQuotes := false;
        } else {
          cur := cur + [ch];
        }
      } else if ch == '"' {
        inQuotes := true;
      } else if ch == ',' {
        row := row + [cur];
        cur := "";
      } else if ch == '\n' {
        row := row + [cur];
        cur := "";
        if !AllBlank(row) {
          rows := rows + [row];
        }
        row := [];
      } else if ch == '\r' {
      } else {
        cur := cur + [ch];
      }
      i := i + 1;
    }
    assert text[i..] == [];
    row := row + [cur];
    if !AllBlank(row) {
      rows := rows + [row];
    }
  }

  /** The cells of a row as parsed back: trimmed. */
  function Trims(fs: seq<string>): (r: seq<string>)
    ensures |r| == |fs|
    ensures forall k :: 0 <= k < |fs| ==> r[k] == Trim(fs[k])
  {
    seq(|fs|, k requires 0 <= k < |fs| => Trim(fs[k]))
  }

  /** The rows a table should read back as: trimmed, without the rows whose
      cells are all blank. */
  function Kept(t: seq<seq<string>>): (r: seq<seq<string>>)
    ensures |r| <= |t|
    ensures NoBlankRows(r)
  {
    if t == [] then []
    else
      TrimsBlank(t[0]);
      (if AllBlank(t[0]) then [] else [Trims(t[0])]) + Kept(t[1..])
  }

  lemma TrimsBlank(fs: seq<string>)
    ensures AllBlank(Trims(fs)) == AllBlank(fs)
  {
    forall k | 0 <= k < |fs| {
      TrimIdempotent(fs[k]);
    }
  }

  /** Inside quotes, a doubled quote stands for one quote. */
  lemma RunDoubled(rest: string, st: Scanner)
    requires st.inQuotes
    ensures Run("\"\"" + rest, st) == Run(rest, st.(cur := st.cur + "\""))
  {
    assert ("\"\"" + rest)[2..] == rest;
  }

  /** Inside quotes, a quote not followed by another closes the section. */
  lemma RunClose(rest: string, st: Scanner)
    requires st.inQuotes && (rest == [] || rest[0] != '"')
    ensures Run("\"" + rest, st) == Run(rest, st.(inQuotes := false))
  {
    assert ("\"" + rest)[1..] == rest;
  }

  /** Inside quotes, any other character joins the cell. */
  lemma RunInside(c: char, rest: string, st: Scanner)
    requires st.inQuotes && c != '"'
    ensures Run([c] + rest, st) == Run(rest, st.(cur := st.cur + [c]))
  {
    assert ([c] + rest)[1..] == rest;
  }

  /** Inside quotes, the doubled text of `v` and the closing quote read back
      as `v`, provided what follows is not a quote. */
  lemma {:induction false} QuotedTail(v: string, rest: string, st: Scanner)
    requires st.inQuotes && (rest == [] || rest[0] != '"')
    ensures Run(DoubleQuotes(v) + "\"" + rest, st) == Run(rest, st.(cur := st.cur + v, inQuotes := false))
    decreases |v|
  {
    if v == [] {
      assert DoubleQuotes(v) + "\"" + rest == "\"" + rest;
      RunClose(rest, st);
      assert st.cur + v == st.cur;
    } else {
      var piece := if v[0] == '"' then "\"\"" else [v[0]];
      var more := DoubleQuotes(v[1..]) + "\"" + rest;
      assert DoubleQuotes(v) == piece + DoubleQuotes(v[1..]);
      Assoc3(piece, DoubleQuotes(v[1..]), "\"", rest);
      var st1 := st.(cur := st.cur + [v[0]]);
      if v[0] == '"' {
        RunDoubled(more, st);
      } else {
        RunInside(v[0], more, st);
      }
      QuotedTail(v[1..], rest, st1);
      Assoc2(st.cur, [v[0]], v[1..]);
      assert [v[0]] + v[1..] == v;
    }
  }

  /** Outside quotes, a quote opens a quoted section. */
  lemma RunOpen(rest: string, st: Scanner)
    requires !st.inQuotes
    ensures Run("\"" + rest, st) == Run(rest, st.(inQuotes := true))
  {
    assert ("\"" + rest)[1..] == rest;
  }

  /** Outside quotes, a comma ends the cell. */
  lemma RunComma(rest: string, st: Scanner)
    requires !st.inQuotes
    ensures Run("," + rest, st) == Run(rest, st.(row := st.row + [st.cur], cur := ""))
  {
    assert ("," + rest)[1..] == rest;
  }

  /** Outside quotes, a line feed ends the row. */
  lemma RunNewline(rest: string, st: Scanner)
    requires !st.inQuotes
    ensures Run("\n" + rest, st) == Run(rest, EndRow(st))
  {
    assert ("\n" + rest)[1..] == rest;
  }

  lemma Assoc3(a: string, b: string, c: string, d: string)
    ensures a + b + c + d == a + (b + c + d)
  {
  }

  /** One encoded field reads back as its trimmed text. */
  lemma FieldScan(v: string, rest: string, st: Scanner)
    requires !st.inQuotes && (rest == [] || rest[0] != '"')
    ensures Run(ToCsvValue(v) + rest, st) == Run(rest, st.(cur := st.cur + Trim(v)))
  {
    var u := Trim(v);
    var body := DoubleQuotes(u) + "\"" + rest;
    Assoc3("\"", DoubleQuotes(u), "\"", rest);
    RunOpen(body, st);
    QuotedTail(u, rest, st.(inQuotes := true));
  }

  /** The scanner once the cells `cells` of a row have been read after the
      cells `done` of the same row. */
  function Pending(rows: seq<seq<string>>, done: seq<string>, cells: seq<string>): Scanner {
    if cells == [] then Scanner(rows, done, "", false)
    else Scanner(rows, done + cells[..|cells| - 1], cells[|cells| - 1], false)
  }

  lemma PendingCons(rows: seq<seq<string>>, done: seq<string>, cells: seq<string>)
    requires |cells| > 1
    ensures Pending(rows, done + [cells[0]], cells[1..]) == Pending(rows, done, cells)
  {
    assert done + [cells[0]] + cells[1..][..|cells| - 2] == done + cells[..|cells| - 1];
  }

  lemma JoinCons(parts: seq<string>, sep: char)
    requires |parts| > 1
    ensures Join(parts, sep) == parts[0] + [sep] + Join(parts[1..], sep)
  {
  }

  lemma EncodeCellsTail(fs: seq<string>)
    requires fs != []
    ensures EncodeCells(fs)[1..] == EncodeCells(fs[1..])
  {
  }

  lemma TrimsTail(fs: seq<string>)
    requires fs != []
    ensures Trims(fs)[1..] == Trims(fs[1..])
  {
  }

  lemma EncodeRowsTail(t: seq<seq<string>>)
    requires t != []
    ensures EncodeRows(t)[1..] == EncodeRows(t[1..])
  {
  }

  lemma Assoc2<T>(a: seq<T>, b: seq<T>, c: seq<T>)
    ensures a + b + c == a + (b + c)
  {
  }

  /** An encoded row reads back as its trimmed cells. */
  lemma {:induction false} RowScan(fs: seq<string>, rest: string, rows: seq<seq<string>>, done: seq<string>)
    requires rest == [] || rest[0] == '\n'
    ensures Run(EncodeRow(fs) + rest, Scanner(rows, done, "", false)) == Run(rest, Pending(rows, done, Trims(fs)))
    decreases |fs|
  {
    if |fs| == 1 {
      LastFieldScan(fs, rest, rows, done);
    } else if |fs| > 1 {
      var st := Scanner(rows, done, "", false);
      var tail := EncodeRow(fs[1..]) + rest;
      RowText(fs, rest);
      FieldCommaScan(fs[0], tail, st);
      RowScan(fs[1..], rest, rows, done + [Trim(fs[0])]);
      TrimsTail(fs);
      PendingCons(rows, done, Trims(fs));
    } else {
      assert EncodeRow(fs) + rest == rest;
    }
  }

  lemma LastFieldScan(fs: seq<string>, rest: string, rows: seq<seq<string>>, done: seq<string>)
    requires |fs| == 1 && (rest == [] || rest[0] == '\n')
    ensures Run(EncodeRow(fs) + rest, Scanner(rows, done, "", false)) == Run(rest, Pending(rows, done, Trims(fs)))
  {
    var st := Scanner(rows, done, "", false);
    assert EncodeRow(fs) == ToCsvValue(fs[0]);
    FieldScan(fs[0], rest, st);
    assert "" + Trim(fs[0]) == Trim(fs[0]);
    PendingOne(rows, done, Trims(fs));
    assert st.(cur := Trim(fs[0])) == Pending(rows, done, Trims(fs));
  }

  lemma PendingOne(rows: seq<seq<string>>, done: seq<string>, cells: seq<string>)
    requires |cells| == 1
    ensures Pending(rows, done, cells) == Scanner(rows, done, cells[0], false)
  {
    assert done + cells[..0] == done;
  }

  /** A row of several cells is its first cell, a comma and the rest. */
  lemma RowText(fs: seq<string>, rest: string)
    requires |fs| > 1
    ensures EncodeRow(fs) + rest == ToCsvValue(fs[0]) + ("," + (EncodeRow(fs[1..]) + rest))
  {
    EncodeCellsTail(fs);
    JoinCons(EncodeCells(fs), ',');
    Assoc3(ToCsvValue(fs[0]), ",", EncodeRow(fs[1..]), rest);
    Assoc2(",", EncodeRow(fs[1..]), rest);
  }

  /** An encoded field followed by a comma closes that field. */
  lemma FieldCommaScan(v: string, tail: string, st: Scanner)
    requires !st.inQuotes && st.cur == ""
    ensures Run(ToCsvValue(v) + ("," + tail), st) == Run(tail, st.(row := st.row + [Trim(v)], cur := ""))
  {
    FieldScan(v, "," + tail, st);
    assert "" + Trim(v) == Trim(v);
    RunComma(tail, st.(cur := Trim(v)));
  }

  /** Ending the line of a row read back as `cells`. */
  lemma EndPending(rows: seq<seq<string>>, cells: seq<string>)
    ensures EndRow(Pending(rows, [], cells)) == Scanner(rows + (if AllBlank(cells) then [] else [cells]), [], "", false)
  {
    if cells != [] {
      assert [] + cells[..|cells| - 1] + [cells[|cells| - 1]] == cells;
    } else {
      assert Trim("") == "";
    }
  }

  /** The rows read back from an encoded table, after those already read. */
  lemma {:induction false} TableScan(t: seq<seq<string>>, rows: seq<seq<string>>)
    ensures EndRow(Run(EncodeTable(t), Scanner(rows, [], "", false))).rows == rows + Kept(t)
    decreases |t|, 1
  {
    if t == [] {
      assert Trim("") == "";
    } else if |t| == 1 {
      LastRowScan(t, rows);
    } else {
      RowThenTable(t, rows);
    }
  }

  /** The row a table ends with is kept unless it is blank. */
  function KeepRow(rows: seq<seq<string>>, cells: seq<string>): seq<seq<string>> {
    rows + (if AllBlank(cells) then [] else [cells])
  }

  lemma KeptCons(t: seq<seq<string>>, rows: seq<seq<string>>)
    requires t != []
    ensures rows + Kept(t) == KeepRow(rows, Trims(t[0])) + Kept(t[1..])
  {
    TrimsBlank(t[0]);
    var k0: seq<seq<string>> := if AllBlank(t[0]) then [] else [Trims(t[0])];
    assert Kept(t) == k0 + Kept(t[1..]);
    Assoc2(rows, k0, Kept(t[1..]));
  }

  lemma LastRowScan(t: seq<seq<string>>, rows: seq<seq<string>>)
    requires |t| == 1
    ensures EndRow(Run(EncodeTable(t), Scanner(rows, [], "", false))).rows == rows + Kept(t)
  {
    var e := EncodeRow(t[0]);
    assert EncodeTable(t) == e;
    assert e + [] == e;
    RowScan(t[0], [], rows, []);
    EndPending(rows, Trims(t[0]));
    KeptCons(t, rows);
    assert Kept(t[1..]) == [];
  }

  lemma {:induction false} RowThenTable(t: seq<seq<string>>, rows: seq<seq<string>>)
    requires |t| > 1
    ensures EndRow(Run(EncodeTable(t), Scanner(rows, [], "", false))).rows == rows + Kept(t)
    decreases |t|, 0
  {
    var cells := Trims(t[0]);
    var tail := EncodeTable(t[1..]);
    EncodeRowsTail(t);
    JoinCons(EncodeRows(t), '\n');
    Assoc2(EncodeRow(t[0]), "\n", tail);
    RowScan(t[0], "\n" + tail, rows, []);
    RunNewline(tail, Pending(rows, [], cells));
    EndPending(rows, cells);
    TableScan(t[1..], KeepRow(rows, cells));
    KeptCons(t, rows);
  }

  /** Encoding every cell with `toCsvValue`, joining cells with `,` and rows
      with `\n` and parsing the text back gives the trimmed cells, without
      the rows whose cells are all blank. Quotes and line breaks inside a
      cell survive. */
  lemma RoundTrip(t: seq<seq<string>>)
    ensures Parse(EncodeTable(t)) == Kept(t)
  {
    TableScan(t, []);
    assert [] + Kept(t) == Kept(t);
  }

  /** The text without its carriage returns. */
  function DropCR(s: string): (r: string)
    ensures '\r' !in r && |r| <= |s|
    ensures forall c :: c in r <==> c in s && c != '\r'
  {
    if s == [] then []
    else (if s[0] == '\r' then [] else [s[0]]) + DropCR(s[1..])
  }

  /** Outside quotes, a character other than a quote is read without
      looking ahead. */
  lemma RunOutside(c: char, rest: string, st: Scanner)
    requires !st.inQuotes && c != '"'
    ensures var st1 := Run([c], st);
      !st1.inQuotes && Run([c] + rest, st) == Run(rest, st1)
  {
    assert ([c] + rest)[1..] == rest;
    assert [c][1..] == [];
  }

  /** In a text without quotes, carriage returns make no difference. */
  lemma {:induction false} IgnoresCR(s: string, st: Scanner)
    requires '"' !in s && !st.inQuotes
    ensures Run(s, st) == Run(DropCR(s), st)
    decreases |s|
  {
    if s != [] {
      assert s == [s[0]] + s[1..];
      RunOutside(s[0], s[1..], st);
      if s[0] == '\r' {
        assert Run([s[0]], st) == st by {
          assert [s[0]][1..] == [];
        }
        assert DropCR(s) == DropCR(s[1..]);
        IgnoresCR(s[1..], st);
      } else {
        var st1 := Run([s[0]], st);
        IgnoresCR(s[1..], st1);
        RunOutside(s[0], DropCR(s[1..]), st);
      }
    }
  }

  /** `parseCSV` reads a text without quotes the same with Windows (`\r\n`)
      line ends and with Unix ones. */
  lemma ParseIgnoresCR(text: string)
    requires '"' !in text
    ensures Parse(text) == Parse(DropCR(text))
  {
    IgnoresCR(text, Start);
  }

  /** Outside quotes, a cell free of quotes, commas and line breaks is read
      verbatim. */
  predicate PlainCell(f: string) {
    '"' !in f && ',' !in f && '\n' !in f && '\r' !in f
  }

  lemma {:induction false} PlainFieldScan(f: string, rest: string, st: Scanner)
    requires !st.inQuotes && PlainCell(f)
    ensures Run(f + rest, st) == Run(rest, st.(cur := st.cur + f))
    decreases |f|
  {
    if f == [] {
      assert f + rest == rest && st.cur + f == st.cur;
    } else {
      assert f + rest == [f[0]] + (f[1..] + rest);
      RunOutside(f[0], f[1..] + rest, st);
      assert f[1..] + [] == f[1..] && [f[0]] + [] == [f[0]];
      var st1 := st.(cur := st.cur + [f[0]]);
      assert Run([f[0]], st) == st1 by {
        assert [f[0]][1..] == [];
      }
      PlainFieldScan(f[1..], rest, st1);
      Assoc2(st.cur, [f[0]], f[1..]);
      assert [f[0]] + f[1..] == f;
    }
  }

  /** A row of plain cells joined by commas reads back as those cells. */
  lemma {:induction false} PlainRowScan(fs: seq<string>, rest: string, rows: seq<seq<string>>, done: seq<string>)
    requires forall k :: 0 <= k < |fs| ==> PlainCell(fs[k])
    requires rest == [] || rest[0] == '\n'
    ensures Run(Join(fs, ',') + rest, Scanner(rows, done, "", false)) == Run(rest, Pending(rows, done, fs))
    decreases |fs|
  {
    var st := Scanner(rows, done, "", false);
    if |fs| == 1 {
      PlainFieldScan(fs[0], rest, st);
      assert "" + fs[0] == fs[0];
      assert done + fs[..0] == done;
    } else if |fs| > 1 {
      var tail := Join(fs[1..], ',');
      JoinCons(fs, ',');
      Assoc3(fs[0], ",", tail, rest);
      PlainFieldScan(fs[0], "," + tail + rest, st);
      assert "" + fs[0] == fs[0];
      Assoc2(",", tail, rest);
      RunComma(tail + rest, st.(cur := fs[0]));
      PlainRowScan(fs[1..], rest, rows, done + [fs[0]]);
      PendingCons(rows, done, fs);
    } else {
      assert Join(fs, ',') + rest == rest;
    }
  }

  /** The columns `exportCSV` writes, in order. */
  const Columns: seq<string> :=
    ["nome", "cep", "uf", "cidade", "bairro", "endereco", "numero", "complemento", "hc", "lat", "lon", "_mode", "_q"]

  /** `String(v)` of a coordinate: blank for `""`, otherwise the text the
      number prints as. */
  function CoordText(c: CoordVal, show: JsNumber -> string): string {
    match c
    case Blank => ""
    case Num(n) => show(n)
  }

  /** `cols.map(c => it[c])`, before encoding; `showHc` prints the head count
      and `show` a coordinate. */
  function RowFields(it: Item, showHc: real -> string, show: JsNumber -> string): (fs: seq<string>)
    ensures |fs| == |Columns|
  {
    [it.nome, it.cep, it.uf, it.cidade, it.bairro, it.endereco, it.numero, it.complemento,
     showHc(it.hc), CoordText(it.lat, show), CoordText(it.lon, show), it.mode, it.q]
  }

  function ExportTable(data: seq<Item>, showHc: real -> string, show: JsNumber -> string): (t: seq<seq<string>>)
    ensures |t| == |data|
    ensures forall k :: 0 <= k < |data| ==> t[k] == RowFields(data[k], showHc, show)
  {
    seq(|data|, k requires 0 <= k < |data| => RowFields(data[k], showHc, show))
  }

  /** The text `exportCSV` downloads: the header line, one encoded line per
      record, joined by line feeds; nothing for an empty batch. */
  function ExportText(data: seq<Item>, showHc: real -> string, show: JsNumber -> string): (r: Option<string>)
    ensures r.None? <==> data == []
  {
    if data == [] then None
    else Some(Join([Join(Columns, ',')] + EncodeRows(ExportTable(data, showHc, show)), '\n'))
  }

  /** `exportCSV`: the lines are built one record at a time. */
  method ExportCSV(data: seq<Item>, showHc: real -> string, show: JsNumber -> string) returns (r: Option<string>)
    ensures r == ExportText(data, showHc, show)
  {
    if |data| == 0 {
      return None;
    }
    var lines := [Join(Columns, ',')];
    for i := 0 to |data|
      invariant lines == [Join(Columns, ',')] + EncodeRows(ExportTable(data[..i], showHc, show))
    {
      ExportTableStep(data, i, showHc, show);
      lines := lines + [EncodeRow(RowFields(data[i], showHc, show))];
    }
    assert data[..|data|] == data;
    r := Some(Join(lines, '\n'));
  }

  lemma ExportTableStep(data: seq<Item>, i: nat, showHc: real -> string, show: JsNumber -> string)
    requires i < |data|
    ensures EncodeRows(ExportTable(data[..i + 1], showHc, show))
         == EncodeRows(ExportTable(data[..i], showHc, show)) + [EncodeRow(RowFields(data[i], showHc, show))]
  {
    var a := ExportTable(data[..i], showHc, show);
    var x := RowFields(data[i], showHc, show);
    assert ExportTable(data[..i + 1], showHc, show) == a + [x];
    EncodeRowsSnoc(a, x);
  }

  lemma EncodeRowsSnoc(t: seq<seq<string>>, x: seq<string>)
    ensures EncodeRows(t + [x]) == EncodeRows(t) + [EncodeRow(x)]
  {
  }

  /** A column name: lower-case ASCII letters and underscores. */
  predicate IsColumnName(c: string) {
    c != [] && forall i :: 0 <= i < |c| ==> 'a' <= c[i] <= 'z' || c[i] == '_'
  }

  lemma ColumnNameFacts(c: string)
    requires IsColumnName(c)
    ensures PlainCell(c) && Trim(c) == c && !AllBlank([c]) && ToLower(c) == c
  {
    assert !IsSpace(c[0]) && !IsSpace(c[|c| - 1]);
    TrimOfTrimmed(c);
    assert [c][0] == c;
  }

  lemma ColumnsAreNames()
    ensures forall k :: 0 <= k < |Columns| ==> IsColumnName(Columns[k])
  {
    assert IsColumnName("nome");
    assert IsColumnName("cep");
    assert IsColumnName("uf");
    assert IsColumnName("cidade");
    assert IsColumnName("bairro");
    assert IsColumnName("endereco");
    assert IsColumnName("numero");
    assert IsColumnName("complemento");
    assert IsColumnName("hc");
    assert IsColumnName("lat");
    assert IsColumnName("lon");
    assert IsColumnName("_mode");
    assert IsColumnName("_q");
  }

  lemma ColumnsArePlain()
    ensures forall k :: 0 <= k < |Columns| ==> PlainCell(Columns[k])
    ensures !AllBlank(Columns)
  {
    ColumnsAreNames();
    forall k | 0 <= k < |Columns| ensures PlainCell(Columns[k]) {
      ColumnNameFacts(Columns[k]);
    }
    ColumnNameFacts(Columns[0]);
  }

  /** The header line reads back as the column names. */
  lemma HeaderScan(body: string)
    ensures EndRow(Run(Join(Columns, ',') + "\n" + body, Start)).rows
         == EndRow(Run(body, Scanner([Columns], [], "", false))).rows
  {
    var header := Join(Columns, ',');
    Assoc2(header, "\n", body);
    ColumnsArePlain();
    PlainRowScan(Columns, "\n" + body, [], []);
    RunNewline(body, Pending([], [], Columns));
    EndPending([], Columns);
    assert [] + [Columns] == [Columns];
  }

  lemma ExportTextSplit(data: seq<Item>, showHc: real -> string, show: JsNumber -> string)
    requires data != []
    ensures ExportText(data, showHc, show).value
         == Join(Columns, ',') + "\n" + EncodeTable(ExportTable(data, showHc, show))
  {
    var rows := EncodeRows(ExportTable(data, showHc, show));
    var lines := [Join(Columns, ',')] + rows;
    JoinCons(lines, '\n');
    assert lines[1..] == rows;
  }

  /** The exported text reads back as the header and the trimmed cells of
      every record whose cells are not all blank. */
  lemma ExportParses(data: seq<Item>, showHc: real -> string, show: JsNumber -> string)
    requires data != []
    ensures Parse(ExportText(data, showHc, show).value) == [Columns] + Kept(ExportTable(data, showHc, show))
  {
    var t := ExportTable(data, showHc, show);
    ExportTextSplit(data, showHc, show);
    HeaderScan(EncodeTable(t));
    TableScan(t, [Columns]);
  }

  /** `headers.findIndex(h => h.toLowerCase() === name.toLowerCase())`:
      the first header equal to `name` up to case, or -1. */
  function FindColumn(headers: seq<string>, name: string): (i: int)
    ensures -1 <= i < |headers|
    ensures i >= 0 ==> ToLower(headers[i]) == ToLower(name)
    ensures forall k :: 0 <= k < |headers| && (i < 0 || k < i) ==> ToLower(headers[k]) != ToLower(name)
  {
    if headers == [] then -1
    else if ToLower(headers[0]) == ToLower(name) then 0
    else
      var j := FindColumn(headers[1..], name);
      if j < 0 then -1 else j + 1
  }

  /** `iX >= 0 ? r[iX] : dflt`, where a short row gives `undefined`, which
      `safeStr` turns into `""`. */
  function RawCell(r: seq<string>, i: int, dflt: string): string {
    if i < 0 then dflt else if i < |r| then r[i] else ""
  }

  /** `safeStr` of that cell. */
  function Cell(r: seq<string>, i: int, dflt: string): string {
    Trim(RawCell(r, i, dflt))
  }

  /** `toNumberBR` of a cell: 0 when blank, otherwise what the Brazilian
      number reading `numberBR` makes of the trimmed text. */
  function NumberBR(s: string, numberBR: string -> real): real {
    var t := Trim(s);
    if t == "" then 0.0 else numberBR(t)
  }

  /** The column positions `importEnrichedCSV` looks up once, by name, in
      the header row (-1 for a missing column). */
  datatype Layout = Layout(nome: int, cep: int, uf: int, cidade: int, bairro: int, endereco: int,
                           numero: int, complemento: int, hc: int, lat: int, lon: int, mode: int, q: int)

  function LayoutOf(headers: seq<string>): Layout {
    Layout(FindColumn(headers, "nome"), FindColumn(headers, "cep"), FindColumn(headers, "uf"),
           FindColumn(headers, "cidade"), FindColumn(headers, "bairro"), FindColumn(headers, "endereco"),
           FindColumn(headers, "numero"), FindColumn(headers, "complemento"), FindColumn(headers, "hc"),
           FindColumn(headers, "lat"), FindColumn(headers, "lon"), FindColumn(headers, "_mode"),
           FindColumn(headers, "_q"))
  }

  /** The record `importEnrichedCSV` makes of data row `r`, number `idx`
      (from 0). A missing `hc` column gives `toNumberBR(0)`, which is 0. */
  function ImportedItem(c: Layout, r: seq<string>, idx: nat,
                        numberBR: string -> real, parse: string -> JsNumber): Item
  {
    Item(
      idx + 1,
      Cell(r, c.nome, ""),
      NormalizeCEP(RawCell(r, c.cep, "")),
      Cell(r, c.uf, ""),
      Cell(r, c.cidade, ""),
      Cell(r, c.bairro, ""),
      Cell(r, c.endereco, ""),
      Cell(r, c.numero, ""),
      Cell(r, c.complemento, ""),
      if c.hc < 0 then 0.0 else NumberBR(RawCell(r, c.hc, ""), numberBR),
      TextCoord(Cell(r, c.lat, ""), parse),
      TextCoord(Cell(r, c.lon, ""), parse),
      Blank,
      Blank,
      None,
      Cell(r, c.mode, ModeImport),
      Cell(r, c.q, ""))
  }

  /** The batch `importEnrichedCSV` loads from the parsed rows: nothing
      ("CSV inválido") without a header and at least one data row. The
      header cells are trimmed (`normalizeHeader`). */
  function ImportRows(rows: seq<seq<string>>, numberBR: string -> real, parse: string -> JsNumber): (r: Option<seq<Item>>)
    ensures r.None? <==> |rows| < 2
    ensures r.Some? ==> |r.value| == |rows| - 1
  {
    if |rows| < 2 then None
    else Some(ImportData(LayoutOf(Trims(rows[0])), rows[1..], numberBR, parse))
  }

  function ImportData(c: Layout, data: seq<seq<string>>, numberBR: string -> real, parse: string -> JsNumber): (r: seq<Item>)
    ensures |r| == |data|
  {
    seq(|data|, k requires 0 <= k < |data| => ImportedItem(c, data[k], k, numberBR, parse))
  }

  /** Data row `k + 1` becomes record `k`, under the header's layout `c`. */
  lemma ImportRowsAt(rows: seq<seq<string>>, k: nat, numberBR: string -> real, parse: string -> JsNumber)
    requires |rows| >= 2 && k < |rows| - 1
    ensures ImportRows(rows, numberBR, parse).value[k] == ImportedItem(LayoutOf(Trims(rows[0])), rows[k + 1], k, numberBR, parse)
  {
    var c := LayoutOf(Trims(rows[0]));
    var data := rows[1..];
    assert data[k] == rows[k + 1];
    ImportDataAt(c, data, k, numberBR, parse);
  }

  lemma ImportDataAt(c: Layout, data: seq<seq<string>>, k: nat, numberBR: string -> real, parse: string -> JsNumber)
    requires k < |data|
    ensures ImportData(c, data, numberBR, parse)[k] == ImportedItem(c, data[k], k, numberBR, parse)
  {
  }

  /** What re-importing the exported record `it`, number `k`, gives: every
      text field trimmed, the CEP normalised, the head count and coordinates
      read back from their text, no display position. */
  function Reimport(it: Item, k: nat, showHc: real -> string, show: JsNumber -> string,
                    numberBR: string -> real, parse: string -> JsNumber): Item
  {
    Item(k + 1, Trim(it.nome), NormalizeCEP(it.cep), Trim(it.uf), Trim(it.cidade), Trim(it.bairro),
         Trim(it.endereco), Trim(it.numero), Trim(it.complemento), NumberBR(showHc(it.hc), numberBR),
         TextCoord(Trim(CoordText(it.lat, show)), parse), TextCoord(Trim(CoordText(it.lon, show)), parse),
         Blank, Blank, None, Trim(it.mode), Trim(it.q))
  }

  lemma ColumnsDistinct()
    ensures forall a, b :: 0 <= a < b < |Columns| ==> Columns[a] != Columns[b]
  {
  }

  /** Each column is found where `exportCSV` put it. */
  lemma FindExportedColumn(j: nat)
    requires j < |Columns|
    ensures FindColumn(Columns, Columns[j]) == j
  {
    ColumnsAreNames();
    ColumnsDistinct();
    var i := FindColumn(Columns, Columns[j]);
    ColumnNameFacts(Columns[j]);
    if i >= 0 {
      ColumnNameFacts(Columns[i]);
    }
  }

  /** The layout of an exported file's header. */
  const ExportLayout := Layout(0, 1, 2, 3, 4, 5, 6, 7, 8, 9, 10, 11, 12)

  lemma ExportedLayout()
    ensures LayoutOf(Trims(Columns)) == ExportLayout
  {
    TrimsColumns();
    FindExportedColumn(0);
    FindExportedColumn(1);
    FindExportedColumn(2);
    FindExportedColumn(3);
    FindExportedColumn(4);
    FindExportedColumn(5);
    FindExportedColumn(6);
    FindExportedColumn(7);
    FindExportedColumn(8);
    FindExportedColumn(9);
    FindExportedColumn(10);
    FindExportedColumn(11);
    FindExportedColumn(12);
  }

  lemma TrimsColumns()
    ensures Trims(Columns) == Columns
  {
    ColumnsAreNames();
    forall k | 0 <= k < |Columns| ensures Trim(Columns[k]) == Columns[k] {
      ColumnNameFacts(Columns[k]);
    }
  }

  /** A table none of whose rows is blank is kept whole. */
  lemma {:induction false} KeptWhole(t: seq<seq<string>>)
    requires forall k :: 0 <= k < |t| ==> !AllBlank(t[k])
    ensures |Kept(t)| == |t| && forall k :: 0 <= k < |t| ==> Kept(t)[k] == Trims(t[k])
    decreases |t|
  {
    if t != [] {
      KeptWhole(t[1..]);
      assert Kept(t) == [Trims(t[0])] + Kept(t[1..]);
      forall k | 0 <= k < |t| ensures Kept(t)[k] == Trims(t[k]) {
        if k > 0 {
          assert Kept(t)[k] == Kept(t[1..])[k - 1] && t[1..][k - 1] == t[k];
        }
      }
    }
  }

  /** Under the export layout a row of trimmed cells is read cell by cell. */
  lemma ImportTrimmed(r: seq<string>, k: nat, numberBR: string -> real, parse: string -> JsNumber)
    requires |r| == |Columns|
    requires forall j :: 0 <= j < |r| ==> Trim(r[j]) == r[j]
    ensures ImportedItem(ExportLayout, r, k, numberBR, parse)
         == Item(k + 1, r[0], NormalizeCEP(r[1]), r[2], r[3], r[4], r[5], r[6], r[7], NumberBR(r[8], numberBR),
                 TextCoord(r[9], parse), TextCoord(r[10], parse), Blank, Blank, None, r[11], r[12])
  {
  }

  /** Re-importing one exported line. */
  lemma ReimportRow(it: Item, k: nat, showHc: real -> string, show: JsNumber -> string,
                    numberBR: string -> real, parse: string -> JsNumber)
    ensures ImportedItem(ExportLayout, Trims(RowFields(it, showHc, show)), k, numberBR, parse)
         == Reimport(it, k, showHc, show, numberBR, parse)
  {
    var fs := RowFields(it, showHc, show);
    var r := Trims(fs);
    forall j | 0 <= j < |r| ensures Trim(r[j]) == r[j] {
      TrimIdempotent(fs[j]);
    }
    ImportTrimmed(r, k, numberBR, parse);
    TrimIdempotent(fs[8]);
    NormalizeCEPOfTrimmed(it.cep);
  }

  lemma NormalizeCEPOfTrimmed(v: string)
    ensures NormalizeCEP(Trim(v)) == NormalizeCEP(v)
  {
    TrimIdempotent(v);
  }

  /** Importing the header of an export followed by the trimmed lines of
      `data`: record `k`. */
  lemma ImportExportedRow(data: seq<Item>, cells: seq<seq<string>>, k: nat, showHc: real -> string, show: JsNumber -> string,
                          numberBR: string -> real, parse: string -> JsNumber)
    requires |cells| == |data| && k < |data|
    requires cells[k] == Trims(RowFields(data[k], showHc, show))
    ensures ImportRows([Columns] + cells, numberBR, parse).value[k] == Reimport(data[k], k, showHc, show, numberBR, parse)
  {
    var rows := [Columns] + cells;
    assert rows[0] == Columns && rows[k + 1] == cells[k];
    ExportedLayout();
    ImportRowsAt(rows, k, numberBR, parse);
    ReimportRow(data[k], k, showHc, show, numberBR, parse);
  }

  lemma ImportExportedRows(data: seq<Item>, cells: seq<seq<string>>, showHc: real -> string, show: JsNumber -> string,
                           numberBR: string -> real, parse: string -> JsNumber)
    requires |cells| == |data| && data != []
    requires forall k :: 0 <= k < |data| ==> cells[k] == Trims(RowFields(data[k], showHc, show))
    ensures var r := ImportRows([Columns] + cells, numberBR, parse);
      && r.Some? && |r.value| == |data|
      && forall k :: 0 <= k < |data| ==> r.value[k] == Reimport(data[k], k, showHc, show, numberBR, parse)
  {
    forall k | 0 <= k < |data|
      ensures ImportRows([Columns] + cells, numberBR, parse).value[k] == Reimport(data[k], k, showHc, show, numberBR, parse)
    {
      ImportExportedRow(data, cells, k, showHc, show, numberBR, parse);
    }
  }

  /** Exporting a batch none of whose lines is blank and importing the file
      gives back every record, in order, as `Reimport` says. */
  lemma ExportImportRoundTrip(data: seq<Item>, showHc: real -> string, show: JsNumber -> string,
                              numberBR: string -> real, parse: string -> JsNumber)
    requires data != []
    requires forall k :: 0 <= k < |data| ==> !AllBlank(RowFields(data[k], showHc, show))
    ensures var r := ImportRows(Parse(ExportText(data, showHc, show).value), numberBR, parse);
      && r.Some? && |r.value| == |data|
      && forall k :: 0 <= k < |data| ==> r.value[k] == Reimport(data[k], k, showHc, show, numberBR, parse)
  {
    var t := ExportTable(data, showHc, show);
    ExportParses(data, showHc, show);
    KeptWhole(t);
    ImportExportedRows(data, Kept(t), showHc, show, numberBR, parse);
  }
}
