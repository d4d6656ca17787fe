/** The admin CSV printer, and the parser of section 2 of RFC 4180 that undoes it. */
module Csv {
  import opened Seqs

  /** A column value; dates, JSON and other values carry the text JavaScript prints for them. */
  datatype Value = Nullish | Date(iso: string) | Nested(json: string) | Other(text: string)

  /** A plain object: its own keys in `Object.keys` order. */
  type Row = seq<(string, Value)>

  const BOM := '\U{FEFF}'

  function Stringify(value: Value): string {
    match value
    case Nullish => ""
    case Date(iso) => iso
    case Nested(json) => json
    case Other(text) => text
  }

  predicate IsSpecial(c: char) {
    c == '"' || c == ',' || c == '\r' || c == '\n'
  }

  predicate NeedsQuotes(value: string) {
    exists i :: 0 <= i < |value| && IsSpecial(value[i])
  }

  /** `replace(/"/g, '""')`. */
  function DoubleQuotes(value: string): string {
    if value == "" then ""
    else (if value[0] == '"' then "\"\"" else [value[0]]) + DoubleQuotes(value[1..])
  }

  function Escape(value: string): string {
    if NeedsQuotes(value) then "\"" + DoubleQuotes(value) + "\"" else value
  }

  function Join(parts: seq<string>, separator: string): string {
    if parts == [] then ""
    else if |parts| == 1 then parts[0]
    else parts[0] + separator + Join(parts[1..], separator)
  }

  function Escaped(fields: seq<string>): (r: seq<string>) {
    seq(|fields|, i requires 0 <= i < |fields| => Escape(fields[i]))
  }

  function Line(fields: seq<string>): string {
    Join(Escaped(fields), ",")
  }

  // ----- Header and cells -----

  function Dedup(keys: seq<string>): seq<string> {
    if keys == [] then []
    else
      var init := Dedup(keys[..|keys| - 1]);
      if keys[|keys| - 1] in init then init else init + [keys[|keys| - 1]]
  }

  function RowKeys(row: Row): seq<string> {
    seq(|row|, i requires 0 <= i < |row| => row[i].0)
  }

  function AllKeys(rows: seq<Row>): seq<string> {
    if rows == [] then [] else AllKeys(rows[..|rows| - 1]) + RowKeys(rows[|rows| - 1])
  }

  function Columns(rows: seq<Row>): seq<string> {
    Dedup(AllKeys(rows))
  }

  /** `row[col]`; a column the row lacks reads as undefined. */
  function Lookup(row: Row, column: string): Value {
    if row == [] then Nullish
    else if row[0].0 == column then row[0].1
    else Lookup(row[1..], column)
  }

  function Cells(row: Row, columns: seq<string>): seq<string> {
    seq(|columns|, i requires 0 <= i < |columns| => Stringify(Lookup(row, columns[i])))
  }

  /** The table the file stands for: the header, then one record per row. */
  function Table(rows: seq<Row>): seq<seq<string>> {
    [Columns(rows)] + seq(|rows|, i requires 0 <= i < |rows| => Cells(rows[i], Columns(rows)))
  }

  function Lines(records: seq<seq<string>>): seq<string> {
    seq(|records|, i requires 0 <= i < |records| => Line(records[i]))
  }

  function FileText(records: seq<seq<string>>): string {
    Join(Lines(records), "\r\n") + "\r\n"
  }

  function Print(rows: seq<Row>): string {
    if rows == [] then [BOM] else [BOM] + FileText(Table(rows))
  }

  // ----- The loops -----

  method RowsToCsv(rows: seq<Row>) returns (csv: string)
    ensures csv == Print(rows)
  {
    if |rows| == 0 {
      return [BOM];
    }
    var columns := CollectColumns(rows);
    var lines := [Line(columns)];
    for r := 0 to |rows|
      invariant lines == Lines(Table(rows)[..r + 1])
    {
      lines := lines + [Line(Cells(rows[r], columns))];
      assert Table(rows)[..r + 2] == Table(rows)[..r + 1] + [Cells(rows[r], columns)];
    }
    assert Table(rows)[..|rows| + 1] == Table(rows);
    csv := [BOM] + Join(lines, "\r\n") + "\r\n";
  }

  method CollectColumns(rows: seq<Row>) returns (columns: seq<string>)
    ensures columns == Columns(rows)
  {
    columns := [];
    var seen: set<string> := {};
    for r := 0 to |rows|
      invariant columns == Dedup(AllKeys(rows[..r]))
      invariant forall k :: k in seen <==> k in columns
    {
      columns, seen := AddKeys(AllKeys(rows[..r]), columns, seen, RowKeys(rows[r]));
      assert rows[..r + 1][..r] == rows[..r];
    }
    assert rows[..|rows|] == rows;
  }

  /** The inner loop, over one row's keys. */
  method AddKeys(ghost before: seq<string>, columns: seq<string>, seen: set<string>, keys: seq<string>)
    returns (columns': seq<string>, seen': set<string>)
    requires columns == Dedup(before)
    requires forall k :: k in seen <==> k in columns
    ensures columns' == Dedup(before + keys)
    ensures forall k :: k in seen' <==> k in columns'
  {
    columns', seen' := columns, seen;
    assert before + keys[..0] == before;
    for i := 0 to |keys|
      invariant columns' == Dedup(before + keys[..i])
      invariant forall k :: k in seen' <==> k in columns'
    {
      DedupSnoc(before + keys[..i], keys[i]);
      assert before + keys[..i + 1] == before + keys[..i] + [keys[i]];
      hide Dedup;
      if keys[i] !in seen' {
        seen' := seen' + {keys[i]};
        columns' := columns' + [keys[i]];
      }
    }
    assert keys[..|keys|] == keys;
  }

  lemma DedupSnoc(keys: seq<string>, key: string)
    ensures Dedup(keys + [key]) == if key in Dedup(keys) then Dedup(keys) else Dedup(keys) + [key]
  {
    assert (keys + [key])[..|keys|] == keys;
  }

  /** Columns are exactly the keys, once each, in the order each was first met. */
  lemma ColumnsAreFirstSeen(rows: seq<Row>)
    ensures forall k :: k in Columns(rows) <==> k in AllKeys(rows)
    ensures forall i, j :: 0 <= i < j < |Columns(rows)| ==>
      FirstMet(AllKeys(rows), Columns(rows)[i]) < FirstMet(AllKeys(rows), Columns(rows)[j])
  {
    DedupIsFirstSeen(AllKeys(rows));
  }

  function FirstMet(keys: seq<string>, key: string): (i: nat)
    ensures i <= |keys| && (i < |keys| ==> keys[i] == key) && key !in keys[..i]
  {
    if keys == [] || keys[0] == key then 0 else 1 + FirstMet(keys[1..], key)
  }

  lemma {:induction false} FirstMetExtends(keys: seq<string>, more: seq<string>, key: string)
    ensures key in keys ==> FirstMet(keys + more, key) == FirstMet(keys, key) < |keys|
    ensures key !in keys ==> FirstMet(keys + more, key) >= |keys|
  {
    if keys != [] && keys[0] != key {
      assert (keys + more)[1..] == keys[1..] + more;
      FirstMetExtends(keys[1..], more, key);
    }
  }

  lemma {:induction false} DedupIsFirstSeen(keys: seq<string>)
    ensures forall k :: k in Dedup(keys) <==> k in keys
    ensures Dedup(keys) == [] <==> keys == []
    ensures forall i, j :: 0 <= i < j < |Dedup(keys)| ==>
      FirstMet(keys, Dedup(keys)[i]) < FirstMet(keys, Dedup(keys)[j])
  {
    if keys != [] {
      var init, last := keys[..|keys| - 1], keys[|keys| - 1];
      assert keys == init + [last];
      DedupIsFirstSeen(init);
      hide FirstMet;
      forall k { FirstMetExtends(init, [last], k); }
    }
  }

  // ----- The parser: section 2 of RFC 4180, with TEXTDATA taken as every other character -----

  datatype Parsed<+T> = Bad | Parsed(value: T, rest: string)

  /** After the opening quote: up to the closing quote, "" standing for one quote. */
  function ParseQuoted(s: string): Parsed<string> {
    if s == "" then Bad
    else if s[0] != '"' then
      match ParseQuoted(s[1..])
      case Bad => Bad
      case Parsed(v, rest) => Parsed([s[0]] + v, rest)
    else if |s| >= 2 && s[1] == '"' then
      match ParseQuoted(s[2..])
      case Bad => Bad
      case Parsed(v, rest) => Parsed("\"" + v, rest)
    else Parsed("", s[1..])
  }

  function ParsePlain(s: string): Parsed<string> {
    if s == "" || IsSpecial(s[0]) then Parsed("", s)
    else
      match ParsePlain(s[1..])
      case Bad => Bad
      case Parsed(v, rest) => Parsed([s[0]] + v, rest)
  }

  function ParseField(s: string): Parsed<string> {
    if s != "" && s[0] == '"' then ParseQuoted(s[1..]) else ParsePlain(s)
  }

  lemma {:induction false} QuotedShrinks(s: string)
    ensures ParseQuoted(s).Parsed? ==> |ParseQuoted(s).rest| < |s|
  {
    if s != "" {
      if s[0] != '"' {
        QuotedShrinks(s[1..]);
      } else if |s| >= 2 && s[1] == '"' {
        QuotedShrinks(s[2..]);
      }
    }
  }

  lemma {:induction false} PlainShrinks(s: string)
    ensures ParsePlain(s).Parsed? ==> |ParsePlain(s).rest| <= |s|
  {
    if s != "" && !IsSpecial(s[0]) {
      PlainShrinks(s[1..]);
    }
  }

  lemma FieldShrinks(s: string)
    ensures ParseField(s).Parsed? ==> |ParseField(s).rest| <= |s|
  {
    if s != "" && s[0] == '"' {
      QuotedShrinks(s[1..]);
    } else {
      PlainShrinks(s);
    }
  }

  function ParseRecord(s: string): (r: Parsed<seq<string>>)
    ensures r.Parsed? ==> |r.rest| <= |s|
    decreases |s|
  {
    FieldShrinks(s);
    match ParseField(s)
    case Bad => Bad
    case Parsed(v, rest) =>
      if rest != "" && rest[0] == ',' then
        match ParseRecord(rest[1..])
        case Bad => Bad
        case Parsed(more, end) => Parsed([v] + more, end)
      else Parsed([v], rest)
  }

  /** Records separated by CRLF; the last one may or may not end with it. */
  function ParseFile(s: string): Option<seq<seq<string>>>
    decreases |s|
  {
    match ParseRecord(s)
    case Bad => None
    case Parsed(record, rest) =>
      if rest == "" || rest == "\r\n" then Some([record])
      else if |rest| > 2 && rest[..2] == "\r\n" then
        match ParseFile(rest[2..])
        case None => None
        case Some(more) => Some([record] + more)
      else None
  }

  // ----- Round trip -----

  lemma {:induction false} ParseDoubled(v: string, t: string)
    requires t == "" || t[0] != '"'
    ensures ParseQuoted(DoubleQuotes(v) + "\"" + t) == Parsed(v, t)
  {
    var s := DoubleQuotes(v) + "\"" + t;
    if v == "" {
      assert s == "\"" + t;
    } else {
      ParseDoubled(v[1..], t);
      var tail := DoubleQuotes(v[1..]) + "\"" + t;
      if v[0] == '"' {
        assert s == "\"\"" + tail;
        assert s[2..] == tail;
      } else {
        assert s == [v[0]] + tail;
        assert s[1..] == tail;
      }
      assert v == [v[0]] + v[1..];
    }
  }

  lemma {:induction false} ParseUnquoted(v: string, t: string)
    requires !NeedsQuotes(v)
    requires t == "" || t[0] == ',' || t[0] == '\r'
    ensures ParsePlain(v + t) == Parsed(v, t)
  {
    if v == "" {
      assert v + t == t;
    } else {
      assert (v + t)[1..] == v[1..] + t;
      assert forall i :: 0 <= i < |v[1..]| ==> v[1..][i] == v[i + 1];
      ParseUnquoted(v[1..], t);
      assert v == [v[0]] + v[1..];
    }
  }

  lemma ParseEscaped(v: string, t: string)
    requires t == "" || t[0] == ',' || t[0] == '\r'
    ensures ParseField(Escape(v) + t) == Parsed(v, t)
  {
    hide ParseQuoted, ParsePlain, DoubleQuotes;
    if NeedsQuotes(v) {
      ParseDoubled(v, t);
      assert (Escape(v) + t)[1..] == DoubleQuotes(v) + "\"" + t;
    } else {
      ParseUnquoted(v, t);
    }
  }

  lemma LineCons(fields: seq<string>)
    requires fields != []
    ensures Line(fields) == Escape(fields[0]) + (if |fields| == 1 then "" else "," + Line(fields[1..]))
  {
    hide Escape;
    assert Escaped(fields)[1..] == Escaped(fields[1..]);
  }

  /** One field, then the rest of the record after a comma. */
  lemma RecordStep(s: string, v: string, t: string)
    requires ParseField(s) == Parsed(v, t)
    ensures t == "" || t[0] != ',' ==> ParseRecord(s) == Parsed([v], t)
    ensures t != "" && t[0] == ',' && ParseRecord(t[1..]).Parsed? ==>
      ParseRecord(s) == Parsed([v] + ParseRecord(t[1..]).value, ParseRecord(t[1..]).rest)
  {
    hide ParseField;
  }

  lemma {:induction false} ParseLine(fields: seq<string>, t: string)
    requires fields != []
    requires t == "" || t[0] == '\r'
    ensures ParseRecord(Line(fields) + t) == Parsed(fields, t)
  {
    hide *;
    LineCons(fields);
    var rest := if |fields| == 1 then t else "," + (Line(fields[1..]) + t);
    assert Line(fields) + t == Escape(fields[0]) + rest;
    ParseEscaped(fields[0], rest);
    RecordStep(Line(fields) + t, fields[0], rest);
    if |fields| > 1 {
      assert rest[1..] == Line(fields[1..]) + t;
      ParseLine(fields[1..], t);
    }
    assert fields == if |fields| == 1 then [fields[0]] else [fields[0]] + fields[1..];
  }

  lemma FileCons(records: seq<seq<string>>)
    requires records != []
    ensures FileText(records) == Line(records[0]) + ("\r\n" + if |records| == 1 then "" else FileText(records[1..]))
  {
    hide Line;
    assert Lines(records)[1..] == Lines(records[1..]);
  }

  /** One record, then either the end of the file or CRLF and more. */
  lemma FileStep(s: string, record: seq<string>, tail: string)
    requires ParseRecord(s) == Parsed(record, "\r\n" + tail)
    ensures tail == "" ==> ParseFile(s) == Some([record])
    ensures tail != "" && ParseFile(tail).Some? ==> ParseFile(s) == Some([record] + ParseFile(tail).value)
  {
    hide ParseRecord;
    assert ("\r\n" + tail)[2..] == tail && ("\r\n" + tail)[..2] == "\r\n";
  }

  lemma FileTextNotEmpty(records: seq<seq<string>>)
    ensures FileText(records) != ""
  {
  }

  lemma {:induction false} ParseLines(records: seq<seq<string>>)
    requires records != []
    requires forall r :: r in records ==> r != []
    ensures ParseFile(FileText(records)) == Some(records)
  {
    hide *;
    FileCons(records);
    var tail := if |records| == 1 then "" else FileText(records[1..]);
    assert records[0] in records;
    ParseLine(records[0], "\r\n" + tail);
    FileStep(FileText(records), records[0], tail);
    if |records| > 1 {
      FileTextNotEmpty(records[1..]);
      assert forall r :: r in records[1..] ==> r in records;
      ParseLines(records[1..]);
    }
    assert records == if |records| == 1 then [records[0]] else [records[0]] + records[1..];
  }

  lemma TableIsRectangular(rows: seq<Row>)
    ensures forall r :: r in Table(rows) ==> |r| == |Columns(rows)|
  {
  }

  /** With no columns every line is blank, and a blank line reads back as one empty field. */
  lemma ParseBlank(records: seq<seq<string>>)
    requires records != [] && records[0] == []
    ensures ParseFile(FileText(records)) != Some(records)
  {
    var text := FileText(records);
    assert Lines(records)[0] == Line([]) == "";
    assert text[0] == '\r';
    assert ParseField(text) == Parsed("", text);
    assert ParseRecord(text) == Parsed([""], text);
  }

  /** Some row has a key. */
  predicate AnyKey(rows: seq<Row>) {
    exists r :: r in rows && r != []
  }

  /** A row pairs the key with something. */
  ghost predicate ListsKey(rows: seq<Row>, key: string) {
    exists r, j :: 0 <= r < |rows| && 0 <= j < |rows[r]| && rows[r][j].0 == key
  }

  lemma {:induction false} AllKeysLists(rows: seq<Row>, key: string)
    ensures key in AllKeys(rows) <==> ListsKey(rows, key)
  {
    if rows != [] {
      var init, last := rows[..|rows| - 1], rows[|rows| - 1];
      AllKeysLists(init, key);
      assert forall r :: 0 <= r < |init| ==> rows[r] == init[r];
      if key in RowKeys(last) {
        var j :| 0 <= j < |last| && RowKeys(last)[j] == key;
        assert rows[|init|][j].0 == key;
      }
      if r, j :| 0 <= r < |rows| && 0 <= j < |rows[r]| && rows[r][j].0 == key {
        if r < |init| {
          assert init[r][j].0 == key;
        } else {
          assert RowKeys(last)[j] == key;
        }
      }
    }
  }

  lemma AnyKeyExactly(rows: seq<Row>)
    ensures AnyKey(rows) <==> AllKeys(rows) != []
  {
    hide AllKeys;
    if AnyKey(rows) {
      var row :| row in rows && row != [];
      var r :| 0 <= r < |rows| && rows[r] == row;
      AllKeysLists(rows, rows[r][0].0);
    }
    if AllKeys(rows) != [] {
      AllKeysLists(rows, AllKeys(rows)[0]);
      var r, j :| 0 <= r < |rows| && 0 <= j < |rows[r]| && rows[r][j].0 == AllKeys(rows)[0];
      assert rows[r] in rows;
    }
  }

  /** The header lists every key of every row, each once, and nothing else. */
  lemma HeaderIsTheKeys(rows: seq<Row>)
    ensures forall key :: key in Columns(rows) <==> ListsKey(rows, key)
    ensures forall i, j :: 0 <= i < j < |Columns(rows)| ==> Columns(rows)[i] != Columns(rows)[j]
  {
    ColumnsAreFirstSeen(rows);
    forall key { AllKeysLists(rows, key); }
    hide AllKeys, Columns;
  }

  /** Reading the file back gives the header and every cell, exactly when some row has a key. */
  lemma RoundTrip(rows: seq<Row>)
    requires rows != []
    ensures Print(rows) != "" && Print(rows)[0] == BOM
    ensures ParseFile(Print(rows)[1..]) == Some(Table(rows)) <==> AnyKey(rows)
  {
    AnyKeyExactly(rows);
    hide Lines, ParseFile, FileText, AllKeys, Dedup, Cells;
    assert Print(rows)[1..] == FileText(Table(rows));
    DedupIsFirstSeen(AllKeys(rows));
    TableIsRectangular(rows);
    if AllKeys(rows) != [] {
      ParseLines(Table(rows));
    } else {
      ParseBlank(Table(rows));
    }
  }

  /** So the file determines the table: two exports with the same bytes list the same cells. */
  lemma FileDeterminesTable(rows: seq<Row>, others: seq<Row>)
    requires rows != [] && others != []
    requires AnyKey(rows) && AnyKey(others)
    requires Print(rows) == Print(others)
    ensures Table(rows) == Table(others)
  {
    RoundTrip(rows);
    RoundTrip(others);
  }

  const BLANK_ROW: seq<Row> := [[]]

  /**
   * No row prints the mark alone; one row without keys prints two blank lines, and reading them gives something
   * else than the empty header.
   */
  lemma BlankRowDoesNotReadBack()
    ensures Print([]) == [BOM] && Print(BLANK_ROW) == [BOM] + "\r\n\r\n"
    ensures ParseFile(Print(BLANK_ROW)[1..]) != Some(Table(BLANK_ROW))
  {
    BlankTable();
    RoundTrip(BLANK_ROW);
    hide ParseFile;
  }

  lemma BlankTable()
    ensures AllKeys(BLANK_ROW) == [] && Table(BLANK_ROW) == [[], []] && FileText([[], []]) == "\r\n\r\n"
  {
    assert BLANK_ROW[..0] == [] && AllKeys(BLANK_ROW) == [];
    assert Lines([[], []]) == ["", ""] && ["", ""][1..] == [""];
  }
}
