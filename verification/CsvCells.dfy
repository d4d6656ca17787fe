/** What a spreadsheet shows of an export, cell by cell, in terms of the rows alone. */
module CsvCells {
  import opened Csv

  /** Pair `j` is what the row holds under the column: a key listed twice would count once. */
  ghost predicate Holds(row: Row, j: nat, column: string) {
    && j < |row| && row[j].0 == column
    && forall i :: 0 <= i < j ==> row[i].0 != column
  }

  /** The text of each kind of value. */
  predicate Prints(value: Value, text: string) {
    && (value.Nullish? ==> text == "")
    && (value.Date? ==> text == value.iso)
    && (value.Nested? ==> text == value.json)
    && (value.Other? ==> text == value.text)
  }

  lemma StringifyPrints(value: Value, text: string)
    ensures Prints(value, text) <==> text == Stringify(value)
  {
  }

  lemma {:induction false} LookupHolds(row: Row, column: string, j: nat)
    requires Holds(row, j, column)
    ensures j < |row| && Lookup(row, column) == row[j].1
  {
    if j > 0 {
      assert row[0].0 != column;
      assert Holds(row[1..], j - 1, column);
      LookupHolds(row[1..], column, j - 1);
    }
  }

  lemma {:induction false} LookupMisses(row: Row, column: string)
    requires forall j :: 0 <= j < |row| ==> row[j].0 != column
    ensures Lookup(row, column) == Nullish
  {
    if row != [] {
      assert row[0].0 != column;
      assert forall j :: 0 <= j < |row[1..]| ==> row[1..][j] == row[j + 1];
      LookupMisses(row[1..], column);
    }
  }

  lemma {:induction false} FirstOfKey(row: Row, column: string, k: nat)
    requires k < |row| && row[k].0 == column
    ensures exists j: nat :: Holds(row, j, column)
  {
    if forall i :: 0 <= i < k ==> row[i].0 != column {
      assert Holds(row, k, column);
    } else {
      var i :| 0 <= i < k && row[i].0 == column;
      FirstOfKey(row, column, i);
    }
  }

  /** A field is printed as it is exactly when it holds no quote, comma or line break. */
  lemma QuotedOnlyWhenNeeded(value: string)
    ensures Escape(value) == value <==> forall c :: c in value ==> c !in "\",\r\n"
    ensures Escape(value) != value ==> |Escape(value)| >= |value| + 2 && Escape(value)[0] == '"'
  {
    DoublingLengthens(value);
    hide DoubleQuotes;
    if exists c :: c in value && c in "\",\r\n" {
      var c :| c in value && c in "\",\r\n";
      var i :| 0 <= i < |value| && value[i] == c;
      assert IsSpecial(value[i]);
    }
    if NeedsQuotes(value) {
      var i :| 0 <= i < |value| && IsSpecial(value[i]);
      assert value[i] in value && value[i] in "\",\r\n";
    }
  }

  lemma {:induction false} DoublingLengthens(value: string)
    ensures |DoubleQuotes(value)| >= |value|
  {
    if value != "" {
      DoublingLengthens(value[1..]);
    }
  }

  /** What the file shows of row `r` under column `c`, the file read back. */
  predicate Shows(file: seq<seq<string>>, r: nat, c: nat, text: string) {
    r + 1 < |file| && c < |file[r + 1]| && file[r + 1][c] == text
  }

  lemma CellIsLookup(rows: seq<Row>, r: nat, c: nat)
    requires AnyKey(rows) && r < |rows| && c < |Columns(rows)|
    ensures var read := ParseFile(Print(rows)[1..]);
      && read.Some? && |read.value| == |rows| + 1 && read.value[0] == Columns(rows)
      && |read.value[r + 1]| == |Columns(rows)|
      && Shows(read.value, r, c, Stringify(Lookup(rows[r], Columns(rows)[c])))
  {
    hide ParseFile, Print, Columns, AllKeys, AnyKey, Lookup, Stringify;
    RoundTrip(rows);
    assert Table(rows)[r + 1] == Cells(rows[r], Columns(rows));
  }

  /**
   * Read back, an export has one record a row under a header of exactly the rows' keys. The cell of a row at a
   * column is the text of the value the row holds there, and is empty exactly when it holds none, or one that
   * prints as nothing.
   */
  lemma CellsReadBack(rows: seq<Row>, r: nat, c: nat)
    requires AnyKey(rows) && r < |rows| && c < |Columns(rows)|
    ensures var read := ParseFile(Print(rows)[1..]);
      && read.Some? && |read.value| == |rows| + 1 && read.value[0] == Columns(rows)
      && |read.value[r + 1]| == |Columns(rows)|
      && (forall key :: key in read.value[0] <==> ListsKey(rows, key))
      && (forall j: nat, text :: Holds(rows[r], j, Columns(rows)[c]) ==>
            (Shows(read.value, r, c, text) <==> Prints(rows[r][j].1, text)))
      && (Shows(read.value, r, c, "") <==>
            forall j: nat :: Holds(rows[r], j, Columns(rows)[c]) ==> Prints(rows[r][j].1, ""))
  {
    hide ParseFile, Print, Columns, AllKeys, AnyKey, Lookup, Stringify, Prints, Holds;
    CellIsLookup(rows, r, c);
    HeaderIsTheKeys(rows);
    hide ListsKey;
    var row, column := rows[r], Columns(rows)[c];
    forall j: nat | Holds(row, j, column) ensures j < |row| && Lookup(row, column) == row[j].1 {
      LookupHolds(row, column, j);
    }
    forall value, text ensures Prints(value, text) <==> text == Stringify(value) {
      StringifyPrints(value, text);
    }
    if !exists j: nat :: Holds(row, j, column) {
      NothingHeld(row, column);
    }
  }

  lemma NothingHeld(row: Row, column: string)
    requires forall j: nat :: !Holds(row, j, column)
    ensures Stringify(Lookup(row, column)) == ""
  {
    forall k | 0 <= k < |row| ensures row[k].0 != column {
      if row[k].0 == column {
        FirstOfKey(row, column, k);
      }
    }
    LookupMisses(row, column);
    hide Lookup;
  }
}
