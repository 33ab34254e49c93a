/**
 What the migration compares: the text fed to the hash for a table's rows, in which every
 column name and every value is preceded by its length.
 */
module RowHash {
  import opened Decimals

  datatype Cell = Null | Text(text: string)

  type Row = map<string, Cell>

  datatype Table = Table(name: string, columns: seq<string>)

  /** A column a row does not have reads as NULL. */
  function CellOf(row: Row, column: string): Cell {
    if column in row then row[column] else Null
  }

  /** "%d:%s=%d:" of the column and the value's JSON, then the JSON. */
  function Field(column: string, value: string): string {
    Dec(|column|) + ":" + column + "=" + (Dec(|value|) + ":" + value)
  }

  function RowText(json: Cell -> string, columns: seq<string>, row: Row): string {
    if columns == [] then []
    else Field(columns[0], json(CellOf(row, columns[0]))) + RowText(json, columns[1..], row)
  }

  /** Everything rowsHash writes into the hash. */
  function Encoded(json: Cell -> string, columns: seq<string>, rows: seq<Row>): string {
    if rows == [] then [] else RowText(json, columns, rows[0]) + Encoded(json, columns, rows[1..])
  }

  ghost predicate Injective<A(!new), B(!new)>(f: A -> B) {
    forall a, b :: f(a) == f(b) ==> a == b
  }

  predicate AgreeOn(columns: seq<string>, a: Row, b: Row) {
    forall i :: 0 <= i < |columns| ==> CellOf(a, columns[i]) == CellOf(b, columns[i])
  }

  predicate RowsAgree(columns: seq<string>, a: seq<Row>, b: seq<Row>) {
    |a| == |b| && forall i :: 0 <= i < |a| ==> AgreeOn(columns, a[i], b[i])
  }

  // ---- a length-prefixed value can be read off the front of any text ------------------------

  function BeforeColon(s: string): string {
    if s == [] || s[0] == ':' then [] else [s[0]] + BeforeColon(s[1..])
  }

  lemma {:induction false} DigitsAreBeforeColon(digits: string, rest: string)
    requires AllDigits(digits)
    ensures BeforeColon(digits + ":" + rest) == digits
  {
    if digits != [] {
      assert IsDigit(digits[0]);
      assert (digits + ":" + rest)[1..] == digits[1..] + ":" + rest;
      DigitsAreBeforeColon(digits[1..], rest);
    }
  }

  lemma DigitsBeforeColon(a: string, b: string, x: string, y: string)
    requires AllDigits(a) && AllDigits(b) && a + ":" + x == b + ":" + y
    ensures a == b && x == y
  {
    DigitsAreBeforeColon(a, x);
    DigitsAreBeforeColon(b, y);
    SplitAt(a + ":", b + ":", x, y);
  }

  lemma DecIsInjective(m: nat, n: nat)
    requires Dec(m) == Dec(n)
    ensures m == n
  {
    DecDenotes(m);
    DecDenotes(n);
  }

  lemma SplitAt(a: string, b: string, x: string, y: string)
    requires |a| == |b| && a + x == b + y
    ensures a == b && x == y
  {
    assert (a + x)[..|a|] == a && (b + y)[..|b|] == b;
    assert (a + x)[|a|..] == x && (b + y)[|b|..] == y;
  }

  lemma Regroup(a: string, v: string, x: string)
    ensures a + ":" + v + x == a + ":" + (v + x)
  {
  }

  lemma PrefixedValue(v: string, w: string, x: string, y: string)
    requires Dec(|v|) + ":" + v + x == Dec(|w|) + ":" + w + y
    ensures v == w && x == y
  {
    Regroup(Dec(|v|), v, x);
    Regroup(Dec(|w|), w, y);
    DigitsBeforeColon(Dec(|v|), Dec(|w|), v + x, w + y);
    DecIsInjective(|v|, |w|);
    SplitAt(v, w, x, y);
  }

  lemma FieldPrefix(column: string, v: string, w: string, x: string, y: string)
    requires Field(column, v) + x == Field(column, w) + y
    ensures v == w && x == y
  {
    var head := Dec(|column|) + ":" + column + "=";
    var a, b := Dec(|v|) + ":" + v, Dec(|w|) + ":" + w;
    assert Field(column, v) + x == head + (a + x) && Field(column, w) + y == head + (b + y);
    SplitAt(head, head, a + x, b + y);
    PrefixedValue(v, w, x, y);
  }

  lemma {:induction false} RowPrefix(json: Cell -> string, columns: seq<string>, a: Row, b: Row, x: string, y: string)
    requires Injective(json)
    requires RowText(json, columns, a) + x == RowText(json, columns, b) + y
    ensures AgreeOn(columns, a, b) && x == y
    decreases |columns|
  {
    if columns == [] {
      assert [] + x == x && [] + y == y;
    } else {
      var v, w := json(CellOf(a, columns[0])), json(CellOf(b, columns[0]));
      var more, others := RowText(json, columns[1..], a), RowText(json, columns[1..], b);
      assert RowText(json, columns, a) + x == Field(columns[0], v) + (more + x);
      assert RowText(json, columns, b) + y == Field(columns[0], w) + (others + y);
      FieldPrefix(columns[0], v, w, more + x, others + y);
      RowPrefix(json, columns[1..], a, b, x, y);
      forall i | 0 <= i < |columns| ensures CellOf(a, columns[i]) == CellOf(b, columns[i]) {
        if i > 0 { assert columns[i] == columns[1..][i - 1]; }
      }
    }
  }

  lemma EmptyTextIffNoRows(json: Cell -> string, columns: seq<string>, rows: seq<Row>)
    requires columns != []
    ensures Encoded(json, columns, rows) == [] <==> rows == []
  {
    if rows != [] { assert |RowText(json, columns, rows[0])| > 0; }
  }

  /** The hashed text determines the number of rows and every listed cell of each. */
  lemma {:induction false} EncodingIsInjective(json: Cell -> string, columns: seq<string>, a: seq<Row>, b: seq<Row>)
    requires Injective(json) && columns != []
    requires Encoded(json, columns, a) == Encoded(json, columns, b)
    ensures RowsAgree(columns, a, b)
    decreases |a|
  {
    EmptyTextIffNoRows(json, columns, a);
    EmptyTextIffNoRows(json, columns, b);
    if a != [] {
      RowPrefix(json, columns, a[0], b[0], Encoded(json, columns, a[1..]), Encoded(json, columns, b[1..]));
      EncodingIsInjective(json, columns, a[1..], b[1..]);
      forall i | 0 <= i < |a| ensures |a| == |b| && AgreeOn(columns, a[i], b[i]) {
        if i > 0 { assert a[i] == a[1..][i - 1] && b[i] == b[1..][i - 1]; }
      }
    }
  }

  /** In particular the two tables show the same in every cell, a missing one being NULL. */
  lemma EncodingDeterminesCells(json: Cell -> string, columns: seq<string>, a: seq<Row>, b: seq<Row>, i: nat,
      column: string)
    requires Injective(json) && Encoded(json, columns, a) == Encoded(json, columns, b)
    requires column in columns && i < |a|
    ensures |b| == |a|
    ensures column in a[i] && column in b[i] ==> a[i][column] == b[i][column]
    ensures column in a[i] && column !in b[i] ==> a[i][column] == Null
    ensures column !in a[i] && column in b[i] ==> b[i][column] == Null
  {
    EncodingIsInjective(json, columns, a, b);
    var k :| 0 <= k < |columns| && columns[k] == column;
    assert AgreeOn(columns, a[i], b[i]);
  }

  lemma {:induction false} AgreeingRowsEncodeAlike(json: Cell -> string, columns: seq<string>, a: Row, b: Row)
    requires AgreeOn(columns, a, b)
    ensures RowText(json, columns, a) == RowText(json, columns, b)
    decreases |columns|
  {
    if columns != [] {
      forall i | 0 <= i < |columns[1..]| ensures CellOf(a, columns[1..][i]) == CellOf(b, columns[1..][i]) {
        assert columns[1..][i] == columns[i + 1];
      }
      AgreeingRowsEncodeAlike(json, columns[1..], a, b);
    }
  }

  lemma {:induction false} AgreeingTablesEncodeAlike(json: Cell -> string, columns: seq<string>,
      a: seq<Row>, b: seq<Row>)
    requires RowsAgree(columns, a, b)
    ensures Encoded(json, columns, a) == Encoded(json, columns, b)
    decreases |a|
  {
    if a != [] {
      AgreeingRowsEncodeAlike(json, columns, a[0], b[0]);
      AgreeingTablesEncodeAlike(json, columns, a[1..], b[1..]);
    }
  }
}
