/**
 Copying the D1 tables into PostgreSQL once, and proving the copy by comparing hashes of both
 sides. The databases answer queries in primary-key order; hashing and JSON are parameters.
 */
module CoreMigrate {
  import opened Common
  import opened Decimals
  import opened RowHash

  datatype Stored = StoredNull | StoredText(text: string) | StoredInt(value: int)

  type StoredRow = map<string, Stored>

  const INTEGER_COLUMNS := {
    "password_iterations", "password_memory_kib", "password_time_cost", "password_parallelism",
    "totp_last_counter", "failed_attempts", "credential_version", "attempts", "amount_minor"}

  // ---- values -----------------------------------------------------------------------------

  /** strconv.ParseInt in base ten: an optional sign, digits, and the int64 range. */
  function ParseInt64(s: string): Option<int> {
    if s != [] && (s[0] == '-' || s[0] == '+') then
      if s[1..] == [] || !AllDigits(s[1..]) then None
      else if s[0] == '-' then InRange(0 - NatOf(s[1..]))
      else InRange(NatOf(s[1..]))
    else if s != [] && AllDigits(s) then InRange(NatOf(s))
    else None
  }

  function InRange(n: int): Option<int> {
    if -MAX_INT64 - 1 <= n <= MAX_INT64 then Some(n) else None
  }

  /** CAST(... AS TEXT) of an integer. */
  function IntText(n: int): string {
    if n < 0 then "-" + Dec(-n) else Dec(n)
  }

  predicate CanonicalInt(s: string) {
    Canonical(s) || (s != [] && s[0] == '-' && Canonical(s[1..]) && s[1] != '0')
  }

  function Normalized(column: string, cell: Cell): Option<Stored> {
    if cell == Null then Some(StoredNull)
    else if column in INTEGER_COLUMNS then
      match ParseInt64(cell.text)
      case None => None
      case Some(n) => Some(StoredInt(n))
    else Some(StoredText(cell.text))
  }

  function ReadBack(value: Stored): Cell {
    match value
    case StoredNull => Null
    case StoredText(text) => Text(text)
    case StoredInt(n) => Text(IntText(n))
  }

  /** An integer text survives the trip exactly when it is written the way the database writes it. */
  lemma IntegerSurvivesIffCanonical(s: string)
    requires ParseInt64(s).Some?
    ensures IntText(ParseInt64(s).value) == s <==> CanonicalInt(s)
  {
    var n := ParseInt64(s).value;
    DecDenotes(if n < 0 then -n else n);
    if s[0] == '-' || s[0] == '+' {
      var digits := s[1..];
      assert s == [s[0]] + digits;
      if Canonical(digits) { CanonicalIsDec(digits); }
      if CanonicalInt(s) { PositiveNumber(digits); }
      if n < 0 { assert IntText(n)[1..] == Dec(-n); }
      assert IsDigit(Dec(if n < 0 then -n else n)[0]);
    } else {
      if Canonical(s) { CanonicalIsDec(s); }
      assert IsDigit(s[0]);
    }
  }

  /** Every integer of 64 bits is read, from its own notation and with a plus sign, and no other integer is. */
  lemma ReadsEveryInt64(n: int)
    ensures ParseInt64(IntText(n))
         == if -9_223_372_036_854_775_808 <= n <= 9_223_372_036_854_775_807 then Some(n) else None
    ensures n >= 0 ==> ParseInt64("+" + IntText(n)) == ParseInt64(IntText(n))
  {
    var digits := Dec(if n < 0 then -n else n);
    DecDenotes(if n < 0 then -n else n);
    assert IsDigit(digits[0]);
    assert ("-" + digits)[1..] == digits && ("+" + digits)[1..] == digits;
  }

  /** A text with anything else in it is not. */
  lemma ReadsDigitsOnly(s: string)
    ensures ParseInt64(s).Some? ==>
      s != [] && (AllDigits(s) || ((s[0] == '-' || s[0] == '+') && s[1..] != [] && AllDigits(s[1..])))
  {
  }

  // ---- the target -------------------------------------------------------------------------

  function StoredCell(row: StoredRow, column: string): Stored {
    if column in row then row[column] else StoredNull
  }

  function ReadRow(columns: seq<string>, row: StoredRow): Row {
    map column | column in columns :: ReadBack(StoredCell(row, column))
  }

  function ReadRows(columns: seq<string>, rows: seq<StoredRow>): seq<Row> {
    seq(|rows|, i requires 0 <= i < |rows| => ReadRow(columns, rows[i]))
  }

  type Source = map<string, seq<Row>>
  type Target = map<string, seq<StoredRow>>

  function SourceRows(source: Source, table: Table): seq<Row> {
    if table.name in source then source[table.name] else []
  }

  function TargetRows(target: Target, table: Table): seq<StoredRow> {
    if table.name in target then target[table.name] else []
  }

  datatype Entry = Entry(table: string, rows: nat, hash: string)

  datatype Report = Report(copied: bool, entries: seq<Entry>) | Refused

  predicate Wellformed(tables: seq<Table>) {
    && (forall i :: 0 <= i < |tables| ==> tables[i].columns != [])
    && (forall i, j :: 0 <= i < j < |tables| ==> tables[i].name != tables[j].name)
  }

  ghost predicate TablesAgree(source: Source, target: Target, table: Table) {
    RowsAgree(table.columns, SourceRows(source, table), ReadRows(table.columns, TargetRows(target, table)))
  }

  predicate Empty(target: Target, tables: seq<Table>) {
    forall i :: 0 <= i < |tables| ==> TargetRows(target, tables[i]) == []
  }

  predicate NothingToCopy(source: Source, tables: seq<Table>) {
    forall i :: 0 <= i < |tables| ==> SourceRows(source, tables[i]) == []
  }

  /** The value parses and reads back as it was. */
  predicate Survives(column: string, cell: Cell) {
    Normalized(column, cell).Some? && ReadBack(Normalized(column, cell).value) == cell
  }

  predicate RowSurvives(columns: seq<string>, row: Row) {
    forall i :: 0 <= i < |columns| ==> Survives(columns[i], CellOf(row, columns[i]))
  }

  predicate RowsSurvive(columns: seq<string>, rows: seq<Row>) {
    forall i :: 0 <= i < |rows| ==> RowSurvives(columns, rows[i])
  }

  /** NULL and text survive as they are, integers exactly in the database's own notation. */
  lemma SurvivesIff(column: string, cell: Cell)
    ensures Survives(column, cell) <==>
      cell == Null || column !in INTEGER_COLUMNS || (ParseInt64(cell.text).Some? && CanonicalInt(cell.text))
  {
    if cell != Null && column in INTEGER_COLUMNS && ParseInt64(cell.text).Some? {
      IntegerSurvivesIffCanonical(cell.text);
    }
  }

  predicate RowParses(columns: seq<string>, row: Row) {
    forall i :: 0 <= i < |columns| ==> Normalized(columns[i], CellOf(row, columns[i])).Some?
  }

  predicate RowsParse(columns: seq<string>, rows: seq<Row>) {
    forall i :: 0 <= i < |rows| ==> RowParses(columns, rows[i])
  }

  /** A stored row holds the normalized value of every listed column. */
  predicate Converted(columns: seq<string>, row: Row, stored: StoredRow) {
    forall i :: 0 <= i < |columns| ==>
      Some(StoredCell(stored, columns[i])) == Normalized(columns[i], CellOf(row, columns[i]))
  }

  predicate RowsConverted(columns: seq<string>, rows: seq<Row>, stored: seq<StoredRow>) {
    |stored| == |rows| && forall i :: 0 <= i < |rows| ==> Converted(columns, rows[i], stored[i])
  }

  /** A row as it will be inserted; None if some integer does not parse. */
  method InsertParameters(columns: seq<string>, row: Row) returns (params: Option<StoredRow>)
    ensures params.Some? <==> RowParses(columns, row)
    ensures params.Some? ==> Converted(columns, row, params.value)
  {
    var values: StoredRow := map[];
    var i := 0;
    while i < |columns|
      invariant 0 <= i <= |columns|
      invariant forall j :: 0 <= j < i ==>
        columns[j] in values && Some(values[columns[j]]) == Normalized(columns[j], CellOf(row, columns[j]))
    {
      var value := Normalized(columns[i], CellOf(row, columns[i]));
      if value == None { return None; }
      values := values[columns[i] := value.value];
      i := i + 1;
    }
    params := Some(values);
  }

  function EntryFor(source: Source, table: Table, json: Cell -> string, sha: string -> string): Entry {
    Entry(table.name, |SourceRows(source, table)|, sha(Encoded(json, table.columns, SourceRows(source, table))))
  }

  /** The target holds every row of the source's table, converted. */
  ghost predicate Prepared(source: Source, inserts: Target, table: Table) {
    && table.name in inserts
    && RowsConverted(table.columns, SourceRows(source, table), inserts[table.name])
  }

  ghost predicate AllSurvive(source: Source, specs: seq<Table>) {
    forall i :: 0 <= i < |specs| ==> RowsSurvive(specs[i].columns, SourceRows(source, specs[i]))
  }

  predicate AllParse(source: Source, specs: seq<Table>) {
    forall i :: 0 <= i < |specs| ==> RowsParse(specs[i].columns, SourceRows(source, specs[i]))
  }

  function SourceText(source: Source, table: Table, json: Cell -> string): string {
    Encoded(json, table.columns, SourceRows(source, table))
  }

  function TargetText(target: Target, table: Table, json: Cell -> string): string {
    Encoded(json, table.columns, ReadRows(table.columns, TargetRows(target, table)))
  }

  /** What the tool can see: the number of rows and the two hashes. */
  predicate LooksAlike(source: Source, target: Target, table: Table, json: Cell -> string, sha: string -> string) {
    && |SourceRows(source, table)| == |TargetRows(target, table)|
    && sha(SourceText(source, table, json)) == sha(TargetText(target, table, json))
  }

  ghost predicate AllLookAlike(source: Source, target: Target, specs: seq<Table>, json: Cell -> string,
      sha: string -> string)
  {
    forall i :: 0 <= i < |specs| ==> LooksAlike(source, target, specs[i], json, sha)
  }

  /** The texts of the two sides differ and have one hash. */
  predicate Collides(source: Source, target: Target, table: Table, json: Cell -> string, sha: string -> string) {
    && SourceText(source, table, json) != TargetText(target, table, json)
    && sha(SourceText(source, table, json)) == sha(TargetText(target, table, json))
  }

  /**
   Whatever the hash function: tables that agree look alike, and tables that look alike agree on
   every listed cell, or their two texts are a collision of the hash.
   */
  lemma LooksAlikeMeansAgrees(source: Source, target: Target, table: Table, json: Cell -> string, sha: string -> string)
    requires Injective(json) && table.columns != []
    ensures TablesAgree(source, target, table) ==> LooksAlike(source, target, table, json, sha)
    ensures LooksAlike(source, target, table, json, sha) ==>
      TablesAgree(source, target, table) || Collides(source, target, table, json, sha)
  {
    var a, b := SourceRows(source, table), ReadRows(table.columns, TargetRows(target, table));
    if TablesAgree(source, target, table) { AgreeingTablesEncodeAlike(json, table.columns, a, b); }
    if SourceText(source, table, json) == TargetText(target, table, json) {
      EncodingIsInjective(json, table.columns, a, b);
    }
  }

  predicate Unlisted(specs: seq<Table>, name: string) {
    forall i :: 0 <= i < |specs| ==> specs[i].name != name
  }

  /** The values of every listed table were copied, and no other table was touched. */
  ghost predicate CopiedInto(source: Source, specs: seq<Table>, before: Target, after: Target) {
    && (forall i :: 0 <= i < |specs| ==> Prepared(source, after, specs[i]))
    && (forall name {:trigger Unlisted(specs, name)} :: Unlisted(specs, name) ==>
          (name in after <==> name in before) && (name in before ==> after[name] == before[name]))
  }

  class Database {
    var tables: Target

    constructor (tables: Target)
      ensures this.tables == tables
    {
      this.tables := tables;
    }

    /**
     A run copies into an empty target only, and there only the listed tables; it reports success
     exactly when every integer parses and the two sides look alike afterwards, table by table.
     */
    method Run(source: Source, specs: seq<Table>, json: Cell -> string, sha: string -> string, ready: bool)
      returns (report: Report)
      requires Wellformed(specs)
      modifies this
      ensures report.Report? <==> ready && AllParse(source, specs) && AllLookAlike(source, tables, specs, json, sha)
      ensures report.Report? ==>
        && |report.entries| == |specs|
        && (report.copied <==> Empty(old(tables), specs) && !NothingToCopy(source, specs))
        && (forall i :: 0 <= i < |specs| ==> report.entries[i] == EntryFor(source, specs[i], json, sha))
        && (forall i :: 0 <= i < |specs| && specs[i].name in source ==>
              report.entries[i] == Entry(specs[i].name, |source[specs[i].name]|,
                                         sha(Encoded(json, specs[i].columns, source[specs[i].name]))))
      ensures if ready && AllParse(source, specs) && Empty(old(tables), specs) && !NothingToCopy(source, specs)
              then CopiedInto(source, specs, old(tables), tables)
              else tables == old(tables)
    {
      if !ready { return Refused; }
      var inserts, populated, nothing := Collect(source, specs, tables);
      if inserts == None { return Refused; }
      var copied := !populated && !nothing;
      if copied {
        MergeCopies(source, specs, tables, inserts.value);
        tables := tables + inserts.value;
      }
      var entries := Verify(source, specs, json, sha, tables);
      if entries == None { return Refused; }
      report := Report(copied, entries.value);
    }
  }

  /** A copied table holds the source's rows, in order, with every listed value converted. */
  lemma CopiedRows(source: Source, specs: seq<Table>, before: Target, after: Target, i: nat, r: nat, column: string)
    requires CopiedInto(source, specs, before, after) && i < |specs| && specs[i].name in source
    requires r < |source[specs[i].name]| && column in specs[i].columns && column in source[specs[i].name][r]
    ensures specs[i].name in after && |after[specs[i].name]| == |source[specs[i].name]|
    ensures var stored := StoredCell(after[specs[i].name][r], column);
      match source[specs[i].name][r][column]
      case Null => stored == StoredNull
      case Text(text) =>
        if column in INTEGER_COLUMNS then ParseInt64(text).Some? && stored == StoredInt(ParseInt64(text).value)
        else stored == StoredText(text)
  {
    assert Prepared(source, after, specs[i]);
    var k :| 0 <= k < |specs[i].columns| && specs[i].columns[k] == column;
    assert Converted(specs[i].columns, source[specs[i].name][r], after[specs[i].name][r]);
  }

  lemma MergeCopies(source: Source, specs: seq<Table>, before: Target, inserts: Target)
    requires Collected(source, specs, inserts)
    ensures CopiedInto(source, specs, before, before + inserts)
  {
    forall i | 0 <= i < |specs| ensures Prepared(source, before + inserts, specs[i]) {
      assert TargetRows(before + inserts, specs[i]) == TargetRows(inserts, specs[i]);
    }
  }

  /** On an empty target, success is exactly that every value survives, unless the hash collides. */
  lemma EmptyTargetSucceedsIff(source: Source, specs: seq<Table>, before: Target, after: Target,
      json: Cell -> string, sha: string -> string)
    requires Wellformed(specs) && Injective(json) && Empty(before, specs)
    requires if NothingToCopy(source, specs) then after == before else CopiedInto(source, specs, before, after)
    ensures AllSurvive(source, specs) ==> AllLookAlike(source, after, specs, json, sha)
    ensures AllLookAlike(source, after, specs, json, sha) ==> forall i :: 0 <= i < |specs| ==>
      RowsSurvive(specs[i].columns, SourceRows(source, specs[i])) || Collides(source, after, specs[i], json, sha)
  {
    forall i | 0 <= i < |specs|
      ensures RowsSurvive(specs[i].columns, SourceRows(source, specs[i])) ==>
        LooksAlike(source, after, specs[i], json, sha)
      ensures LooksAlike(source, after, specs[i], json, sha) ==>
        RowsSurvive(specs[i].columns, SourceRows(source, specs[i])) || Collides(source, after, specs[i], json, sha)
    {
      LooksAlikeMeansAgrees(source, after, specs[i], json, sha);
      if NothingToCopy(source, specs) {
        assert TargetRows(after, specs[i]) == [];
      } else {
        assert Prepared(source, after, specs[i]);
        RowsAgreeIffSurvive(specs[i].columns, SourceRows(source, specs[i]), TargetRows(after, specs[i]));
      }
    }
  }

  /** The first tables are prepared, and nothing else is. */
  ghost predicate Collected(source: Source, tables: seq<Table>, inserts: Target) {
    && (forall j :: 0 <= j < |tables| ==> Prepared(source, inserts, tables[j]))
    && (forall name {:trigger Unlisted(tables, name)} :: Unlisted(tables, name) ==> name !in inserts)
  }

  lemma CollectedOneMore(source: Source, tables: seq<Table>, table: Table, inserts: Target, rows: seq<StoredRow>)
    requires Collected(source, tables, inserts) && forall j :: 0 <= j < |tables| ==> tables[j].name != table.name
    requires RowsConverted(table.columns, SourceRows(source, table), rows)
    ensures Collected(source, tables + [table], inserts[table.name := rows])
  {
    var more, after := tables + [table], inserts[table.name := rows];
    assert more[|tables|] == table && forall j :: 0 <= j < |tables| ==> more[j] == tables[j];
    forall name | Unlisted(more, name) ensures name !in after {
      assert Unlisted(tables, name);
    }
  }

  lemma OneMoreTable(source: Source, target: Target, specs: seq<Table>, i: nat)
    requires i < |specs|
    ensures Empty(target, specs[..i + 1]) <==> Empty(target, specs[..i]) && TargetRows(target, specs[i]) == []
    ensures NothingToCopy(source, specs[..i + 1]) <==>
      NothingToCopy(source, specs[..i]) && SourceRows(source, specs[i]) == []
    ensures !RowsParse(specs[i].columns, SourceRows(source, specs[i])) ==> !AllParse(source, specs)
    ensures AllParse(source, specs[..i]) && RowsParse(specs[i].columns, SourceRows(source, specs[i])) ==>
      AllParse(source, specs[..i + 1])
  {
    var more := specs[..i + 1];
    assert more[i] == specs[i] && forall j :: 0 <= j < i ==> more[j] == specs[..i][j];
  }

  lemma CollectedNext(source: Source, specs: seq<Table>, i: nat, inserts: Target, rows: seq<StoredRow>)
    requires Wellformed(specs) && i < |specs| && Collected(source, specs[..i], inserts)
    requires RowsConverted(specs[i].columns, SourceRows(source, specs[i]), rows)
    ensures Collected(source, specs[..i + 1], inserts[specs[i].name := rows])
  {
    CollectedOneMore(source, specs[..i], specs[i], inserts, rows);
    assert specs[..i] + [specs[i]] == specs[..i + 1];
  }

  /** Counts the target's tables and prepares one insert per source row. */
  method Collect(source: Source, specs: seq<Table>, target: Target)
    returns (inserts: Option<Target>, populated: bool, nothing: bool)
    requires Wellformed(specs)
    ensures inserts.Some? <==> AllParse(source, specs)
    ensures inserts.Some? ==>
      && (populated <==> !Empty(target, specs)) && (nothing <==> NothingToCopy(source, specs))
      && Collected(source, specs, inserts.value)
  {
    var collected: Target := map[];
    populated, nothing := false, true;
    var i := 0;
    while i < |specs|
      invariant 0 <= i <= |specs|
      invariant populated <==> !Empty(target, specs[..i])
      invariant nothing <==> NothingToCopy(source, specs[..i])
      invariant AllParse(source, specs[..i]) && Collected(source, specs[..i], collected)
    {
      var table := specs[i];
      OneMoreTable(source, target, specs, i);
      if |TargetRows(target, table)| != 0 { populated := true; }
      var parsed := Prepare(table, SourceRows(source, table));
      if parsed == None { return None, populated, nothing; }
      if |SourceRows(source, table)| != 0 { nothing := false; }
      CollectedNext(source, specs, i, collected, parsed.value);
      collected := collected[table.name := parsed.value];
      i := i + 1;
    }
    assert specs[..i] == specs;
    inserts := Some(collected);
  }

  lemma AgreesIffSurvives(columns: seq<string>, row: Row, stored: StoredRow)
    requires Converted(columns, row, stored)
    ensures AgreeOn(columns, row, ReadRow(columns, stored)) <==> RowSurvives(columns, row)
  {
    forall i | 0 <= i < |columns|
      ensures CellOf(ReadRow(columns, stored), columns[i]) == CellOf(row, columns[i])
         <==> Survives(columns[i], CellOf(row, columns[i]))
    {
      assert columns[i] in ReadRow(columns, stored);
    }
  }

  /** Converted rows read back as they were exactly if every value survives. */
  lemma RowsAgreeIffSurvive(columns: seq<string>, rows: seq<Row>, stored: seq<StoredRow>)
    requires RowsConverted(columns, rows, stored)
    ensures RowsAgree(columns, rows, ReadRows(columns, stored)) <==> RowsSurvive(columns, rows)
  {
    var read := ReadRows(columns, stored);
    forall i | 0 <= i < |rows|
      ensures AgreeOn(columns, rows[i], read[i]) <==> RowSurvives(columns, rows[i])
    {
      AgreesIffSurvives(columns, rows[i], stored[i]);
    }
  }

  method Prepare(table: Table, rows: seq<Row>) returns (prepared: Option<seq<StoredRow>>)
    ensures prepared.Some? <==> RowsParse(table.columns, rows)
    ensures prepared.Some? ==> RowsConverted(table.columns, rows, prepared.value)
  {
    var result: seq<StoredRow> := [];
    var i := 0;
    while i < |rows|
      invariant 0 <= i <= |rows| && |result| == i
      invariant forall j :: 0 <= j < i ==> RowParses(table.columns, rows[j])
      invariant forall j :: 0 <= j < i ==> Converted(table.columns, rows[j], result[j])
    {
      var params := InsertParameters(table.columns, rows[i]);
      if params == None { return None; }
      result := result + [params.value];
      i := i + 1;
    }
    prepared := Some(result);
  }

  /** Hashes both sides table by table and stops at the first that differs. */
  method Verify(source: Source, specs: seq<Table>, json: Cell -> string, sha: string -> string, target: Target)
    returns (entries: Option<seq<Entry>>)
    ensures entries.Some? <==> AllLookAlike(source, target, specs, json, sha)
    ensures entries.Some? ==>
      && |entries.value| == |specs|
      && forall i :: 0 <= i < |specs| ==> entries.value[i] == EntryFor(source, specs[i], json, sha)
  {
    var result := [];
    var i := 0;
    while i < |specs|
      invariant 0 <= i <= |specs| && |result| == i
      invariant forall j :: 0 <= j < i ==> LooksAlike(source, target, specs[j], json, sha)
      invariant forall j :: 0 <= j < i ==> result[j] == EntryFor(source, specs[j], json, sha)
    {
      var targetRows := ReadRows(specs[i].columns, TargetRows(target, specs[i]));
      var sourceHash, targetHash := sha(SourceText(source, specs[i], json)), sha(TargetText(target, specs[i], json));
      if |SourceRows(source, specs[i])| != |targetRows| || sourceHash != targetHash { return None; }
      result := result + [Entry(specs[i].name, |targetRows|, sourceHash)];
      i := i + 1;
    }
    entries := Some(result);
  }

  /** A second run right after a successful one succeeds too, copies nothing and reports the same hashes. */
  method RunTwice(database: Database, source: Source, specs: seq<Table>, json: Cell -> string, sha: string -> string,
      ready: bool)
    returns (first: Report, second: Report)
    requires Wellformed(specs)
    modifies database
    ensures first.Report? ==> second.Report? && second.entries == first.entries && !second.copied
  {
    first := database.Run(source, specs, json, sha, ready);
    ghost var between := database.tables;
    second := database.Run(source, specs, json, sha, ready);
    if first.Report? { SuccessLeavesNothingToCopy(source, between, specs, json, sha); }
  }

  lemma SuccessLeavesNothingToCopy(source: Source, target: Target, specs: seq<Table>, json: Cell -> string,
      sha: string -> string)
    requires AllLookAlike(source, target, specs, json, sha)
    ensures Empty(target, specs) ==> NothingToCopy(source, specs)
  {
    forall i | 0 <= i < |specs| && Empty(target, specs) ensures SourceRows(source, specs[i]) == [] {
      assert LooksAlike(source, target, specs[i], json, sha);
    }
  }
}
