/** VerticaPlatform: the Vertica dialect of Doctrine's SQL generation, as far
    as it is written in this adapter: splitting table names, the type mapping,
    type declarations, CREATE SEQUENCE, CREATE TABLE and the statements that
    drop columns.

    What Doctrine's own classes compute (quoted identifiers, a type's SQL
    declaration, a default clause, a foreign key declaration, a column's
    comment) arrives already computed in the input records. */
module Platform {
  import opened Common
  import Connection

  /** getDefaultSchemaName() */
  const DefaultSchemaName := "public"

  /** getVarcharMaxLength() */
  const VarcharMaxLength := 65000

  // ---------------------------------------------------------------------------
  // splitTableName

  datatype TableName = TableName(schema: string, name: string)

  /** splitTableName($name): without a dot the name lives in `public`; with
      dots, the schema is the text before the first dot and the name the text
      between the first and the second. */
  function SplitTableName(name: string): (r: TableName)
    ensures '.' !in name ==> r == TableName(DefaultSchemaName, name)
    ensures '.' in name ==> '.' !in r.schema && '.' !in r.name
  {
    if '.' in name then
      SplitMany(name, '.');
      var parts := Split(name, '.');
      TableName(parts[0], parts[1])
    else TableName(DefaultSchemaName, name)
  }

  /** A qualified name splits back into its schema and name, whatever follows
      a second dot. */
  lemma SplitQualified(schema: string, table: string, rest: string)
    requires '.' !in schema && '.' !in table
    ensures SplitTableName(schema + "." + table) == TableName(schema, table)
    ensures SplitTableName(schema + "." + table + "." + rest) == TableName(schema, table)
  {
    var q := schema + "." + table;
    assert q == schema + ['.'] + table;
    assert q[|schema|] == '.';
    SplitAt(schema, table, '.');
    SplitNoSep(table, '.');
    var r := schema + "." + table + "." + rest;
    assert r == schema + ['.'] + (table + ['.'] + rest);
    assert r[|schema|] == '.';
    SplitAt(schema, table + ['.'] + rest, '.');
    SplitAt(table, rest, '.');
  }

  // ---------------------------------------------------------------------------
  // initializeDoctrineTypeMappings

  /** The Vertica type names and the Doctrine type each one is read as. */
  const DoctrineTypeMapping: map<string, string> := map[
    "bigint" := "integer", "integer" := "integer", "int" := "integer", "int8" := "integer",
    "smallint" := "integer", "tinyint" := "integer",
    "boolean" := "boolean",
    "varchar" := "string", "character varying" := "string", "char" := "string", "character" := "string",
    "text" := "text",
    "date" := "date", "datetime" := "datetime", "smalldatetime" := "datetime", "timestamp" := "datetime",
    "timestamptz" := "datetimetz", "time" := "time", "timetz" := "time",
    "float" := "float", "float8" := "float", "double precision" := "float", "real" := "float",
    "decimal" := "decimal", "money" := "decimal", "numeric" := "decimal", "number" := "decimal",
    "binary" := "blob", "varbinary" := "blob", "bytea" := "blob", "raw" := "blob"]

  const IntegerFamily: set<string> := {"bigint", "integer", "int", "int8", "smallint", "tinyint"}
  const CharacterFamily: set<string> := {"varchar", "character varying", "char", "character"}

  /** getDoctrineTypeMapping($dbType): the type name is looked up lower-cased;
      None is the exception for an unknown type. */
  function DoctrineTypeOf(dbType: string): (r: Option<string>)
    ensures r.Some? <==> Lower(dbType) in DoctrineTypeMapping
    ensures r.Some? ==> r.value == DoctrineTypeMapping[Lower(dbType)]
  {
    var t := Lower(dbType);
    if t in DoctrineTypeMapping then Some(DoctrineTypeMapping[t]) else None
  }

  /** Every integer width is read as Doctrine's integer, and only those. */
  lemma IntegerFamilyIsInteger(t: string)
    requires t in DoctrineTypeMapping
    ensures DoctrineTypeMapping[t] == "integer" <==> t in IntegerFamily
  {
  }

  /** Every character type is read as Doctrine's string, and only those. */
  lemma CharacterFamilyIsString(t: string)
    requires t in DoctrineTypeMapping
    ensures DoctrineTypeMapping[t] == "string" <==> t in CharacterFamily
  {
  }

  /** A name without capitals is looked up as it is. */
  lemma {:induction false} LowerUnchanged(s: string)
    requires forall i :: 0 <= i < |s| ==> !('A' <= s[i] <= 'Z')
    ensures Lower(s) == s
  {
  }

  // ---------------------------------------------------------------------------
  // Type declarations

  /** getVarcharTypeDeclarationSQLSnippet($length, $fixed): a missing or zero
      length means 255. */
  function VarcharSnippet(length: Option<int>, fixed: bool): (r: string)
  {
    var n := if length.Some? && length.value != 0 then length.value else 255;
    (if fixed then "CHAR(" else "VARCHAR(") + IntToString(n) + ")"
  }

  /** The snippet is CHAR exactly when the column is fixed, and the number
      between its parentheses reads back as the length, or 255 without one. */
  lemma VarcharSnippetLength(length: Option<int>, fixed: bool)
    requires length.None? || length.value >= 0
    ensures var r := VarcharSnippet(length, fixed);
            var open := if fixed then 5 else 8;
            && |r| > open && r[|r| - 1] == ')'
            && r[..open] == (if fixed then "CHAR(" else "VARCHAR(")
            && ParseDigits(r[open..|r| - 1]) == (if length.Some? && length.value != 0 then length.value else 255)
  {
    var n := if length.Some? && length.value != 0 then length.value else 255;
    var r := VarcharSnippet(length, fixed);
    var open := if fixed then 5 else 8;
    var head := if fixed then "CHAR(" else "VARCHAR(";
    assert r == head + NatToString(n) + ")";
    assert r[open..|r| - 1] == NatToString(n);
    NatToStringRoundTrip(n);
  }

  /** getIntegerTypeDeclarationSQL($columnDef): an auto-increment column
      (a non-empty `autoincrement` entry) is AUTO_INCREMENT, any other INTEGER. */
  function IntegerDeclaration(autoincrement: Value): (r: string)
    ensures r == "AUTO_INCREMENT" <==> !EmptyValue(autoincrement)
    ensures r == "INTEGER" <==> EmptyValue(autoincrement)
  {
    if !EmptyValue(autoincrement) then "AUTO_INCREMENT" else "INTEGER"
  }

  /** getSmallIntTypeDeclarationSQL($columnDef): Vertica has one integer type. */
  function SmallIntDeclaration(autoincrement: Value): (r: string)
    ensures r == IntegerDeclaration(autoincrement)
  {
    IntegerDeclaration(autoincrement)
  }

  // ---------------------------------------------------------------------------
  // CREATE SEQUENCE

  datatype Sequence = Sequence(quotedName: string, allocationSize: int, initialValue: int, cache: int)

  /** getSequenceCacheSQL($sequence) */
  function SequenceCacheSQL(cache: int): (r: string)
    ensures r != "" <==> cache > 1
    ensures cache > 1 ==> r == " CACHE " + IntToString(cache)
  {
    if cache > 1 then " CACHE " + IntToString(cache) else ""
  }

  /** The part of CREATE SEQUENCE that does not depend on the cache. */
  function SequenceHead(s: Sequence): string {
    "CREATE SEQUENCE " + s.quotedName
      + " INCREMENT BY " + IntToString(s.allocationSize)
      + " MINVALUE " + IntToString(s.initialValue)
      + " START " + IntToString(s.initialValue)
  }

  /** getCreateSequenceSQL($sequence): a CACHE clause follows exactly when
      the cache is above one. */
  function CreateSequenceSQL(s: Sequence): (r: string)
    ensures s.cache <= 1 ==> r == SequenceHead(s)
    ensures s.cache > 1 ==> r == SequenceHead(s) + " CACHE " + IntToString(s.cache)
  {
    SequenceHead(s) + SequenceCacheSQL(s.cache)
  }

  // ---------------------------------------------------------------------------
  // CREATE TABLE

  /** A column of the table: its names, its Doctrine type name and length,
      and the pieces of its declaration Doctrine computes (the type's SQL
      declaration and the default clause). `comment` is the column comment,
      "" for none. */
  datatype ColumnSpec = ColumnSpec(
    name: string, quotedName: string, typeName: string, length: Option<int>,
    typeDecl: string, defaultDecl: string, notnull: bool, unique: bool, check: string,
    encoding: string, columnDefinition: Option<string>, comment: string)

  /** An entry of getCreateTableSQL's $columns: the column under its quoted
      name, with its final length and primary flag. */
  datatype ColumnData = ColumnData(spec: ColumnSpec, name: string, length: Option<int>, primary: bool)

  datatype IndexSpec = IndexSpec(quotedName: string, isPrimary: bool, quotedColumns: seq<string>)

  /** A foreign key, with the declaration Doctrine writes for it. */
  datatype ForeignKeySpec = ForeignKeySpec(declaration: string)

  datatype TableSpec = TableSpec(
    name: string, quotedName: string, columns: seq<ColumnSpec>, indexes: seq<IndexSpec>,
    foreignKeys: seq<ForeignKeySpec>, partition: Option<string>)

  datatype TableOptions = TableOptions(primary: seq<string>, partition: Option<string>, foreignKeys: Option<seq<ForeignKeySpec>>)

  datatype PlatformError = FlagsNotInteger | NoColumns(table: string)

  /** AbstractPlatform::CREATE_INDEXES and CREATE_FOREIGNKEYS, as bit tests on
      a PHP int (floor division reads the bits of a negative number in two's
      complement, as PHP's `&` does). */
  predicate CreatesIndexes(flags: int) {
    flags % 2 == 1
  }

  predicate CreatesForeignKeys(flags: int) {
    (flags / 2) % 2 == 1
  }

  /** getColumnDeclarationSQL($name, $field) */
  function ColumnDeclaration(c: ColumnData): string {
    c.name + " " +
    if c.spec.columnDefinition.Some? then c.spec.columnDefinition.value
    else
      c.spec.typeDecl + c.spec.defaultDecl
        + (if c.spec.notnull then " NOT NULL" else "")
        + (if c.spec.unique then " UNIQUE" else "")
        + (if !EmptyString(c.spec.check) then " " + c.spec.check else "")
        + (if !EmptyString(c.spec.encoding) then " ENCODING " + c.spec.encoding else "")
  }

  /** array_unique: the first occurrence of each value, in order. */
  function Dedup(s: seq<string>): (d: seq<string>)
    ensures forall x :: x in d <==> x in s
    ensures forall i, j :: 0 <= i < j < |d| ==> d[i] != d[j]
    decreases |s|
  {
    if s == [] then []
    else
      var d := Dedup(s[..|s| - 1]);
      assert forall x :: x in s[..|s| - 1] ==> x in s;
      assert s == s[..|s| - 1] + [s[|s| - 1]];
      if s[|s| - 1] in d then d else d + [s[|s| - 1]]
  }

  function PrimaryKeyClause(primary: seq<string>): (r: string)
    ensures r == "" <==> primary == []
  {
    if primary == [] then "" else ", PRIMARY KEY(" + Join(Dedup(primary), ", ") + ")"
  }

  function PartitionClause(partition: Option<string>): (r: string)
    ensures r == "" <==> partition.None? || EmptyString(partition.value)
  {
    if partition.Some? && !EmptyString(partition.value) then " PARTITION BY " + partition.value else ""
  }

  function Declarations(columns: seq<ColumnData>): (decls: seq<string>)
    ensures |decls| == |columns|
  {
    seq(|columns|, i requires 0 <= i < |columns| => ColumnDeclaration(columns[i]))
  }

  /** The CREATE TABLE statement _getCreateTableSQL starts with. */
  function CreateTableStatement(tableName: string, columns: seq<ColumnData>, options: TableOptions): (sql: string)
    ensures |sql| > 13 + |tableName| && sql[..13] == "CREATE TABLE " && sql[13..13 + |tableName|] == tableName
  {
    "CREATE TABLE " + tableName + " (" + Join(Declarations(columns), ", ")
      + PrimaryKeyClause(options.primary) + ")" + PartitionClause(options.partition)
  }

  /** getCreateForeignKeySQL($foreignKey, $table) */
  function CreateForeignKey(fk: ForeignKeySpec, tableName: string): string {
    "ALTER TABLE " + tableName + " ADD " + fk.declaration
  }

  /** One ADD statement per foreign key, in order. */
  function ForeignKeyStatements(fks: seq<ForeignKeySpec>, tableName: string): seq<string>
    decreases |fks|
  {
    if fks == [] then []
    else ForeignKeyStatements(fks[..|fks| - 1], tableName) + [CreateForeignKey(fks[|fks| - 1], tableName)]
  }

  lemma {:induction false} ForeignKeyStatementsEach(fks: seq<ForeignKeySpec>, tableName: string)
    ensures |ForeignKeyStatements(fks, tableName)| == |fks|
    ensures forall i :: 0 <= i < |fks| ==> ForeignKeyStatements(fks, tableName)[i] == CreateForeignKey(fks[i], tableName)
    decreases |fks|
  {
    if fks != [] {
      var front := fks[..|fks| - 1];
      ForeignKeyStatementsEach(front, tableName);
      assert forall i :: 0 <= i < |front| ==> front[i] == fks[i];
    }
  }

  /** _getCreateTableSQL($tableName, $columns, $options) */
  function CreateTableStatements(tableName: string, columns: seq<ColumnData>, options: TableOptions): seq<string> {
    [CreateTableStatement(tableName, columns, options)]
      + (if options.foreignKeys.Some? then ForeignKeyStatements(options.foreignKeys.value, tableName) else [])
  }

  /** The primary key columns: those of the last primary index. */
  function PrimaryColumns(indexes: seq<IndexSpec>): seq<string>
    decreases |indexes|
  {
    if indexes == [] then []
    else if indexes[|indexes| - 1].isPrimary then indexes[|indexes| - 1].quotedColumns
    else PrimaryColumns(indexes[..|indexes| - 1])
  }

  /** A column as getCreateTableSQL files it: under its quoted name, a string
      column without a length gets 255, and a column named in the primary
      key is marked primary. */
  function ColumnDataOf(c: ColumnSpec, primary: seq<string>): (d: ColumnData)
    ensures d.name == c.quotedName && d.spec == c
    ensures d.length == (if Lower(c.typeName) == "string" && c.length.None? then Some(255) else c.length)
    ensures d.primary <==> c.name in primary
  {
    ColumnData(c, c.quotedName,
               if Lower(c.typeName) == "string" && c.length.None? then Some(255) else c.length,
               c.name in primary)
  }

  /** The columns in the order the table lists them. */
  function ColumnsOf(specs: seq<ColumnSpec>, primary: seq<string>): (columns: seq<ColumnData>)
    ensures |columns| == |specs|
    ensures forall i :: 0 <= i < |specs| ==> columns[i] == ColumnDataOf(specs[i], primary)
  {
    seq(|specs|, i requires 0 <= i < |specs| => ColumnDataOf(specs[i], primary))
  }

  /** getCommentOnColumnSQL($tableName, $columnName, $comment) */
  function CommentOnColumn(tableName: string, columnName: string, comment: string): string {
    "COMMENT ON COLUMN " + tableName + "." + columnName + " IS " + Connection.QuoteString(comment)
  }

  /** One COMMENT statement per column with a non-empty comment, in column order. */
  function CommentStatements(tableName: string, columns: seq<ColumnSpec>): seq<string>
    decreases |columns|
  {
    if columns == [] then []
    else
      var c := columns[|columns| - 1];
      CommentStatements(tableName, columns[..|columns| - 1])
        + (if c.comment != "" then [CommentOnColumn(tableName, c.quotedName, c.comment)] else [])
  }

  /** The statements getCreateTableSQL returns for a table it accepts. */
  function CreateTableSQL(table: TableSpec, flags: int): seq<string> {
    var primary := if CreatesIndexes(flags) then PrimaryColumns(table.indexes) else [];
    var columns := ColumnsOf(table.columns, primary);
    var options := TableOptions(primary, table.partition, if CreatesForeignKeys(flags) then Some(table.foreignKeys) else None);
    CreateTableStatements(table.quotedName, columns, options) + CommentStatements(table.quotedName, table.columns)
  }

  /** The first statement creates the table; the foreign keys follow, one
      statement each and in order, when the flags ask for them, and the
      column comments come last. */
  lemma CreateTableSQLShape(table: TableSpec, flags: int)
    ensures var sql := CreateTableSQL(table, flags);
            var fks := if CreatesForeignKeys(flags) then |table.foreignKeys| else 0;
            && |sql| == 1 + fks + |CommentStatements(table.quotedName, table.columns)|
            && sql[0][..13] == "CREATE TABLE "
            && (forall i :: 0 <= i < fks ==> sql[1 + i] == CreateForeignKey(table.foreignKeys[i], table.quotedName))
  {
    ForeignKeyStatementsEach(table.foreignKeys, table.quotedName);
  }

  /** Only a primary index reaches CREATE TABLE: whatever other indexes the
      table has, the statements are those of the table without them. */
  lemma {:induction false} OtherIndexesIgnored(table: TableSpec, flags: int, other: IndexSpec)
    requires !other.isPrimary
    ensures CreateTableSQL(table.(indexes := table.indexes + [other]), flags) == CreateTableSQL(table, flags)
  {
    var ix := table.indexes + [other];
    assert ix[..|ix| - 1] == table.indexes;
    assert PrimaryColumns(ix) == PrimaryColumns(table.indexes);
  }

  /** getCreateTableSQL($table, $createFlags) */
  method GetCreateTableSQL(table: TableSpec, createFlags: Value) returns (r: Result<seq<string>, PlatformError>)
    ensures !createFlags.VInt? ==> r == Err(FlagsNotInteger)
    ensures createFlags.VInt? && table.columns == [] ==> r == Err(NoColumns(table.name))
    ensures createFlags.VInt? && table.columns != [] ==> r == Ok(CreateTableSQL(table, createFlags.i))
  {
    if !createFlags.VInt? {
      return Err(FlagsNotInteger);
    }
    var flags := createFlags.i;
    if |table.columns| == 0 {
      return Err(NoColumns(table.name));
    }
    var primary: seq<string> := [];
    if CreatesIndexes(flags) {
      primary := PrimaryLoop(table.indexes);
    }
    var columns := ColumnLoop(table.columns, primary);
    var fks: Option<seq<ForeignKeySpec>> := None;
    if CreatesForeignKeys(flags) {
      fks := Some(table.foreignKeys);
    }
    var sql := CreateTable(table.quotedName, columns, TableOptions(primary, table.partition, fks));
    var comments := CommentLoop(table.quotedName, table.columns);
    return Ok(sql + comments);
  }

  /** The index loop of getCreateTableSQL: the last primary index names the
      primary key. */
  method PrimaryLoop(indexes: seq<IndexSpec>) returns (primary: seq<string>)
    ensures primary == PrimaryColumns(indexes)
  {
    primary := [];
    var k := 0;
    while k < |indexes|
      invariant 0 <= k <= |indexes|
      invariant primary == PrimaryColumns(indexes[..k])
    {
      if indexes[k].isPrimary {
        primary := indexes[k].quotedColumns;
      }
      assert indexes[..k + 1][..k] == indexes[..k];
      k := k + 1;
    }
    assert indexes[..k] == indexes;
  }

  /** The column loop of getCreateTableSQL. */
  method ColumnLoop(specs: seq<ColumnSpec>, primary: seq<string>) returns (columns: seq<ColumnData>)
    ensures columns == ColumnsOf(specs, primary)
  {
    columns := [];
    var i := 0;
    while i < |specs|
      invariant 0 <= i <= |specs|
      invariant |columns| == i
      invariant forall j :: 0 <= j < i ==> columns[j] == ColumnDataOf(specs[j], primary)
    {
      var column := specs[i];
      var length := column.length;
      if Lower(column.typeName) == "string" && length.None? {
        length := Some(255);
      }
      columns := columns + [ColumnData(column, column.quotedName, length, column.name in primary)];
      i := i + 1;
    }
  }

  /** _getCreateTableSQL($tableName, $columns, $options) */
  method CreateTable(tableName: string, columns: seq<ColumnData>, options: TableOptions) returns (sql: seq<string>)
    ensures sql == CreateTableStatements(tableName, columns, options)
  {
    sql := [CreateTableStatement(tableName, columns, options)];
    if options.foreignKeys.Some? {
      var fks := options.foreignKeys.value;
      var k := 0;
      while k < |fks|
        invariant 0 <= k <= |fks|
        invariant sql == [CreateTableStatement(tableName, columns, options)] + ForeignKeyStatements(fks[..k], tableName)
      {
        sql := sql + [CreateForeignKey(fks[k], tableName)];
        assert fks[..k + 1][..k] == fks[..k];
        k := k + 1;
      }
      assert fks[..k] == fks;
    }
  }

  /** The comment loop at the end of getCreateTableSQL. */
  method CommentLoop(tableName: string, columns: seq<ColumnSpec>) returns (sql: seq<string>)
    ensures sql == CommentStatements(tableName, columns)
  {
    sql := [];
    var k := 0;
    while k < |columns|
      invariant 0 <= k <= |columns|
      invariant sql == CommentStatements(tableName, columns[..k])
    {
      var column := columns[k];
      if column.comment != "" {
        sql := sql + [CommentOnColumn(tableName, column.quotedName, column.comment)];
      }
      assert columns[..k + 1][..k] == columns[..k];
      k := k + 1;
    }
    assert columns[..k] == columns;
  }

  // ---------------------------------------------------------------------------
  // getAlterTableSQL: removed columns

  /** A removed column: its quoted name and its default value. */
  datatype RemovedColumn = RemovedColumn(quotedName: string, default: Value)

  /** The statements that drop one column: its default first when it has one,
      then Vertica's MAKE_AHM_NOW, then the cascading DROP COLUMN. */
  function DropColumnStatements(tableName: string, c: RemovedColumn): (sql: seq<string>)
    ensures |sql| == (if EmptyValue(c.default) then 2 else 3)
    ensures sql[|sql| - 2] == "SELECT MAKE_AHM_NOW();"
    ensures sql[|sql| - 1] == "ALTER TABLE " + tableName + " DROP COLUMN " + c.quotedName + " CASCADE"
    ensures !EmptyValue(c.default) ==> sql[0] == "ALTER TABLE " + tableName + " ALTER COLUMN " + c.quotedName + " DROP DEFAULT"
  {
    (if !EmptyValue(c.default) then ["ALTER TABLE " + tableName + " ALTER COLUMN " + c.quotedName + " DROP DEFAULT"] else [])
      + ["SELECT MAKE_AHM_NOW();", "ALTER TABLE " + tableName + " DROP COLUMN " + c.quotedName + " CASCADE"]
  }

  /** The statements for all removed columns, column after column. */
  function DropColumnsSQL(tableName: string, cols: seq<RemovedColumn>): seq<string>
    decreases |cols|
  {
    if cols == [] then []
    else DropColumnsSQL(tableName, cols[..|cols| - 1]) + DropColumnStatements(tableName, cols[|cols| - 1])
  }

  /** The number of removed columns that have a default. */
  function WithDefault(cols: seq<RemovedColumn>): nat
    decreases |cols|
  {
    if cols == [] then 0 else (if EmptyValue(cols[0].default) then 0 else 1) + WithDefault(cols[1..])
  }

  lemma {:induction false} WithDefaultAppend(a: seq<RemovedColumn>, b: seq<RemovedColumn>)
    ensures WithDefault(a + b) == WithDefault(a) + WithDefault(b)
    decreases |a|
  {
    if a == [] {
      assert a + b == b;
    } else {
      assert (a + b)[0] == a[0];
      assert (a + b)[1..] == a[1..] + b;
      WithDefaultAppend(a[1..], b);
    }
  }

  /** Two statements per removed column, and one more for each that has a default. */
  lemma {:induction false} DropColumnsCount(tableName: string, cols: seq<RemovedColumn>)
    ensures |DropColumnsSQL(tableName, cols)| == 2 * |cols| + WithDefault(cols)
    decreases |cols|
  {
    if cols != [] {
      var front, last := cols[..|cols| - 1], cols[|cols| - 1];
      DropColumnsCount(tableName, front);
      assert cols == front + [last];
      WithDefaultAppend(front, [last]);
      assert WithDefault([last]) == (if EmptyValue(last.default) then 0 else 1) by {
        assert [last][1..] == [];
      }
    }
  }

  /** Each removed column's statements form one contiguous run, after those
      of the columns removed before it. */
  lemma {:induction false} DropColumnsInOrder(tableName: string, cols: seq<RemovedColumn>, i: nat)
    requires i < |cols|
    ensures var sql := DropColumnsSQL(tableName, cols);
            var at := |DropColumnsSQL(tableName, cols[..i])|;
            var mine := DropColumnStatements(tableName, cols[i]);
            at + |mine| <= |sql| && sql[at..at + |mine|] == mine
    decreases |cols|
  {
    var front := cols[..|cols| - 1];
    var sql := DropColumnsSQL(tableName, cols);
    if i == |cols| - 1 {
      assert cols[..i] == front;
    } else {
      DropColumnsInOrder(tableName, front, i);
      assert front[..i] == cols[..i];
      assert front[i] == cols[i];
      var at := |DropColumnsSQL(tableName, cols[..i])|;
      var mine := DropColumnStatements(tableName, cols[i]);
      assert sql[at..at + |mine|] == DropColumnsSQL(tableName, front)[at..at + |mine|];
    }
  }

  /** The removed-columns loop of getAlterTableSQL. */
  method RemovedColumnsSQL(tableName: string, cols: seq<RemovedColumn>) returns (sql: seq<string>)
    ensures sql == DropColumnsSQL(tableName, cols)
  {
    sql := [];
    var k := 0;
    while k < |cols|
      invariant 0 <= k <= |cols|
      invariant sql == DropColumnsSQL(tableName, cols[..k])
    {
      var column := cols[k];
      var step: seq<string> := [];
      if !EmptyValue(column.default) {
        step := step + ["ALTER TABLE " + tableName + " ALTER COLUMN " + column.quotedName + " DROP DEFAULT"];
      }
      step := step + ["SELECT MAKE_AHM_NOW();"];
      step := step + ["ALTER TABLE " + tableName + " DROP COLUMN " + column.quotedName + " CASCADE"];
      assert step == DropColumnStatements(tableName, column);
      sql := sql + step;
      assert cols[..k + 1][..k] == cols[..k];
      k := k + 1;
    }
    assert cols[..k] == cols;
  }
}
