/** VerticaSchemaManager: reading Vertica's catalog rows back into Doctrine's
    schema objects (columns, indexes, table names) and working out which
    schemas of the user's search path exist.

    The catalog queries themselves, Doctrine's namespace listing and its
    comment-type extraction are not modelled: their results are inputs. */
module SchemaManager {
  import opened Common
  import Platform

  // ---------------------------------------------------------------------------
  // _getPortableTableColumnDefinition

  /** The characters rtrim strips off a catalog type, as in `numeric(10,2)`. */
  const SizeChars: set<char> := {'(', ')', ',', '0', '1', '2', '3', '4', '5', '6', '7', '8', '9'}

  /** A row of the column catalog query. `commentType` is the type Doctrine
      finds named as `(DC2Type:…)` in the comment, if any. */
  datatype ColumnRow = ColumnRow(
    columnName: string, dataType: string, charMaxLength: Option<int>,
    isNullable: Value, columnDefault: Option<string>, constraintType: Option<string>,
    numericPrecision: Option<int>, numericScale: Option<int>, isIdentity: Value,
    comment: Option<string>, commentType: Option<string>, encoding: Option<string>)

  /** The portable column: its name, Doctrine type name and options. */
  datatype ColumnDef = ColumnDef(
    name: string, typeName: string, length: Option<int>, notnull: bool, default: Value,
    primary: bool, precision: Option<int>, scale: Option<int>, fixed: Option<bool>,
    autoincrement: bool, comment: Option<string>, encoding: string)

  datatype SchemaError = UnknownColumnType(dbType: string)

  /** The catalog type without its size declaration. */
  function StripSize(dataType: string): (r: string)
    ensures |r| <= |dataType| && r == dataType[..|r|]
    ensures r == [] || r[|r| - 1] !in SizeChars
  {
    RTrim(dataType, SizeChars)
  }

  /** The type name the column is looked up under: a varchar of Vertica's
      maximum length or more is read as text. */
  function ReadType(dataType: string, charMaxLength: Option<int>): string {
    var dbType := StripSize(dataType);
    if dbType == "varchar" && charMaxLength.Some? && charMaxLength.value >= Platform.VarcharMaxLength then "text"
    else dbType
  }

  /** Whether the text after a quote at k closes the pattern `'(.*)'(::.*)?$`:
      the quote is the last character or is followed by `::`. */
  predicate ClosesAt(d: string, k: nat)
    requires k < |d|
  {
    d[k] == '\'' && (k == |d| - 1 || (k + 3 <= |d| && d[k + 1..k + 3] == "::"))
  }

  /** The greatest k in 1..top that closes the pattern: the greedy `(.*)`
      tries the longest capture first. */
  function LastClose(d: string, top: int): (r: Option<nat>)
    requires top < |d|
    ensures r.Some? ==> 1 <= r.value <= top
    decreases top
  {
    if top < 1 then None
    else if ClosesAt(d, top) then Some(top)
    else LastClose(d, top - 1)
  }

  lemma {:induction false} LastCloseGreatest(d: string, top: int)
    requires top < |d|
    ensures var r := LastClose(d, top);
            && (r.Some? ==> 1 <= r.value <= top && ClosesAt(d, r.value)
                            && forall j :: r.value < j <= top ==> !ClosesAt(d, j))
            && (r.None? ==> forall j :: 1 <= j <= top ==> !ClosesAt(d, j))
    decreases top
  {
    if top >= 1 && !ClosesAt(d, top) {
      LastCloseGreatest(d, top - 1);
    }
  }

  /** preg_match("/^'(.*)'(::.*)?$/", d): the captured text, if d matches.
      `.` does not match a newline, so no text holding one matches. */
  function Capture(d: string): (r: Option<string>)
  {
    if |d| >= 2 && d[0] == '\'' && '\n' !in d then
      match LastClose(d, |d| - 1)
      case Some(k) => Some(d[1..k])
      case None => None
    else None
  }

  /** A match means the text is a quote, the capture, a closing quote and
      nothing or a `::` cast; and no later quote would also close it. */
  lemma CaptureMeans(d: string)
    requires Capture(d).Some?
    ensures |Capture(d).value| + 2 <= |d|
    ensures forall i :: 0 <= i < |d| ==> d[i] != '\n'
    ensures var c := Capture(d).value;
            var rest := d[|c| + 2..];
            && d == "'" + c + "'" + rest
            && (rest == "" || (|rest| >= 2 && rest[..2] == "::"))
            && forall j :: |c| + 1 < j < |d| ==> !ClosesAt(d, j)
  {
    LastCloseGreatest(d, |d| - 1);
    var k := LastClose(d, |d| - 1).value;
    assert d == [d[0]] + d[1..k] + [d[k]] + d[k + 1..];
  }

  /** A quoted default is captured without its quotes. */
  lemma CaptureQuoted(x: string)
    requires '\n' !in x
    ensures Capture("'" + x + "'") == Some(x)
  {
    var d := "'" + x + "'";
    assert ClosesAt(d, |d| - 1);
    assert d[1..|d| - 1] == x;
  }

  /** A quoted default with a cast loses the quotes and the cast, as long as
      the type of the cast holds no quote. */
  lemma CaptureCast(x: string, t: string)
    requires '\'' !in t && '\n' !in x && '\n' !in t
    ensures Capture("'" + x + "'::" + t) == Some(x)
  {
    var d := "'" + x + "'::" + t;
    var k := |x| + 1;
    assert d[k] == '\'' && d[k + 1..k + 3] == "::";
    assert ClosesAt(d, k);
    LastCloseSkips(d, |d| - 1, k);
    assert d[1..k] == x;
  }

  /** Positions above k that hold no quote are passed over. */
  lemma {:induction false} LastCloseSkips(d: string, top: int, k: nat)
    requires 1 <= k <= top < |d|
    requires forall j :: k < j <= top ==> d[j] != '\''
    ensures LastClose(d, top) == LastClose(d, k)
    decreases top
  {
    if top > k {
      assert !ClosesAt(d, top);
      LastCloseSkips(d, top - 1, k);
    }
  }

  /** stripos(d, 'NULL') === 0 */
  predicate NullPrefix(d: string) {
    |d| >= 4 && Lower(d[..4]) == "null"
  }

  /** The default the column reads back with: a quoted literal loses its
      quotes and cast, anything starting with NULL is null, and a non-empty
      boolean default is true exactly when it is the text `true`. */
  function DefaultOf(columnDefault: Option<string>, typeName: string): (v: Value)
    ensures columnDefault.None? ==> v == VNull
    ensures v.VBool? ==> typeName == "boolean"
    ensures v.VStr? ==> typeName != "boolean" || EmptyString(v.s)
  {
    if columnDefault.None? then VNull
    else
      var d := columnDefault.value;
      var unquoted := match Capture(d) case Some(c) => c case None => d;
      if NullPrefix(unquoted) then VNull
      else if !EmptyString(unquoted) && typeName == "boolean" then VBool(unquoted == "true")
      else VStr(unquoted)
  }

  /** Vertica's `'text'::varchar` default reads back as the text. */
  lemma CastDefault(x: string, t: string, typeName: string)
    requires '\'' !in t && '\n' !in x && '\n' !in t && !NullPrefix(x) && typeName != "boolean"
    ensures DefaultOf(Some("'" + x + "'::" + t), typeName) == VStr(x)
  {
    CaptureCast(x, t);
  }

  /** A boolean default is true for `true` and false for any other non-empty
      text, quoted or not. */
  lemma BooleanDefault(x: string)
    requires !EmptyString(x) && !NullPrefix(x) && Capture(x).None? && '\n' !in x
    ensures DefaultOf(Some(x), "boolean") == VBool(x == "true")
    ensures DefaultOf(Some("'" + x + "'"), "boolean") == VBool(x == "true")
  {
    CaptureQuoted(x);
  }

  /** A NULL default, in any case and whatever follows, reads back as null. */
  lemma NullDefault(d: string, typeName: string)
    requires NullPrefix(d) && Capture(d).None?
    ensures DefaultOf(Some(d), typeName) == VNull
  {
  }

  /** _getPortableTableColumnDefinition($tableColumn): the catalog type must
      be one the platform maps, or the column is rejected; a type named in
      the comment replaces the mapped one, and its marker is cut out of the
      comment. */
  function PortableColumn(row: ColumnRow): (r: Result<ColumnDef, SchemaError>)
    ensures r.Err? <==> Platform.DoctrineTypeOf(ReadType(row.dataType, row.charMaxLength)).None?
    ensures r.Err? ==> r.error == UnknownColumnType(ReadType(row.dataType, row.charMaxLength))
    ensures r.Ok? ==>
              && r.value.name == row.columnName
              && r.value.length == row.charMaxLength
              && (r.value.notnull <==> EmptyValue(row.isNullable))
              && (r.value.primary <==> row.constraintType == Some("p"))
              && (r.value.autoincrement <==> !EmptyValue(row.isIdentity))
              && r.value.precision == row.numericPrecision && r.value.scale == row.numericScale
              && r.value.encoding == (if row.encoding.Some? then row.encoding.value else "AUTO")
              && r.value.default == DefaultOf(row.columnDefault, r.value.typeName)
    ensures r.Ok? ==>
              && r.value.typeName ==
                   (if row.commentType.Some? then row.commentType.value
                    else Platform.DoctrineTypeOf(ReadType(row.dataType, row.charMaxLength)).value)
              && r.value.comment ==
                   (if row.comment.Some?
                    then Some(Replace(row.comment.value, "(DC2Type:" + r.value.typeName + ")", ""))
                    else None)
              && r.value.fixed ==
                   (var dbType := ReadType(row.dataType, row.charMaxLength);
                    if dbType == "char" then Some(true) else if dbType == "varchar" then Some(false) else None)
  {
    var dbType := ReadType(row.dataType, row.charMaxLength);
    match Platform.DoctrineTypeOf(dbType)
    case None => Err(UnknownColumnType(dbType))
    case Some(mapped) =>
      var typeName := if row.commentType.Some? then row.commentType.value else mapped;
      var comment :=
        if row.comment.Some? then Some(Replace(row.comment.value, "(DC2Type:" + typeName + ")", "")) else None;
      Ok(ColumnDef(
        row.columnName, typeName, row.charMaxLength, EmptyValue(row.isNullable),
        DefaultOf(row.columnDefault, typeName), row.constraintType == Some("p"),
        row.numericPrecision, row.numericScale,
        if dbType == "char" then Some(true) else if dbType == "varchar" then Some(false) else None,
        !EmptyValue(row.isIdentity), comment,
        if row.encoding.Some? then row.encoding.value else "AUTO"))
  }

  /** A varchar column reads back as Doctrine's text exactly when its
      maximum length reaches 65000, and as a non-fixed string otherwise. */
  lemma VarcharThreshold(row: ColumnRow)
    requires StripSize(row.dataType) == "varchar" && row.commentType.None?
    ensures PortableColumn(row).Ok?
    ensures var isText := row.charMaxLength.Some? && row.charMaxLength.value >= 65000;
            && (PortableColumn(row).value.typeName == "text" <==> isText)
            && (PortableColumn(row).value.typeName == "string" <==> !isText)
            && PortableColumn(row).value.fixed == (if isText then None else Some(false))
  {
    Platform.LowerUnchanged("varchar");
    Platform.LowerUnchanged("text");
  }

  /** A type named in the comment wins over the catalog's, and a comment that
      is nothing but its `(DC2Type:…)` marker reads back empty. */
  lemma CommentTypeRead(row: ColumnRow, t: string)
    requires Platform.DoctrineTypeOf(ReadType(row.dataType, row.charMaxLength)).Some?
    requires row.commentType == Some(t) && row.comment == Some("(DC2Type:" + t + ")")
    ensures PortableColumn(row).Ok?
    ensures PortableColumn(row).value.typeName == t
    ensures PortableColumn(row).value.comment == Some("")
  {
    ReplaceWhole("(DC2Type:" + t + ")", "");
  }

  /** A `char(n)` column reads back as a fixed string. */
  lemma CharIsFixed(row: ColumnRow)
    requires StripSize(row.dataType) == "char" && row.commentType.None?
    ensures PortableColumn(row).Ok?
    ensures PortableColumn(row).value.typeName == "string" && PortableColumn(row).value.fixed == Some(true)
  {
    Platform.LowerUnchanged("char");
  }

  /** The size declaration goes. */
  lemma StripSizeExamples()
    ensures StripSize("numeric(10,2)") == "numeric"
    ensures StripSize("varchar(65000)") == "varchar"
  {
    StripSizeSuffix("numeric", "(10,2)");
    assert "numeric" + "(10,2)" == "numeric(10,2)";
    StripSizeSuffix("varchar", "(65000)");
    assert "varchar" + "(65000)" == "varchar(65000)";
  }

  /** `int8` loses its width and is looked up as `int`, which still maps to
      integer. */
  lemma Int8ReadsAsInt()
    ensures StripSize("int8") == "int"
    ensures Platform.DoctrineTypeOf(StripSize("int8")) == Some("integer")
  {
    StripSizeSuffix("int", "8");
    assert "int" + "8" == "int8";
    Platform.LowerUnchanged("int");
  }

  /** A suffix made only of size characters is stripped entirely, down to a
      text that does not end in one. */
  lemma {:induction false} StripSizeSuffix(s: string, t: string)
    requires s != [] && s[|s| - 1] !in SizeChars
    requires forall i :: 0 <= i < |t| ==> t[i] in SizeChars
    ensures StripSize(s + t) == s
    decreases |t|
  {
    if t != [] {
      var u := s + t;
      assert u[..|u| - 1] == s + t[..|t| - 1];
      StripSizeSuffix(s, t[..|t| - 1]);
    } else {
      assert s + t == s;
    }
  }

  // ---------------------------------------------------------------------------
  // _getPortableTableIndexesList

  /** A row of the index catalog query. */
  datatype IndexRow = IndexRow(constraintName: string, constraintType: Option<string>, columnName: string)

  /** An index read back, under the key the result array files it by. */
  datatype Index = Index(key: string, name: string, columns: seq<string>, unique: bool, primary: bool)

  /** The key a row is grouped under: its lower-cased constraint name, or
      `primary` for the primary key. */
  function KeyOf(row: IndexRow): string {
    Lower(if row.constraintType == Some("p") then "primary" else row.constraintName)
  }

  /** isset($result[$key]): where the index with that key sits. */
  function Position(indexes: seq<Index>, key: string): (r: Option<nat>)
    ensures r.Some? ==> r.value < |indexes| && indexes[r.value].key == key
    ensures r.None? ==> forall i :: 0 <= i < |indexes| ==> indexes[i].key != key
    decreases |indexes|
  {
    if indexes == [] then None
    else if indexes[0].key == key then Some(0)
    else match Position(indexes[1..], key)
         case Some(i) => Some(i + 1)
         case None => None
  }

  /** One step of the grouping loop: the first row of a key opens a unique
      index named after its constraint, a later one adds its column. */
  function AddRow(indexes: seq<Index>, row: IndexRow): seq<Index> {
    var key := KeyOf(row);
    match Position(indexes, key)
    case None => indexes + [Index(key, row.constraintName, [row.columnName], true, row.constraintType == Some("p"))]
    case Some(i) => indexes[i := indexes[i].(columns := indexes[i].columns + [row.columnName])]
  }

  /** The indexes the rows group into, in the order their keys first appear. */
  function Grouped(rows: seq<IndexRow>): seq<Index>
    decreases |rows|
  {
    if rows == [] then [] else AddRow(Grouped(rows[..|rows| - 1]), rows[|rows| - 1])
  }

  /** Reference definitions: the first row with a key, and the columns of
      all rows with that key, in row order. */
  function FirstWithKey(rows: seq<IndexRow>, key: string): Option<IndexRow>
    decreases |rows|
  {
    if rows == [] then None
    else
      var f := FirstWithKey(rows[..|rows| - 1], key);
      if f.Some? then f
      else if KeyOf(rows[|rows| - 1]) == key then Some(rows[|rows| - 1])
      else None
  }

  function ColumnsWithKey(rows: seq<IndexRow>, key: string): seq<string>
    decreases |rows|
  {
    if rows == [] then []
    else
      ColumnsWithKey(rows[..|rows| - 1], key)
        + (if KeyOf(rows[|rows| - 1]) == key then [rows[|rows| - 1].columnName] else [])
  }

  /** What an index read back holds: one index per key that some row has,
      each with the name and primary flag of its key's first row, marked
      unique, and with the columns of its key's rows in row order. */
  ghost predicate GroupsRows(indexes: seq<Index>, rows: seq<IndexRow>) {
    && (forall i, j :: 0 <= i < j < |indexes| ==> indexes[i].key != indexes[j].key)
    && (forall key :: Position(indexes, key).Some? <==> FirstWithKey(rows, key).Some?)
    && (forall i :: 0 <= i < |indexes| ==>
          && indexes[i].unique
          && FirstWithKey(rows, indexes[i].key).Some?
          && indexes[i].name == FirstWithKey(rows, indexes[i].key).value.constraintName
          && (indexes[i].primary <==> FirstWithKey(rows, indexes[i].key).value.constraintType == Some("p"))
          && indexes[i].columns == ColumnsWithKey(rows, indexes[i].key))
  }

  lemma {:induction false} GroupedMeans(rows: seq<IndexRow>)
    ensures GroupsRows(Grouped(rows), rows)
    decreases |rows|
  {
    if rows != [] {
      var front, row := rows[..|rows| - 1], rows[|rows| - 1];
      GroupedMeans(front);
      assert rows == front + [row];
      var g := Grouped(front);
      match Position(g, KeyOf(row))
      case None => AddRowNew(g, front, row);
      case Some(p) => AddRowExisting(g, front, row, p);
    }
  }

  /** What one more row does to the reference definitions. */
  lemma KeyStep(front: seq<IndexRow>, row: IndexRow, key: string)
    ensures FirstWithKey(front + [row], key)
            == if FirstWithKey(front, key).Some? then FirstWithKey(front, key)
               else if KeyOf(row) == key then Some(row) else None
    ensures ColumnsWithKey(front + [row], key)
            == ColumnsWithKey(front, key) + (if KeyOf(row) == key then [row.columnName] else [])
  {
    assert (front + [row])[..|front|] == front;
  }

  /** A key no row has collects no columns. */
  lemma {:induction false} NoFirstNoColumns(rows: seq<IndexRow>, key: string)
    requires FirstWithKey(rows, key).None?
    ensures ColumnsWithKey(rows, key) == []
    decreases |rows|
  {
    if rows != [] {
      NoFirstNoColumns(rows[..|rows| - 1], key);
    }
  }

  /** The first row of a key opens a new index. */
  lemma AddRowNew(g: seq<Index>, front: seq<IndexRow>, row: IndexRow)
    requires GroupsRows(g, front) && Position(g, KeyOf(row)).None?
    ensures GroupsRows(AddRow(g, row), front + [row])
  {
    var key := KeyOf(row);
    var g' := AddRow(g, row);
    assert g' == g + [Index(key, row.constraintName, [row.columnName], true, row.constraintType == Some("p"))];
    forall i, j | 0 <= i < j < |g'|
      ensures g'[i].key != g'[j].key
    {
      if j == |g| {
        assert g'[i] == g[i];
      }
    }
    AddRowNewKeys(g, front, row);
    AddRowNewEntries(g, front, row);
  }

  lemma AddRowNewKeys(g: seq<Index>, front: seq<IndexRow>, row: IndexRow)
    requires GroupsRows(g, front) && Position(g, KeyOf(row)).None?
    ensures forall k :: Position(AddRow(g, row), k).Some? <==> FirstWithKey(front + [row], k).Some?
  {
    var key := KeyOf(row);
    var g' := AddRow(g, row);
    assert g' == g + [Index(key, row.constraintName, [row.columnName], true, row.constraintType == Some("p"))];
    forall k
      ensures Position(g', k).Some? <==> FirstWithKey(front + [row], k).Some?
    {
      KeyStep(front, row, k);
      if k != key {
        PositionAppend(g, g'[|g|], k);
      } else {
        assert g'[|g|].key == k;
      }
    }
  }

  lemma AddRowNewEntries(g: seq<Index>, front: seq<IndexRow>, row: IndexRow)
    requires GroupsRows(g, front) && Position(g, KeyOf(row)).None?
    ensures var g' := AddRow(g, row);
            forall i :: 0 <= i < |g'| ==>
              && FirstWithKey(front + [row], g'[i].key).Some?
              && g'[i].name == FirstWithKey(front + [row], g'[i].key).value.constraintName
              && (g'[i].primary <==> FirstWithKey(front + [row], g'[i].key).value.constraintType == Some("p"))
              && g'[i].columns == ColumnsWithKey(front + [row], g'[i].key)
  {
    var rows := front + [row];
    var key := KeyOf(row);
    var g' := AddRow(g, row);
    assert g' == g + [Index(key, row.constraintName, [row.columnName], true, row.constraintType == Some("p"))];
    assert FirstWithKey(front, key).None?;
    NoFirstNoColumns(front, key);
    forall i | 0 <= i < |g'|
      ensures FirstWithKey(rows, g'[i].key).Some?
      ensures g'[i].name == FirstWithKey(rows, g'[i].key).value.constraintName
      ensures g'[i].primary <==> FirstWithKey(rows, g'[i].key).value.constraintType == Some("p")
      ensures g'[i].columns == ColumnsWithKey(rows, g'[i].key)
    {
      KeyStep(front, row, g'[i].key);
      if i < |g| {
        assert g'[i] == g[i] && g[i].key != key;
      }
    }
  }

  /** A later row of a key adds its column to that key's index. */
  lemma AddRowExisting(g: seq<Index>, front: seq<IndexRow>, row: IndexRow, p: nat)
    requires GroupsRows(g, front) && Position(g, KeyOf(row)) == Some(p)
    ensures GroupsRows(AddRow(g, row), front + [row])
  {
    var rows := front + [row];
    var key := KeyOf(row);
    var g' := AddRow(g, row);
    assert g' == g[p := g[p].(columns := g[p].columns + [row.columnName])];
    assert FirstWithKey(front, key).Some?;
    forall k
      ensures Position(g', k).Some? <==> FirstWithKey(rows, k).Some?
    {
      KeyStep(front, row, k);
      PositionUpdate(g, p, g'[p], k);
    }
    forall i | 0 <= i < |g'|
      ensures FirstWithKey(rows, g'[i].key).Some?
      ensures g'[i].name == FirstWithKey(rows, g'[i].key).value.constraintName
      ensures g'[i].primary <==> FirstWithKey(rows, g'[i].key).value.constraintType == Some("p")
      ensures g'[i].columns == ColumnsWithKey(rows, g'[i].key)
    {
      KeyStep(front, row, g'[i].key);
    }
  }

  lemma {:induction false} PositionAppend(g: seq<Index>, x: Index, key: string)
    requires x.key != key
    ensures Position(g + [x], key) == Position(g, key)
    decreases |g|
  {
    if g == [] {
      assert [x][1..] == [];
    } else {
      assert (g + [x])[1..] == g[1..] + [x];
      PositionAppend(g[1..], x, key);
    }
  }

  lemma {:induction false} PositionUpdate(g: seq<Index>, p: nat, x: Index, key: string)
    requires p < |g| && x.key == g[p].key
    ensures Position(g[p := x], key).Some? == Position(g, key).Some?
  {
    if Position(g, key).Some? {
      assert g[p := x][Position(g, key).value].key == key;
    }
    if Position(g[p := x], key).Some? {
      assert g[Position(g[p := x], key).value].key == key;
    }
  }

  /** The total number of columns over all indexes. */
  function TotalColumns(indexes: seq<Index>): nat
    decreases |indexes|
  {
    if indexes == [] then 0 else TotalColumns(indexes[..|indexes| - 1]) + |indexes[|indexes| - 1].columns|
  }

  lemma {:induction false} TotalColumnsAdd(g: seq<Index>, p: nat, c: string)
    requires p < |g|
    ensures TotalColumns(g[p := g[p].(columns := g[p].columns + [c])]) == TotalColumns(g) + 1
    decreases |g|
  {
    var g' := g[p := g[p].(columns := g[p].columns + [c])];
    if p < |g| - 1 {
      var front := g[..|g| - 1];
      assert g'[..|g| - 1] == front[p := front[p].(columns := front[p].columns + [c])];
      TotalColumnsAdd(front, p, c);
    } else {
      assert g'[..|g| - 1] == g[..|g| - 1];
    }
  }

  /** Every row lands in exactly one index: the columns add up to the rows. */
  lemma {:induction false} GroupedColumnCount(rows: seq<IndexRow>)
    ensures TotalColumns(Grouped(rows)) == |rows|
    decreases |rows|
  {
    if rows != [] {
      var front, row := rows[..|rows| - 1], rows[|rows| - 1];
      GroupedColumnCount(front);
      var g := Grouped(front);
      match Position(g, KeyOf(row))
      case None =>
        var g' := AddRow(g, row);
        assert g'[..|g'| - 1] == g;
      case Some(p) =>
        TotalColumnsAdd(g, p, row.columnName);
    }
  }

  /** _getPortableTableIndexesList($tableIndexRows): the grouping loop. */
  method PortableTableIndexesList(rows: seq<IndexRow>) returns (indexes: seq<Index>)
    ensures indexes == Grouped(rows)
    ensures GroupsRows(indexes, rows) && TotalColumns(indexes) == |rows|
  {
    indexes := [];
    var n := 0;
    while n < |rows|
      invariant 0 <= n <= |rows|
      invariant indexes == Grouped(rows[..n])
    {
      var row := rows[n];
      var keyName := row.constraintName;
      if row.constraintType == Some("p") {
        keyName := "primary";
      }
      keyName := Lower(keyName);
      var at := Position(indexes, keyName);
      if at.None? {
        indexes := indexes + [Index(keyName, row.constraintName, [row.columnName], true, row.constraintType == Some("p"))];
      } else {
        var i := at.value;
        indexes := indexes[i := indexes[i].(columns := indexes[i].columns + [row.columnName])];
      }
      assert rows[..n + 1][..n] == rows[..n];
      n := n + 1;
    }
    assert rows[..n] == rows;
    GroupedMeans(rows);
    GroupedColumnCount(rows);
  }

  // ---------------------------------------------------------------------------
  // getSchemaSearchPaths

  /** The token Vertica writes for the connecting user's own schema. */
  const UserToken := "\"$user\""

  function ExpandUser(path: string, username: Option<string>): string {
    if username.Some? && !EmptyString(username.value) then Replace(path, UserToken, username.value) else path
  }

  /** Each exploded piece with the user token replaced and trimmed. */
  function ReadPaths(parts: seq<string>, username: Option<string>): (paths: seq<string>)
    ensures |paths| == |parts|
    ensures forall i :: 0 <= i < |paths| ==> Clean(paths[i])
    decreases |parts|
  {
    if parts == [] then []
    else [Trim(ExpandUser(parts[0], username))] + ReadPaths(parts[1..], username)
  }

  /** getSchemaSearchPaths(): the shown search path split on commas, the user
      token replaced by the user name when there is one, and each path trimmed. */
  function SearchPaths(shown: string, username: Option<string>): (paths: seq<string>)
    ensures |paths| == |Split(shown, ',')|
    ensures forall i :: 0 <= i < |paths| ==> Clean(paths[i])
  {
    ReadPaths(Split(shown, ','), username)
  }

  /** A path already trimmed at both ends. */
  predicate Clean(p: string) {
    p == [] || (!IsTrimmed(p[0]) && !IsTrimmed(p[|p| - 1]))
  }

  lemma TrimClean(p: string)
    requires Clean(p)
    ensures Trim(p) == p
  {
  }

  /** A clean path without the user token is read back unchanged. */
  lemma PathKept(p: string, username: Option<string>)
    requires '"' !in p && Clean(p)
    ensures Trim(ExpandUser(p, username)) == p
  {
    if username.Some? && !EmptyString(username.value) {
      assert UserToken[0] == '"';
      ReplaceAbsent(p, UserToken, username.value);
    }
    assert ExpandUser(p, username) == p;
    TrimClean(p);
  }

  lemma {:induction false} ReadPathsKept(paths: seq<string>, username: Option<string>)
    requires forall i :: 0 <= i < |paths| ==> '"' !in paths[i] && Clean(paths[i])
    ensures ReadPaths(paths, username) == paths
    decreases |paths|
  {
    if paths != [] {
      var rest := paths[1..];
      PathKept(paths[0], username);
      ReadPathsKept(rest, username);
      HeadTail(paths);
    }
  }

  /** Paths written out comma-separated are read back as they were. */
  lemma SearchPathsRoundTrip(paths: seq<string>, username: Option<string>)
    requires paths != []
    requires forall i :: 0 <= i < |paths| ==> ',' !in paths[i] && '"' !in paths[i] && Clean(paths[i])
    ensures SearchPaths(Join(paths, ","), username) == paths
  {
    SplitJoined(paths, ',');
    ReadPathsKept(paths, username);
  }

  /** The user token names the connecting user's schema, once there is a
      user name; without one it stays as it is. */
  lemma UserTokenExpanded(username: Option<string>)
    ensures SearchPaths(UserToken, username)
            == [Trim(if username.Some? && !EmptyString(username.value) then username.value else UserToken)]
  {
    SplitNoSep(UserToken, ',');
    if username.Some? && !EmptyString(username.value) {
      ReplaceWhole(UserToken, username.value);
    }
    assert [UserToken][1..] == [];
  }

  // ---------------------------------------------------------------------------
  // getExistingSchemaSearchPaths / determineExistingSchemaSearchPaths

  /** array_filter($paths, fn => in_array($v, $names)), keeping the order. */
  function Existing(paths: seq<string>, names: seq<string>): (r: seq<string>)
    ensures |r| <= |paths|
    decreases |paths|
  {
    if paths == [] then []
    else
      Existing(paths[..|paths| - 1], names)
        + (if paths[|paths| - 1] in names then [paths[|paths| - 1]] else [])
  }

  /** The existing paths are exactly the search paths that name a schema. */
  lemma {:induction false} ExistingMembers(paths: seq<string>, names: seq<string>)
    ensures forall x :: x in Existing(paths, names) <==> x in paths && x in names
    decreases |paths|
  {
    if paths != [] {
      var front := paths[..|paths| - 1];
      ExistingMembers(front, names);
      assert paths == front + [paths[|paths| - 1]];
    }
  }

  /** When every path names a schema, none is dropped. */
  lemma {:induction false} ExistingAll(paths: seq<string>, names: seq<string>)
    requires forall i :: 0 <= i < |paths| ==> paths[i] in names
    ensures Existing(paths, names) == paths
    decreases |paths|
  {
    if paths != [] {
      ExistingAll(paths[..|paths| - 1], names);
    }
  }

  /** The first existing path, or the empty text PHP's null compares equal to. */
  function FirstPath(existing: seq<string>): string {
    if existing == [] then "" else existing[0]
  }

  /** _getPortableTableDefinition($table): a table in the first existing
      schema of the search path goes by its bare name, any other by
      `schema.name`. */
  function PortableName(schema: string, name: string, existing: seq<string>): (r: string)
    ensures schema == FirstPath(existing) ==> r == name
    ensures schema != FirstPath(existing) ==> r == schema + "." + name
  {
    if schema == FirstPath(existing) then name else schema + "." + name
  }

  /** A qualified portable name splits back into its schema and table. A bare
      one is read back in the default schema, so the name round-trips
      whenever `public` heads the search path. */
  lemma PortableNameSplits(schema: string, name: string, existing: seq<string>)
    requires '.' !in schema && '.' !in name
    ensures schema != FirstPath(existing) ==>
              Platform.SplitTableName(PortableName(schema, name, existing)) == Platform.TableName(schema, name)
    ensures schema == FirstPath(existing) ==>
              Platform.SplitTableName(PortableName(schema, name, existing)) == Platform.TableName(Platform.DefaultSchemaName, name)
    ensures FirstPath(existing) == Platform.DefaultSchemaName ==>
              Platform.SplitTableName(PortableName(schema, name, existing)) == Platform.TableName(schema, name)
  {
    Platform.SplitQualified(schema, name, "");
  }

  /** The schema manager's cache of existing search paths. */
  class VerticaSchemaManager {
    var existingSchemaPaths: Option<seq<string>>

    constructor()
      ensures existingSchemaPaths == None
    {
      existingSchemaPaths := None;
    }

    /** determineExistingSchemaSearchPaths(): `names` are the schemas the
        catalog lists, `shown` the text SHOW search_path returns. */
    method DetermineExistingSchemaSearchPaths(names: seq<string>, shown: string, username: Option<string>)
      modifies this`existingSchemaPaths
      ensures existingSchemaPaths == Some(Existing(SearchPaths(shown, username), names))
    {
      var paths := SearchPaths(shown, username);
      existingSchemaPaths := Some(Existing(paths, names));
    }

    /** getExistingSchemaSearchPaths(): computed on first use, then served
        from the cache whatever the catalog says later. */
    method GetExistingSchemaSearchPaths(names: seq<string>, shown: string, username: Option<string>)
      returns (paths: seq<string>)
      modifies this`existingSchemaPaths
      ensures old(existingSchemaPaths).Some? ==> existingSchemaPaths == old(existingSchemaPaths)
      ensures old(existingSchemaPaths).None? ==> existingSchemaPaths == Some(Existing(SearchPaths(shown, username), names))
      ensures existingSchemaPaths == Some(paths)
    {
      if existingSchemaPaths.None? {
        DetermineExistingSchemaSearchPaths(names, shown, username);
      }
      paths := existingSchemaPaths.value;
    }

    /** _getPortableTableDefinition($table) */
    method PortableTableDefinition(schema: string, name: string, names: seq<string>, shown: string, username: Option<string>)
      returns (r: string)
      modifies this`existingSchemaPaths
      ensures old(existingSchemaPaths).Some? ==> existingSchemaPaths == old(existingSchemaPaths)
      ensures old(existingSchemaPaths).None? ==> existingSchemaPaths == Some(Existing(SearchPaths(shown, username), names))
      ensures existingSchemaPaths.Some? && r == PortableName(schema, name, existingSchemaPaths.value)
    {
      var schemas := GetExistingSchemaSearchPaths(names, shown, username);
      var firstSchema := if schemas == [] then "" else schemas[0];
      if schema == firstSchema {
        r := name;
      } else {
        r := schema + "." + name;
      }
    }
  }
}
