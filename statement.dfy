/** VerticaStatement: a prepared statement over one ODBC statement handle.
    It binds values into the slots of the rewritten query, checks that every
    slot is bound before asking the backend to execute, shapes fetched rows in
    the three PDO fetch modes, and is a forward-only iterator over its rows.

    The ODBC calls are not modelled: the backend's answers to prepare and
    execute, and the rows it will hand out, come in as a BackendAnswer, and
    every prepare and execute the statement issues is recorded in `calls`. */
module Statement {
  import opened Common
  import opened Placeholders

  // The PDO fetch-mode constants the statement understands.
  const FETCH_ASSOC: int := 2
  const FETCH_NUM: int := 3
  const FETCH_BOTH: int := 4

  datatype StmtError =
    | Syntax(reason: ParseError)               // SyntaxErrorException from the constructor
    | UnknownParameter(id: Key, query: string) // names the identifier and the original query
    | CountMismatch(given: nat, expected: nat) // 'Parameter count (%s) does not match ...'
    | Backend                                  // VerticaException::fromConnection
    | UnsupportedFetchMode(mode: int)          // InvalidArgumentException
    | ExtraFetchArguments                      // InvalidArgumentException from setFetchMode
    | RewindAfterStart
    | UncountableParams                        // TypeError: count(null) when execute() got no array
    | NoStatementHandle                        // TypeError: odbc_num_rows given no statement resource

  /** One column of a row as the ODBC cursor reports it: odbc_field_name and odbc_result. */
  datatype Column = Column(name: string, text: string)
  type Row = seq<Column>

  /** A value in a fetched row. */
  datatype Cell = Null | Text(s: string)

  /** The fetch loops turn the empty string into null and keep every other text. */
  function Normalize(text: string): (c: Cell)
    ensures c.Null? <==> text == ""
    ensures c.Text? ==> c.s == text
  {
    if text == "" then Null else Text(text)
  }

  // ---------------------------------------------------------------------------
  // Associative rows: PHP arrays with string keys, in insertion order

  type Entries = seq<(string, Cell)>

  /** $row[k]: the value stored under key k. */
  function Lookup(entries: Entries, k: string): Option<Cell> {
    if entries == [] then None
    else if entries[0].0 == k then Some(entries[0].1)
    else Lookup(entries[1..], k)
  }

  /** $row[k] = v: overwrite the entry for k where it stands, or append one. */
  function Put(entries: Entries, k: string, v: Cell): (r: Entries)
    ensures Lookup(r, k) == Some(v)
    ensures forall k' :: k' != k ==> Lookup(r, k') == Lookup(entries, k')
    ensures |r| == |entries| || |r| == |entries| + 1
  {
    if entries == [] then [(k, v)]
    else if entries[0].0 == k then [(k, v)] + entries[1..]
    else
      var r := [entries[0]] + Put(entries[1..], k, v);
      assert r[1..] == Put(entries[1..], k, v);
      r
  }

  /** The associative part of a row: every column stored under its name. */
  function AssocOf(row: Row): Entries
    decreases |row|
  {
    if row == [] then []
    else Put(AssocOf(row[..|row| - 1]), row[|row| - 1].name, Normalize(row[|row| - 1].text))
  }

  /** Independent reading of the same row: the value of the last column with the given name. */
  function LastNamed(row: Row, name: string): Option<Cell>
    decreases |row|
  {
    if row == [] then None
    else if row[|row| - 1].name == name then Some(Normalize(row[|row| - 1].text))
    else LastNamed(row[..|row| - 1], name)
  }

  /** Under each column name the associative row holds the (normalised) value
      of the LAST column with that name; names of no column are absent. */
  lemma {:induction false} AssocOfIsLastNamed(row: Row, name: string)
    ensures Lookup(AssocOf(row), name) == LastNamed(row, name)
    decreases |row|
  {
    if row != [] {
      AssocOfIsLastNamed(row[..|row| - 1], name);
    }
  }

  /** The numeric part of a row: column values in column order, indexed from 0. */
  function ValuesOf(row: Row): (values: seq<Cell>)
    ensures |values| == |row|
    ensures forall i :: 0 <= i < |row| ==> values[i] == Normalize(row[i].text)
  {
    seq(|row|, i requires 0 <= i < |row| => Normalize(row[i].text))
  }

  /** A fetched row in the shape its fetch mode asks for. In BOTH mode the
      numeric and the associative parts address the same values. */
  datatype Shaped =
    | Assoc(named: Entries)
    | Num(values: seq<Cell>)
    | Both(values: seq<Cell>, named: Entries)

  /** The mode fetch uses: `$fetchMode ?: $this->defaultFetchMode` (null is 0 here). */
  function EffectiveMode(mode: int, defaultMode: int): int {
    if mode == 0 then defaultMode else mode
  }

  /** What the switch in fetch builds from one backend row. */
  function Shape(mode: int, row: Row): Result<Shaped, StmtError> {
    if mode == FETCH_ASSOC then Ok(Assoc(AssocOf(row)))
    else if mode == FETCH_NUM then Ok(Num(ValuesOf(row)))
    else if mode == FETCH_BOTH then Ok(Both(ValuesOf(row), AssocOf(row)))
    else Err(UnsupportedFetchMode(mode))
  }

  /** Shape rejects exactly the modes other than ASSOC, NUM and BOTH; in every
      accepted mode an empty text comes out as null, positionally and by name. */
  lemma ShapeNormalizesEmptyText(mode: int, row: Row)
    ensures Shape(mode, row).Err? <==> mode !in {FETCH_ASSOC, FETCH_NUM, FETCH_BOTH}
    ensures mode in {FETCH_NUM, FETCH_BOTH} ==>
              var values := Shape(mode, row).value.values;
              |values| == |row| && forall i :: 0 <= i < |row| ==> (values[i] == Null <==> row[i].text == "")
    ensures mode in {FETCH_ASSOC, FETCH_BOTH} ==>
              forall name :: Lookup(Shape(mode, row).value.named, name) == LastNamed(row, name)
  {
    forall name ensures Lookup(AssocOf(row), name) == LastNamed(row, name) {
      AssocOfIsLastNamed(row, name);
    }
  }

  /** The loops of fetch: build the row column by column in the requested shape. */
  method ShapeRow(mode: int, row: Row) returns (r: Result<Shaped, StmtError>)
    ensures r == Shape(mode, row)
  {
    var numFields := |row|;
    if mode == FETCH_ASSOC {
      var named: Entries := [];
      for i := 0 to numFields
        invariant named == AssocOf(row[..i])
      {
        assert row[..i + 1][..i] == row[..i];
        named := Put(named, row[i].name, Normalize(row[i].text));
      }
      assert row[..numFields] == row;
      r := Ok(Assoc(named));
    } else if mode == FETCH_NUM {
      var values: seq<Cell> := [];
      for i := 0 to numFields
        invariant values == ValuesOf(row[..i])
      {
        values := values + [Normalize(row[i].text)];
      }
      assert row[..numFields] == row;
      r := Ok(Num(values));
    } else if mode == FETCH_BOTH {
      var values: seq<Cell> := [];
      var named: Entries := [];
      for i := 0 to numFields
        invariant values == ValuesOf(row[..i])
        invariant named == AssocOf(row[..i])
      {
        assert row[..i + 1][..i] == row[..i];
        values := values + [Normalize(row[i].text)];
        named := Put(named, row[i].name, Normalize(row[i].text));
      }
      assert row[..numFields] == row;
      r := Ok(Both(values, named));
    } else {
      r := Err(UnsupportedFetchMode(mode));
    }
  }

  /** PHP treats an empty row array as false, which ends the loop of fetchAll. */
  predicate IsEmptyRow(s: Shaped) {
    match s
    case Assoc(named) => named == []
    case Num(values) => values == []
    case Both(values, named) => values == [] && named == []
  }

  /** The rows fetchAll collects from the given cursor, and the cursor it leaves:
      it stops at the end of the rows, at an empty row (consumed), or at the
      first error (the offending row consumed). */
  function FetchAllRows(mode: int, cursor: seq<Row>): (r: (Result<seq<Shaped>, StmtError>, seq<Row>))
    ensures |r.1| <= |cursor|
    decreases |cursor|
  {
    if cursor == [] then (Ok([]), [])
    else match Shape(mode, cursor[0])
      case Err(e) => (Err(e), cursor[1..])
      case Ok(s) =>
        if IsEmptyRow(s) then (Ok([]), cursor[1..])
        else
          var (rest, left) := FetchAllRows(mode, cursor[1..]);
          (if rest.Ok? then Ok([s] + rest.value) else rest, left)
  }

  /** The rows collected so far put in front of what the rest of the loop collects. */
  function Prepend(rows: seq<Shaped>, rest: (Result<seq<Shaped>, StmtError>, seq<Row>)): (Result<seq<Shaped>, StmtError>, seq<Row>) {
    (if rest.0.Ok? then Ok(rows + rest.0.value) else rest.0, rest.1)
  }

  /** With a supported mode and no column-less row, fetchAll returns every
      remaining row, shaped, in cursor order, and drains the cursor. */
  lemma {:induction false} FetchAllReturnsEveryRow(mode: int, cursor: seq<Row>)
    requires mode in {FETCH_ASSOC, FETCH_NUM, FETCH_BOTH}
    requires forall i :: 0 <= i < |cursor| ==> cursor[i] != []
    ensures FetchAllRows(mode, cursor).1 == []
    ensures var rows := FetchAllRows(mode, cursor).0;
            rows.Ok? && |rows.value| == |cursor|
            && forall i :: 0 <= i < |cursor| ==> Ok(rows.value[i]) == Shape(mode, cursor[i])
    decreases |cursor|
  {
    if cursor != [] {
      FetchAllReturnsEveryRow(mode, cursor[1..]);
      var s := Shape(mode, cursor[0]).value;
      assert !IsEmptyRow(s) by {
        if mode == FETCH_ASSOC {
          assert Lookup(s.named, cursor[0][0].name).Some? by {
            AssocOfIsLastNamed(cursor[0], cursor[0][0].name);
            LastNamedOfPresent(cursor[0], 0);
          }
        }
      }
      var rows := FetchAllRows(mode, cursor).0;
      var rest := FetchAllRows(mode, cursor[1..]).0;
      assert rows.value == [s] + rest.value;
      forall i | 0 <= i < |cursor| ensures Ok(rows.value[i]) == Shape(mode, cursor[i]) {
        if i > 0 {
          assert rows.value[i] == rest.value[i - 1];
          assert cursor[1..][i - 1] == cursor[i];
        }
      }
    }
  }

  /** A column's name always finds some value. */
  lemma {:induction false} LastNamedOfPresent(row: Row, j: nat)
    requires j < |row|
    ensures LastNamed(row, row[j].name).Some?
    decreases |row|
  {
    if row[|row| - 1].name != row[j].name {
      assert j < |row| - 1;
      LastNamedOfPresent(row[..|row| - 1], j);
    }
  }

  // ---------------------------------------------------------------------------
  // Binding

  /** execute() shifts integer keys by one: its params are 0-based, bind identifiers 1-based. */
  function Shift(k: Key): Key {
    if k.Pos? then Pos(k.n + 1) else k
  }

  /** The bound slots after binding a list of (identifier, value) pairs in order,
      and the first identifier that was not in paramMap, if any (binding stops
      there; the pairs bound before it stay bound). */
  datatype Bound = Bound(params: map<nat, Value>, unknown: Option<Key>)

  function BindAll(params: map<nat, Value>, paramMap: map<Key, nat>, args: seq<(Key, Value)>): (b: Bound)
    ensures b.params.Keys >= params.Keys
    ensures b.params.Keys <= params.Keys + paramMap.Values
    ensures b.unknown.Some? ==> b.unknown.value !in paramMap
    ensures b.unknown.None? ==> forall i :: 0 <= i < |args| ==> Shift(args[i].0) in paramMap
    decreases |args|
  {
    if args == [] then Bound(params, None)
    else
      var k := Shift(args[0].0);
      if k !in paramMap then Bound(params, Some(k))
      else
        var b := BindAll(params[paramMap[k] := args[0].1], paramMap, args[1..]);
        assert forall i :: 1 <= i < |args| ==> args[i] == args[1..][i - 1];
        b
  }

  /** A slot that no pair's identifier maps to keeps the value it had: bindings
      from earlier calls persist. */
  lemma {:induction false} BindAllKeepsOtherSlots(params: map<nat, Value>, paramMap: map<Key, nat>,
                                                  args: seq<(Key, Value)>, slot: nat)
    requires slot in params
    requires forall i :: 0 <= i < |args| && Shift(args[i].0) in paramMap ==> paramMap[Shift(args[i].0)] != slot
    ensures BindAll(params, paramMap, args).params[slot] == params[slot]
    decreases |args|
  {
    if args != [] && Shift(args[0].0) in paramMap {
      var k := Shift(args[0].0);
      forall i | 0 <= i < |args[1..]| && Shift(args[1..][i].0) in paramMap
        ensures paramMap[Shift(args[1..][i].0)] != slot
      {
        assert args[1..][i] == args[i + 1];
      }
      BindAllKeepsOtherSlots(params[paramMap[k] := args[0].1], paramMap, args[1..], slot);
    }
  }

  /** The pairs of a PHP list [v0, v1, ...] passed to execute(): keys 0, 1, ... */
  function ListArgs(values: seq<Value>): (args: seq<(Key, Value)>)
    ensures |args| == |values|
    ensures forall i :: 0 <= i < |values| ==> args[i] == (Pos(i), values[i])
  {
    seq(|values|, i requires 0 <= i < |values| => (Pos(i), values[i]))
  }

  /** execute([v0, ..., vn-1]) on a query with n positional markers binds v_i
      to slot i, every slot, and nothing else. */
  lemma ListBindFillsEverySlot(values: seq<Value>)
    ensures BindAll(map[], PositionalMap(|values|), ListArgs(values)) == Bound(SlotMap(values), None)
    ensures |SlotMap(values)| == |PositionalMap(|values|)|
  {
    assert ListArgs(values)[0..] == ListArgs(values);
    assert Prefilled(values, 0, map[]);
    ListBindFrom(values, 0, map[]);
  }

  /** The slots 0 .. n-1. */
  function Slots(n: nat): (r: set<nat>)
    ensures |r| == n
    ensures forall i: int :: i in r <==> 0 <= i < n
  {
    if n == 0 then {} else Slots(n - 1) + {n - 1}
  }

  /** The params array {0: v0, ..., n-1: vn-1}. */
  function SlotMap(values: seq<Value>): (m: map<nat, Value>)
    ensures m.Keys == Slots(|values|)
    ensures forall i :: 0 <= i < |values| ==> m[i] == values[i]
  {
    map i: nat | i in Slots(|values|) :: values[i]
  }

  lemma {:induction false} ListBindFrom(values: seq<Value>, start: nat, params: map<nat, Value>)
    requires start <= |values|
    requires Prefilled(values, start, params)
    ensures BindAll(params, PositionalMap(|values|), ListArgs(values)[start..]) == Bound(SlotMap(values), None)
    decreases |values| - start
  {
    if start == |values| {
      ListBindDone(values, params);
    } else {
      var next := params[start := values[start]];
      ListBindStep(values, start, params);
      ListBindFrom(values, start + 1, next);
    }
  }

  /** params holds values[0 .. start-1] in slots 0 .. start-1 and nothing else. */
  predicate Prefilled(values: seq<Value>, start: nat, params: map<nat, Value>)
    requires start <= |values|
  {
    params.Keys == Slots(start) && forall i :: 0 <= i < start ==> params[i] == values[i]
  }

  lemma ListBindDone(values: seq<Value>, params: map<nat, Value>)
    requires Prefilled(values, |values|, params)
    ensures BindAll(params, PositionalMap(|values|), ListArgs(values)[|values|..]) == Bound(SlotMap(values), None)
  {
    assert params == SlotMap(values);
    assert ListArgs(values)[|values|..] == [];
  }

  lemma ListBindStep(values: seq<Value>, start: nat, params: map<nat, Value>)
    requires start < |values|
    requires Prefilled(values, start, params)
    ensures var next := params[start := values[start]];
            && Prefilled(values, start + 1, next)
            && BindAll(params, PositionalMap(|values|), ListArgs(values)[start..])
               == BindAll(next, PositionalMap(|values|), ListArgs(values)[start + 1..])
  {
    var next := params[start := values[start]];
    PrefilledStep(values, start, params);
    var args := ListArgs(values)[start..];
    var pm := PositionalMap(|values|);
    assert Shift(args[0].0) == Pos(start + 1) && args[0].1 == values[start];
    assert pm[Pos(start + 1)] == start;
    assert args[1..] == ListArgs(values)[start + 1..];
    BindStep(params, pm, args);
  }

  lemma PrefilledStep(values: seq<Value>, start: nat, params: map<nat, Value>)
    requires start < |values|
    requires Prefilled(values, start, params)
    ensures Prefilled(values, start + 1, params[start := values[start]])
  {
    assert params[start := values[start]].Keys == Slots(start) + {start} == Slots(start + 1);
  }

  /** One turn of the binding loop. */
  lemma BindStep(params: map<nat, Value>, paramMap: map<Key, nat>, args: seq<(Key, Value)>)
    requires args != [] && Shift(args[0].0) in paramMap
    ensures BindAll(params, paramMap, args)
            == BindAll(params[paramMap[Shift(args[0].0)] := args[0].1], paramMap, args[1..])
  {
  }

  /** For `a = :a AND b = :a`, binding `a` once fills slot 1 only, yet the count
      check passes (one bound slot, one entry in paramMap), so the backend is
      asked to execute two markers with one value. */
  lemma RepeatedNamePassesCountCheck(v: Value)
    ensures var pm := NamedMap([Placeholder(26, "a"), Placeholder(37, "a")]);
            var b := BindAll(map[], pm, [(Name("a"), v)]);
            && b == Bound(map[1 := v], None)
            && |b.params| == |pm|
  {
    RepeatedNameKeepsLastSlot(26, 37, "a");
    var pm := map[Name("a") := 1];
    assert BindAll(map[1 := v], pm, []) == Bound(map[1 := v], None);
    var empty: map<nat, Value> := map[];
    assert map[1 := v] == empty[1 := v];
  }

  // ---------------------------------------------------------------------------
  // The order odbc_execute sends values in

  /** A PHP array keeps its keys in the order they were first assigned; a slot
      assigned again keeps its place. */
  function Enter(order: seq<nat>, slot: nat): (r: seq<nat>)
    ensures slot in r && (forall s :: s in r <==> s in order || s == slot)
    ensures |r| == if slot in order then |order| else |order| + 1
  {
    if slot in order then order else order + [slot]
  }

  /** The key order of params after binding the pairs as BindAll does. */
  function BindOrder(order: seq<nat>, paramMap: map<Key, nat>, args: seq<(Key, Value)>): seq<nat>
    decreases |args|
  {
    if args == [] then order
    else
      var k := Shift(args[0].0);
      if k !in paramMap then order
      else BindOrder(Enter(order, paramMap[k]), paramMap, args[1..])
  }

  /** The values odbc_execute hands to the markers: the elements of params in
      array order, whatever their keys. */
  function InOrder(order: seq<nat>, params: map<nat, Value>): (vs: seq<Value>)
    ensures |vs| == |order|
    ensures forall i :: 0 <= i < |order| && order[i] in params ==> vs[i] == params[order[i]]
  {
    if order == [] then []
    else [if order[0] in params then params[order[0]] else VNull] + InOrder(order[1..], params)
  }

  /** The slots 0, 1, ..., n-1 in increasing order. */
  function Range(n: nat): (r: seq<nat>)
    ensures |r| == n && forall i :: 0 <= i < n ==> r[i] == i
  {
    if n == 0 then [] else Range(n - 1) + [n - 1]
  }

  /** Binding the rest of a list after its first `start` elements ends with
      every slot entered in increasing order. */
  lemma {:induction false} ListOrderFrom(values: seq<Value>, start: nat)
    requires start <= |values|
    ensures BindOrder(Range(start), PositionalMap(|values|), ListArgs(values)[start..]) == Range(|values|)
    decreases |values| - start
  {
    if start == |values| {
      assert ListArgs(values)[start..] == [];
    } else {
      ListOrderStep(values, start);
      ListOrderFrom(values, start + 1);
    }
  }

  /** One element of a list: its slot comes right after the ones before it. */
  lemma ListOrderStep(values: seq<Value>, start: nat)
    requires start < |values|
    ensures BindOrder(Range(start), PositionalMap(|values|), ListArgs(values)[start..])
            == BindOrder(Range(start + 1), PositionalMap(|values|), ListArgs(values)[start + 1..])
  {
    var pm := PositionalMap(|values|);
    var args := ListArgs(values)[start..];
    assert args[0] == (Pos(start), values[start]);
    assert Shift(args[0].0) == Pos(start + 1) && pm[Pos(start + 1)] == start;
    RangeGrows(start);
    assert args[1..] == ListArgs(values)[start + 1..];
    assert BindOrder(Range(start), pm, args) == BindOrder(Enter(Range(start), start), pm, args[1..]);
  }

  /** Entering slot n after the slots below it gives the slots up to n. */
  lemma RangeGrows(n: nat)
    ensures Enter(Range(n), n) == Range(n + 1)
  {
    assert forall i :: 0 <= i < n ==> Range(n)[i] != n;
    assert n !in Range(n);
  }

  /** execute([v0, ..., vn-1]) on a fresh statement with n positional markers
      hands the backend exactly v0, ..., vn-1, marker by marker. */
  lemma ListBindSendsValues(values: seq<Value>)
    ensures var pm := PositionalMap(|values|);
            var args := ListArgs(values);
            InOrder(BindOrder([], pm, args), BindAll(map[], pm, args).params) == values
  {
    var pm := PositionalMap(|values|);
    var args := ListArgs(values);
    ListBindFillsEverySlot(values);
    assert args[0..] == args;
    ListOrderFrom(values, 0);
    assert BindOrder([], pm, args) == Range(|values|) by { assert Range(0) == []; }
    InOrderSlots(values);
  }

  lemma InOrderSlots(values: seq<Value>)
    ensures InOrder(Range(|values|), SlotMap(values)) == values
  {
    var vs := InOrder(Range(|values|), SlotMap(values));
    forall i | 0 <= i < |values|
      ensures vs[i] == values[i]
    {
      assert Range(|values|)[i] == i;
    }
  }

  /** For `:a ... :b` (paramMap a -> 0, b -> 1), execute(['b' => x, 'a' => y])
      fills slot 1 before slot 0, so the backend receives x for `:a` and y
      for `:b`: the keys chose the slots, the binding order chose the markers. */
  lemma NamedArgsSentInBindOrder(x: Value, y: Value)
    ensures var pm := map[Name("a") := 0, Name("b") := 1];
            var args := [(Name("b"), x), (Name("a"), y)];
            && BindAll(map[], pm, args).params == map[0 := y, 1 := x]
            && BindOrder([], pm, args) == [1, 0]
            && InOrder(BindOrder([], pm, args), BindAll(map[], pm, args).params) == [x, y]
  {
    var pm := map[Name("a") := 0, Name("b") := 1];
    var args := [(Name("b"), x), (Name("a"), y)];
    var empty: map<nat, Value> := map[];
    assert args[1..][1..] == [];
    assert BindAll(map[], pm, args) == BindAll(empty[1 := x], pm, args[1..]);
    assert BindAll(empty[1 := x], pm, args[1..]) == BindAll(empty[1 := x][0 := y], pm, []);
    assert empty[1 := x][0 := y] == map[0 := y, 1 := x];
    var none: seq<nat> := [];
    assert Enter(none, 1) == [1] by { assert none + [1] == [1]; }
    assert Enter([1], 0) == [1, 0];
    assert BindOrder([], pm, args) == BindOrder([1], pm, args[1..]);
    assert BindOrder([1], pm, args[1..]) == BindOrder([1, 0], pm, []);
  }

  // ---------------------------------------------------------------------------
  // The statement object

  /** What the backend will answer to the next execute: whether odbc_prepare and
      odbc_execute succeed, the rows of the result set, and what odbc_num_rows
      reports for the statement that odbc_prepare returned. */
  datatype BackendAnswer = BackendAnswer(prepared: bool, executed: bool, rows: seq<Row>, affected: int)

  /** A call the statement made to the backend. */
  datatype Call = PrepareCall(sql: string) | ExecuteCall(values: seq<Value>)

  /** What fetch returns: false when no row is left, otherwise the row. */
  datatype Fetched = NoRow | RowOf(row: Shaped)

  /** The iterator's current element: never set (null), false, or a row. */
  datatype Current = Unset | Exhausted | Element(row: Shaped)

  function NextKey(key: Option<int>): int {
    if key.None? then 1 else key.value + 1
  }

  class VerticaStatement {
    const originalQuery: string
    var query: string
    var paramMap: map<Key, nat>
    var params: map<nat, Value>
    /** the slots of params in the order they were first bound: the PHP array's order */
    var order: seq<nat>
    var executed: bool
    var defaultFetchMode: int
    var started: bool
    var key: Option<int>
    var current: Current
    /** rows of the result set the backend cursor has not handed out yet */
    var cursor: seq<Row>
    /** odbc_num_rows of the statement the last prepare returned; None when
        there is none (nothing prepared yet, or the last prepare failed) */
    var numRows: Option<int>
    /** every prepare and execute this statement has sent to the backend, oldest first */
    var calls: seq<Call>

    ghost predicate Valid()
      reads this`started, this`key, this`current, this`params, this`paramMap, this`order
    {
      && (started <==> key.Some?)
      && (key.Some? ==> key.value >= 1)
      && (!started ==> current == Unset)
      && params.Keys <= paramMap.Values
      && |order| == |params|
      && (forall s :: s in params <==> s in order)
    }

    constructor (originalQuery: string, parsed: Parsed)
      ensures Valid()
      ensures this.originalQuery == originalQuery && query == parsed.sql && paramMap == parsed.paramMap
      ensures params == map[] && order == [] && !executed && defaultFetchMode == FETCH_BOTH
      ensures !started && key == None && current == Unset && cursor == [] && calls == [] && numRows == None
    {
      this.originalQuery := originalQuery;
      query := parsed.sql;
      paramMap := parsed.paramMap;
      params := map[];
      order := [];
      executed := false;
      defaultFetchMode := FETCH_BOTH;
      started := false;
      key := None;
      current := Unset;
      cursor := [];
      numRows := None;
      calls := [];
    }

    /** new VerticaStatement($dbh, $query): parse the query or throw the syntax error. */
    static method Create(query: string, positional: seq<nat>, named: seq<Placeholder>)
      returns (r: Result<VerticaStatement, StmtError>)
      ensures Rewrite(query, positional, named).Err? ==> r == Err(Syntax(Rewrite(query, positional, named).error))
      ensures Rewrite(query, positional, named).Ok? ==>
                && r.Ok? && fresh(r.value) && r.value.Valid()
                && r.value.originalQuery == query
                && r.value.query == Rewrite(query, positional, named).value.sql
                && r.value.paramMap == Rewrite(query, positional, named).value.paramMap
                && r.value.params == map[] && r.value.order == [] && !r.value.executed && r.value.calls == []
                && !r.value.started && r.value.defaultFetchMode == FETCH_BOTH && r.value.numRows == None
    {
      var parsed := ParseQuery(query, positional, named);
      if parsed.Err? {
        return Err(Syntax(parsed.error));
      }
      var s := new VerticaStatement(query, parsed.value);
      return Ok(s);
    }

    function GetSql(): (sql: string)
      reads this
      ensures sql == query
    {
      query
    }

    /** bindParam / bindValue: store the value in the identifier's slot, or
        throw naming the identifier and the original query. */
    method BindParam(column: Key, value: Value) returns (out: Outcome<StmtError>)
      requires Valid()
      modifies this`params, this`order
      ensures Valid()
      ensures column !in paramMap ==>
                out == Fail(UnknownParameter(column, originalQuery)) && params == old(params) && order == old(order)
      ensures column in paramMap ==>
                && out == Pass && params == old(params)[paramMap[column] := value]
                && order == Enter(old(order), paramMap[column])
    {
      if column !in paramMap {
        return Fail(UnknownParameter(column, originalQuery));
      }
      var slot := paramMap[column];
      if slot !in params {
        order := order + [slot];
      }
      params := params[slot := value];
      return Pass;
    }

    /** The foreach of execute: bind each pair in turn through bindValue,
        stopping at the first identifier paramMap does not know. */
    method BindArgs(args: seq<(Key, Value)>) returns (unknown: Option<Key>)
      requires Valid()
      modifies this`params, this`order
      ensures Valid()
      ensures Bound(params, unknown) == BindAll(old(params), paramMap, args)
      ensures order == BindOrder(old(order), paramMap, args)
    {
      var i := 0;
      while i < |args|
        invariant 0 <= i <= |args|
        invariant Valid()
        invariant BindAll(params, paramMap, args[i..]) == BindAll(old(params), paramMap, args)
        invariant BindOrder(order, paramMap, args[i..]) == BindOrder(old(order), paramMap, args)
      {
        var pos := Shift(args[i].0);
        assert args[i..][1..] == args[i + 1..];
        var o := BindParam(pos, args[i].1);
        if o.Fail? {
          return Some(pos);
        }
        i := i + 1;
      }
      assert args[i..] == [];
      return None;
    }

    /** execute($params): prepare again, bind the given pairs (None when no
        array is given), check that as many slots are bound as paramMap has
        entries, and only then run the backend, handing it the bound values in
        array order. The count check reads count($params), which throws when
        no array was given. */
    method Execute(args: Option<seq<(Key, Value)>>, answer: BackendAnswer) returns (out: Outcome<StmtError>)
      requires Valid()
      modifies this`params, this`order, this`executed, this`cursor, this`numRows, this`calls
      ensures Valid()
      ensures numRows == (if answer.prepared then Some(answer.affected) else None)
      ensures !answer.prepared ==>
                && out == Fail(Backend) && calls == old(calls) + [PrepareCall(query)]
                && params == old(params) && order == old(order) && executed == old(executed) && cursor == []
      ensures answer.prepared ==>
                var given := if args.Some? then args.value else [];
                var b := BindAll(old(params), paramMap, given);
                && params == b.params && order == BindOrder(old(order), paramMap, given)
                && (b.unknown.Some? ==>
                      out == Fail(UnknownParameter(b.unknown.value, originalQuery))
                      && !executed && calls == old(calls) + [PrepareCall(query)] && cursor == [])
                && (b.unknown.None? && |b.params| != |paramMap| ==>
                      out == Fail(if args.Some? then CountMismatch(|args.value|, |paramMap|) else UncountableParams)
                      && !executed && calls == old(calls) + [PrepareCall(query)] && cursor == [])
                && (b.unknown.None? && |b.params| == |paramMap| ==>
                      calls == old(calls) + [PrepareCall(query), ExecuteCall(InOrder(order, params))]
                      && |InOrder(order, params)| == |paramMap|
                      && executed == answer.executed
                      && out == (if answer.executed then Pass else Fail(Backend))
                      && cursor == (if answer.executed then answer.rows else []))
    {
      if !answer.prepared {
        calls := calls + [PrepareCall(query)];
        cursor := [];
        numRows := None;
        return Fail(Backend);
      }
      numRows := Some(answer.affected);
      out := PrepareAndRun(if args.Some? then args.value else [], args.Some?, answer.executed, answer.rows);
    }

    /** execute after a prepare that succeeded: the old cursor is gone with the
        old statement. `counted` says whether an array was given to count. */
    method PrepareAndRun(given: seq<(Key, Value)>, counted: bool, ran: bool, rows: seq<Row>)
      returns (out: Outcome<StmtError>)
      requires Valid()
      modifies this`params, this`order, this`executed, this`cursor, this`calls
      ensures Valid()
      ensures params == BindAll(old(params), paramMap, given).params
      ensures order == BindOrder(old(order), paramMap, given)
      ensures var unknown := BindAll(old(params), paramMap, given).unknown;
              unknown.Some? ==>
                && out == Fail(UnknownParameter(unknown.value, originalQuery))
                && !executed && calls == old(calls) + [PrepareCall(query)] && cursor == []
      ensures var unknown := BindAll(old(params), paramMap, given).unknown;
              unknown.None? && |params| != |paramMap| ==>
                && out == Fail(if counted then CountMismatch(|given|, |paramMap|) else UncountableParams)
                && !executed && calls == old(calls) + [PrepareCall(query)] && cursor == []
      ensures var unknown := BindAll(old(params), paramMap, given).unknown;
              unknown.None? && |params| == |paramMap| ==>
                && calls == old(calls) + [PrepareCall(query), ExecuteCall(InOrder(order, params))]
                && |InOrder(order, params)| == |paramMap|
                && executed == ran && out == (if ran then Pass else Fail(Backend))
                && cursor == (if ran then rows else [])
    {
      calls, cursor, executed := calls + [PrepareCall(query)], [], false;
      var unknown := BindArgs(given);
      out := CheckAndSend(unknown, counted, |given|, ran, rows);
    }

    /** The end of execute once binding stopped: an unknown identifier throws,
        then the count check, then odbc_execute. */
    method CheckAndSend(unknown: Option<Key>, counted: bool, given: nat, ran: bool, rows: seq<Row>)
      returns (out: Outcome<StmtError>)
      requires Valid() && !executed && cursor == []
      modifies this`executed, this`cursor, this`calls
      ensures unknown.Some? ==>
                && out == Fail(UnknownParameter(unknown.value, originalQuery))
                && !executed && calls == old(calls) && cursor == []
      ensures unknown.None? && |params| != |paramMap| ==>
                && out == Fail(if counted then CountMismatch(given, |paramMap|) else UncountableParams)
                && !executed && calls == old(calls) && cursor == []
      ensures unknown.None? && |params| == |paramMap| ==>
                && calls == old(calls) + [ExecuteCall(InOrder(order, params))]
                && |InOrder(order, params)| == |paramMap|
                && executed == ran && out == (if ran then Pass else Fail(Backend))
                && cursor == (if ran then rows else [])
    {
      if unknown.Some? {
        return Fail(UnknownParameter(unknown.value, originalQuery));
      }
      if |params| != |paramMap| {
        if !counted {
          return Fail(UncountableParams);
        }
        return Fail(CountMismatch(given, |paramMap|));
      }
      out := Send(ran, rows);
    }

    /** odbc_execute with the bound values in array order, one per entry of
        paramMap. */
    method Send(ran: bool, rows: seq<Row>) returns (out: Outcome<StmtError>)
      requires Valid() && |params| == |paramMap| && !executed && cursor == []
      modifies this`executed, this`cursor, this`calls
      ensures calls == old(calls) + [ExecuteCall(InOrder(order, params))]
      ensures |InOrder(order, params)| == |paramMap|
      ensures executed == ran && out == (if ran then Pass else Fail(Backend))
      ensures cursor == (if ran then rows else [])
    {
      calls := calls + [ExecuteCall(InOrder(order, params))];
      if !ran {
        return Fail(Backend);
      }
      executed := true;
      cursor := rows;
      return Pass;
    }

    /** fetch($fetchMode): take the next row from the cursor and shape it, or
        return false when none is left. An unsupported mode throws only after
        the row has been taken. */
    method Fetch(mode: int) returns (r: Result<Fetched, StmtError>)
      modifies this`cursor
      ensures old(cursor) == [] ==> r == Ok(NoRow) && cursor == []
      ensures old(cursor) != [] ==>
                && cursor == old(cursor)[1..]
                && r == match Shape(EffectiveMode(mode, defaultFetchMode), old(cursor)[0])
                        case Ok(s) => Ok(RowOf(s))
                        case Err(e) => Err(e)
    {
      if cursor == [] {
        return Ok(NoRow);
      }
      var row := cursor[0];
      cursor := cursor[1..];
      var shaped := ShapeRow(EffectiveMode(mode, defaultFetchMode), row);
      if shaped.Err? {
        return Err(shaped.error);
      }
      return Ok(RowOf(shaped.value));
    }

    /** fetchAll($fetchMode): fetch until false or an empty row. */
    method FetchAll(mode: int) returns (r: Result<seq<Shaped>, StmtError>)
      modifies this`cursor
      ensures (r, cursor) == FetchAllRows(EffectiveMode(mode, defaultFetchMode), old(cursor))
    {
      var m := EffectiveMode(mode, defaultFetchMode);
      var rows: seq<Shaped> := [];
      assert FetchAllRows(m, cursor).0.Ok? ==> [] + FetchAllRows(m, cursor).0.value == FetchAllRows(m, cursor).0.value;
      while true
        invariant FetchAllRows(m, old(cursor)) == Prepend(rows, FetchAllRows(m, cursor))
        decreases |cursor|
      {
        ghost var before := cursor;
        var f := Fetch(mode);
        if f.Err? {
          return Err(f.error);
        }
        if f.value.NoRow? || IsEmptyRow(f.value.row) {
          assert rows + [] == rows;
          return Ok(rows);
        }
        var s := f.value.row;
        ghost var rest := FetchAllRows(m, cursor);
        assert FetchAllRows(m, before) == Prepend([s], rest);
        if rest.0.Ok? {
          assert rows + ([s] + rest.0.value) == (rows + [s]) + rest.0.value;
        }
        rows := rows + [s];
      }
    }

    /** fetchColumn($columnIndex): the raw text of one column of the next row;
        unlike fetch it does not turn "" into null. false (None) when no row is
        left or the column does not exist. */
    method FetchColumn(columnIndex: int) returns (r: Option<string>)
      modifies this`cursor
      ensures old(cursor) == [] ==> r == None && cursor == []
      ensures old(cursor) != [] ==>
                && cursor == old(cursor)[1..]
                && r == (if 0 <= columnIndex < |old(cursor)[0]| then Some(old(cursor)[0][columnIndex].text) else None)
    {
      if cursor == [] {
        return None;
      }
      var row := cursor[0];
      cursor := cursor[1..];
      var field := columnIndex + 1;
      if 1 <= field <= |row| {
        return Some(row[field - 1].text);
      }
      return None;
    }

    /** rowCount(): odbc_num_rows of the statement the last prepare returned,
        which throws when there is no such statement. */
    function RowCount(): (r: Result<int, StmtError>)
      reads this
      ensures r.Ok? <==> numRows.Some?
      ensures r.Ok? ==> r.value == numRows.value
      ensures r.Err? ==> r.error == NoStatementHandle
    {
      if numRows.Some? then Ok(numRows.value) else Err(NoStatementHandle)
    }

    /** The current element and the cursor after next() fetched from `rows`:
        the first row, shaped in the default mode, with the rest left on the
        cursor; or false when there was none. */
    predicate FetchedFrom(rows: seq<Row>)
      reads this
    {
      if rows == [] then current == Exhausted && cursor == []
      else cursor == rows[1..] && current.Element? && Shape(EffectiveMode(0, defaultFetchMode), rows[0]) == Ok(current.row)
    }

    /** Iterator::next: execute first if that has not happened, advance the key,
        mark iteration as started and fetch the next row as the current element. */
    method Next(answer: BackendAnswer) returns (out: Outcome<StmtError>)
      requires Valid()
      modifies this
      ensures Valid()
      ensures query == old(query) && paramMap == old(paramMap) && defaultFetchMode == old(defaultFetchMode)
      ensures old(executed) ==> calls == old(calls) && params == old(params)
      ensures !old(executed) ==> |calls| > |old(calls)| && calls[..|old(calls)|] == old(calls)
                                 && calls[|old(calls)|] == PrepareCall(query)
      ensures out.Pass? && !old(executed) ==>
                calls == old(calls) + [PrepareCall(query), ExecuteCall(InOrder(old(order), old(params)))]
      ensures out.Pass? ==> executed && started && key == Some(NextKey(old(key)))
      ensures out.Pass? ==> FetchedFrom(if old(executed) then old(cursor) else answer.rows)
      ensures out.Pass? ==> (IsValid() <==> (if old(executed) then old(cursor) else answer.rows) != [])
      ensures out.Fail? && !old(executed) && !executed ==> started == old(started) && key == old(key) && current == old(current)
    {
      if !executed {
        var o := Execute(None, answer);
        if o.Fail? {
          return o;
        }
      }
      key := Some(NextKey(key));
      started := true;
      var f := Fetch(0);
      if f.Err? {
        return Fail(f.error);
      }
      current := if f.value.NoRow? then Exhausted else Element(f.value.row);
      return Pass;
    }

    /** Iterator::rewind: only allowed before iteration has started; it then does what next does. */
    method Rewind(answer: BackendAnswer) returns (out: Outcome<StmtError>)
      requires Valid()
      modifies this
      ensures Valid()
      ensures old(started) ==> out == Fail(RewindAfterStart) && unchanged(this)
      ensures !old(started) && out.Pass? ==> started && executed && key == Some(1)
      ensures !old(started) && out.Pass? ==> FetchedFrom(if old(executed) then old(cursor) else answer.rows)
      ensures !old(started) && out.Pass? ==> (IsValid() <==> (if old(executed) then old(cursor) else answer.rows) != [])
      ensures !old(started) && out.Pass? && !old(executed) ==>
                calls == old(calls) + [PrepareCall(query), ExecuteCall(InOrder(old(order), old(params)))]
    {
      if started {
        return Fail(RewindAfterStart);
      }
      out := Next(answer);
    }

    /** Iterator::valid: false only once a fetch has returned false. */
    predicate IsValid()
      reads this
    {
      current != Exhausted
    }

    /** Iterator::key: the key when it is set and not negative, else null. */
    function Key(): (k: Option<int>)
      reads this
      requires Valid()
      ensures k.Some? <==> started
      ensures started ==> k == key
    {
      if key.Some? && key.value >= 0 then key else None
    }

    /** setFetchMode: only the mode itself may be given; it is stored unchecked. */
    method SetFetchMode(mode: int, arg2: Value, arg3: Value) returns (out: Outcome<StmtError>)
      modifies this`defaultFetchMode
      ensures arg2 != VNull || arg3 != VNull ==> out == Fail(ExtraFetchArguments) && defaultFetchMode == old(defaultFetchMode)
      ensures arg2 == VNull && arg3 == VNull ==> out == Pass && defaultFetchMode == mode
    {
      if arg2 != VNull || arg3 != VNull {
        return Fail(ExtraFetchArguments);
      }
      defaultFetchMode := mode;
      return Pass;
    }
  }
}
