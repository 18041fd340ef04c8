/** VerticaDriver: building the ODBC connection string from Doctrine's
    connection parameters, and opening a VericaConnection with it. */
module Driver {
  import opened Common
  import opened Connection

  /** The connection parameters the DSN is built from; None is a key that is
      absent or null (PHP's isset fails on both). `odbcDriver` is
      `params['driverOptions']['odbc_driver']`. */
  datatype DsnParams = DsnParams(
    dsn: Option<string>,
    odbcDriver: Option<string>,
    host: Option<string>,
    port: Option<string>,
    dbname: Option<string>)

  /** The driver options appended at the end, as key/value pairs in array order. */
  type Options = seq<(string, string)>

  datatype DriverError = DriverException(cause: ConnError)

  /** A non-empty `dsn` parameter (PHP's empty() treats "" and "0" as empty). */
  predicate HasDsn(p: DsnParams) {
    p.dsn.Some? && !EmptyString(p.dsn.value)
  }

  /** The ODBC driver name: the odbc_driver option, or `vertica` when it is empty. */
  function DriverName(p: DsnParams): string {
    if p.odbcDriver.Some? && !EmptyString(p.odbcDriver.value) then p.odbcDriver.value else "vertica"
  }

  /** `name` + value + `;` when the parameter is set, nothing otherwise. */
  function Segment(name: string, v: Option<string>): string {
    if v.Some? then name + v.value + ";" else ""
  }

  /** Each driver option as `key=value`. */
  function OptionTexts(opts: Options): (texts: seq<string>)
    ensures |texts| == |opts|
    ensures forall i :: 0 <= i < |opts| ==> texts[i] == opts[i].0 + "=" + opts[i].1
  {
    seq(|opts|, i requires 0 <= i < |opts| => opts[i].0 + "=" + opts[i].1)
  }

  /** constructPdoDsn($params, $driverOptions). */
  function ConstructDsn(p: DsnParams, opts: Options): (dsn: string)
    ensures HasDsn(p) ==> dsn == p.dsn.value
  {
    if HasDsn(p) then p.dsn.value
    else
      var d := "Driver=" + DriverName(p) + ";";
      var d := d + Segment("Servername=", p.host);
      var d := d + Segment("Port=", p.port);
      var d := d + Segment("Database=", p.dbname);
      if opts != [] then d + ";" + Join(OptionTexts(opts), ";") else d
  }

  /** The `name=value` fields of a built DSN, in order: the driver always, then
      the server, port and database exactly when they are set. */
  function Fields(p: DsnParams): seq<string> {
    ["Driver=" + DriverName(p)]
      + (if p.host.Some? then ["Servername=" + p.host.value] else [])
      + (if p.port.Some? then ["Port=" + p.port.value] else [])
      + (if p.dbname.Some? then ["Database=" + p.dbname.value] else [])
  }

  /** No value that goes into the DSN contains the separator. */
  predicate SeparatorFree(p: DsnParams, opts: Options) {
    && (forall i :: 0 <= i < |Fields(p)| ==> ';' !in Fields(p)[i])
    && (forall i :: 0 <= i < |opts| ==> ';' !in opts[i].0 + "=" + opts[i].1)
  }

  /** Splitting a built DSN on `;` gives back its fields, then one empty
      field (the `;` that ends the fixed part, doubled before the options or
      final without them), then one `key=value` field per driver option. */
  lemma DsnFields(p: DsnParams, opts: Options)
    requires !HasDsn(p) && SeparatorFree(p, opts)
    ensures Split(ConstructDsn(p, opts), ';') == Fields(p) + [""] + OptionTexts(opts)
  {
    var fields := Fields(p);
    var tail := if opts != [] then ";" + Join(OptionTexts(opts), ";") else "";
    FixedPart(p);
    assert ConstructDsn(p, opts) == Terminated(fields) + tail;
    SplitTerminated(fields, tail);
    if opts == [] {
      SplitNoSep("", ';');
      assert OptionTexts(opts) == [];
    } else {
      assert tail == "" + [';'] + Join(OptionTexts(opts), ";");
      SplitAt("", Join(OptionTexts(opts), ";"), ';');
      SplitJoined(OptionTexts(opts), ';');
    }
    ConcatAssoc(fields, [""], OptionTexts(opts));
  }

  /** Each field followed by `;`. */
  function Terminated(fields: seq<string>): string
    decreases |fields|
  {
    if fields == [] then "" else fields[0] + ";" + Terminated(fields[1..])
  }

  lemma {:induction false} TerminatedAppend(a: seq<string>, b: seq<string>)
    ensures Terminated(a + b) == Terminated(a) + Terminated(b)
    decreases |a|
  {
    if a != [] {
      var ab := a + b;
      assert ab[0] == a[0];
      assert ab[1..] == a[1..] + b;
      TerminatedAppend(a[1..], b);
      assert Terminated(ab) == a[0] + ";" + Terminated(a[1..] + b);
    } else {
      assert a + b == b;
    }
  }

  lemma TerminatedOne(f: string)
    ensures Terminated([f]) == f + ";"
  {
    assert [f][1..] == [];
  }

  /** The part before the driver options is the terminated fields. */
  lemma FixedPart(p: DsnParams)
    requires !HasDsn(p)
    ensures "Driver=" + DriverName(p) + ";" + Segment("Servername=", p.host) + Segment("Port=", p.port)
            + Segment("Database=", p.dbname) == Terminated(Fields(p))
  {
    var a := ["Driver=" + DriverName(p)];
    var h := if p.host.Some? then ["Servername=" + p.host.value] else [];
    var o := if p.port.Some? then ["Port=" + p.port.value] else [];
    var b := if p.dbname.Some? then ["Database=" + p.dbname.value] else [];
    TerminatedAppend(a + h + o, b);
    TerminatedAppend(a + h, o);
    TerminatedAppend(a, h);
    TerminatedOne("Driver=" + DriverName(p));
    if p.host.Some? { TerminatedOne("Servername=" + p.host.value); }
    if p.port.Some? { TerminatedOne("Port=" + p.port.value); }
    if p.dbname.Some? { TerminatedOne("Database=" + p.dbname.value); }
  }

  lemma {:induction false} SplitTerminated(fields: seq<string>, rest: string)
    requires forall i :: 0 <= i < |fields| ==> ';' !in fields[i]
    ensures Split(Terminated(fields) + rest, ';') == fields + Split(rest, ';')
    decreases |fields|
  {
    if fields != [] {
      var f, fs := fields[0], fields[1..];
      assert forall i :: 0 <= i < |fs| ==> fs[i] == fields[i + 1];
      SplitTerminated(fs, rest);
      var more := Terminated(fs) + rest;
      assert Terminated(fields) == f + ";" + Terminated(fs);
      var whole := Terminated(fields) + rest;
      assert whole == f + [';'] + more;
      SplitAt(f, more, ';');
      assert fields == [f] + fs;
      ConcatAssoc([f], fs, Split(rest, ';'));
    } else {
      assert Terminated(fields) + rest == rest;
    }
  }

  /** getDatabase(): the `dbname` connection parameter, None when it is absent. */
  function GetDatabase(p: DsnParams): (db: Option<string>)
    ensures db.Some? <==> p.dbname.Some?
    ensures db.Some? ==> db.value == p.dbname.value
  {
    p.dbname
  }

  /** The database getDatabase reports is the one a DSN built from the
      parameters names in its `Database=` field. */
  lemma DatabaseInDsn(p: DsnParams, opts: Options)
    requires !HasDsn(p) && SeparatorFree(p, opts) && GetDatabase(p).Some?
    ensures "Database=" + GetDatabase(p).value in Split(ConstructDsn(p, opts), ';')
  {
    DsnFields(p, opts);
    var fields := Split(ConstructDsn(p, opts), ';');
    assert fields[|Fields(p)| - 1] == "Database=" + p.dbname.value;
  }

  /** connect(): open a VericaConnection on the built DSN; a failure to
      connect is rethrown wrapped as a driver exception. */
  method Connect(p: DsnParams, user: Value, password: Value, opts: Options, handle: bool, lastError: string)
    returns (r: Result<VericaConnection, DriverError>)
    ensures r.Err? <==> !handle
    ensures r.Err? ==> r.error == DriverException(ConnectFailed(lastError))
    ensures r.Ok? ==> fresh(r.value) && r.value.dsn == ConstructDsn(p, opts) && r.value.autocommit
  {
    var c := VericaConnection.Open(ConstructDsn(p, opts), user, password, handle, lastError);
    if c.Err? {
      return Err(DriverException(c.error));
    }
    return Ok(c.value);
  }
}
