/** The driver connection VericaConnection: a transaction state machine driven
    by the backend's autocommit flag, the string-literal quoter, and the
    exec / query / prepare compositions over VerticaStatement.

    The ODBC link is not modelled; what it answers is passed in: whether the
    connect primitive gave a handle, whether a commit, rollback or autocommit
    switch succeeded, and what a prepare and execute returned. */
module Connection {
  import opened Common
  import opened Placeholders
  import opened Statement

  datatype ConnError =
    | ConnectFailed(message: string)   // the connect primitive gave no handle
    | NotStarted                       // 'Transaction was not started'
    | AlreadyStarted                   // 'Transaction was already started'
    | StatementFailed(cause: StmtError)
    | BooleanReturnType                // a bool returned where the class `boolean` is declared

  /** What the connection sends to the backend about transactions. */
  datatype TxCall = SetAutocommit(on: bool) | CommitCall | RollbackCall

  /** A transaction request together with the backend's answers to it. */
  datatype TxOp =
    | BeginOp(switched: bool)                      // odbc_autocommit(dbh, false)
    | CommitOp(committed: bool, switched: bool)    // odbc_commit, then odbc_autocommit(dbh, true)
    | RollbackOp(rolledBack: bool, switched: bool) // odbc_rollback, then odbc_autocommit(dbh, true)

  /** What one transaction request does: its answer, the backend's autocommit
      flag afterwards, and the calls it sent. */
  datatype TxStep = TxStep(answer: Result<bool, ConnError>, autocommit: bool, sent: seq<TxCall>)

  /** checkTransactionStarted($flag): with flag set a transaction must be open,
      without it none may be. */
  function CheckTransactionStarted(flag: bool, inTransaction: bool): (r: Outcome<ConnError>)
    ensures r.Fail? <==> flag != inTransaction
    ensures r.Fail? ==> r.error == if flag then NotStarted else AlreadyStarted
  {
    if flag && !inTransaction then Fail(NotStarted)
    else if !flag && inTransaction then Fail(AlreadyStarted)
    else Pass
  }

  /** The transaction machine: beginTransaction, commit and rollBack on a
      backend whose autocommit flag is `autocommit`. A commit or rollback that
      the backend refuses stops before the autocommit switch (`&&`
      short-circuits), and a switch that fails leaves the flag as it was. */
  function Step(autocommit: bool, op: TxOp): TxStep
  {
    match op
    case BeginOp(switched) =>
      (match CheckTransactionStarted(false, !autocommit)
       case Fail(e) => TxStep(Err(e), autocommit, [])
       case Pass => TxStep(Ok(switched), if switched then false else autocommit, [SetAutocommit(false)]))
    case CommitOp(done, switched) => Finish(autocommit, CommitCall, done, switched)
    case RollbackOp(done, switched) => DeclaredBoolean(Finish(autocommit, RollbackCall, done, switched))
  }

  /** rollBack declares its return type as `boolean`, which PHP reads as the
      name of a class rather than as `bool`: once the backend calls are made,
      returning true or false throws. The calls and the flag stay as sent. */
  function DeclaredBoolean(t: TxStep): (r: TxStep)
    ensures r.answer.Err? && r.autocommit == t.autocommit && r.sent == t.sent
    ensures r.answer.error == (if t.answer.Ok? then BooleanReturnType else t.answer.error)
  {
    if t.answer.Ok? then t.(answer := Err(BooleanReturnType)) else t
  }

  /** commit and rollBack share their shape: the check, the backend call, and
      the autocommit switch only when that call succeeded. */
  function Finish(autocommit: bool, call: TxCall, done: bool, switched: bool): TxStep
  {
    match CheckTransactionStarted(true, !autocommit)
    case Fail(e) => TxStep(Err(e), autocommit, [])
    case Pass =>
      if !done then TxStep(Ok(false), autocommit, [call])
      else TxStep(Ok(switched), if switched then true else autocommit, [call, SetAutocommit(true)])
  }

  /** A request in the wrong state throws, sends nothing and changes nothing:
      a begin that meets an open transaction, or a commit or rollback that
      meets none. A begin or commit throws in no other case. */
  lemma StepRejectsWrongState(autocommit: bool, op: TxOp)
    ensures !op.RollbackOp? ==> (Step(autocommit, op).answer.Err? <==> (op.BeginOp? != autocommit))
    ensures op.BeginOp? != autocommit ==>
              && Step(autocommit, op).answer.Err?
              && Step(autocommit, op).autocommit == autocommit
              && Step(autocommit, op).sent == []
              && Step(autocommit, op).answer.error == (if op.BeginOp? then AlreadyStarted else NotStarted)
  {
    match op
    case BeginOp(_) =>
    case CommitOp(d, s) => assert Step(autocommit, op) == Finish(autocommit, CommitCall, d, s);
    case RollbackOp(d, s) =>
      assert Step(autocommit, op) == DeclaredBoolean(Finish(autocommit, RollbackCall, d, s));
  }

  /** A begin or commit answers true exactly when it moved the connection into
      or out of a transaction: begin turns autocommit off, commit turns it back
      on, and any refusal by the backend leaves the state where it was. */
  lemma StepTrueIffSwitched(autocommit: bool, op: TxOp)
    requires !op.RollbackOp?
    ensures Step(autocommit, op).answer == Ok(true) <==> Step(autocommit, op).autocommit != autocommit
    ensures Step(autocommit, op).answer == Ok(true) ==> Step(autocommit, op).autocommit == !op.BeginOp?
  {
    match op
    case BeginOp(_) =>
    case CommitOp(d, s) => assert Step(autocommit, op) == Finish(autocommit, CommitCall, d, s);
  }

  /** rollBack never answers: outside a transaction it throws the state error,
      inside one it throws on return, after the rollback was sent and, when the
      rollback went through, the switch back to autocommit. The flag still
      moves exactly when both backend calls succeeded. */
  lemma RollbackAlwaysThrows(autocommit: bool, done: bool, switched: bool)
    ensures Step(autocommit, RollbackOp(done, switched)).answer.Err?
    ensures Step(autocommit, RollbackOp(done, switched)).answer.error ==
              (if autocommit then NotStarted else BooleanReturnType)
    ensures !autocommit ==>
              && Step(autocommit, RollbackOp(done, switched)).sent ==
                   (if done then [RollbackCall, SetAutocommit(true)] else [RollbackCall])
              && Step(autocommit, RollbackOp(done, switched)).autocommit == (done && switched)
  {
    var f := Finish(autocommit, RollbackCall, done, switched);
    assert Step(autocommit, RollbackOp(done, switched)) == DeclaredBoolean(f);
    if !autocommit {
      assert f.answer.Ok?;
    }
  }

  /** The backend hears about a commit or rollback before any autocommit
      switch, and hears about the switch only if the commit or rollback went
      through. */
  lemma FinishCallsInOrder(autocommit: bool, call: TxCall, done: bool, switched: bool)
    requires !autocommit && !call.SetAutocommit?
    ensures Finish(autocommit, call, done, switched).sent[0] == call
    ensures SetAutocommit(true) in Finish(autocommit, call, done, switched).sent <==> done
  {
    var sent := Finish(autocommit, call, done, switched).sent;
    if !done {
      assert sent == [call];
    }
  }

  // ---------------------------------------------------------------------------
  // quote

  /** The body of a quoted literal: every ' of the input doubled. */
  function Doubled(s: string): string {
    Replace(s, "'", "''")
  }

  /** quote($input) for a string: the input with every ' doubled, between single quotes. */
  function QuoteString(s: string): (r: string)
    ensures |r| >= 2 && r[0] == '\'' && r[|r| - 1] == '\''
  {
    "'" + Doubled(s) + "'"
  }

  /** quote($input): ints and floats come back unchanged, anything else is
      converted to a string and quoted. */
  function Quote(v: Value): (r: Value)
    ensures v.VInt? || v.VFloat? ==> r == v
    ensures !v.VInt? && !v.VFloat? ==> r.VStr? && Unquote(r.s) == Some(StringOf(v))
  {
    if v.VInt? || v.VFloat? then v
    else
      QuoteRoundTrip(StringOf(v));
      VStr(QuoteString(StringOf(v)))
  }

  /** Reads a quoted body back: '' stands for one quote. */
  function Undouble(b: string): string
    decreases |b|
  {
    if b == [] then []
    else if |b| >= 2 && b[0] == '\'' && b[1] == '\'' then "'" + Undouble(b[2..])
    else [b[0]] + Undouble(b[1..])
  }

  /** A literal between single quotes, read back; None when it is not one. */
  function Unquote(r: string): Option<string> {
    if |r| >= 2 && r[0] == '\'' && r[|r| - 1] == '\'' then Some(Undouble(r[1..|r| - 1]))
    else None
  }

  /** A well-formed quoted body: each ' is the first half of a pair. */
  predicate PairedQuotes(b: string)
    decreases |b|
  {
    if b == [] then true
    else if b[0] == '\'' then |b| >= 2 && b[1] == '\'' && PairedQuotes(b[2..])
    else PairedQuotes(b[1..])
  }

  lemma {:induction false} UndoubleDoubled(s: string)
    ensures Undouble(Doubled(s)) == s
    ensures PairedQuotes(Doubled(s))
    decreases |s|
  {
    if s != [] {
      UndoubleDoubled(s[1..]);
      var rest := Doubled(s[1..]);
      if s[..1] == "'" {
        assert Doubled(s) == "''" + rest;
        assert ("''" + rest)[2..] == rest;
      } else {
        assert Doubled(s) == [s[0]] + rest;
        assert ([s[0]] + rest)[1..] == rest;
      }
    }
  }

  lemma {:induction false} DoubledUndouble(b: string)
    requires PairedQuotes(b)
    ensures Doubled(Undouble(b)) == b
    decreases |b|
  {
    if b != [] {
      if b[0] == '\'' {
        DoubledUndouble(b[2..]);
        var u := Undouble(b[2..]);
        assert ("'" + u)[..1] == "'" && ("'" + u)[1..] == u;
        assert b == "''" + b[2..];
      } else {
        DoubledUndouble(b[1..]);
        var u := Undouble(b[1..]);
        assert ([b[0]] + u)[..1] != "'";
        assert ([b[0]] + u)[1..] == u;
        assert b == [b[0]] + b[1..];
      }
    }
  }

  /** Stripping the outer quotes and undoubling gives the input back. */
  lemma QuoteRoundTrip(s: string)
    ensures Unquote(QuoteString(s)) == Some(s)
  {
    UndoubleDoubled(s);
    var r := QuoteString(s);
    assert r[1..|r| - 1] == Doubled(s);
  }

  /** Every literal whose quotes are paired is the quote of exactly one
      string, so quoting is a bijection onto those literals. */
  lemma QuoteOnto(r: string)
    requires Unquote(r).Some? && PairedQuotes(r[1..|r| - 1])
    ensures QuoteString(Unquote(r).value) == r
  {
    DoubledUndouble(r[1..|r| - 1]);
    assert r == "'" + r[1..|r| - 1] + "'";
  }

  // ---------------------------------------------------------------------------
  // the connection

  class VericaConnection {
    const dsn: string
    const user: Value
    const password: Value
    /** the backend's autocommit flag for this link */
    var autocommit: bool
    /** the transaction calls sent to the backend, oldest first */
    var sent: seq<TxCall>

    /** A freshly opened ODBC link is in autocommit mode. */
    constructor (dsn: string, user: Value, password: Value)
      ensures this.dsn == dsn && this.user == user && this.password == password
      ensures autocommit && sent == []
    {
      this.dsn := dsn;
      this.user := user;
      this.password := password;
      autocommit := true;
      sent := [];
    }

    /** new VericaConnection($dsn, $user, $password): throws with the last
        error message when the connect primitive gives no handle. */
    static method Open(dsn: string, user: Value, password: Value, handle: bool, lastError: string)
      returns (r: Result<VericaConnection, ConnError>)
      ensures !handle <==> r.Err?
      ensures !handle ==> r.error == ConnectFailed(lastError)
      ensures handle ==> fresh(r.value) && r.value.dsn == dsn && r.value.autocommit && r.value.sent == []
    {
      if !handle {
        return Err(ConnectFailed(lastError));
      }
      var c := new VericaConnection(dsn, user, password);
      return Ok(c);
    }

    /** inTransaction(): exactly when the backend is not in autocommit mode. */
    predicate InTransaction()
      reads this
    {
      !autocommit
    }

    method BeginTransaction(switched: bool) returns (r: Result<bool, ConnError>)
      modifies this
      ensures var t := Step(old(autocommit), BeginOp(switched));
              r == t.answer && autocommit == t.autocommit && sent == old(sent) + t.sent
      ensures r.Err? <==> old(InTransaction())
      ensures r == Ok(true) ==> InTransaction()
    {
      var check := CheckTransactionStarted(false, InTransaction());
      if check.Fail? {
        return Err(check.error);
      }
      sent := sent + [SetAutocommit(false)];
      if switched {
        autocommit := false;
      }
      return Ok(switched);
    }

    method Commit(committed: bool, switched: bool) returns (r: Result<bool, ConnError>)
      modifies this
      ensures r.Err? <==> !old(InTransaction())
      ensures !committed ==> autocommit == old(autocommit)
      ensures r == Ok(true) ==> !InTransaction()
      ensures var t := Step(old(autocommit), CommitOp(committed, switched));
              r == t.answer && autocommit == t.autocommit && sent == old(sent) + t.sent
    {
      r := EndTransaction(CommitCall, committed, switched);
    }

    /** rollBack(): the rollback and the switch back run, and then the
        declared `boolean` return type turns the answer into an error. */
    method RollBack(rolledBack: bool, switched: bool) returns (r: Result<bool, ConnError>)
      modifies this
      ensures r.Err? && r.error == (if old(InTransaction()) then BooleanReturnType else NotStarted)
      ensures !rolledBack ==> autocommit == old(autocommit)
      ensures old(InTransaction()) && rolledBack && switched ==> !InTransaction()
      ensures var t := Step(old(autocommit), RollbackOp(rolledBack, switched));
              r == t.answer && autocommit == t.autocommit && sent == old(sent) + t.sent
    {
      r := EndTransaction(RollbackCall, rolledBack, switched);
      if r.Ok? {
        r := Err(BooleanReturnType);
      }
    }

    method EndTransaction(call: TxCall, done: bool, switched: bool) returns (r: Result<bool, ConnError>)
      modifies this
      ensures var t := Finish(old(autocommit), call, done, switched);
              r == t.answer && autocommit == t.autocommit && sent == old(sent) + t.sent
    {
      var check := CheckTransactionStarted(true, InTransaction());
      if check.Fail? {
        return Err(check.error);
      }
      sent := sent + [call];
      if !done {
        return Ok(false);
      }
      sent := sent + [SetAutocommit(true)];
      if switched {
        autocommit := true;
      }
      return Ok(switched);
    }

    /** prepare($sql): a new statement over this link. */
    method Prepare(sql: string, positional: seq<nat>, named: seq<Placeholder>)
      returns (r: Result<VerticaStatement, ConnError>)
      ensures r.Err? <==> Rewrite(sql, positional, named).Err?
      ensures r.Ok? ==> fresh(r.value) && r.value.Valid() && r.value.originalQuery == sql
                        && r.value.query == Rewrite(sql, positional, named).value.sql
                        && r.value.paramMap == Rewrite(sql, positional, named).value.paramMap
                        && r.value.params == map[] && r.value.order == [] && !r.value.executed && r.value.calls == []
    {
      var s := VerticaStatement.Create(sql, positional, named);
      if s.Err? {
        return Err(StatementFailed(s.error));
      }
      return Ok(s.value);
    }

    /** query($sql): prepare, execute without parameters, hand back the
        statement. A query with markers always fails the count check, as
        nothing is bound, and the check's message then throws counting the
        argument array that was never given. */
    method Query(sql: string, positional: seq<nat>, named: seq<Placeholder>, answer: BackendAnswer)
      returns (r: Result<VerticaStatement, ConnError>)
      ensures r.Ok? <==> Rewrite(sql, positional, named).Ok?
                         && Rewrite(sql, positional, named).value.paramMap == map[]
                         && answer.prepared && answer.executed
      ensures (Rewrite(sql, positional, named).Ok? && Rewrite(sql, positional, named).value.paramMap != map[]
               && answer.prepared) ==> r == Err(StatementFailed(UncountableParams))
      ensures r.Ok? ==> fresh(r.value) && r.value.Valid() && r.value.executed
                        && r.value.cursor == answer.rows && r.value.numRows == Some(answer.affected)
                        && r.value.calls == [PrepareCall(r.value.query), ExecuteCall([])]
    {
      var p := Prepare(sql, positional, named);
      if p.Err? {
        return Err(p.error);
      }
      var stmt := p.value;
      var o := stmt.Execute(None, answer);
      if o.Fail? {
        return Err(StatementFailed(o.error));
      }
      return Ok(stmt);
    }

    /** exec($sql): prepare, execute, and return the affected row count. */
    method Exec(sql: string, positional: seq<nat>, named: seq<Placeholder>, answer: BackendAnswer)
      returns (r: Result<int, ConnError>)
      ensures r.Ok? <==> Rewrite(sql, positional, named).Ok?
                         && Rewrite(sql, positional, named).value.paramMap == map[]
                         && answer.prepared && answer.executed
      ensures r.Ok? ==> r.value == answer.affected
    {
      var q := Query(sql, positional, named, answer);
      if q.Err? {
        return Err(q.error);
      }
      return Ok(q.value.RowCount().value);
    }
  }
}
