/** PoolingShardManager: running queries and schema updates on every shard
    of a PoolingShardConnection, and choosing shards.

    The schema manager and the comparator behind the connection are not part
    of this model; what they answer is given as functions of the shard id and
    the schema name: `schemasOf` (getSchemaNames), `rowsOf` (the rows fetchAll
    returns), `diffOf` (getUpdateSchemaSql) and `driverOk` (whether the driver
    opens a connection to the shard). */
module ShardManager {
  import opened Common
  import opened ShardConnection

  /** A fetched row, its column values in order. */
  type Row = seq<Value>

  /** A PHP scalar interpolated into a double-quoted string. */
  function Text(v: Value): string {
    match v
    case VInt(i) => IntToString(i)
    case VFloat(f) => IntToString(f.Floor)
    case VNull => StringOf(v)
    case VBool(_) => StringOf(v)
    case VStr(_) => StringOf(v)
  }

  /** The CONNECT TO VERTICA statement that reaches a shard with these settings. */
  function ConnectText(settings: Settings): (sql: string)
    ensures |sql| > 19 && sql[..19] == "CONNECT TO VERTICA " && sql[|sql| - 1] == ';'
  {
    "CONNECT TO VERTICA " + Text(Get(settings, "dbname"))
      + " USER " + Text(Get(settings, "user"))
      + "  PASSWORD '" + Text(Get(settings, "password"))
      + "' ON '" + Text(Get(settings, "host"))
      + "', " + Text(Get(settings, "port")) + ";"
  }

  /** Every registered shard is one the driver can open. */
  ghost predicate Reachable(reg: seq<Entry>, driverOk: int -> bool) {
    forall i :: 0 <= i < |reg| ==> driverOk(reg[i].id)
  }

  // ---------------------------------------------------------------------------
  // queryAll: shard-major, then schema-minor concatenation

  /** The rows of one shard: each schema's rows, in schema order. */
  function Gather(id: int, schemas: seq<string>, rowsOf: (int, string) -> seq<Row>): seq<Row>
    decreases |schemas|
  {
    if schemas == [] then []
    else Gather(id, schemas[..|schemas| - 1], rowsOf) + rowsOf(id, schemas[|schemas| - 1])
  }

  /** The rows of every shard, in shard order. */
  function Fanout(ids: seq<int>, schemasOf: int -> seq<string>, rowsOf: (int, string) -> seq<Row>): seq<Row>
    decreases |ids|
  {
    if ids == [] then []
    else
      var id := ids[|ids| - 1];
      Fanout(ids[..|ids| - 1], schemasOf, rowsOf) + Gather(id, schemasOf(id), rowsOf)
  }

  /** The number of rows the schemas of a shard answer. */
  function SchemaCount(id: int, schemas: seq<string>, rowsOf: (int, string) -> seq<Row>): nat
    decreases |schemas|
  {
    if schemas == [] then 0 else |rowsOf(id, schemas[0])| + SchemaCount(id, schemas[1..], rowsOf)
  }

  /** The number of rows all shards answer. */
  function Total(ids: seq<int>, schemasOf: int -> seq<string>, rowsOf: (int, string) -> seq<Row>): nat
    decreases |ids|
  {
    if ids == [] then 0 else SchemaCount(ids[0], schemasOf(ids[0]), rowsOf) + Total(ids[1..], schemasOf, rowsOf)
  }

  lemma {:induction false} SchemaCountAppend(id: int, a: seq<string>, b: seq<string>, rowsOf: (int, string) -> seq<Row>)
    ensures SchemaCount(id, a + b, rowsOf) == SchemaCount(id, a, rowsOf) + SchemaCount(id, b, rowsOf)
    decreases |a|
  {
    if a == [] {
      assert a + b == b;
    } else {
      assert (a + b)[0] == a[0];
      assert (a + b)[1..] == a[1..] + b;
      SchemaCountAppend(id, a[1..], b, rowsOf);
    }
  }

  lemma {:induction false} TotalAppend(a: seq<int>, b: seq<int>, schemasOf: int -> seq<string>, rowsOf: (int, string) -> seq<Row>)
    ensures Total(a + b, schemasOf, rowsOf) == Total(a, schemasOf, rowsOf) + Total(b, schemasOf, rowsOf)
    decreases |a|
  {
    if a == [] {
      assert a + b == b;
    } else {
      assert (a + b)[0] == a[0];
      assert (a + b)[1..] == a[1..] + b;
      TotalAppend(a[1..], b, schemasOf, rowsOf);
    }
  }

  /** A shard contributes as many rows as its schemas answer. */
  lemma {:induction false} GatherCount(id: int, schemas: seq<string>, rowsOf: (int, string) -> seq<Row>)
    ensures |Gather(id, schemas, rowsOf)| == SchemaCount(id, schemas, rowsOf)
    decreases |schemas|
  {
    if schemas != [] {
      var front, last := schemas[..|schemas| - 1], schemas[|schemas| - 1];
      GatherCount(id, front, rowsOf);
      assert schemas == front + [last];
      SchemaCountAppend(id, front, [last], rowsOf);
      assert SchemaCount(id, [last], rowsOf) == |rowsOf(id, last)| by {
        assert [last][1..] == [];
      }
    }
  }

  /** queryAll answers exactly as many rows as all the fetches together. */
  lemma {:induction false} FanoutCount(ids: seq<int>, schemasOf: int -> seq<string>, rowsOf: (int, string) -> seq<Row>)
    ensures |Fanout(ids, schemasOf, rowsOf)| == Total(ids, schemasOf, rowsOf)
    decreases |ids|
  {
    if ids != [] {
      var front, last := ids[..|ids| - 1], ids[|ids| - 1];
      FanoutCount(front, schemasOf, rowsOf);
      GatherCount(last, schemasOf(last), rowsOf);
      assert ids == front + [last];
      TotalAppend(front, [last], schemasOf, rowsOf);
      assert Total([last], schemasOf, rowsOf) == SchemaCount(last, schemasOf(last), rowsOf) by {
        assert [last][1..] == [];
      }
    }
  }

  /** Shard-major order: the rows of a group of shards all come before the
      rows of the shards after them. */
  lemma {:induction false} FanoutAppend(a: seq<int>, b: seq<int>, schemasOf: int -> seq<string>, rowsOf: (int, string) -> seq<Row>)
    ensures Fanout(a + b, schemasOf, rowsOf) == Fanout(a, schemasOf, rowsOf) + Fanout(b, schemasOf, rowsOf)
    decreases |b|
  {
    if b == [] {
      assert a + b == a;
    } else {
      var front, last := b[..|b| - 1], b[|b| - 1];
      assert (a + b)[..|a + b| - 1] == a + front;
      assert (a + b)[|a + b| - 1] == last;
      FanoutAppend(a, front, schemasOf, rowsOf);
      var g := Gather(last, schemasOf(last), rowsOf);
      assert Fanout(a + b, schemasOf, rowsOf) == Fanout(a + front, schemasOf, rowsOf) + g;
      assert Fanout(b, schemasOf, rowsOf) == Fanout(front, schemasOf, rowsOf) + g;
    }
  }

  // ---------------------------------------------------------------------------
  // Statements sent by executeAll and the schema updates

  /** The same statement once on each shard, in shard order, on one schema. */
  function Broadcast(ids: seq<int>, paths: map<int, string>, sql: string): seq<Sent>
    decreases |ids|
  {
    if ids == [] then []
    else
      var last := ids[|ids| - 1];
      Broadcast(ids[..|ids| - 1], paths, sql) + [Sent(Some(last), PathOf(paths, Some(last)), sql)]
  }

  /** executeAll sends the statement exactly once per shard, in shard order,
      each under the search path of that shard's own session. */
  lemma {:induction false} BroadcastOncePerShard(ids: seq<int>, paths: map<int, string>, sql: string)
    ensures |Broadcast(ids, paths, sql)| == |ids|
    ensures forall i :: 0 <= i < |ids| ==>
              Broadcast(ids, paths, sql)[i] == Sent(Some(ids[i]), PathOf(paths, Some(ids[i])), sql)
    decreases |ids|
  {
    if ids != [] {
      var front := ids[..|ids| - 1];
      BroadcastOncePerShard(front, paths, sql);
      assert forall i :: 0 <= i < |front| ==> front[i] == ids[i];
    }
  }

  /** Dropping the session of a shard not in the list does not change what
      the list's shards were sent. */
  lemma {:induction false} BroadcastOtherShard(ids: seq<int>, paths: map<int, string>, id: int, sql: string)
    requires id !in ids
    ensures Broadcast(ids, paths - {id}, sql) == Broadcast(ids, paths, sql)
    decreases |ids|
  {
    if ids != [] {
      BroadcastOtherShard(ids[..|ids| - 1], paths, id, sql);
    }
  }

  /** A list of statements sent in order on one shard and schema. */
  function Runs(shard: Option<int>, schema: Option<string>, sqls: seq<string>): seq<Sent>
    decreases |sqls|
  {
    if sqls == [] then []
    else Runs(shard, schema, sqls[..|sqls| - 1]) + [Sent(shard, schema, sqls[|sqls| - 1])]
  }

  /** Every statement of the list is sent, once, in order, on that shard and schema. */
  lemma {:induction false} RunsSendEach(shard: Option<int>, schema: Option<string>, sqls: seq<string>)
    ensures |Runs(shard, schema, sqls)| == |sqls|
    ensures forall i :: 0 <= i < |sqls| ==> Runs(shard, schema, sqls)[i] == Sent(shard, schema, sqls[i])
    decreases |sqls|
  {
    if sqls != [] {
      var front := sqls[..|sqls| - 1];
      RunsSendEach(shard, schema, front);
      assert forall i :: 0 <= i < |front| ==> front[i] == sqls[i];
    }
  }

  /** The statements PHP does not read as false ("" and "0" are skipped),
      in order. */
  function NonEmpty(sqls: seq<string>): seq<string>
    decreases |sqls|
  {
    if sqls == [] then []
    else
      var last := sqls[|sqls| - 1];
      NonEmpty(sqls[..|sqls| - 1]) + (if EmptyString(last) then [] else [last])
  }

  /** Exactly the statements PHP reads as true are kept. */
  lemma {:induction false} NonEmptyKeeps(sqls: seq<string>)
    ensures forall i :: 0 <= i < |NonEmpty(sqls)| ==> !EmptyString(NonEmpty(sqls)[i]) && NonEmpty(sqls)[i] in sqls
    ensures forall i :: 0 <= i < |sqls| && !EmptyString(sqls[i]) ==> sqls[i] in NonEmpty(sqls)
    decreases |sqls|
  {
    if sqls != [] {
      var front, last := sqls[..|sqls| - 1], sqls[|sqls| - 1];
      NonEmptyKeeps(front);
      assert sqls == front + [last];
    }
  }

  /** Skipping changes nothing on a list without empty statements. */
  lemma {:induction false} NonEmptyKeepsAll(sqls: seq<string>)
    requires forall i :: 0 <= i < |sqls| ==> !EmptyString(sqls[i])
    ensures NonEmpty(sqls) == sqls
    decreases |sqls|
  {
    if sqls != [] {
      var front := sqls[..|sqls| - 1];
      NonEmptyKeepsAll(front);
      assert sqls == front + [sqls[|sqls| - 1]];
    }
  }

  /** The update statements updateSchema sends on one shard, schema by schema. */
  function ShardRuns(id: int, schemas: seq<string>, diffOf: (int, string) -> seq<string>): seq<Sent>
    decreases |schemas|
  {
    if schemas == [] then []
    else
      var last := schemas[|schemas| - 1];
      ShardRuns(id, schemas[..|schemas| - 1], diffOf) + Runs(Some(id), Some(last), NonEmpty(diffOf(id, last)))
  }

  /** The update statements updateSchema sends on all shards, shard by shard. */
  function SchemaRuns(ids: seq<int>, schemasOf: int -> seq<string>, diffOf: (int, string) -> seq<string>): seq<Sent>
    decreases |ids|
  {
    if ids == [] then []
    else
      var last := ids[|ids| - 1];
      SchemaRuns(ids[..|ids| - 1], schemasOf, diffOf) + ShardRuns(last, schemasOf(last), diffOf)
  }

  /** A statement sent on a schema of a shard that is part of the diff of
      that shard and schema, and that PHP does not read as false. */
  ghost predicate FromDiff(e: Sent, diffOf: (int, string) -> seq<string>) {
    && e.shard.Some? && e.schema.Some?
    && e.sql in diffOf(e.shard.value, e.schema.value) && !EmptyString(e.sql)
  }

  /** On one shard, updateSchema only sends statements of that shard's
      schemas' diffs. */
  lemma {:induction false} ShardRunsFromDiff(id: int, schemas: seq<string>, diffOf: (int, string) -> seq<string>)
    ensures forall i :: 0 <= i < |ShardRuns(id, schemas, diffOf)| ==>
              var e: Sent := ShardRuns(id, schemas, diffOf)[i];
              e.shard == Some(id) && e.schema.Some? && e.schema.value in schemas && FromDiff(e, diffOf)
    decreases |schemas|
  {
    if schemas != [] {
      var front, last := schemas[..|schemas| - 1], schemas[|schemas| - 1];
      ShardRunsFromDiff(id, front, diffOf);
      var kept := NonEmpty(diffOf(id, last));
      NonEmptyKeeps(diffOf(id, last));
      RunsSendEach(Some(id), Some(last), kept);
      var a: seq<Sent>, b: seq<Sent> := ShardRuns(id, front, diffOf), Runs(Some(id), Some(last), kept);
      assert ShardRuns(id, schemas, diffOf) == a + b;
      forall i | 0 <= i < |a + b|
        ensures (a + b)[i].shard == Some(id) && (a + b)[i].schema.Some?
        ensures (a + b)[i].schema.value in schemas && FromDiff((a + b)[i], diffOf)
      {
        if i < |a| {
          assert (a + b)[i] == a[i];
          assert a[i].schema.value in front;
        } else {
          assert (a + b)[i] == b[i - |a|];
          assert b[i - |a|] == Sent(Some(id), Some(last), kept[i - |a|]);
        }
      }
    }
  }

  /** updateSchema only sends statements of the diff of a registered shard
      and one of its schemas, and never one PHP reads as false. */
  lemma {:induction false} SchemaRunsFromDiff(ids: seq<int>, schemasOf: int -> seq<string>, diffOf: (int, string) -> seq<string>)
    ensures forall i :: 0 <= i < |SchemaRuns(ids, schemasOf, diffOf)| ==>
              var e: Sent := SchemaRuns(ids, schemasOf, diffOf)[i];
              e.shard.Some? && e.shard.value in ids && e.schema.Some? && e.schema.value in schemasOf(e.shard.value)
              && FromDiff(e, diffOf)
    decreases |ids|
  {
    if ids != [] {
      var front, last := ids[..|ids| - 1], ids[|ids| - 1];
      SchemaRunsFromDiff(front, schemasOf, diffOf);
      ShardRunsFromDiff(last, schemasOf(last), diffOf);
      var a: seq<Sent>, b: seq<Sent> := SchemaRuns(front, schemasOf, diffOf), ShardRuns(last, schemasOf(last), diffOf);
      assert SchemaRuns(ids, schemasOf, diffOf) == a + b;
      forall i | 0 <= i < |a + b|
        ensures (a + b)[i].shard.Some? && (a + b)[i].shard.value in ids && (a + b)[i].schema.Some?
        ensures (a + b)[i].schema.value in schemasOf((a + b)[i].shard.value) && FromDiff((a + b)[i], diffOf)
      {
        if i < |a| {
          assert (a + b)[i] == a[i];
          assert a[i].shard.value in front;
        } else {
          assert (a + b)[i] == b[i - |a|];
        }
      }
    }
  }

  /** $updateSchemaSql after one shard: each schema name mapped to its diff. */
  function CollectShard(m: map<string, seq<string>>, id: int, schemas: seq<string>, diffOf: (int, string) -> seq<string>)
    : map<string, seq<string>>
    decreases |schemas|
  {
    if schemas == [] then m
    else
      var last := schemas[|schemas| - 1];
      CollectShard(m, id, schemas[..|schemas| - 1], diffOf)[last := diffOf(id, last)]
  }

  /** $updateSchemaSql after all shards. */
  function Collect(ids: seq<int>, schemasOf: int -> seq<string>, diffOf: (int, string) -> seq<string>)
    : map<string, seq<string>>
    decreases |ids|
  {
    if ids == [] then map[]
    else
      var last := ids[|ids| - 1];
      CollectShard(Collect(ids[..|ids| - 1], schemasOf, diffOf), last, schemasOf(last), diffOf)
  }

  /** One shard's pass writes its diff under each of its schema names and
      leaves every other name as it was. */
  lemma {:induction false} CollectShardAt(m: map<string, seq<string>>, id: int, schemas: seq<string>,
                                          diffOf: (int, string) -> seq<string>, name: string)
    ensures name in schemas ==> name in CollectShard(m, id, schemas, diffOf)
                                && CollectShard(m, id, schemas, diffOf)[name] == diffOf(id, name)
    ensures name !in schemas ==> (name in CollectShard(m, id, schemas, diffOf) <==> name in m)
    ensures name !in schemas && name in m ==> CollectShard(m, id, schemas, diffOf)[name] == m[name]
    decreases |schemas|
  {
    if schemas != [] {
      var front := schemas[..|schemas| - 1];
      assert schemas == front + [schemas[|schemas| - 1]];
      CollectShardAt(m, id, front, diffOf, name);
    }
  }

  /** The result is keyed by schema name: a name is a key iff some shard has
      that schema. */
  lemma {:induction false} CollectKeys(ids: seq<int>, schemasOf: int -> seq<string>,
                                       diffOf: (int, string) -> seq<string>, name: string)
    ensures name in Collect(ids, schemasOf, diffOf) <==> exists i :: 0 <= i < |ids| && name in schemasOf(ids[i])
    decreases |ids|
  {
    if ids != [] {
      var front, last := ids[..|ids| - 1], ids[|ids| - 1];
      CollectKeys(front, schemasOf, diffOf, name);
      CollectShardAt(Collect(front, schemasOf, diffOf), last, schemasOf(last), diffOf, name);
      if name in Collect(ids, schemasOf, diffOf) {
        if name !in schemasOf(last) {
          var i :| 0 <= i < |front| && name in schemasOf(front[i]);
          assert ids[i] == front[i];
        }
      }
      if exists i :: 0 <= i < |ids| && name in schemasOf(ids[i]) {
        var i :| 0 <= i < |ids| && name in schemasOf(ids[i]);
        if i < |front| {
          assert front[i] == ids[i];
        }
      }
    }
  }

  /** A schema name that several shards share keeps the diff of the last
      shard that has it. */
  lemma {:induction false} LaterShardWins(ids: seq<int>, schemasOf: int -> seq<string>,
                                          diffOf: (int, string) -> seq<string>, name: string, i: nat)
    requires i < |ids| && name in schemasOf(ids[i])
    requires forall j :: i < j < |ids| ==> name !in schemasOf(ids[j])
    ensures name in Collect(ids, schemasOf, diffOf)
    ensures Collect(ids, schemasOf, diffOf)[name] == diffOf(ids[i], name)
    decreases |ids|
  {
    var front, last := ids[..|ids| - 1], ids[|ids| - 1];
    CollectShardAt(Collect(front, schemasOf, diffOf), last, schemasOf(last), diffOf, name);
    if i < |ids| - 1 {
      assert front[i] == ids[i];
      forall j | i < j < |front| ensures name !in schemasOf(front[j]) {
        assert front[j] == ids[j];
      }
      LaterShardWins(front, schemasOf, diffOf, name, i);
    }
  }

  // ---------------------------------------------------------------------------
  // One more loop iteration of the manager's methods

  lemma FanoutStep(ids: seq<int>, i: nat, schemasOf: int -> seq<string>, rowsOf: (int, string) -> seq<Row>)
    requires i < |ids|
    ensures Fanout(ids[..i + 1], schemasOf, rowsOf) == Fanout(ids[..i], schemasOf, rowsOf) + Gather(ids[i], schemasOf(ids[i]), rowsOf)
  {
    assert ids[..i + 1][..i] == ids[..i];
  }

  lemma GatherStep(id: int, schemas: seq<string>, j: nat, rowsOf: (int, string) -> seq<Row>)
    requires j < |schemas|
    ensures Gather(id, schemas[..j + 1], rowsOf) == Gather(id, schemas[..j], rowsOf) + rowsOf(id, schemas[j])
  {
    assert schemas[..j + 1][..j] == schemas[..j];
  }

  lemma NonEmptyStep(sqls: seq<string>, k: nat)
    requires k < |sqls|
    ensures NonEmpty(sqls[..k + 1]) == NonEmpty(sqls[..k]) + (if EmptyString(sqls[k]) then [] else [sqls[k]])
  {
    assert sqls[..k + 1][..k] == sqls[..k];
  }

  lemma RunsStep(shard: Option<int>, schema: Option<string>, sqls: seq<string>, sql: string)
    ensures Runs(shard, schema, sqls + [sql]) == Runs(shard, schema, sqls) + [Sent(shard, schema, sql)]
  {
    assert (sqls + [sql])[..|sqls|] == sqls;
  }

  lemma ShardStep(id: int, schemas: seq<string>, j: nat, m: map<string, seq<string>>, diffOf: (int, string) -> seq<string>)
    requires j < |schemas|
    ensures CollectShard(m, id, schemas[..j + 1], diffOf) == CollectShard(m, id, schemas[..j], diffOf)[schemas[j] := diffOf(id, schemas[j])]
    ensures ShardRuns(id, schemas[..j + 1], diffOf) == ShardRuns(id, schemas[..j], diffOf) + Runs(Some(id), Some(schemas[j]), NonEmpty(diffOf(id, schemas[j])))
  {
    assert schemas[..j + 1][..j] == schemas[..j];
  }

  lemma UpdateStep(ids: seq<int>, i: nat, schemasOf: int -> seq<string>, diffOf: (int, string) -> seq<string>)
    requires i < |ids|
    ensures Collect(ids[..i + 1], schemasOf, diffOf) == CollectShard(Collect(ids[..i], schemasOf, diffOf), ids[i], schemasOf(ids[i]), diffOf)
    ensures SchemaRuns(ids[..i + 1], schemasOf, diffOf) == SchemaRuns(ids[..i], schemasOf, diffOf) + ShardRuns(ids[i], schemasOf(ids[i]), diffOf)
  {
    assert ids[..i + 1][..i] == ids[..i];
  }

  // ---------------------------------------------------------------------------
  // Where each turn of a fan-out lands

  /** The shard a turn's statements reach after connect(id): the shard it
      switches to or, when id is already the active shard id, whichever
      shard's handle is live (none after close()). */
  function Landing(id: int, active: Option<int>, live: Option<int>): Option<int> {
    if active == Some(id) then live else Some(id)
  }

  /** The shards the turns of a fan-out over `ids` reach when the first one
      reaches `first`: every later turn switches away from the shard the turn
      before it selected, so it reaches the shard it selects. */
  function Lands(ids: seq<int>, first: int): (ls: seq<int>)
    requires ids != []
    ensures |ls| == |ids| && ls[0] == first
    ensures forall k :: 0 < k < |ids| ==> ls[k] == ids[k]
  {
    [first] + ids[1..]
  }

  /** While the live handle belongs to the active shard, or the first shard
      is not the active one, the first turn reaches the shard it selects and
      executeAll sends the statement once to every shard, in order. */
  lemma AlignedBroadcast(ids: seq<int>, active: Option<int>, live: Option<int>, paths: map<int, string>, sql: string)
    requires ids != [] && (active != Some(ids[0]) || live == active)
    ensures Landing(ids[0], active, live) == Some(ids[0]) && Lands(ids, ids[0]) == ids
    ensures |Broadcast(Lands(ids, ids[0]), paths, sql)| == |ids|
    ensures forall i :: 0 <= i < |ids| ==>
              Broadcast(Lands(ids, ids[0]), paths, sql)[i] == Sent(Some(ids[i]), PathOf(paths, Some(ids[i])), sql)
  {
    assert Lands(ids, ids[0]) == ids;
    BroadcastOncePerShard(ids, paths, sql);
  }

  /** The failed switch of the connection, followed by executeAll: with shards
      1 and 2 registered, connect(2) succeeds and connect(1) fails in the
      driver. Shard 1 is then the active id while shard 2's handle is live, so
      executeAll's first turn takes connect(1) for a no-op and the statement
      goes to shard 2 twice and never to shard 1. */
  lemma StaleSwitchSendsTwice(paths: map<int, string>, sql: string)
    ensures var reg := [Entry(1, map[]), Entry(2, map[])];
            var (r1, s1) := ConnectSpec(reg, 0, Router(None, None, map[], []), Some(2), true);
            var (r2, s2) := ConnectSpec(reg, 0, s1, Some(1), false);
            && r1 == Ok(true) && r2 == Err(DriverFailed(1))
            && s2.active == Some(1) && s2.live == Some(Handle(2, 0))
            && Landing(Ids(reg)[0], s2.active, Some(s2.live.value.shard)) == Some(2)
            && Broadcast(Lands(Ids(reg), 2), paths, sql)
               == [Sent(Some(2), PathOf(paths, Some(2)), sql), Sent(Some(2), PathOf(paths, Some(2)), sql)]
  {
    var reg := [Entry(1, map[]), Entry(2, map[])];
    assert Ids(reg) == [1, 2];
    assert Lands([1, 2], 2) == [2, 2];
    assert [2, 2][..1] == [2];
    assert [2][..0] == [];
  }

  // ---------------------------------------------------------------------------
  // The queries queryAll sends

  /** The query sent on one shard, once per schema, under that schema. */
  function Fetches(id: int, schemas: seq<string>, sql: string): seq<Sent>
    decreases |schemas|
  {
    if schemas == [] then []
    else Fetches(id, schemas[..|schemas| - 1], sql) + [Sent(Some(id), Some(schemas[|schemas| - 1]), sql)]
  }

  /** The query sent on every shard, shard by shard. */
  function AllFetches(ids: seq<int>, schemasOf: int -> seq<string>, sql: string): seq<Sent>
    decreases |ids|
  {
    if ids == [] then []
    else
      var last := ids[|ids| - 1];
      AllFetches(ids[..|ids| - 1], schemasOf, sql) + Fetches(last, schemasOf(last), sql)
  }

  /** On one shard, queryAll sends its query once under each schema, in schema order. */
  lemma {:induction false} FetchesEachSchema(id: int, schemas: seq<string>, sql: string)
    ensures |Fetches(id, schemas, sql)| == |schemas|
    ensures forall j :: 0 <= j < |schemas| ==> Fetches(id, schemas, sql)[j] == Sent(Some(id), Some(schemas[j]), sql)
    decreases |schemas|
  {
    if schemas != [] {
      var front := schemas[..|schemas| - 1];
      FetchesEachSchema(id, front, sql);
      assert forall j :: 0 <= j < |front| ==> front[j] == schemas[j];
    }
  }

  /** queryAll sends only its own query, each time on a shard of the list
      and under one of that shard's schemas. */
  lemma {:induction false} AllFetchesOnSchemas(ids: seq<int>, schemasOf: int -> seq<string>, sql: string)
    ensures forall i :: 0 <= i < |AllFetches(ids, schemasOf, sql)| ==>
              var e: Sent := AllFetches(ids, schemasOf, sql)[i];
              e.sql == sql && e.shard.Some? && e.shard.value in ids
              && e.schema.Some? && e.schema.value in schemasOf(e.shard.value)
    decreases |ids|
  {
    if ids != [] {
      var front, last := ids[..|ids| - 1], ids[|ids| - 1];
      AllFetchesOnSchemas(front, schemasOf, sql);
      FetchesEachSchema(last, schemasOf(last), sql);
      var a: seq<Sent>, b: seq<Sent> := AllFetches(front, schemasOf, sql), Fetches(last, schemasOf(last), sql);
      assert AllFetches(ids, schemasOf, sql) == a + b;
      forall i | 0 <= i < |a + b|
        ensures (a + b)[i].sql == sql && (a + b)[i].shard.Some? && (a + b)[i].shard.value in ids
        ensures (a + b)[i].schema.Some? && (a + b)[i].schema.value in schemasOf((a + b)[i].shard.value)
      {
        if i < |a| {
          assert (a + b)[i] == a[i];
          assert a[i].shard.value in front;
        } else {
          assert (a + b)[i] == b[i - |a|];
        }
      }
    }
  }

  /** One more send of a fan-out, under the paths after its turn: a turn
      that drops a session's path drops that of a shard no earlier turn
      reached. */
  lemma BroadcastTurn(lands: seq<int>, i: nat, before: map<int, string>, after: map<int, string>, id: int, sql: string)
    requires i < |lands|
    requires after == before || (id !in lands[..i] && after == before - {id})
    ensures Broadcast(lands[..i], before, sql) + [Sent(Some(lands[i]), PathOf(after, Some(lands[i])), sql)]
            == Broadcast(lands[..i + 1], after, sql)
  {
    if after != before {
      BroadcastOtherShard(lands[..i], before, id, sql);
    }
    assert lands[..i + 1][..i] == lands[..i];
  }

  lemma FetchesStep(id: int, schemas: seq<string>, j: nat, sql: string)
    requires j < |schemas|
    ensures Fetches(id, schemas[..j + 1], sql) == Fetches(id, schemas[..j], sql) + [Sent(Some(id), Some(schemas[j]), sql)]
  {
    assert schemas[..j + 1][..j] == schemas[..j];
  }

  lemma AllFetchesStep(ids: seq<int>, i: nat, schemasOf: int -> seq<string>, sql: string)
    requires i < |ids|
    ensures AllFetches(ids[..i + 1], schemasOf, sql) == AllFetches(ids[..i], schemasOf, sql) + Fetches(ids[i], schemasOf(ids[i]), sql)
  {
    assert ids[..i + 1][..i] == ids[..i];
  }

  // ---------------------------------------------------------------------------
  // getAllocateShardId

  /** The shard the random pick lands on. */
  function Allocated(ids: seq<int>, pick: nat): (id: int)
    requires ids != []
    ensures id in ids
  {
    ids[pick % |ids|]
  }

  /** Every registered shard can be allocated. */
  lemma EveryShardAllocatable(ids: seq<int>, id: int)
    requires id in ids
    ensures exists pick: nat :: Allocated(ids, pick) == id
  {
    var i :| 0 <= i < |ids| && ids[i] == id;
    assert i % |ids| == i;
    assert Allocated(ids, i) == id;
  }

  /** An entity that knows its shard: EntityShardInterface::getVerticaShardId(). */
  datatype ShardedEntity = ShardedEntity(verticaShardId: int)

  class PoolingShardManager {
    const conn: PoolingShardConnection

    constructor (conn: PoolingShardConnection)
      ensures this.conn == conn
    {
      this.conn := conn;
    }

    /** getShards(): the id of each configured shard, in configuration order. */
    method GetShards() returns (ids: seq<int>)
      ensures ids == Ids(conn.registry)
    {
      ids := [];
      var i := 0;
      while i < |conn.registry|
        invariant 0 <= i <= |conn.registry|
        invariant ids == Ids(conn.registry)[..i]
      {
        ids := ids + [conn.registry[i].id];
        i := i + 1;
      }
    }

    /** getConnectionShardQuery($shardId) */
    function GetConnectionShardQuery(id: int): (r: Result<string, ShardError>)
      reads conn
      ensures r.Err? <==> id !in Ids(conn.registry)
      ensures r.Err? ==> r.error == UnknownShard(id)
      ensures forall i :: 0 <= i < |conn.registry| && DistinctIds(conn.registry) && conn.registry[i].id == id ==>
                r == Ok(ConnectText(conn.registry[i].settings))
    {
      FindEachDistinct(conn.registry);
      match Find(conn.registry, id)
      case None => Err(UnknownShard(id))
      case Some(settings) => Ok(ConnectText(settings))
    }

    /** getDatabaseNameForShardId($shardId): the dbname setting, null when unset. */
    function GetDatabaseNameForShardId(id: int): (r: Result<Value, ShardError>)
      reads conn
      ensures r.Err? <==> id !in Ids(conn.registry)
      ensures r.Err? ==> r.error == UnknownShard(id)
      ensures forall i :: 0 <= i < |conn.registry| && DistinctIds(conn.registry) && conn.registry[i].id == id ==>
                r == Ok(Get(conn.registry[i].settings, "dbname"))
    {
      FindEachDistinct(conn.registry);
      match Find(conn.registry, id)
      case None => Err(UnknownShard(id))
      case Some(settings) => Ok(Get(settings, "dbname"))
    }

    /** selectShardById($id) */
    method SelectShardById(id: int, driverOk: bool) returns (r: Result<bool, ShardError>)
      requires conn.Valid()
      modifies conn`activeShardId, conn`live, conn`activeConnections, conn`opens, conn`searchPaths
      ensures conn.Valid()
      ensures (r, conn.State()) == ConnectSpec(conn.registry, conn.nesting, old(conn.State()), Some(id), driverOk)
      ensures r.Ok? ==> conn.activeShardId == Some(id)
      ensures conn.searchPaths == if r == Ok(true) then old(conn.searchPaths) - {id} else old(conn.searchPaths)
      ensures r == Ok(true) ==> id !in old(conn.activeConnections)
      ensures old(conn.activeConnections).Keys <= conn.activeConnections.Keys
      ensures r.Ok? ==> conn.LiveShard() == Landing(id, old(conn.activeShardId), old(conn.LiveShard()))
      ensures conn.nesting == 0 && id in Ids(conn.registry) && driverOk ==> r.Ok?
    {
      ConnectActivates(conn.registry, conn.nesting, conn.State(), id, driverOk);
      ConnectKeepsCache(conn.registry, conn.nesting, conn.State(), Some(id), driverOk);
      r := conn.Connect(Some(id), driverOk);
    }

    /** selectShardByEntity($entity): the shard the entity names. */
    method SelectShardByEntity(entity: ShardedEntity, driverOk: bool) returns (r: Result<bool, ShardError>)
      requires conn.Valid()
      modifies conn`activeShardId, conn`live, conn`activeConnections, conn`opens, conn`searchPaths
      ensures conn.Valid()
      ensures (r, conn.State()) == ConnectSpec(conn.registry, conn.nesting, old(conn.State()), Some(entity.verticaShardId), driverOk)
      ensures conn.searchPaths ==
                if r == Ok(true) then old(conn.searchPaths) - {entity.verticaShardId} else old(conn.searchPaths)
    {
      r := conn.Connect(Some(entity.verticaShardId), driverOk);
    }

    /** setSchema($schemaName): a query on the live connection; on success
        that session's search path is the schema and every other session
        keeps its own. */
    method SetSchema(schemaName: string) returns (r: Result<bool, ShardError>)
      requires conn.Valid()
      modifies conn`activeShardId, conn`live, conn`activeConnections, conn`opens, conn`searchPaths
      ensures conn.Valid()
      ensures r.Ok? <==> old(conn.live).Some?
      ensures r.Ok? ==> conn.State() == old(conn.State())
                        && conn.searchPaths == old(conn.searchPaths)[conn.live.value.shard := schemaName]
                        && conn.SearchPath() == Some(schemaName)
      ensures r.Err? ==> conn.live == None && conn.searchPaths == old(conn.searchPaths)
    {
      r := conn.SetSearchPath(schemaName);
    }

    /** queryAll($sql): on every shard, on every schema of the shard, fetch
        the rows of the query and append them. */
    method QueryAll(sql: string, schemasOf: int -> seq<string>, rowsOf: (int, string) -> seq<Row>, driverOk: int -> bool)
      returns (r: Result<seq<Row>, ShardError>)
      requires conn.Valid()
      modifies conn
      ensures conn.Valid() && conn.nesting == old(conn.nesting)
      ensures conn.registry == [] ==> r == Err(NoShards) && conn.State() == old(conn.State()) && conn.sent == old(conn.sent)
      ensures r.Ok? ==> && conn.registry != []
                        && var first := Landing(Ids(conn.registry)[0], old(conn.activeShardId), old(conn.LiveShard()));
                        && first.Some?
                        && r.value == Fanout(Lands(Ids(conn.registry), first.value), schemasOf, rowsOf)
                        && conn.sent == old(conn.sent) + AllFetches(Lands(Ids(conn.registry), first.value), schemasOf, sql)
      ensures (conn.registry != [] && old(conn.nesting) == 0 && Reachable(conn.registry, driverOk)
               && Landing(Ids(conn.registry)[0], old(conn.activeShardId), old(conn.LiveShard())).Some?) ==> r.Ok?
    {
      var ids := GetShards();
      if ids == [] {
        return Err(NoShards);
      }
      ghost var first := Landing(ids[0], conn.activeShardId, conn.LiveShard());
      ghost var lands := Lands(ids, if first.Some? then first.value else ids[0]);
      var result: seq<Row> := [];
      var i := 0;
      while i < |ids|
        invariant 0 <= i <= |ids|
        invariant conn.Valid() && conn.nesting == old(conn.nesting)
        invariant i == 0 ==> conn.activeShardId == old(conn.activeShardId) && conn.live == old(conn.live)
        invariant i > 0 ==> first.Some? && conn.activeShardId == Some(ids[i - 1])
        invariant result == Fanout(lands[..i], schemasOf, rowsOf)
        invariant conn.sent == old(conn.sent) + AllFetches(lands[..i], schemasOf, sql)
        modifies conn`activeShardId, conn`live, conn`activeConnections, conn`opens, conn`searchPaths, conn`sent
      {
        if i > 0 {
          assert conn.registry[i - 1].id != conn.registry[i].id;
        }
        var fetched := FetchOn(lands, i, ids[i], sql, schemasOf, rowsOf, driverOk(ids[i]), result, old(conn.sent));
        if fetched.Err? {
          return Err(fetched.error);
        }
        result := fetched.value;
        i := i + 1;
      }
      assert lands[..i] == lands;
      return Ok(result);
    }

    /** One turn of queryAll: select the shard, list the schemas of the
        connection that is live then, and gather its rows per schema. */
    method FetchOn(ghost lands: seq<int>, i: nat, id: int, sql: string, schemasOf: int -> seq<string>,
                   rowsOf: (int, string) -> seq<Row>, driverOk: bool, result: seq<Row>, ghost base: seq<Sent>)
      returns (r: Result<seq<Row>, ShardError>)
      requires conn.Valid() && i < |lands|
      requires Landing(id, conn.activeShardId, conn.LiveShard()) in {None, Some(lands[i])}
      requires result == Fanout(lands[..i], schemasOf, rowsOf)
      requires conn.sent == base + AllFetches(lands[..i], schemasOf, sql)
      modifies conn`activeShardId, conn`live, conn`activeConnections, conn`opens, conn`searchPaths, conn`sent
      ensures conn.Valid()
      ensures r.Ok? ==> && Landing(id, old(conn.activeShardId), old(conn.LiveShard())) == Some(lands[i])
                        && conn.activeShardId == Some(id)
                        && r.value == Fanout(lands[..i + 1], schemasOf, rowsOf)
                        && conn.sent == base + AllFetches(lands[..i + 1], schemasOf, sql)
      ensures (conn.nesting == 0 && id in Ids(conn.registry) && driverOk
               && Landing(id, old(conn.activeShardId), old(conn.LiveShard())).Some?) ==> r.Ok?
    {
      var switched := SelectShardById(id, driverOk);
      if switched.Err? {
        return Err(switched.error);
      }
      // getSchemaNames() queries the connection, which connects first
      var listed := conn.ConnectForQuery();
      if listed.Err? {
        return Err(listed.error);
      }
      var shard := conn.live.value.shard;
      var rows := FetchActive(sql, schemasOf(shard), rowsOf, result);
      FanoutStep(lands, i, schemasOf, rowsOf);
      AllFetchesStep(lands, i, schemasOf, sql);
      ConcatAssoc(base, AllFetches(lands[..i], schemasOf, sql), Fetches(shard, schemasOf(shard), sql));
      return Ok(rows);
    }

    /** The inner loops of queryAll on the live connection: for each schema,
        set the search path, run the query and append the rows it fetches. */
    method FetchActive(sql: string, schemas: seq<string>, rowsOf: (int, string) -> seq<Row>, result: seq<Row>)
      returns (r: seq<Row>)
      requires conn.Valid() && conn.live.Some?
      modifies conn`activeShardId, conn`live, conn`activeConnections, conn`opens, conn`searchPaths, conn`sent
      ensures conn.Valid() && conn.State() == old(conn.State())
      ensures r == result + Gather(conn.live.value.shard, schemas, rowsOf)
      ensures conn.sent == old(conn.sent) + Fetches(conn.live.value.shard, schemas, sql)
    {
      var shard := conn.live.value.shard;
      r := result;
      var j := 0;
      while j < |schemas|
        invariant 0 <= j <= |schemas|
        invariant conn.Valid() && conn.State() == old(conn.State())
        invariant r == result + Gather(shard, schemas[..j], rowsOf)
        invariant conn.sent == old(conn.sent) + Fetches(shard, schemas[..j], sql)
      {
        var applied := SetSchema(schemas[j]);
        assert applied.Ok?;
        // fetchAll($sql): the query runs on the live connection under the schema
        var ran := conn.ExecuteQuery(sql);
        assert ran.Ok?;
        var rows := rowsOf(conn.LiveShard().value, conn.SearchPath().value);
        var base := r;
        var k := 0;
        while k < |rows|
          invariant 0 <= k <= |rows|
          invariant r == base + rows[..k]
        {
          r := r + [rows[k]];
          k := k + 1;
        }
        assert rows[..k] == rows;
        GatherStep(shard, schemas, j, rowsOf);
        FetchesStep(shard, schemas, j, sql);
        j := j + 1;
      }
      assert schemas[..j] == schemas;
    }

    /** executeAll($sql): select each shard in turn and run the statement on
        the connection that is live then. */
    method ExecuteAll(sql: string, driverOk: int -> bool) returns (r: Result<seq<Row>, ShardError>)
      requires conn.Valid()
      modifies conn
      ensures conn.Valid() && conn.nesting == old(conn.nesting)
      ensures conn.searchPaths.Keys <= old(conn.searchPaths).Keys
      ensures forall id :: id in conn.searchPaths ==> conn.searchPaths[id] == old(conn.searchPaths)[id]
      ensures conn.registry == [] ==> r == Err(NoShards) && conn.State() == old(conn.State()) && conn.sent == old(conn.sent)
      ensures r.Ok? ==> && r.value == [] && conn.registry != []
                        && var first := Landing(Ids(conn.registry)[0], old(conn.activeShardId), old(conn.LiveShard()));
                        && first.Some?
                        && conn.sent == old(conn.sent) + Broadcast(Lands(Ids(conn.registry), first.value), conn.searchPaths, sql)
      ensures (conn.registry != [] && old(conn.nesting) == 0 && Reachable(conn.registry, driverOk)
               && Landing(Ids(conn.registry)[0], old(conn.activeShardId), old(conn.LiveShard())).Some?) ==> r.Ok?
    {
      var ids := GetShards();
      if ids == [] {
        return Err(NoShards);
      }
      ghost var first := Landing(ids[0], conn.activeShardId, conn.LiveShard());
      ghost var f := if first.Some? then first.value else ids[0];
      ghost var lands := Lands(ids, f);
      var i := 0;
      while i < |ids|
        invariant 0 <= i <= |ids|
        invariant conn.Valid() && conn.nesting == old(conn.nesting)
        invariant conn.searchPaths.Keys <= old(conn.searchPaths).Keys
        invariant forall id :: id in conn.searchPaths ==> conn.searchPaths[id] == old(conn.searchPaths)[id]
        invariant i == 0 ==> conn.activeShardId == old(conn.activeShardId) && conn.live == old(conn.live)
        invariant i > 0 ==> first.Some? && conn.activeShardId == Some(ids[i - 1]) && f in conn.activeConnections
        invariant conn.sent == old(conn.sent) + Broadcast(lands[..i], conn.searchPaths, sql)
        modifies conn`activeShardId, conn`live, conn`activeConnections, conn`opens, conn`searchPaths, conn`sent
      {
        if i > 0 {
          assert conn.registry[i - 1].id != conn.registry[i].id;
        }
        var ran := BroadcastOn(ids, lands, f, i, sql, driverOk(ids[i]), old(conn.sent));
        if ran.Err? {
          return Err(ran.error);
        }
        i := i + 1;
      }
      assert lands[..i] == lands;
      return Ok([]);
    }

    /** One turn of executeAll, with what it adds to the statements sent:
        the turn's landing shard receives the statement under its session's
        search path, and the sessions of the shards reached before keep
        theirs. */
    method BroadcastOn(ids: seq<int>, ghost lands: seq<int>, ghost f: int, i: nat, sql: string, driverOk: bool,
                       ghost base: seq<Sent>)
      returns (r: Result<bool, ShardError>)
      requires conn.Valid() && ids == Ids(conn.registry) && i < |ids| && lands == Lands(ids, f)
      requires i == 0 ==> Landing(ids[0], conn.activeShardId, conn.LiveShard()) in {None, Some(f)}
      requires i > 0 ==> conn.activeShardId != Some(ids[i]) && f in conn.activeConnections
      requires conn.sent == base + Broadcast(lands[..i], conn.searchPaths, sql)
      modifies conn`activeShardId, conn`live, conn`activeConnections, conn`opens, conn`searchPaths, conn`sent
      ensures conn.Valid()
      ensures conn.searchPaths.Keys <= old(conn.searchPaths).Keys
      ensures forall id :: id in conn.searchPaths ==> conn.searchPaths[id] == old(conn.searchPaths)[id]
      ensures r.Ok? ==> && Landing(ids[i], old(conn.activeShardId), old(conn.LiveShard())) == Some(lands[i])
                        && conn.activeShardId == Some(ids[i]) && f in conn.activeConnections
                        && conn.sent == base + Broadcast(lands[..i + 1], conn.searchPaths, sql)
      ensures (conn.nesting == 0 && driverOk && Landing(ids[i], old(conn.activeShardId), old(conn.LiveShard())).Some?)
              ==> r.Ok?
    {
      ghost var before := conn.searchPaths;
      r := RunOn(ids[i], sql, driverOk);
      if r.Ok? && conn.searchPaths != before {
        // the turn opened ids[i] afresh: it is none of the shards reached before
        forall j | 0 <= j < i
          ensures lands[..i][j] != ids[i]
        {
          if j > 0 {
            assert conn.registry[j].id != conn.registry[i].id;
          }
        }
      }
      if r.Ok? {
        BroadcastTurn(lands, i, before, conn.searchPaths, ids[i], sql);
      }
    }

    /** One turn of executeAll: select the shard, then run the statement on
        the live connection. */
    method RunOn(id: int, sql: string, driverOk: bool) returns (r: Result<bool, ShardError>)
      requires conn.Valid()
      modifies conn`activeShardId, conn`live, conn`activeConnections, conn`opens, conn`searchPaths, conn`sent
      ensures conn.Valid() && old(conn.activeConnections).Keys <= conn.activeConnections.Keys
      ensures || conn.searchPaths == old(conn.searchPaths)
              || (id !in old(conn.activeConnections) && conn.searchPaths == old(conn.searchPaths) - {id})
      ensures r.Err? ==> conn.sent == old(conn.sent)
      ensures r.Ok? ==> && conn.activeShardId == Some(id) && conn.LiveShard().Some?
                        && conn.LiveShard() == Landing(id, old(conn.activeShardId), old(conn.LiveShard()))
                        && conn.sent == old(conn.sent) + [Sent(conn.LiveShard(), PathOf(conn.searchPaths, conn.LiveShard()), sql)]
      ensures (conn.nesting == 0 && id in Ids(conn.registry) && driverOk
               && Landing(id, old(conn.activeShardId), old(conn.LiveShard())).Some?) ==> r.Ok?
    {
      r := SelectShardById(id, driverOk);
      if r.Ok? {
        var ran := conn.ExecuteQuery(sql);
        if ran.Err? {
          r := Err(ran.error);
        }
      }
    }

    /** Send each statement of a diff, in order, on the live connection and
        the search path of its session. */
    method RunAll(sqls: seq<string>)
      requires conn.Valid() && conn.live.Some?
      modifies conn`activeShardId, conn`live, conn`activeConnections, conn`opens, conn`searchPaths, conn`sent
      ensures conn.Valid() && conn.State() == old(conn.State()) && conn.searchPaths == old(conn.searchPaths)
      ensures conn.sent == old(conn.sent) + Runs(conn.LiveShard(), conn.SearchPath(), sqls)
    {
      var k := 0;
      while k < |sqls|
        invariant 0 <= k <= |sqls|
        invariant conn.Valid() && conn.State() == old(conn.State()) && conn.searchPaths == old(conn.searchPaths)
        invariant conn.sent == old(conn.sent) + Runs(conn.LiveShard(), conn.SearchPath(), sqls[..k])
      {
        var ran := conn.ExecuteQuery(sqls[k]);
        assert ran.Ok?;
        assert sqls[..k + 1][..k] == sqls[..k];
        k := k + 1;
      }
      assert sqls[..k] == sqls;
    }

    /** Send the statements of a diff that PHP does not read as false, in
        order, on the live connection and the search path of its session. */
    method RunDiff(sqls: seq<string>)
      requires conn.Valid() && conn.live.Some?
      modifies conn`activeShardId, conn`live, conn`activeConnections, conn`opens, conn`searchPaths, conn`sent
      ensures conn.Valid() && conn.State() == old(conn.State()) && conn.searchPaths == old(conn.searchPaths)
      ensures conn.sent == old(conn.sent) + Runs(conn.LiveShard(), conn.SearchPath(), NonEmpty(sqls))
    {
      var k := 0;
      while k < |sqls|
        invariant 0 <= k <= |sqls|
        invariant conn.Valid() && conn.State() == old(conn.State()) && conn.searchPaths == old(conn.searchPaths)
        invariant conn.sent == old(conn.sent) + Runs(conn.LiveShard(), conn.SearchPath(), NonEmpty(sqls[..k]))
      {
        NonEmptyStep(sqls, k);
        var sofar := NonEmpty(sqls[..k]);
        if !EmptyString(sqls[k]) {
          var sent := Sent(conn.LiveShard(), conn.SearchPath(), sqls[k]);
          RunsStep(conn.LiveShard(), conn.SearchPath(), sofar, sqls[k]);
          ConcatAssoc(old(conn.sent), Runs(conn.LiveShard(), conn.SearchPath(), sofar), [sent]);
          var ran := conn.ExecuteQuery(sqls[k]);
          assert ran.Ok?;
        } else {
          assert NonEmpty(sqls[..k + 1]) == sofar;
        }
        k := k + 1;
      }
      assert sqls[..k] == sqls;
    }

    /** updateCurrentSchema($toSchema, $saveMode), given the diff the
        comparator produces on the current connection. Reading the current
        schema queries the connection, which connects first. */
    method UpdateCurrentSchema(diff: seq<string>, saveMode: bool) returns (r: Result<seq<string>, ShardError>)
      requires conn.Valid()
      modifies conn`activeShardId, conn`live, conn`activeConnections, conn`opens, conn`searchPaths, conn`sent
      ensures conn.Valid() && conn.searchPaths == old(conn.searchPaths)
      ensures conn.registry == [] ==> r == Err(NoShards) && conn.State() == old(conn.State()) && conn.sent == old(conn.sent)
      ensures conn.registry != [] && old(conn.live).None? ==>
                && r == Err(if conn.nesting > 0 then TransactionActive else UnknownShard(0))
                && conn.sent == old(conn.sent)
      ensures conn.registry != [] && old(conn.live).Some? ==>
                && r == Ok(diff) && conn.State() == old(conn.State())
                && conn.sent == old(conn.sent) + (if saveMode then Runs(conn.LiveShard(), conn.SearchPath(), diff) else [])
    {
      var ids := GetShards();
      if ids == [] {
        return Err(NoShards);
      }
      var ready := conn.ConnectForQuery();
      if ready.Err? {
        return Err(ready.error);
      }
      if diff != [] && saveMode {
        RunAll(diff);
      }
      return Ok(diff);
    }

    /** updateSchema($toSchema, $saveMode, $prefix): compute the current
        connection's diff (which queries it, connecting first) and in save
        mode run it; then, on every shard and every schema of the connection
        live there, compute the schema's diff, keep it under the schema's
        name and, in save mode, run it. */
    method UpdateSchema(currentDiff: seq<string>, schemasOf: int -> seq<string>,
                        diffOf: (int, string) -> seq<string>, saveMode: bool, driverOk: int -> bool)
      returns (r: Result<map<string, seq<string>>, ShardError>)
      requires conn.Valid()
      modifies conn
      ensures conn.Valid() && conn.nesting == old(conn.nesting)
      ensures old(conn.live).None? ==>
                && r == Err(if conn.nesting > 0 then TransactionActive else UnknownShard(0))
                && conn.sent == old(conn.sent)
      ensures old(conn.live).Some? ==>
                var before := old(conn.sent) + (if saveMode then Runs(old(conn.LiveShard()), old(conn.SearchPath()), currentDiff) else []);
                && (conn.registry == [] ==> r == Err(NoShards) && conn.sent == before)
                && (r.Ok? ==> && conn.registry != []
                              && var first := Landing(Ids(conn.registry)[0], old(conn.activeShardId), old(conn.LiveShard()));
                              && first.Some?
                              && r.value == Collect(Lands(Ids(conn.registry), first.value), schemasOf, diffOf)
                              && conn.sent == before + (if saveMode then SchemaRuns(Lands(Ids(conn.registry), first.value), schemasOf, diffOf) else []))
      ensures conn.registry != [] && old(conn.nesting) == 0 && Reachable(conn.registry, driverOk) && old(conn.live).Some? ==> r.Ok?
    {
      var ready := conn.ConnectForQuery();
      if ready.Err? {
        return Err(ready.error);
      }
      if saveMode {
        RunAll(currentDiff);
      }
      var ids := GetShards();
      if ids == [] {
        return Err(NoShards);
      }
      r := UpdateShards(ids, schemasOf, diffOf, saveMode, driverOk);
    }

    /** The outer loop of updateSchema: select each shard in turn and update
        the schemas of the connection that is live then. */
    method UpdateShards(ids: seq<int>, schemasOf: int -> seq<string>,
                        diffOf: (int, string) -> seq<string>, saveMode: bool, driverOk: int -> bool)
      returns (r: Result<map<string, seq<string>>, ShardError>)
      requires conn.Valid() && ids == Ids(conn.registry) && ids != []
      modifies conn
      ensures conn.Valid() && conn.nesting == old(conn.nesting)
      ensures r.Ok? ==> && var first := Landing(ids[0], old(conn.activeShardId), old(conn.LiveShard()));
                        && first.Some?
                        && r.value == Collect(Lands(ids, first.value), schemasOf, diffOf)
                        && conn.sent == old(conn.sent) + (if saveMode then SchemaRuns(Lands(ids, first.value), schemasOf, diffOf) else [])
      ensures (old(conn.nesting) == 0 && Reachable(conn.registry, driverOk)
               && Landing(ids[0], old(conn.activeShardId), old(conn.LiveShard())).Some?) ==> r.Ok?
    {
      ghost var first := Landing(ids[0], conn.activeShardId, conn.LiveShard());
      ghost var lands := Lands(ids, if first.Some? then first.value else ids[0]);
      var collected: map<string, seq<string>> := map[];
      var i := 0;
      while i < |ids|
        invariant 0 <= i <= |ids|
        invariant conn.Valid() && conn.nesting == old(conn.nesting)
        invariant i == 0 ==> conn.activeShardId == old(conn.activeShardId) && conn.live == old(conn.live)
        invariant i > 0 ==> first.Some? && conn.activeShardId == Some(ids[i - 1])
        invariant collected == Collect(lands[..i], schemasOf, diffOf)
        invariant conn.sent == old(conn.sent) + (if saveMode then SchemaRuns(lands[..i], schemasOf, diffOf) else [])
        modifies conn`activeShardId, conn`live, conn`activeConnections, conn`opens, conn`searchPaths, conn`sent
      {
        if i > 0 {
          assert conn.registry[i - 1].id != conn.registry[i].id;
        }
        var updated := UpdateOn(lands, i, ids[i], schemasOf, diffOf, saveMode, driverOk(ids[i]), collected, old(conn.sent));
        if updated.Err? {
          return Err(updated.error);
        }
        collected := updated.value;
        i := i + 1;
      }
      assert lands[..i] == lands;
      return Ok(collected);
    }

    /** One turn of updateSchema's shard loop: select the shard, list the
        schemas of the connection that is live then, and update each of them. */
    method UpdateOn(ghost lands: seq<int>, i: nat, id: int, schemasOf: int -> seq<string>, diffOf: (int, string) -> seq<string>,
                    saveMode: bool, driverOk: bool, collected: map<string, seq<string>>, ghost base: seq<Sent>)
      returns (r: Result<map<string, seq<string>>, ShardError>)
      requires conn.Valid() && i < |lands|
      requires Landing(id, conn.activeShardId, conn.LiveShard()) in {None, Some(lands[i])}
      requires collected == Collect(lands[..i], schemasOf, diffOf)
      requires conn.sent == base + (if saveMode then SchemaRuns(lands[..i], schemasOf, diffOf) else [])
      modifies conn`activeShardId, conn`live, conn`activeConnections, conn`opens, conn`searchPaths, conn`sent
      ensures conn.Valid()
      ensures r.Ok? ==> && Landing(id, old(conn.activeShardId), old(conn.LiveShard())) == Some(lands[i])
                        && conn.activeShardId == Some(id)
                        && r.value == Collect(lands[..i + 1], schemasOf, diffOf)
                        && conn.sent == base + (if saveMode then SchemaRuns(lands[..i + 1], schemasOf, diffOf) else [])
      ensures (conn.nesting == 0 && id in Ids(conn.registry) && driverOk
               && Landing(id, old(conn.activeShardId), old(conn.LiveShard())).Some?) ==> r.Ok?
    {
      var switched := SelectShardById(id, driverOk);
      if switched.Err? {
        return Err(switched.error);
      }
      // getSchemaNames() queries the connection, which connects first
      var listed := conn.ConnectForQuery();
      if listed.Err? {
        return Err(listed.error);
      }
      var shard := conn.live.value.shard;
      var c := UpdateActive(schemasOf(shard), diffOf, saveMode, collected);
      UpdateStep(lands, i, schemasOf, diffOf);
      if saveMode {
        ConcatAssoc(base, SchemaRuns(lands[..i], schemasOf, diffOf), ShardRuns(shard, schemasOf(shard), diffOf));
      }
      return Ok(c);
    }

    /** The inner loop of updateSchema on the live connection: for each
        schema, set the search path, keep the schema's diff under its name
        and, in save mode, run it. */
    method UpdateActive(schemas: seq<string>, diffOf: (int, string) -> seq<string>, saveMode: bool,
                        collected: map<string, seq<string>>)
      returns (c: map<string, seq<string>>)
      requires conn.Valid() && conn.live.Some?
      modifies conn`activeShardId, conn`live, conn`activeConnections, conn`opens, conn`searchPaths, conn`sent
      ensures conn.Valid() && conn.State() == old(conn.State())
      ensures c == CollectShard(collected, conn.live.value.shard, schemas, diffOf)
      ensures conn.sent == old(conn.sent) + (if saveMode then ShardRuns(conn.live.value.shard, schemas, diffOf) else [])
    {
      var shard := conn.live.value.shard;
      c := collected;
      var j := 0;
      while j < |schemas|
        invariant 0 <= j <= |schemas|
        invariant conn.Valid() && conn.State() == old(conn.State())
        invariant c == CollectShard(collected, shard, schemas[..j], diffOf)
        invariant conn.sent == old(conn.sent) + (if saveMode then ShardRuns(shard, schemas[..j], diffOf) else [])
      {
        var c' := UpdateOne(schemas[j], diffOf, saveMode, c);
        ShardStep(shard, schemas, j, collected, diffOf);
        if saveMode {
          ConcatAssoc(old(conn.sent), ShardRuns(shard, schemas[..j], diffOf),
                      Runs(Some(shard), Some(schemas[j]), NonEmpty(diffOf(shard, schemas[j]))));
        }
        c := c';
        j := j + 1;
      }
      assert schemas[..j] == schemas;
    }

    /** One schema of updateSchema's inner loop: set the search path, keep
        the schema's diff under its name and, in save mode, run it. */
    method UpdateOne(name: string, diffOf: (int, string) -> seq<string>, saveMode: bool,
                     collected: map<string, seq<string>>)
      returns (c: map<string, seq<string>>)
      requires conn.Valid() && conn.live.Some?
      modifies conn`activeShardId, conn`live, conn`activeConnections, conn`opens, conn`searchPaths, conn`sent
      ensures conn.Valid() && conn.State() == old(conn.State())
      ensures c == collected[name := diffOf(conn.live.value.shard, name)]
      ensures conn.sent == old(conn.sent)
                           + (if saveMode then Runs(Some(conn.live.value.shard), Some(name), NonEmpty(diffOf(conn.live.value.shard, name))) else [])
    {
      var applied := SetSchema(name);
      assert applied.Ok?;
      var diff := diffOf(conn.LiveShard().value, name);
      c := collected[name := diff];
      if diff != [] && saveMode {
        RunDiff(diff);
      } else if saveMode {
        assert NonEmpty(diff) == [];
      }
    }

    /** getAllocateShardId(): a registered shard chosen by the random `pick`. */
    method GetAllocateShardId(pick: nat) returns (r: Result<int, ShardError>)
      ensures r.Err? <==> conn.registry == []
      ensures r.Err? ==> r.error == NoShards
      ensures r.Ok? ==> r.value in Ids(conn.registry) && r.value == Allocated(Ids(conn.registry), pick)
    {
      var ids := GetShards();
      if ids == [] {
        return Err(NoShards);
      }
      return Ok(Allocated(ids, pick));
    }
  }
}
