/** PoolingShardConnection: a connection that routes to one of several
    configured shards and keeps every shard connection it has opens.

    The registry is built once, by the constructor, from `params['shards']`
    and `params['global']`. `connect` then moves between shards over three
    pieces of state: the active shard id, the live handle, and the cache of
    opens handles (activeConnections). The driver that opens a shard
    connection is not modelled: whether it succeeds is passed in. */
module ShardConnection {
  import opened Common

  /** A configuration array: setting name to value. */
  type Settings = map<string, Value>

  datatype ShardError =
    | MissingShards            // no 'shards' parameter
    | MissingId                // a shard without 'id'
    | InvalidId(id: Value)     // not numeric, or below 1
    | DuplicateId(key: int)    // a second shard with the same id
    | MissingGlobal            // array_merge on an absent 'global' (a TypeError in PHP 8)
    | TransactionActive        // 'Cannot switch shard when transaction is active.'
    | UnknownShard(key: int)   // the driver is handed no parameters for an unregistered id
    | DriverFailed(key: int)   // the driver could not connect to the shard
    | NoShards                 // 'No shards found.'

  /** One registry entry: the shard's id and `global` merged with the shard's own settings. */
  datatype Entry = Entry(id: int, settings: Settings)

  /** A driver connection to a shard: the shard and the ordinal of the open
      that produced it. */
  datatype Handle = Handle(shard: int, serial: nat)

  /** The connection parameters the constructor reads; None is an absent key. */
  datatype Params = Params(shards: Option<seq<Settings>>, global: Option<Settings>)

  // ---------------------------------------------------------------------------
  // the registry

  /** isset($settings[name]) ? $settings[name] : null */
  function Get(settings: Settings, name: string): (v: Value)
    ensures v != VNull ==> name in settings && settings[name] == v
  {
    if name in settings then settings[name] else VNull
  }

  /** The array key a numeric id is stored under: an int as it is, a float
      truncated, a string of decimal digits as the number it spells; None
      when the value is not numeric. */
  function ShardKey(v: Value): Option<int> {
    match v
    case VInt(i) => Some(i)
    case VFloat(f) => Some(f.Floor)
    case VStr(s) => if s != [] && forall i :: 0 <= i < |s| ==> IsDigit(s[i]) then Some(ParseDigits(s)) else None
    case _ => None
  }

  /** The id check: present, numeric and at least 1. A float below 1 has a
      key below 1, so `key >= 1` is PHP's `$id < 1` test. */
  predicate ValidId(shard: Settings) {
    Get(shard, "id") != VNull && ShardKey(Get(shard, "id")).Some? && ShardKey(Get(shard, "id")).value >= 1
  }

  function KeyOf(shard: Settings): int
    requires ValidId(shard)
  {
    ShardKey(Get(shard, "id")).value
  }

  /** The ids of the registry, in registry order. */
  function Ids(reg: seq<Entry>): (ids: seq<int>)
    ensures |ids| == |reg|
    ensures forall i :: 0 <= i < |reg| ==> ids[i] == reg[i].id
  {
    seq(|reg|, i requires 0 <= i < |reg| => reg[i].id)
  }

  /** The settings registered under an id. */
  function Find(reg: seq<Entry>, id: int): (r: Option<Settings>)
    ensures r.Some? <==> id in Ids(reg)
    ensures r.Some? ==> exists i :: 0 <= i < |reg| && reg[i].id == id && reg[i].settings == r.value
    decreases |reg|
  {
    if reg == [] then None
    else if reg[0].id == id then Some(reg[0].settings)
    else
      var r := Find(reg[1..], id);
      assert Ids(reg) == [reg[0].id] + Ids(reg[1..]);
      if r.Some? then
        var i :| 0 <= i < |reg[1..]| && reg[1..][i].id == id && reg[1..][i].settings == r.value;
        assert reg[i + 1] == reg[1..][i];
        r
      else r
  }

  /** One turn of the constructor loop: the checks, in order, then the merge
      (array_merge lets the shard's own settings win). */
  function Admit(reg: seq<Entry>, global: Option<Settings>, shard: Settings): Result<Entry, ShardError> {
    var id := Get(shard, "id");
    if id == VNull then Err(MissingId)
    else if ShardKey(id).None? || ShardKey(id).value < 1 then Err(InvalidId(id))
    else if ShardKey(id).value in Ids(reg) then Err(DuplicateId(ShardKey(id).value))
    else if global.None? then Err(MissingGlobal)
    else Ok(Entry(ShardKey(id).value, global.value + shard))
  }

  /** The registry the constructor builds from the shards handled so far, or
      the exception that stopped it. */
  function Registry(global: Option<Settings>, shards: seq<Settings>): (r: Result<seq<Entry>, ShardError>)
    ensures r.Ok? ==> |r.value| == |shards|
    decreases |shards|
  {
    if shards == [] then Ok([])
    else Extend(Registry(global, shards[..|shards| - 1]), global, shards[|shards| - 1])
  }

  /** The registry after one more shard, or the first exception. */
  function Extend(prev: Result<seq<Entry>, ShardError>, global: Option<Settings>, shard: Settings)
    : (r: Result<seq<Entry>, ShardError>)
    ensures r.Ok? ==> prev.Ok? && |r.value| == |prev.value| + 1
  {
    if prev.Err? then prev
    else
      var a := Admit(prev.value, global, shard);
      if a.Err? then Err(a.error) else Ok(prev.value + [a.value])
  }

  /** What the configuration must satisfy for the constructor to succeed. */
  predicate Acceptable(global: Option<Settings>, shards: seq<Settings>) {
    && (shards != [] ==> global.Some?)
    && (forall i :: 0 <= i < |shards| ==> ValidId(shards[i]))
    && (forall i, j :: 0 <= i < j < |shards| ==> KeyOf(shards[i]) != KeyOf(shards[j]))
  }

  /** The constructor succeeds exactly on configurations whose ids are all
      present, numeric, at least 1 and pairwise distinct (with a `global`
      to merge into); the registry then holds one entry per shard, in order,
      keyed by its id, carrying `global` overridden by the shard. */
  lemma RegistryAccepts(global: Option<Settings>, shards: seq<Settings>)
    ensures Registry(global, shards).Ok? <==> Acceptable(global, shards)
    ensures Registry(global, shards).Ok? ==>
              forall i :: 0 <= i < |shards| ==>
                Registry(global, shards).value[i] == Entry(KeyOf(shards[i]), global.value + shards[i])
  {
    if Registry(global, shards).Ok? {
      RegistrySound(global, shards);
    }
    if Acceptable(global, shards) {
      RegistryComplete(global, shards);
    }
  }

  /** A registry that was built came from an acceptable configuration, one entry per shard. */
  lemma RegistrySound(global: Option<Settings>, shards: seq<Settings>)
    requires Registry(global, shards).Ok?
    ensures Acceptable(global, shards)
    ensures forall i :: 0 <= i < |shards| ==>
              Registry(global, shards).value[i] == Entry(KeyOf(shards[i]), global.value + shards[i])
  {
    RegistryEntries(global, shards);
    var reg := Registry(global, shards).value;
    forall i, j | 0 <= i < j < |shards|
      ensures KeyOf(shards[i]) != KeyOf(shards[j])
    {
      assert reg[i].id == KeyOf(shards[i]) && reg[j].id == KeyOf(shards[j]);
    }
  }

  /** Entry i of a built registry is shard i's id and merged settings, and no id repeats. */
  lemma {:induction false} RegistryEntries(global: Option<Settings>, shards: seq<Settings>)
    requires Registry(global, shards).Ok?
    ensures shards != [] ==> global.Some?
    ensures forall i :: 0 <= i < |shards| ==> ValidId(shards[i])
    ensures forall i :: 0 <= i < |shards| ==>
              Registry(global, shards).value[i] == Entry(KeyOf(shards[i]), global.value + shards[i])
    ensures DistinctIds(Registry(global, shards).value)
    decreases |shards|
  {
    if shards != [] {
      var n := |shards| - 1;
      var front, last := shards[..n], shards[n];
      RegistryEntries(global, front);
      var reg := Registry(global, front).value;
      var e := Entry(KeyOf(last), global.value + last);
      assert Registry(global, shards).value == reg + [e];
      AppendEntry(reg, e);
      forall i | 0 <= i < n
        ensures shards[i] == front[i]
      {
      }
    }
  }

  lemma AppendEntry(reg: seq<Entry>, e: Entry)
    requires DistinctIds(reg) && e.id !in Ids(reg)
    ensures DistinctIds(reg + [e])
    ensures forall i :: 0 <= i < |reg| ==> (reg + [e])[i] == reg[i]
  {
    forall i, j | 0 <= i < j < |reg| + 1
      ensures (reg + [e])[i].id != (reg + [e])[j].id
    {
      if j == |reg| {
        assert Ids(reg)[i] == reg[i].id;
      }
    }
  }

  /** An acceptable configuration is always built. */
  lemma {:induction false} RegistryComplete(global: Option<Settings>, shards: seq<Settings>)
    requires Acceptable(global, shards)
    ensures Registry(global, shards).Ok?
    decreases |shards|
  {
    if shards != [] {
      var n := |shards| - 1;
      var front, last := shards[..n], shards[n];
      assert forall i :: 0 <= i < n ==> front[i] == shards[i];
      assert Acceptable(global, front);
      RegistryComplete(global, front);
      RegistryEntries(global, front);
      var reg := Registry(global, front).value;
      assert forall i :: 0 <= i < n ==> Ids(reg)[i] == KeyOf(shards[i]) != KeyOf(last);
    }
  }

  /** The registry has no id twice. */
  predicate DistinctIds(reg: seq<Entry>) {
    forall i, j :: 0 <= i < j < |reg| ==> reg[i].id != reg[j].id
  }

  /** Every registry the constructor builds keys each shard once, at id >= 1. */
  lemma RegistryDistinct(global: Option<Settings>, shards: seq<Settings>)
    requires Registry(global, shards).Ok?
    ensures DistinctIds(Registry(global, shards).value)
    ensures forall i :: 0 <= i < |shards| ==> Registry(global, shards).value[i].id >= 1
  {
    RegistryAccepts(global, shards);
  }

  /** One more turn of the constructor loop is one more Admit. */
  lemma RegistryStep(global: Option<Settings>, shards: seq<Settings>, i: nat)
    requires i < |shards|
    ensures Registry(global, shards[..i + 1]) == Extend(Registry(global, shards[..i]), global, shards[i])
  {
    assert shards[..i + 1][..i] == shards[..i];
  }

  // ---------------------------------------------------------------------------
  // connect as a state machine

  /** The routing state: the active shard id, the live handle, the cache of
      opens handles, and the shards opens so far in order. */
  datatype Router = Router(active: Option<int>, live: Option<Handle>, cache: map<int, Handle>, opens: seq<int>)

  /** (int) $shardId */
  function ShardIdOf(shardId: Option<int>): int {
    if shardId.Some? then shardId.value else 0
  }

  /** connect($shardId) on a registry, a transaction nesting level and a
      routing state, given whether the driver manages to open a connection:
      its answer and the routing state after it. */
  function ConnectSpec(reg: seq<Entry>, nesting: nat, s: Router, shardId: Option<int>, driverOk: bool)
    : (r: (Result<bool, ShardError>, Router))
  {
    if shardId.None? && s.live.Some? then (Ok(false), s)
    else if shardId.Some? && Some(shardId.value) == s.active then (Ok(false), s)
    else if nesting > 0 then (Err(TransactionActive), s)
    else
      var id := ShardIdOf(shardId);
      if id in s.cache then (Ok(false), s.(active := Some(id), live := Some(s.cache[id])))
      else if id !in Ids(reg) then (Err(UnknownShard(id)), s.(active := Some(id)))
      else if !driverOk then (Err(DriverFailed(id)), s.(active := Some(id)))
      else
        var h := Handle(id, |s.opens|);
        (Ok(true), Router(Some(id), Some(h), s.cache[id := h], s.opens + [id]))
  }

  /** Asking for the shard that is already active, or for no shard while a
      handle is live, answers false and changes nothing. */
  lemma ConnectToActiveIsNoop(reg: seq<Entry>, nesting: nat, s: Router, shardId: Option<int>, driverOk: bool)
    requires (shardId.None? && s.live.Some?) || (shardId.Some? && s.active == shardId)
    ensures ConnectSpec(reg, nesting, s, shardId, driverOk) == (Ok(false), s)
  {
  }

  /** The cache only grows: no cached handle is ever replaced, connect opens
      at most one connection, and it answers true exactly when it opens one.
      A connect that succeeds and changes anything leaves the cached handle of
      the active shard live. */
  lemma ConnectKeepsCache(reg: seq<Entry>, nesting: nat, s: Router, shardId: Option<int>, driverOk: bool)
    ensures var (r, t) := ConnectSpec(reg, nesting, s, shardId, driverOk);
            && s.cache.Keys <= t.cache.Keys
            && (forall id :: id in s.cache ==> t.cache[id] == s.cache[id])
            && t.opens[..|s.opens|] == s.opens
            && (r == Ok(true) <==> |t.opens| == |s.opens| + 1)
            && |t.opens| <= |s.opens| + 1
            && (r.Ok? && t != s ==> t.active.Some? && t.active.value in t.cache && t.live == Some(t.cache[t.active.value]))
  {
  }

  /** A switch the driver fails leaves the id it was asked for active while
      the old handle stays live, so asking again for the same shard is taken
      for a no-op: it answers false and the old shard's handle stays live. */
  lemma RetryAfterFailedSwitch(reg: seq<Entry>, s: Router, id: int, retryOk: bool)
    requires s.live.Some? && s.active != Some(id) && id !in s.cache && id in Ids(reg)
    ensures var (r1, t1) := ConnectSpec(reg, 0, s, Some(id), false);
            var (r2, t2) := ConnectSpec(reg, 0, t1, Some(id), retryOk);
            && r1 == Err(DriverFailed(id)) && t1.active == Some(id) && t1.live == s.live
            && r2 == Ok(false) && t2 == t1 && t2.live == s.live
  {
  }

  /** A connect to a given shard that succeeds leaves that shard active, and
      with no transaction open a registered shard the driver can reach is
      always a success. */
  lemma ConnectActivates(reg: seq<Entry>, nesting: nat, s: Router, id: int, driverOk: bool)
    ensures var (r, t) := ConnectSpec(reg, nesting, s, Some(id), driverOk);
            && (r.Ok? ==> t.active == Some(id))
            && (nesting == 0 && id in Ids(reg) && driverOk ==> r.Ok?)
  {
  }

  /** Once a shard is rejected, the constructor has thrown: later shards change nothing. */
  lemma {:induction false} RegistryErrSticks(global: Option<Settings>, shards: seq<Settings>, i: nat)
    requires i <= |shards| && Registry(global, shards[..i]).Err?
    ensures Registry(global, shards) == Registry(global, shards[..i])
    decreases |shards| - i
  {
    if i < |shards| {
      RegistryStep(global, shards, i);
      RegistryErrSticks(global, shards, i + 1);
    } else {
      assert shards[..i] == shards;
    }
  }

  /** In a registry without repeated ids, Find returns the entry that carries the id. */
  lemma {:induction false} FindDistinct(reg: seq<Entry>, i: nat)
    requires DistinctIds(reg) && i < |reg|
    ensures Find(reg, reg[i].id) == Some(reg[i].settings)
    decreases i
  {
    if i > 0 {
      assert reg[0].id != reg[i].id;
      assert reg[1..][i - 1] == reg[i];
      FindDistinct(reg[1..], i - 1);
    }
  }

  lemma FindEachDistinct(reg: seq<Entry>)
    ensures DistinctIds(reg) ==> forall i :: 0 <= i < |reg| ==> Find(reg, reg[i].id) == Some(reg[i].settings)
  {
    if DistinctIds(reg) {
      forall i | 0 <= i < |reg|
        ensures Find(reg, reg[i].id) == Some(reg[i].settings)
      {
        FindDistinct(reg, i);
      }
    }
  }

  /** A statement sent through executeQuery, with the shard and schema that
      were current when it was sent. */
  datatype Sent = Sent(shard: Option<int>, schema: Option<string>, sql: string)

  /** The search path a shard's session has, if one was set on it. */
  function PathOf(paths: map<int, string>, shard: Option<int>): Option<string> {
    if shard.Some? && shard.value in paths then Some(paths[shard.value]) else None
  }

  class PoolingShardConnection {
    /** $this->connections: every configured shard, in configuration order */
    const registry: seq<Entry>
    /** the transaction nesting level kept by the parent Connection */
    var nesting: nat
    var activeShardId: Option<int>
    /** $this->_conn */
    var live: Option<Handle>
    var activeConnections: map<int, Handle>
    /** the shards the driver was asked to open, oldest first */
    var opens: seq<int>
    /** the schema search path set on each shard's connection since it was
        opened: session state, which a fresh connection starts without */
    var searchPaths: map<int, string>
    /** the statements run through executeQuery, oldest first */
    var sent: seq<Sent>

    function State(): Router
      reads this`activeShardId, this`live, this`activeConnections, this`opens
    {
      Router(activeShardId, live, activeConnections, opens)
    }

    ghost predicate Valid()
      reads this`live, this`activeConnections
    {
      && DistinctIds(registry)
      && (forall i :: 0 <= i < |registry| ==> registry[i].id >= 1)
      && (forall id :: id in activeConnections ==> id in Ids(registry) && activeConnections[id].shard == id)
      && (live.Some? ==> live.value.shard in activeConnections && activeConnections[live.value.shard] == live.value)
    }

    /** The shard whose connection is live: where the next statement goes,
        whatever shard id is active. */
    function LiveShard(): Option<int>
      reads this`live
    {
      if live.Some? then Some(live.value.shard) else None
    }

    constructor (registry: seq<Entry>)
      requires DistinctIds(registry)
      requires forall i :: 0 <= i < |registry| ==> registry[i].id >= 1
      ensures Valid() && this.registry == registry
      ensures nesting == 0 && activeShardId == None && live == None && activeConnections == map[]
      ensures opens == [] && searchPaths == map[] && sent == []
    {
      this.registry := registry;
      nesting := 0;
      activeShardId := None;
      live := None;
      activeConnections := map[];
      opens := [];
      searchPaths := map[];
      sent := [];
    }

    /** new PoolingShardConnection($params, ...): validate each configured
        shard in turn and register it under its id. */
    static method Create(params: Params) returns (r: Result<PoolingShardConnection, ShardError>)
      ensures params.shards.None? ==> r == Err(MissingShards)
      ensures params.shards.Some? ==>
                var built := Registry(params.global, params.shards.value);
                && (r.Err? <==> built.Err?)
                && (r.Err? ==> r.error == built.error)
                && (r.Ok? ==> fresh(r.value) && r.value.Valid() && r.value.registry == built.value
                              && r.value.activeShardId == None && r.value.live == None
                              && r.value.activeConnections == map[] && r.value.opens == [])
    {
      if params.shards.None? {
        return Err(MissingShards);
      }
      var shards, global := params.shards.value, params.global;
      var connections: seq<Entry> := [];
      var i := 0;
      while i < |shards|
        invariant 0 <= i <= |shards|
        invariant Registry(global, shards[..i]) == Ok(connections)
      {
        RegistryStep(global, shards, i);
        var shard := shards[i];
        var id := Get(shard, "id");
        if id == VNull {
          RegistryErrSticks(global, shards, i + 1);
          return Err(MissingId);
        }
        var key := ShardKey(id);
        if key.None? || key.value < 1 {
          RegistryErrSticks(global, shards, i + 1);
          return Err(InvalidId(id));
        }
        if Find(connections, key.value).Some? {
          RegistryErrSticks(global, shards, i + 1);
          return Err(DuplicateId(key.value));
        }
        if global.None? {
          RegistryErrSticks(global, shards, i + 1);
          return Err(MissingGlobal);
        }
        connections := connections + [Entry(key.value, global.value + shard)];
        i := i + 1;
      }
      assert shards[..i] == shards;
      RegistryEntries(global, shards);
      var c := new PoolingShardConnection(connections);
      return Ok(c);
    }

    /** connect($shardId) */
    method Connect(shardId: Option<int>, driverOk: bool) returns (r: Result<bool, ShardError>)
      requires Valid()
      modifies this`activeShardId, this`live, this`activeConnections, this`opens, this`searchPaths
      ensures Valid()
      ensures (r, State()) == ConnectSpec(registry, nesting, old(State()), shardId, driverOk)
      ensures r.Ok? && shardId.Some? && shardId != old(activeShardId) ==> IsConnected(shardId) && IsConnected(None)
      ensures r == Ok(true) ==> activeShardId.Some? && searchPaths == old(searchPaths) - {activeShardId.value}
      ensures r != Ok(true) ==> searchPaths == old(searchPaths)
    {
      if shardId.None? && live.Some? {
        return Ok(false);
      }
      if shardId.Some? && Some(shardId.value) == activeShardId {
        return Ok(false);
      }
      if nesting > 0 {
        return Err(TransactionActive);
      }
      var id := ShardIdOf(shardId);
      activeShardId := Some(id);
      if id in activeConnections {
        live := Some(activeConnections[id]);
        return Ok(false);
      }
      var h := ConnectTo(id, driverOk);
      if h.Err? {
        return Err(h.error);
      }
      activeConnections := activeConnections[id := h.value];
      live := Some(h.value);
      searchPaths := searchPaths - {id};
      return Ok(true);
    }

    /** connectTo($shardId): open a driver connection with the shard's
        registered settings. An unregistered id hands the driver no settings,
        which PHP rejects with a TypeError. */
    method ConnectTo(id: int, driverOk: bool) returns (r: Result<Handle, ShardError>)
      modifies this`opens
      ensures id !in Ids(registry) ==> r == Err(UnknownShard(id)) && opens == old(opens)
      ensures id in Ids(registry) && !driverOk ==> r == Err(DriverFailed(id)) && opens == old(opens)
      ensures id in Ids(registry) && driverOk ==> r == Ok(Handle(id, |old(opens)|)) && opens == old(opens) + [id]
    {
      var settings := Find(registry, id);
      if settings.None? {
        return Err(UnknownShard(id));
      }
      if !driverOk {
        return Err(DriverFailed(id));
      }
      var h := Handle(id, |opens|);
      opens := opens + [id];
      return Ok(h);
    }

    /** $this->connections[$this->activeShardId][name], or null: the
        accessors read the registry entry of the active shard id, whatever
        handle is live. */
    function Setting(name: string): (v: Value)
      reads this
      ensures activeShardId.None? || activeShardId.value !in Ids(registry) ==> v == VNull
      ensures forall i :: 0 <= i < |registry| && DistinctIds(registry) && activeShardId == Some(registry[i].id) ==>
                v == Get(registry[i].settings, name)
    {
      if activeShardId.None? then VNull
      else
        var found := Find(registry, activeShardId.value);
        FindEachDistinct(registry);
        if found.None? then VNull else Get(found.value, name)
    }

    function GetHost(): Value reads this { Setting("host") }
    function GetPort(): Value reads this { Setting("port") }
    function GetUsername(): Value reads this { Setting("user") }
    function GetPassword(): Value reads this { Setting("password") }
    function GetDatabase(): Value reads this { Setting("dbname") }

    /** isConnected($shardId): a live handle, or a cached one for that shard. */
    predicate IsConnected(shardId: Option<int>)
      reads this
    {
      if shardId.None? then live.Some? else shardId.value in activeConnections
    }

    /** close(): drop the live handle and the cache, keep the active shard id. */
    method Close()
      requires Valid()
      modifies this`live, this`activeConnections, this`searchPaths
      ensures Valid() && live == None && activeConnections == map[] && searchPaths == map[]
      ensures !IsConnected(None) && forall id :: !IsConnected(Some(id))
    {
      live := None;
      activeConnections := map[];
      searchPaths := map[];
    }

    /** The search path of the live connection's session. */
    function SearchPath(): Option<string>
      reads this`live, this`searchPaths
    {
      PathOf(searchPaths, LiveShard())
    }

    /** connect() with no shard, which the parent Connection's query methods
        call before they run anything: a no-op while a handle is live.
        Without one it becomes connect(0), and no registered shard has id 0. */
    method ConnectForQuery() returns (r: Result<bool, ShardError>)
      requires Valid()
      modifies this`activeShardId, this`live, this`activeConnections, this`opens, this`searchPaths
      ensures Valid() && searchPaths == old(searchPaths)
      ensures (r, State()) == ConnectSpec(registry, nesting, old(State()), None, false)
      ensures old(live).Some? ==> r == Ok(false) && State() == old(State())
      ensures old(live).None? ==>
                && r == Err(if nesting > 0 then TransactionActive else UnknownShard(0))
                && live == None && activeConnections == old(activeConnections) && opens == old(opens)
    {
      if live.None? {
        assert 0 !in Ids(registry);
        assert 0 !in activeConnections;
      }
      r := Connect(None, false);
    }

    /** The schema manager's setSchemaSearchPaths($schema), as far as the
        shard manager relies on it: a query on the live connection, so it
        fails without one; otherwise that session's later statements run
        against the schema, and every other session keeps its own path. */
    method SetSearchPath(schema: string) returns (r: Result<bool, ShardError>)
      requires Valid()
      modifies this`activeShardId, this`live, this`activeConnections, this`opens, this`searchPaths
      ensures Valid()
      ensures (r, State()) == ConnectSpec(registry, nesting, old(State()), None, false)
      ensures r.Ok? <==> old(live).Some?
      ensures r.Ok? ==> State() == old(State()) && searchPaths == old(searchPaths)[live.value.shard := schema]
      ensures r.Ok? ==> SearchPath() == Some(schema)
      ensures r.Err? ==> live == None && searchPaths == old(searchPaths)
    {
      r := ConnectForQuery();
      if r.Ok? {
        searchPaths := searchPaths[live.value.shard := schema];
      }
    }

    /** The parent Connection's executeQuery($sql), as far as the shard
        manager relies on it: it connects first, which fails without a live
        handle; otherwise the statement runs on the live connection, under
        the search path of that session. */
    method ExecuteQuery(sql: string) returns (r: Result<bool, ShardError>)
      requires Valid()
      modifies this`activeShardId, this`live, this`activeConnections, this`opens, this`searchPaths, this`sent
      ensures Valid() && searchPaths == old(searchPaths)
      ensures (r, State()) == ConnectSpec(registry, nesting, old(State()), None, false)
      ensures r.Ok? <==> old(live).Some?
      ensures r.Ok? ==> State() == old(State()) && sent == old(sent) + [Sent(LiveShard(), SearchPath(), sql)]
      ensures r.Err? ==> live == None && sent == old(sent)
    {
      r := ConnectForQuery();
      if r.Ok? {
        sent := sent + [Sent(LiveShard(), SearchPath(), sql)];
      }
    }
  }
}
