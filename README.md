# Vertica adapter for Doctrine DBAL: a verified model

This project models the core of a Doctrine DBAL adapter for the Vertica
database. The adapter reaches Vertica over ODBC and adds pooled sharding on
top. The model covers these parts:

- **VerticaStatement** (`placeholders.dfy`, `statement.dfy`).
  - The query rewrite into positional `?` form, with the `paramMap` from bind
    identifiers to 0-based slots.
  - Binding, and `execute` with its slot-count check.
  - `fetch`, `fetchAll` and `fetchColumn` in the ASSOC, NUM and BOTH modes,
    where an empty text becomes null.
  - The forward-only iterator: `next`, `rewind`, `key` and `valid`.
- **VericaConnection** (`connection.dfy`).
  - The transaction machine. Its only state is the backend autocommit flag.
  - The SQL string quoter, with its round trip.
  - `exec`, `query` and `prepare` as compositions of statement operations.
  - The constructor's failure when ODBC returns no handle.
- **VerticaDriver** (`driver.dfy`).
  - The ODBC connection string (DSN) built from the connection parameters.
  - `getDatabase`.
  - `connect`, which rethrows a connection failure wrapped as a driver
    exception.
- **PoolingShardConnection** (`shard_connection.dfy`).
  - The shard registry the constructor validates and builds.
  - `connect` as a state machine over three pieces of state: the active
    shard, the live handle and the cache of opened handles.
  - The accessors that read the active shard's registered settings.
  - `isConnected` and `close`.
  - The search path of each shard's session: set through the schema manager
    on the active shard, absent on a connection opened afresh, and gone
    after `close`.
- **PoolingShardManager** (`shard_manager.dfy`).
  - The fan-out of queries and schema updates over every shard, and over every
    schema within a shard.
  - The CONNECT statement and the database name of a shard.
  - Shard selection and shard allocation.
- **VerticaSchemaManager** (`schema_manager.dfy`).
  - Column rows read back as column definitions. This covers type-size
    stripping, the varchar-to-text threshold and default unquoting.
  - Index rows grouped into indexes.
  - The search path, the existing search paths with their cache, and portable
    table names.
- **VerticaPlatform** (`platform.dfy`).
  - Table-name splitting and the database-to-Doctrine type mapping.
  - The varchar and integer type snippets.
  - CREATE SEQUENCE.
  - CREATE TABLE, with its primary key, partition, foreign-key and
    column-comment statements.
  - The statements `getAlterTableSQL` emits for removed columns.

`common.dfy` holds the shared vocabulary:

- the `Option`, `Result` and `Outcome` datatypes;
- a PHP scalar `Value`;
- the PHP string functions the adapter relies on (`explode`, `implode`,
  `substr`, `str_replace`, `trim`, `rtrim` with a character list,
  `strtolower`), with the lemmas the rest of the model uses.

The ODBC extension and Doctrine are outside the model. Whatever they answer is
a parameter of the operation:

- whether a connection, prepare, execute, commit, rollback or autocommit
  switch succeeds;
- the rows a cursor hands out;
- the placeholder positions Doctrine's SQL parser finds;
- a shard's schema names and its rows per schema;
- the schema diff SQL;
- the namespace list and the `SHOW search_path` text;
- the random pick of `array_rand`.

Calls that go out to the backend are recorded in a call log field of the
class that sends them, so contracts can state what was sent and in what order.

Stateful parts are classes whose fields the methods update:

- `VerticaStatement`, `VericaConnection` and `PoolingShardConnection`;
- `PoolingShardManager`, which works on its connection;
- `VerticaSchemaManager`, with its cached existing search paths.

Each method is proved against a specification function. The properties the
adapter promises are lemmas about those functions. The loops of the source
are `while` loops with invariants:

- the named-placeholder rewrite;
- the shard registry construction;
- the fan-out loops of the shard manager;
- the index-row grouping;
- the CREATE TABLE loops;
- the removed-column loop.

Some observations about the code as written:

- **Repeated named placeholder.** A named placeholder that occurs twice keeps
  the slot of its last occurrence in `paramMap`. That slot is the only one
  `execute` fills, yet the count check still passes. See
  `RepeatedNameKeepsLastSlot` and `RepeatedNamePassesCountCheck`.
- **Tail cut with several named placeholders.** The tail cut of the named
  rewrite takes an offset into the original query and applies it to the
  remaining suffix. The rewrite is right for a single named placeholder
  (`SingleNamedSplice`). With two or more, the text after the second
  placeholder is lost (`SecondMarkerLosesTail`). The model keeps the code's
  behaviour and claims no general splice property.
- **Failed shard switch.** When a switch to an unopened shard fails in the
  driver, `activeShardId` already names the new shard. The old handle stays
  live. A retry of the same shard then returns false without connecting
  (`RetryAfterFailedSwitch`). Every statement goes to the live handle, so
  until another shard is selected, statements meant for the new shard reach
  the old one. An `executeAll` whose first shard is that new shard reaches
  the old shard twice and the new one never (`StaleSwitchSendsTwice`);
  `queryAll` and `updateSchema` reach the same shards (`Lands`).
- **Connect after close.** `close` keeps `activeShardId`. So `connect` with
  that same id afterwards returns false and opens nothing
  (`ConnectToActiveIsNoop`). With no handle live, the next query's own
  `connect()` then asks for shard 0 and fails (`ConnectForQuery`): a fan-out
  whose first shard is the active one fails at its first statement.
- **Password in CONNECT TO VERTICA.** The statement `getConnectionShardQuery`
  builds puts the shard password between single quotes without escaping it.
- **varchar(65000).** The varchar-to-text threshold is `>= 65000`, which is
  Vertica's own maximum varchar length. So a `varchar(65000)` column reads back
  as `text` (`VarcharThreshold`).
- **rollBack's return type.** `rollBack` declares `: boolean`, which PHP
  reads as a class name, not as `bool`. Inside a transaction the rollback
  and the switch back to autocommit are sent, and then returning true or
  false throws a TypeError. Outside one, the state error is thrown first.
  See `RollbackAlwaysThrows`.
- **Values sent in binding order.** `odbc_execute` hands the elements of
  `$this->params` to the markers in array order and ignores the keys. The
  array order is the order in which slots were first bound, not slot order.
  So `execute(['b' => x, 'a' => y])` on `... :a ... :b` sends x for `:a`
  (`NamedArgsSentInBindOrder`). A list bound in order goes out as given
  (`ListBindSendsValues`).
- **execute() with markers and no array.** The count check's message calls
  `count($params)` on null, which is a TypeError in PHP 8. So `query` and
  `exec` on SQL with markers, and an iterator over a statement nobody
  bound, end in that TypeError rather than the count-mismatch exception.
- **executeAll's doc comment.** Its comment at
  `DBAL/Vertica/Sharding/PoolingShardManager.php:115` speaks of all shards
  and all schemas. The code at lines 133-137 runs the statement once per
  shard, under whatever search path that shard's session has. The model
  follows the code (`BroadcastOncePerShard`).

## Model

| member | source | states |
|---|---|---|
| Placeholders.PositionalMap | DBAL/Vertica/Driver/VerticaStatement.php:64 | with n positional markers the map sends markers 1..n to slots 0..n-1 and holds nothing else |
| Placeholders.Rewrite | DBAL/Vertica/Driver/VerticaStatement.php:51-86 | the rewrite fails exactly when positional and named markers are mixed; with no named marker the SQL is unchanged; positional markers give the map 1..n to 0..n-1; no markers give an empty map; named markers give the pieces joined by `?` and the named map |
| Placeholders.ParseQuery | DBAL/Vertica/Driver/VerticaStatement.php:51-86 | the pop-and-push loop over the named positions yields exactly the specified rewrite |
| Placeholders.Cut | DBAL/Vertica/Driver/VerticaStatement.php:77-79 | one loop turn replaces the last piece by two, so the piece list grows by one |
| Placeholders.Pieces | DBAL/Vertica/Driver/VerticaStatement.php:73-81 | the query parts always number one more than the named occurrences processed |
| Placeholders.NamedMapLastOccurrence | DBAL/Vertica/Driver/VerticaStatement.php:75-76 | every named key maps to the index of its last occurrence, and every occurring name is a key |
| Placeholders.LastWithNameExtends | DBAL/Vertica/Driver/VerticaStatement.php:75-76 | an occurrence of another name leaves a key's last-occurrence index unchanged |
| Placeholders.PrefixStep | DBAL/Vertica/Driver/VerticaStatement.php:75-80 | one more loop turn adds one cut to the pieces and sets that name's slot to the turn's index |
| Placeholders.SingleNamedSplice | DBAL/Vertica/Driver/VerticaStatement.php:77-82 | with one named placeholder `:p` at offset k, the SQL is the text before k, then `?`, then the text after the placeholder |
| Placeholders.OnePiece | DBAL/Vertica/Driver/VerticaStatement.php:77-79 | one named placeholder splits the query into the text before it and the text after it |
| Placeholders.PiecesOfTwo | DBAL/Vertica/Driver/VerticaStatement.php:75-81 | the pieces of two placeholders are the second cut applied to the pieces of the first |
| Placeholders.SecondCut | DBAL/Vertica/Driver/VerticaStatement.php:78-79 | the second cut measures its tail from the original query's offset, applied to the remaining suffix |
| Placeholders.TwoPieces | DBAL/Vertica/Driver/VerticaStatement.php:73-81 | with two named placeholders the third piece starts at the sum of both end offsets, not at the second one's end |
| Placeholders.TwoNamedMarkers | DBAL/Vertica/Driver/VerticaStatement.php:73-82 | the SQL rewritten from two named placeholders, as the code computes it |
| Placeholders.SecondMarkerLosesTail | DBAL/Vertica/Driver/VerticaStatement.php:79 | `:a,:b,c` rewrites to `?,?`: the text after the second placeholder is lost |
| Placeholders.SecondMarkerAtEnd | DBAL/Vertica/Driver/VerticaStatement.php:79 | when the second placeholder ends the query, the two-placeholder rewrite is right |
| Placeholders.RepeatedNameKeepsLastSlot | DBAL/Vertica/Driver/VerticaStatement.php:76 | a name occurring twice maps to slot 1, its last occurrence |
| Placeholders.RepeatedNameExample | DBAL/Vertica/Driver/VerticaStatement.php:69-83 | `a=:p,b=:p` rewrites to `a=?,b=?` with `p` mapped to slot 1 only |
| Statement.Normalize | DBAL/Vertica/Driver/VerticaStatement.php:213-214 | a backend text becomes null exactly when it is empty, and otherwise stays that text |
| Statement.Put | DBAL/Vertica/Driver/VerticaStatement.php:214 | assigning a named entry makes that name read the new value, leaves every other name alone and adds at most one entry |
| Statement.AssocOfIsLastNamed | DBAL/Vertica/Driver/VerticaStatement.php:211-216 | in an ASSOC row each column name reads the value of its last column with that name |
| Statement.ValuesOf | DBAL/Vertica/Driver/VerticaStatement.php:217-222 | a NUM row has one entry per field, indexed from 0, each the normalised field text |
| Statement.ShapeNormalizesEmptyText | DBAL/Vertica/Driver/VerticaStatement.php:209-231 | shaping fails exactly on modes other than ASSOC, NUM and BOTH; positionally an entry is null exactly when its text is empty; by name each entry is the last same-named column's value |
| Statement.ShapeRow | DBAL/Vertica/Driver/VerticaStatement.php:209-231 | the field loop builds exactly the specified shaped row |
| Statement.FetchAllRows | DBAL/Vertica/Driver/VerticaStatement.php:240-247 | fetchAll never puts rows back on the cursor |
| Statement.FetchAllReturnsEveryRow | DBAL/Vertica/Driver/VerticaStatement.php:240-247 | with a supported mode and no empty row, fetchAll returns every remaining row, shaped and in order, and drains the cursor |
| Statement.LastNamedOfPresent | DBAL/Vertica/Driver/VerticaStatement.php:211-216 | every column name of a row has an entry in the ASSOC row |
| Statement.BindAll | DBAL/Vertica/Driver/VerticaStatement.php:109-116 | binding only adds slots of the map; it stops at an identifier absent from the map; when it does not stop, every shifted identifier was in the map |
| Statement.BindAllKeepsOtherSlots | DBAL/Vertica/Driver/VerticaStatement.php:109-116 | a slot no supplied identifier maps to keeps its earlier value, so bindings persist across calls |
| Statement.ListArgs | DBAL/Vertica/Driver/VerticaStatement.php:110-113 | the i-th value of a list is bound under integer key i |
| Statement.ListBindFillsEverySlot | DBAL/Vertica/Driver/VerticaStatement.php:109-122 | a list of n values for n positional markers fills slots 0..n-1 with the values in order, so the count check passes |
| Statement.Slots | DBAL/Vertica/Driver/VerticaStatement.php:118 | the slots 0..n-1 number n |
| Statement.SlotMap | DBAL/Vertica/Driver/VerticaStatement.php:124 | the parameter array a list fills holds exactly the slots 0..n-1, each with its value |
| Statement.ListBindFrom | DBAL/Vertica/Driver/VerticaStatement.php:110-115 | binding the rest of a list from any point completes the filled slots |
| Statement.ListBindDone | DBAL/Vertica/Driver/VerticaStatement.php:110-115 | a fully pre-filled list binding is complete |
| Statement.ListBindStep | DBAL/Vertica/Driver/VerticaStatement.php:110-115 | one bound list value moves the binding one position on |
| Statement.PrefilledStep | DBAL/Vertica/Driver/VerticaStatement.php:110-115 | one bound list value extends the filled prefix |
| Statement.BindStep | DBAL/Vertica/Driver/VerticaStatement.php:114 | binding a known identifier sets its slot and continues with the rest |
| Statement.RepeatedNamePassesCountCheck | DBAL/Vertica/Driver/VerticaStatement.php:76 | for a name used twice, one value fills only slot 1, and the parameter count still equals the map's size |
| Statement.Enter | DBAL/Vertica/Driver/VerticaStatement.php:141 | assigning a slot keeps the keys in first-assignment order: a slot bound again keeps its place, a new one goes last |
| Statement.InOrder | DBAL/Vertica/Driver/VerticaStatement.php:124 | the values handed to the markers are the array's elements in array order, the i-th being the value of the i-th slot in that order |
| Statement.ListBindSendsValues | DBAL/Vertica/Driver/VerticaStatement.php:109-124 | execute with a list of n values on n positional markers sends exactly that list, value i to marker i |
| Statement.ListOrderFrom | DBAL/Vertica/Driver/VerticaStatement.php:109-116 | binding a list of values on positional markers leaves the slots in array order 0, 1, ..., n-1 |
| Statement.ListOrderStep | DBAL/Vertica/Driver/VerticaStatement.php:109-116 | binding the i-th element of a list enters slot i right after slots 0 to i-1 |
| Statement.NamedArgsSentInBindOrder | DBAL/Vertica/Driver/VerticaStatement.php:109-124 | execute with `b` given before `a` on `:a ... :b` fills slot 1 first, so the backend receives b's value for `:a` and a's for `:b` |
| Statement.VerticaStatement.constructor | DBAL/Vertica/Driver/VerticaStatement.php:32-38 | a new statement keeps the original query and the rewrite, has no bindings and has not executed or started |
| Statement.VerticaStatement.Create | DBAL/Vertica/Driver/VerticaStatement.php:32-38 | construction throws the syntax error exactly when the rewrite does; otherwise the statement holds the rewritten SQL and map |
| Statement.VerticaStatement.GetSql | DBAL/Vertica/Driver/VerticaStatement.php:43-46 | getSql returns the rewritten query |
| Statement.VerticaStatement.BindParam | DBAL/Vertica/Driver/VerticaStatement.php:134-152 | an identifier absent from the map throws, naming the identifier and the original query, and changes nothing; otherwise only its slot is set, overwriting any earlier value, and a slot bound for the first time goes last in the array order |
| Statement.VerticaStatement.BindArgs | DBAL/Vertica/Driver/VerticaStatement.php:109-116 | binding the supplied parameters with integer keys shifted by one gives exactly the specified bound slots and array order |
| Statement.VerticaStatement.Execute | DBAL/Vertica/Driver/VerticaStatement.php:103-130 | the statement is prepared first, and rowCount then reads the new statement whatever follows (nothing after a failed prepare); an unknown identifier, or a count different from the map's size, throws before any execute call, the count error being a TypeError when no array was given; otherwise the backend receives one value per map entry, in the order the slots were first bound; executed becomes true only after the backend executes, and then the cursor holds its rows |
| Statement.VerticaStatement.PrepareAndRun | DBAL/Vertica/Driver/VerticaStatement.php:106-129 | after a prepare the old cursor is gone; binding, the count check and the execute call happen as execute specifies |
| Statement.VerticaStatement.CheckAndSend | DBAL/Vertica/Driver/VerticaStatement.php:118-129 | once binding stopped, an unknown identifier throws before the count check, a count mismatch throws before anything is sent, and only a full binding reaches odbc_execute |
| Statement.VerticaStatement.Send | DBAL/Vertica/Driver/VerticaStatement.php:124-129 | odbc_execute receives the bound values in array order, one per map entry; success sets executed and the cursor, failure leaves no rows |
| Statement.VerticaStatement.Fetch | DBAL/Vertica/Driver/VerticaStatement.php:200-235 | no row left gives false; otherwise one row is consumed and shaped in the given or default mode, and an unknown mode throws |
| Statement.VerticaStatement.FetchAll | DBAL/Vertica/Driver/VerticaStatement.php:240-247 | the loop collects exactly the specified rows and leaves the specified cursor |
| Statement.VerticaStatement.FetchColumn | DBAL/Vertica/Driver/VerticaStatement.php:252-259 | one row is consumed and the column's raw text is returned without normalising an empty text; no row gives false |
| Statement.VerticaStatement.RowCount | DBAL/Vertica/Driver/VerticaStatement.php:297-300 | rowCount reads the statement the last prepare returned, whether or not its execute succeeded, and throws when there is none (never prepared, or the prepare failed) |
| Statement.VerticaStatement.Next | DBAL/Vertica/Driver/VerticaStatement.php:272-280 | next executes first when needed, increments the key and marks iteration started; the current element is the first shaped row of the rows left, which after the automatic execute are the rows it returned, or false when none is left; valid then holds exactly when a row was left; the automatic execute sends the values already bound |
| Statement.VerticaStatement.Rewind | DBAL/Vertica/Driver/VerticaStatement.php:285-292 | rewind after iteration has started throws and changes nothing; before that it does what next does, with key 1: the current element is the first row of the rows left, or of the rows the automatic execute returned |
| Statement.VerticaStatement.Key | DBAL/Vertica/Driver/VerticaStatement.php:264-267 | the key is null exactly until iteration starts |
| Statement.VerticaStatement.SetFetchMode | DBAL/Vertica/Driver/VerticaStatement.php:305-314 | a non-null second or third argument throws and keeps the mode; otherwise the mode is stored |
| Connection.CheckTransactionStarted | DBAL/Vertica/Driver/VericaConnection.php:47-55 | the check throws exactly when the expected and actual transaction state differ: "not started" when one was expected, "already started" otherwise |
| Connection.StepRejectsWrongState | DBAL/Vertica/Driver/VericaConnection.php:68-90 | begin inside a transaction, and commit or rollback outside one, throw before any backend call and leave autocommit as it was; begin and commit throw in no other case |
| Connection.StepTrueIffSwitched | DBAL/Vertica/Driver/VericaConnection.php:68-81 | begin or commit returns true exactly when it switched autocommit: begin turns it off, commit turns it on |
| Connection.DeclaredBoolean | DBAL/Vertica/Driver/VericaConnection.php:86 | a bool returned through the declared type `boolean` becomes an error; the calls already sent and the autocommit flag stay as they are |
| Connection.RollbackAlwaysThrows | DBAL/Vertica/Driver/VericaConnection.php:86-90 | rollBack never returns: outside a transaction it throws "not started"; inside one it sends the rollback, then the autocommit switch if the rollback succeeded, and throws the return-type error, with autocommit back on exactly when both calls succeeded |
| Connection.FinishCallsInOrder | DBAL/Vertica/Driver/VericaConnection.php:77-90 | the commit or rollback call comes first, and autocommit is re-enabled only when that call succeeded |
| Connection.QuoteString | DBAL/Vertica/Driver/VericaConnection.php:162 | a quoted string starts and ends with a single quote |
| Connection.Quote | DBAL/Vertica/Driver/VericaConnection.php:156-163 | ints and floats come back unchanged; anything else is quoted so that unquoting gives back its text |
| Connection.UndoubleDoubled | DBAL/Vertica/Driver/VericaConnection.php:162 | undoubling the doubled quotes gives back the input, and every quote in the doubled text is paired |
| Connection.DoubledUndouble | DBAL/Vertica/Driver/VericaConnection.php:162 | doubling an undoubled body with paired quotes gives back that body |
| Connection.QuoteRoundTrip | DBAL/Vertica/Driver/VericaConnection.php:162 | stripping the outer quotes and undoubling recovers the quoted string |
| Connection.QuoteOnto | DBAL/Vertica/Driver/VericaConnection.php:162 | every well-formed quoted literal is the quote of the text it denotes |
| Connection.VericaConnection.constructor | DBAL/Vertica/Driver/VericaConnection.php:27-42 | a new connection keeps its DSN and credentials, starts in autocommit and has sent nothing |
| Connection.VericaConnection.Open | DBAL/Vertica/Driver/VericaConnection.php:27-42 | construction throws with the last error message exactly when ODBC returns no handle |
| Connection.VericaConnection.BeginTransaction | DBAL/Vertica/Driver/VericaConnection.php:68-72 | begin throws exactly inside a transaction; a successful switch leaves the connection in a transaction |
| Connection.VericaConnection.Commit | DBAL/Vertica/Driver/VericaConnection.php:77-81 | commit throws exactly outside a transaction; a refused commit keeps the transaction open; a true answer means autocommit is back on |
| Connection.VericaConnection.RollBack | DBAL/Vertica/Driver/VericaConnection.php:86-90 | rollBack always throws: "not started" outside a transaction, the return-type error inside one after its backend calls; a refused rollback keeps the transaction open; when both calls succeed autocommit is back on |
| Connection.VericaConnection.EndTransaction | DBAL/Vertica/Driver/VericaConnection.php:77-90 | commit and rollback share one specified shape: the check, the backend call, then the switch |
| Connection.VericaConnection.Prepare | DBAL/Vertica/Driver/VericaConnection.php:135-138 | prepare fails exactly when the query mixes marker kinds; otherwise it returns a fresh, unexecuted statement over the rewrite |
| Connection.VericaConnection.Query | DBAL/Vertica/Driver/VericaConnection.php:143-150 | query succeeds exactly when the query parses without markers and the backend prepares and executes it; with markers and a prepared statement it fails with the TypeError of counting the missing array; on success the statement is executed, holds the rows, reports the backend's row count and sent one prepare and one execute with no values |
| Connection.VericaConnection.Exec | DBAL/Vertica/Driver/VericaConnection.php:115-120 | exec succeeds under the same conditions as query and returns the affected row count |
| Driver.OptionTexts | DBAL/Vertica/Driver/VerticaDriver.php:68-72 | each driver option becomes `key=value`, in order |
| Driver.ConstructDsn | DBAL/Vertica/Driver/VerticaDriver.php:49-78 | a non-empty `dsn` parameter is returned verbatim, ignoring every other parameter |
| Driver.DsnFields | DBAL/Vertica/Driver/VerticaDriver.php:55-74 | a built DSN splits on `;` into `Driver=`, then `Servername=`, `Port=` and `Database=` exactly when set and in that order, then one empty field, then the `key=value` options in order |
| Driver.TerminatedAppend | DBAL/Vertica/Driver/VerticaDriver.php:57-65 | terminating fields with `;` distributes over concatenation |
| Driver.TerminatedOne | DBAL/Vertica/Driver/VerticaDriver.php:57-65 | a single field is terminated by one `;` |
| Driver.FixedPart | DBAL/Vertica/Driver/VerticaDriver.php:56-65 | the fixed part of the DSN is its fields, each followed by `;` |
| Driver.SplitTerminated | DBAL/Vertica/Driver/VerticaDriver.php:56-74 | `;`-terminated fields free of `;` split back into those fields |
| Driver.GetDatabase | DBAL/Vertica/Driver/VerticaDriver.php:84-89 | getDatabase reports the `dbname` parameter, or none when it is absent |
| Driver.DatabaseInDsn | DBAL/Vertica/Driver/VerticaDriver.php:63-89 | the database getDatabase reports is the one the built DSN names in its `Database=` field |
| Driver.Connect | DBAL/Vertica/Driver/VerticaDriver.php:27-42 | connect fails exactly when the connection cannot be opened, with the cause wrapped as a driver exception; otherwise the connection uses the built DSN |
| ShardConnection.Get | DBAL/Vertica/Sharding/PoolingShardConnection.php:133-182 | a non-null setting is present in the settings with that value |
| ShardConnection.Ids | DBAL/Vertica/Sharding/PoolingShardConnection.php:58 | the registry's ids, one per entry and in order |
| ShardConnection.Find | DBAL/Vertica/Sharding/PoolingShardConnection.php:120 | a lookup succeeds exactly for a registered id and returns settings registered under it |
| ShardConnection.Registry | DBAL/Vertica/Sharding/PoolingShardConnection.php:45-59 | a successful construction registers one entry per configured shard |
| ShardConnection.Extend | DBAL/Vertica/Sharding/PoolingShardConnection.php:45-59 | one more shard adds one entry, and any earlier exception stops the loop |
| ShardConnection.RegistryAccepts | DBAL/Vertica/Sharding/PoolingShardConnection.php:45-59 | construction succeeds exactly when every id is present, numeric, at least 1 and unique; then each entry is `global` merged with its shard, the shard's keys winning, keyed by the shard's id |
| ShardConnection.RegistrySound | DBAL/Vertica/Sharding/PoolingShardConnection.php:45-59 | a built registry came from an acceptable configuration and holds the merged entries |
| ShardConnection.RegistryEntries | DBAL/Vertica/Sharding/PoolingShardConnection.php:45-59 | a built registry has valid, distinct ids and the merged entries in configuration order |
| ShardConnection.AppendEntry | DBAL/Vertica/Sharding/PoolingShardConnection.php:54-58 | adding an entry under a new id keeps the ids distinct and the earlier entries unchanged |
| ShardConnection.RegistryComplete | DBAL/Vertica/Sharding/PoolingShardConnection.php:45-59 | every acceptable configuration is built without an exception |
| ShardConnection.RegistryDistinct | DBAL/Vertica/Sharding/PoolingShardConnection.php:50-56 | a built registry keys each shard once, with an id of at least 1 |
| ShardConnection.RegistryStep | DBAL/Vertica/Sharding/PoolingShardConnection.php:45-59 | the registry of one more shard is one more loop turn |
| ShardConnection.RegistryErrSticks | DBAL/Vertica/Sharding/PoolingShardConnection.php:45-59 | once a shard is rejected, later shards do not change the outcome |
| ShardConnection.FindDistinct | DBAL/Vertica/Sharding/PoolingShardConnection.php:120 | with distinct ids, each registered id finds its own entry's settings |
| ShardConnection.FindEachDistinct | DBAL/Vertica/Sharding/PoolingShardConnection.php:120 | with distinct ids, every entry is found under its id |
| ShardConnection.ConnectToActiveIsNoop | DBAL/Vertica/Sharding/PoolingShardConnection.php:78-84 | connect with no id and a live handle, or with the active id, returns false and changes nothing |
| ShardConnection.ConnectKeepsCache | DBAL/Vertica/Sharding/PoolingShardConnection.php:76-105 | connect never removes or replaces a cached handle; it opens at most one connection, exactly when it returns true; a successful change leaves the active shard cached and its handle live |
| ShardConnection.RetryAfterFailedSwitch | DBAL/Vertica/Sharding/PoolingShardConnection.php:82-97 | a failed switch already names the new shard active with the old handle live, so retrying that shard returns false and connects nothing |
| ShardConnection.ConnectActivates | DBAL/Vertica/Sharding/PoolingShardConnection.php:86-104 | a successful connect makes the requested id active; outside a transaction a registered, reachable shard always connects |
| ShardConnection.PoolingShardConnection.constructor | DBAL/Vertica/Sharding/PoolingShardConnection.php:38-65 | a new connection holds the registry, with no active shard, live handle, cache or opened connection |
| ShardConnection.PoolingShardConnection.Create | DBAL/Vertica/Sharding/PoolingShardConnection.php:38-65 | a missing `shards` key throws; otherwise the validation loop throws exactly what the specified registry construction throws, or builds that registry |
| ShardConnection.PoolingShardConnection.Connect | DBAL/Vertica/Sharding/PoolingShardConnection.php:76-105 | the method's answer and new routing state are the specified transition; a successful switch to another shard leaves it connected; a connection opened afresh starts without a search path, and a cached one keeps its session's |
| ShardConnection.PoolingShardConnection.ConnectTo | DBAL/Vertica/Sharding/PoolingShardConnection.php:114-126 | an unregistered id fails, a refusing driver fails, and otherwise exactly one new connection to that shard is opened |
| ShardConnection.PoolingShardConnection.Setting | DBAL/Vertica/Sharding/PoolingShardConnection.php:133-182 | the host, port, user, password and dbname accessors read the active shard's registered settings, and give null without an active registered shard or without the key |
| ShardConnection.PoolingShardConnection.Close | DBAL/Vertica/Sharding/PoolingShardConnection.php:206-222 | close clears the live handle, the cache and the sessions' search paths, so nothing reads as connected, and keeps the active shard id |
| ShardConnection.PoolingShardConnection.ConnectForQuery | DBAL/Vertica/Sharding/PoolingShardConnection.php:76-97 | connect() with no shard, which every query of the parent Connection runs first: with a live handle it answers false and changes nothing; without one it becomes connect(0), which throws (the transaction exception inside one, the unknown-shard failure otherwise) and opens nothing |
| ShardConnection.PoolingShardConnection.SetSearchPath | DBAL/Vertica/Sharding/PoolingShardManager.php:263-266 | setting the search path is a query: it fails exactly without a live handle; otherwise the live shard's session takes the schema and the routing state is unchanged |
| ShardConnection.PoolingShardConnection.ExecuteQuery | DBAL/Vertica/Sharding/PoolingShardConnection.php:76-80 | executeQuery connects first: it fails exactly without a live handle; otherwise it sends the statement to the live shard under that session's search path, whatever shard id is active |
| ShardManager.ConnectText | DBAL/Vertica/Sharding/PoolingShardManager.php:42 | the shard query is a `CONNECT TO VERTICA` statement ending in `;` |
| ShardManager.SchemaCountAppend | DBAL/Vertica/Sharding/PoolingShardManager.php:99-107 | the row count over a shard's schemas adds up over concatenated schema lists |
| ShardManager.TotalAppend | DBAL/Vertica/Sharding/PoolingShardManager.php:93-109 | the row count over shards adds up over concatenated shard lists |
| ShardManager.GatherCount | DBAL/Vertica/Sharding/PoolingShardManager.php:99-107 | one shard contributes the sum of its schemas' fetchAll counts |
| ShardManager.FanoutCount | DBAL/Vertica/Sharding/PoolingShardManager.php:91-111 | queryAll's result length is the sum of every fetchAll count |
| ShardManager.FanoutAppend | DBAL/Vertica/Sharding/PoolingShardManager.php:93-109 | the fan-out over concatenated shard lists is the concatenation of their fan-outs |
| ShardManager.BroadcastOncePerShard | DBAL/Vertica/Sharding/PoolingShardManager.php:133-137 | sending to a list of shards sends the SQL exactly once to each, in order, each under the search path of that shard's session; executeAll sends to the shards its turns reach (`Lands`), which are all the shards when the handle is not stale (`AlignedBroadcast`) |
| ShardManager.BroadcastOtherShard | DBAL/Vertica/Sharding/PoolingShardManager.php:133-137 | opening a connection to one shard does not change what the other shards were sent |
| ShardManager.RunsSendEach | DBAL/Vertica/Sharding/PoolingShardManager.php:178-179 | running a diff sends each of its statements once, in order, to the current shard and schema |
| ShardManager.NonEmptyKeeps | DBAL/Vertica/Sharding/PoolingShardManager.php:220-225 | only non-empty statements are run, and every non-empty statement of the diff is |
| ShardManager.NonEmptyKeepsAll | DBAL/Vertica/Sharding/PoolingShardManager.php:220-225 | a diff without empty statements is run in full |
| ShardManager.ShardRunsFromDiff | DBAL/Vertica/Sharding/PoolingShardManager.php:213-228 | on one shard updateSchema sends only non-empty statements of that shard's schemas' diffs, each tagged with its shard and schema |
| ShardManager.SchemaRunsFromDiff | DBAL/Vertica/Sharding/PoolingShardManager.php:210-230 | every statement updateSchema sends over the shards belongs to a registered shard, one of its schemas and that schema's diff |
| ShardManager.CollectShardAt | DBAL/Vertica/Sharding/PoolingShardManager.php:213-217 | after one shard, each of its schemas holds its diff and every other name keeps its earlier entry |
| ShardManager.CollectKeys | DBAL/Vertica/Sharding/PoolingShardManager.php:208-232 | the result is keyed by exactly the schema names found on some shard |
| ShardManager.LaterShardWins | DBAL/Vertica/Sharding/PoolingShardManager.php:217 | a schema name holds the diff of the last shard that has it, overwriting earlier shards |
| ShardManager.FanoutStep | DBAL/Vertica/Sharding/PoolingShardManager.php:93-109 | one more shard appends that shard's rows |
| ShardManager.GatherStep | DBAL/Vertica/Sharding/PoolingShardManager.php:99-107 | one more schema appends that schema's rows |
| ShardManager.NonEmptyStep | DBAL/Vertica/Sharding/PoolingShardManager.php:220-225 | one more statement is kept exactly when it is non-empty |
| ShardManager.RunsStep | DBAL/Vertica/Sharding/PoolingShardManager.php:178-179 | one more statement appends one send |
| ShardManager.ShardStep | DBAL/Vertica/Sharding/PoolingShardManager.php:213-228 | one more schema records its diff and appends its runs |
| ShardManager.UpdateStep | DBAL/Vertica/Sharding/PoolingShardManager.php:210-230 | one more shard applies that shard's collection and runs |
| ShardManager.Allocated | DBAL/Vertica/Sharding/PoolingShardManager.php:306-308 | the random pick always lands on a registered shard |
| ShardManager.EveryShardAllocatable | DBAL/Vertica/Sharding/PoolingShardManager.php:306 | every registered shard is a possible allocation |
| ShardManager.Lands | DBAL/Vertica/Sharding/PoolingShardConnection.php:82-97 | the turns of a fan-out reach the first turn's landing and then, since each later connect switches away from the shard selected before, the shard each selects |
| ShardManager.AlignedBroadcast | DBAL/Vertica/Sharding/PoolingShardManager.php:133-137 | when the live handle belongs to the active shard (or the first shard is not active), executeAll's first turn reaches the first shard and the statement goes once to every shard in order |
| ShardManager.StaleSwitchSendsTwice | DBAL/Vertica/Sharding/PoolingShardConnection.php:82-97 | with shards 1 and 2, connect(2) succeeding and connect(1) failing in the driver leaves shard 1 active and shard 2 live; executeAll then sends its statement to shard 2 twice and never to shard 1 |
| ShardManager.BroadcastTurn | DBAL/Vertica/Sharding/PoolingShardManager.php:133-137 | a turn that drops a session's path drops that of a shard no earlier turn reached, so the earlier sends stay as they were |
| ShardManager.FetchesEachSchema | DBAL/Vertica/Sharding/PoolingShardManager.php:99-107 | on one shard queryAll sends its query once under each schema, in order |
| ShardManager.AllFetchesOnSchemas | DBAL/Vertica/Sharding/PoolingShardManager.php:93-109 | queryAll sends only its own query, each time on a shard of the list and under one of that shard's schemas |
| ShardManager.PoolingShardManager.BroadcastOn | DBAL/Vertica/Sharding/PoolingShardManager.php:133-137 | one turn of executeAll appends the send of the shard the turn reaches and keeps the earlier shards' session paths |
| ShardManager.PoolingShardManager.UpdateOne | DBAL/Vertica/Sharding/PoolingShardManager.php:213-225 | one schema on the live connection: its diff is kept under its name and, in save mode, its non-empty statements are sent under that schema |
| ShardManager.PoolingShardManager.constructor | DBAL/Vertica/Sharding/PoolingShardManager.php:25-28 | the manager works on the given connection |
| ShardManager.PoolingShardManager.GetShards | DBAL/Vertica/Sharding/PoolingShardManager.php:63-73 | getShards returns one id per registry entry, in registry order |
| ShardManager.PoolingShardManager.GetConnectionShardQuery | DBAL/Vertica/Sharding/PoolingShardManager.php:34-43 | an unknown id throws; otherwise the CONNECT statement is built from that shard's registered settings |
| ShardManager.PoolingShardManager.GetDatabaseNameForShardId | DBAL/Vertica/Sharding/PoolingShardManager.php:49-58 | an unknown id throws; otherwise the result is that shard's `dbname` |
| ShardManager.PoolingShardManager.SelectShardById | DBAL/Vertica/Sharding/PoolingShardManager.php:252-255 | selection is connect on the id: on success that shard is active and the live handle is the one `Landing` names; only a shard opened afresh loses its session path; outside a transaction a registered, reachable shard is always selected |
| ShardManager.PoolingShardManager.SelectShardByEntity | DBAL/Vertica/Sharding/PoolingShardManager.php:241-244 | selection is connect on the entity's shard id |
| ShardManager.PoolingShardManager.SetSchema | DBAL/Vertica/Sharding/PoolingShardManager.php:263-266 | the query needs a live handle and fails exactly without one; on success the live shard's session gets the schema as its search path, the other sessions keep theirs, and the routing state is unchanged |
| ShardManager.PoolingShardManager.QueryAll | DBAL/Vertica/Sharding/PoolingShardManager.php:84-112 | an empty registry throws "No shards found." before any connect; on success the result is every fetchAll's rows and the sends are the query once per schema, shard-major then schema-minor, over the shards the turns reach (the first turn reaches the live shard when its connect is a no-op); outside a transaction, with every shard reachable and a first turn that reaches a shard, it succeeds |
| ShardManager.PoolingShardManager.FetchOn | DBAL/Vertica/Sharding/PoolingShardManager.php:93-108 | one turn of queryAll: after connect(id) and the schema listing's implicit connect, the rows and sends of the shard the turn reaches are appended to those of the earlier turns, and that shard is the one `Landing` names; outside a transaction a reachable registered shard with a landing succeeds |
| ShardManager.PoolingShardManager.FetchActive | DBAL/Vertica/Sharding/PoolingShardManager.php:99-107 | on the live connection, the schema loop sends the query once under each schema in order and appends each schema's rows, leaving the routing state unchanged |
| ShardManager.PoolingShardManager.ExecuteAll | DBAL/Vertica/Sharding/PoolingShardManager.php:123-140 | an empty registry throws; on success the SQL is sent once per turn, to the shard each turn reaches, under that session's search path (none for a connection opened afresh); after a failed switch the first turn reaches the stale live shard (`StaleSwitchSendsTwice`); outside a transaction, with every shard reachable and a first turn that reaches a shard, it succeeds |
| ShardManager.PoolingShardManager.RunOn | DBAL/Vertica/Sharding/PoolingShardManager.php:135-136 | after connect(id) the statement goes to the live connection: the selected shard after a switch, the stale live shard when id was already active, nothing (an error) after close; only a shard opened afresh loses its session path |
| ShardManager.PoolingShardManager.RunAll | DBAL/Vertica/Sharding/PoolingShardManager.php:178-179 | with a live handle, each diff statement is sent once, in order, to the live shard under its session's path, and the routing state is unchanged |
| ShardManager.PoolingShardManager.RunDiff | DBAL/Vertica/Sharding/PoolingShardManager.php:220-225 | with a live handle, only the non-empty diff statements are sent, in order, to the live shard under its session's path |
| ShardManager.PoolingShardManager.UpdateCurrentSchema | DBAL/Vertica/Sharding/PoolingShardManager.php:166-183 | an empty registry throws and changes nothing; without a live handle reading the current schema throws; otherwise the diff is returned, and sent to the live shard only in save mode |
| ShardManager.PoolingShardManager.UpdateSchema | DBAL/Vertica/Sharding/PoolingShardManager.php:192-233 | reading the current schema needs a live handle; in save mode the current diff is sent before the empty-registry check; the result maps each schema name to the diff of the last shard reached that has it; only non-empty statements are sent, on the shard each turn reaches, schema by schema |
| ShardManager.PoolingShardManager.UpdateShards | DBAL/Vertica/Sharding/PoolingShardManager.php:210-230 | the shard loop collects the diffs and sends the runs of the shards its turns reach, the first turn reaching the shard `Landing` names |
| ShardManager.PoolingShardManager.UpdateOn | DBAL/Vertica/Sharding/PoolingShardManager.php:210-230 | one turn of updateSchema: the shard reached (after connect(id) and the schema listing's implicit connect) is the one `Landing` names, and its schemas' diffs extend the collected map and the statements sent; outside a transaction a reachable registered shard with a landing succeeds |
| ShardManager.PoolingShardManager.UpdateActive | DBAL/Vertica/Sharding/PoolingShardManager.php:213-228 | on the live connection, the schema loop collects each schema's diff for the live shard and, in save mode, sends its non-empty statements, leaving the routing state unchanged |
| ShardManager.PoolingShardManager.GetAllocateShardId | DBAL/Vertica/Sharding/PoolingShardManager.php:298-310 | allocation throws exactly on an empty registry, and otherwise returns a registered id |
| Platform.SplitTableName | DBAL/Vertica/Platform/VerticaPlatform.php:136-150 | a name without `.` gets schema `public` and stays whole; a dotted name splits into dot-free parts |
| Platform.SplitQualified | DBAL/Vertica/Platform/VerticaPlatform.php:143-147 | the schema is the text before the first `.` and the name the text between the first and second `.` |
| Platform.DoctrineTypeOf | DBAL/Vertica/Platform/VerticaPlatform.php:259-296 | a database type maps, case-insensitively, exactly when its lower-case form is in the mapping |
| Platform.IntegerFamilyIsInteger | DBAL/Vertica/Platform/VerticaPlatform.php:262-268 | a mapped type is `integer` exactly when it is one of the integer-family names |
| Platform.CharacterFamilyIsString | DBAL/Vertica/Platform/VerticaPlatform.php:270-273 | a mapped type is `string` exactly when it is one of the varchar or char names |
| Platform.LowerUnchanged | DBAL/Vertica/Platform/VerticaPlatform.php:259-296 | a name without capitals is unchanged by lower-casing |
| Platform.VarcharSnippetLength | DBAL/Vertica/Platform/VerticaPlatform.php:341-345 | the snippet is `CHAR(n)` when fixed and `VARCHAR(n)` otherwise, and reading n back gives the length, or 255 when the length is falsy |
| Platform.IntegerDeclaration | DBAL/Vertica/Platform/VerticaPlatform.php:360-367 | the declaration is `AUTO_INCREMENT` exactly when autoincrement is non-empty, and `INTEGER` otherwise |
| Platform.SmallIntDeclaration | DBAL/Vertica/Platform/VerticaPlatform.php:382-385 | smallint declares exactly as integer |
| Platform.SequenceCacheSQL | DBAL/Vertica/Platform/VerticaPlatform.php:422-429 | the cache clause is non-empty exactly when the cache is above one, and is then ` CACHE n` |
| Platform.CreateSequenceSQL | DBAL/Vertica/Platform/VerticaPlatform.php:406-413 | CREATE SEQUENCE carries ` CACHE n` exactly when the cache is above one, and nothing otherwise |
| Platform.Dedup | DBAL/Vertica/Platform/VerticaPlatform.php:597 | the primary columns keep every name and lose every duplicate |
| Platform.PrimaryKeyClause | DBAL/Vertica/Platform/VerticaPlatform.php:596-599 | a PRIMARY KEY clause appears exactly when the primary columns are non-empty |
| Platform.PartitionClause | DBAL/Vertica/Platform/VerticaPlatform.php:601 | a PARTITION BY clause appears exactly when the partition is set and non-empty |
| Platform.Declarations | DBAL/Vertica/Platform/VerticaPlatform.php:594 | one declaration per column |
| Platform.CreateTableStatement | DBAL/Vertica/Platform/VerticaPlatform.php:603 | the statement starts with `CREATE TABLE` and the table name |
| Platform.ForeignKeyStatementsEach | DBAL/Vertica/Platform/VerticaPlatform.php:605-609 | one foreign-key statement follows per foreign key, in order |
| Platform.ColumnDataOf | DBAL/Vertica/Platform/VerticaPlatform.php:488-499 | a column uses its quoted name; a string column with a null length gets 255; it is primary exactly when its name is a primary column |
| Platform.ColumnsOf | DBAL/Vertica/Platform/VerticaPlatform.php:474-502 | one column entry per table column, in order |
| Platform.CreateTableSQLShape | DBAL/Vertica/Platform/VerticaPlatform.php:520-611 | the first statement creates the table; the foreign-key statements follow, one per key and in order, only when the flags ask for them; the comments come last |
| Platform.OtherIndexesIgnored | DBAL/Vertica/Platform/VerticaPlatform.php:459-469 | indexes other than the primary one do not change the statements |
| Platform.GetCreateTableSQL | DBAL/Vertica/Platform/VerticaPlatform.php:443-533 | non-integer flags throw, a table without columns throws, and otherwise the loops build exactly the specified statements |
| Platform.PrimaryLoop | DBAL/Vertica/Platform/VerticaPlatform.php:459-469 | the index loop keeps the columns of the last primary index |
| Platform.ColumnLoop | DBAL/Vertica/Platform/VerticaPlatform.php:474-502 | the column loop builds exactly the specified column entries |
| Platform.CreateTable | DBAL/Vertica/Platform/VerticaPlatform.php:592-611 | the statement list is the CREATE TABLE statement followed by the foreign-key statements |
| Platform.CommentLoop | DBAL/Vertica/Platform/VerticaPlatform.php:522-530 | one COMMENT ON COLUMN statement per column with a non-empty comment, in column order |
| Platform.DropColumnStatements | DBAL/Vertica/Platform/VerticaPlatform.php:645-650 | a removed column emits DROP DEFAULT only when it has a default, then `SELECT MAKE_AHM_NOW();`, then `DROP COLUMN ... CASCADE` |
| Platform.WithDefaultAppend | DBAL/Vertica/Platform/VerticaPlatform.php:641-651 | the count of columns with a default adds up over concatenated lists |
| Platform.DropColumnsCount | DBAL/Vertica/Platform/VerticaPlatform.php:641-651 | removed columns emit two statements each plus one per column with a default |
| Platform.DropColumnsInOrder | DBAL/Vertica/Platform/VerticaPlatform.php:641-651 | each removed column's statements appear as one contiguous block, in column order |
| Platform.RemovedColumnsSQL | DBAL/Vertica/Platform/VerticaPlatform.php:641-651 | the removed-column loop emits exactly the specified statements |
| Common.RTrimIdempotent | DBAL/Vertica/Schema/VerticaSchemaManager.php:60 | stripping the size characters twice strips nothing more |
| SchemaManager.StripSize | DBAL/Vertica/Schema/VerticaSchemaManager.php:60 | the stripped type is a prefix of the data type and never ends in `()0123456789,` |
| SchemaManager.StripSizeSuffix | DBAL/Vertica/Schema/VerticaSchemaManager.php:60 | stripping removes exactly a trailing run of size characters |
| SchemaManager.StripSizeExamples | DBAL/Vertica/Schema/VerticaSchemaManager.php:59-60 | `numeric(10,2)` reads as `numeric` and `varchar(65000)` as `varchar` |
| SchemaManager.Int8ReadsAsInt | DBAL/Vertica/Schema/VerticaSchemaManager.php:60-65 | `int8` loses its digit and reads as `int`, which still maps to `integer` |
| SchemaManager.LastClose | DBAL/Vertica/Schema/VerticaSchemaManager.php:69 | a closing quote is searched within the bounds |
| SchemaManager.LastCloseGreatest | DBAL/Vertica/Schema/VerticaSchemaManager.php:69 | the greedy match closes at the last quote that ends the text or is followed by `::` |
| SchemaManager.LastCloseSkips | DBAL/Vertica/Schema/VerticaSchemaManager.php:69 | positions without a quote never close the match |
| SchemaManager.CaptureMeans | DBAL/Vertica/Schema/VerticaSchemaManager.php:69-71 | a captured default holds no newline and is the text between the opening quote and the last closing quote, followed by nothing or by a `::` cast |
| SchemaManager.CaptureQuoted | DBAL/Vertica/Schema/VerticaSchemaManager.php:69-71 | `'x'` captures x when x holds no newline |
| SchemaManager.CaptureCast | DBAL/Vertica/Schema/VerticaSchemaManager.php:69-71 | `'x'::type` captures x when neither holds a newline |
| SchemaManager.DefaultOf | DBAL/Vertica/Schema/VerticaSchemaManager.php:69-77 | no default reads as null; only a boolean column reads a boolean default; a boolean column reads a text default only when it is empty |
| SchemaManager.CastDefault | DBAL/Vertica/Schema/VerticaSchemaManager.php:69-71 | a non-boolean column's `'x'::type` default reads as x |
| SchemaManager.BooleanDefault | DBAL/Vertica/Schema/VerticaSchemaManager.php:75-77 | a boolean column's non-empty default, quoted or not, reads as true exactly when it is `true` |
| SchemaManager.NullDefault | DBAL/Vertica/Schema/VerticaSchemaManager.php:72-74 | a default starting with NULL in any case reads as null |
| SchemaManager.PortableColumn | DBAL/Vertica/Schema/VerticaSchemaManager.php:57-96 | the column fails exactly when its read type is unmapped; otherwise the type is the one named in the comment if any, else the mapped one; the comment loses that type's `(DC2Type:…)` marker; fixed is true for char, false for varchar and null otherwise; name and length are the row's, notnull is the negated nullable flag, primary exactly for constraint `p`, autoincrement the identity flag, encoding defaults to `AUTO`, and the default is read as specified |
| SchemaManager.CommentTypeRead | DBAL/Vertica/Schema/VerticaSchemaManager.php:65-67 | a type named in the comment wins over the catalog type, and a comment that is only its marker reads back empty |
| SchemaManager.VarcharThreshold | DBAL/Vertica/Schema/VerticaSchemaManager.php:61-86 | a varchar reads as `text` exactly when its maximum length is at least 65000, and as a non-fixed `string` otherwise |
| SchemaManager.CharIsFixed | DBAL/Vertica/Schema/VerticaSchemaManager.php:86 | a char column reads as a fixed `string` |
| SchemaManager.Position | DBAL/Vertica/Schema/VerticaSchemaManager.php:117 | a found key sits at the returned position, and a missing key is nowhere |
| SchemaManager.GroupedMeans | DBAL/Vertica/Schema/VerticaSchemaManager.php:110-128 | the groups have distinct keys, one per key present in the rows; each is unique, named and typed by its key's first row, and holds that key's columns in row order |
| SchemaManager.KeyStep | DBAL/Vertica/Schema/VerticaSchemaManager.php:111-127 | one more row keeps earlier first rows and appends its column to its key |
| SchemaManager.NoFirstNoColumns | DBAL/Vertica/Schema/VerticaSchemaManager.php:111-127 | a key no row has collects no columns |
| SchemaManager.AddRowNew | DBAL/Vertica/Schema/VerticaSchemaManager.php:117-124 | a row with a new key creates a group and keeps the grouping correct |
| SchemaManager.AddRowNewKeys | DBAL/Vertica/Schema/VerticaSchemaManager.php:117-124 | after a new key, the keys with a group are exactly the keys with a row |
| SchemaManager.AddRowNewEntries | DBAL/Vertica/Schema/VerticaSchemaManager.php:117-124 | after a new key, every group still matches its first row and its columns |
| SchemaManager.AddRowExisting | DBAL/Vertica/Schema/VerticaSchemaManager.php:125-127 | a row with a known key appends its column and keeps the grouping correct |
| SchemaManager.PositionAppend | DBAL/Vertica/Schema/VerticaSchemaManager.php:117-124 | a new group does not move the position of another key |
| SchemaManager.PositionUpdate | DBAL/Vertica/Schema/VerticaSchemaManager.php:125-127 | appending a column does not change which keys have a group |
| SchemaManager.TotalColumnsAdd | DBAL/Vertica/Schema/VerticaSchemaManager.php:126 | appending a column adds one to the column total |
| SchemaManager.GroupedColumnCount | DBAL/Vertica/Schema/VerticaSchemaManager.php:110-128 | the groups hold as many columns in total as there are rows |
| SchemaManager.PortableTableIndexesList | DBAL/Vertica/Schema/VerticaSchemaManager.php:108-150 | the loop groups the rows as specified, with one index per group and as many columns in total as rows |
| SchemaManager.ReadPaths | DBAL/Vertica/Schema/VerticaSchemaManager.php:178-182 | one path per piece, each trimmed |
| SchemaManager.SearchPaths | DBAL/Vertica/Schema/VerticaSchemaManager.php:172-183 | one path per comma-separated piece of the shown search path, each trimmed |
| SchemaManager.TrimClean | DBAL/Vertica/Schema/VerticaSchemaManager.php:182 | trimming an already trimmed path changes nothing |
| SchemaManager.PathKept | DBAL/Vertica/Schema/VerticaSchemaManager.php:178-182 | a trimmed path without `"` survives user expansion and trimming unchanged |
| SchemaManager.ReadPathsKept | DBAL/Vertica/Schema/VerticaSchemaManager.php:178-182 | trimmed paths without `"` are read back unchanged |
| SchemaManager.SearchPathsRoundTrip | DBAL/Vertica/Schema/VerticaSchemaManager.php:172-183 | joining trimmed paths with `,` and reading them back gives the same paths |
| SchemaManager.UserTokenExpanded | DBAL/Vertica/Schema/VerticaSchemaManager.php:178-180 | `"$user"` becomes the username when one is set, and stays otherwise |
| SchemaManager.Existing | DBAL/Vertica/Schema/VerticaSchemaManager.php:213-215 | filtering never adds paths |
| SchemaManager.ExistingMembers | DBAL/Vertica/Schema/VerticaSchemaManager.php:213-215 | the existing paths are exactly the search paths that are namespace names |
| SchemaManager.ExistingAll | DBAL/Vertica/Schema/VerticaSchemaManager.php:213-215 | when every path exists, the filter keeps them all in order |
| SchemaManager.PortableName | DBAL/Vertica/Schema/VerticaSchemaManager.php:223-234 | a table in the first existing schema keeps its bare name, and any other becomes `schema.name` |
| SchemaManager.PortableNameSplits | DBAL/Vertica/Schema/VerticaSchemaManager.php:223-234 | splitting a portable name gives back the table's schema and name; a bare name gets `public`, which is right when `public` is the first existing schema |
| SchemaManager.VerticaSchemaManager.constructor | DBAL/Vertica/Schema/VerticaSchemaManager.php:191-198 | a new schema manager has no cached paths |
| SchemaManager.VerticaSchemaManager.DetermineExistingSchemaSearchPaths | DBAL/Vertica/Schema/VerticaSchemaManager.php:208-216 | the cache becomes the search paths that are namespace names |
| SchemaManager.VerticaSchemaManager.GetExistingSchemaSearchPaths | DBAL/Vertica/Schema/VerticaSchemaManager.php:191-198 | the existing paths are computed once and served from the cache afterwards |
| SchemaManager.VerticaSchemaManager.PortableTableDefinition | DBAL/Vertica/Schema/VerticaSchemaManager.php:223-234 | the portable name is taken against the cached existing paths, filling the cache first when it is empty |

## Left out

- **ODBC calls.** These are `odbc_connect`, `odbc_prepare`, `odbc_execute`,
  the fetch calls, `odbc_autocommit`, `odbc_commit`, `odbc_rollback` and the
  error calls. Each becomes a parameter that says whether the call succeeded
  or what it returned, because they are foreign I/O.
- **Doctrine's placeholder scanner.** `SQLParserUtils::getPlaceholderPositions`
  is taken as its output: the positional markers and the named (offset, name)
  pairs in order. It depends on SQL lexing that is not part of this model.
- **Doctrine's parent Connection.** Its transaction nesting counter is a field.
  The `connect()` it runs before each query is modelled as `ConnectForQuery`
  wherever the shard manager queries the connection. Its query methods are
  otherwise reduced to what the shard manager relies on: the statement goes
  to the live handle.
- **The schema manager's collaborators.** `getSchemaNames`,
  `setSchemaSearchPaths`, `fetchAll`, `executeQuery` and `listNamespaceNames`
  are given as functions of the shard and the schema, or as recorded sends.
  They are defined outside the adapter. Only the caller's statements are
  recorded. The queries these collaborators issue on their own, such as
  listing the schemas or reading the current schema, are not.
- **getUpdateSchemaSql.** It compares the current schema with the target
  through Doctrine's `Comparator` and `SchemaDiff`. Its result is the `diffOf`
  input, because that machinery is outside the adapter.
- **selectShardByName.** It only combines `connect` and
  `setSchemaSearchPaths`, and it records a field nothing else reads.
- **Doctrine type helpers.** `Type::getType`, the type's SQL declaration, the
  default clause, the foreign-key declaration and the comment-type extraction
  are inputs. `PortableColumn` takes the comment type as given and does not
  check it names a registered type.
- **Platform.ColumnDeclaration.** Its inline-comment branch is left out,
  because this platform reports no inline column comments.
- **Event listeners.** This covers index definition, create-table column,
  create table, alter table and `postConnect`. The model is the behaviour with
  no listener registered.
- **getAlterTableSQL.** Only its removed-columns branch is modelled. The added,
  changed and renamed column branches build on Doctrine's column diffs and
  are not part of this model. `getCreateIndexSQL` is not part of this model.
- **Platform.ColumnsOf.** Two columns with the same quoted name overwrite one
  another in the source's `$columns` array. The model keeps both, because
  Doctrine's `Table` already rejects duplicate column names.
- **Platform.SplitTableName.** A null table name is not modelled; its
  parameter is a string.
- **SchemaManager.LastClose.** The PCRE `$` also matches before a final
  newline. The model treats `$` as the end of the text.
- **SchemaManager.Capture.** A default whose only newline is its last
  character still matches in PCRE, through `$`. The model rejects every
  text that holds a newline, as `.` does anywhere else.
- **Statement.ShapeRow.** In the BOTH mode the source fills one PHP array,
  first with `$row[]` and then with `$row[$name]`. A column whose name is a
  decimal integer becomes an integer key there. It overwrites a positional
  entry and moves the next positional key. The model keeps the positional
  values and the named entries apart, so it does not show that collision.
- **Statement.Shape.** The BOTH-mode collision of numeric column names is
  not modelled, as for `ShapeRow`.
- **Statement.VerticaStatement.Fetch.** On a statement that was never
  prepared, or whose prepare failed, `odbc_fetch_row` receives null or false,
  which is a TypeError in PHP 8. The model fetches from the cursor, which is
  empty then, and answers false.
- **Statement.VerticaStatement.FetchColumn.** It has the same gap as `Fetch`:
  without a prepared statement the model answers false where PHP throws a
  TypeError.
- **SchemaManager.PortableTableIndexesList.** It models the grouping array
  the adapter builds. Doctrine's `Index`, which the parent class builds from
  it, keys columns by name, so a column that repeats within one index
  collapses there. The model keeps one column per row.
- **SchemaManager.GroupedColumnCount.** It counts the columns of the
  grouping array, one per row. It does not count the distinct names that
  Doctrine's `Index` keeps.
- **Statement.VerticaStatement.BindParam.** The source binds the variable by
  reference, so a change to the variable before `execute` changes the value
  sent. The model stores the value at bind time, because the caller's
  variables are not part of the model.
- **ShardConnection.Registry.** Shard ids are read by `ShardKey`. It accepts
  ints, floats and strings of decimal digits, and it keys a digit string by
  the number it spells. PHP's `is_numeric` also accepts strings such as
  `"1.5"`, `" 2"`, `"1e3"` and `"+3"`, and a string like `"007"` stays a
  string key distinct from `7`. The model rejects the former as invalid ids
  and reports the latter as a duplicate of 7. Keys in the model are integers
  throughout, which is what `connect` uses after its `(int)` cast.
- **ShardConnection.Extend.** The per-shard id check uses `ShardKey`, with
  the same gap as `Registry`.
- **ShardConnection.RegistryAccepts.** Acceptance is narrower than
  `is_numeric`, with the same gap as `Registry`.
- **ShardConnection.PoolingShardConnection.Create.** It builds the registry
  through `ShardKey`, with the same gap as `Registry`.
- **ShardConnection.ShardKey.** It covers ints, floats and digit strings
  only, as described for `Registry`.
- **Loose PHP comparison.** `in_array` and `==` compare numeric strings as
  numbers. The model compares texts exactly.
- **ShardConnection.PoolingShardConnection.Connect.** Shard ids are integers
  in the model. The strict `===` comparison of a string id with the int active
  id, and the `(int)` cast, are not modelled.
- **ShardManager.ConnectText.** A float setting is interpolated as its integer
  part. PHP's decimal float formatting is not modelled.
- **ShardManager.PoolingShardManager.GetShards.** It returns the registered
  ids as integers. The source returns each shard's raw `id` value, which may
  be a numeric string or a float.
- **The persistent-connection branch.** It reads an undefined variable, so it
  never runs.
- **lastInsertId and the error accessors.** `lastInsertId`, `errorCode` and
  `errorInfo` are left out; they are backend queries with no logic.
- **Code outside the core.** The DQL functions, `SchemaTool`, `fputtsv`,
  `VerticaException` and the catalog and audit SQL constants are fixed text
  or thin delegations.
- **Allocation.** The distribution of `array_rand` is not modelled. The pick
  is a parameter, and any registered shard can be picked.
