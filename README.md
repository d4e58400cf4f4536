# sonic-telemetry path translation, in Dafny

A model of the core of the SONiC telemetry server, a gNMI/gNOI server written
in Go. It serves SONiC's Redis databases (COUNTERS_DB, CONFIG_DB, STATE_DB,
APPL_DB and the others), plus a set of non-database readings under the
`OTHERS` target, to gNMI Get, Set and Subscribe clients. The model covers the
part that decides what a request means:

- turning a requested gNMI path into concrete database locations: table,
  key and field (`tablePath` records);
- the per-leaf handlers behind the virtual COUNTERS paths, which expand port
  and queue wildcards and translate vendor port aliases into SONiC names;
- the small parsers, rules and loops around those paths.

One Dafny module models one Go file. Where the repository holds two
revisions of the same package code, each revision is its own module.

| module | Go file |
|---|---|
| `VdbTrie` | virtual_database_client/trie.go: the path trie with the gNMI wildcards `*` (one level) and `...` (any number of levels) |
| `VdbHandlerFunc` | virtual_database_client/handler_func.go: the handler table, TriePopulate, searchPathTrie |
| `VdbHandlerPfcwd`, `VdbHandlerPortCounter`, `VdbHandlerPfcCounter` | virtual_database_client/handler_*.go |
| `VdbHandlerQueueCounter` | new_sonic_data_client/handler_queue_counter.go |
| `VdbMapInit` | virtual_database_client/map_init.go: the package maps and their loaders |
| `VdbPath`, `VdbDbClient` | virtual_database_client/path.go and db_client.go |
| `VdbTypes` | the `tablePath` record and the key separator shared by the handlers |
| `SdcPath`, `SdcGsPath`, `SdcDbTypes` | sonic_data_client/path.go |
| `SdcVpath` | sonic_data_client/vpath.go |
| `SdcVirtualDb` | sonic_data_client/virtual_db.go |
| `SdcDbClient` | sonic_data_client/db_client.go |
| `SdcNonDbClient`, `SdcSystem`, `SdcBgp` | sonic_data_client/non_db_client.go, system.go, bgp.go |
| `TranslUtils`, `TranslDataClient` | transl_utils/transl_utils.go, src/sonic_data_client/transl_data_client.go |
| `GnmiServer` | gnmi_server/server.go: the Get and Set handlers |
| `SonicProto` | proto/sonic.pb.go: the Target name/number tables |
| `Gnmi`, `Redis`, `GoMaps`, `GoStrings`, `Wrappers` | the gNMI messages, an abstract Redis, Go map iteration, Go's `strings`/`strconv` |

Modelling conventions:

- **Redis.** A database is a key listing plus a hash per key. KEYS, EXISTS,
  HGET and HGETALL read it, so every read is a function of its input. KEYS
  is read as a literal prefix (`name*`) or a literal key; Redis's glob
  matching is not modelled (see "## Left out").
- **Go map iteration.** A loop over a Go map visits the keys in an
  unspecified order. The methods that do so pick an arbitrary visiting order
  of the keys and loop over it. Their contracts hold for every order, and
  the lemmas say which results do not depend on it.
- **Panics and errors.** A Go runtime panic (index out of range, nil
  dereference, failed type assertion) is an outcome of its own (`Panic`,
  `Panicked`), distinct from a returned error.
- **Pointer-keyed maps.** Maps keyed by `*gnmipb.Path` pointers
  (`pathG2S`, `path2URI`, `path2Getter`) are modelled in one of two ways: by
  the position of the path in the request, or as a sequence of entries where
  every write adds a fresh entry.
- **Shared helpers.** sonic_data_client/db_client.go repeats the code of
  `GetTableKeySeparator`, `Compare`, `ValToResp` and `gnmiFullPath` from
  virtual_database_client. Those are modelled once, in `VdbTypes`,
  `VdbDbClient` and `VdbPath`.
- **Environment as parameters.** Clocks, command output, files, translib
  and the data clients a handler calls through are parameters of the
  operations that use them.

## Model

| member | source | states |
|---|---|---|
| SonicProto.TableSizes | proto/sonic.pb.go:33-54 | Target_value holds the nine target names and Target_name exactly the numbers 0-6 and 100 |
| SonicProto.NameInvertsValue | proto/sonic.pb.go:25-54 | Target_name inverts Target_value on every number; FLEX_COUNTER_DB is the one name not given back, because it shares 5 with PFC_WD_DB |
| SonicProto.OthersIsTheOnlyNonDatabase | proto/sonic.pb.go:29-54 | OTHERS is the only target whose number is not a Redis database number below 100 |
| VdbTypes.CopyWithName | virtual_database_client/handler_pfcwd.go:11-18 | deepcopy plus the name-key write: same element names and keys except the new name key at the given position, no origin or target |
| VdbTypes.GetTableKeySeparator | virtual_database_client/db_client.go:208-225 | an error exactly for a name that is not a target; otherwise `|` exactly for CONFIG_DB and STATE_DB and `:` for the rest |
| VdbTypes.CountersSeparator | virtual_database_client/db_client.go:216-223 | the COUNTERS_DB separator is the one-character `:` |
| VdbTrie.AddChild | virtual_database_client/trie.go:33-44 | a missing key gets one new node below the current one: named after the key, one level deeper, not terminating, no children, the current node as parent, the entry's meta data; existing nodes keep everything but the parent's child map |
| VdbTrie.Insert | virtual_database_client/trie.go:30-50 | Add's result: the node arena only grows and the returned node lies in it |
| VdbTrie.FollowAppend | virtual_database_client/trie.go:45 | walking one more key is one more child step from where the shorter walk ended |
| VdbTrie.InsertReaches | virtual_database_client/trie.go:30-50 | after Add, walking the keys from the root reaches the returned node, which is terminating and carries the new meta data |
| VdbTrie.InsertExisting | virtual_database_client/trie.go:33-48 | Add along a path that already exists creates no node and changes only term and meta of the node the path ends at |
| VdbTrie.InsertTouchesOnlyEnd | virtual_database_client/trie.go:35-48 | only the end node changes term and meta; every node created on the way is non-terminating and carries the new meta data |
| VdbTrie.InsertKeepsOld | virtual_database_client/trie.go:33-46 | Add never replaces an existing child: every old child link stays, so every old walk reaches the same node; old nodes keep their parent, and all but the end node keep term, meta data and depth |
| VdbTrie.InsertFreshNodes | virtual_database_client/trie.go:35-43 | Add creates at most one node per key, all at new positions; each hangs below an earlier node, its parent, under its own name; all but the end node are non-terminating and carry the new meta data |
| VdbTrie.InsertKeepsShape | virtual_database_client/trie.go:35-45 | Add keeps the name and depth of every node already present |
| VdbTrie.FollowEnds | virtual_database_client/trie.go:36-37 | the node reached by a literal walk is as many levels below its start as there are keys and is named after the last key |
| VdbTrie.InsertAll | virtual_database_client/handler_func.go:43-52 | populating the trie from a table adds its entries in order from the root, and the arena only grows |
| VdbTrie.InsertStepTerm | virtual_database_client/trie.go:47-48 | after one Add a terminating node is the new end, or was terminating before with the same name and depth |
| VdbTrie.InsertStepKeeps | virtual_database_client/trie.go:30-50 | a later Add whose path ends elsewhere keeps what an earlier path reaches |
| VdbTrie.InsertAllTerm | virtual_database_client/handler_func.go:43-52 | after populating a trie with no terminating node, every terminating node ends one of the table's paths |
| VdbTrie.InsertAllReaches | virtual_database_client/handler_func.go:43-52 | each path of a table whose paths do not end at one another's nodes leads to a terminating node carrying that entry's meta data |
| VdbTrie.OpenWhenUnblocked | virtual_database_client/trie.go:85-91 | a walk is open to the search when it starts at a non-terminating node and passes no terminating node |
| VdbTrie.OpenFromEnds | virtual_database_client/trie.go:85-91 | in a populated trie every entry's path is open to the search |
| VdbTrie.InsertAllFinds | virtual_database_client/trie.go:73-113 | in a populated trie, searching for an entry's literal path reports exactly one node, which carries that entry's meta data |
| VdbTrie.InsertAlong | virtual_database_client/trie.go:32-45 | keys that already lead somewhere only walk: Add continues from the node they reach with the remaining keys |
| VdbTrie.AddLeaf | virtual_database_client/trie.go:33-49 | Add of one key that is not yet a child appends exactly one terminating leaf with the key's name, depth one more, the parent link and the meta data, and links it from the parent |
| VdbTrie.FindTerminating | virtual_database_client/trie.go:77-91 | every node the search reports is a terminating node |
| VdbTrie.SumFindPick | virtual_database_client/trie.go:100-106 | the result of the loops over children does not depend on the order the children are visited in |
| VdbTrie.SumFindAdd | virtual_database_client/trie.go:100-106 | visiting one more child adds exactly that child's reports |
| VdbTrie.FindLiteral | virtual_database_client/trie.go:107-111 | keys without `*` or `...` report at most the node a literal walk reaches |
| VdbTrie.FindLiteralComplete | virtual_database_client/trie.go:77-111 | a literal path to a terminating node that passes no terminating node on the way is reported exactly once |
| VdbTrie.FindLiteralPrefix | virtual_database_client/trie.go:107-111 | literal leading keys only walk down: the search goes on from the node they reach |
| VdbTrie.EllipsisReaches | virtual_database_client/trie.go:94-102 | a sole `...` reports every terminating node reachable along an open path, at any depth |
| VdbTrie.StarOneLevel | virtual_database_client/trie.go:103-106 | `*` as the last key reports exactly the terminating children of a non-terminating node, one level down |
| VdbTrie.StopsAtTerminating | virtual_database_client/trie.go:84-91 | a terminating node with keys left is reported only for a sole `...`, and nothing below it is ever visited |
| VdbTrie.PathTrie.constructor | virtual_database_client/trie.go:21-26 | NewPathTrie: a lone root of depth 0 and size 0 |
| VdbTrie.PathTrie.Add | virtual_database_client/trie.go:30-50 | the trie's nodes become those of Insert on the old nodes and the returned node is its end node; size is unchanged |
| VdbTrie.FindPathNode | virtual_database_client/trie.go:73-113 | appends to the result exactly the nodes the search specification reports, as a multiset |
| VdbTrie.FindInChildren | virtual_database_client/trie.go:100-106 | the loop over a node's children, in any visiting order, appends the sum of the children's reports |
| VdbPath.GnmiFullPath | virtual_database_client/path.go:19-29 | the full path keeps the path's origin and no target; its elements are the prefix's followed by the path's, or none when the path has none |
| VdbPath.FullPathNames | virtual_database_client/path.go:25-27 | the full path's element names are the prefix's names followed by the path's |
| VdbPath.TrieKeysIgnoreKeys | virtual_database_client/path.go:44-50 | the trie search keys depend only on the prefix's target and the path's element names: element keys and prefix elements never change which handlers run |
| VdbPath.PopulateNewtablePath | virtual_database_client/path.go:44-58 | builds the keys target + element names and runs the handlers the trie search reaches; the outcome is the search specification's, including its first error |
| VdbPath.PopulateAlltablePaths | virtual_database_client/path.go:31-39 | searches the paths in order: success means every path succeeded and every write comes from one of them; a failure is the first failing path's, with the earlier paths' writes kept |
| VdbPath.PathStep | virtual_database_client/path.go:32-36 | one more successful path keeps the loop's progress invariant |
| VdbPath.WritesFromPaths | virtual_database_client/path.go:32-36 | after path m, the mapping only grew and every new entry comes from one of the first m + 1 paths |
| VdbPath.PathFailed | virtual_database_client/path.go:34-35 | a failing path ends the loop with that path's failure |
| VdbPath.SelectedFields | virtual_database_client/path.go:109-127 | the selected fields are exactly the hash's fields that match a pattern or are listed, each with the hash's value; a listed field the hash lacks is skipped |
| VdbPath.TableData2Msi | virtual_database_client/path.go:98-129 | success exactly when the table's database has a client (otherwise a nil dereference); on success the map gains exactly the table's selection |
| VdbPath.CopyMatchedFields | virtual_database_client/path.go:110-118 | the first loop, in any map order, copies exactly the fields some pattern matches |
| VdbPath.CopyListedFields | virtual_database_client/path.go:120-127 | the second loop copies every listed field the hash holds and skips the missing ones |
| VdbPath.CopyIfMatched | virtual_database_client/path.go:111-117 | the pattern loop for one field copies it exactly when some pattern matches |
| VdbPath.MergeAllKeys | virtual_database_client/path.go:86-96 | a field is in the merged map exactly when some table path selects it |
| VdbPath.MergeAllLast | virtual_database_client/path.go:89-94 | a merged field holds the value selected by the last table path that selects it |
| VdbPath.TableData2TypedValue | virtual_database_client/path.go:86-96 | success exactly when every table path's database has a client; the result is the merge of all selections in order |
| VdbPath.MergeChanges | virtual_database_client/path.go:179-190 | the last-seen map takes every new value, and the output map receives exactly the fields that were unseen or changed |
| VdbPath.ChangedEmpty | virtual_database_client/path.go:179-190 | nothing is reported exactly when every new field was seen with the same value; merging the same read twice reports nothing the second time |
| VdbPath.OnKeyspaceMessage | virtual_database_client/path.go:168-192 | hset, hsetnx and hmset re-read the table path and merge it (failing exactly when its database has no client); any other event changes nothing |
| VdbPath.KeyspacePatternsDistinct | virtual_database_client/path.go:248-249 | two table paths subscribe to the same keyspace pattern exactly when their database numbers and keys are equal |
| VdbPath.SharedDbNumber | virtual_database_client/path.go:248 | PFC_WD_DB and FLEX_COUNTER_DB subscriptions share their pattern; COUNTERS_DB's differs |
| VdbDbClient.Compare | virtual_database_client/db_client.go:67-76 | 1, 0 or -1 exactly as the value's timestamp is later than, equal to or earlier than the other's |
| VdbDbClient.CompareOrders | virtual_database_client/db_client.go:67-76 | the queue's order is a total preorder: antisymmetric, transitive and reflexive |
| VdbDbClient.FatalValue | virtual_database_client/path.go:131-138 | enqueFatalMsg queues a value carrying the message and the time, not a sync marker |
| VdbDbClient.SyncValue | virtual_database_client/db_client.go:155-160 | the value queued once every path has been sent carries only the time and the sync flag |
| VdbDbClient.ValToResp | virtual_database_client/db_client.go:266-297 | a sync value becomes the sync response; otherwise an error exactly when the fatal text is non-empty, carrying that text; otherwise one notification with the value's timestamp and prefix and one update of its path and value |
| VdbDbClient.QueuedMessagesRespond | virtual_database_client/db_client.go:268-297 | a queued fatal message reaches the subscriber as the error it carries, the sync marker as the sync response |
| VdbDbClient.MsiJson | virtual_database_client/path.go:60-81 | the JSON object a field map is marshalled to has exactly the map's fields, each holding its value as a string |
| VdbDbClient.DbClient.Get | virtual_database_client/db_client.go:169-201 | the path mapping's first error is returned; no mapped path is an error; otherwise one value per mapped path, in any order: the request prefix, the path, the request time and the merged fields; an unconnected database panics |
| VdbDbClient.ReadValues | virtual_database_client/db_client.go:185-197 | the loop yields one value per entry in visiting order, or panics exactly when some entry names an unconnected database |
| VdbDbClient.GetValues | virtual_database_client/db_client.go:185 | whichever order the map is visited in, the same entries are read and the values are a reordering of one another |
| VdbDbClient.NewDbClient | virtual_database_client/db_client.go:96-124 | the four package maps are loaded in order, each only when empty, and the first alias or PFC-WD load error stops creation; the client exists exactly when the result is success and holds the request's prefix and paths |
| VdbDbClient.DbClient.constructor | virtual_database_client/db_client.go:121-123 | the client holds the request prefix and paths |
| VdbMapInit.GroupQueues | virtual_database_client/map_init.go:35-42 | the grouping loop, in any map order, files every queue key under the port before its first `:`, with its oid, and nothing else |
| VdbMapInit.GroupStep | virtual_database_client/map_init.go:36-41 | one more key keeps the grouping of the keys handled so far |
| VdbMapInit.PfcIndices | virtual_database_client/map_init.go:138-146 | the indices are exactly the queue numbers of the enabled priorities that have a mapping; unmapped priorities are skipped |
| VdbMapInit.QueueMapKeys | virtual_database_client/map_init.go:155-164 | a port's PFC-WD queue map holds the keys `port:index` of the enabled indices and nothing else |
| VdbMapInit.GetPfcwdMap | virtual_database_client/map_init.go:81-168 | the result is the PFC-WD outcome: no PFC_WD_TABLE or PORT_QOS_MAP key or an empty queue map gives an empty map without error, a missing pfc_enable field or queue key an error, otherwise every PFC-WD port with the oids of its enabled queues |
| VdbMapInit.PfcwdNames | virtual_database_client/map_init.go:106-109 | an empty queue map for exactly the ports named by the PFC_WD_TABLE keys |
| VdbMapInit.EnabledIndices | virtual_database_client/map_init.go:138-146 | the priority loop computes the indices of the enabled, mapped priorities in priority order |
| VdbMapInit.FillPfcwdQueues | virtual_database_client/map_init.go:155-164 | succeeds exactly when every port knows every enabled queue key, and then fills every port's queue map |
| VdbMapInit.PortQueues | virtual_database_client/map_init.go:156-163 | the queue map of one port, or an error exactly when one of its queue keys is unknown |
| VdbMapInit.GetAliasMap | virtual_database_client/map_init.go:171-205 | an error with no maps exactly when some PORT key lacks an alias; otherwise alias-to-name and name-to-alias over the PORT keys |
| VdbMapInit.AliasRoundTrip | virtual_database_client/map_init.go:190-201 | with distinct PORT keys, alias to name and back gives the alias again, and every port's name maps to the alias its hash holds |
| VdbMapInit.NameComesFromKey | virtual_database_client/map_init.go:199 | every name in the alias map is a PORT key without its `PORT|` prefix |
| VdbMapInit.PackageMaps.constructor | virtual_database_client/map_init.go:10-24 | all package maps start empty |
| VdbMapInit.PackageMaps.InitCountersPortNameMap | virtual_database_client/map_init.go:47-56 | COUNTERS_PORT_NAME_MAP is loaded only when the map is empty; the other maps are unchanged |
| VdbMapInit.PackageMaps.InitCountersQueueNameMap | virtual_database_client/map_init.go:26-45 | COUNTERS_QUEUE_NAME_MAP is grouped by port only when the map is empty; the other maps are unchanged |
| VdbMapInit.PackageMaps.InitAliasMap | virtual_database_client/map_init.go:58-67 | both alias maps are loaded only when alias2name is empty; a failed load is an error and leaves them empty |
| VdbMapInit.PackageMaps.InitCountersPfcwdNameMap | virtual_database_client/map_init.go:69-78 | the PFC-WD map is loaded only when empty, with the getPfcwdMap outcome; the other maps are unchanged |
| VdbMapInit.QueueMap | virtual_database_client/map_init.go:155-164 | a port's PFC-WD queue map holds the queue key of every enabled index, each with its oid from COUNTERS_QUEUE_NAME_MAP |
| VdbHandlerFunc.Dispatch | virtual_database_client/handler_func.go:58-60 | calling a node's handler func: the outcome of that handler's specification (only its own entries appended, an allowed status, everything it stands for written on success) |
| VdbHandlerFunc.TriePopulate | virtual_database_client/handler_func.go:42-51 | the trie becomes the insertion of every path of path2HdlrFuncTbl, in table order, with its handler |
| VdbHandlerFunc.Init | virtual_database_client/handler_func.go:68-71 | init makes a new trie holding exactly the populated handler trie |
| VdbHandlerFunc.TableSeparated | virtual_database_client/handler_func.go:21-39 | no path of the table ends on the way to another and none holds `*` or `...` |
| VdbHandlerFunc.TablePathFindsItsHandler | virtual_database_client/handler_func.go:21-56 | searching the populated trie for a table path reports exactly one node, and it carries that path's handler |
| VdbHandlerFunc.SearchPathTrie | virtual_database_client/handler_func.go:53-66 | runs the handlers of the reported nodes in turn: every write is an entry of a reported node's handler; success means every reported handler succeeded and wrote all it stands for; a failure is one reported node's (a node without a handler is a crash); a search that reports nothing succeeds without writes |
| VdbHandlerFunc.AllDoneGrows | virtual_database_client/handler_func.go:58-64 | handlers that finished stay finished as later handlers append more |
| VdbHandlerFunc.NodeStep | virtual_database_client/handler_func.go:58-63 | one turn of the node loop extends the record of writes and finished nodes, or stops with the failing node's status |
| VdbHandlerPfcCounter.PfcCounterTemplate | virtual_database_client/handler_pfc_counter.go:12-27 | the template is Interfaces/Port[name=*]/PfcCounter |
| VdbHandlerPfcCounter.V2rPortPfcCounterStats | virtual_database_client/handler_pfc_counter.go:31-113 | fills the template's port from the request and pops it with the PFC packet patterns: the pop outcome of the port-level specification |
| VdbHandlerPortCounter.BaseCounterTemplate | virtual_database_client/handler_port_counter.go:12-27 | the template is Interfaces/Port[name=*]/BaseCounter |
| VdbHandlerPortCounter.PortEntries | virtual_database_client/handler_port_counter.go:86-112 | a path naming one port writes exactly when the port resolves through the alias map to a known port and no field is asked for; the write is one pattern table path under that path |
| VdbHandlerPortCounter.PopPortCounterStats | virtual_database_client/handler_port_counter.go:54-113 | `*` recurses once per known port with the port's alias; a named port is resolved through the alias map; only the expected entries are written, an allowed status is returned, and everything expected is written on success |
| VdbHandlerPortCounter.ExpandPorts | virtual_database_client/handler_port_counter.go:63-84 | the `*` loop, in any map order: one recursive pop per port with its alias (or its own name), ending at the first failure |
| VdbHandlerPortCounter.PortStep | virtual_database_client/handler_port_counter.go:75-81 | the writes of one port's recursive pop are expected writes of the `*` request |
| VdbHandlerPortCounter.V2rPortBaseCounterStats | virtual_database_client/handler_port_counter.go:31-51 | fills the template's port from the request, collects the leaf fields, and pops with the base counter patterns |
| VdbHandlerPortCounter.FieldRequestsFail | virtual_database_client/handler_port_counter.go:100-103 | a field list fails for a known port or for `*` over a non-empty port map, and nothing is written |
| VdbHandlerPortCounter.NothingExpected | virtual_database_client/handler_port_counter.go:100-103 | with a field list the pop stands for no write at all |
| VdbHandlerPortCounter.KnownPortRequest | virtual_database_client/handler_port_counter.go:31-111 | a request naming one known port and no field succeeds and writes exactly the port's COUNTERS hash with the handler's patterns, under the template filled from the request |
| VdbHandlerFunc.HandlerTrie | virtual_database_client/handler_func.go:43-71 | the trie populated from the handler table is well formed |
| VdbHandlerFunc.HandlerTrieIsTrie4 | virtual_database_client/handler_func.go:21-52 | the populated handler trie is the nine-node trie: the Pfcwd chain SONiC_DB/Interfaces/Port/Queue/Pfcwd, QueueCounter below Queue, PfcCounter and BaseCounter below Port |
| VdbHandlerFunc.EllipsisBelowPort | virtual_database_client/trie.go:94-102 | `...` at the Port node reports the four handler nodes, each once |
| VdbHandlerFunc.EllipsisPfcwdBelowInterfaces | virtual_database_client/trie.go:94-102 | `...` followed by Pfcwd at the Interfaces node reports the Pfcwd node only: the named child is taken right after `...`, and QueueCounter, PfcCounter and BaseCounter, being terminating, report nothing for the remaining keys |
| VdbHandlerFunc.PortEllipsisFindsEveryHandler | virtual_database_client/db_client_test.go:440-446 | `Interfaces/Port[...]/...` reaches all four handlers (Pfcwd, QueueCounter, PfcCounter, BaseCounter), each exactly once |
| VdbHandlerFunc.EllipsisPfcwdFindsPfcwdHandler | virtual_database_client/db_client_test.go:466-472 | `Interfaces/.../Pfcwd` reaches the Pfcwd handler only, once |
| VdbHandlerPfcwd.Contains | virtual_database_client/handler_pfcwd.go:26-33 | true exactly when the string is one of the slice's |
| VdbHandlerPfcwd.CopyKey | virtual_database_client/handler_pfcwd.go:17-20 | the inner loop of deepcopy yields a key map equal to the original |
| VdbHandlerPfcwd.Deepcopy | virtual_database_client/handler_pfcwd.go:11-23 | the copy has no origin or target and the same elements, names and keys |
| VdbHandlerPfcwd.FirstNamed | virtual_database_client/handler_pfcwd.go:43-48 | the first request element with the name, or none exactly when no element has it |
| VdbHandlerPfcwd.LastField | virtual_database_client/handler_pfcwd.go:52-58 | the `field` key of the last leaf element that has one, or none exactly when no leaf element has one |
| VdbHandlerPfcwd.UpdatedTemplate | virtual_database_client/handler_pfcwd.go:42-49 | each parent position takes the name key of the first request element with the parent's name; every other template element is unchanged |
| VdbHandlerPfcwd.UpdatePath | virtual_database_client/handler_pfcwd.go:40-59 | updatePath's loops yield the updated template and the leaf's comma-split field list (unchanged when no leaf has a field key) |
| VdbHandlerPfcwd.PfcwdTemplate | virtual_database_client/handler_pfcwd.go:62-83 | the template is Interfaces/Port[name=*]/Queue[name=*]/Pfcwd |
| VdbHandlerPfcwd.Kept | virtual_database_client/handler_pfcwd.go:204-213 | the requested fields that a table offers, in request order |
| VdbHandlerPfcwd.Narrow | virtual_database_client/handler_pfcwd.go:204-237 | with no field list a table keeps all its fields; otherwise exactly the requested fields it offers |
| VdbHandlerPfcwd.NarrowFields | virtual_database_client/handler_pfcwd.go:204-213 | the filter loop computes the narrowed field list |
| VdbHandlerPfcwd.PfcwdTablePaths | virtual_database_client/handler_pfcwd.go:187-254 | at most the queue's COUNTERS hash and the port's PFC receive counter, each only when some field is left, all COUNTERS_DB with `:` and only requested fields; nothing unless PFC-WD is enabled on that port and queue |
| VdbHandlerPfcwd.LeafEntries | virtual_database_client/handler_pfcwd.go:251-253 | a concrete path writes at most one entry, under that path, and never an empty table list |
| VdbHandlerPfcwd.QueueTablePaths | virtual_database_client/handler_pfcwd.go:187-248 | the table paths built for one port and queue are the specification's |
| VdbHandlerPfcwd.PopPortQueuePfcwdStats | virtual_database_client/handler_pfcwd.go:114-257 | `*` ports and `*` queues are expanded recursively; an unknown port or a queue name without the `Queue` prefix is an error; only expected entries are written, the status is an allowed one, and on success every expected entry is written |
| VdbHandlerPfcwd.ExpandPorts | virtual_database_client/handler_pfcwd.go:124-145 | the `*` port loop, in any map order: one recursive pop per port under its alias, ending at the first failure |
| VdbHandlerPfcwd.ExpandPort | virtual_database_client/handler_pfcwd.go:128-142 | one port: the copy named by its alias (or its own name) is popped; its writes are expected and cover the port on success |
| VdbHandlerPfcwd.ExpandQueues | virtual_database_client/handler_pfcwd.go:163-181 | the `*` queue loop, in any map order: one recursive pop per PFC-WD queue of the port; a queue key without a `:` index panics |
| VdbHandlerPfcwd.QueueFailed | virtual_database_client/handler_pfcwd.go:168-170 | a PFC-WD queue key with no separator ends the loop with an index-out-of-range panic |
| VdbHandlerPfcwd.ExpandQueue | virtual_database_client/handler_pfcwd.go:168-178 | one queue: the copy named `Queue<n>` is popped, and its leaf entry is written |
| VdbHandlerPfcwd.QueueCopyIsConcrete | virtual_database_client/handler_pfcwd.go:170-175 | a queue copy names the same port and a concrete `Queue<n>`, so its pop succeeds and does not recurse |
| VdbHandlerPfcwd.V2rPortQueuePfcwdStats | virtual_database_client/handler_pfcwd.go:89-111 | fills the template's port and queue and the leaf fields from the request, then pops: the pop's outcome |
| VdbHandlerPfcwd.RequestNames | virtual_database_client/handler_pfcwd.go:40-49 | the request's Port and Queue names land at template positions 1 and 2 |
| VdbHandlerPfcwd.ConcreteQueueRequest | virtual_database_client/handler_pfcwd.go:89-254 | a request for `Queue<k>` of a known port with PFC-WD enabled on that queue and no field list succeeds and writes exactly the queue's seven PFC-WD fields and the port's PFC receive counter |
| VdbHandlerPfcwd.WildcardRequestSucceeds | virtual_database_client/handler_pfcwd.go:124-181 | with aliases that map back to their ports, no port aliased `*` and an index in every PFC-WD queue key, a request for every queue of every port succeeds |
| VdbHandlerQueueCounter.QueueCounterTemplate | new_sonic_data_client/handler_queue_counter.go:12-34 | the template is Interfaces/Port[name=*]/Queue[name=*]/QueueCounter |
| VdbHandlerQueueCounter.LeafEntries | new_sonic_data_client/handler_queue_counter.go:126-154 | a concrete port and queue write exactly when the queue is named `Queue<n>`, `port:n` is one of the port's queues and no field is asked for; the write is one table path with the four queue counters |
| VdbHandlerQueueCounter.PopPortQueueCounterStats | new_sonic_data_client/handler_queue_counter.go:60-155 | `*` ports and queues are expanded recursively; an unknown port, a bad queue name, an unknown queue or a field list fails; only expected entries are written, the status is an allowed one, and on success every expected entry is written |
| VdbHandlerQueueCounter.ExpandPorts | new_sonic_data_client/handler_queue_counter.go:69-90 | the `*` port loop, in any map order: one recursive pop per port under its alias, ending at the first failure |
| VdbHandlerQueueCounter.ExpandPort | new_sonic_data_client/handler_queue_counter.go:73-87 | one port: success exactly when the port's pop can succeed; its writes are expected and cover the port on success |
| VdbHandlerQueueCounter.ExpandQueues | new_sonic_data_client/handler_queue_counter.go:108-124 | the `*` queue loop, in any map order: one recursive pop per queue of the port, ending at the first failure; a queue key without a `:` index panics |
| VdbHandlerQueueCounter.ExpandQueue | new_sonic_data_client/handler_queue_counter.go:111-121 | one queue: the copy named `Queue<n>` is popped with that queue's status, and covers the queue on success |
| VdbHandlerQueueCounter.QueueCopyFacts | new_sonic_data_client/handler_queue_counter.go:113-117 | a queue copy names the same port and a concrete queue, so the recursion ends |
| VdbHandlerQueueCounter.V2rPortQueueCounterStats | new_sonic_data_client/handler_queue_counter.go:37-57 | fills the template's port and queue and the leaf fields from the request, then pops: the pop's outcome |
| VdbHandlerQueueCounter.KnownQueueRequest | new_sonic_data_client/handler_queue_counter.go:37-154 | a request for `Queue<k>` of a port whose queue map holds `port:k`, with no field list, succeeds and writes exactly that queue's four counters |
| SdcPath.Separator | sonic_data_client/path.go:127 | the target's table key separator, its error dropped: "" for a name that is not a target |
| SdcPath.IsValidDbTarget | sonic_data_client/path.go:111-117 | true exactly for a known target other than OTHERS |
| SdcPath.ValidTargetsAreDatabases | sonic_data_client/path.go:111-117 | the valid targets are exactly those whose number is below OTHERS' |
| SdcPath.PermitFrom | sonic_data_client/path.go:211-219 | the loop accepts exactly when every permit position from here on is `*` or equal to the path's element |
| SdcPath.PathPermit | sonic_data_client/path.go:202-222 | permitted exactly when both are non-nil, the path is at least as long as the permit entry and each permit position is `*` or equal |
| SdcPath.PathPermitIgnoresTail | sonic_data_client/path.go:211 | elements past the permit entry's length do not matter |
| SdcPath.PortAdminStatusOnly | sonic_data_client/path.go:11-18 | a port's admin_status may be written; no other field of PORT may |
| SdcPath.PermittedIsConfigTable | sonic_data_client/path.go:11-18 | every permitted path names CONFIG_DB and a table |
| SdcPath.GetTblPath | sonic_data_client/path.go:120-199 | fewer than two names is "not support"; the table path has the target, table and separator, with key and field by path length (four names: key and key, or key and field when the joined key does not exist); with allowNotFound every lookup failure is ignored; without it a failed lookup or a missing key is an error |
| SdcPath.AllowNotFoundAgrees | sonic_data_client/path.go:177-195 | when the strict lookup succeeds, the lenient one gives the same table path |
| SdcPath.KeyMustExist | sonic_data_client/path.go:186-194 | a strict lookup of three to five names fails exactly when its resolved key does not exist |
| SdcPath.TooLong | sonic_data_client/path.go:172-175 | more than five names is an error when strict and a bare table path when lenient |
| SdcPath.NewGSPath | sonic_data_client/path.go:42-60 | "empty path" without elements, "empty target" without a target, otherwise the target followed by the element names |
| SdcDbTypes.TableOnly | sonic_data_client/path.go:128-132 | a table path of database, table and separator with every other part empty |
| SdcVpath.WildcardPrefixNonEmpty | sonic_data_client/vpath.go:142 | a SAI wildcard leaves a non-empty SAI prefix once its `*` is trimmed |
| SdcVpath.MatchFields | sonic_data_client/vpath.go:127-163 | a non-SAI field gives "", a SAI field without `*` is itself, a SAI wildcard on a map without supported fields gives "", and an error exactly when a wildcard matches no supported field |
| SdcVpath.MatchFieldsList | sonic_data_client/vpath.go:142-159 | the comma-joined list splits back into exactly the supported fields with the wildcard's prefix, in supported order |
| SdcVpath.GetMatchFields | sonic_data_client/vpath.go:127-163 | the filter and join loops compute the match-field specification |
| SdcVpath.FilterFields | sonic_data_client/vpath.go:143-147 | keeps exactly the supported fields with the prefix, in order |
| SdcVpath.JoinFields | sonic_data_client/vpath.go:153-159 | joins the matched fields with commas |
| SdcVpath.EthPortStats | sonic_data_client/vpath.go:175-221 | v2rEthPortStats for a visiting order of the port map; never panics |
| SdcVpath.EthPortStatsWildcard | sonic_data_client/vpath.go:186-198 | a port wildcard yields one table path per port, keyed by its oid, with the port name as JSON key and the matched fields |
| SdcVpath.EthPortStatsSingle | sonic_data_client/vpath.go:199-218 | a single port must be in the port map; a known one yields its own entry, with JSON fields only when several fields matched |
| SdcVpath.V2rEthPortStats | sonic_data_client/vpath.go:175-221 | the loop over the port map in some visiting order computes the specification for that order |
| SdcVpath.QStatsGeneric | sonic_data_client/vpath.go:252-299 | v2rQStatsGeneric for a visiting order of the name map; never panics |
| SdcVpath.QStatsGenericContents | sonic_data_client/vpath.go:252-299 | fails exactly when the field lookup fails; collects exactly the objects of the requested port (every object for a wildcard), keyed by oid with their own name as JSON key |
| SdcVpath.V2rQStatsGeneric | sonic_data_client/vpath.go:252-299 | the loop over the name map in some visiting order computes the specification for that order |
| SdcVpath.CollectQueues | sonic_data_client/vpath.go:276-295 | the single-port loop keeps exactly the queues whose key starts with the port, in visiting order |
| SdcVpath.RegisteredPaths | sonic_data_client/vpath.go:48-62 | every path of the translation table is one its translator accepts, with at most five names |
| SdcVpath.GetV2rPath | sonic_data_client/vpath.go:306-313 | a path the trie does not know is a "not found in virtual path tree" error; otherwise the registered translator's result |
| SdcGsPath.GSPath.constructor | sonic_data_client/path.go:59 | the object holds the path's names and no table path |
| SdcGsPath.GSPath.GetDbPath | sonic_data_client/path.go:63-83 | an invalid target is an error; on COUNTERS_DB a translated virtual path replaces the table paths; otherwise getTblPath's result is appended or its error returned |
| SdcGsPath.GSPath.GetCfgPath | sonic_data_client/path.go:86-109 | only CONFIG_DB paths that a permit entry admits succeed, appending their lenient table path; every other path is an error and leaves the table paths unchanged |
| SdcVirtualDb.PortStatsWildcard | sonic_data_client/virtual_db.go:154-226 | a port wildcard yields one table path per port, keyed by its oid and reported under the port's external alias when it has one, its own name otherwise |
| SdcVirtualDb.PortStatsSingle | sonic_data_client/virtual_db.go:174-245 | a single port, named internally or by its external alias, is found under its internal name; an unknown one is an error; the one table path has no JSON key or field |
| SdcVirtualDb.V2rPortStats | sonic_data_client/virtual_db.go:151-248 | v2rEthPortStats and v2rEthPortFieldStats (which also sets the field) compute the specification for the map's visiting order |
| SdcVirtualDb.QueStatsPanics | sonic_data_client/virtual_db.go:256-297 | whatever the visiting order, the request panics exactly when a queue name it reaches has no `:` index, and is never an error |
| SdcVirtualDb.QueStatsContents | sonic_data_client/virtual_db.go:252-301 | a queue request collects exactly the queues of the requested port (of every port for a wildcard), reported as `alias:index` |
| SdcVirtualDb.V2rEthPortQueStats | sonic_data_client/virtual_db.go:252-301 | the loop over the queue map in some visiting order computes the specification for that order |
| SdcVirtualDb.CollectQueues | sonic_data_client/virtual_db.go:256-297 | the loop over a visiting order collects the queue specification for that order |
| SdcVirtualDb.RegisteredPaths | sonic_data_client/virtual_db.go:44-55 | every path of the translation table is accepted by its translator |
| SdcVirtualDb.LookupV2R | sonic_data_client/virtual_db.go:303-310 | a path the trie does not know is a "not found in virtual path tree" error; otherwise the registered translator's result |
| SdcVirtualDb.VirtualDbMaps.constructor | sonic_data_client/virtual_db.go:31-40 | the port, queue and both alias maps start empty |
| SdcVirtualDb.VirtualDbMaps.InitCountersQueueNameMap | sonic_data_client/virtual_db.go:70-79 | COUNTERS_QUEUE_NAME_MAP is loaded only when the map is empty; the other maps are unchanged |
| SdcVirtualDb.VirtualDbMaps.InitCountersPortNameMap | sonic_data_client/virtual_db.go:81-90 | COUNTERS_PORT_NAME_MAP is loaded only when the map is empty; the other maps are unchanged |
| SdcVirtualDb.VirtualDbMaps.InitAliasMap | sonic_data_client/virtual_db.go:92-136 | both alias maps are loaded from CONFIG_DB's PORT table only when e2i is empty; a failed alias read is an error and leaves both empty |
| SdcDbClient.MakeJson | sonic_data_client/db_client.go:504-531 | without key and op the hash's fields are merged into the document; otherwise the hash becomes one object under the key (or the op), nested under the op when both are given; every other entry is kept |
| SdcDbClient.MakeJsonRedis | sonic_data_client/db_client.go:504-531 | the method's loops compute the makeJSON_redis specification and never fail |
| SdcDbClient.CopyFields | sonic_data_client/db_client.go:504-516 | the field loop puts every field of the hash, as a string, over the target map |
| SdcDbClient.ShapeTablePath | sonic_data_client/db_client.go:435-496 | resolving a path of at least two names never panics; a resolved table path carries the target and the table, and a resolved key exists in the database |
| SdcDbClient.ShapeTable | sonic_data_client/db_client.go:451-457 | a bare table succeeds exactly when some key starts with its name, and then names the whole table |
| SdcDbClient.ShapeKeyOrField | sonic_data_client/db_client.go:458-467 | a third name is the key when that key exists, and otherwise a field of the table itself |
| SdcDbClient.ShapeKeyKeyOrKeyField | sonic_data_client/db_client.go:468-496 | four names: the last two form the key when it exists; otherwise the third is the key, which must exist, and the fourth the field |
| SdcDbClient.ShapeKeyKeyField | sonic_data_client/db_client.go:480-496 | five names: a two-part key that must exist, and a field |
| SdcDbClient.ShapeTooLong | sonic_data_client/db_client.go:483-486 | more than five names is an "Invalid db table Path" error |
| SdcDbClient.RequestNames | sonic_data_client/db_client.go:404-423 | the names are the prefix's target followed by the full path's element names |
| SdcDbClient.ByShape | sonic_data_client/db_client.go:435-500 | a request without elements panics on the table index; any other gets exactly the table path of its shape, or its error |
| SdcDbClient.PopulateDbtablePath | sonic_data_client/db_client.go:392-501 | an unknown target is an error; a virtual path whose translation does not fail gives that result; otherwise the path's shape decides |
| SdcDbClient.BarePathPanics | sonic_data_client/db_client.go:409-441 | a request without elements on a known target always panics, since no translator is registered for a bare target |
| SdcDbClient.PopulateAllDbtablePath | sonic_data_client/db_client.go:381-389 | the paths before the first failing one are written in order, and the failure is that path's error |
| SdcDbClient.DbKeys | sonic_data_client/db_client.go:555-571 | a keyed table path reads its one key; a COUNTERS_DB table other than COUNTERS reads the key equal to its name; any other table reads every key starting with the table name and the delimiter |
| SdcDbClient.KeyStep | sonic_data_client/db_client.go:587-611 | rendering one key never reports an error (only a key without the delimiter panics) and only adds entries to the document |
| SdcDbClient.MsiFrom | sonic_data_client/db_client.go:587-611 | the key loop never reports an error and only adds entries to the document |
| SdcDbClient.TableMsi | sonic_data_client/db_client.go:547-614 | tableData2Msi never reports an error, panics on a database without a client, and only adds entries to the document |
| SdcDbClient.TableData2Msi | sonic_data_client/db_client.go:547-614 | the method computes the tableData2Msi specification |
| SdcDbClient.RenderKeys | sonic_data_client/db_client.go:587-611 | the loop over the keys read computes the key-loop specification |
| SdcDbClient.KeyedRead | sonic_data_client/db_client.go:568-597 | a keyed table path without a JSON key merges exactly its key's hash into the document |
| SdcDbClient.MsiFromTable | sonic_data_client/db_client.go:598-605 | keys that all carry the delimiter each land under their part past the first delimiter, and nothing else is added |
| SdcDbClient.WholeTableRead | sonic_data_client/db_client.go:556-611 | a whole table outside COUNTERS_DB, or COUNTERS itself, puts every key of the table under its part past the first delimiter |
| SdcDbClient.TableData2TypedValue | sonic_data_client/db_client.go:628-669 | the first field query answers with its field's string (or the read error); otherwise every table path is rendered into one JSON_IETF object |
| SdcDbClient.TypedValueErrors | sonic_data_client/db_client.go:647-651 | a read fails only on a field query whose field is missing |
| SdcDbClient.TypedValueStrings | sonic_data_client/db_client.go:634-657 | only a field query yields a string |
| SdcDbClient.TypedValueObject | sonic_data_client/db_client.go:660-668 | a successful read is a string or a JSON_IETF object; an object comes only from table paths without field queries and keeps everything rendered before |
| SdcDbClient.ValuesOfEntries | sonic_data_client/db_client.go:253-266 | Get succeeds exactly when every entry reads, and then reports one value per entry in visiting order, carrying the prefix, the entry's path, the request time and the entry's value |
| SdcDbClient.DbClient.constructor | sonic_data_client/db_client.go:143-150 | the client holds the request prefix and the resolved table paths |
| SdcDbClient.DbClient.Get | sonic_data_client/db_client.go:247-270 | reads every entry of the mapping in some visiting order, stopping at the first failure: the ValuesOf specification for that order |
| SdcDbClient.ReadEntries | sonic_data_client/db_client.go:253-266 | the loop over the entries in visiting order computes ValuesOf |
| SdcDbClient.NewDbClient | sonic_data_client/db_client.go:109-152 | on COUNTERS_DB the port, queue, alias and PFC-WD maps are loaded in order, each only when empty, stopping at the first error; other targets leave the maps alone; the client exists exactly when every path resolved |
| SdcDbClient.SubscribePattern | sonic_data_client/db_client.go:920-937 | a keyed path listens on its key's keyspace channel, with the whole channel as prefix; a table listens on all its keys' channels, the prefix stopping before the `*` |
| SdcDbClient.ChannelKey | sonic_data_client/db_client.go:864-885 | a key is cut from the channel exactly when the channel is at least as long as the prefix, and the prefix followed by the key gives back the channel |
| SdcDbClient.ChannelKeyOfTable | sonic_data_client/db_client.go:920-937 | for a table-wide subscription, every key's channel matches the pattern, and cutting the prefix gives back that key |
| SdcNonDbClient.PercentOfBusyTicks | sonic_data_client/non_db_client.go:134-140 | without uint64 wrap-around, getCpuUtilPercents is the busy share of the elapsed ticks in whole percent, and it never exceeds 100 |
| SdcNonDbClient.PercentNeedsTicks | sonic_data_client/non_db_client.go:138-139 | without wrap-around the division by the elapsed ticks panics exactly when no tick elapsed |
| SdcNonDbClient.Slot | sonic_data_client/non_db_client.go:148-206 | the ring index computed with the uint64 subtraction is always inside the ring |
| SdcNonDbClient.SlotNoWrap | sonic_data_client/non_db_client.go:148-150 | an offset up to the capacity does not wrap: it is that many places behind the write index on the ring |
| SdcNonDbClient.RingAt | sonic_data_client/non_db_client.go:343-348 | on a ring filled by pollStats, the slot k places behind the write index holds the sample written k writes ago (empty before the k-th write) |
| SdcNonDbClient.RingWindows | sonic_data_client/non_db_client.go:148-193 | the slots getCpuUtilStat reads hold the latest sample and the samples 1, 9, 49, 599 and 2999 writes before it |
| SdcNonDbClient.Windows | sonic_data_client/non_db_client.go:150-206 | one sample per window, each the one written that many samples back |
| SdcNonDbClient.WithRate | sonic_data_client/non_db_client.go:125-132 | setting one window's rate keeps the CPU's name and every other window's rate |
| SdcNonDbClient.CpuRates | sonic_data_client/non_db_client.go:161-177 | the per-CPU loop of a window ends in a stat or a panic, never in an error |
| SdcNonDbClient.WindowUtil | sonic_data_client/non_db_client.go:155-177 | a window's aggregate and per-CPU rates end in a stat or a panic |
| SdcNonDbClient.UtilFrom | sonic_data_client/non_db_client.go:166-217 | the window blocks end in a stat or a panic |
| SdcNonDbClient.UtilStat | sonic_data_client/non_db_client.go:142-218 | getCpuUtilStat ends in a stat or a panic, never in an error |
| SdcNonDbClient.FirstWindowAppends | sonic_data_client/non_db_client.go:161-164 | the 100 ms window appends one entry per CPU of the window sample, named after it and carrying its rate |
| SdcNonDbClient.LaterWindowSets | sonic_data_client/non_db_client.go:174-190 | a later window sets its own rate in the entries of the window sample's CPUs and changes nothing else |
| SdcNonDbClient.CpuRatesPanics | sonic_data_client/non_db_client.go:161-216 | the per-CPU loop panics exactly when the latest sample lacks a CPU of the window sample, a CPU's ticks did not move, or a later window finds no entry for a CPU |
| SdcNonDbClient.StopsAtEmptyWindow | sonic_data_client/non_db_client.go:166-209 | an empty window slot returns the stat so far: windows past it never affect the result |
| SdcNonDbClient.StatsRing.constructor | sonic_data_client/non_db_client.go:354-358 | the ring starts with statsRingCap empty slots, write index 0 and no history |
| SdcNonDbClient.StatsRing.Store | sonic_data_client/non_db_client.go:343-348 | pollStats stores the sample at the write index, advances it modulo the capacity and keeps the ring consistent with its history |
| SdcNonDbClient.StatsRing.GetCpuUtilStat | sonic_data_client/non_db_client.go:142-218 | the corrected getCpuUtilStat: each window compares the latest sample with the one written that many samples before it |
| SdcNonDbClient.StatsRing.NextWindow | sonic_data_client/non_db_client.go:166-216 | one window block either ends the computation with the specified result or fills the window and leaves the rest of the specification unchanged |
| SdcNonDbClient.UtilStatNeedsTwoSamples | sonic_data_client/non_db_client.go:150-153 | before the second sample the 100 ms slot is empty and the stat stays empty |
| SdcNonDbClient.WindowStep | sonic_data_client/non_db_client.go:166-217 | one window is computed, then the later windows from its result; the last window's result is final |
| SdcNonDbClient.FillWindow | sonic_data_client/non_db_client.go:155-164 | the window's aggregate rate, then the loop over the window sample's CPUs, compute the window's specification |
| SdcNonDbClient.StatsRing.AllWindows | sonic_data_client/non_db_client.go:158-217 | the five window blocks, from the 100 ms one to the 5-minute one, compute the window specification over the ring's samples |
| SdcNonDbClient.FiveMinuteSlotAsWritten | sonic_data_client/non_db_client.go:206 | the offset 30000 as written wraps in uint64 and reads the slot 2384 places behind the write index, not 3000 |
| SdcNonDbClient.FiveMinuteSampleAsWritten | sonic_data_client/non_db_client.go:205-216 | on a full ring the 5-minute rate as written compares with the sample 2383 intervals back (about 238 s) where 2999 are meant; at write index 0 the slots are 616 and 0 |
| SdcNonDbClient.VersionOutcomes | sonic_data_client/non_db_client.go:299-324 | every loaded version starts with `sonic.`; a read or parse failure gives sonic.NA with the failure's message; a success has no error |
| SdcNonDbClient.VersionStash.constructor | sonic_data_client/non_db_client.go:48-53 | the stash starts unloaded with an empty version |
| SdcNonDbClient.VersionStash.Invalidate | sonic_data_client/non_db_client.go:55-58 | invalidation forgets the loaded content |
| SdcNonDbClient.VersionStash.GetBuildVersion | sonic_data_client/non_db_client.go:299-333 | the file is loaded on the first call after creation or invalidation, every later call answers from the stash, and the answer is the stash's JSON |
| SdcNonDbClient.LoadedOnce | sonic_data_client/non_db_client.go:299-324 | two calls without an invalidation in between report the same version, whatever the file holds at the second call |
| SdcNonDbClient.FindGetterMeaning | sonic_data_client/non_db_client.go:389-393 | the search finds a getter exactly when one is registered under the names, and it is a registered one |
| SdcNonDbClient.GetterTableShape | sonic_data_client/non_db_client.go:71-104 | eight getters are registered, under eight distinct OTHERS paths of three names |
| SdcNonDbClient.GettersFound | sonic_data_client/non_db_client.go:107-117 | after population every registered getter is found under its own path |
| SdcNonDbClient.LookupGetFunc | sonic_data_client/non_db_client.go:377-395 | the loop builds the target followed by the full path's element names, and the result is the registered getter or the not-found error |
| SdcNonDbClient.GetterOf | sonic_data_client/non_db_client.go:377-395 | looking a path up never panics |
| SdcNonDbClient.GetterOfMeaning | sonic_data_client/non_db_client.go:377-395 | a path has a getter exactly when its names are registered, and then the registered one; otherwise the error names the path as not found in clientTrie |
| SdcNonDbClient.GetterNeedsOthers | sonic_data_client/non_db_client.go:71-104 | only an OTHERS prefix with two path elements reaches a getter |
| SdcNonDbClient.Lookups | sonic_data_client/non_db_client.go:401-407 | a successful lookup yields one getter per path |
| SdcNonDbClient.LookupsMeaning | sonic_data_client/non_db_client.go:401-407 | looking the paths up succeeds exactly when every path has a getter, pairing each path with its getter in order; otherwise the error is the first failing path's |
| SdcNonDbClient.GetterLookup | sonic_data_client/non_db_client.go:377-395 | the lookup under a fixed trie and prefix never panics |
| SdcNonDbClient.NonDbClient.constructor | sonic_data_client/non_db_client.go:397-400 | the client holds the prefix and the path-to-getter entries |
| SdcNonDbClient.NonDbClient.Get | sonic_data_client/non_db_client.go:469-493 | Get visits every entry once in some order and reports one JSON_IETF value per entry, carrying the prefix, the path, the request time and the getter's output, errors being only logged |
| SdcNonDbClient.NewNonDbClient | sonic_data_client/non_db_client.go:397-410 | the client exists exactly when every path has a getter, then holds the prefix and each path's getter; otherwise the first lookup error is returned |
| SdcSystem.FieldsStep | sonic_data_client/system.go:247-255 | visiting one more field sets the entry of its reported name, an `@` field as the list of its comma-separated value |
| SdcSystem.FieldsOf | sonic_data_client/system.go:246-255 | the field loop visits every field of the key once, in some order, and reports each name from a field with that name |
| SdcSystem.FieldsWithoutCollision | sonic_data_client/system.go:246-255 | when no two fields share a reported name, every field is reported under its name whatever the order |
| SdcSystem.RowKeyParts | sonic_data_client/system.go:234-240 | a reported key is its table, the separator and its entry key, and the table holds no separator |
| SdcSystem.TablesMeaning | sonic_data_client/system.go:231-262 | a table is listed exactly when some key with a separator names it |
| SdcSystem.EntriesMeaning | sonic_data_client/system.go:231-262 | an entry is listed under a table exactly when some key with a separator is that table and entry |
| SdcSystem.NoTableNoEntries | sonic_data_client/system.go:231-262 | a table that no key names has no entries |
| SdcSystem.Insert | sonic_data_client/system.go:256-261 | the entry joins its table, or creates the table; every other table and entry is kept |
| SdcSystem.ConfigInsert | sonic_data_client/system.go:239-261 | a key with a separator adds its entry to the dump |
| SdcSystem.ConfigSkip | sonic_data_client/system.go:234-238 | a key without a separator leaves the dump as it is |
| SdcSystem.GetConfigdb | sonic_data_client/system.go:222-265 | every CONFIG_DB key with a separator becomes an entry of its table, keys without one are skipped, and a table seen before keeps its earlier entries |
| SdcSystem.SkippedKey | sonic_data_client/system.go:234-238 | no entry of the dump stands for a key without a separator, whatever else is listed |
| SdcSystem.NtpStat | sonic_data_client/system.go:355-371 | the status is reported exactly when the output starts with `unsynchronised` or `synchronised`, as the one entry `stat`; any other output is "invalid result: " and the output; a failing command is its error |
| SdcSystem.NtpStatusesExclusive | sonic_data_client/system.go:363-366 | no output starts with both statuses, so the order of the two tests does not matter |
| SdcSystem.GetDownReason | sonic_data_client/system.go:378-411 | the line loop computes the DownReason specification as the map of `last` and `date`; a failing command is an error |
| SdcSystem.SingleShutdownLine | sonic_data_client/system.go:389-396 | with a single shutdown line, the reason is read from that line without its prefix |
| SdcSystem.DownReasonUnknown | sonic_data_client/system.go:398-404 | without exactly one reboot line and one shutdown line the reason is `Unknown` with an empty date |
| SdcSystem.DownReasonOutcomes | sonic_data_client/system.go:398-404 | the reason is never an error, and it panics exactly when the single shutdown line has fewer than three pieces split on two spaces |
| SdcBgp.FirstTokenEmpty | sonic_data_client/bgp.go:29 | the loop test's first piece of the line split on spaces is empty exactly for an empty line or a line starting with a space |
| SdcBgp.FirstWithToken | sonic_data_client/bgp.go:65-71 | the first line from the start index whose first token is the one searched, with no earlier such line; none when no line has it |
| SdcBgp.LastTotals | sonic_data_client/bgp.go:29-34 | the fields of a `Totals` row, and none exactly when no row is a `Totals` row |
| SdcBgp.ScanTotals | sonic_data_client/bgp.go:27-52 | the scan loop over the command's lines computes the RouteSummary specification; a failing command is an error |
| SdcBgp.ReadTotalsRow | sonic_data_client/bgp.go:30-33 | a row is read exactly when its fields can be indexed; a `Totals` row's second and third fields become the route and FIB counts, any other row keeps the counts |
| SdcBgp.TotalsStep | sonic_data_client/bgp.go:29-34 | one more readable row: a `Totals` row replaces the counts, any other row keeps them |
| SdcBgp.ScanPanics | sonic_data_client/bgp.go:29-33 | an unreadable row, or running past the last line, before a line with an empty first token panics |
| SdcBgp.ScanEnds | sonic_data_client/bgp.go:29-35 | the scan ends at the first line with an empty first token, with the counts of the last `Totals` row before it |
| SdcBgp.GetIprouteNum | sonic_data_client/bgp.go:21-36 | the route summary scan keyed by `Routes`; a failing command is an error |
| SdcBgp.GetPrefixNum | sonic_data_client/bgp.go:38-53 | the route summary scan keyed by `PrefixRoutes`; a failing command is an error |
| SdcBgp.RouteSummaryOk | sonic_data_client/bgp.go:29-35 | the scan never reports an error, and succeeds exactly when a line with an empty first token comes after readable lines only |
| SdcBgp.RouteSummaryCounts | sonic_data_client/bgp.go:28-35 | the result is empty exactly when no row before the end is a `Totals` row; otherwise it is the second and third fields of the last such row, under the route key and `FIB` |
| SdcBgp.ParseRow | sonic_data_client/bgp.go:74-83 | a neighbor row is read exactly when it has at least ten fields |
| SdcBgp.RowsBetween | sonic_data_client/bgp.go:73-84 | a readable stretch of rows gives one parsed row per line |
| SdcBgp.RowsBetweenMeaning | sonic_data_client/bgp.go:73-84 | a stretch is readable exactly when each of its lines parses, and then each row is its line's parse |
| SdcBgp.RowsBetweenStuck | sonic_data_client/bgp.go:73-84 | once a row cannot be read, no longer stretch containing it can |
| SdcBgp.NeighborKeys | sonic_data_client/bgp.go:74 | exactly the neighbors named by some row are reported |
| SdcBgp.NeighborLastRow | sonic_data_client/bgp.go:74-83 | a neighbor holds the columns of the last row that names it |
| SdcBgp.NeighborsPanic | sonic_data_client/bgp.go:73-84 | an unreadable row, or running past the last line, before a line with an empty first token panics |
| SdcBgp.NeighborsEnd | sonic_data_client/bgp.go:73-84 | the neighbor loop ends at the first line with an empty first token and reports the table of the rows before it |
| SdcBgp.BgpSummary | sonic_data_client/bgp.go:55-87 | the header search and the neighbor loop compute the BgpTable specification; a failing command is an error |
| SdcBgp.FindNeighborHeader | sonic_data_client/bgp.go:63-71 | the header is found exactly when some line's first token is `Neighbor`, and the rows start right after the first such line |
| SdcBgp.ReadNeighbors | sonic_data_client/bgp.go:72-85 | the neighbor loop from the row after the header computes the NeighborRows specification |
| TranslUtils.RenderedElems | transl_utils/transl_utils.go:44-76 | without a prefix the path's own elements are rendered; under a prefix, those of the full path, the same path gnmiFullPath builds |
| TranslUtils.RenderedNames | transl_utils/transl_utils.go:44-54 | under a prefix the rendered names are the prefix's names followed by the path's |
| TranslUtils.Segments | transl_utils/transl_utils.go:81-100 | one rendered segment per element, each that element's segment |
| TranslUtils.UriShape | transl_utils/transl_utils.go:77-104 | a path without elements renders as the empty string; otherwise the URI is `/` and the segments joined with `/`, so it starts with `/` and only the last `/` appended is trimmed |
| TranslUtils.SegmentText | transl_utils/transl_utils.go:83-99 | an element without keys renders as its name, one with a single key `k` as `name[k=v]` |
| TranslUtils.SmallKeyOrder | transl_utils/transl_utils.go:92-95 | a key map of at most one key has a single visiting order |
| TranslUtils.UriOrderFree | transl_utils/transl_utils.go:81-100 | Go's map order matters only for elements with several keys: with at most one key per element every visiting order gives the same URI |
| TranslUtils.KeyTextChars | transl_utils/transl_utils.go:92-95 | the key text is empty or starts with `[`, and holds a `/` only where a key or a value does |
| TranslUtils.UriNames | transl_utils/transl_utils.go:70-106 | the rendering loses no element: with names and keys free of the separators, the URI past its leading `/` splits into one piece per element, each naming its element before its first `[` |
| TranslUtils.OrdersStep | transl_utils/transl_utils.go:81-100 | one more element extends the rendering by that element's segment and `/` |
| TranslUtils.AppendKeys | transl_utils/transl_utils.go:92-95 | the key loop appends `[k=v]` for every key, in the order it visits them |
| TranslUtils.AppendElem | transl_utils/transl_utils.go:83-99 | one element pass visits each of its keys once and appends the element's segment and `/` |
| TranslUtils.AppendElems | transl_utils/transl_utils.go:77-101 | the element loop writes `/` and then every element's segment, each followed by `/` |
| TranslUtils.ConvertToURI | transl_utils/transl_utils.go:70-106 | the URI of the full path (or of the path when there is no prefix) with the last `/` trimmed; it always succeeds |
| TranslUtils.PopulateClientPaths | transl_utils/transl_utils.go:57-67 | every request path gets the URI ConvertToURI renders for it under the prefix, other entries of the map are kept, and the call always succeeds |
| TranslUtils.IsTranslibSuccess | transl_utils/transl_utils.go:240-246 | a translib outcome fails exactly when there is an error whose message is not `Success` |
| TranslDataClient.NewTranslClient | src/sonic_data_client/transl_data_client.go:38-54 | construction never fails and keeps the prefix; with get paths the map holds exactly one URI per path, the one ConvertToURI renders; without, the map is empty |
| TranslDataClient.Set | src/sonic_data_client/transl_data_client.go:88-104 | DELETE, REPLACE and UPDATE make the matching translib call with the path's URI (REPLACE and UPDATE with the value); any other flagop makes no call |
| TranslDataClient.ResolveMode | src/sonic_data_client/transl_data_client.go:140-177 | a subscription is fatal exactly when ON_CHANGE lacks support or a positive minimum, SAMPLE lacks a positive minimum, or the mode is unknown; an explicit mode is kept; ON_CHANGE only with support; TARGET_DEFINED becomes SAMPLE when unsupported, and when supported takes the preferred type's mode (SAMPLE or ON_CHANGE) or, for any other type, keeps the previous subscription's mode |
| TranslDataClient.ModeCarried | src/sonic_data_client/transl_data_client.go:140-177 | while the loop runs, the mode after a subscription is the mode that subscription resolved to |
| TranslDataClient.TargetDefinedInherits | src/sonic_data_client/transl_data_client.go:144-150 | a supported TARGET_DEFINED subscription of another preferred type takes the mode the previous subscription resolved to (TARGET_DEFINED itself for the first) |
| TranslDataClient.Int64 | src/sonic_data_client/transl_data_client.go:181 | Go's int of a uint64 stays in the int64 range and wraps values from 2^63 to negative |
| TranslDataClient.SampleInterval | src/sonic_data_client/transl_data_client.go:180-190 | an interval of 0 becomes the minimum in nanoseconds; a kept interval is at least the minimum and is the request's (as int64); it is fatal exactly when non-zero and below the minimum |
| TranslDataClient.RunStays | src/sonic_data_client/transl_data_client.go:138-217 | once the loop has stopped or panicked, later subscriptions change nothing |
| TranslDataClient.StreamRun | src/sonic_data_client/transl_data_client.go:129-217 | the subscription loop computes the Run specification over every subscription |
| TranslDataClient.StepWellFormed | src/sonic_data_client/transl_data_client.go:191-216 | one pass keeps every ticker's path and URI lists in step and the select cases one per ticker |
| TranslDataClient.StepTicker | src/sonic_data_client/transl_data_client.go:191-204 | a pass that samples at an interval appends its path and URI to that interval's ticker, creating it when absent; any other pass leaves the ticker as it was |
| TranslDataClient.RunGroupsByInterval | src/sonic_data_client/transl_data_client.go:191-204 | sample subscriptions with equal intervals share one ticker: an interval has a ticker exactly when some subscription so far samples at it, holding their paths and URIs in subscription order |
| TranslDataClient.PanicOnlyFromTargetDefined | src/sonic_data_client/transl_data_client.go:142-194 | only a TARGET_DEFINED subscription with a non-positive minimum interval can reach time.NewTicker with a non-positive interval, which panics |
| TranslDataClient.OnChangeListsAgree | src/sonic_data_client/transl_data_client.go:205-216 | on-change subscriptions are recorded with their URI and path at the same position of both lists, and each URI is in the on-change map |
| TranslDataClient.EmissionMeaning | src/sonic_data_client/transl_data_client.go:241-263 | a tick or poll either reads every URI and queues one update per URI, in order, then exactly one sync marker; or stops at the first failed read, having queued the updates before it, and no sync |
| TranslDataClient.EmitTick | src/sonic_data_client/transl_data_client.go:241-263 | a tick's loop over its ticker's URIs queues what the Emission specification says |
| TranslDataClient.PollOnce | src/sonic_data_client/transl_data_client.go:338-361 | one poll visits every path of the map once, in some order, and queues what the Emission specification says for that order |
| TranslDataClient.EmitPaths | src/sonic_data_client/transl_data_client.go:338-361 | the poll's loop over the map in a given order queues what the Emission specification says |
| TranslDataClient.Uris | src/sonic_data_client/transl_data_client.go:338 | one URI per path, each the map's URI for it |
| GnmiServer.CheckEncodingAndModel | gnmi_server/server.go:135-149 | an encoding passes exactly when it is JSON or JSON_IETF, whatever the models; any other is "unsupported encoding: " and its name; the check never panics |
| GnmiServer.GetReply | gnmi_server/server.go:152-206 | Get fails with Unimplemented exactly when the request type is not ALL, the encoding is unsupported or the target is missing or empty; other failures are NotFound; a reply has one slot per requested path, slot i holding the client's i-th value under the request prefix and slots past the values left nil |
| GnmiServer.Get | gnmi_server/server.go:152-206 | the handler's checks in order, the client of the target and the slot-by-slot fill compute the GetReply specification |
| GnmiServer.OthersUsesNonDbClient | gnmi_server/server.go:177-182 | a request for OTHERS never consults the database client |
| GnmiServer.UpdateVal | gnmi_server/server.go:209-255 | only integers, strings and JSON_IETF values convert; an integer becomes its base-10 text, a string itself; any other kind is the "type not supported" error; a nil value or JSON_IETF text that is not an object panics; an object converts as its members do |
| GnmiServer.IntValReadsBack | gnmi_server/server.go:211-212 | an integer's text reads back as the integer: a minus sign exactly when negative, then the decimal digits of its magnitude |
| GnmiServer.MembersVal | gnmi_server/server.go:221-251 | an object converts exactly when every member is a string, number, boolean or object; with an object member the result holds exactly the object members, otherwise every member's field text |
| GnmiServer.GetUpdateVal | gnmi_server/server.go:209-255 | the switch on the kind of value computes the UpdateVal specification |
| GnmiServer.ConvertMembers | gnmi_server/server.go:221-251 | the member loop and the choice of result compute the MembersVal specification |
| GnmiServer.CollectMembers | gnmi_server/server.go:225-246 | the member loop succeeds exactly when every member is supported, and then holds each field member's text and each object member's members |
| GnmiServer.MixedObjectDropsFields | gnmi_server/server.go:247-251 | an object that mixes field values and objects passes on its objects only: its field values never reach the client |
| GnmiServer.Execute | gnmi_server/server.go:282-327 | a halted run failed with code Unknown (an error the handler returns as is) or panicked |
| GnmiServer.SetReply | gnmi_server/server.go:258-334 | Set fails with Unimplemented exactly when the target is missing or is not CONFIG_DB, and with NotFound exactly when the client cannot be made; only an accepted request calls the client; a reply carries the request prefix |
| GnmiServer.StepsLayout | gnmi_server/server.go:282-327 | the operations run in Set's order: the deletes with the empty string, then the replaces, then the updates, each with its converted value |
| GnmiServer.HaltStays | gnmi_server/server.go:282-327 | a failure is final: later operations change nothing |
| GnmiServer.Set | gnmi_server/server.go:258-334 | the handler's checks and its three loops compute the SetReply specification, reply and client calls alike |
| GnmiServer.ApplyAll | gnmi_server/server.go:282-333 | the three loops over an accepted request give the reply and calls of running every operation in order |
| GnmiServer.ApplyDeletes | gnmi_server/server.go:282-293 | the delete loop writes each path with the empty string, recording one result per delete or stopping at the first failure; the calls made are the first paths' empty writes in order, and on success there is one DELETE result per path |
| GnmiServer.DeletesRun | gnmi_server/server.go:282-293 | over delete operations alone, the client calls so far are empty writes of the paths in request order, and while no write has failed there is one DELETE result per call |
| GnmiServer.ApplyUpdates | gnmi_server/server.go:295-327 | a replace or update loop converts and writes each value, recording one result per operation or stopping at the first failure |
| GnmiServer.ExecuteGoing | gnmi_server/server.go:282-327 | without failure, each operation has been passed to the client and recorded with its path and kind, in order |
| GnmiServer.SetResultsInOrder | gnmi_server/server.go:282-333 | a successful Set reports every delete, then every replace, then every update, in request order with its operation, and has called the client once per operation |
| GnmiServer.FirstFailureAborts | gnmi_server/server.go:282-327 | a failed Set stopped at its first failing operation: the client was called for every operation before it, and for the failing one only when the client's write failed |

## Left out

- Redis connections and their failures: Ping, and errors from KEYS, EXISTS or HGETALL on a live connection. The databases are inputs, so a read of a missing key or field is the only failure modelled.
- Goroutines, channels, WaitGroups, the priority queue, the `reflect.Select` tickers, sleeps and the RWMutex on the stats ring. This removes the loops of StreamRun, PollRun, OnceRun and Close in virtual_database_client/db_client.go:126-163 and sonic_data_client/db_client.go:161-245, dbFieldMultiSubscribe, dbFieldSubscribe, dbSingleTableKeySubscribe and dbTableKeySubscribe (sonic_data_client/db_client.go:682-960), dbSingleTableKeySubscribe and dbPathSubscribe of virtual_database_client/path.go:145-240 beyond their message merge, pollStats' loop and TranslSubscribe. What one step of these loops computes is modelled: the change merge, the keyspace patterns, one tick and one poll.
- Keyspace notifications and pubsub timeouts: the model starts from a notification's channel and payload.
- Clocks: timestamps are parameters.
- Command output (`exec.Command`), `/proc` readers, files and syslog auditing are parameters. This covers getCommandOut, linuxproc, ioutil.ReadFile and `__log_audit_msg`.
- JSON and YAML encoding and decoding (`json.Marshal`, `json.Unmarshal`, `json.Compact`, `yaml.Unmarshal`, `emitJSON`). The model yields the data a getter would marshal, and a JSON_IETF value carries its decoded document. Marshal errors and malformed JSON bytes are not modelled.
- Go's `%v` rendering of paths and values is omitted from the error messages that print one.
- The nil and empty slices and maps of Go are not distinguished.
- Floating point: getrate, GetRxTxRate, GetMemInfo, GetDiskUsage and GetVersion in sonic_data_client/system.go. The float64 branch of getUpdateVal is the parameter `formatFloat`.
- translib: Get, Create, Update, Delete, Subscribe, Action, IsSubscribeSupported and GetModels are parameters or the calls a method yields. TranslProcessGet, TranslProcessDelete, TranslProcessReplace, TranslProcessUpdate, TranslProcessAction and GetModels of transl_utils/transl_utils.go are thin wrappers around them and are not modelled. Nor is TranslClient.Get (src/sonic_data_client/transl_data_client.go:56-86): it reads the same URIs as a poll through translib.
- `regexp` matching in tableData2Msi is the predicate `matches`.
- The ON_CHANGE subscriptions that StreamRun hands to TranslSubscribe are recorded but not followed.
- v2rTriePopulate and the trie of sonic_data_client (trie.go of that package) are not part of this model. The lookup a path takes there is the parameter `find` (SdcVpath, SdcVirtualDb, SdcDbClient) or an exact match over the registered table (SdcNonDbClient).
- initCountersNameMap, getSupportedFields and getCountersMap of sonic_data_client/vpath.go:77-124 read Redis into maps. Those maps are an input of SdcVpath.
- v2rCpuStats (sonic_data_client/vpath.go:223-250) is not registered in that revision's translation table, so no path reaches it.
- NewDbClient's PFC-WD map load in sonic_data_client/db_client.go is an outcome parameter of SdcDbClient.NewDbClient. The load itself is modelled in VdbMapInit.
- The deprecated `element` field of gNMI paths is not modelled, nor are Encoding and DataType numbers outside their enums.
- The data client's Set of sonic_data_client is the parameter `write`, and NewDbClient's failure inside the Set handler is the parameter `clientErr`.
- A linuxproc.Stat sample is modelled as its aggregate CPU line and its per-CPU lines only; its other fields are never read by the modelled code.
- useRedisTcpClient, the package init functions and the Redis client tables they fill are the connection set-up, not modelled.
- SdcNonDbClient.PercentOfBusyTicks: the 0-100 bound is stated only when no uint64 tick difference wraps around. The wrapped formula itself is modelled.
- SdcNonDbClient.StatsRing.GetCpuUtilStat: reads the 5-minute window 3000 samples back, as intended, not 30000 as written. The as-written slot is exhibited under Findings.
- TranslDataClient.StreamRun: `subscribe_mode` resolution, intervals, ticker grouping and the time.NewTicker panic are modelled. The MinInterval × time.Second product is computed without int64 overflow.
- Redis's glob matching of the KEYS argument is not part of this model. The model reads `name*` as "starts with `name`" and a pattern without `*` as the key itself. This agrees with Redis for names without `*`, `?`, `[`, `]` and `\`, which holds for the fixed prefixes of the alias, PFC-WD, virtual-database and CONFIG_DB dump reads. Where the table name comes from the request, a name holding one of these characters is matched literally in the model but expanded by Redis; the members below say what that changes.
- SdcPath.GetTblPath: for a two-name path the table is found when some key literally starts with the table name. For ["CONFIG_DB","*"] Redis's KEYS `**` matches every key and the path resolves, while the model reports "failed to find".
- SdcDbClient.ShapeTablePath: the bare-table case (two names) takes KEYS `table*` as a literal prefix, so a table name with glob metacharacters, such as `*` in ["CONFIG_DB","*"], gives "Failed to find" where the source resolves the path.
- SdcDbClient.ShapeTable: "some key starts with the table name" is the literal-prefix reading of KEYS `name*`. A name with glob metacharacters can resolve in the source and fail in the model.
- SdcDbClient.DbKeys: KEYS `table<sep>*` and KEYS `table` are read as a literal prefix and a literal key. A table name with glob metacharacters lists only the keys that literally carry it, not the keys Redis's pattern matches (for `*`, the keys of every table).
- SdcDbClient.WholeTableRead: "every key of the table" comes from the literal-prefix KEYS of DbKeys. A wildcard table name that Redis expands to many tables reads only the keys that literally start with it.
- GoStrings.IsSpace: only the six ASCII white-space characters separate fields; the other Unicode spaces that unicode.IsSpace accepts (U+0085, U+00A0 and the U+2000 block among them) are treated as ordinary characters.
- Telemetry start-up, TLS, dial-out, the gNOI services, the PAS monitor script and the test files are outside the core.
- `new_vpath.go` does not compile, so it has no behaviour to model.

## Findings

| source | as written | input that shows it | evidently intended | confidence | as-written member | corrected member |
|---|---|---|---|---|---|---|
| sonic_data_client/non_db_client.go:206 | `last = (writeIdx + statsRingCap - 30000) % statsRingCap` on uint64 with a capacity of 3000: the subtraction wraps, and since 2^64 mod 3000 = 616 the slot read is (writeIdx + 616) % 3000 | any write index, e.g. 0: the 5-minute slot is 616, which holds the sample 2383 intervals (about 238 s) before the latest instead of the one 2999 intervals (5 minutes) before it | the sample 3000 writes back, slot (writeIdx + 3000 - 3000) % 3000 | not executed | SdcNonDbClient.FiveMinuteSampleAsWritten | SdcNonDbClient.StatsRing.GetCpuUtilStat |
