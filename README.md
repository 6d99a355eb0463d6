# Service registration and per-request caching, modelled in Dafny

This project models two pieces of the WCloud code base and proves what they
promise.

**Service registration** (`src/Lib.zookeeper/ServiceManager/ServiceRegister.cs`).
A `ServiceRegister` publishes the contracts the process exposes into a
ZooKeeper-style tree. On every connect its handler `Reg` runs
`RegisterService`. That method reads the session id once and projects the
contract list into address records. All records share the endpoint node name
derived from that session id. Each record is stamped with one time read before
the loop. For each record the pass then:

1. ensures the persistent parent `base/service` exists;
2. overwrites `base/service/endpoint` if it exists, keeping its mode;
3. otherwise creates it as an ephemeral node.

The first failing call ends the pass. `Reg` catches the failure and only logs it.

- `ZkStore` models the client. The tree is a `map<string, ZNode>` where a node
  holds its data and its creation mode. `ZkClient` is a class whose `nodes` and
  `link` fields its methods update in place; `sessionId` stays fixed.
- `Link` models connection loss. Either every call reaches the server, or only
  the next `n` calls do.
- `ServiceRegistry` holds the records, the paths and the class
  `ServiceRegister`. `RegisterService` keeps its loop. It is proved against
  `Publish`, the tree after a complete pass, and `Interrupted`, the tree after
  a pass cut short.
- `ServiceRegistryLemmas` proves what those functions guarantee:
  - every contract is published under the current session;
  - last writer wins, and records that share a node collapse into one;
  - nothing else changes, and nothing is deleted;
  - a repeated pass is idempotent;
  - passes under sessions with different endpoint names write disjoint node
    paths (one-segment service names);
  - an interrupted pass keeps its earlier writes and leaves every other node
    and every mode as it was.

**Per-request memoisation** (`src/WCloud.Framework.MVC/Helper/ServerHelper.cs`).
`CacheInHttpContext` and `CacheInHttpContextAsync` get or compute a value under
a key of `HttpContext.Items`. A hit on a `CacheResult<T>` returns its data. A
key holding anything else returns `default`. A miss invokes `func` and stores
`CacheResult(d)`. The synchronous version stores `d` even when it is null. The
asynchronous version stores only a non-null `d`.

- `HttpContext` is a class whose `items` map the two methods update in place.
- `Func` is the factory, with a ghost count of its invocations.
- `CacheStep` states what one call does.
- `Repeat` runs a sequence of calls. Its lemmas state how often `func` runs in
  each version.

Functions the model cannot see are parameters:

- `ParseServiceName`, `EndpointNodeName` and the serializer are fields of
  `Naming`.
- The contract provider is a `() -> seq<ContractModel>`.
- `DateTime.Now` is the parameter `now`.
- The session id is the string the client reports.

Two behaviours of the code are worth stating, and the model follows them:

- The `foreach` in `RegisterService` has no handler of its own, so the first
  failing call ends the pass and the remaining records are not written.
- The doc comment of `CacheInHttpContext` says null cannot be cached, but the
  synchronous code stores a null result wrapped in `CacheResult`
  (`SyncInvokesOnce`).

## Model

| member | source | states |
|---|---|---|
| ServiceRegistry.CheckProvider | src/Lib.zookeeper/ServiceManager/ServiceRegister.cs:20 | a null provider is refused with an argument-null error naming `_contracts`; any other provider is kept unchanged |
| ServiceRegistry.ServiceRegister.New | src/Lib.zookeeper/ServiceManager/ServiceRegister.cs:18-26 | construction fails exactly when the provider is null; otherwise it yields a fresh register holding that provider, client and base path, with an empty log |
| ServiceRegistry.BuildRecords | src/Lib.zookeeper/ServiceManager/ServiceRegister.cs:43-50 | one record per contract, in order, with the contract's URL and parsed service name; every record carries the same endpoint name, that of the one session id |
| ServiceRegistry.PassRecords | src/Lib.zookeeper/ServiceManager/ServiceRegister.cs:43-55 | record i of a pass is exactly contract i's URL and parsed service name, the endpoint name of the one session id, and the one time `now` read before the loop |
| ServiceRegistry.Stamped | src/Lib.zookeeper/ServiceManager/ServiceRegister.cs:55 | the loop's time stamp over the list: each record keeps its URL, service and endpoint names, and its time becomes `now` |
| ServiceRegistry.ServicePath | src/Lib.zookeeper/ServiceManager/ServiceRegister.cs:57 | the parent path is the base path, a '/', then the record's service name |
| ServiceRegistry.NodePath | src/Lib.zookeeper/ServiceManager/ServiceRegister.cs:60 | the node path is the parent path, a '/', then the record's endpoint name |
| ServiceRegistry.SetOrCreate | src/Lib.zookeeper/ServiceManager/ServiceRegister.cs:62-67 | after the write the path exists with the new data; an existing node keeps its mode, a new one is ephemeral; no path other than the written one is added (the other nodes' values: `SetOrCreateFrame`) |
| ServiceRegistry.SetOrCreateFrame | src/Lib.zookeeper/ServiceManager/ServiceRegister.cs:62-67 | the write leaves every other existing node exactly as it was |
| ServiceRegistry.PublishRecord | src/Lib.zookeeper/ServiceManager/ServiceRegister.cs:55-67 | one loop iteration adds exactly the parent path and the node path, and the node holds the record's serialization |
| ServiceRegistry.Publish | src/Lib.zookeeper/ServiceManager/ServiceRegister.cs:53-68 | a complete pass deletes nothing, and the last record's node holds that record's serialization |
| ServiceRegistry.Interrupted | src/Lib.zookeeper/ServiceManager/ServiceRegister.cs:53-68 | a pass cut short during record k holds every path of the first k records and adds at most record k's parent beyond them |
| ServiceRegistry.ServiceRegister.WriteRecord | src/Lib.zookeeper/ServiceManager/ServiceRegister.cs:55-67 | one loop iteration: on success the tree is the parent ensured, then the node written as above, and three calls are used; on a lost connection the tree holds at most the ensured parent and the link is exhausted |
| ServiceRegistry.ServiceRegister.RegisterService | src/Lib.zookeeper/ServiceManager/ServiceRegister.cs:41-69 | the pass succeeds iff all 3·n calls get through; the tree is then `Publish` of the records and the link is drained by 3·n calls, and otherwise the tree is `Interrupted` at the failing call and the link exhausted; the session is unchanged |
| ServiceRegistry.ServiceRegister.Reg | src/Lib.zookeeper/ServiceManager/ServiceRegister.cs:28-39 | the handler never fails; the tree and the link are as after the pass, and the log gains one "registration failed" entry exactly when the pass failed |
| ZkStore.EnsurePersistent | src/Lib.zookeeper/ServiceManager/ServiceRegister.cs:58 | assumed semantics of EnsurePersistentPath: the path exists afterwards and no other path is added; a missing one is created empty and persistent (existing nodes untouched: `EnsurePersistentFrame`) |
| ZkStore.EnsurePersistentFrame | src/Lib.zookeeper/ServiceManager/ServiceRegister.cs:58 | ensuring a path leaves every node that already exists exactly as it was |
| ZkStore.ZkClient.EnsurePersistentPath | src/Lib.zookeeper/ServiceManager/ServiceRegister.cs:58 | assumed client call: performs `EnsurePersistent` if the connection lets the call through, else fails with ConnectionLoss and changes nothing |
| ZkStore.ZkClient.Exists | src/Lib.zookeeper/ServiceManager/ServiceRegister.cs:62 | assumed client call: reports whether the path is in the tree, changing nothing but the link |
| ZkStore.ZkClient.SetData | src/Lib.zookeeper/ServiceManager/ServiceRegister.cs:64 | assumed client call: replaces the data of an existing node and keeps its mode; a missing node is NoNode |
| ZkStore.ZkClient.CreateNode | src/Lib.zookeeper/ServiceManager/ServiceRegister.cs:67 | assumed client call: creates the node with the given mode and data; an existing node is NodeExists |
| ServiceRegistryLemmas.LastWriter | src/Lib.zookeeper/ServiceManager/ServiceRegister.cs:53-68 | the index of the last record of the pass written to a node path; no later record writes that path |
| ServiceRegistryLemmas.PublishKeys | src/Lib.zookeeper/ServiceManager/ServiceRegister.cs:53-68 | a complete pass leaves exactly the old paths, the ensured parent paths and the record paths: nothing is deleted and nothing else is added |
| ServiceRegistryLemmas.PublishKeepsOthers | src/Lib.zookeeper/ServiceManager/ServiceRegister.cs:53-68 | a node that is no record's node, including an existing parent, is left exactly as it was |
| ServiceRegistryLemmas.PublishKeepsMode | src/Lib.zookeeper/ServiceManager/ServiceRegister.cs:62-64 | a node that existed before the pass keeps its mode: overwriting replaces only the data |
| ServiceRegistryLemmas.PublishPayload | src/Lib.zookeeper/ServiceManager/ServiceRegister.cs:53-68 | every record path holds the serialization of the last record written to it (last writer wins) |
| ServiceRegistryLemmas.PublishCreatesEphemeral | src/Lib.zookeeper/ServiceManager/ServiceRegister.cs:65-67 | a record path that did not exist, and is no parent path, is created ephemeral |
| ServiceRegistryLemmas.PublishCreatesParent | src/Lib.zookeeper/ServiceManager/ServiceRegister.cs:57-58 | a parent path that did not exist, and is no record path, is created empty and persistent |
| ServiceRegistryLemmas.PublishIdempotent | src/Lib.zookeeper/ServiceManager/ServiceRegister.cs:53-68 | running the same pass twice leaves the same tree as running it once |
| ServiceRegistryLemmas.NodePathRoundTrip | src/Lib.zookeeper/ServiceManager/ServiceRegister.cs:57-60 | a node path `base/service/endpoint` with a one-segment service name reads back as that service and that endpoint |
| ServiceRegistryLemmas.ServicePathHasNoEndpoint | src/Lib.zookeeper/ServiceManager/ServiceRegister.cs:57 | a parent path `base/service` has no endpoint segment, so it is never a node path |
| ServiceRegistryLemmas.NodePathInjective | src/Lib.zookeeper/ServiceManager/ServiceRegister.cs:57-60 | two records share a node path iff they share service and endpoint names (one-segment service names) |
| ServiceRegistryLemmas.EveryContractPublished | src/Lib.zookeeper/ServiceManager/ServiceRegister.cs:43-68 | after a pass with no failure, each contract's node `base/service/endpoint(session)` exists and holds a record stamped `now` with this session's endpoint name, from the last contract mapped to that node |
| ServiceRegistryLemmas.OwnRecordPublished | src/Lib.zookeeper/ServiceManager/ServiceRegister.cs:43-68 | if no other contract has the same service and names are one segment, the node holds exactly that contract's record; its mode is the old one if it existed, else ephemeral |
| ServiceRegistryLemmas.RepeatPassOnlyRestamps | src/Lib.zookeeper/ServiceManager/ServiceRegister.cs:52-68 | a second pass in the same session at a later time creates no node, keeps all modes and other nodes, and only re-stamps the records |
| ServiceRegistryLemmas.NewSessionWritesNewNodes | src/Lib.zookeeper/ServiceManager/ServiceRegister.cs:43-60 | passes under sessions with different endpoint names write disjoint sets of nodes |
| ServiceRegistry.PassStopsAt | src/Lib.zookeeper/ServiceManager/ServiceRegister.cs:53-68 | when the connection drops during record i the pass fails with ConnectionLoss, leaving the first i records published plus, if one call of record i got through, its ensured parent |
| ServiceRegistryLemmas.RepublishOnlyRewrites | src/Lib.zookeeper/ServiceManager/ServiceRegister.cs:53-68 | a pass over a tree that already holds all its paths adds no node, keeps every mode and every other node, and only rewrites record data, last writer winning |
| ServiceRegistryLemmas.InterruptedKeys | src/Lib.zookeeper/ServiceManager/ServiceRegister.cs:53-68 | a pass cut short during record i deletes nothing, adds every earlier record's node, and adds no path beyond those and record i's parent |
| ServiceRegistryLemmas.InterruptedPayload | src/Lib.zookeeper/ServiceManager/ServiceRegister.cs:53-68 | a pass cut short during record i leaves each earlier record's node holding the last of those records written to it |
| ServiceRegistryLemmas.InterruptedKeepsOthers | src/Lib.zookeeper/ServiceManager/ServiceRegister.cs:53-68 | a pass cut short during record i leaves every old node that is no earlier record's node exactly as it was, record i's existing parent included |
| ServiceRegistryLemmas.InterruptedKeepsMode | src/Lib.zookeeper/ServiceManager/ServiceRegister.cs:53-68 | a pass cut short during record i keeps the mode of every node that existed before it |
| ServerHelper.CacheStep | src/WCloud.Framework.MVC/Helper/ServerHelper.cs:18-57 | `func` runs iff the key is absent; a CacheResult entry answers with its data, any other entry with default; a miss returns `func`'s value and stores it (async: only when non-null); only the key may change |
| ServerHelper.CacheInHttpContext | src/WCloud.Framework.MVC/Helper/ServerHelper.cs:18-35 | the synchronous call returns, stores and invokes exactly as `CacheStep` with null results stored |
| ServerHelper.CacheInHttpContextAsync | src/WCloud.Framework.MVC/Helper/ServerHelper.cs:37-57 | the asynchronous call returns, stores and invokes exactly as `CacheStep` with null results not stored |
| ServerHelper.RepeatPresent | src/WCloud.Framework.MVC/Helper/ServerHelper.cs:20-30 | once the key is present, any number of calls invoke nothing, change nothing and all return the entry's answer |
| ServerHelper.SyncInvokesOnce | src/WCloud.Framework.MVC/Helper/ServerHelper.cs:18-35 | in the synchronous version, over any run of calls on an absent key, `func` runs exactly once and every call returns its first value, null included |
| ServerHelper.AsyncInvokesUntilNonNull | src/WCloud.Framework.MVC/Helper/ServerHelper.cs:37-57 | in the asynchronous version, `func` runs on each call until it yields a non-null value, then never again; that value answers every later call |
| ServerHelper.SyncAsyncDiffer | src/WCloud.Framework.MVC/Helper/ServerHelper.cs:32-56 | both versions return the same value; their entries differ exactly when the key is absent and `func` yields null |
| ServerHelper.Func.Invoke | src/WCloud.Framework.MVC/Helper/ServerHelper.cs:32 | the factory returns its value and the count of invocations grows by one (the asynchronous call at line 51 is modelled the same way) |

## Left out

- ServiceRegistry.ServiceRegister.Reg: runs the pass once. `RetryAsync`, which re-invokes the pass, belongs to `ServiceManageBase`, whose source is not part of this model.
- `ServiceManageBase` is not part of this model. This leaves out `CreateClient`, the connection and session lifecycle, and the `OnConnectedAsync` event that the constructor subscribes `Reg` to.
- ZooKeeper's client and server are not part of this model. `EnsurePersistentPath` is modelled as creating only the given path, not its ancestors. `CreateNode` does not check that the parent exists. The server's removal of ephemeral nodes when a session ends is not modelled.
- Remote failures are modelled only as connection loss, a link that lets a given number of further calls through. Other server errors and concurrent writers are not modelled. In a sequential model the pass never meets NoNode or NodeExists, because it checks existence first.
- The provider is a pure function, so it returns the same list whenever it is invoked. The serializer, `ParseServiceName` and `EndpointNodeName` are uninterpreted. Properties that need one-segment service names take that as a hypothesis.
- `DateTime` is an `int` time, and its default value is modelled as 0. The session id is the string form the client reports.
- The logger is a sequence of log entries. The wrapping exception and the log sink are not modelled.
- async/await in both files is modelled as sequential calls.
- ServerHelper: `default(T)` is modelled as `Null`. For a value type T, C# returns its zero value instead, and the asynchronous null test never fails.
- ServerHelper: a `Func` returns the same value on every invocation. The lemmas over runs of calls take a sequence of values instead.
- ServiceRegistry.ServiceRegister.WriteRecord, ServiceRegistry.PassStopsAt, ServiceRegistryLemmas.InterruptedKeys: a call that fails with ConnectionLoss is assumed not to have reached the server. A real ZooKeeper client cannot tell whether a create or setData sent just before the loss was applied, so the failing record's node may also have been written. `Interrupted`, and so `RegisterService` and `Reg` on a failed pass, state only the case where it was not.
- ServiceRegistry.ServiceRegister.Reg: `Reg` catches every exception, and the log records only ConnectionLoss. Other exceptions are not modelled. These include a null list from the provider (line 45), a throwing `ParseServiceName` or `EndpointNodeName` (lines 48-49), and a throwing serializer at line 61, which fails after the parent path has already been ensured.
- ServerHelper.CacheInHttpContext: `Func.Invoke` cannot fail. A `func` that throws at line 32 would store nothing and propagate the exception, so a later call would invoke `func` again. This path is not modelled.
- ServerHelper.CacheInHttpContextAsync: a `func` whose task faults at line 51 stores nothing and propagates the exception. This path is not modelled either.
