/** ServiceRegister: publishes one endpoint node per contract under the current
    session, as base/service/endpoint, in the coordination tree. */
module ServiceRegistry {
  import opened Outcomes
  import opened ZkStore

  /** One contract the process exposes (ContractModel). */
  datatype ContractModel = ContractModel(url: string, contract: string)

  /** The record published for one contract (AddressModel). */
  datatype AddressModel = AddressModel(
    url: string,
    serviceNodeName: string,
    endpointNodeName: string,
    updateTime: int)

  /** The default DateTime, which UpdateTime holds until the pass stamps it. */
  const MinTime: int := 0

  /** The helpers whose code is not part of this model: ParseServiceName,
      EndpointNodeName and the serializer. */
  datatype Naming = Naming(
    parseServiceName: string -> string,
    endpointNodeName: string -> string,
    serialize: AddressModel -> Bytes)

  /** The Func<List<ContractModel>> that lists the contracts to publish. */
  type Provider = () -> seq<ContractModel>

  datatype ArgumentError = ArgumentNull(paramName: string)

  /** The message Reg logs when a pass fails ("service registration failed"). */
  const RegistrationFailed: string := "注册服务失败"

  datatype LogEntry = ErrorLog(message: string, cause: ZkError)

  /** The constructor's argument check: a null provider is refused with an
      argument-null error naming the parameter, any other is kept as given. */
  function CheckProvider(contracts: Option<Provider>): (r: Result<Provider, ArgumentError>)
    ensures r.Err? <==> contracts.None?
    ensures r.Err? ==> r.error == ArgumentNull("_contracts")
    ensures r.Ok? ==> contracts.Some? && r.value == contracts.value
  {
    match contracts
    case None => Err(ArgumentNull("_contracts"))
    case Some(p) => Ok(p)
  }

  /** The projection of the contracts into records (the Select): one record per
      contract, in order, all carrying the endpoint name of the one session id. */
  function BuildRecords(contracts: seq<ContractModel>, sessionId: string, naming: Naming): (list: seq<AddressModel>)
    ensures |list| == |contracts|
    ensures forall i :: 0 <= i < |list| ==>
      && list[i].url == contracts[i].url
      && list[i].serviceNodeName == naming.parseServiceName(contracts[i].contract)
      && list[i].endpointNodeName == naming.endpointNodeName(sessionId)
      && list[i].updateTime == MinTime
  {
    seq(|contracts|, i requires 0 <= i < |contracts| =>
      AddressModel(contracts[i].url, naming.parseServiceName(contracts[i].contract),
                   naming.endpointNodeName(sessionId), MinTime))
  }

  /** The loop's `m.UpdateTime = now` over the whole list. */
  function Stamped(list: seq<AddressModel>, now: int): (r: seq<AddressModel>)
    ensures |r| == |list|
    ensures forall i :: 0 <= i < |r| ==> r[i] == list[i].(updateTime := now)
  {
    seq(|list|, i requires 0 <= i < |list| => list[i].(updateTime := now))
  }

  /** The records of one pass as they are written: one per contract, in order,
      with the contract's URL and service name, and all sharing the endpoint
      name of the one session id and the one time read before the loop. */
  function PassRecords(contracts: seq<ContractModel>, sessionId: string, now: int, naming: Naming): (recs: seq<AddressModel>)
    ensures |recs| == |contracts|
    ensures forall i :: 0 <= i < |recs| ==>
      recs[i] == AddressModel(contracts[i].url, naming.parseServiceName(contracts[i].contract),
                              naming.endpointNodeName(sessionId), now)
  {
    Stamped(BuildRecords(contracts, sessionId, naming), now)
  }

  /** base/service: the persistent parent of a record's node. */
  function ServicePath(basePath: string, m: AddressModel): (p: string)
    ensures |p| == |basePath| + 1 + |m.serviceNodeName|
    ensures p[..|basePath| + 1] == basePath + "/" && p[|basePath| + 1..] == m.serviceNodeName
  {
    basePath + "/" + m.serviceNodeName
  }

  /** base/service/endpoint: the record's own node. */
  function NodePath(basePath: string, m: AddressModel): (p: string)
    ensures var parent := ServicePath(basePath, m);
      && |p| == |parent| + 1 + |m.endpointNodeName|
      && p[..|parent| + 1] == parent + "/" && p[|parent| + 1..] == m.endpointNodeName
  {
    ServicePath(basePath, m) + "/" + m.endpointNodeName
  }

  /** The check-then-act write: an existing node gets the new data and keeps its
      mode; a missing one is created ephemeral with that data. */
  function SetOrCreate(t: Tree, path: string, data: Bytes): (r: Tree)
    ensures r.Keys == t.Keys + {path}
    ensures r[path].data == data
    ensures r[path].mode == if path in t then t[path].mode else Ephemeral
  {
    if path in t then t[path := ZNode(data, t[path].mode)] else t[path := ZNode(data, Ephemeral)]
  }

  /** The write leaves every other existing node as it was. */
  lemma SetOrCreateFrame(t: Tree, path: string, data: Bytes, q: string)
    requires q in t && q != path
    ensures SetOrCreate(t, path, data)[q] == t[q]
  {
  }

  /** One iteration of the loop on a tree whose calls all succeed. */
  function PublishRecord(t: Tree, basePath: string, m: AddressModel, naming: Naming): (r: Tree)
    ensures r.Keys == t.Keys + {ServicePath(basePath, m), NodePath(basePath, m)}
    ensures r[NodePath(basePath, m)].data == naming.serialize(m)
  {
    SetOrCreate(EnsurePersistent(t, ServicePath(basePath, m)), NodePath(basePath, m), naming.serialize(m))
  }

  /** The tree after the loop has run over `recs` with every call succeeding. */
  function Publish(t: Tree, basePath: string, recs: seq<AddressModel>, naming: Naming): (r: Tree)
    ensures t.Keys <= r.Keys
    ensures recs != [] ==> NodePath(basePath, recs[|recs| - 1]) in r
    ensures recs != [] ==> r[NodePath(basePath, recs[|recs| - 1])].data == naming.serialize(recs[|recs| - 1])
    decreases |recs|
  {
    if recs == [] then t
    else PublishRecord(Publish(t, basePath, recs[..|recs| - 1], naming), basePath, recs[|recs| - 1], naming)
  }

  /** The tree left behind when the connection drops after `calls` calls: the
      records before calls / 3 are written, and the failing record's parent
      path is ensured when its first call got through. */
  function Interrupted(t: Tree, basePath: string, recs: seq<AddressModel>, naming: Naming, calls: nat): (r: Tree)
    requires calls < 3 * |recs|
    ensures var done := Publish(t, basePath, recs[..calls / 3], naming);
      done.Keys <= r.Keys <= done.Keys + {ServicePath(basePath, recs[calls / 3])}
  {
    var k := calls / 3;
    var done := Publish(t, basePath, recs[..k], naming);
    if calls % 3 == 0 then done else EnsurePersistent(done, ServicePath(basePath, recs[k]))
  }

  /** Interrupted during record `i`: after none, or after some, of its three calls. */
  lemma InterruptedAt(t: Tree, basePath: string, recs: seq<AddressModel>, naming: Naming, i: nat, calls: nat)
    requires i < |recs| && 3 * i <= calls < 3 * i + 3
    ensures Interrupted(t, basePath, recs, naming, calls)
         == if calls == 3 * i then Publish(t, basePath, recs[..i], naming)
            else EnsurePersistent(Publish(t, basePath, recs[..i], naming), ServicePath(basePath, recs[i]))
  {
    assert calls / 3 == i;
    assert calls % 3 == 0 <==> calls == 3 * i;
  }

  /** How a pass over `recs` ends: each record takes three calls. */
  function PassOutcome(link: Link, recs: seq<AddressModel>): (o: Outcome<ZkError>) {
    if Survives(link, 3 * |recs|) then Pass else Fail(ConnectionLoss)
  }

  /** The tree after a pass over `recs`, complete or interrupted. */
  function PassTree(t: Tree, link: Link, basePath: string, recs: seq<AddressModel>, naming: Naming): (r: Tree) {
    if Survives(link, 3 * |recs|) then Publish(t, basePath, recs, naming)
    else Interrupted(t, basePath, recs, naming, link.remaining)
  }

  /** A pass whose record `i` loses the connection ends with ConnectionLoss and
      leaves the tree as Interrupted describes it. */
  lemma PassStopsAt(t: Tree, link: Link, basePath: string, recs: seq<AddressModel>, naming: Naming, i: nat)
    requires i < |recs| && Survives(link, 3 * i) && !Survives(Drain(link, 3 * i), 3)
    ensures PassOutcome(link, recs) == Fail(ConnectionLoss)
    ensures PassTree(t, link, basePath, recs, naming)
         == if Drain(link, 3 * i).remaining == 0 then Publish(t, basePath, recs[..i], naming)
            else EnsurePersistent(Publish(t, basePath, recs[..i], naming), ServicePath(basePath, recs[i]))
  {
    assert link.DropsAfter? && 3 * i <= link.remaining < 3 * i + 3;
    InterruptedAt(t, basePath, recs, naming, i, link.remaining);
  }

  /** A pass whose calls all get through ends with Pass and the published tree. */
  lemma PassCompletes(t: Tree, link: Link, basePath: string, recs: seq<AddressModel>, naming: Naming)
    requires Survives(link, 3 * |recs|)
    ensures PassOutcome(link, recs) == Pass
    ensures PassTree(t, link, basePath, recs, naming) == Publish(t, basePath, recs, naming)
  {
  }

  /** Publishing one more record extends the pass by one iteration. */
  lemma PublishStep(t: Tree, basePath: string, recs: seq<AddressModel>, naming: Naming, i: nat)
    requires i < |recs|
    ensures Publish(t, basePath, recs[..i + 1], naming)
         == PublishRecord(Publish(t, basePath, recs[..i], naming), basePath, recs[i], naming)
  {
    assert recs[..i + 1][..i] == recs[..i];
  }

  class ServiceRegister {
    const basePath: string
    const contracts: Provider
    const naming: Naming
    const client: ZkClient
    var log: seq<LogEntry>

    constructor (basePath: string, client: ZkClient, contracts: Provider, naming: Naming)
      ensures this.basePath == basePath && this.client == client
      ensures this.contracts == contracts && this.naming == naming
      ensures log == []
    {
      this.basePath := basePath;
      this.client := client;
      this.contracts := contracts;
      this.naming := naming;
      log := [];
    }

    /** The constructor as the source has it: a null provider throws, and no
        object is made. */
    static method New(basePath: string, client: ZkClient, contracts: Option<Provider>, naming: Naming)
      returns (r: Result<ServiceRegister, ArgumentError>)
      ensures r.Err? <==> contracts.None?
      ensures r.Err? ==> r.error == ArgumentNull("_contracts")
      ensures r.Ok? ==> fresh(r.value) && r.value.log == []
      ensures r.Ok? ==> r.value.contracts == contracts.value && r.value.client == client
      ensures r.Ok? ==> r.value.basePath == basePath && r.value.naming == naming
    {
      var checked := CheckProvider(contracts);
      if checked.Err? {
        return Err(checked.error);
      }
      var reg := new ServiceRegister(basePath, client, checked.value, naming);
      return Ok(reg);
    }

    /** One iteration of the loop: ensure base/service, then overwrite
        base/service/endpoint if it exists or create it ephemeral if not. The
        first failing call ends the iteration with that error. */
    method WriteRecord(m: AddressModel) returns (o: Outcome<ZkError>)
      modifies client
      ensures client.sessionId == old(client.sessionId)
      ensures o.Pass? <==> Survives(old(client.link), 3)
      ensures o.Pass? ==> client.nodes == PublishRecord(old(client.nodes), basePath, m, naming)
      ensures o.Pass? ==> client.link == Drain(old(client.link), 3)
      ensures o.Fail? ==> o.error == ConnectionLoss && client.link == DropsAfter(0)
      ensures o.Fail? ==> client.nodes == if old(client.link).remaining == 0 then old(client.nodes)
                                          else EnsurePersistent(old(client.nodes), ServicePath(basePath, m))
    {
      var servicePath := basePath + "/" + m.serviceNodeName;
      var ensured := client.EnsurePersistentPath(servicePath);
      if ensured.Fail? {
        return ensured;
      }
      var path := servicePath + "/" + m.endpointNodeName;
      var data := naming.serialize(m);
      var present := client.Exists(path);
      if present.Err? {
        return Fail(present.error);
      }
      if present.value {
        o := client.SetData(path, data);
      } else {
        o := client.CreateNode(path, Ephemeral, data);
      }
    }

    /** One registration pass: read the session id once, build the records,
        stamp each with the one time read before the loop and write it. The
        first failing call ends the pass with that error. */
    method RegisterService(now: int) returns (o: Outcome<ZkError>)
      modifies client
      ensures client.sessionId == old(client.sessionId)
      ensures var recs := PassRecords(contracts(), old(client.sessionId), now, naming);
        && o == PassOutcome(old(client.link), recs)
        && client.nodes == PassTree(old(client.nodes), old(client.link), basePath, recs, naming)
        && client.link == (if Survives(old(client.link), 3 * |recs|) then Drain(old(client.link), 3 * |recs|)
                           else DropsAfter(0))
    {
      var nodeId := client.sessionId;
      var list := BuildRecords(contracts(), nodeId, naming);
      ghost var recs := Stamped(list, now);
      assert recs == PassRecords(contracts(), nodeId, now, naming);
      ghost var t0, link0 := client.nodes, client.link;
      var i := 0;
      while i < |list|
        invariant 0 <= i <= |list| == |recs|
        invariant client.sessionId == nodeId
        invariant Survives(link0, 3 * i)
        invariant client.link == Drain(link0, 3 * i)
        invariant client.nodes == Publish(t0, basePath, recs[..i], naming)
      {
        var m := list[i].(updateTime := now);
        assert m == recs[i];
        ghost var before, linkBefore := client.nodes, client.link;
        o := WriteRecord(m);
        if o.Fail? {
          assert client.nodes == if linkBefore.remaining == 0 then before
                                 else EnsurePersistent(before, ServicePath(basePath, m));
          PassStopsAt(t0, link0, basePath, recs, naming, i);
          return;
        }
        DrainTwice(link0, 3 * i, 3);
        assert 3 * i + 3 == 3 * (i + 1);
        PublishStep(t0, basePath, recs, naming, i);
        assert client.nodes == PublishRecord(before, basePath, recs[i], naming);
        i := i + 1;
      }
      assert recs[..|recs|] == recs;
      PassCompletes(t0, link0, basePath, recs, naming);
      return Pass;
    }

    /** The handler run on every connect: a failed pass is caught and logged,
        never rethrown. */
    method Reg(now: int)
      modifies this, client
      ensures client.sessionId == old(client.sessionId)
      ensures var recs := PassRecords(contracts(), old(client.sessionId), now, naming);
        && client.nodes == PassTree(old(client.nodes), old(client.link), basePath, recs, naming)
        && client.link == (if Survives(old(client.link), 3 * |recs|) then Drain(old(client.link), 3 * |recs|)
                           else DropsAfter(0))
        && log == old(log) + (if PassOutcome(old(client.link), recs).Pass? then []
                              else [ErrorLog(RegistrationFailed, ConnectionLoss)])
    {
      var o := RegisterService(now);
      if o.Fail? {
        log := log + [ErrorLog(RegistrationFailed, o.error)];
      }
    }
  }
}
