/** The coordination-store client that ServiceRegister talks to. Its source is
    not part of this model: the tree is a map from full paths to nodes, and each
    call is one atomic step on that map that either reaches the server or fails
    with a lost connection. */
module ZkStore {
  import opened Outcomes

  type Bytes = seq<bv8>

  datatype CreateMode = Persistent | Ephemeral

  /** One node of the tree: the data it holds and the mode it was created with. */
  datatype ZNode = ZNode(data: Bytes, mode: CreateMode)

  type Tree = map<string, ZNode>

  datatype ZkError = ConnectionLoss | NoNode | NodeExists

  /** The state of the connection: every call gets through, or only the next
      `remaining` calls do and every call after them fails. */
  datatype Link = Healthy | DropsAfter(remaining: nat)

  /** The next `calls` calls all reach the server. */
  predicate Survives(link: Link, calls: nat) {
    link.Healthy? || calls <= link.remaining
  }

  /** The link after `calls` calls have gone through. */
  function Drain(link: Link, calls: nat): (l: Link)
    requires Survives(link, calls)
  {
    match link
    case Healthy => Healthy
    case DropsAfter(n) => DropsAfter(n - calls)
  }

  /** Draining in two steps is draining once by the sum. */
  lemma DrainTwice(link: Link, a: nat, b: nat)
    requires Survives(link, a) && Survives(Drain(link, a), b)
    ensures Survives(link, a + b) && Drain(Drain(link, a), b) == Drain(link, a + b)
  {
  }

  /** The tree after `path` is made to exist: an existing node is left as it
      is, a missing one is created empty and persistent. */
  function EnsurePersistent(t: Tree, path: string): (r: Tree)
    ensures r.Keys == t.Keys + {path}
    ensures path !in t ==> r[path] == ZNode([], Persistent)
  {
    if path in t then t else t[path := ZNode([], Persistent)]
  }

  /** Ensuring a path leaves every node that already exists as it was. */
  lemma EnsurePersistentFrame(t: Tree, path: string, q: string)
    requires q in t
    ensures EnsurePersistent(t, path)[q] == t[q]
  {
  }

  class ZkClient {
    var nodes: Tree
    var sessionId: string
    var link: Link

    constructor (sessionId: string, nodes: Tree, link: Link)
      ensures this.sessionId == sessionId && this.nodes == nodes && this.link == link
    {
      this.sessionId := sessionId;
      this.nodes := nodes;
      this.link := link;
    }

    /** EnsurePersistentPath: idempotent "create if absent" as a persistent node. */
    method EnsurePersistentPath(path: string) returns (o: Outcome<ZkError>)
      modifies this
      ensures sessionId == old(sessionId)
      ensures o.Pass? <==> Survives(old(link), 1)
      ensures o.Pass? ==> nodes == EnsurePersistent(old(nodes), path) && link == Drain(old(link), 1)
      ensures o.Fail? ==> o.error == ConnectionLoss && nodes == old(nodes) && link == old(link)
    {
      if !Survives(link, 1) {
        return Fail(ConnectionLoss);
      }
      nodes := EnsurePersistent(nodes, path);
      link := Drain(link, 1);
      return Pass;
    }

    /** ExistAsync_: whether a node is present at `path`. */
    method Exists(path: string) returns (r: Result<bool, ZkError>)
      modifies this
      ensures sessionId == old(sessionId) && nodes == old(nodes)
      ensures r.Ok? <==> Survives(old(link), 1)
      ensures r.Ok? ==> r.value == (path in nodes) && link == Drain(old(link), 1)
      ensures r.Err? ==> r.error == ConnectionLoss && link == old(link)
    {
      if !Survives(link, 1) {
        return Err(ConnectionLoss);
      }
      link := Drain(link, 1);
      return Ok(path in nodes);
    }

    /** setDataAsync: replaces the data of an existing node and keeps its mode;
        a missing node is an error. */
    method SetData(path: string, data: Bytes) returns (o: Outcome<ZkError>)
      modifies this
      ensures sessionId == old(sessionId)
      ensures o.Pass? <==> Survives(old(link), 1) && path in old(nodes)
      ensures o.Pass? ==> nodes == old(nodes)[path := ZNode(data, old(nodes)[path].mode)]
      ensures o.Fail? ==> nodes == old(nodes)
      ensures o.Fail? ==> o.error == if Survives(old(link), 1) then NoNode else ConnectionLoss
      ensures link == if Survives(old(link), 1) then Drain(old(link), 1) else old(link)
    {
      if !Survives(link, 1) {
        return Fail(ConnectionLoss);
      }
      link := Drain(link, 1);
      if path !in nodes {
        return Fail(NoNode);
      }
      nodes := nodes[path := ZNode(data, nodes[path].mode)];
      return Pass;
    }

    /** CreateNode_: creates a node with the given mode; an existing node is an error. */
    method CreateNode(path: string, mode: CreateMode, data: Bytes) returns (o: Outcome<ZkError>)
      modifies this
      ensures sessionId == old(sessionId)
      ensures o.Pass? <==> Survives(old(link), 1) && path !in old(nodes)
      ensures o.Pass? ==> nodes == old(nodes)[path := ZNode(data, mode)]
      ensures o.Fail? ==> nodes == old(nodes)
      ensures o.Fail? ==> o.error == if Survives(old(link), 1) then NodeExists else ConnectionLoss
      ensures link == if Survives(old(link), 1) then Drain(old(link), 1) else old(link)
    {
      if !Survives(link, 1) {
        return Fail(ConnectionLoss);
      }
      link := Drain(link, 1);
      if path in nodes {
        return Fail(NodeExists);
      }
      nodes := nodes[path := ZNode(data, mode)];
      return Pass;
    }
  }
}
