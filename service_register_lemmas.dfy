/** What a registration pass guarantees about the tree, proved about the
    functions that RegisterService is specified by. */
module ServiceRegistryLemmas {
  import opened ZkStore
  import opened ServiceRegistry

  /** The parent paths that a pass over `recs` ensures. */
  function ServicePaths(basePath: string, recs: seq<AddressModel>): (ps: set<string>)
    decreases |recs|
  {
    if recs == [] then {}
    else ServicePaths(basePath, recs[..|recs| - 1]) + {ServicePath(basePath, recs[|recs| - 1])}
  }

  /** The node paths that a pass over `recs` writes. */
  function NodePaths(basePath: string, recs: seq<AddressModel>): (ps: set<string>)
    decreases |recs|
  {
    if recs == [] then {}
    else NodePaths(basePath, recs[..|recs| - 1]) + {NodePath(basePath, recs[|recs| - 1])}
  }

  /** The index of the last record written to `p`: the one whose data the node
      holds after the pass. */
  function LastWriter(basePath: string, recs: seq<AddressModel>, p: string): (k: nat)
    requires p in NodePaths(basePath, recs)
    ensures k < |recs| && NodePath(basePath, recs[k]) == p
    ensures forall j :: k < j < |recs| ==> NodePath(basePath, recs[j]) != p
    decreases |recs|
  {
    var n := |recs| - 1;
    if NodePath(basePath, recs[n]) == p then n else LastWriter(basePath, recs[..n], p)
  }

  lemma {:induction false} InNodePaths(basePath: string, recs: seq<AddressModel>, i: nat)
    requires i < |recs|
    ensures NodePath(basePath, recs[i]) in NodePaths(basePath, recs)
    decreases |recs|
  {
    var n := |recs| - 1;
    if i < n {
      InNodePaths(basePath, recs[..n], i);
    }
  }

  // ---------------------------------------------------------------------------
  // Reading a path back: base/service/endpoint splits at the first '/' after base.

  /** The index of the first '/' in `s` at or after `from`, or |s| if none. */
  function FirstSlash(s: string, from: nat): (k: nat)
    ensures from <= k <= |s| || (k == |s| && |s| < from)
    decreases |s| - from
  {
    if from >= |s| then |s| else if s[from] == '/' then from else FirstSlash(s, from + 1)
  }

  /** The service segment of a path under `basePath`. */
  function ServiceOf(basePath: string, p: string): (service: string) {
    var k := FirstSlash(p, |basePath| + 1);
    if |basePath| + 1 <= k then p[|basePath| + 1..k] else ""
  }

  /** The endpoint segment of a path under `basePath`. */
  function EndpointOf(basePath: string, p: string): (endpoint: string) {
    var k := FirstSlash(p, |basePath| + 1);
    if k < |p| then p[k + 1..] else ""
  }

  /** The path has a '/' after its service segment, as a node path does and a
      parent path does not. */
  predicate HasEndpoint(basePath: string, p: string) {
    FirstSlash(p, |basePath| + 1) < |p|
  }

  /** A slash-free stretch does not stop the search for the first '/'. */
  lemma {:induction false} FirstSlashSkips(s: string, from: nat, x: string)
    requires from + |x| <= |s| && s[from..from + |x|] == x && '/' !in x
    ensures FirstSlash(s, from) == FirstSlash(s, from + |x|)
    decreases |x|
  {
    if |x| > 0 {
      assert s[from] == x[0] && x[0] in x;
      assert s[from + 1..from + |x|] == x[1..];
      FirstSlashSkips(s, from + 1, x[1..]);
    }
  }

  /** A node path reads back as the service and endpoint it was built from,
      provided the service name is a single path segment. */
  lemma NodePathRoundTrip(basePath: string, m: AddressModel)
    requires '/' !in m.serviceNodeName
    ensures HasEndpoint(basePath, NodePath(basePath, m))
    ensures ServiceOf(basePath, NodePath(basePath, m)) == m.serviceNodeName
    ensures EndpointOf(basePath, NodePath(basePath, m)) == m.endpointNodeName
  {
    var p := NodePath(basePath, m);
    var n := |basePath| + 1;
    var x := m.serviceNodeName;
    assert p[n..n + |x|] == x;
    FirstSlashSkips(p, n, x);
    assert p[n + |x|] == '/';
    assert p[n + |x| + 1..] == m.endpointNodeName;
  }

  /** A parent path has no endpoint segment, so it is never a node path. */
  lemma ServicePathHasNoEndpoint(basePath: string, m: AddressModel)
    requires '/' !in m.serviceNodeName
    ensures !HasEndpoint(basePath, ServicePath(basePath, m))
  {
    var p := ServicePath(basePath, m);
    var n := |basePath| + 1;
    assert p[n..n + |m.serviceNodeName|] == m.serviceNodeName;
    FirstSlashSkips(p, n, m.serviceNodeName);
  }

  /** Two records with slash-free service names share a node path exactly when
      they share both names. */
  lemma NodePathInjective(basePath: string, m1: AddressModel, m2: AddressModel)
    requires '/' !in m1.serviceNodeName && '/' !in m2.serviceNodeName
    ensures NodePath(basePath, m1) == NodePath(basePath, m2) <==>
      m1.serviceNodeName == m2.serviceNodeName && m1.endpointNodeName == m2.endpointNodeName
  {
    NodePathRoundTrip(basePath, m1);
    NodePathRoundTrip(basePath, m2);
  }

  predicate SlashFreeServices(recs: seq<AddressModel>) {
    forall i :: 0 <= i < |recs| ==> '/' !in recs[i].serviceNodeName
  }

  lemma {:induction false} ServicePathsHaveNoEndpoint(basePath: string, recs: seq<AddressModel>)
    requires SlashFreeServices(recs)
    ensures forall p :: p in ServicePaths(basePath, recs) ==> !HasEndpoint(basePath, p)
    decreases |recs|
  {
    if recs != [] {
      var n := |recs| - 1;
      ServicePathsHaveNoEndpoint(basePath, recs[..n]);
      ServicePathHasNoEndpoint(basePath, recs[n]);
    }
  }

  // ---------------------------------------------------------------------------
  // The tree after a pass in which every call succeeds.

  /** The pass adds exactly the parent paths and the node paths; nothing is deleted. */
  lemma {:induction false} PublishKeys(t: Tree, basePath: string, recs: seq<AddressModel>, naming: Naming)
    ensures Publish(t, basePath, recs, naming).Keys
         == t.Keys + ServicePaths(basePath, recs) + NodePaths(basePath, recs)
    decreases |recs|
  {
    if recs != [] {
      PublishKeys(t, basePath, recs[..|recs| - 1], naming);
    }
  }

  /** A node that existed before and is no record's node is left as it was,
      even when it is one of the ensured parent paths. */
  lemma {:induction false} PublishKeepsOthers(t: Tree, basePath: string, recs: seq<AddressModel>, naming: Naming, p: string)
    requires p in t && p !in NodePaths(basePath, recs)
    ensures p in Publish(t, basePath, recs, naming)
    ensures Publish(t, basePath, recs, naming)[p] == t[p]
    decreases |recs|
  {
    if recs != [] {
      PublishKeepsOthers(t, basePath, recs[..|recs| - 1], naming, p);
    }
  }

  /** A node that existed before keeps its mode: an overwrite only replaces data. */
  lemma {:induction false} PublishKeepsMode(t: Tree, basePath: string, recs: seq<AddressModel>, naming: Naming, p: string)
    requires p in t
    ensures p in Publish(t, basePath, recs, naming)
    ensures Publish(t, basePath, recs, naming)[p].mode == t[p].mode
    decreases |recs|
  {
    if recs != [] {
      PublishKeepsMode(t, basePath, recs[..|recs| - 1], naming, p);
    }
  }

  /** Every node path holds the serialization of the last record written to it:
      records that share a node collapse to one, and the last one wins. */
  lemma {:induction false} PublishPayload(t: Tree, basePath: string, recs: seq<AddressModel>, naming: Naming, p: string)
    requires p in NodePaths(basePath, recs)
    ensures p in Publish(t, basePath, recs, naming)
    ensures Publish(t, basePath, recs, naming)[p].data == naming.serialize(recs[LastWriter(basePath, recs, p)])
    decreases |recs|
  {
    var n := |recs| - 1;
    var prev := Publish(t, basePath, recs[..n], naming);
    var mid := EnsurePersistent(prev, ServicePath(basePath, recs[n]));
    var np := NodePath(basePath, recs[n]);
    assert Publish(t, basePath, recs, naming) == SetOrCreate(mid, np, naming.serialize(recs[n]));
    if np != p {
      PublishPayload(t, basePath, recs[..n], naming, p);
      var k := LastWriter(basePath, recs[..n], p);
      assert LastWriter(basePath, recs, p) == k && recs[..n][k] == recs[k];
      assert mid[p] == prev[p];
    }
  }

  /** A node path that did not exist and is no parent path is created ephemeral. */
  lemma {:induction false} PublishCreatesEphemeral(t: Tree, basePath: string, recs: seq<AddressModel>, naming: Naming, p: string)
    requires p !in t && p in NodePaths(basePath, recs) && p !in ServicePaths(basePath, recs)
    ensures p in Publish(t, basePath, recs, naming)
    ensures Publish(t, basePath, recs, naming)[p].mode == Ephemeral
    decreases |recs|
  {
    var n := |recs| - 1;
    var prev := Publish(t, basePath, recs[..n], naming);
    var mid := EnsurePersistent(prev, ServicePath(basePath, recs[n]));
    var np := NodePath(basePath, recs[n]);
    assert Publish(t, basePath, recs, naming) == SetOrCreate(mid, np, naming.serialize(recs[n]));
    assert p != ServicePath(basePath, recs[n]);
    PublishKeys(t, basePath, recs[..n], naming);
    if p in NodePaths(basePath, recs[..n]) {
      PublishCreatesEphemeral(t, basePath, recs[..n], naming, p);
      assert mid[p] == prev[p];
      if np != p {
        SetOrCreateFrame(mid, np, naming.serialize(recs[n]), p);
      }
    } else {
      assert np == p && p !in mid;
    }
  }

  /** A parent path that did not exist and is no node path is created empty and persistent. */
  lemma {:induction false} PublishCreatesParent(t: Tree, basePath: string, recs: seq<AddressModel>, naming: Naming, p: string)
    requires p !in t && p in ServicePaths(basePath, recs) && p !in NodePaths(basePath, recs)
    ensures p in Publish(t, basePath, recs, naming)
    ensures Publish(t, basePath, recs, naming)[p] == ZNode([], Persistent)
    decreases |recs|
  {
    var n := |recs| - 1;
    PublishKeys(t, basePath, recs[..n], naming);
    if p in ServicePaths(basePath, recs[..n]) {
      PublishCreatesParent(t, basePath, recs[..n], naming, p);
    }
  }

  /** Running the same pass again changes nothing. */
  lemma PublishIdempotent(t: Tree, basePath: string, recs: seq<AddressModel>, naming: Naming)
    ensures Publish(Publish(t, basePath, recs, naming), basePath, recs, naming)
         == Publish(t, basePath, recs, naming)
  {
    var once := Publish(t, basePath, recs, naming);
    var twice := Publish(once, basePath, recs, naming);
    PublishKeys(t, basePath, recs, naming);
    PublishKeys(once, basePath, recs, naming);
    forall p | p in once
      ensures twice[p] == once[p]
    {
      if p in NodePaths(basePath, recs) {
        PublishPayload(t, basePath, recs, naming, p);
        PublishPayload(once, basePath, recs, naming, p);
        PublishKeepsMode(once, basePath, recs, naming, p);
      } else {
        PublishKeepsOthers(once, basePath, recs, naming, p);
      }
    }
  }

  /** Paths and last writers depend only on the names in the records. */
  lemma {:induction false} PathsIgnoreTime(basePath: string, r1: seq<AddressModel>, r2: seq<AddressModel>)
    requires |r1| == |r2|
    requires forall i :: 0 <= i < |r1| ==>
      r1[i].serviceNodeName == r2[i].serviceNodeName && r1[i].endpointNodeName == r2[i].endpointNodeName
    ensures ServicePaths(basePath, r1) == ServicePaths(basePath, r2)
    ensures NodePaths(basePath, r1) == NodePaths(basePath, r2)
    ensures forall p :: p in NodePaths(basePath, r1) ==> LastWriter(basePath, r1, p) == LastWriter(basePath, r2, p)
    decreases |r1|
  {
    if r1 != [] {
      PathsIgnoreTime(basePath, r1[..|r1| - 1], r2[..|r2| - 1]);
    }
  }

  // ---------------------------------------------------------------------------
  // Whole passes: contracts in, tree out.

  /** After a pass whose calls all succeed, every contract's node exists under
      the current session's endpoint name and holds a record stamped with the
      pass time, written for the last contract that maps to the same node. */
  lemma EveryContractPublished(t: Tree, link: Link, basePath: string, contracts: seq<ContractModel>,
                               sessionId: string, now: int, naming: Naming, i: nat)
    requires i < |contracts| && Survives(link, 3 * |contracts|)
    ensures var recs := PassRecords(contracts, sessionId, now, naming);
      var p := basePath + "/" + naming.parseServiceName(contracts[i].contract) + "/" + naming.endpointNodeName(sessionId);
      && PassOutcome(link, recs).Pass?
      && p in NodePaths(basePath, recs)
      && p in PassTree(t, link, basePath, recs, naming)
      && i <= LastWriter(basePath, recs, p)
      && PassTree(t, link, basePath, recs, naming)[p].data
         == naming.serialize(AddressModel(contracts[LastWriter(basePath, recs, p)].url,
                                          naming.parseServiceName(contracts[LastWriter(basePath, recs, p)].contract),
                                          naming.endpointNodeName(sessionId), now))
  {
    var recs := PassRecords(contracts, sessionId, now, naming);
    var p := NodePath(basePath, recs[i]);
    InNodePaths(basePath, recs, i);
    PublishPayload(t, basePath, recs, naming, p);
  }

  /** When no other contract maps to the same service and service names are
      single path segments, a contract's node holds exactly its own record, and
      a node the pass created is ephemeral. */
  lemma OwnRecordPublished(t: Tree, link: Link, basePath: string, contracts: seq<ContractModel>,
                           sessionId: string, now: int, naming: Naming, i: nat)
    requires i < |contracts| && Survives(link, 3 * |contracts|)
    requires forall j :: 0 <= j < |contracts| ==> '/' !in naming.parseServiceName(contracts[j].contract)
    requires forall j :: 0 <= j < |contracts| && j != i ==>
      naming.parseServiceName(contracts[j].contract) != naming.parseServiceName(contracts[i].contract)
    ensures var recs := PassRecords(contracts, sessionId, now, naming);
      var p := basePath + "/" + naming.parseServiceName(contracts[i].contract) + "/" + naming.endpointNodeName(sessionId);
      && p in PassTree(t, link, basePath, recs, naming)
      && PassTree(t, link, basePath, recs, naming)[p]
         == ZNode(naming.serialize(AddressModel(contracts[i].url, naming.parseServiceName(contracts[i].contract),
                                                naming.endpointNodeName(sessionId), now)),
                  if p in t then t[p].mode else Ephemeral)
  {
    var recs := PassRecords(contracts, sessionId, now, naming);
    var p := NodePath(basePath, recs[i]);
    InNodePaths(basePath, recs, i);
    PublishPayload(t, basePath, recs, naming, p);
    var k := LastWriter(basePath, recs, p);
    NodePathInjective(basePath, recs[k], recs[i]);
    assert k == i;
    if p in t {
      PublishKeepsMode(t, basePath, recs, naming, p);
    } else {
      NodePathRoundTrip(basePath, recs[i]);
      ServicePathsHaveNoEndpoint(basePath, recs);
      PublishCreatesEphemeral(t, basePath, recs, naming, p);
    }
  }

  /** A pass over a tree that already holds all of its paths adds no node,
      keeps every mode and every other node, and rewrites only the data. */
  lemma RepublishOnlyRewrites(t: Tree, basePath: string, recs: seq<AddressModel>, naming: Naming)
    requires ServicePaths(basePath, recs) + NodePaths(basePath, recs) <= t.Keys
    ensures var r := Publish(t, basePath, recs, naming);
      && r.Keys == t.Keys
      && (forall p :: p in t ==> r[p].mode == t[p].mode)
      && (forall p :: p in t && p !in NodePaths(basePath, recs) ==> r[p] == t[p])
      && (forall p :: p in NodePaths(basePath, recs) ==> r[p].data == naming.serialize(recs[LastWriter(basePath, recs, p)]))
  {
    PublishKeys(t, basePath, recs, naming);
    forall p | p in t
      ensures Publish(t, basePath, recs, naming)[p].mode == t[p].mode
    {
      PublishKeepsMode(t, basePath, recs, naming, p);
    }
    forall p | p in t && p !in NodePaths(basePath, recs)
      ensures Publish(t, basePath, recs, naming)[p] == t[p]
    {
      PublishKeepsOthers(t, basePath, recs, naming, p);
    }
    forall p | p in NodePaths(basePath, recs)
      ensures Publish(t, basePath, recs, naming)[p].data == naming.serialize(recs[LastWriter(basePath, recs, p)])
    {
      PublishPayload(t, basePath, recs, naming, p);
    }
  }

  /** A second pass over the same contracts in the same session, at a later
      time, creates no node, keeps every mode and every other node, and only
      re-stamps the records. */
  lemma RepeatPassOnlyRestamps(t: Tree, basePath: string, contracts: seq<ContractModel>,
                               sessionId: string, now1: int, now2: int, naming: Naming)
    ensures var r1 := PassRecords(contracts, sessionId, now1, naming);
      var r2 := PassRecords(contracts, sessionId, now2, naming);
      var once := Publish(t, basePath, r1, naming);
      var twice := Publish(once, basePath, r2, naming);
      && twice.Keys == once.Keys
      && NodePaths(basePath, r1) <= once.Keys
      && (forall p :: p in once ==> twice[p].mode == once[p].mode)
      && (forall p :: p in once && p !in NodePaths(basePath, r1) ==> twice[p] == once[p])
      && (forall p :: p in NodePaths(basePath, r1) ==>
            twice[p].data == naming.serialize(r1[LastWriter(basePath, r1, p)].(updateTime := now2)))
  {
    var r1 := PassRecords(contracts, sessionId, now1, naming);
    var r2 := PassRecords(contracts, sessionId, now2, naming);
    var once := Publish(t, basePath, r1, naming);
    PathsIgnoreTime(basePath, r1, r2);
    PublishKeys(t, basePath, r1, naming);
    RepublishOnlyRewrites(once, basePath, r2, naming);
    forall p | p in NodePaths(basePath, r1)
      ensures r2[LastWriter(basePath, r2, p)] == r1[LastWriter(basePath, r1, p)].(updateTime := now2)
    {
    }
  }

  /** Passes under sessions with different endpoint names write disjoint sets of
      nodes: a new session never reuses a node of the old one. */
  lemma NewSessionWritesNewNodes(basePath: string, cs1: seq<ContractModel>, s1: string, now1: int,
                                 cs2: seq<ContractModel>, s2: string, now2: int, naming: Naming)
    requires naming.endpointNodeName(s1) != naming.endpointNodeName(s2)
    requires forall j :: 0 <= j < |cs1| ==> '/' !in naming.parseServiceName(cs1[j].contract)
    requires forall j :: 0 <= j < |cs2| ==> '/' !in naming.parseServiceName(cs2[j].contract)
    ensures NodePaths(basePath, PassRecords(cs1, s1, now1, naming))
         !! NodePaths(basePath, PassRecords(cs2, s2, now2, naming))
  {
    var r1 := PassRecords(cs1, s1, now1, naming);
    var r2 := PassRecords(cs2, s2, now2, naming);
    forall p | p in NodePaths(basePath, r1)
      ensures EndpointOf(basePath, p) == naming.endpointNodeName(s1)
    {
      NodePathRoundTrip(basePath, r1[LastWriter(basePath, r1, p)]);
    }
    forall p | p in NodePaths(basePath, r2)
      ensures EndpointOf(basePath, p) == naming.endpointNodeName(s2)
    {
      NodePathRoundTrip(basePath, r2[LastWriter(basePath, r2, p)]);
    }
  }

  /** A pass cut short by a lost connection during record `i` deletes nothing
      and adds no path beyond the earlier records' paths and record `i`'s parent. */
  lemma InterruptedKeys(t: Tree, basePath: string, recs: seq<AddressModel>, naming: Naming,
                        i: nat, calls: nat)
    requires i < |recs| && 3 * i <= calls < 3 * i + 3
    ensures var r := Interrupted(t, basePath, recs, naming, calls);
      && t.Keys + NodePaths(basePath, recs[..i]) <= r.Keys
      && r.Keys <= t.Keys + ServicePaths(basePath, recs[..i + 1]) + NodePaths(basePath, recs[..i])
  {
    InterruptedAt(t, basePath, recs, naming, i, calls);
    var sp := ServicePath(basePath, recs[i]);
    var done := Publish(t, basePath, recs[..i], naming);
    PublishKeys(t, basePath, recs[..i], naming);
    assert Interrupted(t, basePath, recs, naming, calls).Keys <= done.Keys + {sp};
    assert recs[..i + 1][..i] == recs[..i];
    assert ServicePaths(basePath, recs[..i + 1]) == ServicePaths(basePath, recs[..i]) + {sp};
  }

  /** A pass cut short by a lost connection during record `i` leaves every
      earlier record's node holding the last of them written to it. */
  lemma InterruptedPayload(t: Tree, basePath: string, recs: seq<AddressModel>, naming: Naming,
                           i: nat, calls: nat)
    requires i < |recs| && 3 * i <= calls < 3 * i + 3
    ensures var r := Interrupted(t, basePath, recs, naming, calls);
      forall p :: p in NodePaths(basePath, recs[..i]) ==>
        p in r && r[p].data == naming.serialize(recs[LastWriter(basePath, recs[..i], p)])
  {
    InterruptedAt(t, basePath, recs, naming, i, calls);
    var done := Publish(t, basePath, recs[..i], naming);
    var r := Interrupted(t, basePath, recs, naming, calls);
    forall p | p in NodePaths(basePath, recs[..i])
      ensures p in r && r[p].data == naming.serialize(recs[LastWriter(basePath, recs[..i], p)])
    {
      PublishPayload(t, basePath, recs[..i], naming, p);
      assert r[p] == done[p];
    }
  }

  /** A pass cut short during record `i` leaves every old node that is no
      earlier record's node exactly as it was, even record `i`'s parent. */
  lemma InterruptedKeepsOthers(t: Tree, basePath: string, recs: seq<AddressModel>, naming: Naming,
                               i: nat, calls: nat, p: string)
    requires i < |recs| && 3 * i <= calls < 3 * i + 3
    requires p in t && p !in NodePaths(basePath, recs[..i])
    ensures var r := Interrupted(t, basePath, recs, naming, calls);
      p in r && r[p] == t[p]
  {
    InterruptedAt(t, basePath, recs, naming, i, calls);
    PublishKeepsOthers(t, basePath, recs[..i], naming, p);
    EnsurePersistentFrame(Publish(t, basePath, recs[..i], naming), ServicePath(basePath, recs[i]), p);
  }

  /** A pass cut short during record `i` keeps the mode of every old node. */
  lemma InterruptedKeepsMode(t: Tree, basePath: string, recs: seq<AddressModel>, naming: Naming,
                             i: nat, calls: nat, p: string)
    requires i < |recs| && 3 * i <= calls < 3 * i + 3
    requires p in t
    ensures var r := Interrupted(t, basePath, recs, naming, calls);
      p in r && r[p].mode == t[p].mode
  {
    InterruptedAt(t, basePath, recs, naming, i, calls);
    PublishKeepsMode(t, basePath, recs[..i], naming, p);
    EnsurePersistentFrame(Publish(t, basePath, recs[..i], naming), ServicePath(basePath, recs[i]), p);
  }
}
