/** Routing a key to a node by its place on the token ring (client/tokenring.go,
    client/topology.go). The hash of a key is a parameter. */
module TokenRing {
  import opened Rows

  type NodeId = string

  const RING_SIZE: nat := 0x1_0000_0000

  /** A 32-bit token. */
  type Token = t: nat | t < 0x1_0000_0000

  datatype TokenEntry = TokenEntry(token: Token, node: NodeId)

  predicate Sorted(ring: seq<TokenEntry>) {
    forall i, j :: 0 <= i < j < |ring| ==> ring[i].token <= ring[j].token
  }

  /** No token is on the ring twice. */
  predicate Distinct(ring: seq<TokenEntry>) {
    forall i, j :: 0 <= i < j < |ring| ==> ring[i].token != ring[j].token
  }

  /** How far clockwise from `h` to `t`. */
  function Distance(h: Token, t: Token): int {
    if t >= h then t - h else t - h + RING_SIZE
  }

  /** That many steps clockwise from `h`, wrapping round, is `t`. */
  lemma DistanceExactly(h: Token, t: Token)
    ensures 0 <= Distance(h, t) < RING_SIZE && (h + Distance(h, t)) % RING_SIZE == t
  {
  }

  /** The circular successor: the entry met first going clockwise from `h`. */
  ghost predicate IsOwner(ring: seq<TokenEntry>, h: Token, e: TokenEntry) {
    e in ring && forall x :: x in ring ==> Distance(h, e.token) <= Distance(h, x.token)
  }

  /** The first index whose token is at least `h`, or the length. */
  method Search(ring: seq<TokenEntry>, h: Token) returns (idx: nat)
    requires Sorted(ring)
    ensures idx <= |ring|
    ensures forall i :: 0 <= i < idx ==> ring[i].token < h
    ensures forall i :: idx <= i < |ring| ==> ring[i].token >= h
  {
    var lo, hi := 0, |ring|;
    while lo < hi
      invariant 0 <= lo <= hi <= |ring|
      invariant forall i :: 0 <= i < lo ==> ring[i].token < h
      invariant forall i :: hi <= i < |ring| ==> ring[i].token >= h
    {
      var mid := (lo + hi) / 2;
      if ring[mid].token < h {
        lo := mid + 1;
      } else {
        hi := mid;
      }
    }
    idx := lo;
  }

  /** Binary search with wrap-around finds the circular successor; an empty ring is an error. */
  method FindOwner(ring: seq<TokenEntry>, h: Token) returns (e: Option<TokenEntry>)
    requires Sorted(ring)
    ensures e.None? <==> ring == []
    ensures e.Some? ==> IsOwner(ring, h, e.value)
  {
    if ring == [] {
      return None;
    }
    var idx := Search(ring, h);
    if idx == |ring| {
      idx := 0;
    }
    e := Some(ring[idx]);
    forall x | x in ring ensures Distance(h, ring[idx].token) <= Distance(h, x.token) {
      var i :| 0 <= i < |ring| && ring[i] == x;
    }
  }

  // ---- Changes to the ring move no more than they must ----

  lemma OwnerUnique(ring: seq<TokenEntry>, h: Token, a: TokenEntry, b: TokenEntry)
    requires Distinct(ring) && IsOwner(ring, h, a) && IsOwner(ring, h, b)
    ensures a == b
  {
  }

  /** `after` is `before` with the tokens of `node` added. */
  ghost predicate Adds(before: seq<TokenEntry>, after: seq<TokenEntry>, node: NodeId) {
    && (forall e :: e in before ==> e in after)
    && (forall e :: e in after && e !in before ==> e.node == node)
  }

  /** Adding a node moves keys only to it. */
  lemma AddingMovesOnlyToNode(before: seq<TokenEntry>, after: seq<TokenEntry>, node: NodeId, h: Token, a: TokenEntry, b: TokenEntry)
    requires Distinct(before) && Distinct(after) && Adds(before, after, node)
    requires IsOwner(before, h, a) && IsOwner(after, h, b)
    ensures b == a || b.node == node
  {
  }

  /** Removing one moves only its keys. */
  lemma RemovingMovesOnlyItsKeys(before: seq<TokenEntry>, after: seq<TokenEntry>, node: NodeId, h: Token, a: TokenEntry, b: TokenEntry)
    requires Distinct(before) && Distinct(after) && Adds(after, before, node)
    requires IsOwner(before, h, a) && IsOwner(after, h, b)
    ensures a.node != node ==> b == a
  {
  }

  // ---- The ring a topology gives ----

  datatype Node = Node(id: NodeId, active: bool, listenAddress: string)

  datatype NodeTokens = NodeTokens(id: NodeId, tokens: seq<Token>)

  /** `ringConfig` may be missing. */
  datatype Topology = Topology(epoch: int, nodes: seq<Node>, ringConfig: Option<seq<NodeTokens>>)

  predicate Reachable(t: Topology, id: NodeId, address: string) {
    address != "" && exists i :: 0 <= i < |t.nodes| && t.nodes[i] == Node(id, true, address)
  }

  /** The tokens configured for a node: of two lists the later counts. */
  function Configured(config: seq<NodeTokens>, id: NodeId): Option<seq<Token>> {
    if config == [] then None
    else if config[|config| - 1].id == id then Some(config[|config| - 1].tokens)
    else Configured(config[..|config| - 1], id)
  }

  lemma {:induction false} ConfiguredExactly(config: seq<NodeTokens>, id: NodeId, tokens: seq<Token>)
    ensures Configured(config, id) == Some(tokens) <==>
            exists i :: 0 <= i < |config| && config[i] == NodeTokens(id, tokens) && forall j :: i < j < |config| ==> config[j].id != id
  {
    if config != [] {
      var init, last := config[..|config| - 1], config[|config| - 1];
      ConfiguredExactly(init, id, tokens);
      if last.id != id {
        if i :| 0 <= i < |init| && init[i] == NodeTokens(id, tokens) && forall j :: i < j < |init| ==> init[j].id != id {
          assert config[i] == init[i] && forall j :: i < j < |config| ==> config[j].id != id;
        }
        if i :| 0 <= i < |config| && config[i] == NodeTokens(id, tokens) && forall j :: i < j < |config| ==> config[j].id != id {
          assert init[i] == config[i] && forall j :: i < j < |init| ==> init[j] == config[j];
        }
      } else if last.tokens == tokens {
        assert config[|config| - 1] == NodeTokens(id, tokens);
      }
    }
  }

  /** `e` belongs on the ring of `t`: its node is reachable and has this token. */
  ghost predicate Belongs(t: Topology, e: TokenEntry) {
    && (exists address :: Reachable(t, e.node, address))
    && t.ringConfig.Some? && Configured(t.ringConfig.value, e.node).Some?
    && e.token in Configured(t.ringConfig.value, e.node).value
  }

  method Insert(ring: seq<TokenEntry>, e: TokenEntry) returns (r: seq<TokenEntry>)
    requires Sorted(ring)
    ensures Sorted(r) && multiset(r) == multiset(ring) + multiset{e}
  {
    var idx := Search(ring, e.token);
    r := ring[..idx] + [e] + ring[idx..];
    assert ring == ring[..idx] + ring[idx..];
  }

  /** All tokens of all nodes, sorted. */
  method SortTokens(nodeTokens: map<NodeId, seq<Token>>) returns (ring: seq<TokenEntry>)
    ensures Sorted(ring)
    ensures forall e :: e in ring <==> e.node in nodeTokens && e.token in nodeTokens[e.node]
  {
    ring := [];
    var todo := nodeTokens.Keys;
    while todo != {}
      invariant todo <= nodeTokens.Keys && Sorted(ring)
      invariant forall e :: e in ring <==> e.node in nodeTokens.Keys - todo && e.token in nodeTokens[e.node]
      decreases |todo|
    {
      var id :| id in todo;
      var i := 0;
      while i < |nodeTokens[id]|
        invariant 0 <= i <= |nodeTokens[id]| && Sorted(ring)
        invariant forall e :: e in ring <==>
                    (e.node in nodeTokens.Keys - todo && e.token in nodeTokens[e.node]) || (e.node == id && e.token in nodeTokens[id][..i])
      {
        var e := TokenEntry(nodeTokens[id][i], id);
        var more := Insert(ring, e);
        forall x ensures x in more <==> x in ring || x == e {
          assert x in more <==> x in multiset(more);
        }
        assert nodeTokens[id][..i + 1] == nodeTokens[id][..i] + [nodeTokens[id][i]];
        ring, i := more, i + 1;
      }
      assert nodeTokens[id][..i] == nodeTokens[id];
      todo := todo - {id};
    }
  }

  class TopologyManager {
    var epoch: int
    var ring: seq<TokenEntry>
    var addresses: map<NodeId, string>
    ghost var current: Topology      // the topology the ring was built from

    /** The ring is sorted, and every node on it is active and has its address. */
    ghost predicate Valid()
      reads this
    {
      && Sorted(ring)
      && (forall e :: e in ring ==> e.node in addresses)
      && (forall id :: id in addresses ==> Reachable(current, id, addresses[id]))
    }

    constructor (epoch: int)
      ensures Valid() && ring == [] && this.epoch == epoch
    {
      this.epoch, ring, addresses, current := epoch, [], map[], Topology(epoch, [], None);
    }

    /** Rebuilds the ring unless the epoch is the one it has. The new ring holds exactly the
        tokens configured for active nodes with an address. */
    method UpdateTopology(t: Topology) returns (updated: bool)
      requires Valid()
      modifies this
      ensures Valid() && updated == (t.epoch != old(epoch)) && epoch == t.epoch
      ensures !updated ==> ring == old(ring) && addresses == old(addresses) && current == old(current)
      ensures updated ==> current == t && forall e :: e in ring <==> Belongs(t, e)
    {
      if epoch == t.epoch {
        return false;
      }
      var active := ActiveNodes(t);
      var nodeTokens := ActiveTokens(t, active);
      ring := SortTokens(nodeTokens);
      addresses, epoch, current := active, t.epoch, t;
      return true;
    }

    /** Every key of a non-empty ring is routed to an active node with an address. */
    method GetNodeForKey(h: Token) returns (address: Option<string>)
      requires Valid()
      ensures address.None? <==> ring == []
      ensures address.Some? ==> exists e :: IsOwner(ring, h, e) && Reachable(current, e.node, address.value)
    {
      var e := FindOwner(ring, h);
      if e.None? || e.value.node !in addresses {
        return None;
      }
      return Some(addresses[e.value.node]);
    }
  }

  /** The active nodes that name a listen address. */
  method ActiveNodes(t: Topology) returns (addresses: map<NodeId, string>)
    ensures forall id :: id in addresses ==> Reachable(t, id, addresses[id])
    ensures forall id, address :: Reachable(t, id, address) ==> id in addresses
  {
    addresses := map[];
    var i := 0;
    while i < |t.nodes|
      invariant 0 <= i <= |t.nodes|
      invariant forall id :: id in addresses ==> Reachable(t, id, addresses[id])
      invariant forall j :: 0 <= j < i && t.nodes[j].active && t.nodes[j].listenAddress != "" ==> t.nodes[j].id in addresses
    {
      var n := t.nodes[i];
      if n.active && n.listenAddress != "" {
        assert t.nodes[i] == Node(n.id, true, n.listenAddress);
        addresses := addresses[n.id := n.listenAddress];
      }
      i := i + 1;
    }
  }

  /** The configured tokens of those nodes. */
  method ActiveTokens(t: Topology, active: map<NodeId, string>) returns (nodeTokens: map<NodeId, seq<Token>>)
    ensures t.ringConfig.None? ==> nodeTokens == map[]
    ensures t.ringConfig.Some? ==>
              && (forall id :: id in nodeTokens <==> id in active && Configured(t.ringConfig.value, id).Some?)
              && (forall id :: id in nodeTokens ==> Some(nodeTokens[id]) == Configured(t.ringConfig.value, id))
  {
    nodeTokens := map[];
    if t.ringConfig.Some? {
      var config, i := t.ringConfig.value, 0;
      while i < |config|
        invariant 0 <= i <= |config|
        invariant forall id :: id in nodeTokens <==> id in active && Configured(config[..i], id).Some?
        invariant forall id :: id in nodeTokens ==> Some(nodeTokens[id]) == Configured(config[..i], id)
      {
        assert config[..i + 1][..i] == config[..i];
        if config[i].id in active {
          nodeTokens := nodeTokens[config[i].id := config[i].tokens];
        }
        i := i + 1;
      }
      assert config[..i] == config;
    }
  }
}
