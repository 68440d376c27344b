/** Choosing a node by its load (crates/registry_center/src/handler.rs). */
module LoadBalance {
  import opened Basic
  import opened TagText

  datatype NodeType = Master | Slave

  datatype NodeInfo = NodeInfo(addr: string, mainPort: nat, heartbeatPort: nat, pubPort: nat, nodeType: NodeType) {
    function GetKey(): string {
      addr + ":" + NatText(mainPort)
    }
  }

  datatype StateInfo = StateInfo(maxConnection: nat, currentConnection: nat, loadFactor: real)

  datatype NodeState = NodeState(lastHeartbeat: int, info: StateInfo)

  /** The key can be read back: the address, a colon, and the decimal number of the main port. */
  lemma KeyReadsBack(node: NodeInfo)
    ensures var key, n := node.GetKey(), |node.addr|;
            && |key| > n && key[..n] == node.addr && key[n] == ':'
            && ParseNat(key[n + 1..]) == Some(node.mainPort) && ':' !in key[n + 1..]
  {
    ParseNatText(node.mainPort);
    assert node.GetKey()[|node.addr| + 1..] == NatText(node.mainPort);
    assert !IsDigit(':');
  }

  /** So it tells servers apart exactly by address and main port, even on one host. */
  lemma KeyNamesServer(a: NodeInfo, b: NodeInfo)
    ensures a.GetKey() == b.GetKey() <==> a.addr == b.addr && a.mainPort == b.mainPort
  {
    KeyReadsBack(a);
    KeyReadsBack(b);
    if a.GetKey() == b.GetKey() {
      LastColon(a.GetKey(), |a.addr|, |b.addr|);
      LastColon(a.GetKey(), |b.addr|, |a.addr|);
    }
  }

  lemma LastColon(key: string, i: nat, j: nat)
    requires i < |key| && ':' !in key[i + 1..] && j < |key| && key[j] == ':'
    ensures j <= i
  {
    if i < j {
      ColonAfter(key, i, j);
    }
  }

  lemma ColonAfter(key: string, i: nat, j: nat)
    requires i < j < |key| && key[j] == ':'
    ensures ':' in key[i + 1..]
  {
    assert key[i + 1..][j - i - 1] == ':';
  }

  lemma KeyExample()
    ensures NodeInfo("127.0.0.1", 5555, 5556, 5557, Master).GetKey() == "127.0.0.1:5555"
  {
    assert NatText(55) == "55";
    assert NatText(555) == "555";
  }

  type NodeTable = map<string, NodeInfo>
  type StateTable = map<string, NodeState>

  /** `Panicked` stands for an `unwrap` or `expect` that found nothing. */
  datatype Pick = Nobody | Chosen(node: NodeInfo) | Panicked

  /** A lower load is better, then more room, then fewer connections. */
  predicate Better(a: StateInfo, b: StateInfo) {
    || a.loadFactor < b.loadFactor
    || (a.loadFactor == b.loadFactor &&
        (a.maxConnection > b.maxConnection ||
         (a.maxConnection == b.maxConnection && a.currentConnection < b.currentConnection)))
  }

  /** `key` has a state and none of the others is better. */
  ghost predicate IsLeast(states: StateTable, key: string) {
    key in states && forall k | k in states :: !Better(states[k].info, states[key].info)
  }

  /** What that means: the lowest load there is, among those the most room, among those the fewest connections. */
  lemma LeastByFields(states: StateTable, k: string)
    requires IsLeast(states, k)
    ensures forall j | j in states ::
              var a, b := states[k].info, states[j].info;
              && a.loadFactor <= b.loadFactor
              && (a.loadFactor == b.loadFactor ==> a.maxConnection >= b.maxConnection)
              && (a.loadFactor == b.loadFactor && a.maxConnection == b.maxConnection ==>
                    a.currentConnection <= b.currentConnection)
  {
  }

  /** Every node is listed under its own key. */
  predicate KeysOk(nodes: NodeTable) {
    forall k | k in nodes :: nodes[k].GetKey() == k
  }

  /** The least loaded node, whatever the order of iteration. The loop runs over the states alone, so a state
      without a node can win, and then nobody is chosen; the first key looked at is one of a node, and without
      a state it makes the function panic. */
  method GetMinLoadNode(states: StateTable, nodes: NodeTable) returns (pick: Pick)
    ensures nodes.Keys == {} ==> pick == Nobody
    ensures pick.Chosen? ==> exists k :: k in nodes && IsLeast(states, k) && pick.node == nodes[k]
    ensures pick.Chosen? ==> exists k :: k in nodes && k in states && pick.node == nodes[k] && forall j | j in states ::
              var a, b := states[k].info, states[j].info;
              && a.loadFactor <= b.loadFactor
              && (a.loadFactor == b.loadFactor ==> a.maxConnection >= b.maxConnection)
              && (a.loadFactor == b.loadFactor && a.maxConnection == b.maxConnection ==>
                    a.currentConnection <= b.currentConnection)
    ensures pick.Nobody? && nodes.Keys != {} ==> exists k :: k !in nodes && IsLeast(states, k)
    ensures pick.Panicked? ==> exists k :: k in nodes && k !in states
    ensures nodes.Keys != {} && nodes.Keys !! states.Keys ==> pick == Panicked
  {
    if nodes.Keys == {} {
      return Nobody;
    }
    var minKey := NextKey(nodes.Keys);
    if minKey !in states {
      return Panicked;
    }
    var minInfo := states[minKey].info;
    var left := states.Keys;
    while left != {}
      invariant left <= states.Keys && minKey in states && minInfo == states[minKey].info
      invariant forall k | k in states && k !in left :: !Better(states[k].info, minInfo)
    {
      var key := NextKey(left);
      left := left - {key};
      var info := states[key].info;
      if info.loadFactor < minInfo.loadFactor {
        minKey, minInfo := key, info;
      } else if info.loadFactor == minInfo.loadFactor {
        if info.maxConnection > minInfo.maxConnection {
          minKey, minInfo := key, info;
        } else if info.maxConnection == minInfo.maxConnection {
          if info.currentConnection < minInfo.currentConnection {
            minKey, minInfo := key, info;
          }
        }
      }
    }
    assert IsLeast(states, minKey);
    LeastByFields(states, minKey);
    pick := if minKey in nodes then Chosen(nodes[minKey]) else Nobody;
  }

  /** Apart from the master, who may lack a state, the two tables have the same keys. */
  predicate OthersHaveState(states: StateTable, nodes: NodeTable, master: NodeInfo) {
    KeysOk(nodes) && (nodes - {master.GetKey()}).Keys == (states - {master.GetKey()}).Keys
  }

  datatype Answer = Server(node: NodeInfo) | NoServer | Failed

  /** The server a new client is sent to, on one snapshot of the tables. With several nodes the master is never
      among them, and there is an answer exactly when one of the others still has room. */
  method GetLoadBalanceConnection(states: StateTable, nodes: NodeTable, master: Option<NodeInfo>)
    returns (answer: Answer)
    ensures nodes.Keys == {} ==> answer == NoServer
    ensures |nodes| == 1 ==> exists k :: k in nodes && answer == Server(nodes[k])
    ensures |nodes| > 1 && master.None? ==> answer == Failed
    ensures |nodes| > 1 && master.Some? && OthersHaveState(states, nodes, master.value) ==>
              var others := states - {master.value.GetKey()};
              && answer != Failed
              && (answer.Server? <==> exists k :: k in others && others[k].info.loadFactor < 1.0)
              && (answer.Server? ==> exists k :: k in nodes && IsLeast(others, k) && answer.node == nodes[k])
              && (answer.Server? ==> answer.node.GetKey() in others && answer.node.GetKey() != master.value.GetKey())
              && (answer.Server? ==> forall j | j in others ::
                    var k := answer.node.GetKey();
                    var a, b := others[k].info, others[j].info;
                    && a.loadFactor <= b.loadFactor
                    && (a.loadFactor == b.loadFactor ==> a.maxConnection >= b.maxConnection)
                    && (a.loadFactor == b.loadFactor && a.maxConnection == b.maxConnection ==>
                          a.currentConnection <= b.currentConnection))
    ensures answer == Failed && KeysOk(nodes) ==>
              |nodes| > 1 && (master.None? || exists k :: k in nodes && k !in states)
  {
    if |nodes| == 0 {
      return NoServer;
    }
    if |nodes| == 1 {
      var key := NextKey(nodes.Keys);
      return Server(nodes[key]);
    }
    if master.None? {
      return Failed;
    }
    var others := states - {master.value.GetKey()};
    var pick := GetMinLoadNode(others, nodes - {master.value.GetKey()});
    match pick {
      case Panicked => return Failed;
      case Nobody => return NoServer;
      case Chosen(node) =>
        if node.GetKey() !in others {
          return Failed;
        }
        if others[node.GetKey()].info.loadFactor < 1.0 {
          return Server(node);
        }
        return NoServer;
    }
  }

  /** `Better` ranks all states: of two different ranks one is better, and better is transitive. */
  lemma BetterIsAnOrder(a: StateInfo, b: StateInfo, c: StateInfo)
    ensures !(Better(a, b) && Better(b, a))
    ensures Better(a, b) && !Better(c, b) ==> Better(a, c)
    ensures !Better(a, b) && !Better(b, a) <==> a == b
  {
  }
}
