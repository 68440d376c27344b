/** The registry centre (crates/registry_center/src/zmq_handler.rs and server_keeping.rs). Each method that
    takes and drops the lock once is one step of module `RegistryProtocol`. */
module Registry {
  import opened Basic
  import opened LoadBalance

  type Peer = string

  /** The shared maps of `AppContext`. */
  datatype Reg = Reg(nodeList: NodeTable, nodeState: StateTable, masterNode: Option<NodeInfo>, peers: map<string, Peer>)

  datatype RegisterResult = Success | AlreadyRegistered | OnlyOneMaster | NoMaster

  datatype Outgoing =
    | RegisterResp(peer: Peer, result: RegisterResult)
    | ConvertToMaster(peer: Peer, key: string)
    | ChangeMaster(peer: Peer, key: string, master: NodeInfo)

  const OFFLINE_AFTER: int := 5000

  /** `StateInfo::default` of a node that has not reported yet. */
  const UNREPORTED: StateInfo := StateInfo(0, 0, 0.9)

  function WithNode(reg: Reg, key: string, info: NodeInfo, peer: Peer, now: int): Reg {
    reg.(nodeList := reg.nodeList[key := info],
         nodeState := reg.nodeState[key := NodeState(now, UNREPORTED)],
         peers := reg.peers[key := peer])
  }

  /** A registration in one go. */
  function Registered(reg: Reg, key: string, info: NodeInfo, peer: Peer, now: int): (Reg, RegisterResult) {
    if key in reg.nodeList then
      (reg, AlreadyRegistered)
    else if info.nodeType == Master then
      if reg.masterNode.Some? then (reg, OnlyOneMaster)
      else (WithNode(reg.(masterNode := Some(info)), key, info, peer, now), Success)
    else
      if reg.masterNode.None? then (reg, NoMaster)
      else (WithNode(reg, key, info, peer, now), Success)
  }

  /** Which answer a registration gets, and that only a successful one changes anything. */
  lemma RegistrationAnswer(reg: Reg, key: string, info: NodeInfo, peer: Peer, now: int)
    ensures var (after, result) := Registered(reg, key, info, peer, now);
            && (result == AlreadyRegistered <==> key in reg.nodeList)
            && (result == OnlyOneMaster <==>
                  key !in reg.nodeList && info.nodeType == Master && reg.masterNode.Some?)
            && (result == NoMaster <==> key !in reg.nodeList && info.nodeType == Slave && reg.masterNode.None?)
            && (result != Success ==> after == reg)
            && (result == Success ==>
                  && key in after.nodeList && after.nodeList[key] == info
                  && key in after.peers && after.peers[key] == peer
                  && after.masterNode == if info.nodeType == Master then Some(info) else reg.masterNode)
  {
  }

  function Reported(reg: Reg, key: string, info: StateInfo, now: int): Reg {
    if key in reg.nodeState then reg.(nodeState := reg.nodeState[key := NodeState(now, info)]) else reg
  }

  function Converted(reg: Reg, info: NodeInfo): Reg {
    reg.(masterNode := Some(info), nodeList := reg.nodeList[info.GetKey() := info])
  }

  function Dead(states: StateTable, clock: string -> int): set<string> {
    set k | k in states && clock(k) - states[k].lastHeartbeat > OFFLINE_AFTER
  }

  predicate MasterIsDead(reg: Reg, dead: set<string>) {
    reg.masterNode.Some? && reg.masterNode.value.GetKey() in dead
  }

  /** A sweep drops the state and the entry of every dead node, but not its peer. */
  function Swept(reg: Reg, dead: set<string>): Reg {
    Reg(reg.nodeList - dead, reg.nodeState - dead,
        if MasterIsDead(reg, dead) then None else reg.masterNode, reg.peers)
  }

  /** The commands of an election: the candidate is told to become master, and then each other node, in the
      given order, that the candidate is its new master. */
  ghost predicate Commands(sent: seq<Outgoing>, reg: Reg, candidate: string, order: seq<string>)
    requires candidate in reg.nodeList && candidate in reg.peers
    requires forall k | k in order :: k in reg.peers
  {
    && |sent| == 1 + |order|
    && sent[0] == ConvertToMaster(reg.peers[candidate], candidate)
    && (forall i | 0 <= i < |order| ::
          sent[i + 1] == ChangeMaster(reg.peers[order[i]], candidate, reg.nodeList[candidate]))
  }

  /** What an election among the nodes of `reg` sends. */
  ghost predicate Elected(reg: Reg, sent: seq<Outgoing>, candidate: Option<string>, order: seq<string>)
    requires reg.nodeList.Keys <= reg.peers.Keys
  {
    match candidate
    case None => sent == [] && reg.nodeList.Keys == {}
    case Some(k) =>
      && k in reg.nodeList && IsLeast(reg.nodeState, k)
      && Enumerates(order, reg.nodeList.Keys - {k}) && Commands(sent, reg, k, order)
  }

  /** What an election comes to: the candidate has the lowest load, then the most room, then the fewest connections
      of all; it alone is told to become master; each other node is told once that it is the new master; and
      nobody else is told anything. */
  lemma ElectionReachesAll(reg: Reg, sent: seq<Outgoing>, k: string, order: seq<string>)
    requires reg.nodeList.Keys <= reg.peers.Keys && Elected(reg, sent, Some(k), order)
    ensures k in reg.nodeList && k in reg.nodeState
    ensures forall j | j in reg.nodeState ::
              var a, b := reg.nodeState[k].info, reg.nodeState[j].info;
              && a.loadFactor <= b.loadFactor
              && (a.loadFactor == b.loadFactor ==> a.maxConnection >= b.maxConnection)
              && (a.loadFactor == b.loadFactor && a.maxConnection == b.maxConnection ==>
                    a.currentConnection <= b.currentConnection)
    ensures |sent| == |reg.nodeList| && sent[0] == ConvertToMaster(reg.peers[k], k)
    ensures forall j | j in reg.nodeList && j != k :: ChangeMaster(reg.peers[j], k, reg.nodeList[k]) in sent[1..]
    ensures forall m | m in sent[1..] ::
              exists j :: j in reg.nodeList && j != k && m == ChangeMaster(reg.peers[j], k, reg.nodeList[k])
  {
    LeastByFields(reg.nodeState, k);
    EnumerationSize(order, reg.nodeList.Keys - {k});
    assert reg.nodeList.Keys == reg.nodeList.Keys - {k} + {k};
    forall j | j in reg.nodeList && j != k ensures ChangeMaster(reg.peers[j], k, reg.nodeList[k]) in sent[1..] {
      assert j in order;
      var i :| 0 <= i < |order| && order[i] == j;
      assert sent[1..][i] == ChangeMaster(reg.peers[j], k, reg.nodeList[k]);
    }
    forall m | m in sent[1..]
      ensures exists j :: j in reg.nodeList && j != k && m == ChangeMaster(reg.peers[j], k, reg.nodeList[k])
    {
      var i :| 0 <= i < |sent[1..]| && sent[1..][i] == m;
      assert order[i] in order && m == sent[i + 1];
    }
  }

  lemma {:induction false} EnumerationSize<T(!new)>(list: seq<T>, elements: set<T>)
    requires Enumerates(list, elements)
    ensures |list| == |elements|
    decreases |list|
  {
    if list == [] {
      assert elements == {};
    } else {
      var before, last := list[..|list| - 1], list[|list| - 1];
      assert list == before + [last];
      assert last in list;
      EnumerationSize(before, elements - {last});
    }
  }

  /** What an election needs in order not to panic. */
  predicate CanElect(reg: Reg) {
    reg.nodeState.Keys == reg.nodeList.Keys <= reg.peers.Keys && KeysOk(reg.nodeList)
  }

  /** The three key sets are nested, and a listed node without a state can only be the master. */
  predicate ElectionReady(reg: Reg) {
    && reg.nodeState.Keys <= reg.nodeList.Keys <= reg.peers.Keys && KeysOk(reg.nodeList)
    && (forall k | k in reg.nodeList && k !in reg.nodeState :: reg.masterNode == Some(reg.nodeList[k]))
  }

  /** A master without a state cannot be found dead; so when the master is dead, every node has a state. */
  lemma ReadyCanElect(reg: Reg, dead: set<string>)
    requires ElectionReady(reg) && dead <= reg.nodeState.Keys && MasterIsDead(reg, dead)
    ensures CanElect(Swept(reg, dead))
  {
    assert forall k | k in reg.nodeList :: reg.nodeList[k].GetKey() == k;
  }

  /** It is also what the balancer needs in order not to fail (`LoadBalance.GetLoadBalanceConnection`). */
  lemma ReadyBalances(reg: Reg)
    requires ElectionReady(reg) && reg.masterNode.Some?
    ensures OthersHaveState(reg.nodeState, reg.nodeList, reg.masterNode.value)
  {
    var key := reg.masterNode.value.GetKey();
    forall k | k in reg.nodeList && k != key ensures k in reg.nodeState {
      assert reg.nodeList[k].GetKey() == k;
    }
  }

  class AppContext {
    var nodeList: NodeTable
    var nodeState: StateTable
    var masterNode: Option<NodeInfo>
    var peers: map<string, Peer>
    var outbox: seq<Outgoing>

    ghost function Value(): Reg
      reads this
    {
      Reg(nodeList, nodeState, masterNode, peers)
    }

    constructor ()
      ensures Value() == Reg(map[], map[], None, map[]) && outbox == []
    {
      nodeList, nodeState, masterNode, peers, outbox := map[], map[], None, map[], [];
    }

    /** One registration that nothing interrupts. */
    method Register(key: string, info: NodeInfo, peer: Peer, now: int)
      modifies this
      ensures var (reg, result) := Registered(old(Value()), key, info, peer, now);
              Value() == reg && outbox == old(outbox) + [RegisterResp(peer, result)]
    {
      if key in nodeList {
        Send(RegisterResp(peer, AlreadyRegistered));
        return;
      }
      match info.nodeType {
        case Master =>
          if masterNode.Some? {
            Send(RegisterResp(peer, OnlyOneMaster));
            return;
          }
          masterNode := Some(info);
        case Slave =>
          if masterNode.None? {
            Send(RegisterResp(peer, NoMaster));
            return;
          }
      }
      Enlist(key, info, peer, now);
    }

    /** The last lock scope of a registration. */
    method Enlist(key: string, info: NodeInfo, peer: Peer, now: int)
      modifies `nodeList, `nodeState, `peers, `outbox
      ensures Value() == WithNode(old(Value()), key, info, peer, now)
      ensures outbox == old(outbox) + [RegisterResp(peer, Success)]
    {
      nodeList := nodeList[key := info];
      nodeState := nodeState[key := NodeState(now, UNREPORTED)];
      peers := peers[key := peer];
      Send(RegisterResp(peer, Success));
    }

    method Send(message: Outgoing)
      modifies `outbox
      ensures outbox == old(outbox) + [message]
    {
      outbox := outbox + [message];
    }

    /** A report of an unknown node is ignored. */
    method Report(key: string, info: StateInfo, now: int)
      modifies `nodeState
      ensures Value() == Reported(old(Value()), key, info, now)
    {
      if key in nodeState {
        nodeState := nodeState[key := NodeState(now, info)];
      }
    }

    method ConvertToMasterResp(info: NodeInfo)
      modifies `nodeList, `masterNode
      ensures Value() == Converted(old(Value()), info)
    {
      masterNode := Some(info);
      nodeList := nodeList[info.GetKey() := info];
    }

    /** One round of the heartbeat monitor, with an election if the master has died. */
    method MonitorHeartbeats(clock: string -> int)
      returns (panicked: bool, ghost candidate: Option<string>, ghost order: seq<string>, ghost sent: seq<Outgoing>)
      modifies this
      ensures var dead := Dead(old(nodeState), clock);
              && Value() == Swept(old(Value()), dead)
              && outbox == old(outbox) + sent
              && (!MasterIsDead(old(Value()), dead) ==> !panicked && sent == [])
              && (MasterIsDead(old(Value()), dead) <==>
                    old(masterNode).Some? &&
                    var key := old(masterNode).value.GetKey();
                    key in old(nodeState) && clock(key) - old(nodeState)[key].lastHeartbeat > 5000)
              && (MasterIsDead(old(Value()), dead) && CanElect(Value()) ==>
                    !panicked && Elected(Value(), sent, candidate, order))
              && (ElectionReady(old(Value())) ==>
                    !panicked && (MasterIsDead(old(Value()), dead) ==>
                                    CanElect(Value()) && Elected(Value(), sent, candidate, order)))
    {
      ghost var reg := Value();
      ghost var dead := Dead(nodeState, clock);
      if ElectionReady(reg) && MasterIsDead(reg, dead) {
        ReadyCanElect(reg, dead);
      }
      candidate, order, sent := None, [], [];
      var delList, needElectMaster := FindDead(clock);
      RemoveNodes(delList, dead);
      panicked := false;
      if needElectMaster {
        masterNode := None;
        panicked, candidate, order, sent := ElectMaster();
      }
    }

    method FindDead(clock: string -> int) returns (delList: seq<string>, needElectMaster: bool)
      ensures forall k :: k in delList <==> k in Dead(nodeState, clock)
      ensures needElectMaster == MasterIsDead(Value(), Dead(nodeState, clock))
    {
      delList, needElectMaster := [], false;
      var left := nodeState.Keys;
      while left != {}
        invariant left <= nodeState.Keys
        invariant forall k :: k in delList <==> k in Dead(nodeState, clock) - left
        invariant needElectMaster == MasterIsDead(Value(), Dead(nodeState, clock) - left)
      {
        var key := NextKey(left);
        left := left - {key};
        if clock(key) - nodeState[key].lastHeartbeat > OFFLINE_AFTER {
          delList := delList + [key];
          if masterNode.Some? && masterNode.value.GetKey() == key {
            needElectMaster := true;
          }
        }
      }
    }

    method RemoveNodes(delList: seq<string>, ghost dead: set<string>)
      requires forall k :: k in delList <==> k in dead
      modifies `nodeList, `nodeState
      ensures nodeList == old(nodeList) - dead && nodeState == old(nodeState) - dead
    {
      for i := 0 to |delList|
        invariant nodeState == old(nodeState) - (set k | k in delList[..i])
        invariant nodeList == old(nodeList) - (set k | k in delList[..i])
      {
        nodeState := nodeState - {delList[i]};
        nodeList := nodeList - {delList[i]};
      }
      assert delList[..|delList|] == delList;
      assert (set k | k in delList) == dead;
    }

    /** Chooses the least loaded survivor, orders it to become master and announces it to all others. The
        registry itself does not change before the chosen node answers. */
    method ElectMaster()
      returns (panicked: bool, ghost candidate: Option<string>, ghost order: seq<string>, ghost sent: seq<Outgoing>)
      modifies `outbox
      ensures outbox == old(outbox) + sent
      ensures CanElect(Value()) ==> !panicked && Elected(Value(), sent, candidate, order)
    {
      candidate, order, sent, panicked := None, [], [], false;
      var pick := GetMinLoadNode(nodeState, nodeList);
      match pick {
        case Nobody =>
        case Panicked => panicked := true;
        case Chosen(master) =>
          var key := master.GetKey();
          if key !in peers {
            panicked := true;
            return;
          }
          candidate := Some(key);
          Send(ConvertToMaster(peers[key], key));
          panicked, order, sent := AnnounceMaster(key, master);
          sent := [ConvertToMaster(peers[key], key)] + sent;
      }
    }

    method AnnounceMaster(key: string, master: NodeInfo)
      returns (panicked: bool, ghost order: seq<string>, ghost sent: seq<Outgoing>)
      modifies `outbox
      ensures outbox == old(outbox) + sent
      ensures nodeList.Keys <= peers.Keys ==>
                && !panicked && Enumerates(order, nodeList.Keys - {key}) && |sent| == |order|
                && (forall k | k in order :: k in peers)
                && forall i | 0 <= i < |order| :: sent[i] == ChangeMaster(peers[order[i]], key, master)
    {
      panicked, order, sent := false, [], [];
      var left := nodeList.Keys - {key};
      while left != {}
        invariant left <= nodeList.Keys - {key} && outbox == old(outbox) + sent && !panicked
        invariant Enumerates(order, nodeList.Keys - {key} - left) && |sent| == |order|
        invariant forall k | k in order :: k in peers
        invariant forall i | 0 <= i < |order| :: sent[i] == ChangeMaster(peers[order[i]], key, master)
      {
        var other := NextKey(left);
        left := left - {other};
        if other !in peers {
          panicked := true;
          return;
        }
        Send(ChangeMaster(peers[other], key, master));
        order, sent := order + [other], sent + [ChangeMaster(peers[other], key, master)];
      }
    }
  }
}
