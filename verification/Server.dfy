/** A game server as it runs: handlers and the heartbeat monitor work in place on the context and the world
    (crates/server/src/main_handle.rs, heartbeat.rs, distribute.rs and server_run.rs). Each method does what
    module `Handler` says of the node. A channel is the sequence of what has been sent on it. */
module Server {
  import opened Basic
  import MapTool
  import opened Tiles
  import opened WorldSpec
  import opened Simulation
  import Snapshot
  import opened Handler
  import World

  datatype ToRegistry = ConvertToMasterResp(key: NodeKey)

  /** The clients whose last heartbeat is too old when the monitor looks at them. */
  function Offline(lastTime: map<ClientId, int>, clock: ClientId -> int, heartbeat: int): set<ClientId> {
    set c | c in lastTime && clock(c) - lastTime[c] > heartbeat
  }

  /** The users of the given clients. */
  function UsersOf(clients: map<ClientId, UserId>, gone: set<ClientId>): set<UserId> {
    set c | c in clients && c in gone :: clients[c]
  }

  /** The messages that tell the master to drop the users of the listed clients: one for each that has a
      session, in that order, and none of them expects an answer. */
  function Removals(key: NodeKey, clients: map<ClientId, UserId>, list: seq<ClientId>): seq<Message>
  {
    if list == [] then [] else
      var last := list[|list| - 1];
      Removals(key, clients, list[..|list| - 1]) +
      (if last in clients then [Message(key, None, DelUser(clients[last]))] else [])
  }

  function WithSession(clients: map<ClientId, UserId>, list: seq<ClientId>): set<ClientId> {
    set c | c in list && c in clients
  }

  lemma OneMoreRemoval(key: NodeKey, clients: map<ClientId, UserId>, list: seq<ClientId>, last: ClientId)
    ensures |Removals(key, clients, list + [last])| ==
            |Removals(key, clients, list)| + (if last in clients then 1 else 0)
  {
    assert (list + [last])[..|list|] == list;
  }

  /** As many messages are sent as there are listed clients with a session. */
  lemma {:induction false} RemovalsCounted(key: NodeKey, clients: map<ClientId, UserId>, list: seq<ClientId>)
    requires Distinct(list)
    ensures |Removals(key, clients, list)| == |WithSession(clients, list)|
    decreases |list|
  {
    if list == [] {
      assert WithSession(clients, list) == {};
    } else {
      var before, last := list[..|list| - 1], list[|list| - 1];
      RemovalsCounted(key, clients, before);
      CountedStep(key, clients, before, last);
      assert list == before + [last];
    }
  }

  lemma CountedStep(key: NodeKey, clients: map<ClientId, UserId>, before: seq<ClientId>, last: ClientId)
    requires last !in before && |Removals(key, clients, before)| == |WithSession(clients, before)|
    ensures |Removals(key, clients, before + [last])| == |WithSession(clients, before + [last])|
  {
    OneMoreRemoval(key, clients, before, last);
    OneMoreSession(clients, before, last);
  }

  /** Each listed client with a session is announced. */
  lemma {:induction false} RemovalsComplete(key: NodeKey, clients: map<ClientId, UserId>, list: seq<ClientId>,
                                            c: ClientId)
    requires c in list && c in clients
    ensures Announced(Removals(key, clients, list), key, clients[c])
    decreases |list|
  {
    if c != list[|list| - 1] {
      assert list == list[..|list| - 1] + [list[|list| - 1]];
      RemovalsComplete(key, clients, list[..|list| - 1], c);
    }
  }

  predicate Announced(sent: seq<Message>, key: NodeKey, id: UserId) {
    Message(key, None, DelUser(id)) in sent
  }

  lemma OneMoreSession(clients: map<ClientId, UserId>, list: seq<ClientId>, last: ClientId)
    requires last !in list
    ensures |WithSession(clients, list + [last])| ==
            |WithSession(clients, list)| + (if last in clients then 1 else 0)
  {
    if last in clients {
      assert WithSession(clients, list + [last]) == WithSession(clients, list) + {last};
    } else {
      assert WithSession(clients, list + [last]) == WithSession(clients, list);
    }
  }

  /** The removal of the client's user would panic. */
  predicate StuckClient(w: WorldState, clients: map<ClientId, UserId>, client: ClientId) {
    client in clients && Stuck(w, clients[client])
  }

  predicate NobodyStuck(w: WorldState, clients: map<ClientId, UserId>, gone: set<ClientId>) {
    forall c | c in gone :: !StuckClient(w, clients, c)
  }

  /** What the monitor has reached from `start` when it has dropped the listed clients and sent the messages
      `sent`: a slave's world stays, a master's loses the users of these clients. */
  ghost predicate Swept(node: Node, start: Node, list: seq<ClientId>, sent: seq<Message>) {
    && node.isSlave == start.isSlave && node.key == start.key
    && node.clients == start.clients - Elements(list)
    && (if start.isSlave then
          sent == Removals(start.key, start.clients, list) && node.world == start.world
        else
          && sent == [] && NobodyStuck(start.world, start.clients, Elements(list))
          && node.world == DropUsers(start.world, UsersOf(start.clients, Elements(list))))
  }

  /** The monitor has dropped the listed clients and panicked on the next one, whose session is over as well. */
  ghost predicate SweptUntil(node: Node, start: Node, list: seq<ClientId>, client: ClientId) {
    && !start.isSlave && StuckClient(start.world, start.clients, client)
    && Swept(node.(clients := start.clients - Elements(list)), start, list, [])
    && node.clients == start.clients - Elements(list + [client])
  }

  lemma OneClientMore(clients: map<ClientId, UserId>, list: seq<ClientId>, client: ClientId)
    requires client !in list
    ensures clients - Elements(list + [client]) == clients - Elements(list) - {client}
    ensures UsersOf(clients, Elements(list + [client])) ==
            if client in clients then UsersOf(clients, Elements(list)) + {clients[client]}
            else UsersOf(clients, Elements(list))
  {
    assert Elements(list + [client]) == Elements(list) + {client};
    if client !in clients {
      assert UsersOf(clients, Elements(list + [client])) == UsersOf(clients, Elements(list));
    }
  }

  lemma SweepsOneMore(node: Node, start: Node, client: ClientId, list: seq<ClientId>, sent: seq<Message>)
    requires client !in list && Swept(node, start, list, sent)
    ensures var e := LoseClient(node, client);
            && (e.panicked <==> !start.isSlave && StuckClient(start.world, start.clients, client))
            && (e.panicked ==> e.toMaster == [] && SweptUntil(e.node, start, list, client))
            && (!e.panicked ==> Swept(e.node, start, list + [client], sent + e.toMaster))
  {
    OneClientMore(start.clients, list, client);
    assert Elements(list + [client]) == Elements(list) + {client};
    assert (list + [client])[..|list|] == list;
    if !start.isSlave && client in start.clients {
      DropOneMore(start.world, UsersOf(start.clients, Elements(list)), start.clients[client]);
    }
  }

  class Server {
    var isSlave: bool
    const key: NodeKey
    const world: World.World
    var toMaster: seq<Message>
    var toClient: seq<Reply>
    var toRegistry: seq<ToRegistry>
    var lastTime: map<ClientId, int>
    const heartbeat: int

    ghost function AsNode(): Node
      reads this, world
    {
      Node(isSlave, key, world.clientMap, world.State())
    }

    ghost function Conf(): Config {
      Config(world.tickTime, world.maxAoeRadius)
    }

    constructor (isSlave: bool, key: NodeKey, tickTime: real, maxAoeRadius: real, heartbeat: int)
      ensures fresh(world) && AsNode() == Node(isSlave, key, map[], EMPTY_WORLD)
      ensures toMaster == [] && toClient == [] && toRegistry == [] && lastTime == map[] && this.heartbeat == heartbeat
      ensures Conf() == Config(tickTime, maxAoeRadius)
    {
      this.isSlave := isSlave;
      this.key := key;
      this.world := new World.World.Init(tickTime, maxAoeRadius);
      this.toMaster, this.toClient, this.toRegistry, this.lastTime := [], [], [], map[];
      this.heartbeat := heartbeat;
    }

    /** What a handler has done to the node and the channels is what `e` says. */
    twostate predicate Did(e: Effect)
      reads this, world
    {
      && AsNode() == e.node
      && toMaster == old(toMaster) + e.toMaster
      && toClient == old(toClient) + e.toClient
    }

    /** One message, from a client or from a slave. For `Login` the message holds the user just made up. */
    method HandleMsg(msg: Message, peer: Peer) returns (panicked: bool)
      requires TileInv(world.maps)
      modifies world, `toMaster, `toClient
      ensures Did(Handle(Conf(), old(AsNode()), msg, peer))
      ensures panicked == Handle(Conf(), old(AsNode()), msg, peer).panicked
    {
      panicked := false;
      match msg.op {
        case Login(user) => DoLogin(msg, user, peer);
        case Logout => panicked := DoLogout(msg, peer);
        case AddUser(user) =>
          world.AddUser(user);
          toClient := toClient + [Reply(peer, msg.clientPeer, NewUser(user.id))];
        case DelUser(id) =>
          panicked := world.RemoveUser(id);
          if !panicked {
            toClient := toClient + [Reply(peer, msg.clientPeer, Deleted)];
          }
        case Aoe(id, radius, money) =>
          if isSlave {
            RedirectMsgToMaster(msg, peer);
          } else {
            DoAoeInSelfWorld(msg, id, radius, money, peer);
          }
        case SetVelocity(id, velocity) =>
          if isSlave {
            RedirectMsgToMaster(msg, peer);
          } else {
            DoSetVelocityInSelfWorld(msg, id, velocity, peer);
          }
        case Query(scope) => DoQuery(msg, scope, peer);
      }
    }

    method DoAoeInSelfWorld(msg: Message, id: UserId, radius: real, money: U64, peer: Peer)
      requires msg.op == Operation.Aoe(id, radius, money) && !isSlave && TileInv(world.maps)
      modifies world, `toClient
      ensures Did(Handle(Conf(), old(AsNode()), msg, peer))
    {
      world.Aoe(id, radius, money);
      toClient := toClient + [Reply(peer, msg.clientPeer, AoeDone)];
    }

    method DoSetVelocityInSelfWorld(msg: Message, id: UserId, velocity: Velocity, peer: Peer)
      requires msg.op == Operation.SetVelocity(id, velocity) && !isSlave
      modifies world, `toClient
      ensures Did(Handle(Conf(), old(AsNode()), msg, peer))
    {
      world.SetVelocity(id, velocity);
      toClient := toClient + [Reply(peer, msg.clientPeer, VelocitySet)];
    }

    /** Every server answers queries from its own world. */
    method DoQuery(msg: Message, scope: RectScope, peer: Peer)
      requires msg.op == Operation.Query(scope) && TileInv(world.maps)
      modifies `toClient
      ensures Did(Handle(Conf(), old(AsNode()), msg, peer))
    {
      var found := world.Query(scope);
      SameElements(found, Scan(Flat(world.maps), scope));
      toClient := toClient + [Reply(peer, None, Users(set u | u in found))];
    }

    method DoLogin(msg: Message, user: User, peer: Peer)
      requires msg.op == Login(user)
      modifies world, `toMaster, `toClient
      ensures Did(Handle(Conf(), old(AsNode()), msg, peer))
    {
      if msg.clientId in world.clientMap {
        toClient := toClient + [Reply(peer, None, AlreadyIn)];
        return;
      }
      world.clientMap := world.clientMap[msg.clientId := user.id];
      if isSlave {
        toMaster := toMaster + [Message(key, Some(peer), AddUser(user))];
      } else {
        world.AddUser(user);
        toClient := toClient + [Reply(peer, None, NewUser(user.id))];
      }
    }

    method DoLogout(msg: Message, peer: Peer) returns (panicked: bool)
      requires msg.op == Logout
      modifies world, `toMaster, `toClient
      ensures Did(Handle(Conf(), old(AsNode()), msg, peer))
      ensures panicked == Handle(Conf(), old(AsNode()), msg, peer).panicked
    {
      if isSlave {
        if msg.clientId !in world.clientMap {
          return true;
        }
        var id := world.clientMap[msg.clientId];
        world.clientMap := world.clientMap - {msg.clientId};
        toMaster := toMaster + [Message(key, Some(peer), DelUser(id))];
        panicked := false;
      } else {
        panicked := world.RemoveUserByClientId(msg.clientId);
        assert old(world.clientMap) - {msg.clientId} == world.clientMap;
        if !panicked {
          toClient := toClient + [Reply(peer, None, LoggedOut)];
        }
      }
    }

    method RedirectMsgToMaster(msg: Message, peer: Peer)
      modifies `toMaster
      ensures toMaster == old(toMaster) + [Message(key, Some(peer), msg.op)]
    {
      toMaster := toMaster + [msg.(clientId := key, clientPeer := Some(peer))];
    }

    method RemoveOfflineClient(client: ClientId) returns (panicked: bool)
      modifies world, `toMaster
      ensures Did(LoseClient(old(AsNode()), client))
      ensures panicked == LoseClient(old(AsNode()), client).panicked
    {
      panicked := false;
      if !isSlave {
        panicked := world.RemoveUserByClientId(client);
      } else if client in world.clientMap {
        var id := world.clientMap[client];
        world.clientMap := world.clientMap - {client};
        toMaster := toMaster + [Message(key, None, DelUser(id))];
      }
    }

    /** One round of the heartbeat monitor, in any world. A master panics exactly when some offline client has a
        user in `users` at a place without a tile, which ends the monitor for good; otherwise every offline client
        is dropped, and its user with it. A slave keeps its world as it is and tells the master. */
    method MonitorHeartbeats(clock: ClientId -> int)
      returns (panicked: bool, ghost order: seq<ClientId>, ghost last: ClientId, ghost sent: seq<Message>)
      modifies world, `toMaster, `lastTime
      ensures var gone := Offline(old(lastTime), clock, heartbeat);
              && toMaster == old(toMaster) + sent
              && (panicked <==> !isSlave && !NobodyStuck(old(world.State()), old(world.clientMap), gone))
              && (panicked ==>
                    && lastTime == old(lastTime) && sent == [] && last in gone && Elements(order) <= gone
                    && SweptUntil(AsNode(), old(AsNode()), order, last))
              && (!panicked ==>
                    && Enumerates(order, gone)
                    && lastTime == old(lastTime) - Elements(order)
                    && world.connectionCount == |lastTime| % World.U32_SIZE
                    && Swept(AsNode(), old(AsNode()), order, sent))
      ensures !panicked ==> forall c ::
                c in lastTime <==> c in old(lastTime) && clock(c) - old(lastTime)[c] <= heartbeat
      ensures !panicked ==> forall c | c in old(world.clientMap) ::
                && (c in world.clientMap <==> c in old(lastTime) ==> clock(c) - old(lastTime)[c] <= heartbeat)
                && (c in world.clientMap ==> world.clientMap[c] == old(world.clientMap)[c])
    {
      NobodyGone(AsNode());
      var delList;
      panicked, delList, last, sent := DropOffline(clock, AsNode());
      order := delList;
      if !panicked {
        assert Elements(order) == Offline(lastTime, clock, heartbeat);
        ForgetClients(delList);
        world.connectionCount := |lastTime| % World.U32_SIZE;
      }
    }

    /** First loop of the monitor, over the clients in any order. */
    method DropOffline(clock: ClientId -> int, ghost start: Node)
      returns (panicked: bool, delList: seq<ClientId>, ghost last: ClientId, ghost sent: seq<Message>)
      requires start == AsNode() && Swept(AsNode(), start, [], [])
      modifies world, `toMaster
      ensures toMaster == old(toMaster) + sent
      ensures panicked ==>
                && sent == [] && last in Offline(lastTime, clock, heartbeat)
                && Elements(delList) <= Offline(lastTime, clock, heartbeat)
                && SweptUntil(AsNode(), start, delList, last)
      ensures !panicked ==>
                && Enumerates(delList, Offline(lastTime, clock, heartbeat))
                && Swept(AsNode(), start, delList, sent)
    {
      ghost var offline := Offline(lastTime, clock, heartbeat);
      sent := [];
      delList, last := [], "";
      var left := lastTime.Keys;
      while left != {}
        invariant left <= lastTime.Keys
        invariant Enumerates(delList, offline - left)
        invariant toMaster == old(toMaster) + sent
        invariant Swept(AsNode(), start, delList, sent)
      {
        var client := NextKey(left);
        left := left - {client};
        if clock(client) - lastTime[client] > heartbeat {
          SweepsOneMore(AsNode(), start, client, delList, sent);
          ghost var more := LoseClient(AsNode(), client).toMaster;
          panicked := RemoveOfflineClient(client);
          if panicked {
            last := client;
            return;
          }
          delList, sent := delList + [client], sent + more;
        }
      }
      panicked := false;
    }

    /** Second loop of the monitor: drops the heartbeat records of the listed clients. */
    method ForgetClients(delList: seq<ClientId>)
      modifies `lastTime
      ensures lastTime == old(lastTime) - Elements(delList)
    {
      for i := 0 to |delList|
        invariant lastTime == old(lastTime) - Elements(delList[..i])
      {
        lastTime := lastTime - {delList[i]};
      }
      assert delList[..|delList|] == delList;
    }

    /** The registry has chosen this server as the new master: the role changes, the world does not, and the
        registry gets one answer. */
    method ConvertSelfToMaster()
      modifies `isSlave, `toRegistry
      ensures AsNode() == old(AsNode()).(isSlave := false)
      ensures toRegistry == old(toRegistry) + [ConvertToMasterResp(key)]
    {
      isSlave := false;
      toRegistry := toRegistry + [ConvertToMasterResp(key)];
    }

    /** One round of the world loop: a master (or a server on its own) ticks and publishes the tiles of that
        very tick, a slave does nothing. */
    method WorldUpdate() returns (sync: Option<Snapshot.Dto>)
      requires TileInv(world.maps)
      modifies world`maps, world`users, world`stateInfo
      ensures isSlave ==> sync.None? && world.State() == old(world.State())
      ensures !isSlave ==>
                && world.State() == TickOf(old(world.State()), world.tickTime)
                && sync.Some? && Snapshot.IsDtoOf(sync.value, world.maps)
    {
      if isSlave {
        return None;
      }
      world.Update();
      var data := world.GetWorldSyncDto();
      return Some(data);
    }
  }

  lemma NobodyGone(node: Node)
    ensures Swept(node, node, [], [])
  {
    assert node.clients - Elements([]) == node.clients;
    assert UsersOf(node.clients, Elements([])) == {};
    DropNobody(node.world);
  }

  /** A sweep of the master takes the users of the silent clients out of `users`, and leaves everybody else as they
      are. A client is silent when its last heartbeat is longer ago than `heartbeat`. */
  lemma SilentClientsLoseUsers(node: Node, start: Node, order: seq<ClientId>, sent: seq<Message>,
                               lastTime: map<ClientId, int>, clock: ClientId -> int, heartbeat: int)
    requires Swept(node, start, order, sent) && !start.isSlave && Enumerates(order, Offline(lastTime, clock, heartbeat))
    ensures forall c | c in start.clients && c in lastTime && clock(c) > lastTime[c] + heartbeat ::
              c !in node.clients && start.clients[c] !in node.world.users
    ensures forall id | id in start.world.users
              && (forall c | c in start.clients && start.clients[c] == id ::
                    c in lastTime ==> clock(c) <= lastTime[c] + heartbeat) ::
              id in node.world.users && node.world.users[id] == start.world.users[id]
  {
    var gone := Offline(lastTime, clock, heartbeat);
    assert Elements(order) == gone;
  }

  /** On a world that stands for a table the sweep takes the users of the clients out of the table. */
  lemma SweepSimulates(node: Node, start: Node, list: seq<ClientId>, sent: seq<Message>, table: Table)
    requires Swept(node, start, list, sent) && !start.isSlave && Represents(start.world, table)
    ensures Represents(node.world, table - UsersOf(start.clients, Elements(list)))
  {
    DropSimulates(start.world, table, UsersOf(start.clients, Elements(list)));
  }

  lemma SameElements(found: seq<User>, users: set<User>)
    requires multiset(found) == multiset(users)
    ensures (set u | u in found) == users
  {
    forall u ensures u in found <==> u in users {
      assert u in found <==> u in multiset(found);
    }
  }
}
