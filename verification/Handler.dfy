/** What one game server does with one message (crates/server/src/main_handle.rs and heartbeat.rs), as a
    function of its role, its sessions and its world. */
module Handler {
  import opened Basic
  import Tiles
  import opened WorldSpec
  import opened Simulation

  type NodeKey = string
  type ClientId = string
  type Peer = string

  /** `Login` carries the user the server makes up: a fresh id at a random place. */
  datatype Operation =
    | Login(user: User)
    | Logout
    | AddUser(user: User)
    | DelUser(id: UserId)
    | Aoe(id: UserId, radius: real, money: U64)
    | SetVelocity(id: UserId, velocity: Velocity)
    | Query(scope: RectScope)

  /** `clientPeer` is set by a slave on what it sends to the master, so that the answer finds the client. */
  datatype Message = Message(clientId: ClientId, clientPeer: Option<Peer>, op: Operation)

  datatype ReplyBody =
    | AlreadyIn | NewUser(id: UserId) | LoggedOut | Deleted | AoeDone | VelocitySet | Users(users: set<User>)

  datatype Reply = Reply(peer: Peer, clientPeer: Option<Peer>, body: ReplyBody)

  datatype Node = Node(isSlave: bool, key: NodeKey, clients: map<ClientId, UserId>, world: WorldState)

  /** The node afterwards and what it sent; a panic ends the handler after what it had done so far. */
  datatype Effect = Effect(node: Node, toMaster: seq<Message>, toClient: seq<Reply>, panicked: bool)

  /** A slave answers queries itself and turns everything that changes the world into a message to the
      master; the master, or a server on its own, does it in its own world. */
  ghost function Handle(conf: Config, node: Node, msg: Message, peer: Peer): Effect {
    match msg.op
    case Login(user) =>
      if msg.clientId in node.clients then
        Effect(node, [], [Reply(peer, None, AlreadyIn)], false)
      else
        var node1 := node.(clients := node.clients[msg.clientId := user.id]);
        if node.isSlave then
          Effect(node1, [Message(node.key, Some(peer), AddUser(user))], [], false)
        else
          Effect(node1.(world := AddUserTo(node.world, user)), [], [Reply(peer, None, NewUser(user.id))], false)
    case Logout =>
      if node.isSlave then
        if msg.clientId !in node.clients then
          Effect(node, [], [], true)
        else
          Effect(node.(clients := node.clients - {msg.clientId}),
                 [Message(node.key, Some(peer), DelUser(node.clients[msg.clientId]))], [], false)
      else
        var (node1, panicked) := RemoveClient(node, msg.clientId);
        Effect(node1, [], if panicked then [] else [Reply(peer, None, LoggedOut)], panicked)
    case AddUser(user) =>
      Effect(node.(world := AddUserTo(node.world, user)), [], [Reply(peer, msg.clientPeer, NewUser(user.id))], false)
    case DelUser(id) =>
      var (w, panicked) := RemoveUserFrom(node.world, id);
      Effect(node.(world := w), [], if panicked then [] else [Reply(peer, msg.clientPeer, Deleted)], panicked)
    case Aoe(id, radius, money) =>
      if node.isSlave then
        Effect(node, [Message(node.key, Some(peer), msg.op)], [], false)
      else
        Effect(node.(world := AoeIn(node.world, id, radius, money, conf.maxAoeRadius)), [],
               [Reply(peer, msg.clientPeer, AoeDone)], false)
    case SetVelocity(id, velocity) =>
      if node.isSlave then
        Effect(node, [Message(node.key, Some(peer), msg.op)], [], false)
      else
        Effect(node.(world := SetVelocityIn(node.world, id, velocity)), [],
               [Reply(peer, msg.clientPeer, VelocitySet)], false)
    case Query(scope) =>
      Effect(node, [], [Reply(peer, None, Users(Scan(Tiles.Flat(node.world.maps), scope)))], false)
  }

  /** `remove_user_by_client_id`. */
  function RemoveClient(node: Node, client: ClientId): (Node, bool) {
    if client !in node.clients then
      (node, false)
    else
      var (w, panicked) := RemoveUserFrom(node.world, node.clients[client]);
      (node.(clients := node.clients - {client}, world := w), panicked)
  }

  /** `remove_offline_client`: on a slave the message to the master has no `clientPeer`, nobody waits for
      an answer. */
  function LoseClient(node: Node, client: ClientId): Effect {
    if node.isSlave then
      if client in node.clients then
        Effect(node.(clients := node.clients - {client}),
               [Message(node.key, None, DelUser(node.clients[client]))], [], false)
      else
        Effect(node, [], [], false)
    else
      var (node1, panicked) := RemoveClient(node, client);
      Effect(node1, [], [], panicked)
  }
}
