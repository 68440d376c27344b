/** A master and its slaves as a step system: client messages, forwarded messages in flight, replies, ticks,
    and world snapshots that may be delayed, reordered, repeated or lost. */
module Cluster {
  import opened Basic
  import Tiles
  import opened WorldSpec
  import opened Simulation
  import Snapshot
  import opened Handler

  /** Names a message that a slave has received from a client or made up for one that went silent. */
  type Ticket(==, !new)

  datatype Owner = AtMaster | AtSlave(node: NodeKey)

  datatype InFlight = InFlight(from: NodeKey, msg: Message)

  datatype InReply = InReply(to: NodeKey, reply: Reply)

  datatype Request = Request(node: NodeKey, clientPeer: Option<Peer>)

  datatype Delivery = Delivery(node: NodeKey, peer: Peer, ticket: Ticket, body: ReplyBody)

  /** The last five fields are history: what has been sent to clients, the published snapshots and the tiles
      they show, who asked for what, where each user id was made up, and whose removal has been handled. */
  datatype State = State(
    master: Node,
    slaves: map<NodeKey, Node>,
    pending: map<Ticket, InFlight>,
    replies: map<Ticket, InReply>,
    delivered: seq<Delivery>,
    published: set<Snapshot.Dto>,
    snapshots: set<Tiles.TileMap>,
    requests: map<Ticket, Request>,
    owner: map<UserId, Owner>,
    departed: set<UserId>)

  datatype Step =
    | ClientMessage(node: NodeKey, ticket: Ticket, peer: Peer, msg: Message)
    | ClientSilent(node: NodeKey, ticket: Ticket, client: ClientId)
    | MasterClientMessage(peer: Peer, msg: Message)
    | MasterClientSilent(client: ClientId)
    | MasterHandles(ticket: Ticket)
    | SlaveForwards(ticket: Ticket)
    | TickAndPublish(data: Snapshot.Dto)
    | SlaveSyncs(node: NodeKey, data: Snapshot.Dto, after: Tiles.TileMap)

  /** Clients do not send the two operations that are meant between servers. */
  predicate FromClient(op: Operation) {
    !op.AddUser? && !op.DelUser?
  }

  predicate FreshLogin(s: State, msg: Message) {
    msg.op.Login? ==> msg.op.user.id !in s.owner
  }

  ghost predicate Enabled(conf: Config, s: State, step: Step) {
    match step
    case ClientMessage(n, ticket, peer, msg) =>
      n in s.slaves && ticket !in s.requests && FromClient(msg.op) && FreshLogin(s, msg)
    case ClientSilent(n, ticket, client) => n in s.slaves && ticket !in s.requests
    case MasterClientMessage(peer, msg) => FromClient(msg.op) && FreshLogin(s, msg)
    case MasterClientSilent(client) => true
    case MasterHandles(ticket) => ticket in s.pending
    case SlaveForwards(ticket) => ticket in s.replies
    case TickAndPublish(data) => Snapshot.IsDtoOf(data, TickOf(s.master.world, conf.tickTime).maps)
    case SlaveSyncs(n, data, after) =>
      n in s.slaves && data in s.published && Snapshot.Synced(s.slaves[n].world.maps, data, after)
  }

  /** A new user belongs to the server that made it up. */
  function OwnerAfter(s: State, node: Node, msg: Message, owner: Owner): map<UserId, Owner> {
    if msg.op.Login? && msg.clientId !in node.clients then s.owner[msg.op.user.id := owner] else s.owner
  }

  /** The effect of a slave's handler: at most one message goes to the master, at most one reply to a client. */
  function AfterSlave(s: State, n: NodeKey, ticket: Ticket, request: Request, e: Effect): State {
    s.(slaves := s.slaves[n := e.node],
       pending := if e.toMaster == [] then s.pending else s.pending[ticket := InFlight(n, e.toMaster[0])],
       delivered := if e.toClient == [] then s.delivered
                    else s.delivered + [Delivery(n, e.toClient[0].peer, ticket, e.toClient[0].body)],
       requests := s.requests[ticket := request])
  }

  /** The tick of the master followed by the publication of its tiles. */
  ghost function AfterTick(conf: Config, s: State, data: Snapshot.Dto): State {
    var world := TickOf(s.master.world, conf.tickTime);
    s.(master := s.master.(world := world),
       published := s.published + {data},
       snapshots := s.snapshots + {world.maps})
  }

  /** A step that is not enabled does nothing. */
  ghost function Apply(conf: Config, s: State, step: Step): State {
    if !Enabled(conf, s, step) then s else
    match step
    case ClientMessage(n, ticket, peer, msg) =>
      AfterSlave(s.(owner := OwnerAfter(s, s.slaves[n], msg, AtSlave(n))), n, ticket, Request(n, Some(peer)),
                 Handle(conf, s.slaves[n], msg, peer))
    case ClientSilent(n, ticket, client) =>
      AfterSlave(s, n, ticket, Request(n, None), LoseClient(s.slaves[n], client))
    case MasterClientMessage(peer, msg) =>
      s.(master := Handle(conf, s.master, msg, peer).node, owner := OwnerAfter(s, s.master, msg, AtMaster))
    case MasterClientSilent(client) =>
      s.(master := LoseClient(s.master, client).node)
    case MasterHandles(ticket) =>
      var m := s.pending[ticket];
      var e := Handle(conf, s.master, m.msg, m.from);
      s.(master := e.node, pending := s.pending - {ticket},
         replies := if e.toClient == [] then s.replies else s.replies[ticket := InReply(m.from, e.toClient[0])],
         departed := if m.msg.op.DelUser? then s.departed + {m.msg.op.id} else s.departed)
    case SlaveForwards(ticket) =>
      var r := s.replies[ticket];
      s.(replies := s.replies - {ticket},
         delivered := match r.reply.clientPeer
           case None => s.delivered
           case Some(peer) => s.delivered + [Delivery(r.to, peer, ticket, r.reply.body)])
    case TickAndPublish(data) => AfterTick(conf, s, data)
    case SlaveSyncs(n, data, after) =>
      s.(slaves := s.slaves[n := s.slaves[n].(world := s.slaves[n].world.(maps := after))])
  }

  ghost predicate Initial(s: State) {
    && !s.master.isSlave && s.master.world == EMPTY_WORLD && s.master.clients.Keys == {}
    && (forall n | n in s.slaves ::
          var node := s.slaves[n];
          node.isSlave && node.key == n && node.world == EMPTY_WORLD && node.clients.Keys == {})
    && s.pending.Keys == {} && s.replies.Keys == {} && s.delivered == [] && s.published == {} && s.snapshots == {}
    && s.requests.Keys == {} && s.owner.Keys == {} && s.departed == {}
  }

  // ----- replies reach the client that asked, at most once -----

  /** Each request is at one place at most: on its way to the master, on its way back, or answered; and
      wherever it is, it carries the slave and the client peer it came from. */
  ghost predicate RouteOk(s: State) {
    && (forall t | t in s.pending ::
          t in s.requests && s.requests[t] == Request(s.pending[t].from, s.pending[t].msg.clientPeer))
    && (forall t | t in s.replies ::
          t in s.requests && s.requests[t] == Request(s.replies[t].to, s.replies[t].reply.clientPeer))
    && s.pending.Keys !! s.replies.Keys
    && (forall i | 0 <= i < |s.delivered| ::
          var d := s.delivered[i];
          && d.ticket in s.requests && s.requests[d.ticket] == Request(d.node, Some(d.peer))
          && d.ticket !in s.pending && d.ticket !in s.replies)
    && (forall i, j | 0 <= i < j < |s.delivered| :: s.delivered[i].ticket != s.delivered[j].ticket)
  }

  /** What a slave sends for a request: to the master with the peer of the asking client, or straight back
      to that client; never both. */
  lemma SlaveEffect(conf: Config, node: Node, msg: Message, peer: Peer)
    requires node.isSlave && FromClient(msg.op)
    ensures var e := Handle(conf, node, msg, peer);
            && |e.toMaster| + |e.toClient| <= 1
            && (e.toMaster != [] ==> e.toMaster[0].clientPeer == Some(peer) && e.toMaster[0].clientId == node.key)
            && (e.toClient != [] ==> e.toClient[0].peer == peer)
            && e.node.isSlave && e.node.key == node.key && e.node.world == node.world
  {
  }

  lemma MasterEffect(conf: Config, node: Node, msg: Message, peer: Peer)
    requires !node.isSlave
    ensures var e := Handle(conf, node, msg, peer);
            && e.toMaster == [] && |e.toClient| <= 1
            && (e.toClient != [] && (msg.op.AddUser? || msg.op.DelUser? || msg.op.Aoe? || msg.op.SetVelocity?) ==>
                  e.toClient[0].clientPeer == msg.clientPeer && e.toClient[0].peer == peer)
            && !e.node.isSlave && e.node.key == node.key
  {
  }

  /** Only these operations travel from a slave to the master. */
  predicate Forwarded(op: Operation) {
    op.AddUser? || op.DelUser? || op.Aoe? || op.SetVelocity?
  }

  ghost predicate RolesOk(s: State) {
    && !s.master.isSlave
    && (forall n | n in s.slaves :: s.slaves[n].isSlave && s.slaves[n].key == n)
    && (forall t | t in s.pending :: Forwarded(s.pending[t].msg.op))
  }

  lemma RolesKept(conf: Config, s: State, step: Step)
    requires RolesOk(s) && Enabled(conf, s, step)
    ensures RolesOk(Apply(conf, s, step))
  {
    match step {
      case ClientMessage(n, ticket, peer, msg) => SlaveEffect(conf, s.slaves[n], msg, peer);
      case MasterClientMessage(peer, msg) => MasterEffect(conf, s.master, msg, peer);
      case MasterHandles(ticket) => MasterEffect(conf, s.master, s.pending[ticket].msg, s.pending[ticket].from);
      case _ =>
    }
  }

  lemma RouteAfterSlave(s: State, n: NodeKey, ticket: Ticket, request: Request, e: Effect)
    requires RouteOk(s) && ticket !in s.requests && |e.toMaster| + |e.toClient| <= 1
    requires e.toMaster != [] ==> request == Request(n, e.toMaster[0].clientPeer)
    requires e.toClient != [] ==> request == Request(n, Some(e.toClient[0].peer))
    ensures RouteOk(AfterSlave(s, n, ticket, request, e))
  {
  }

  lemma RouteAfterForward(conf: Config, s: State, ticket: Ticket)
    requires RouteOk(s) && ticket in s.replies
    ensures RouteOk(Apply(conf, s, SlaveForwards(ticket)))
  {
  }

  lemma RouteAfterMaster(conf: Config, s: State, ticket: Ticket)
    requires RolesOk(s) && RouteOk(s) && ticket in s.pending
    ensures RouteOk(Apply(conf, s, MasterHandles(ticket)))
  {
    MasterEffect(conf, s.master, s.pending[ticket].msg, s.pending[ticket].from);
  }

  lemma RouteKept(conf: Config, s: State, step: Step)
    requires RolesOk(s) && RouteOk(s) && Enabled(conf, s, step)
    ensures RouteOk(Apply(conf, s, step))
  {
    match step {
      case ClientMessage(n, ticket, peer, msg) =>
        var e := Handle(conf, s.slaves[n], msg, peer);
        SlaveEffect(conf, s.slaves[n], msg, peer);
        RouteAfterSlave(s.(owner := OwnerAfter(s, s.slaves[n], msg, AtSlave(n))), n, ticket, Request(n, Some(peer)), e);
      case ClientSilent(n, ticket, client) =>
        RouteAfterSlave(s, n, ticket, Request(n, None), LoseClient(s.slaves[n], client));
      case MasterHandles(ticket) => RouteAfterMaster(conf, s, ticket);
      case SlaveForwards(ticket) => RouteAfterForward(conf, s, ticket);
      case _ =>
    }
  }
}
