/** Main results about a cluster: what holds in every reachable state, and when no session is lost. */
module ClusterTheorems {
  import opened Basic
  import opened MapTool
  import opened Tiles
  import opened WorldSpec
  import opened Simulation
  import Snapshot
  import opened Handler
  import opened Cluster
  import opened ClusterWorlds
  import opened Sessions

  function ViewOf(s: State): View {
    View(map n | n in s.slaves :: s.slaves[n].clients, s.master.clients, s.pending,
         s.master.world.users.Keys, s.owner, s.departed)
  }

  // ----- each step is a move of the sessions -----

  function SlaveMove(s: State, n: NodeKey, ticket: Ticket, peer: Peer, msg: Message): Move
    requires n in s.slaves
  {
    var node := s.slaves[n];
    match msg.op
    case Login(user) =>
      if msg.clientId in node.clients then Idle
      else Open(n, msg.clientId, user.id, ticket, InFlight(n, Message(node.key, Some(peer), AddUser(user))))
    case Logout =>
      if msg.clientId !in node.clients then Idle
      else Close(n, msg.clientId, ticket,
                 InFlight(n, Message(node.key, Some(peer), DelUser(node.clients[msg.clientId]))))
    case Query(_) => Idle
    case _ => Send(ticket, InFlight(n, Message(node.key, Some(peer), msg.op)))
  }

  function SilentMove(s: State, n: NodeKey, ticket: Ticket, client: ClientId): Move
    requires n in s.slaves
  {
    var node := s.slaves[n];
    if client in node.clients
    then Close(n, client, ticket, InFlight(n, Message(node.key, None, DelUser(node.clients[client]))))
    else Idle
  }

  function LeaveMove(node: Node, client: ClientId): Move {
    if client in node.clients then MasterClose(client, !RemoveClient(node, client).1) else Idle
  }

  function MasterMove(s: State, msg: Message): Move {
    match msg.op
    case Login(user) => if msg.clientId in s.master.clients then Idle else MasterOpen(msg.clientId, user.id)
    case Logout => LeaveMove(s.master, msg.clientId)
    case _ => Idle
  }

  ghost function MoveOf(conf: Config, s: State, step: Step): Move {
    if !Enabled(conf, s, step) then Idle else
    match step
    case ClientMessage(n, ticket, peer, msg) => SlaveMove(s, n, ticket, peer, msg)
    case ClientSilent(n, ticket, client) => SilentMove(s, n, ticket, client)
    case MasterClientMessage(peer, msg) => MasterMove(s, msg)
    case MasterClientSilent(client) => LeaveMove(s.master, client)
    case MasterHandles(t) =>
      (match s.pending[t].msg.op
       case AddUser(_) => HandleAdd(t)
       case DelUser(id) => HandleDel(t, !RemoveUserFrom(s.master.world, id).1)
       case _ => HandleOther(t))
    case SlaveForwards(_) => Idle
    case TickAndPublish(_) => Shrink(TickOf(s.master.world, conf.tickTime).users.Keys)
    case SlaveSyncs(_, _, _) => Idle
  }

  ghost predicate IsMove(s: State, move: Move, s': State) {
    Possible(ViewOf(s), move) && ViewOf(s') == Moved(ViewOf(s), move)
  }

  /** Only the slave's own sessions and the messages in flight change. */
  lemma SlaveView(s: State, n: NodeKey, ticket: Ticket, request: Request, e: Effect)
    requires n in s.slaves
    ensures var s' := AfterSlave(s, n, ticket, request, e);
            ViewOf(s') == ViewOf(s).(clients := ViewOf(s).clients[n := e.node.clients], pending := s'.pending)
  {
  }

  lemma SameClients(s: State, n: NodeKey)
    requires n in s.slaves
    ensures ViewOf(s).clients[n := s.slaves[n].clients] == ViewOf(s).clients
  {
  }

  lemma SlaveLoginMoves(conf: Config, s: State, n: NodeKey, ticket: Ticket, peer: Peer, msg: Message)
    requires RolesOk(s) && Enabled(conf, s, ClientMessage(n, ticket, peer, msg)) && msg.op.Login?
    requires ticket !in s.pending
    ensures IsMove(s, SlaveMove(s, n, ticket, peer, msg), Apply(conf, s, ClientMessage(n, ticket, peer, msg)))
  {
    var e := Handle(conf, s.slaves[n], msg, peer);
    SlaveView(s.(owner := OwnerAfter(s, s.slaves[n], msg, AtSlave(n))), n, ticket, Request(n, Some(peer)), e);
    SameClients(s, n);
  }

  lemma SlaveLogoutMoves(conf: Config, s: State, n: NodeKey, ticket: Ticket, peer: Peer, msg: Message)
    requires RolesOk(s) && Enabled(conf, s, ClientMessage(n, ticket, peer, msg)) && msg.op.Logout?
    requires ticket !in s.pending
    ensures IsMove(s, SlaveMove(s, n, ticket, peer, msg), Apply(conf, s, ClientMessage(n, ticket, peer, msg)))
  {
    SlaveView(s, n, ticket, Request(n, Some(peer)), Handle(conf, s.slaves[n], msg, peer));
    SameClients(s, n);
  }

  lemma SlaveOtherEffect(conf: Config, node: Node, msg: Message, peer: Peer)
    requires node.isSlave && FromClient(msg.op) && !msg.op.Login? && !msg.op.Logout?
    ensures var e := Handle(conf, node, msg, peer);
            e.node == node && e.toMaster == if msg.op.Query? then [] else [Message(node.key, Some(peer), msg.op)]
  {
  }

  lemma SendMoves(s: State, n: NodeKey, ticket: Ticket, request: Request, e: Effect)
    requires n in s.slaves && ticket !in s.pending && e.node == s.slaves[n]
    requires e.toMaster != [] ==> !e.toMaster[0].op.AddUser? && !e.toMaster[0].op.DelUser?
    ensures IsMove(s, if e.toMaster == [] then Idle else Send(ticket, InFlight(n, e.toMaster[0])),
                   AfterSlave(s, n, ticket, request, e))
  {
    SlaveView(s, n, ticket, request, e);
    SameClients(s, n);
  }

  lemma SlaveOtherMoves(conf: Config, s: State, n: NodeKey, ticket: Ticket, peer: Peer, msg: Message)
    requires RolesOk(s) && Enabled(conf, s, ClientMessage(n, ticket, peer, msg)) && !msg.op.Login? && !msg.op.Logout?
    requires ticket !in s.pending
    ensures IsMove(s, SlaveMove(s, n, ticket, peer, msg), Apply(conf, s, ClientMessage(n, ticket, peer, msg)))
  {
    var e := Handle(conf, s.slaves[n], msg, peer);
    SlaveOtherEffect(conf, s.slaves[n], msg, peer);
    SendMoves(s, n, ticket, Request(n, Some(peer)), e);
    assert OwnerAfter(s, s.slaves[n], msg, AtSlave(n)) == s.owner;
    assert Apply(conf, s, ClientMessage(n, ticket, peer, msg)) == AfterSlave(s, n, ticket, Request(n, Some(peer)), e);
  }

  lemma SilentMoves(conf: Config, s: State, n: NodeKey, ticket: Ticket, client: ClientId)
    requires RolesOk(s) && Enabled(conf, s, ClientSilent(n, ticket, client)) && ticket !in s.pending
    ensures IsMove(s, SilentMove(s, n, ticket, client), Apply(conf, s, ClientSilent(n, ticket, client)))
  {
    SlaveView(s, n, ticket, Request(n, None), LoseClient(s.slaves[n], client));
    SameClients(s, n);
  }

  lemma ClientMessageMoves(conf: Config, s: State, n: NodeKey, ticket: Ticket, peer: Peer, msg: Message)
    requires RolesOk(s) && Enabled(conf, s, ClientMessage(n, ticket, peer, msg)) && ticket !in s.pending
    ensures IsMove(s, SlaveMove(s, n, ticket, peer, msg), Apply(conf, s, ClientMessage(n, ticket, peer, msg)))
  {
    if msg.op.Login? {
      SlaveLoginMoves(conf, s, n, ticket, peer, msg);
    } else if msg.op.Logout? {
      SlaveLogoutMoves(conf, s, n, ticket, peer, msg);
    } else {
      SlaveOtherMoves(conf, s, n, ticket, peer, msg);
    }
  }

  lemma ForwardIdles(conf: Config, s: State, t: Ticket)
    requires t in s.replies
    ensures ViewOf(Apply(conf, s, SlaveForwards(t))) == ViewOf(s)
  {
  }

  lemma SyncIdles(conf: Config, s: State, n: NodeKey, data: Snapshot.Dto, after: TileMap)
    requires Enabled(conf, s, SlaveSyncs(n, data, after))
    ensures ViewOf(Apply(conf, s, SlaveSyncs(n, data, after))) == ViewOf(s)
  {
    SameClients(s, n);
  }

  lemma SlaveSideMoves(conf: Config, s: State, step: Step)
    requires RolesOk(s) && Enabled(conf, s, step)
    requires step.ClientMessage? || step.ClientSilent? ==> step.ticket !in s.pending
    requires step.ClientMessage? || step.ClientSilent? || step.SlaveForwards? || step.SlaveSyncs?
    ensures IsMove(s, MoveOf(conf, s, step), Apply(conf, s, step))
  {
    match step {
      case ClientMessage(n, ticket, peer, msg) => ClientMessageMoves(conf, s, n, ticket, peer, msg);
      case ClientSilent(n, ticket, client) => SilentMoves(conf, s, n, ticket, client);
      case SlaveForwards(t) => ForwardIdles(conf, s, t);
      case SlaveSyncs(n, data, after) => SyncIdles(conf, s, n, data, after);
    }
  }

  /** What a forwarded message does to the sessions and the user ids of the master. */
  lemma ForwardedEffect(conf: Config, node: Node, msg: Message, peer: Peer)
    requires !node.isSlave && Forwarded(msg.op)
    ensures var e := Handle(conf, node, msg, peer);
            var ids := node.world.users.Keys;
            && e.node.clients == node.clients
            && e.node.world.users.Keys ==
               match msg.op
               case AddUser(user) => ids + {user.id}
               case DelUser(id) => if RemoveUserFrom(node.world, id).1 then ids else ids - {id}
               case _ => ids
  {
  }

  lemma MasterHandlesView(conf: Config, s: State, t: Ticket)
    requires t in s.pending
    ensures var m := s.pending[t];
            var node := Handle(conf, s.master, m.msg, m.from).node;
            ViewOf(Apply(conf, s, MasterHandles(t))) ==
            ViewOf(s).(masterClients := node.clients, pending := s.pending - {t}, onMaster := node.world.users.Keys,
                       departed := if m.msg.op.DelUser? then s.departed + {m.msg.op.id} else s.departed)
  {
  }

  lemma MasterHandlesMoves(conf: Config, s: State, t: Ticket)
    requires RolesOk(s) && t in s.pending
    ensures IsMove(s, MoveOf(conf, s, MasterHandles(t)), Apply(conf, s, MasterHandles(t)))
  {
    ForwardedEffect(conf, s.master, s.pending[t].msg, s.pending[t].from);
    MasterHandlesView(conf, s, t);
    ForwardedMove(conf, s, t, ViewOf(Apply(conf, s, MasterHandles(t))));
  }

  lemma ForwardedMove(conf: Config, s: State, t: Ticket, v': View)
    requires RolesOk(s) && t in s.pending
    requires var op := s.pending[t].msg.op;
             var ids := s.master.world.users.Keys;
             v' == ViewOf(s).(pending := s.pending - {t},
                              departed := if op.DelUser? then s.departed + {op.id} else s.departed,
                              onMaster := match op
                                case AddUser(user) => ids + {user.id}
                                case DelUser(id) => if RemoveUserFrom(s.master.world, id).1 then ids else ids - {id}
                                case _ => ids)
    ensures var move := MoveOf(conf, s, MasterHandles(t));
            Possible(ViewOf(s), move) && v' == Moved(ViewOf(s), move)
  {
  }

  lemma MasterLeaves(s: State, client: ClientId)
    ensures var (node, panicked) := RemoveClient(s.master, client);
            IsMove(s, LeaveMove(s.master, client), s.(master := node))
  {
  }

  lemma MasterLoginMoves(conf: Config, s: State, peer: Peer, msg: Message)
    requires RolesOk(s) && Enabled(conf, s, MasterClientMessage(peer, msg)) && msg.op.Login?
    ensures IsMove(s, MasterMove(s, msg), Apply(conf, s, MasterClientMessage(peer, msg)))
  {
  }

  lemma MasterOtherMoves(conf: Config, s: State, peer: Peer, msg: Message)
    requires RolesOk(s) && Enabled(conf, s, MasterClientMessage(peer, msg)) && !msg.op.Login? && !msg.op.Logout?
    ensures ViewOf(Apply(conf, s, MasterClientMessage(peer, msg))) == ViewOf(s)
  {
  }

  lemma MasterClientMoves(conf: Config, s: State, peer: Peer, msg: Message)
    requires RolesOk(s) && Enabled(conf, s, MasterClientMessage(peer, msg))
    ensures IsMove(s, MasterMove(s, msg), Apply(conf, s, MasterClientMessage(peer, msg)))
  {
    if msg.op.Login? {
      MasterLoginMoves(conf, s, peer, msg);
    } else if msg.op.Logout? {
      MasterLeaves(s, msg.clientId);
    } else {
      MasterOtherMoves(conf, s, peer, msg);
    }
  }

  lemma TickShrinks(w: WorldState, time: real)
    requires WorldInv(w)
    ensures TickOf(w, time).users.Keys <= w.users.Keys
  {
    forall id | id in Flat(w.maps) ensures id in w.users {
      FlatInUsers(w, id);
    }
  }

  lemma TickMoves(conf: Config, s: State, data: Snapshot.Dto)
    requires TickOf(s.master.world, conf.tickTime).users.Keys <= s.master.world.users.Keys
    ensures IsMove(s, Shrink(TickOf(s.master.world, conf.tickTime).users.Keys), AfterTick(conf, s, data))
  {
  }

  lemma MasterSideMoves(conf: Config, s: State, step: Step)
    requires RolesOk(s) && Enabled(conf, s, step)
    requires step.TickAndPublish? ==> TickOf(s.master.world, conf.tickTime).users.Keys <= s.master.world.users.Keys
    requires step.MasterClientMessage? || step.MasterClientSilent? || step.MasterHandles? || step.TickAndPublish?
    ensures IsMove(s, MoveOf(conf, s, step), Apply(conf, s, step))
  {
    match step {
      case MasterClientMessage(peer, msg) => MasterClientMoves(conf, s, peer, msg);
      case MasterClientSilent(client) => MasterLeaves(s, client);
      case MasterHandles(t) => MasterHandlesMoves(conf, s, t);
      case TickAndPublish(data) => TickMoves(conf, s, data);
    }
  }

  lemma StepMoves(conf: Config, s: State, step: Step)
    requires RolesOk(s) && RouteOk(s) && WorldInv(s.master.world) && Enabled(conf, s, step)
    ensures IsMove(s, MoveOf(conf, s, step), Apply(conf, s, step))
  {
    TickShrinks(s.master.world, conf.tickTime);
    if step.MasterClientMessage? || step.MasterClientSilent? || step.MasterHandles? || step.TickAndPublish? {
      MasterSideMoves(conf, s, step);
    } else {
      SlaveSideMoves(conf, s, step);
    }
  }

  // ----- what holds in every reachable state -----

  ghost predicate ClusterInv(s: State) {
    && RolesOk(s) && RouteOk(s) && WorldInv(s.master.world) && SnapshotsOk(s) && SlavesHaveNoUsers(s)
    && SessionsOk(ViewOf(s))
  }

  lemma AddsAreFresh(s: State)
    requires FlightsOk(ViewOf(s))
    ensures AddsFresh(s)
  {
    forall t | t in s.pending && s.pending[t].msg.op.AddUser?
      ensures s.pending[t].msg.op.user.id !in s.master.world.users
    {
      assert s.pending[t].msg.op.user.id in Adding(s.pending);
    }
  }

  lemma SessionsKept(conf: Config, s: State, step: Step)
    requires RolesOk(s) && RouteOk(s) && WorldInv(s.master.world) && SessionsOk(ViewOf(s)) && Enabled(conf, s, step)
    ensures SessionsOk(ViewOf(Apply(conf, s, step)))
  {
    StepMoves(conf, s, step);
    MoveKeepsOk(ViewOf(s), MoveOf(conf, s, step));
  }

  /** Roles, reply routing, the world invariant of the master, snapshot consistency of the slaves and the
      bookkeeping of sessions survive every step. */
  lemma StepKeepsClusterInv(conf: Config, s: State, step: Step)
    requires ClusterInv(s)
    ensures ClusterInv(Apply(conf, s, step))
  {
    if Enabled(conf, s, step) {
      AddsAreFresh(s);
      RolesKept(conf, s, step);
      RouteKept(conf, s, step);
      MasterWorldKept(conf, s, step);
      SnapshotsKept(conf, s, step);
      NoUsersKept(conf, s, step);
      SessionsKept(conf, s, step);
    }
  }

  /** A user in `users` survives a tick: it has a tile before and after it moves. */
  predicate SurvivesTick(conf: Config, user: User) {
    Tiled(user.position) && Tiled(Shift(user, conf.tickTime).position)
  }

  /** The steps that lose no session: a removal is handled after the addition of the same user and finds a
      tile, and a tick drops no user of a slave unless its removal is on the way. */
  ghost predicate CleanStep(conf: Config, s: State, step: Step) {
    var users := s.master.world.users;
    match step
    case MasterHandles(t) =>
      t in s.pending && s.pending[t].msg.op.DelUser? ==>
        var id := s.pending[t].msg.op.id;
        id !in Adding(s.pending) && (id in users ==> Tiled(users[id].position))
    case TickAndPublish(_) =>
      forall id | id in users && id in s.owner && s.owner[id].AtSlave? && id !in Deleting(s.pending) ::
        SurvivesTick(conf, users[id])
    case _ => true
  }

  lemma RemovePanicsExactly(w: WorldState, id: UserId)
    requires WorldInv(w) && id in w.users
    ensures RemoveUserFrom(w, id).1 <==> !Tiled(w.users[id].position)
  {
    InvRepresents(w);
    RemoveSimulates(w, TableOf(w), id);
    assert w.users[id].position == TableOf(w)[id].position;
  }

  lemma FlatExactly(w: WorldState, id: UserId)
    requires WorldInv(w) && id in w.users
    ensures id in Flat(w.maps) <==> Tiled(w.users[id].position)
    ensures id in Flat(w.maps) ==> SameButMoney(w.users[id], Flat(w.maps)[id])
  {
    if id in Flat(w.maps) {
      FlatInUsers(w, id);
      FlatIsPlaced(w.maps);
      assert id in Placed(Flat(w.maps));
    } else if Tiled(w.users[id].position) {
      UserInFlat(w, id);
    }
  }

  lemma TickedExactly(w: WorldState, time: real, id: UserId)
    ensures var flat := Flat(w.maps);
            id in TickOf(w, time).users <==> id in flat && Tiled(Shift(flat[id], time).position)
  {
  }

  lemma ShiftIgnoresMoney(a: User, b: User, time: real)
    requires SameButMoney(a, b)
    ensures Shift(a, time).position == Shift(b, time).position
  {
  }

  lemma SurvivorsExactly(conf: Config, w: WorldState, id: UserId)
    requires WorldInv(w) && id in w.users
    ensures id in TickOf(w, conf.tickTime).users <==> SurvivesTick(conf, w.users[id])
  {
    FlatExactly(w, id);
    TickedExactly(w, conf.tickTime, id);
    if id in Flat(w.maps) {
      ShiftIgnoresMoney(w.users[id], Flat(w.maps)[id], conf.tickTime);
    }
  }

  lemma CleanRemoveExactly(conf: Config, s: State, t: Ticket)
    requires RolesOk(s) && WorldInv(s.master.world) && t in s.pending
    requires Possible(ViewOf(s), MoveOf(conf, s, MasterHandles(t)))
    ensures Clean(ViewOf(s), MoveOf(conf, s, MasterHandles(t))) <==> CleanStep(conf, s, MasterHandles(t))
  {
    var op := s.pending[t].msg.op;
    if op.DelUser? && op.id in s.master.world.users {
      RemovePanicsExactly(s.master.world, op.id);
    }
  }

  lemma CleanTickExactly(conf: Config, s: State, data: Snapshot.Dto)
    requires WorldInv(s.master.world)
    ensures var left := TickOf(s.master.world, conf.tickTime).users.Keys;
            Possible(ViewOf(s), Shrink(left)) &&
            (Clean(ViewOf(s), Shrink(left)) <==> CleanStep(conf, s, TickAndPublish(data)))
  {
    TickShrinks(s.master.world, conf.tickTime);
    forall id | id in s.master.world.users
      ensures id in TickOf(s.master.world, conf.tickTime).users <==> SurvivesTick(conf, s.master.world.users[id])
    {
      SurvivorsExactly(conf, s.master.world, id);
    }
    CleanShrinkExactly(conf, s, TickOf(s.master.world, conf.tickTime).users.Keys, data);
  }

  lemma CleanShrinkExactly(conf: Config, s: State, left: set<UserId>, data: Snapshot.Dto)
    requires left <= s.master.world.users.Keys
    requires forall id | id in s.master.world.users :: id in left <==> SurvivesTick(conf, s.master.world.users[id])
    ensures Clean(ViewOf(s), Shrink(left)) <==> CleanStep(conf, s, TickAndPublish(data))
  {
  }

  lemma OtherMovesAreClean(conf: Config, s: State, step: Step)
    requires Enabled(conf, s, step) && !step.MasterHandles? && !step.TickAndPublish?
    ensures var move := MoveOf(conf, s, step); !move.HandleDel? && !move.Shrink?
  {
  }

  lemma CleanExactly(conf: Config, s: State, step: Step)
    requires RolesOk(s) && WorldInv(s.master.world) && Enabled(conf, s, step)
    requires Possible(ViewOf(s), MoveOf(conf, s, step))
    ensures Clean(ViewOf(s), MoveOf(conf, s, step)) <==> CleanStep(conf, s, step)
  {
    if step.MasterHandles? {
      CleanRemoveExactly(conf, s, step.ticket);
    } else if step.TickAndPublish? {
      CleanTickExactly(conf, s, step.data);
    } else {
      OtherMovesAreClean(conf, s, step);
    }
  }

  /** The sessions of every slave are its users on the master, plus those on their way in, minus those on
      their way out. A step keeps this exactly when it is clean. */
  lemma StepConservesExactly(conf: Config, s: State, step: Step)
    requires ClusterInv(s) && Conserved(ViewOf(s)) && Enabled(conf, s, step)
    ensures Conserved(ViewOf(Apply(conf, s, step))) <==> CleanStep(conf, s, step)
  {
    StepMoves(conf, s, step);
    CleanExactly(conf, s, step);
    ConservedExactly(ViewOf(s), MoveOf(conf, s, step));
  }

  // ----- runs -----

  ghost function Run(conf: Config, s: State, steps: seq<Step>): State {
    if steps == [] then s else Apply(conf, Run(conf, s, steps[..|steps| - 1]), steps[|steps| - 1])
  }

  /** Every step of the run that does something is clean. */
  ghost predicate CleanSteps(conf: Config, s: State, steps: seq<Step>) {
    steps == [] ||
    var before, step := steps[..|steps| - 1], steps[|steps| - 1];
    && CleanSteps(conf, s, before)
    && (Enabled(conf, Run(conf, s, before), step) ==> CleanStep(conf, Run(conf, s, before), step))
  }

  /** No session is lost or invented at any point of the run. */
  ghost predicate ConservedThroughout(conf: Config, s: State, steps: seq<Step>) {
    Conserved(ViewOf(Run(conf, s, steps))) && (steps == [] || ConservedThroughout(conf, s, steps[..|steps| - 1]))
  }

  lemma NobodyAnywhere(v: View)
    requires v.pending.Keys == {} && v.masterClients.Keys == {} && v.onMaster == {} && v.owner.Keys == {}
    requires v.departed == {} && forall n | n in v.clients :: v.clients[n].Keys == {}
    ensures SessionsOk(v) && Conserved(v)
  {
  }

  lemma EmptyWorldOk()
    ensures WorldInv(EMPTY_WORLD)
  {
    EmptyTilesInv();
  }

  lemma InitialOk(s: State)
    requires Initial(s)
    ensures ClusterInv(s) && Conserved(ViewOf(s))
  {
    EmptyWorldOk();
    NobodyAnywhere(ViewOf(s));
  }

  /** Whatever the order of steps, every state of a cluster that starts empty is well-formed. */
  lemma {:induction false} ReachableInv(conf: Config, s: State, steps: seq<Step>)
    requires Initial(s)
    ensures ClusterInv(Run(conf, s, steps))
    decreases |steps|
  {
    if steps == [] {
      InitialOk(s);
    } else {
      ReachableInv(conf, s, steps[..|steps| - 1]);
      StepKeepsClusterInv(conf, Run(conf, s, steps[..|steps| - 1]), steps[|steps| - 1]);
    }
  }

  /** From an empty cluster on, no session is lost or invented at any point of a run exactly when every step is
      clean. */
  lemma {:induction false} ConservedOnRunsExactly(conf: Config, s: State, steps: seq<Step>)
    requires Initial(s)
    ensures ConservedThroughout(conf, s, steps) <==> CleanSteps(conf, s, steps)
    decreases |steps|
  {
    if steps == [] {
      InitialOk(s);
    } else {
      var before, step := steps[..|steps| - 1], steps[|steps| - 1];
      ConservedOnRunsExactly(conf, s, before);
      ReachableInv(conf, s, before);
      if ConservedThroughout(conf, s, before) && Enabled(conf, Run(conf, s, before), step) {
        StepConservesExactly(conf, Run(conf, s, before), step);
      }
    }
  }

  /** When nothing is on the way, the users of the slaves on the master are the disjoint union of the
      sessions of the slaves. */
  lemma DrainedCluster(s: State, id: UserId)
    requires ClusterInv(s) && Conserved(ViewOf(s))
    requires Adding(s.pending) == {} && Deleting(s.pending) == {}
    ensures id in s.master.world.users && id in s.owner && s.owner[id].AtSlave? <==>
            exists n :: HasSession(ViewOf(s), n, id)
    ensures forall n, n' | HasSession(ViewOf(s), n, id) && HasSession(ViewOf(s), n', id) :: n == n'
    ensures forall n, c, c' | n in s.slaves && c in s.slaves[n].clients && c' in s.slaves[n].clients
              && s.slaves[n].clients[c] == s.slaves[n].clients[c'] :: c == c'
  {
    var v := ViewOf(s);
    if id in s.master.world.users && id in s.owner && s.owner[id].AtSlave? {
      var n := s.owner[id].node;
      assert n in v.clients && Expected(v, n, id);
      assert HasSession(v, n, id);
    }
    forall n | HasSession(v, n, id) ensures Expected(v, n, id) {
    }
    forall n, c, c' | n in s.slaves && c in s.slaves[n].clients && c' in s.slaves[n].clients
      && s.slaves[n].clients[c] == s.slaves[n].clients[c'] ensures c == c'
    {
      assert v.clients[n][c] == v.clients[n][c'];
    }
  }

  lemma RunFour(conf: Config, s: State, a: Step, b: Step, c: Step, d: Step)
    ensures Run(conf, s, [a, b, c, d]) == Apply(conf, Apply(conf, Apply(conf, Apply(conf, s, a), b), c), d)
  {
    assert [a, b, c, d][..3] == [a, b, c] && [a, b, c][..2] == [a, b] && [a, b][..1] == [a] && [a][..0] == [];
    assert Run(conf, s, [a]) == Apply(conf, Run(conf, s, []), a);
    assert Run(conf, s, [a, b]) == Apply(conf, Run(conf, s, [a]), b);
    assert Run(conf, s, [a, b, c]) == Apply(conf, Run(conf, s, [a, b]), c);
  }

  lemma LoginThenLogout(conf: Config, s: State, n: NodeKey, t: Ticket, t': Ticket, peer: Peer, c: ClientId, user: User)
    requires Initial(s) && n in s.slaves && t != t'
    ensures var s1 := Apply(conf, s, ClientMessage(n, t, peer, Message(c, None, Login(user))));
            var s2 := Apply(conf, s1, ClientMessage(n, t', peer, Message(c, None, Logout)));
            && s2.pending.Keys == {t, t'}
            && s2.pending[t].msg.op == AddUser(user) && s2.pending[t'].msg.op == DelUser(user.id)
            && user.id in s2.owner && s2.owner[user.id] == AtSlave(n)
            && n in s2.slaves && s2.slaves[n].clients.Keys == {} && s2.master == s.master
  {
    var s1 := Apply(conf, s, ClientMessage(n, t, peer, Message(c, None, Login(user))));
    assert s1.slaves[n].clients.Keys == {c} && s1.slaves[n].clients[c] == user.id && s1.pending.Keys == {t};
    var s2 := Apply(conf, s1, ClientMessage(n, t', peer, Message(c, None, Logout)));
    assert s2.pending[t'].msg.op == DelUser(user.id) && s2.pending[t] == s1.pending[t];
  }

  lemma RemovalBeforeAddition(conf: Config, s: State, t: Ticket, t': Ticket, user: User)
    requires s.pending.Keys == {t, t'} && t != t' && !s.master.isSlave && user.id !in s.master.world.users
    requires s.pending[t].msg.op == AddUser(user) && s.pending[t'].msg.op == DelUser(user.id)
    ensures var s' := Apply(conf, Apply(conf, s, MasterHandles(t')), MasterHandles(t));
            && s'.pending.Keys == {} && user.id in s'.master.world.users
            && s'.owner == s.owner && s'.slaves == s.slaves
  {
    var s1 := Apply(conf, s, MasterHandles(t'));
    assert s1.pending.Keys == {t} && s1.pending[t] == s.pending[t] && s1.master.world == s.master.world;
  }

  /** A removal that overtakes the addition of the same user: the user stays on the master, although its only
      session is over and nothing is on the way any more. */
  lemma OvertakingLeavesUser(conf: Config, s: State, n: NodeKey, t: Ticket, t': Ticket, peer: Peer, c: ClientId,
                             user: User)
    requires Initial(s) && n in s.slaves && t != t'
    ensures var s4 := Run(conf, s, [ClientMessage(n, t, peer, Message(c, None, Login(user))),
                                    ClientMessage(n, t', peer, Message(c, None, Logout)),
                                    MasterHandles(t'), MasterHandles(t)]);
            && s4.pending.Keys == {} && user.id in s4.master.world.users && Owned(ViewOf(s4), user.id, n)
            && !HasSession(ViewOf(s4), n, user.id) && !Conserved(ViewOf(s4))
  {
    var login := ClientMessage(n, t, peer, Message(c, None, Login(user)));
    var logout := ClientMessage(n, t', peer, Message(c, None, Logout));
    RunFour(conf, s, login, logout, MasterHandles(t'), MasterHandles(t));
    LoginThenLogout(conf, s, n, t, t', peer, c, user);
    RemovalBeforeAddition(conf, Apply(conf, Apply(conf, s, login), logout), t, t', user);
    var v := ViewOf(Run(conf, s, [login, logout, MasterHandles(t'), MasterHandles(t)]));
    assert Expected(v, n, user.id);
  }

  ghost predicate MasterShowed(conf: Config, s: State, steps: seq<Step>, tiles: TileMap) {
    exists k :: 0 <= k <= |steps| && Run(conf, s, steps[..k]).master.world.maps == tiles
  }

  lemma ShowedBefore(conf: Config, s: State, steps: seq<Step>, tiles: TileMap)
    requires steps != [] && MasterShowed(conf, s, steps[..|steps| - 1], tiles)
    ensures MasterShowed(conf, s, steps, tiles)
  {
    var before := steps[..|steps| - 1];
    var k :| 0 <= k <= |before| && Run(conf, s, before[..k]).master.world.maps == tiles;
    assert steps[..k] == before[..k];
  }

  lemma {:induction false} SnapshotsWereShowed(conf: Config, s: State, steps: seq<Step>)
    requires Initial(s)
    ensures forall tiles | tiles in Run(conf, s, steps).snapshots :: MasterShowed(conf, s, steps, tiles)
    decreases |steps|
  {
    if steps != [] {
      var before := steps[..|steps| - 1];
      SnapshotsWereShowed(conf, s, before);
      assert steps[..|steps|] == steps;
      forall tiles | tiles in Run(conf, s, steps).snapshots ensures MasterShowed(conf, s, steps, tiles) {
        if tiles in Run(conf, s, before).snapshots {
          ShowedBefore(conf, s, steps, tiles);
        } else {
          NewSnapshot(conf, Run(conf, s, before), steps[|steps| - 1], tiles);
          assert Run(conf, s, steps[..|steps|]).master.world.maps == tiles;
        }
      }
    }
  }

  lemma NewSnapshot(conf: Config, s: State, step: Step, tiles: TileMap)
    requires tiles in Apply(conf, s, step).snapshots && tiles !in s.snapshots
    ensures Apply(conf, s, step).master.world.maps == tiles
  {
  }

  /** At any time a slave shows the tiles of the master at one earlier point of the run, and answers a query
      with the full scan of the users the master had in them then. */
  lemma SlavesLagBehindTheMaster(conf: Config, s: State, steps: seq<Step>, n: NodeKey,
                                 ticket: Ticket, peer: Peer, msg: Message)
    requires Initial(s) && n in Run(conf, s, steps).slaves
    ensures var now := Run(conf, s, steps);
            && MasterShowed(conf, s, steps, now.slaves[n].world.maps)
            && TileInv(now.slaves[n].world.maps)
            && (Enabled(conf, now, ClientMessage(n, ticket, peer, msg)) && msg.op.Query? ==>
                  Apply(conf, now, ClientMessage(n, ticket, peer, msg)).delivered == now.delivered +
                    [Delivery(n, peer, ticket, Users(Scan(Flat(now.slaves[n].world.maps), msg.op.scope)))])
  {
    var now := Run(conf, s, steps);
    ReachableInv(conf, s, steps);
    SlaveTilesOk(now, n);
    SnapshotsWereShowed(conf, s, steps);
    if now.slaves[n].world.maps == EMPTY_TILES {
      assert Run(conf, s, steps[..0]).master.world.maps == EMPTY_TILES;
    }
    if Enabled(conf, now, ClientMessage(n, ticket, peer, msg)) && msg.op.Query? {
      QueryReply(conf, now, n, ticket, peer, msg);
    }
  }
}
