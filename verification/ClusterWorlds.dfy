/** The worlds of a cluster: the master keeps the world invariant, and a slave shows whole snapshots. */
module ClusterWorlds {
  import opened Basic
  import opened Tiles
  import opened WorldSpec
  import opened Simulation
  import Conservation
  import opened Snapshot
  import opened Handler
  import opened Cluster

  lemma WorldStepKeepsInv(conf: Config, w: WorldState, op: Op)
    requires WorldInv(w) && (op.Add? ==> op.user.id !in w.users)
    ensures WorldInv(WorldStep(conf, w, op).0)
  {
    InvRepresents(w);
    StepSimulates(conf, w, TableOf(w), op);
    RepresentsInv(WorldStep(conf, w, op).0, TableStep(conf, TableOf(w), op).0);
  }

  /** The world operation behind a message to the master. */
  function WorldOp(node: Node, msg: Message): Option<Op> {
    match msg.op
    case Login(user) => if msg.clientId in node.clients then None else Some(Op.Add(user))
    case Logout => if msg.clientId in node.clients then Some(Op.Remove(node.clients[msg.clientId])) else None
    case AddUser(user) => Some(Op.Add(user))
    case DelUser(id) => Some(Op.Remove(id))
    case Aoe(id, radius, money) => Some(Op.Aoe(id, radius, money))
    case SetVelocity(id, velocity) => Some(Op.SetVelocity(id, velocity))
    case Query(scope) => Some(Op.Query(scope))
  }

  lemma HandleIsWorldStep(conf: Config, node: Node, msg: Message, peer: Peer)
    requires !node.isSlave
    ensures Handle(conf, node, msg, peer).node.world ==
            match WorldOp(node, msg)
            case None => node.world
            case Some(op) => WorldStep(conf, node.world, op).0
  {
  }

  /** Every user that is about to be added to the master has a fresh id there. */
  ghost predicate AddsFresh(s: State) {
    && s.master.world.users.Keys <= s.owner.Keys
    && (forall t | t in s.pending && s.pending[t].msg.op.AddUser? ::
          s.pending[t].msg.op.user.id !in s.master.world.users)
  }

  /** What a step of the cluster does to the world of the master. */
  function MasterOp(s: State, step: Step): Option<Op> {
    match step
    case MasterClientMessage(peer, msg) => WorldOp(s.master, msg)
    case MasterClientSilent(client) =>
      if client in s.master.clients then Some(Op.Remove(s.master.clients[client])) else None
    case MasterHandles(ticket) => if ticket in s.pending then WorldOp(s.master, s.pending[ticket].msg) else None
    case TickAndPublish(data) => Some(Op.Tick)
    case _ => None
  }

  lemma MasterWorldSteps(conf: Config, s: State, step: Step)
    requires RolesOk(s) && Enabled(conf, s, step)
    ensures Apply(conf, s, step).master.world ==
            match MasterOp(s, step)
            case None => s.master.world
            case Some(op) => WorldStep(conf, s.master.world, op).0
  {
    match step {
      case MasterClientMessage(peer, msg) => HandleIsWorldStep(conf, s.master, msg, peer);
      case MasterHandles(ticket) => HandleIsWorldStep(conf, s.master, s.pending[ticket].msg, s.pending[ticket].from);
      case _ =>
    }
  }

  lemma MasterAddsFresh(conf: Config, s: State, step: Step)
    requires RolesOk(s) && AddsFresh(s) && Enabled(conf, s, step)
    ensures match MasterOp(s, step)
            case Some(Add(user)) => user.id !in s.master.world.users
            case _ => true
  {
  }

  lemma MasterWorldKept(conf: Config, s: State, step: Step)
    requires RolesOk(s) && AddsFresh(s) && WorldInv(s.master.world) && Enabled(conf, s, step)
    ensures WorldInv(Apply(conf, s, step).master.world)
  {
    MasterWorldSteps(conf, s, step);
    MasterAddsFresh(conf, s, step);
    match MasterOp(s, step) {
      case None =>
      case Some(op) => WorldStepKeepsInv(conf, s.master.world, op);
    }
  }

  /** The data describes one of the snapshots. */
  ghost predicate Shown(snapshots: set<TileMap>, data: Dto) {
    exists tiles :: tiles in snapshots && IsDtoOf(data, tiles)
  }

  /** Every slave shows the tiles it was born with or those of one published snapshot. */
  ghost predicate SnapshotsOk(s: State) {
    && (forall tiles | tiles in s.snapshots :: TileInv(tiles))
    && (forall data | data in s.published :: Shown(s.snapshots, data))
    && (forall n | n in s.slaves :: s.slaves[n].world.maps == EMPTY_TILES || s.slaves[n].world.maps in s.snapshots)
  }

  lemma EmptyTilesInv()
    ensures TileInv(EMPTY_TILES)
  {
  }

  /** Under any delay, reordering, repetition or loss of snapshots no slave ever shows a mixture. */
  lemma SnapshotsKept(conf: Config, s: State, step: Step)
    requires RolesOk(s) && SnapshotsOk(s) && WorldInv(s.master.world) && Enabled(conf, s, step)
    ensures SnapshotsOk(Apply(conf, s, step))
  {
    if step.TickAndPublish? {
      PublishKeeps(conf, s, step.data);
    } else {
      if step.SlaveSyncs? {
        SyncStepShows(conf, s, step.node, step.data, step.after);
      } else {
        OtherStepsShowTheSame(conf, s, step);
      }
      SnapshotsFrame(s, Apply(conf, s, step));
    }
  }

  lemma SyncStepShows(conf: Config, s: State, n: NodeKey, data: Dto, after: TileMap)
    requires SnapshotsOk(s) && Enabled(conf, s, SlaveSyncs(n, data, after))
    ensures var s' := Apply(conf, s, SlaveSyncs(n, data, after));
            && s'.snapshots == s.snapshots && s'.published == s.published && s'.slaves.Keys == s.slaves.Keys
            && s'.slaves[n].world.maps in s.snapshots
            && forall n' | n' in s.slaves && n' != n :: s'.slaves[n'] == s.slaves[n']
  {
    SyncShowsSnapshot(s, n, data, after);
  }

  lemma SnapshotsFrame(s: State, s': State)
    requires SnapshotsOk(s) && s'.snapshots == s.snapshots && s'.published == s.published
    requires forall n | n in s'.slaves :: n in s.slaves &&
               (s'.slaves[n].world.maps == s.slaves[n].world.maps || s'.slaves[n].world.maps in s.snapshots)
    ensures SnapshotsOk(s')
  {
  }

  lemma OtherStepsShowTheSame(conf: Config, s: State, step: Step)
    requires RolesOk(s) && Enabled(conf, s, step) && !step.TickAndPublish? && !step.SlaveSyncs?
    ensures var s' := Apply(conf, s, step);
            && s'.snapshots == s.snapshots && s'.published == s.published && s'.slaves.Keys == s.slaves.Keys
            && forall n | n in s.slaves :: s'.slaves[n].world == s.slaves[n].world
  {
    match step {
      case ClientMessage(n, ticket, peer, msg) => SlaveEffect(conf, s.slaves[n], msg, peer);
      case _ =>
    }
  }

  /** A slave never fills `users`: it synchronises its tiles only. */
  ghost predicate SlavesHaveNoUsers(s: State) {
    forall n | n in s.slaves :: s.slaves[n].world.users.Keys == {}
  }

  lemma NoUsersKept(conf: Config, s: State, step: Step)
    requires RolesOk(s) && SlavesHaveNoUsers(s) && Enabled(conf, s, step)
    ensures SlavesHaveNoUsers(Apply(conf, s, step))
  {
    if !step.TickAndPublish? && !step.SlaveSyncs? {
      OtherStepsShowTheSame(conf, s, step);
    }
  }

  lemma SlaveTilesOk(s: State, n: NodeKey)
    requires SnapshotsOk(s) && n in s.slaves
    ensures TileInv(s.slaves[n].world.maps)
  {
    EmptyTilesInv();
  }

  lemma SyncShowsSnapshot(s: State, n: NodeKey, data: Dto, after: TileMap)
    requires SnapshotsOk(s) && n in s.slaves && data in s.published && Synced(s.slaves[n].world.maps, data, after)
    ensures after in s.snapshots
  {
    var tiles :| tiles in s.snapshots && IsDtoOf(data, tiles);
    SlaveTilesOk(s, n);
    SyncCopies(s.slaves[n].world.maps, tiles, data, after);
  }

  lemma PublishKeeps(conf: Config, s: State, data: Dto)
    requires SnapshotsOk(s) && WorldInv(s.master.world)
    requires IsDtoOf(data, TickOf(s.master.world, conf.tickTime).maps)
    ensures SnapshotsOk(AfterTick(conf, s, data))
  {
    Conservation.TickExactly(s.master.world, conf.tickTime);
    OneMoreSnapshot(s, TickOf(s.master.world, conf.tickTime), data);
  }

  lemma OneMoreSnapshot(s: State, world: WorldState, data: Dto)
    requires SnapshotsOk(s) && TileInv(world.maps) && IsDtoOf(data, world.maps)
    ensures SnapshotsOk(s.(master := s.master.(world := world), published := s.published + {data},
                           snapshots := s.snapshots + {world.maps}))
  {
    var snapshots := s.snapshots + {world.maps};
    assert world.maps in snapshots && Shown(snapshots, data);
    forall d | d in s.published ensures Shown(snapshots, d) {
      ShownBefore(s.snapshots, snapshots, d);
    }
  }

  lemma ShownBefore(snapshots: set<TileMap>, more: set<TileMap>, data: Dto)
    requires Shown(snapshots, data) && snapshots <= more
    ensures Shown(more, data)
  {
    var tiles :| tiles in snapshots && IsDtoOf(data, tiles);
    assert tiles in more;
  }

  lemma QueryReply(conf: Config, s: State, n: NodeKey, ticket: Ticket, peer: Peer, msg: Message)
    requires Enabled(conf, s, ClientMessage(n, ticket, peer, msg)) && msg.op.Query?
    ensures Apply(conf, s, ClientMessage(n, ticket, peer, msg)).delivered ==
            s.delivered + [Delivery(n, peer, ticket, Users(Scan(Flat(s.slaves[n].world.maps), msg.op.scope)))]
  {
  }
}
