/** A slave that becomes master: its tiles are a snapshot, its `users` is empty (`ClusterWorlds.SlavesHaveNoUsers`),
    and messages may be handled before the first tick. */
module Promotion {
  import opened Basic
  import opened MapTool
  import opened Tiles
  import opened WorldSpec
  import opened Simulation
  import opened Handler
  import Cluster
  import ClusterTheorems
  import ClusterWorlds
  import Snapshot
  import WorldTheorems
  import Conservation

  /** A user with a tile replaces an older one of its id in that same tile, or is new to the tiles. */
  ghost predicate AddKeepsTiles(w: WorldState, user: User) {
    Tiled(user.position) && user.id in Flat(w.maps) ==>
      Pos2MapTag(Flat(w.maps)[user.id].position) == Pos2MapTag(user.position)
  }

  lemma AddKeepsTilesExactly(w: WorldState, user: User)
    requires TileInv(w.maps)
    ensures TileInv(AddUserTo(w, user).maps) <==> AddKeepsTiles(w, user)
  {
    if AddKeepsTiles(w, user) {
      CleanAddKeepsTiles(w, user);
    } else {
      var t := Pos2MapTag(user.position);
      var maps := AddUserTo(w, user).maps;
      var home := HomeOf(w.maps, user.id);
      assert home != t && user.id in maps[home] && user.id in maps[t];
    }
  }

  lemma CleanAddKeepsTiles(w: WorldState, user: User)
    requires TileInv(w.maps) && AddKeepsTiles(w, user)
    ensures TileInv(AddUserTo(w, user).maps)
  {
    if Tiled(user.position) {
      var flat := Flat(w.maps);
      RetileFlat(w.maps);
      AddRetiles(flat, user);
      RetileInv(flat[user.id := user]);
    }
  }

  lemma DropKeepsTiles(tiles: TileMap, t: MapTag, id: UserId)
    requires TileInv(tiles) && t in tiles
    ensures TileInv(Drop(tiles, t, id))
  {
  }

  lemma SetVelocityKeepsTiles(w: WorldState, id: UserId, velocity: Velocity)
    requires TileInv(w.maps)
    ensures TileInv(SetVelocityIn(w, id, velocity).maps)
  {
    if id in w.users {
      var t := Pos2MapTag(w.users[id].position);
      if t in w.maps && id in w.maps[t] {
        FlatAt(w.maps, t, id);
        CleanAddKeepsTiles(w, w.maps[t][id].(velocity := velocity));
      }
    }
  }

  lemma RemoveKeepsTiles(w: WorldState, id: UserId)
    requires TileInv(w.maps)
    ensures TileInv(RemoveUserFrom(w, id).0.maps)
  {
    if id in w.users && Pos2MapTag(w.users[id].position) in w.maps {
      DropKeepsTiles(w.maps, Pos2MapTag(w.users[id].position), id);
    }
  }

  lemma AoeKeepsTiles(conf: Config, w: WorldState, id: UserId, radius: real, money: U64)
    requires TileInv(w.maps)
    ensures TileInv(AoeIn(w, id, radius, money, conf.maxAoeRadius).maps)
  {
    if radius <= conf.maxAoeRadius && id in w.users {
      Conservation.AoeExactly(conf, w, id, radius, money);
    }
  }

  lemma TickKeepsTiles(w: WorldState, time: real)
    requires TileInv(w.maps)
    ensures TileInv(TickOf(w, time).maps)
  {
    Conservation.TickExactly(w, time);
  }

  lemma AoeStepKeepsTiles(conf: Config, w: WorldState, op: Op)
    requires TileInv(w.maps) && op.Aoe?
    ensures TileInv(WorldStep(conf, w, op).0.maps)
  {
    AoeKeepsTiles(conf, w, op.id, op.radius, op.money);
  }

  lemma TickStepKeepsTiles(conf: Config, w: WorldState, op: Op)
    requires TileInv(w.maps) && op.Tick?
    ensures TileInv(WorldStep(conf, w, op).0.maps)
  {
    TickKeepsTiles(w, conf.tickTime);
  }

  /** Whatever `users` holds, every operation keeps the tiles well-formed, except an addition that leaves an older
      copy of the user behind in another tile. */
  lemma StepKeepsTilesExactly(conf: Config, w: WorldState, op: Op)
    requires TileInv(w.maps)
    ensures TileInv(WorldStep(conf, w, op).0.maps) <==> (op.Add? ==> AddKeepsTiles(w, op.user))
  {
    match op {
      case Add(user) => AddKeepsTilesExactly(w, user);
      case Remove(id) => RemoveKeepsTiles(w, id);
      case SetVelocity(id, velocity) => SetVelocityKeepsTiles(w, id, velocity);
      case Aoe(_, _, _) => AoeStepKeepsTiles(conf, w, op);
      case Tick => TickStepKeepsTiles(conf, w, op);
      case Query(_) =>
    }
  }

  ghost predicate AddsKeepTiles(conf: Config, w: WorldState, ops: seq<Op>)
    decreases |ops|
  {
    ops == [] ||
    ((ops[0].Add? ==> AddKeepsTiles(w, ops[0].user)) && AddsKeepTiles(conf, WorldStep(conf, w, ops[0]).0, ops[1..]))
  }

  lemma {:induction false} RunKeepsTiles(conf: Config, w: WorldState, ops: seq<Op>)
    requires TileInv(w.maps) && AddsKeepTiles(conf, w, ops)
    ensures TileInv(WorldTheorems.WorldRun(conf, w, ops).0.maps)
    decreases |ops|
  {
    if ops != [] {
      StepKeepsTilesExactly(conf, w, ops[0]);
      RunKeepsTiles(conf, WorldStep(conf, w, ops[0]).0, ops[1..]);
    }
  }

  /** A slave that is told to become master keeps its tiles and whatever `users` it has. Whatever it handles before
      its first tick (`ClusterWorlds.HandleIsWorldStep`), the tiles stay well-formed, and that tick cannot fail and
      makes the full invariant hold, `users` being the union of the tiles. */
  lemma PromotionRestoresInv(conf: Config, s: Cluster.State, n: NodeKey, users: Table, ops: seq<Op>)
    requires ClusterWorlds.SnapshotsOk(s) && n in s.slaves
    requires AddsKeepTiles(conf, WorldState(s.slaves[n].world.maps, users), ops)
    ensures var w := WorldTheorems.WorldRun(conf, WorldState(s.slaves[n].world.maps, users), ops).0;
            var w' := TickOf(w, conf.tickTime);
            TileInv(w.maps) && WorldInv(w') && w'.users == Flat(w'.maps)
  {
    var promoted := WorldState(s.slaves[n].world.maps, users);
    ClusterWorlds.SlaveTilesOk(s, n);
    RunKeepsTiles(conf, promoted, ops);
    Conservation.TickExactly(WorldTheorems.WorldRun(conf, promoted, ops).0, conf.tickTime);
  }

  /** `users` locates the user in the tile where it is. */
  ghost predicate Located(w: WorldState, id: UserId)
    requires id in Flat(w.maps)
  {
    id in w.users && Pos2MapTag(w.users[id].position) == Pos2MapTag(Flat(w.maps)[id].position)
  }

  /** In any world with well-formed tiles a removal takes a user out of its tile exactly when `users` locates it
      there; it panics exactly when `users` has it at a place without a tile. */
  lemma RemovalWorksExactly(w: WorldState, id: UserId)
    requires TileInv(w.maps)
    ensures var (w', panicked) := RemoveUserFrom(w, id);
            && (panicked <==> Stuck(w, id)) && (panicked ==> w' == w)
            && (id !in Flat(w'.maps) <==> id !in Flat(w.maps) || Located(w, id))
  {
    var (w', panicked) := RemoveUserFrom(w, id);
    if id in Flat(w.maps) {
      var home := HomeOf(w.maps, id);
      FlatAt(w.maps, home, id);
      assert Pos2MapTag(Flat(w.maps)[id].position) == home;
      assert id in w'.maps[home] <==> !Located(w, id);
      if id in Flat(w'.maps) {
        assert id in w.maps[HomeOf(w'.maps, id)];
      }
    }
  }

  /** So whoever is removed before the tick is back after it, unless `users` located it, or the tick carries it off
      the tiles. */
  lemma RemovalBeforeTickExactly(w: WorldState, id: UserId, time: real)
    requires TileInv(w.maps) && id in Flat(w.maps)
    ensures id in TickOf(RemoveUserFrom(w, id).0, time).users <==>
            !Located(w, id) && Tiled(Shift(Flat(w.maps)[id], time).position)
  {
    var (w', _) := RemoveUserFrom(w, id);
    RemovalWorksExactly(w, id);
    if id in Flat(w'.maps) {
      RemovalKeepsUser(w, id);
    }
  }

  lemma RemovalKeepsUser(w: WorldState, id: UserId)
    requires TileInv(w.maps) && id in Flat(w.maps) && id in Flat(RemoveUserFrom(w, id).0.maps)
    ensures Flat(RemoveUserFrom(w, id).0.maps)[id] == Flat(w.maps)[id]
  {
    var w' := RemoveUserFrom(w, id).0;
    var t := HomeOf(w'.maps, id);
    FlatAt(w.maps, t, id);
  }

  /** A change of velocity reaches the moving copy of a user exactly when `users` locates it. */
  lemma SetVelocityWorksExactly(w: WorldState, id: UserId, velocity: Velocity)
    requires TileInv(w.maps) && id in Flat(w.maps)
    ensures var w' := SetVelocityIn(w, id, velocity);
            && id in Flat(w'.maps)
            && (Flat(w'.maps)[id].velocity == velocity <==> Located(w, id) || Flat(w.maps)[id].velocity == velocity)
  {
    var w' := SetVelocityIn(w, id, velocity);
    var home := HomeOf(w.maps, id);
    FlatAt(w.maps, home, id);
    SetVelocityKeepsTiles(w, id, velocity);
    assert id in w'.maps[home];
    FlatAt(w'.maps, home, id);
  }

  predicate Concerns(node: Node, msg: Message, id: UserId) {
    match msg.op
    case DelUser(i) => i == id
    case Logout => msg.clientId in node.clients && node.clients[msg.clientId] == id
    case SetVelocity(i, _) => i == id
    case Aoe(i, _, _) => i == id
    case _ => false
  }

  function Confirmation(msg: Message, peer: Peer): Reply {
    match msg.op
    case Logout => Reply(peer, None, LoggedOut)
    case DelUser(_) => Reply(peer, msg.clientPeer, Deleted)
    case SetVelocity(_, _) => Reply(peer, msg.clientPeer, VelocitySet)
    case _ => Reply(peer, msg.clientPeer, AoeDone)
  }

  /** What the code gets wrong in between: removals, changes of velocity and aoes of a user that is not in `users`
      are confirmed and have no effect on the world. */
  lemma RequestIsLostBeforeTick(conf: Config, node: Node, msg: Message, peer: Peer, id: UserId)
    requires !node.isSlave && id !in node.world.users && Concerns(node, msg, id)
    ensures var e := Handle(conf, node, msg, peer);
            !e.panicked && e.node.world == node.world && e.toClient == [Confirmation(msg, peer)]
  {
  }

  /** In every reachable state: right after the promotion of a slave, every such request is lost. */
  lemma PromotedSlaveLosesRequests(conf: Config, s: Cluster.State, steps: seq<Cluster.Step>, n: NodeKey,
                                   msg: Message, peer: Peer, id: UserId)
    requires Cluster.Initial(s) && n in ClusterTheorems.Run(conf, s, steps).slaves
    requires Concerns(ClusterTheorems.Run(conf, s, steps).slaves[n], msg, id)
    ensures var promoted := ClusterTheorems.Run(conf, s, steps).slaves[n].(isSlave := false);
            var e := Handle(conf, promoted, msg, peer);
            !e.panicked && e.node.world == promoted.world && e.toClient == [Confirmation(msg, peer)]
  {
    ClusterTheorems.ReachableInv(conf, s, steps);
    var promoted := ClusterTheorems.Run(conf, s, steps).slaves[n].(isSlave := false);
    RequestIsLostBeforeTick(conf, promoted, msg, peer, id);
  }

  /** A user logs in at a slave, is added on the master, published and synchronised. */
  lemma SlaveShowsNewUser(conf: Config, s: Cluster.State, n: NodeKey, t: Cluster.Ticket, peer: Peer, c: ClientId,
                          user: User)
    returns (data: Snapshot.Dto, steps: seq<Cluster.Step>)
    requires Cluster.Initial(s) && n in s.slaves
    requires user.velocity.direction.IsZero() && Tiled(user.position)
    ensures var tiles := TickOf(AddUserTo(EMPTY_WORLD, user), conf.tickTime).maps;
            var s4 := ClusterTheorems.Run(conf, s, steps);
            && steps == [Cluster.ClientMessage(n, t, peer, Message(c, None, Login(user))), Cluster.MasterHandles(t),
                         Cluster.TickAndPublish(data), Cluster.SlaveSyncs(n, data, tiles)]
            && n in s4.slaves && s4.slaves[n].world == WorldState(tiles, map[])
            && s4.slaves[n].clients.Keys == {c} && s4.slaves[n].clients[c] == user.id
  {
    var world := AddUserTo(EMPTY_WORLD, user);
    var tiles := TickOf(world, conf.tickTime).maps;
    StandingUserIsPublished(conf, user);
    data := Snapshot.SnapshotExists(tiles, EMPTY_TILES);
    var login := Cluster.ClientMessage(n, t, peer, Message(c, None, Login(user)));
    steps := [login, Cluster.MasterHandles(t), Cluster.TickAndPublish(data), Cluster.SlaveSyncs(n, data, tiles)];
    ClusterTheorems.RunFour(conf, s, login, Cluster.MasterHandles(t), Cluster.TickAndPublish(data),
                            Cluster.SlaveSyncs(n, data, tiles));
    LoginIsHandled(conf, s, n, t, peer, c, user);
    var s2 := Cluster.Apply(conf, Cluster.Apply(conf, s, login), Cluster.MasterHandles(t));
    TickIsPublished(conf, s2, data);
    TilesAreSynced(conf, Cluster.Apply(conf, s2, Cluster.TickAndPublish(data)), n, data, tiles);
  }

  /** It does happen: the slave is promoted and the user logs out. The logout is confirmed, and the next tick has the
      user back in `users`. */
  lemma LogoutAfterPromotionIsLost(conf: Config, s: Cluster.State, n: NodeKey, t: Cluster.Ticket, peer: Peer,
                                   c: ClientId, user: User)
    returns (data: Snapshot.Dto, steps: seq<Cluster.Step>)
    requires Cluster.Initial(s) && n in s.slaves
    requires user.velocity.direction.IsZero() && Tiled(user.position)
    ensures var tiles := TickOf(AddUserTo(EMPTY_WORLD, user), conf.tickTime).maps;
            steps == [Cluster.ClientMessage(n, t, peer, Message(c, None, Login(user))), Cluster.MasterHandles(t),
                      Cluster.TickAndPublish(data), Cluster.SlaveSyncs(n, data, tiles)]
    ensures var s4 := ClusterTheorems.Run(conf, s, steps);
            n in s4.slaves &&
            var e := Handle(conf, s4.slaves[n].(isSlave := false), Message(c, None, Logout), peer);
            && !e.panicked && e.toClient == [Reply(peer, None, LoggedOut)] && c !in e.node.clients
            && user.id in TickOf(e.node.world, conf.tickTime).users
  {
    data, steps := SlaveShowsNewUser(conf, s, n, t, peer, c, user);
    var promoted := ClusterTheorems.Run(conf, s, steps).slaves[n].(isSlave := false);
    StandingUserIsPublished(conf, user);
    RequestIsLostBeforeTick(conf, promoted, Message(c, None, Logout), peer, user.id);
    RemovalBeforeTickExactly(promoted.world, user.id, conf.tickTime);
  }

  lemma StandingUserIsPublished(conf: Config, user: User)
    requires user.velocity.direction.IsZero() && Tiled(user.position)
    ensures var tiles := TickOf(AddUserTo(EMPTY_WORLD, user), conf.tickTime).maps;
            TileInv(tiles) && TileInv(EMPTY_TILES) && user.id in Flat(tiles) && Flat(tiles)[user.id] == user
  {
    var world := AddUserTo(EMPTY_WORLD, user);
    ClusterTheorems.EmptyWorldOk();
    Conservation.AddedUserIsTiled(EMPTY_WORLD, user);
    Conservation.TickExactly(world, conf.tickTime);
    assert ShiftAll(Flat(world.maps), conf.tickTime)[user.id] == user;
  }

  lemma LoginIsHandled(conf: Config, s: Cluster.State, n: NodeKey, t: Cluster.Ticket, peer: Peer, c: ClientId,
                       user: User)
    requires Cluster.Initial(s) && n in s.slaves
    ensures var s1 := Cluster.Apply(conf, s, Cluster.ClientMessage(n, t, peer, Message(c, None, Login(user))));
            var s2 := Cluster.Apply(conf, s1, Cluster.MasterHandles(t));
            && s2.master.world == AddUserTo(EMPTY_WORLD, user)
            && n in s2.slaves && s2.slaves[n].world == EMPTY_WORLD
            && s2.slaves[n].clients.Keys == {c} && s2.slaves[n].clients[c] == user.id
  {
    var s1 := Cluster.Apply(conf, s, Cluster.ClientMessage(n, t, peer, Message(c, None, Login(user))));
    assert s1.slaves[n].clients.Keys == {c} && s1.slaves[n].clients[c] == user.id;
    assert s1.pending.Keys == {t} && s1.pending[t].msg.op == AddUser(user) && s1.master == s.master;
  }

  lemma TickIsPublished(conf: Config, s: Cluster.State, data: Snapshot.Dto)
    requires Cluster.Enabled(conf, s, Cluster.TickAndPublish(data))
    ensures var s' := Cluster.Apply(conf, s, Cluster.TickAndPublish(data));
            s'.slaves == s.slaves && data in s'.published
  {
  }

  lemma TilesAreSynced(conf: Config, s: Cluster.State, n: NodeKey, data: Snapshot.Dto, tiles: TileMap)
    requires n in s.slaves && data in s.published && Snapshot.Synced(s.slaves[n].world.maps, data, tiles)
    ensures var s' := Cluster.Apply(conf, s, Cluster.SlaveSyncs(n, data, tiles));
            n in s'.slaves && s'.slaves[n] == s.slaves[n].(world := s.slaves[n].world.(maps := tiles))
  {
  }
}
