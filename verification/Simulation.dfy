/** The tiled world is one flat table of users with naive full scans, over every sequence of operations. */
module Simulation {
  import opened Basic
  import opened MapTool
  import opened Tiles
  import opened WorldSpec

  predicate SameButMoney(a: User, b: User) {
    a == b.(money := a.money)
  }

  /** The invariant of a master world: well-formed tiles; every tiled user is in `users` with equal
      position and velocity; every entry of `users` whose tag has a tile is in that tile. */
  ghost predicate WorldInv(w: WorldState) {
    TileInv(w.maps) && Keyed(w.users) && Agrees(w)
  }

  /** The world stands for the flat table `a`: the tiles are its retiling, `users` is the table except
      that the money of users with a tile may be out of date. */
  ghost predicate Represents(w: WorldState, a: Table) {
    w.maps == Retile(a) && Matches(w.users, a)
  }

  ghost predicate Matches(users: Table, a: Table) {
    && Keyed(a) && users.Keys == a.Keys
    && (forall id | id in a :: SameButMoney(users[id], a[id]))
    && (forall id | id in a && !Tiled(a[id].position) :: users[id] == a[id])
  }

  /** The table a world stands for: what the tiles say, and `users` for whoever has no tile. */
  ghost function TableOf(w: WorldState): Table {
    w.users + Flat(w.maps)
  }

  /** The part of the invariant that ties `users` to the tiles. */
  ghost predicate Agrees(w: WorldState) {
    && (forall t, id | t in w.maps && id in w.maps[t] ::
          id in w.users && SameButMoney(w.users[id], w.maps[t][id]))
    && (forall id | id in w.users && Pos2MapTag(w.users[id].position) in w.maps ::
          id in w.maps[Pos2MapTag(w.users[id].position)])
  }

  lemma RetileAt(a: Table, id: UserId)
    requires id in a
    ensures var t := Pos2MapTag(a[id].position);
            && (t in Retile(a) <==> Tiled(a[id].position))
            && (t in Retile(a) ==> id in Retile(a)[t] && Retile(a)[t][id] == a[id])
  {
  }

  lemma RepresentsAgrees(w: WorldState, a: Table)
    requires Represents(w, a)
    ensures Agrees(w) && Keyed(w.users)
  {
    forall id | id in a && Pos2MapTag(w.users[id].position) in w.maps
      ensures id in w.maps[Pos2MapTag(w.users[id].position)]
    {
      RetileAt(a, id);
    }
  }

  lemma RepresentsTable(w: WorldState, a: Table)
    requires Represents(w, a)
    ensures TileInv(w.maps) && TableOf(w) == a
  {
    FlatRetile(a);
    OverridePlaced(w.users, a);
  }

  lemma OverridePlaced(users: Table, a: Table)
    requires users.Keys == a.Keys
    requires forall id | id in a && !Tiled(a[id].position) :: users[id] == a[id]
    ensures users + Placed(a) == a
  {
  }

  lemma RepresentsInv(w: WorldState, a: Table)
    requires Represents(w, a)
    ensures WorldInv(w) && TableOf(w) == a
  {
    RepresentsAgrees(w, a);
    RepresentsTable(w, a);
  }

  lemma FlatInUsers(w: WorldState, id: UserId)
    requires Agrees(w) && id in Flat(w.maps)
    ensures id in w.users && SameButMoney(w.users[id], Flat(w.maps)[id])
  {
    var t := HomeOf(w.maps, id);
    assert id in w.maps[t];
  }

  lemma UserInFlat(w: WorldState, id: UserId)
    requires TileInv(w.maps) && Agrees(w) && id in w.users && Tiled(w.users[id].position)
    ensures id in Flat(w.maps)
  {
    assert id in w.maps[Pos2MapTag(w.users[id].position)];
  }

  lemma InvRepresents(w: WorldState)
    requires WorldInv(w)
    ensures Represents(w, TableOf(w))
  {
    forall id | id in Flat(w.maps) ensures id in w.users && SameButMoney(w.users[id], Flat(w.maps)[id]) {
      FlatInUsers(w, id);
    }
    forall id | id in w.users && Tiled(w.users[id].position) ensures id in Flat(w.maps) {
      UserInFlat(w, id);
    }
    RetileFlat(w.maps);
    OverrideRepresents(w, Flat(w.maps));
  }

  lemma OverrideRepresents(w: WorldState, flat: Table)
    requires Keyed(w.users) && Keyed(flat) && w.maps == Retile(flat) && Placed(flat) == flat
    requires forall id | id in flat :: id in w.users && SameButMoney(w.users[id], flat[id])
    requires forall id | id in w.users && Tiled(w.users[id].position) :: id in flat
    ensures Represents(w, w.users + flat)
  {
    PlacedOverride(w.users, flat);
    RetilePlaced(w.users + flat);
    RetilePlaced(flat);
    forall id | id in w.users && id !in flat ensures !Tiled((w.users + flat)[id].position) {
    }
  }

  lemma PlacedOverride(users: Table, flat: Table)
    requires forall id | id in users && Tiled(users[id].position) :: id in flat
    ensures Placed(users + flat) == Placed(flat)
  {
  }

  /** The invariant says no more and no less than that the world stands for some table, and there is
      only one such table. */
  lemma InvariantIsRepresentation(w: WorldState)
    ensures WorldInv(w) <==> exists a :: Represents(w, a)
    ensures forall a, b | Represents(w, a) && Represents(w, b) :: a == b
  {
    if WorldInv(w) {
      InvRepresents(w);
    }
    forall a | Represents(w, a) ensures WorldInv(w) && TableOf(w) == a {
      RepresentsInv(w, a);
    }
  }

  // ----- one operation on the world is one operation on the table -----

  datatype Config = Config(tickTime: real, maxAoeRadius: real)

  datatype Op =
    | Add(user: User)
    | Remove(id: UserId)
    | SetVelocity(id: UserId, velocity: Velocity)
    | Aoe(id: UserId, radius: real, money: U64)
    | Tick
    | Query(scope: RectScope)

  /** A query answers with a list; up to its order that is the set of users in it, each once. */
  datatype Answer = Done | Panicked | Found(users: set<User>)

  /** The effect of an operation of the tiled world, as the methods of class `World.World` establish it. */
  ghost function WorldStep(conf: Config, w: WorldState, op: Op): (WorldState, Answer) {
    match op
    case Add(user) => (AddUserTo(w, user), Done)
    case Remove(id) => var (w', panicked) := RemoveUserFrom(w, id); (w', if panicked then Panicked else Done)
    case SetVelocity(id, velocity) => (SetVelocityIn(w, id, velocity), Done)
    case Aoe(id, radius, money) => (AoeIn(w, id, radius, money, conf.maxAoeRadius), Done)
    case Tick => (TickOf(w, conf.tickTime), Done)
    case Query(scope) => (w, Found(Scan(Flat(w.maps), scope)))
  }

  /** The same operations on one flat table. Users without a tile are kept, but are neither found nor paid,
      cannot be removed, and are gone after the next tick. */
  function TableStep(conf: Config, a: Table, op: Op): (Table, Answer) {
    match op
    case Add(user) => (a[user.id := user], Done)
    case Remove(id) =>
      if id !in a then (a, Done)
      else if Tiled(a[id].position) then (a - {id}, Done) else (a, Panicked)
    case SetVelocity(id, velocity) => (if id in a then a[id := a[id].(velocity := velocity)] else a, Done)
    case Aoe(id, radius, money) =>
      if radius > conf.maxAoeRadius || id !in a then (a, Done)
      else (Pay(a, Hits(Placed(a), id, a[id].position, radius), money), Done)
    case Tick => (Placed(ShiftAll(Placed(a), conf.tickTime)), Done)
    case Query(scope) => (a, Found(Scan(Placed(a), scope)))
  }

  /** Adding a user is harmless unless an older user of that id stays behind in another tile. */
  predicate AddIsClean(a: Table, user: User) {
    user.id in a && Tiled(a[user.id].position) ==> Pos2MapTag(a[user.id].position) == Pos2MapTag(user.position)
  }

  predicate OpIsClean(a: Table, op: Op) {
    op.Add? ==> AddIsClean(a, op.user)
  }

  lemma TagsUpdate(a: Table, user: User)
    ensures Tags(a[user.id := user]) == Tags(a)[user.id := Pos2MapTag(user.position)]
  {
  }

  lemma AddRetiles(a: Table, user: User)
    requires AddIsClean(a, user)
    ensures Retile(a[user.id := user]) == Put(Retile(a), Pos2MapTag(user.position), user)
  {
    TagsUpdate(a, user);
    PlacePut(a, Tags(a), user, Pos2MapTag(user.position));
  }

  lemma AddSimulates(w: WorldState, a: Table, user: User)
    requires Represents(w, a) && AddIsClean(a, user)
    ensures Represents(AddUserTo(w, user), a[user.id := user])
  {
    AddRetiles(a, user);
    AddMatches(w.users, a, user);
  }

  lemma AddMatches(users: Table, a: Table, user: User)
    requires Matches(users, a)
    ensures Matches(users[user.id := user], a[user.id := user])
  {
  }

  lemma RemoveSimulates(w: WorldState, a: Table, id: UserId)
    requires Represents(w, a)
    ensures var (w', panicked) := RemoveUserFrom(w, id);
            && panicked == (id in a && !Tiled(a[id].position))
            && Represents(w', if id in a && !panicked then a - {id} else a)
  {
    if id in a {
      RetileAt(a, id);
      if Tiled(a[id].position) {
        PlaceDrop(a, Tags(a), id);
        PlaceRestrict(a - {id}, Tags(a), Tags(a - {id}));
      }
    }
  }

  /** On a world that stands for a table, removing several users is removing them from the table. */
  lemma DropSimulates(w: WorldState, a: Table, ids: set<UserId>)
    requires Represents(w, a) && forall id | id in ids :: !Stuck(w, id)
    ensures Represents(DropUsers(w, ids), a - ids)
  {
    var dropped := DropUsers(w, ids);
    forall t | t in w.maps ensures dropped.maps[t] == Retile(a - ids)[t] {
      DropSlice(w, a, ids, t);
    }
    SameTiles(dropped.maps, Retile(a - ids));
  }

  lemma DropSlice(w: WorldState, a: Table, ids: set<UserId>, t: MapTag)
    requires Represents(w, a) && t in w.maps
    ensures w.maps[t] - LocatedAt(w.users, ids, t) == Retile(a - ids)[t]
  {
    assert LocatedAt(w.users, ids, t) == LocatedAt(a, ids, t) by {
      assert forall id | id in a :: w.users[id].position == a[id].position;
    }
    SliceWithout(a, ids, t);
  }

  lemma SliceWithout(a: Table, ids: set<UserId>, t: MapTag)
    requires t in WorldTags()
    ensures Retile(a)[t] - LocatedAt(a, ids, t) == Retile(a - ids)[t]
  {
  }

  lemma SetVelocityRetiles(a: Table, id: UserId, velocity: Velocity)
    requires Keyed(a) && id in a
    ensures var user := a[id].(velocity := velocity);
            var t := Pos2MapTag(user.position);
            Retile(a[id := user]) == if t in Retile(a) then Put(Retile(a), t, user) else Retile(a)
  {
    AddRetiles(a, a[id].(velocity := velocity));
  }

  lemma SetVelocitySimulates(w: WorldState, a: Table, id: UserId, velocity: Velocity)
    requires Represents(w, a)
    ensures Represents(SetVelocityIn(w, id, velocity), if id in a then a[id := a[id].(velocity := velocity)] else a)
  {
    if id in a {
      RetileAt(a, id);
      SetVelocityRetiles(a, id, velocity);
      SetVelocityMatches(w.users, a, id, velocity);
    }
  }

  lemma SetVelocityMatches(users: Table, a: Table, id: UserId, velocity: Velocity)
    requires Matches(users, a) && id in a
    ensures Matches(users[id := users[id].(velocity := velocity)], a[id := a[id].(velocity := velocity)])
  {
  }

  lemma PayMatches(users: Table, a: Table, hits: set<UserId>, money: U64)
    requires Matches(users, a) && hits <= Placed(a).Keys
    ensures Matches(users, Pay(a, hits, money))
  {
    var paid := Pay(a, hits, money);
    forall id | id in a ensures SameButMoney(users[id], paid[id]) && paid[id].position == a[id].position {
    }
  }

  lemma PayPlaced(a: Table, hits: set<UserId>, money: U64)
    ensures Placed(Pay(a, hits, money)) == Pay(Placed(a), hits, money)
  {
  }

  lemma AoeSimulates(conf: Config, w: WorldState, a: Table, id: UserId, radius: real, money: U64)
    requires Represents(w, a)
    ensures Represents(AoeIn(w, id, radius, money, conf.maxAoeRadius), TableStep(conf, a, Aoe(id, radius, money)).0)
  {
    if radius <= conf.maxAoeRadius && id in a {
      var center := w.users[id].position;
      assert center == a[id].position;
      var hits := Hits(Placed(a), id, center, radius);
      HitsInTable(Placed(a), id, center, radius);
      FlatOfRetile(a);
      PaySimulates(w, a, hits, money);
      AoePays(conf, w, a, id, radius, money, center);
    } else {
      AoeIsIdle(conf, w, a, id, radius, money);
    }
  }

  lemma AoeIsIdle(conf: Config, w: WorldState, a: Table, id: UserId, radius: real, money: U64)
    requires w.users.Keys == a.Keys && (radius > conf.maxAoeRadius || id !in a)
    ensures AoeIn(w, id, radius, money, conf.maxAoeRadius) == w
    ensures TableStep(conf, a, Aoe(id, radius, money)).0 == a
  {
  }

  lemma AoePays(conf: Config, w: WorldState, a: Table, id: UserId, radius: real, money: U64, center: Vector2)
    requires Flat(w.maps) == Placed(a) && radius <= conf.maxAoeRadius
    requires id in w.users && id in a && w.users[id].position == a[id].position == center
    ensures var hits := Hits(Placed(a), id, center, radius);
            && AoeIn(w, id, radius, money, conf.maxAoeRadius)
               == WorldState(Retile(Pay(Placed(a), hits, money)), w.users)
            && TableStep(conf, a, Aoe(id, radius, money)).0 == Pay(a, hits, money)
  {
  }

  lemma PaySimulates(w: WorldState, a: Table, hits: set<UserId>, money: U64)
    requires Represents(w, a) && hits <= Placed(a).Keys
    ensures Represents(WorldState(Retile(Pay(Placed(a), hits, money)), w.users), Pay(a, hits, money))
  {
    PayRetiles(a, hits, money);
    PayMatches(w.users, a, hits, money);
  }

  lemma HitsInTable(a: Table, caster: UserId, center: Vector2, radius: real)
    ensures Hits(a, caster, center, radius) <= a.Keys
  {
  }

  lemma FlatOfRetile(a: Table)
    requires Keyed(a)
    ensures Flat(Retile(a)) == Placed(a)
  {
    FlatRetile(a);
  }

  lemma PayRetiles(a: Table, hits: set<UserId>, money: U64)
    ensures Retile(Pay(Placed(a), hits, money)) == Retile(Pay(a, hits, money))
  {
    PayPlaced(a, hits, money);
    RetilePlaced(Pay(a, hits, money));
  }

  lemma TickSimulates(w: WorldState, a: Table, time: real)
    requires Represents(w, a)
    ensures var a' := Placed(ShiftAll(Placed(a), time));
            Represents(TickOf(w, time), a') && TickOf(w, time).users == a'
  {
    FlatRetile(a);
    RetilePlaced(ShiftAll(Placed(a), time));
  }

  lemma AoeStepSimulates(conf: Config, w: WorldState, a: Table, op: Op)
    requires Represents(w, a) && op.Aoe?
    ensures Represents(WorldStep(conf, w, op).0, TableStep(conf, a, op).0)
    ensures WorldStep(conf, w, op).1 == TableStep(conf, a, op).1
  {
    AoeSimulates(conf, w, a, op.id, op.radius, op.money);
  }

  lemma TickStepSimulates(conf: Config, w: WorldState, a: Table, op: Op)
    requires Represents(w, a) && op.Tick?
    ensures Represents(WorldStep(conf, w, op).0, TableStep(conf, a, op).0)
    ensures WorldStep(conf, w, op).1 == TableStep(conf, a, op).1
  {
    TickSimulates(w, a, conf.tickTime);
  }

  lemma QuerySimulates(w: WorldState, a: Table, scope: RectScope)
    requires Represents(w, a)
    ensures Scan(Flat(w.maps), scope) == Scan(Placed(a), scope)
  {
    FlatRetile(a);
  }

  /** Every operation keeps the correspondence and gives the same answer. */
  lemma StepSimulates(conf: Config, w: WorldState, a: Table, op: Op)
    requires Represents(w, a) && OpIsClean(a, op)
    ensures Represents(WorldStep(conf, w, op).0, TableStep(conf, a, op).0)
    ensures WorldStep(conf, w, op).1 == TableStep(conf, a, op).1
  {
    match op
    case Add(user) => AddSimulates(w, a, user);
    case Remove(id) => RemoveSimulates(w, a, id);
    case SetVelocity(id, velocity) => SetVelocitySimulates(w, a, id, velocity);
    case Aoe(_, _, _) => AoeStepSimulates(conf, w, a, op);
    case Tick => TickStepSimulates(conf, w, a, op);
    case Query(scope) => QuerySimulates(w, a, scope);
  }
}
