/** The operations of the world on one flat table of users, and the exact state changes of the grid. */
module WorldSpec {
  import opened Basic
  import opened MapTool
  import opened Tiles

  datatype WorldState = WorldState(maps: TileMap, users: Table)

  const EMPTY_TILES: TileMap := map t | t in WorldTags() :: map[]

  const EMPTY_WORLD: WorldState := WorldState(EMPTY_TILES, map[])

  /** The users inside a rectangle, by a full scan. */
  function Scan(table: Table, scope: RectScope): set<User> {
    set id | id in table && scope.Contains(table[id].position) :: table[id]
  }

  function ShiftAll(table: Table, time: real): (r: Table)
    ensures r.Keys == table.Keys
  {
    map id | id in table :: Shift(table[id], time)
  }

  /** Distance test of an aoe, squared: see `DistanceTest`. */
  predicate WithinRadius(p: Vector2, center: Vector2, radius: real) {
    radius >= 0.0 &&
    (p.x - center.x) * (p.x - center.x) + (p.y - center.y) * (p.y - center.y) <= radius * radius
  }

  /** The users that an aoe pays: those in the circle except the caster. */
  function Hits(table: Table, caster: UserId, center: Vector2, radius: real): set<UserId> {
    set id | id in table && id != caster && WithinRadius(table[id].position, center, radius)
  }

  function Pay(table: Table, hits: set<UserId>, money: U64): (r: Table)
    ensures r.Keys == table.Keys
  {
    map id | id in table :: if id in hits then Credit(table[id], money) else table[id]
  }

  function CircleBox(center: Vector2, radius: real): RectScope {
    RectScope(Vector2(center.x - radius, center.y + radius), Vector2(center.x + radius, center.y - radius))
  }

  /** `add_user`: into the tile of the position, if there is one, and into `users` in any case. */
  function AddUserTo(w: WorldState, user: User): WorldState {
    WorldState(Put(w.maps, Pos2MapTag(user.position), user), w.users[user.id := user])
  }

  /** `remove_user`: the flag tells that the lookup of the tile panicked, which leaves the world as it was. */
  function RemoveUserFrom(w: WorldState, id: UserId): (WorldState, bool) {
    if id !in w.users then
      (w, false)
    else
      var t := Pos2MapTag(w.users[id].position);
      if t !in w.maps then (w, true) else (WorldState(Drop(w.maps, t, id), w.users - {id}), false)
  }

  /** The removal of this user panics: it is in `users`, but not at a place that has a tile. */
  predicate Stuck(w: WorldState, id: UserId) {
    id in w.users && Pos2MapTag(w.users[id].position) !in w.maps
  }

  function LocatedAt(users: Table, ids: set<UserId>, t: MapTag): set<UserId> {
    set id | id in ids && id in users && Pos2MapTag(users[id].position) == t
  }

  /** The removal of several users: each leaves `users` and the tile where `users` locates it. */
  function DropUsers(w: WorldState, ids: set<UserId>): WorldState {
    WorldState(map t | t in w.maps :: w.maps[t] - LocatedAt(w.users, ids, t), w.users - ids)
  }

  function SetVelocityIn(w: WorldState, id: UserId, velocity: Velocity): WorldState {
    if id !in w.users then
      w
    else
      var t := Pos2MapTag(w.users[id].position);
      WorldState(
        if t in w.maps && id in w.maps[t]
        then w.maps[t := w.maps[t][id := w.maps[t][id].(velocity := velocity)]]
        else w.maps,
        w.users[id := w.users[id].(velocity := velocity)])
  }

  /** `aoe`, for well-formed tiles: a full scan pays the users in the circle around the caster. */
  ghost function AoeIn(w: WorldState, id: UserId, radius: real, money: U64, maxRadius: real): WorldState {
    if radius > maxRadius || id !in w.users then
      w
    else
      var table := Flat(w.maps);
      w.(maps := Retile(Pay(table, Hits(table, id, w.users[id].position, radius), money)))
  }

  /** `update`, for well-formed tiles: everyone moves once, and whoever has a tile afterwards is in it
      and in `users`. */
  ghost function TickOf(w: WorldState, time: real): WorldState {
    var table := ShiftAll(Flat(w.maps), time);
    WorldState(Retile(table), Placed(table))
  }

  lemma DropNobody(w: WorldState)
    ensures DropUsers(w, {}) == w
  {
    forall t | t in w.maps ensures DropUsers(w, {}).maps[t] == w.maps[t] {
      assert LocatedAt(w.users, {}, t) == {};
    }
    SameTiles(DropUsers(w, {}).maps, w.maps);
  }

  /** Removing users one after the other, in any order, is removing them at once, as long as none is stuck; the
      first one that is stuck makes the removal panic and changes nothing. */
  lemma DropOneMore(w: WorldState, ids: set<UserId>, id: UserId)
    requires forall i | i in ids :: !Stuck(w, i)
    ensures RemoveUserFrom(DropUsers(w, ids), id) ==
            if Stuck(w, id) then (DropUsers(w, ids), true) else (DropUsers(w, ids + {id}), false)
  {
    if id in ids {
      assert ids + {id} == ids;
    } else if !Stuck(w, id) {
      var some, more := DropUsers(w, ids), DropUsers(w, ids + {id});
      assert more.users == some.users - {id};
      forall t | t in w.maps
        ensures more.maps[t] == if id in w.users && Pos2MapTag(w.users[id].position) == t then some.maps[t] - {id}
                                else some.maps[t]
      {
        DropOneMoreAt(w, ids, id, t);
      }
      SameTiles(more.maps, RemoveUserFrom(some, id).0.maps);
      assert id !in w.users ==> some.users - {id} == some.users;
    }
  }

  lemma DropOneMoreAt(w: WorldState, ids: set<UserId>, id: UserId, t: MapTag)
    requires t in w.maps
    ensures var here := id in w.users && Pos2MapTag(w.users[id].position) == t;
            DropUsers(w, ids + {id}).maps[t] ==
            if here then DropUsers(w, ids).maps[t] - {id} else DropUsers(w, ids).maps[t]
  {
    var here := id in w.users && Pos2MapTag(w.users[id].position) == t;
    assert LocatedAt(w.users, ids + {id}, t) == LocatedAt(w.users, ids, t) + (if here then {id} else {});
  }

  /** Comparing the distance with the radius is the squared comparison: `distance` is the square root. */
  lemma DistanceTest(p: Vector2, center: Vector2, radius: real, distance: real)
    requires distance >= 0.0
    requires distance * distance == (p.x - center.x) * (p.x - center.x) + (p.y - center.y) * (p.y - center.y)
    ensures distance <= radius <==> WithinRadius(p, center, radius)
  {
    if radius >= 0.0 {
      if distance <= radius {
        SquareMonotone(distance, radius);
      } else if distance * distance <= radius * radius {
        SquareStrict(radius, distance);
      }
    }
  }

  lemma SquareMonotone(a: real, b: real)
    requires 0.0 <= a <= b
    ensures a * a <= b * b
  {
    assert b * b - a * a == (b - a) * (b + a);
  }

  lemma SquareStrict(a: real, b: real)
    requires 0.0 <= a < b
    ensures a * a < b * b && a * a < (-b) * (-b)
  {
    var x, y := b - a, b + a;
    assert x * y > 0.0;
    assert b * b - a * a == x * y;
  }

  /** The bounding square of a circle loses nobody. */
  lemma CircleInBox(p: Vector2, center: Vector2, radius: real)
    requires WithinRadius(p, center, radius)
    ensures CircleBox(center, radius).Contains(p)
  {
    LegIsShort(p.x - center.x, p.y - center.y, radius);
    LegIsShort(p.y - center.y, p.x - center.x, radius);
  }

  lemma LegIsShort(a: real, b: real, r: real)
    requires r >= 0.0 && a * a + b * b <= r * r
    ensures -r <= a <= r
  {
    assert b * b >= 0.0;
    if a > r {
      SquareStrict(r, a);
    } else if a < -r {
      SquareStrict(r, -a);
    }
  }
}
