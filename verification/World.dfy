/** The tiled world (`World` in crates/server/src/world.rs). HashMap iteration is modelled by picking the
    next key arbitrarily, so every contract holds for every iteration order. */
module World {
  import opened Basic
  import opened MapTool
  import opened Tiles
  import Cover
  import opened WorldSpec
  import TagText
  import opened Snapshot

  datatype StateInfo = StateInfo(currentConnection: nat, userCount: nat)

  datatype ChangeMap = ChangeMap(oldTag: MapTag, newTag: MapTag, user: User)

  const U32_SIZE: nat := 0x1_0000_0000

  /** The part of a table whose users are located in the given tiles. */
  function Among(table: Table, loc: map<UserId, MapTag>, tags: set<MapTag>): Table
    requires table.Keys <= loc.Keys
  {
    map id | id in table && loc[id] in tags :: table[id]
  }

  /** The table after the users `done` have moved. */
  function ShiftSome(table: Table, done: set<UserId>, time: real): (r: Table)
    ensures r.Keys == table.Keys
  {
    map id | id in table :: if id in done then Shift(table[id], time) else table[id]
  }

  /** `changes` lists exactly those of the users `done` that leave their tile, each once. */
  ghost predicate ListsMovers(changes: seq<ChangeMap>, table: Table, done: set<UserId>, time: real) {
    && (forall i, j | 0 <= i < j < |changes| :: changes[i].user.id != changes[j].user.id)
    && (forall c | c in changes :: IsMover(c, table, time) && c.user.id in done)
    && (forall id | id in table && id in done && Moves(table[id], time) ::
          exists c :: c in changes && c.user.id == id)
  }

  predicate Moves(user: User, time: real) {
    Pos2MapTag(Shift(user, time).position) != Pos2MapTag(user.position)
  }

  ghost predicate IsMover(c: ChangeMap, table: Table, time: real) {
    && c.user.id in table && Moves(table[c.user.id], time)
    && c.user == Shift(table[c.user.id], time)
    && c.oldTag == Pos2MapTag(table[c.user.id].position)
    && c.newTag == Pos2MapTag(c.user.position)
  }

  /** `changes` lists exactly the users whose two locations differ, each once. */
  ghost predicate ListsChanges(changes: seq<ChangeMap>, after: Table,
                               from: map<UserId, MapTag>, to: map<UserId, MapTag>)
    requires from.Keys == to.Keys == after.Keys
  {
    && (forall i, j | 0 <= i < j < |changes| :: changes[i].user.id != changes[j].user.id)
    && (forall i | 0 <= i < |changes| ::
          var c := changes[i];
          && c.user.id in after && c.user == after[c.user.id]
          && c.oldTag == from[c.user.id] && c.newTag == to[c.user.id] && c.oldTag != c.newTag)
    && (forall id | id in after && from[id] != to[id] ::
          exists i :: 0 <= i < |changes| && changes[i].user.id == id)
  }

  ghost function ChangedIds(changes: seq<ChangeMap>, n: nat): set<UserId>
    requires n <= |changes|
  {
    set j | 0 <= j < n :: changes[j].user.id
  }

  /** Where the users are when those in `done` have changed tiles. */
  ghost function Mix(from: map<UserId, MapTag>, to: map<UserId, MapTag>, done: set<UserId>): (loc: map<UserId, MapTag>)
    requires from.Keys == to.Keys
    ensures loc.Keys == from.Keys
  {
    map id | id in from :: if id in done then to[id] else from[id]
  }

  lemma MixOneMore(changes: seq<ChangeMap>, i: nat, after: Table,
                   from: map<UserId, MapTag>, to: map<UserId, MapTag>)
    requires from.Keys == to.Keys == after.Keys && ListsChanges(changes, after, from, to) && i < |changes|
    ensures var loc := Mix(from, to, ChangedIds(changes, i));
            var c := changes[i];
            && c.user.id in after && c.user == after[c.user.id] && c.newTag != c.oldTag
            && c.oldTag == from[c.user.id] == loc[c.user.id]
            && Mix(from, to, ChangedIds(changes, i + 1)) == loc[c.user.id := c.newTag]
  {
    assert ChangedIds(changes, i + 1) == ChangedIds(changes, i) + {changes[i].user.id};
  }

  lemma MixNone(changes: seq<ChangeMap>, from: map<UserId, MapTag>, to: map<UserId, MapTag>)
    requires from.Keys == to.Keys
    ensures Mix(from, to, ChangedIds(changes, 0)) == from
  {
  }

  lemma MixAll(changes: seq<ChangeMap>, after: Table, from: map<UserId, MapTag>, to: map<UserId, MapTag>)
    requires from.Keys == to.Keys == after.Keys && ListsChanges(changes, after, from, to)
    ensures Mix(from, to, ChangedIds(changes, |changes|)) == to
  {
  }

  lemma MoversAreChanges(changes: seq<ChangeMap>, table: Table, time: real)
    requires ListsMovers(changes, table, table.Keys, time)
    ensures var after := ShiftAll(table, time);
            ListsChanges(changes, after, Tags(table), Tags(after))
  {
    forall i | 0 <= i < |changes| ensures IsMover(changes[i], table, time) {
      assert changes[i] in changes;
    }
    var after := ShiftAll(table, time);
    forall id | id in after && Tags(table)[id] != Tags(after)[id]
      ensures exists i :: 0 <= i < |changes| && changes[i].user.id == id
    {
      assert Moves(table[id], time);
    }
  }

  lemma OneMoreMover(changes: seq<ChangeMap>, table: Table, done: set<UserId>, time: real, id: UserId)
    requires ListsMovers(changes, table, done, time) && id in table && id !in done && table[id].id == id
    ensures var moved := Shift(table[id], time);
            var c := ChangeMap(Pos2MapTag(table[id].position), Pos2MapTag(moved.position), moved);
            ListsMovers(if Moves(table[id], time) then changes + [c] else changes, table, done + {id}, time)
  {
    var moved := Shift(table[id], time);
    var c := ChangeMap(Pos2MapTag(table[id].position), Pos2MapTag(moved.position), moved);
    if Moves(table[id], time) {
      var more := changes + [c];
      assert c in more && IsMover(c, table, time);
      forall c' | c' in changes ensures c' in more {
      }
    }
  }

  /** The tile sizes add up to the number of users located in the tiles. */
  lemma {:induction false} CountPlaced(table: Table, loc: map<UserId, MapTag>, tags: set<MapTag>)
    requires table.Keys <= loc.Keys && tags <= WorldTags()
    ensures CountUsers(Place(table, loc), tags) == |Among(table, loc, tags)|
    decreases tags
  {
    if tags == {} {
      assert Among(table, loc, tags) == map[];
    } else {
      var t := Pick(tags);
      CountPlaced(table, loc, tags - {t});
      CountWithout(Place(table, loc), tags, t);
      AmongSlice(table, loc, tags - {t}, t);
      UnionSize(Among(table, loc, tags - {t}), Place(table, loc)[t]);
      assert tags - {t} + {t} == tags;
    }
  }

  lemma UnionSize(a: Table, b: Table)
    requires a.Keys !! b.Keys
    ensures |a + b| == |a| + |b|
  {
    assert (a + b).Keys == a.Keys + b.Keys;
    assert |(a + b).Keys| == |a + b|;
    assert |a.Keys| == |a| && |b.Keys| == |b|;
  }

  ghost function IdsAt(table: Table, loc: map<UserId, MapTag>, t: MapTag): set<UserId>
    requires table.Keys <= loc.Keys
  {
    set id | id in table && loc[id] == t
  }

  ghost function IdsOutside(table: Table, loc: map<UserId, MapTag>, tags: set<MapTag>): set<UserId>
    requires table.Keys <= loc.Keys
  {
    set id | id in table && loc[id] !in tags
  }

  lemma NobodyOutside(table: Table, loc: map<UserId, MapTag>, time: real)
    requires table.Keys <= loc.Keys && forall id | id in table :: loc[id] in WorldTags()
    ensures forall id | id in table :: id !in IdsOutside(table, loc, WorldTags())
    ensures ShiftSome(table, IdsOutside(table, loc, WorldTags()), time) == table
  {
  }

  lemma EveryoneOutside(table: Table, loc: map<UserId, MapTag>, time: real)
    requires table.Keys <= loc.Keys
    ensures IdsOutside(table, loc, {}) == table.Keys
    ensures ShiftSome(table, table.Keys, time) == ShiftAll(table, time)
  {
  }

  lemma ShiftOneMore(table: Table, done: set<UserId>, id: UserId, time: real)
    requires id in table && id !in done
    ensures ShiftSome(table, done + {id}, time) == ShiftSome(table, done, time)[id := Shift(table[id], time)]
  {
  }

  lemma OneTileFewer(table: Table, loc: map<UserId, MapTag>, tags: set<MapTag>, t: MapTag)
    requires table.Keys <= loc.Keys && t !in tags
    ensures IdsOutside(table, loc, tags) == IdsOutside(table, loc, tags + {t}) + IdsAt(table, loc, t)
  {
  }

  class World {
    var maps: TileMap
    var users: Table
    var clientMap: map<string, UserId>
    var connectionCount: nat
    var stateInfo: StateInfo
    const tickTime: real
    const maxAoeRadius: real

    ghost function State(): WorldState
      reads this
    {
      WorldState(maps, users)
    }

    constructor Init(tickTime: real, maxAoeRadius: real)
      ensures State() == EMPTY_WORLD
      ensures clientMap == map[] && connectionCount == 0 && stateInfo == StateInfo(0, 0)
      ensures this.tickTime == tickTime && this.maxAoeRadius == maxAoeRadius
    {
      var built: TileMap := map[];
      for xLen := -5 to 6
        invariant forall t :: t in built <==> IsWorldTag(t) && t.xLen < xLen
        invariant forall t | t in built :: built[t] == map[]
      {
        if xLen == 0 {
          continue;
        }
        for yLen := -5 to 6
          invariant forall t :: t in built <==> IsWorldTag(t) && (t.xLen < xLen || (t.xLen == xLen && t.yLen < yLen))
          invariant forall t | t in built :: built[t] == map[]
        {
          if yLen == 0 {
            continue;
          }
          built := built[GridTag(xLen, yLen) := map[]];
        }
      }
      assert built == EMPTY_TILES;
      this.maps := built;
      this.users := map[];
      this.clientMap := map[];
      this.connectionCount := 0;
      this.stateInfo := StateInfo(0, 0);
      this.tickTime := tickTime;
      this.maxAoeRadius := maxAoeRadius;
    }

    /** One tick: everybody moves, those who left their tile are moved over, `users` is rebuilt.
        The `unwrap` of the old tile cannot fail: `ChangeMaps` proves the lookup. */
    method Update()
      requires TileInv(maps)
      modifies `maps, `users, `stateInfo
      ensures State() == TickOf(old(State()), tickTime)
      ensures stateInfo == StateInfo(connectionCount, |users| % U32_SIZE)
    {
      RetileFlat(maps);
      UpdateTable(Flat(maps));
    }

    method UpdateTable(ghost table: Table)
      requires Keyed(table) && Placed(table) == table && maps == Retile(table)
      modifies `maps, `users, `stateInfo
      ensures var after := ShiftAll(table, tickTime);
              maps == Retile(after) && users == Placed(after)
      ensures stateInfo == StateInfo(connectionCount, |users| % U32_SIZE)
    {
      ghost var after := ShiftAll(table, tickTime);
      EveryoneLocated(table);
      var changes := ShiftUsers(table, Tags(table));
      MoversAreChanges(changes, table, tickTime);
      ChangeMaps(changes, after, Tags(table), Tags(after));
      PlacedIsAmong(after);
      CollectUsers(after, Tags(after));
      UpdateStateInfo();
      CountPlaced(after, Tags(after), WorldTags());
    }

    /** First loop of the tick: moves every user within its tile and lists those who must change tiles. */
    method ShiftUsers(ghost table: Table, ghost loc: map<UserId, MapTag>) returns (changes: seq<ChangeMap>)
      requires Keyed(table) && loc == Tags(table) && maps == Place(table, loc)
      requires forall id | id in table :: loc[id] in WorldTags()
      modifies `maps
      ensures maps == Place(ShiftAll(table, tickTime), loc)
      ensures ListsMovers(changes, table, table.Keys, tickTime)
    {
      changes := [];
      var tagsLeft := maps.Keys;
      ghost var done := IdsOutside(table, loc, WorldTags());
      NobodyOutside(table, loc, tickTime);
      while tagsLeft != {}
        invariant tagsLeft <= maps.Keys == WorldTags()
        invariant done == IdsOutside(table, loc, tagsLeft)
        invariant maps == Place(ShiftSome(table, done, tickTime), loc)
        invariant ListsMovers(changes, table, done, tickTime)
      {
        var t := NextKey(tagsLeft);
        assert tagsLeft == tagsLeft - {t} + {t};
        tagsLeft := tagsLeft - {t};
        changes := ShiftTile(t, changes, table, loc, done);
        OneTileFewer(table, loc, tagsLeft, t);
        done := done + IdsAt(table, loc, t);
      }
      EveryoneOutside(table, loc, tickTime);
    }

    method ShiftTile(t: MapTag, changes: seq<ChangeMap>,
                     ghost table: Table, ghost loc: map<UserId, MapTag>, ghost done: set<UserId>)
      returns (changes': seq<ChangeMap>)
      requires Keyed(table) && loc == Tags(table) && t in WorldTags()
      requires forall id | id in table && loc[id] == t :: id !in done
      requires maps == Place(ShiftSome(table, done, tickTime), loc)
      requires ListsMovers(changes, table, done, tickTime)
      modifies `maps
      ensures var done' := done + IdsAt(table, loc, t);
              && maps == Place(ShiftSome(table, done', tickTime), loc)
              && ListsMovers(changes', table, done', tickTime)
    {
      changes' := changes;
      var idsLeft := maps[t].Keys;
      ghost var ids := IdsAt(table, loc, t);
      assert idsLeft == ids;
      assert done + (ids - ids) == done;
      while idsLeft != {}
        invariant idsLeft <= ids
        invariant maps == Place(ShiftSome(table, done + (ids - idsLeft), tickTime), loc)
        invariant ListsMovers(changes', table, done + (ids - idsLeft), tickTime)
      {
        var id := NextKey(idsLeft);
        Visited(ids, idsLeft, id, done);
        changes' := ShiftUser(t, id, changes', table, loc, done + (ids - idsLeft));
        idsLeft := idsLeft - {id};
      }
      assert done + (ids - {}) == done + ids;
    }

    method ShiftUser(t: MapTag, id: UserId, changes: seq<ChangeMap>,
                     ghost table: Table, ghost loc: map<UserId, MapTag>, ghost done: set<UserId>)
      returns (changes': seq<ChangeMap>)
      requires Keyed(table) && loc == Tags(table)
      requires t in WorldTags() && id in table && loc[id] == t && id !in done
      requires maps == Place(ShiftSome(table, done, tickTime), loc)
      requires ListsMovers(changes, table, done, tickTime)
      modifies `maps
      ensures maps == Place(ShiftSome(table, done + {id}, tickTime), loc)
      ensures ListsMovers(changes', table, done + {id}, tickTime)
    {
      var user := maps[t][id];
      assert user == table[id];
      var oldTag := Pos2MapTag(user.position);
      var moved := Shift(user, tickTime);
      maps := maps[t := maps[t][id := moved]];
      PlaceUpdate(ShiftSome(table, done, tickTime), loc, id, moved);
      ShiftOneMore(table, done, id, tickTime);
      var newTag := Pos2MapTag(moved.position);
      changes' := changes;
      if newTag != oldTag {
        changes' := changes + [ChangeMap(oldTag, newTag, moved)];
      }
      OneMoreMover(changes, table, done, tickTime, id);
    }

    /** Second loop of the tick: takes each listed user out of its old tile and puts it into the new one,
        if there is one. */
    method ChangeMaps(changes: seq<ChangeMap>, ghost after: Table,
                      ghost from: map<UserId, MapTag>, ghost to: map<UserId, MapTag>)
      requires Keyed(after) && from.Keys == to.Keys == after.Keys
      requires forall id | id in after :: from[id] in WorldTags()
      requires ListsChanges(changes, after, from, to)
      requires maps == Place(after, from)
      modifies `maps
      ensures maps == Place(after, to)
    {
      ghost var loc := from;
      MixNone(changes, from, to);
      for i := 0 to |changes|
        invariant loc.Keys == after.Keys && loc == Mix(from, to, ChangedIds(changes, i))
        invariant maps == Place(after, loc)
      {
        MixOneMore(changes, i, after, from, to);
        ChangeMapOf(changes[i], after, loc);
        loc := loc[changes[i].user.id := changes[i].newTag];
      }
      MixAll(changes, after, from, to);
    }

    method ChangeMapOf(c: ChangeMap, ghost after: Table, ghost loc: map<UserId, MapTag>)
      requires after.Keys <= loc.Keys && maps == Place(after, loc)
      requires c.user.id in after && c.user == after[c.user.id]
      requires c.oldTag == loc[c.user.id] && c.oldTag in WorldTags() && c.newTag != c.oldTag
      modifies `maps
      ensures maps == Place(after, loc[c.user.id := c.newTag])
    {
      assert c.oldTag in maps;
      PlaceMove(after, loc, c.user.id, c.newTag);
      maps := maps[c.oldTag := maps[c.oldTag] - {c.user.id}];
      if c.newTag in maps {
        maps := maps[c.newTag := maps[c.newTag][c.user.id := c.user]];
      }
    }

    /** Last step of the tick: `users` becomes the union of the tiles. */
    method CollectUsers(ghost table: Table, ghost loc: map<UserId, MapTag>)
      requires table.Keys <= loc.Keys && maps == Place(table, loc)
      modifies `users
      ensures users == Among(table, loc, WorldTags())
    {
      var tagsLeft := maps.Keys;
      var all: Table := map[];
      ghost var done: set<MapTag> := {};
      while tagsLeft != {}
        invariant tagsLeft <= maps.Keys && done == maps.Keys - tagsLeft
        invariant all == Among(table, loc, done)
      {
        var t := NextKey(tagsLeft);
        tagsLeft := tagsLeft - {t};
        AmongSlice(table, loc, done, t);
        all := all + maps[t];
        done := done + {t};
      }
      assert done == WorldTags();
      users := all;
    }

    method UpdateStateInfo()
      modifies `stateInfo
      ensures stateInfo == StateInfo(connectionCount, CountUsers(maps, maps.Keys) % U32_SIZE)
    {
      var count := UserCount();
      stateInfo := StateInfo(connectionCount, count);
    }

    /** The sum of the tile sizes, cut down to u32. */
    method UserCount() returns (count: nat)
      ensures count == CountUsers(maps, maps.Keys) % U32_SIZE
    {
      count := 0;
      var left := maps.Keys;
      assert CountUsers(maps, maps.Keys - left) == 0;
      while left != {}
        invariant left <= maps.Keys
        invariant count == CountUsers(maps, maps.Keys - left)
      {
        var t := NextKey(left);
        Visited(maps.Keys, left, t, {});
        CountWithout(maps, maps.Keys - left + {t}, t);
        assert maps.Keys - left + {t} - {t} == maps.Keys - left;
        count := count + |maps[t]|;
        left := left - {t};
      }
      assert maps.Keys - {} == maps.Keys;
      count := count % U32_SIZE;
    }

    method AddUser(user: User)
      modifies `maps, `users
      ensures State() == AddUserTo(old(State()), user)
    {
      var t := Pos2MapTag(user.position);
      if t in maps {
        maps := maps[t := maps[t][user.id := user]];
      }
      users := users[user.id := user];
    }

    method RemoveUser(id: UserId) returns (panicked: bool)
      modifies `maps, `users
      ensures (State(), panicked) == RemoveUserFrom(old(State()), id)
    {
      if id in users {
        var t := Pos2MapTag(users[id].position);
        if t !in maps {
          return true;
        }
        maps := maps[t := maps[t] - {id}];
        users := users - {id};
      }
      return false;
    }

    /** The session goes first, so a panic of the removal still ends it. */
    method RemoveUserByClientId(clientId: string) returns (panicked: bool)
      modifies `maps, `users, `clientMap
      ensures clientMap == old(clientMap) - {clientId}
      ensures (State(), panicked) ==
              if clientId in old(clientMap) then RemoveUserFrom(old(State()), old(clientMap)[clientId])
              else (old(State()), false)
    {
      var known := clientId in clientMap;
      var before := clientMap;
      clientMap := clientMap - {clientId};
      if known {
        panicked := RemoveUser(before[clientId]);
      } else {
        panicked := false;
      }
    }

    method SetVelocity(id: UserId, velocity: Velocity)
      modifies `maps, `users
      ensures State() == SetVelocityIn(old(State()), id, velocity)
    {
      if id in users {
        var user := users[id].(velocity := velocity);
        users := users[id := user];
        var t := Pos2MapTag(user.position);
        if t in maps && id in maps[t] {
          maps := maps[t := maps[t][id := maps[t][id].(velocity := velocity)]];
        }
      }
    }

    /** Takes over a snapshot of the master; a key that does not parse panics half way. On a slave `users`
        is left alone. */
    method SyncFromMaster(data: Dto) returns (panicked: bool)
      modifies `maps, `stateInfo
      ensures panicked == !Parsable(data)
      ensures !panicked ==> Synced(old(maps), data, maps)
      ensures !panicked ==> stateInfo == StateInfo(connectionCount, CountUsers(maps, maps.Keys) % U32_SIZE)
      ensures panicked ==> stateInfo == old(stateInfo) && PartlySynced(old(maps), data, maps)
    {
      var left := data.Keys;
      ghost var part: Dto := map[];
      while left != {}
        invariant left <= data.Keys
        invariant part.Keys == data.Keys - left && (forall s | s in part :: part[s] == data[s])
        invariant Parsable(part) && Synced(old(maps), part, maps) && stateInfo == old(stateInfo)
      {
        var s := NextKey(left);
        left := left - {s};
        var parsed := TagText.FromString(s);
        if parsed.None? {
          return true;
        }
        SyncOneMore(old(maps), part, maps, s, data[s]);
        if parsed.value in maps {
          maps := maps[parsed.value := data[s]];
        }
        part := part[s := data[s]];
      }
      assert part == data;
      UpdateStateInfo();
      return false;
    }

    method GetWorldSyncDto() returns (data: Dto)
      requires maps.Keys == WorldTags()
      ensures IsDtoOf(data, maps)
    {
      data := FromMaps(maps);
    }

    /** Pays everybody in the circle except the caster. The position of the caster comes from `users`, the
        victims from the tiles; neither the missing-tile panic nor the `unwrap` of the victim can happen. */
    method Aoe(id: UserId, radius: real, money: U64)
      requires TileInv(maps)
      modifies `maps
      ensures State() == AoeIn(old(State()), id, radius, money, maxAoeRadius)
    {
      if radius > maxAoeRadius || id !in users {
        return;
      }
      RetileFlat(maps);
      PayCircle(id, users[id].position, radius, money, Flat(maps));
    }

    /** The second half of `aoe`. */
    method PayCircle(id: UserId, center: Vector2, radius: real, money: U64, ghost table: Table)
      requires TileInv(maps) && table == Flat(maps)
      requires Keyed(table) && Placed(table) == table && maps == Retile(table)
      modifies `maps
      ensures maps == Retile(Pay(table, Hits(table, id, center, radius), money))
    {
      var victims := QueryByCircleScope(center, radius);
      victims := victims - {id};
      HitsAreVictims(table, id, center, radius);
      PayVictims(victims, money, table);
    }

    method PayVictims(victims: Table, money: U64, ghost table: Table)
      requires Keyed(table) && Placed(table) == table && maps == Retile(table)
      requires forall id | id in victims :: id in table && victims[id] == table[id]
      modifies `maps
      ensures maps == Retile(Pay(table, victims.Keys, money))
    {
      var left := victims.Keys;
      ghost var loc := Tags(table);
      EveryoneLocated(table);
      PayNobody(table, victims.Keys, money);
      while left != {}
        invariant left <= victims.Keys
        invariant maps == Place(Pay(table, victims.Keys - left, money), loc)
      {
        var id := NextKey(left);
        PayOneMore(table, victims.Keys - left, id, money);
        Visited(victims.Keys, left, id, {});
        PayVictim(victims[id], money, Pay(table, victims.Keys - left, money), loc);
        left := left - {id};
      }
      assert victims.Keys - {} == victims.Keys;
      PayKeepsTags(table, victims.Keys, money);
    }

    method PayVictim(victim: User, money: U64, ghost paid: Table, ghost loc: map<UserId, MapTag>)
      requires paid.Keys <= loc.Keys && maps == Place(paid, loc)
      requires victim.id in paid && loc[victim.id] == Pos2MapTag(victim.position) && loc[victim.id] in WorldTags()
      modifies `maps
      ensures maps == Place(paid[victim.id := Credit(paid[victim.id], money)], loc)
    {
      var t := Pos2MapTag(victim.position);
      assert t in maps;
      assert victim.id in maps[t];
      var user := Credit(maps[t][victim.id], money);
      PlaceUpdate(paid, loc, victim.id, user);
      maps := maps[t := maps[t][victim.id := user]];
    }

    method QueryByCircleScope(center: Vector2, radius: real) returns (inCircle: Table)
      requires TileInv(maps)
      ensures inCircle == InCircle(Flat(maps), center, radius)
    {
      ghost var table := Flat(maps);
      FlatIsPlaced(maps);
      var found := Query(CircleBox(center, radius));
      forall u ensures u in found <==> u in Scan(table, CircleBox(center, radius)) {
        assert u in found <==> u in multiset(found);
      }
      inCircle := KeepCircle(found, center, radius, table);
    }

    /** The users in a closed rectangle, each exactly once, in some order. */
    method Query(scope: RectScope) returns (found: seq<User>)
      requires TileInv(maps)
      ensures multiset(found) == multiset(Scan(Flat(maps), scope))
    {
      ghost var table := Flat(maps);
      RetileFlat(maps);
      EveryoneLocated(table);
      var cover := Cover.GetCoverMapByScope(scope);
      found := ScanTiles(maps, cover, scope, table, Tags(table));
      CoverSuffices(table, scope, Elements(cover));
    }
  }

  function InCircle(table: Table, center: Vector2, radius: real): Table {
    map id | id in table && WithinRadius(table[id].position, center, radius) :: table[id]
  }

  /** Filters the users of the bounding square down to those of the circle. */
  method KeepCircle(found: seq<User>, center: Vector2, radius: real, ghost table: Table) returns (inCircle: Table)
    requires Keyed(table)
    requires forall u :: u in found <==> u in Scan(table, CircleBox(center, radius))
    ensures inCircle == InCircle(table, center, radius)
  {
    inCircle := map[];
    for i := 0 to |found|
      invariant inCircle == map id | id in table && table[id] in found[..i]
                                     && WithinRadius(table[id].position, center, radius) :: table[id]
    {
      var user := found[i];
      assert user in found;
      assert forall id | id in table :: table[id] in found[..i + 1] <==> table[id] in found[..i] || id == user.id;
      if WithinRadius(user.position, center, radius) {
        inCircle := inCircle[user.id := user];
      }
    }
    assert found[..|found|] == found;
    forall id | id in InCircle(table, center, radius) ensures table[id] in found {
      CircleInBox(table[id].position, center, radius);
      assert table[id] in Scan(table, CircleBox(center, radius));
    }
  }

  lemma PayKeepsTags(table: Table, hits: set<UserId>, money: U64)
    ensures Tags(Pay(table, hits, money)) == Tags(table)
  {
    var paid := Pay(table, hits, money);
    forall id | id in table ensures Tags(paid)[id] == Tags(table)[id] {
      assert paid[id].position == table[id].position;
    }
  }

  lemma PayNobody(table: Table, all: set<UserId>, money: U64)
    ensures Pay(table, all - all, money) == table
  {
  }

  lemma PayOneMore(table: Table, hits: set<UserId>, id: UserId, money: U64)
    requires id in table && id !in hits
    ensures var paid := Pay(table, hits, money);
            paid[id] == table[id] &&
            Pay(table, hits + {id}, money) == paid[id := Credit(paid[id], money)]
  {
  }

  lemma HitsAreVictims(table: Table, caster: UserId, center: Vector2, radius: real)
    ensures var victims := InCircle(table, center, radius) - {caster};
            && victims.Keys == Hits(table, caster, center, radius)
            && forall id | id in victims :: id in table && victims[id] == table[id]
  {
  }

  /** Collects the users in the rectangle from the listed tiles. */
  method ScanTiles(tiles: TileMap, cover: seq<MapTag>, scope: RectScope,
                   ghost table: Table, ghost loc: map<UserId, MapTag>)
    returns (found: seq<User>)
    requires Keyed(table) && table.Keys <= loc.Keys && tiles == Place(table, loc)
    requires forall id | id in table :: loc[id] in WorldTags()
    requires Distinct(cover)
    ensures multiset(found) == multiset(Scan(Among(table, loc, Elements(cover)), scope))
  {
    found := [];
    for i := 0 to |cover|
      invariant multiset(found) == multiset(Scan(Among(table, loc, Elements(cover[..i])), scope))
    {
      ghost var tags := Elements(cover[..i]);
      assert Elements(cover[..i + 1]) == tags + {cover[i]};
      AmongSlice(table, loc, tags, cover[i]);
      if cover[i] in tiles {
        var inTile := ScanTile(tiles[cover[i]], scope);
        ScanUnion(Among(table, loc, tags), tiles[cover[i]], scope);
        found := found + inTile;
      }
    }
    assert cover[..|cover|] == cover;
  }

  /** One pass over the users of a tile. */
  method ScanTile(tile: Table, scope: RectScope) returns (found: seq<User>)
    requires Keyed(tile)
    ensures multiset(found) == multiset(Scan(tile, scope))
  {
    found := [];
    var left := tile.Keys;
    ghost var seen: Table := map[];
    while left != {}
      invariant left <= tile.Keys
      invariant seen == map id | id in tile && id !in left :: tile[id]
      invariant multiset(found) == multiset(Scan(seen, scope))
    {
      var id := NextKey(left);
      left := left - {id};
      var user := tile[id];
      ScanOneMore(seen, id, user, scope);
      seen := seen[id := user];
      if user.position.x >= scope.leftUp.x && user.position.x <= scope.rightDown.x
         && user.position.y <= scope.leftUp.y && user.position.y >= scope.rightDown.y
      {
        found := found + [user];
      }
    }
    assert seen == tile;
  }

  /** Looking at one more user adds that user to the scan just when the rectangle contains it. */
  lemma ScanOneMore(table: Table, id: UserId, user: User, scope: RectScope)
    requires id !in table && user.id == id && Keyed(table)
    ensures multiset(Scan(table[id := user], scope)) ==
            multiset(Scan(table, scope)) + (if scope.Contains(user.position) then multiset{user} else multiset{})
  {
    var hit := if scope.Contains(user.position) then {user} else {};
    forall u ensures u in Scan(table[id := user], scope) <==> u in Scan(table, scope) + hit {
      if u in Scan(table, scope) {
        assert table[id := user][u.id] == u;
      }
      if u in hit {
        assert table[id := user][id] == u;
      }
    }
    assert Scan(table[id := user], scope) == Scan(table, scope) + hit;
    assert user !in Scan(table, scope);
  }

  /** Scanning two disjoint tables one after the other is scanning their union. */
  lemma ScanUnion(a: Table, b: Table, scope: RectScope)
    requires a.Keys !! b.Keys && Keyed(a) && Keyed(b)
    ensures multiset(Scan(a + b, scope)) == multiset(Scan(a, scope)) + multiset(Scan(b, scope))
  {
    forall u ensures u in Scan(a + b, scope) <==> u in Scan(a, scope) + Scan(b, scope) {
      if u in Scan(a, scope) || u in Scan(b, scope) {
        assert (a + b)[u.id] == u;
      }
    }
    assert Scan(a + b, scope) == Scan(a, scope) + Scan(b, scope);
    assert Scan(a, scope) !! Scan(b, scope);
  }

  /** Visiting a further tag brings in exactly the users located there. */
  lemma AmongSlice(table: Table, loc: map<UserId, MapTag>, tags: set<MapTag>, t: MapTag)
    requires table.Keys <= loc.Keys && t !in tags
    ensures var more := Among(table, loc, tags + {t});
            var less := Among(table, loc, tags);
            var slice := map id | id in table && loc[id] == t :: table[id];
            less.Keys !! slice.Keys && more == less + slice
  {
  }

  lemma PlacedIsAmong(table: Table)
    ensures Placed(table) == Among(table, Tags(table), WorldTags())
  {
    forall id | id in table ensures Tiled(table[id].position) <==> Tags(table)[id] in WorldTags() {
    }
  }

  lemma EveryoneLocated(table: Table)
    requires Placed(table) == table
    ensures forall id | id in table :: Tags(table)[id] in WorldTags()
  {
    forall id | id in table ensures Tags(table)[id] in WorldTags() {
      assert id in Placed(table);
    }
  }

  /** Everyone in the rectangle is among the users of the covered tiles. */
  lemma CoverSuffices(table: Table, scope: RectScope, cover: set<MapTag>)
    requires Placed(table) == table
    requires forall t :: t in cover <==> Cover.IsCover(scope, t)
    ensures Scan(Among(table, Tags(table), cover), scope) == Scan(table, scope)
  {
    forall id | id in table && scope.Contains(table[id].position) ensures Tags(table)[id] in cover {
      assert id in Placed(table);
      Cover.CoverContains(scope, table[id].position);
    }
  }
}
