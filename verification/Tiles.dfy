/** The hundred tiles as a value, and the flat table of users they stand for. */
module Tiles {
  import opened Basic
  import opened MapTool

  type Table = map<UserId, User>
  type TileMap = map<MapTag, Table>

  /** Every user is stored under its own id. */
  predicate Keyed(table: Table) {
    forall id | id in table :: table[id].id == id
  }

  /** The tiles that hold each user of `table` in the tile `loc` names, or nowhere if that is no tile. */
  function Place(table: Table, loc: map<UserId, MapTag>): (tiles: TileMap)
    requires table.Keys <= loc.Keys
    ensures tiles.Keys == WorldTags()
  {
    map t | t in WorldTags() :: (map id | id in table && loc[id] == t :: table[id])
  }

  function Tags(table: Table): (loc: map<UserId, MapTag>)
    ensures loc.Keys == table.Keys
  {
    map id | id in table :: Pos2MapTag(table[id].position)
  }

  /** The tiles that hold each user in the tile of its position. */
  function Retile(table: Table): TileMap {
    Place(table, Tags(table))
  }

  /** The invariant of the grid: the hundred tiles, each user under its own id in the tile of its
      position, and no id in two tiles. */
  ghost predicate TileInv(tiles: TileMap) {
    && tiles.Keys == WorldTags()
    && (forall t, id | t in tiles && id in tiles[t] ::
          tiles[t][id].id == id && Pos2MapTag(tiles[t][id].position) == t)
    && (forall t1, t2, id | t1 in tiles && t2 in tiles && id in tiles[t1] && id in tiles[t2] :: t1 == t2)
  }

  function Ids(tiles: TileMap): (ids: set<UserId>)
    ensures forall t, id | t in tiles && id in tiles[t] :: id in ids
    ensures forall id | id in ids :: exists t :: t in tiles && id in tiles[t]
  {
    set t, id | t in tiles && id in tiles[t] :: id
  }

  ghost function HomeOf(tiles: TileMap, id: UserId): (t: MapTag)
    requires id in Ids(tiles)
    ensures t in tiles && id in tiles[t]
  {
    var t :| t in tiles && id in tiles[t]; t
  }

  /** The union of all tiles. */
  ghost function Flat(tiles: TileMap): (table: Table)
    ensures table.Keys == Ids(tiles)
  {
    map id | id in Ids(tiles) :: tiles[HomeOf(tiles, id)][id]
  }

  /** The users of `table` that have a tile. */
  function Placed(table: Table): Table {
    map id | id in table && Tiled(table[id].position) :: table[id]
  }

  lemma SameTiles(a: TileMap, b: TileMap)
    requires a.Keys == b.Keys
    requires forall t | t in a :: a[t] == b[t]
    ensures a == b
  {
  }

  lemma FlatAt(tiles: TileMap, t: MapTag, id: UserId)
    requires TileInv(tiles) && t in tiles && id in tiles[t]
    ensures id in Flat(tiles) && Flat(tiles)[id] == tiles[t][id] && HomeOf(tiles, id) == t
  {
  }

  lemma FlatIsPlaced(tiles: TileMap)
    requires TileInv(tiles)
    ensures Keyed(Flat(tiles)) && Placed(Flat(tiles)) == Flat(tiles)
  {
    var flat := Flat(tiles);
    forall id | id in flat ensures flat[id].id == id && Tiled(flat[id].position) {
      FlatAt(tiles, HomeOf(tiles, id), id);
      assert HomeOf(tiles, id) in WorldTags();
    }
  }

  /** Well-formed tiles are the retiling of the union of their users. */
  lemma RetileFlat(tiles: TileMap)
    requires TileInv(tiles)
    ensures Keyed(Flat(tiles)) && tiles == Retile(Flat(tiles))
    ensures Placed(Flat(tiles)) == Flat(tiles)
  {
    FlatIsPlaced(tiles);
    forall t | t in tiles ensures tiles[t] == Retile(Flat(tiles))[t] {
      TileIsSlice(tiles, t);
    }
    SameTiles(tiles, Retile(Flat(tiles)));
  }

  lemma SliceAt(tiles: TileMap, t: MapTag, id: UserId)
    requires TileInv(tiles) && t in tiles
    ensures id in tiles[t] <==> id in Flat(tiles) && Tags(Flat(tiles))[id] == t
    ensures id in tiles[t] ==> tiles[t][id] == Flat(tiles)[id]
  {
    if id in tiles[t] {
      FlatAt(tiles, t, id);
    } else if id in Flat(tiles) {
      FlatAt(tiles, HomeOf(tiles, id), id);
    }
  }

  lemma TileIsSlice(tiles: TileMap, t: MapTag)
    requires TileInv(tiles) && t in tiles
    ensures tiles[t] == Retile(Flat(tiles))[t]
  {
    var flat := Flat(tiles);
    forall id
      ensures id in tiles[t] <==> id in flat && Tags(flat)[id] == t
      ensures id in tiles[t] ==> tiles[t][id] == flat[id]
    {
      SliceAt(tiles, t, id);
    }
    SliceOfTable(flat, t, tiles[t]);
  }

  lemma SliceOfTable(table: Table, t: MapTag, tile: Table)
    requires t in WorldTags()
    requires forall id :: id in tile <==> id in table && Tags(table)[id] == t
    requires forall id | id in tile :: tile[id] == table[id]
    ensures tile == Retile(table)[t]
  {
  }

  lemma RetileInv(table: Table)
    requires Keyed(table)
    ensures TileInv(Retile(table))
  {
  }

  lemma FlatRetileAt(table: Table, id: UserId)
    requires TileInv(Retile(table))
    ensures id in Flat(Retile(table)) <==> id in Placed(table)
    ensures id in Placed(table) ==> Flat(Retile(table))[id] == table[id]
  {
    var tiles := Retile(table);
    if id in Placed(table) {
      FlatAt(tiles, Pos2MapTag(table[id].position), id);
    }
    if id in Flat(tiles) {
      assert id in tiles[HomeOf(tiles, id)];
    }
  }

  /** Retiling any keyed table gives well-formed tiles, whose union is the part of the table that has tiles. */
  lemma FlatRetile(table: Table)
    requires Keyed(table)
    ensures TileInv(Retile(table)) && Flat(Retile(table)) == Placed(table)
  {
    RetileInv(table);
    forall id
      ensures id in Flat(Retile(table)) <==> id in Placed(table)
      ensures id in Placed(table) ==> Flat(Retile(table))[id] == Placed(table)[id]
    {
      FlatRetileAt(table, id);
    }
  }

  lemma RetilePlaced(table: Table)
    ensures Retile(Placed(table)) == Retile(table)
  {
    forall t | t in WorldTags() ensures Retile(Placed(table))[t] == Retile(table)[t] {
      forall id | id in Retile(table)[t] ensures id in Placed(table) {
        assert IsWorldTag(t);
      }
    }
    SameTiles(Retile(Placed(table)), Retile(table));
  }

  /** The grid invariant holds of the retilings of keyed tables and of nothing else. */
  lemma TileInvIsRetiling(tiles: TileMap)
    ensures TileInv(tiles) <==> exists table :: Keyed(table) && tiles == Retile(table)
  {
    if TileInv(tiles) {
      RetileFlat(tiles);
    }
    forall table | Keyed(table) && tiles == Retile(table) ensures TileInv(tiles) {
      FlatRetile(table);
    }
  }

  /** Rewriting a located user in its tile is rewriting it in the table. */
  lemma PlaceUpdate(table: Table, loc: map<UserId, MapTag>, id: UserId, user: User)
    requires table.Keys <= loc.Keys && id in table && loc[id] in WorldTags()
    ensures id in Place(table, loc)[loc[id]]
    ensures var tiles := Place(table, loc);
            Place(table[id := user], loc) == tiles[loc[id] := tiles[loc[id]][id := user]]
  {
    var tiles := Place(table, loc);
    var after := tiles[loc[id] := tiles[loc[id]][id := user]];
    forall t | t in after ensures after[t] == Place(table[id := user], loc)[t] {
    }
    SameTiles(after, Place(table[id := user], loc));
  }

  /** Taking a user out of a tile, as `HashMap::remove` behind `get_mut` does. */
  function Drop(tiles: TileMap, t: MapTag, id: UserId): TileMap
    requires t in tiles
  {
    tiles[t := tiles[t] - {id}]
  }

  /** Putting a user into a tile, or nowhere if there is no such tile. */
  function Put(tiles: TileMap, t: MapTag, user: User): TileMap {
    if t in tiles then tiles[t := tiles[t][user.id := user]] else tiles
  }

  lemma PlaceMoveTile(table: Table, loc: map<UserId, MapTag>, id: UserId, to: MapTag, t: MapTag)
    requires table.Keys <= loc.Keys && id in table && t in WorldTags() && to != loc[id]
    ensures Place(table, loc[id := to])[t] ==
            var before := Place(table, loc)[t];
            if t == loc[id] then before - {id} else if t == to then before[id := table[id]] else before
  {
  }

  /** Moving a user between tiles changes its location and nothing else. */
  lemma PlaceMove(table: Table, loc: map<UserId, MapTag>, id: UserId, to: MapTag)
    requires table.Keys <= loc.Keys && id in table && table[id].id == id
    requires loc[id] in WorldTags() && to != loc[id]
    ensures Place(table, loc[id := to]) == Put(Drop(Place(table, loc), loc[id], id), to, table[id])
  {
    var moved := Place(table, loc[id := to]);
    var steps := Put(Drop(Place(table, loc), loc[id], id), to, table[id]);
    assert steps.Keys == WorldTags();
    forall t | t in moved ensures moved[t] == steps[t] {
      PlaceMoveTile(table, loc, id, to, t);
    }
    SameTiles(moved, steps);
  }

  /** Adding a user, unless it leaves an older copy of itself behind in another tile. */
  lemma PlacePut(table: Table, loc: map<UserId, MapTag>, user: User, t: MapTag)
    requires table.Keys <= loc.Keys
    requires user.id in table && loc[user.id] in WorldTags() ==> loc[user.id] == t
    ensures Place(table[user.id := user], loc[user.id := t]) == Put(Place(table, loc), t, user)
  {
    var tiles := Put(Place(table, loc), t, user);
    var placed := Place(table[user.id := user], loc[user.id := t]);
    forall t' | t' in placed ensures placed[t'] == tiles[t'] {
      PlacePutTile(table, loc, user, t, t');
    }
    SameTiles(placed, tiles);
  }

  lemma PlacePutTile(table: Table, loc: map<UserId, MapTag>, user: User, t: MapTag, t': MapTag)
    requires table.Keys <= loc.Keys && t' in WorldTags()
    requires user.id in table && loc[user.id] in WorldTags() ==> loc[user.id] == t
    ensures Place(table[user.id := user], loc[user.id := t])[t'] ==
            if t' == t then Place(table, loc)[t'][user.id := user] else Place(table, loc)[t']
  {
  }

  lemma PlaceDrop(table: Table, loc: map<UserId, MapTag>, id: UserId)
    requires table.Keys <= loc.Keys && id in table && loc[id] in WorldTags()
    ensures Place(table - {id}, loc) == Drop(Place(table, loc), loc[id], id)
  {
    var tiles := Drop(Place(table, loc), loc[id], id);
    forall t | t in tiles ensures Place(table - {id}, loc)[t] == tiles[t] {
    }
    SameTiles(Place(table - {id}, loc), tiles);
  }

  /** Only the locations of the users in the table matter. */
  lemma PlaceRestrict(table: Table, loc: map<UserId, MapTag>, loc': map<UserId, MapTag>)
    requires table.Keys <= loc.Keys && table.Keys <= loc'.Keys
    requires forall id | id in table :: loc[id] == loc'[id]
    ensures Place(table, loc) == Place(table, loc')
  {
    forall t | t in WorldTags() ensures Place(table, loc)[t] == Place(table, loc')[t] {
    }
    SameTiles(Place(table, loc), Place(table, loc'));
  }
}
