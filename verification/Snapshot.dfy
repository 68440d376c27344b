/** World snapshots: the tiles under their printed tags (`WorldSyncDTO` in crates/server/src/distribute.rs). */
module Snapshot {
  import opened Basic
  import opened MapTool
  import opened Tiles
  import opened TagText

  type Dto = map<string, Table>

  ghost predicate Parsable(data: Dto) {
    forall s | s in data :: FromString(s).Some?
  }

  predicate KeyFor(data: Dto, s: string, t: MapTag) {
    s in data && FromString(s) == Some(t)
  }

  /** `after` is `before` with every tile that some key of `data` names replaced by the users under such a
      key; with two keys for one tile the iteration order decides which. */
  ghost predicate Synced(before: TileMap, data: Dto, after: TileMap) {
    && after.Keys == before.Keys
    && forall t | t in before :: TileSynced(before, data, after, t)
  }

  ghost predicate TileSynced(before: TileMap, data: Dto, after: TileMap, t: MapTag)
    requires t in before && t in after
  {
    if Names(data, t) then exists s :: KeyFor(data, s, t) && after[t] == data[s] else after[t] == before[t]
  }

  ghost predicate Names(data: Dto, t: MapTag) {
    exists s :: KeyFor(data, s, t)
  }

  lemma SyncOneMore(before: TileMap, part: Dto, after: TileMap, s: string, users: Table)
    requires Synced(before, part, after) && s !in part && FromString(s).Some?
    ensures var t := FromString(s).value;
            Synced(before, part[s := users], if t in after then after[t := users] else after)
  {
    var t := FromString(s).value;
    var after' := if t in after then after[t := users] else after;
    forall t' | t' in before ensures TileSynced(before, part[s := users], after', t') {
      if t' == t {
        assert KeyFor(part[s := users], s, t) && after'[t] == part[s := users][s];
        assert Names(part[s := users], t);
      } else {
        OtherTileSynced(before, part, after, after', s, users, t');
      }
    }
  }

  lemma OtherTileSynced(before: TileMap, part: Dto, after: TileMap, after': TileMap, s: string, users: Table, t: MapTag)
    requires t in before && t in after && t in after' && after'[t] == after[t] && TileSynced(before, part, after, t)
    requires s !in part && FromString(s) != Some(t)
    ensures TileSynced(before, part[s := users], after', t)
  {
    if Names(part, t) {
      var k :| KeyFor(part, k, t) && after[t] == part[k];
      assert KeyFor(part[s := users], k, t) && after'[t] == part[s := users][k];
    }
    if Names(part[s := users], t) {
      var k :| KeyFor(part[s := users], k, t);
      assert KeyFor(part, k, t);
    }
  }

  /** How far a snapshot may have been applied when one of its keys does not parse. */
  ghost predicate PartlySynced(before: TileMap, data: Dto, after: TileMap) {
    exists part: Dto ::
      part.Keys <= data.Keys && (forall s | s in part :: part[s] == data[s]) && Synced(before, part, after)
  }

  /** The snapshot of a world: every tile under its printed tag, and nothing else. */
  ghost predicate IsDtoOf(data: Dto, tiles: TileMap) {
    && (forall t | t in tiles :: ToString(t) in data && data[ToString(t)] == tiles[t])
    && (forall s | s in data :: exists t :: t in tiles && ToString(t) == s)
  }

  /** The text keys of a snapshot parse, each to its own tile. */
  lemma DtoKeys(data: Dto, tiles: TileMap, s: string)
    requires tiles.Keys == WorldTags() && IsDtoOf(data, tiles) && s in data
    ensures FromString(s).Some?
    ensures var t := FromString(s).value; t in tiles && ToString(t) == s && data[s] == tiles[t]
  {
    var t :| t in tiles && ToString(t) == s;
    WorldTagText(t);
  }

  /** Applying the snapshot of a world reproduces all its tiles, whatever was there before. */
  lemma SyncCopies(before: TileMap, master: TileMap, data: Dto, after: TileMap)
    requires before.Keys == master.Keys == WorldTags()
    requires IsDtoOf(data, master) && Synced(before, data, after)
    ensures Parsable(data) && after == master
  {
    forall s | s in data ensures FromString(s).Some? {
      DtoKeys(data, master, s);
    }
    forall t | t in master ensures after[t] == master[t] {
      WorldTagText(t);
      assert KeyFor(data, ToString(t), t);
      assert Names(data, t);
      assert TileSynced(before, data, after, t);
      var s :| KeyFor(data, s, t) && after[t] == data[s];
      DtoKeys(data, master, s);
    }
    SameTiles(after, master);
  }

  /** Two worlds with the same snapshot have the same tiles. */
  lemma DtoIsInjective(data: Dto, a: TileMap, b: TileMap)
    requires a.Keys == b.Keys == WorldTags() && IsDtoOf(data, a) && IsDtoOf(data, b)
    ensures a == b
  {
    forall t | t in a ensures a[t] == b[t] {
      assert data[ToString(t)] == a[t];
    }
    SameTiles(a, b);
  }

  ghost function DtoOf(tiles: TileMap): (data: Dto)
    requires forall t | t in tiles :: FromString(ToString(t)) == Some(t)
  {
    map s | s in (set t | t in tiles :: ToString(t)) :: tiles[FromString(s).value]
  }

  /** Every world has a snapshot, and it can be applied to every other world. */
  lemma SnapshotExists(tiles: TileMap, before: TileMap) returns (data: Dto)
    requires before.Keys == tiles.Keys == WorldTags()
    ensures IsDtoOf(data, tiles) && Synced(before, data, tiles)
  {
    forall t | t in tiles ensures FromString(ToString(t)) == Some(t) {
      WorldTagText(t);
    }
    data := DtoOf(tiles);
    assert IsDtoOf(data, tiles);
    forall t | t in before ensures TileSynced(before, data, tiles, t) {
      assert KeyFor(data, ToString(t), t) && tiles[t] == data[ToString(t)];
      assert Names(data, t);
    }
  }

  /** `WorldSyncDTO::from_maps` and `World::get_world_sync_dto`. */
  method FromMaps(maps: TileMap) returns (data: Dto)
    requires maps.Keys == WorldTags()
    ensures IsDtoOf(data, maps)
  {
    data := map[];
    var left := maps.Keys;
    while left != {}
      invariant left <= maps.Keys
      invariant forall t | t in maps.Keys - left :: ToString(t) in data && data[ToString(t)] == maps[t]
      invariant forall s | s in data :: exists t :: t in maps.Keys - left && ToString(t) == s
    {
      var t := NextKey(left);
      ghost var before := data;
      ghost var done := maps.Keys - left;
      left := left - {t};
      data := data[ToString(t) := maps[t]];
      assert maps.Keys - left == done + {t};
      WorldTagText(t);
      forall t' | t' in done ensures ToString(t') != ToString(t) {
        WorldTagText(t');
      }
    }
    assert maps.Keys - {} == maps.Keys;
  }

  /** `WorldSyncDTO::user_count`. */
  method UserCount(data: Dto) returns (count: nat)
    ensures count == CountUsers(data, data.Keys)
  {
    count := 0;
    var left := data.Keys;
    assert CountUsers(data, data.Keys - left) == 0;
    while left != {}
      invariant left <= data.Keys
      invariant count == CountUsers(data, data.Keys - left)
    {
      var s := NextKey(left);
      Visited(data.Keys, left, s, {});
      CountWithout(data, data.Keys - left + {s}, s);
      assert data.Keys - left + {s} - {s} == data.Keys - left;
      count := count + |data[s]|;
      left := left - {s};
    }
    assert data.Keys - {} == data.Keys;
  }

  ghost function CountUsers<K>(data: map<K, Table>, keys: set<K>): nat
    requires keys <= data.Keys
  {
    if keys == {} then 0 else
      var k := Pick(keys);
      |data[k]| + CountUsers(data, keys - {k})
  }

  lemma {:induction false} CountWithout<K>(data: map<K, Table>, keys: set<K>, k: K)
    requires keys <= data.Keys && k in keys
    ensures CountUsers(data, keys) == |data[k]| + CountUsers(data, keys - {k})
    decreases keys
  {
    var first := Pick(keys);
    if k != first {
      CountWithout(data, keys - {first}, k);
      CountWithout(data, keys - {k}, first);
      assert keys - {first} - {k} == keys - {k} - {first};
    }
  }
}
