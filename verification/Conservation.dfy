/** What a tick and an aoe do to the population and to the money of the world. */
module Conservation {
  import opened Basic
  import opened MapTool
  import opened Tiles
  import opened WorldSpec
  import opened Simulation
  import WorldTheorems

  /** The money of the users `ids`. */
  ghost function MoneyOf(a: Table, ids: set<UserId>): nat
    requires ids <= a.Keys
  {
    if ids == {} then 0 else
      var id := Pick(ids);
      a[id].money + MoneyOf(a, ids - {id})
  }

  ghost function TotalMoney(a: Table): nat {
    MoneyOf(a, a.Keys)
  }

  lemma {:induction false} MoneyWithout(a: Table, ids: set<UserId>, id: UserId)
    requires ids <= a.Keys && id in ids
    ensures MoneyOf(a, ids) == a[id].money + MoneyOf(a, ids - {id})
    decreases ids
  {
    var first := Pick(ids);
    if id != first {
      MoneyWithout(a, ids - {first}, id);
      MoneyWithout(a, ids - {id}, first);
      assert ids - {first} - {id} == ids - {id} - {first};
    }
  }

  lemma {:induction false} MoneyDependsOnIds(a: Table, b: Table, ids: set<UserId>)
    requires ids <= a.Keys && ids <= b.Keys
    requires forall id | id in ids :: a[id].money == b[id].money
    ensures MoneyOf(a, ids) == MoneyOf(b, ids)
    decreases ids
  {
    if ids != {} {
      MoneyDependsOnIds(a, b, ids - {Pick(ids)});
    }
  }

  /** The money of all is the money of some exactly when the others have none. */
  lemma {:induction false} MoneyOfPart(a: Table, part: set<UserId>, ids: set<UserId>)
    requires part <= ids <= a.Keys
    ensures MoneyOf(a, part) <= MoneyOf(a, ids)
    ensures MoneyOf(a, part) == MoneyOf(a, ids) <==> forall id | id in ids - part :: a[id].money == 0
    decreases ids
  {
    if part == ids {
    } else {
      assert ids == part + (ids - part);
      assert ids - part != {};
      var id := Pick(ids - part);
      MoneyWithout(a, ids, id);
      MoneyOfPart(a, part, ids - {id});
    }
  }

  /** Those whom a payment of `money` would carry past the end of u64. */
  function Overflows(a: Table, hits: set<UserId>, money: U64): set<UserId> {
    set id | id in hits && id in a && a[id].money + money >= U64_SIZE
  }

  lemma {:induction false} PayTotal(a: Table, hits: set<UserId>, money: U64, ids: set<UserId>)
    requires hits <= a.Keys && ids <= a.Keys
    ensures MoneyOf(Pay(a, hits, money), ids) ==
            MoneyOf(a, ids) + money * |hits * ids| - U64_SIZE * |Overflows(a, hits, money) * ids|
    decreases ids
  {
    if ids != {} {
      var id := Pick(ids);
      var rest := ids - {id};
      var over := Overflows(a, hits, money);
      PayTotal(a, hits, money, rest);
      MoneyWithout(Pay(a, hits, money), ids, id);
      MoneyWithout(a, ids, id);
      assert rest + {id} == ids;
      CountOneMore(hits, rest, id);
      CountOneMore(over, rest, id);
      PaidOne(a, hits, money, id);
      OneMoreGain(money, |hits * rest|, id in hits);
    }
  }

  lemma OneMoreGain(money: int, count: int, hit: bool)
    ensures money * (count + (if hit then 1 else 0)) == money * count + (if hit then money else 0)
  {
  }

  /** Paying everybody in `hits` adds `money` per hit exactly when no account overflows. */
  lemma PayTotalExactly(a: Table, hits: set<UserId>, money: U64)
    requires hits <= a.Keys
    ensures TotalMoney(Pay(a, hits, money)) == TotalMoney(a) + money * |hits| <==> Overflows(a, hits, money) == {}
  {
    var over := Overflows(a, hits, money);
    PayTotal(a, hits, money, a.Keys);
    assert hits * a.Keys == hits;
    assert over * a.Keys == over;
    assert |over| == 0 <==> over == {};
  }

  lemma PaidOne(a: Table, hits: set<UserId>, money: U64, id: UserId)
    requires id in a && hits <= a.Keys
    ensures Pay(a, hits, money)[id].money ==
            a[id].money + (if id in hits then money else 0)
            - (if id in Overflows(a, hits, money) then U64_SIZE else 0)
  {
  }

  lemma CountOneMore<K>(s: set<K>, rest: set<K>, key: K)
    requires key !in rest
    ensures |s * (rest + {key})| == |s * rest| + (if key in s then 1 else 0)
  {
    if key in s {
      assert s * (rest + {key}) == s * rest + {key};
    } else {
      assert s * (rest + {key}) == s * rest;
    }
  }

  /** Exactly the users `hits` gain `money`, `users` is not touched, and the total money of the world grows
      by `money` per hit exactly when no account overflows. */
  ghost predicate IsPaid(w: WorldState, w': WorldState, hits: set<UserId>, money: U64) {
    var before := Flat(w.maps);
    var after := Flat(w'.maps);
    && TileInv(w'.maps) && w'.users == w.users && after == Pay(before, hits, money)
    && (TotalMoney(after) == TotalMoney(before) + money * |hits| <==> Overflows(before, hits, money) == {})
  }

  /** An aoe of an existing caster with a legal radius pays exactly the users in the circle except the caster. */
  lemma AoeExactly(conf: Config, w: WorldState, id: UserId, radius: real, money: U64)
    requires TileInv(w.maps) && radius <= conf.maxAoeRadius && id in w.users
    ensures IsPaid(w, AoeIn(w, id, radius, money, conf.maxAoeRadius),
                   Hits(Flat(w.maps), id, w.users[id].position, radius), money)
  {
    var before := Flat(w.maps);
    var center := w.users[id].position;
    var hits := Hits(before, id, center, radius);
    FlatIsPlaced(w.maps);
    HitsInTable(before, id, center, radius);
    PaidWorld(w, hits, money);
    AoeInPays(w, id, radius, money, conf.maxAoeRadius, hits);
  }

  lemma AoeInPays(w: WorldState, id: UserId, radius: real, money: U64, maxRadius: real, hits: set<UserId>)
    requires radius <= maxRadius && id in w.users && hits == Hits(Flat(w.maps), id, w.users[id].position, radius)
    ensures AoeIn(w, id, radius, money, maxRadius) == w.(maps := Retile(Pay(Flat(w.maps), hits, money)))
  {
  }

  lemma PaidWorld(w: WorldState, hits: set<UserId>, money: U64)
    requires Keyed(Flat(w.maps)) && Placed(Flat(w.maps)) == Flat(w.maps) && hits <= Flat(w.maps).Keys
    ensures IsPaid(w, w.(maps := Retile(Pay(Flat(w.maps), hits, money))), hits, money)
  {
    PaidTiles(Flat(w.maps), hits, money);
    PayTotalExactly(Flat(w.maps), hits, money);
  }

  lemma PaidTiles(a: Table, hits: set<UserId>, money: U64)
    requires Keyed(a) && Placed(a) == a
    ensures var tiles := Retile(Pay(a, hits, money));
            TileInv(tiles) && Flat(tiles) == Pay(a, hits, money)
  {
    FlatRetile(Pay(a, hits, money));
    PayPlaced(a, hits, money);
  }

  /** A tick of well-formed tiles: every user is shifted once and is then in the tile of its new position
      and in `users`, or nowhere when there is no such tile; nobody else appears. Whatever `users` was
      before, the full invariant holds afterwards with `users` the union of the tiles, money included. */
  lemma TickExactly(w: WorldState, time: real)
    requires TileInv(w.maps)
    ensures var moved := ShiftAll(Flat(w.maps), time);
            var w' := TickOf(w, time);
            && WorldInv(w') && Flat(w'.maps) == w'.users
            && (forall id | id in moved ::
                  var t := Pos2MapTag(moved[id].position);
                  && (t in w'.maps <==> id in w'.users)
                  && (t in w'.maps ==> id in w'.maps[t] && w'.maps[t][id] == moved[id] == w'.users[id]))
            && w'.users.Keys <= moved.Keys
  {
    var moved := ShiftAll(Flat(w.maps), time);
    RetileFlat(w.maps);
    TickRepresents(w, time);
    RepresentsInv(TickOf(w, time), Placed(moved));
    forall id | id in moved
      ensures var t := Pos2MapTag(moved[id].position);
              && (t in Retile(moved) <==> Tiled(moved[id].position))
              && (t in Retile(moved) ==> id in Retile(moved)[t] && Retile(moved)[t][id] == moved[id])
    {
      RetileAt(moved, id);
    }
  }

  lemma TickRepresents(w: WorldState, time: real)
    requires Keyed(Flat(w.maps))
    ensures var moved := ShiftAll(Flat(w.maps), time);
            var w' := TickOf(w, time);
            Represents(w', Placed(moved)) && Flat(w'.maps) == Placed(moved)
  {
    var moved := ShiftAll(Flat(w.maps), time);
    RetilePlaced(moved);
    FlatOfRetile(moved);
  }

  /** A tick keeps the population exactly when everybody lands where there is a tile, and keeps the total
      money exactly when whoever does not has none. */
  lemma TickConserves(w: WorldState, time: real)
    requires TileInv(w.maps)
    ensures var before := Flat(w.maps);
            var moved := ShiftAll(before, time);
            var after := TickOf(w, time).users;
            && (|after| == |before| <==> WorldTheorems.AllTiled(moved))
            && (TotalMoney(after) == TotalMoney(before) <==>
                forall id | id in moved && !Tiled(moved[id].position) :: moved[id].money == 0)
  {
    var before := Flat(w.maps);
    var moved := ShiftAll(before, time);
    PlacedSize(moved);
    assert |moved.Keys| == |before.Keys|;
    MoneyDependsOnIds(before, moved, before.Keys);
    PlacedMoney(moved);
  }

  /** A user just below the negative x axis and walking up to it. */
  function AxisWalker(id: UserId, money: U64): User {
    User(id, Vector2(-1.0, -1.0), Velocity(Vector2(0.0, 1.0), 1.0), money)
  }

  lemma WalksOntoAxis(id: UserId, money: U64)
    ensures var user := AxisWalker(id, money);
            Tiled(user.position) && !Tiled(Shift(user, 1.0).position)
  {
    var user := AxisWalker(id, money);
    assert Shift(user, 1.0).position == Vector2(-1.0, 0.0);
    TiledExactly(user.position);
    TiledExactly(Vector2(-1.0, 0.0));
  }

  /** So it does happen, in every world: one step of this user, who has a tile, and both are smaller. */
  lemma TickLosesUser(w: WorldState, id: UserId, money: U64)
    requires WorldInv(w) && id !in w.users
    ensures var w1 := AddUserTo(w, AxisWalker(id, money));
            var before := Flat(w1.maps);
            var after := TickOf(w1, 1.0).users;
            && WorldInv(w1) && id in before && before[id] == AxisWalker(id, money)
            && |after| != |before| && (money > 0 ==> TotalMoney(after) != TotalMoney(before))
  {
    var user := AxisWalker(id, money);
    var w1 := AddUserTo(w, user);
    WalksOntoAxis(id, money);
    AddedUserIsTiled(w, user);
    TickConserves(w1, 1.0);
    var moved := ShiftAll(Flat(w1.maps), 1.0);
    assert id in moved && moved[id] == Shift(user, 1.0);
    assert moved[id].money == money;
  }

  lemma AddedUserIsTiled(w: WorldState, user: User)
    requires WorldInv(w) && user.id !in w.users && Tiled(user.position)
    ensures var w1 := AddUserTo(w, user);
            WorldInv(w1) && user.id in Flat(w1.maps) && Flat(w1.maps)[user.id] == user
  {
    var table := TableOf(w);
    InvRepresents(w);
    AddSimulates(w, table, user);
    RepresentsInv(AddUserTo(w, user), table[user.id := user]);
    FlatRetile(table[user.id := user]);
  }

  lemma PlacedSize(a: Table)
    ensures |Placed(a)| == |a| <==> WorldTheorems.AllTiled(a)
  {
    WorldTheorems.PlacedAll(a);
    SubsetSize(Placed(a).Keys, a.Keys);
    assert Placed(a).Keys == a.Keys ==> Placed(a) == a;
  }

  lemma PlacedMoney(a: Table)
    ensures TotalMoney(Placed(a)) == TotalMoney(a) <==>
            forall id | id in a && !Tiled(a[id].position) :: a[id].money == 0
  {
    var part := Placed(a).Keys;
    MoneyDependsOnIds(Placed(a), a, part);
    MoneyOfPart(a, part, a.Keys);
    assert forall id :: id in a.Keys - part <==> id in a && !Tiled(a[id].position);
  }

  lemma {:induction false} SubsetSize<K>(a: set<K>, b: set<K>)
    requires a <= b
    ensures |a| == |b| <==> a == b
  {
    assert b == a + (b - a);
    assert |b| == |a| + |b - a|;
    assert |b - a| == 0 <==> b - a == {};
  }
}
