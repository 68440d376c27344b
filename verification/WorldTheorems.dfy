/** Main results about the tiled world: whole runs, the tick, the aoe, and where the grid fails. */
module WorldTheorems {
  import opened Basic
  import opened MapTool
  import opened Tiles
  import opened WorldSpec
  import opened Simulation

  // ----- when adding a user keeps the invariant -----

  /** `add_user` keeps the invariant exactly when it does not leave an older user of that id in another tile. */
  lemma AddKeepsInvariantExactly(w: WorldState, a: Table, user: User)
    requires Represents(w, a)
    ensures WorldInv(AddUserTo(w, user)) <==> AddIsClean(a, user)
  {
    if AddIsClean(a, user) {
      AddSimulates(w, a, user);
      RepresentsInv(AddUserTo(w, user), a[user.id := user]);
    }
    if Agrees(AddUserTo(w, user)) {
      AgreesIsClean(w, a, user);
    }
  }

  lemma AgreesIsClean(w: WorldState, a: Table, user: User)
    requires Represents(w, a) && Agrees(AddUserTo(w, user))
    ensures AddIsClean(a, user)
  {
    if user.id in a && Tiled(a[user.id].position) {
      var oldTag := Pos2MapTag(a[user.id].position);
      RetileAt(a, user.id);
      if oldTag != Pos2MapTag(user.position) {
        AgreesAt(AddUserTo(w, user), oldTag, user.id);
      }
    }
  }

  lemma AgreesAt(w: WorldState, t: MapTag, id: UserId)
    requires Agrees(w) && t in w.maps && id in w.maps[t]
    ensures id in w.users && w.users[id].position == w.maps[t][id].position
  {
  }

  lemma CornersDiffer()
    ensures Tiled(Vector2(1.0, 1.0)) && Pos2MapTag(Vector2(1.0, 1.0)) != Pos2MapTag(Vector2(-1.0, -1.0))
  {
    LenInWorld(1.0);
    LenInWorld(-1.0);
    TiledExactly(Vector2(1.0, 1.0));
  }

  lemma OtherTileBreaksInvariant(w: WorldState, first: User, second: User)
    requires WorldInv(w) && first.id !in w.users && second.id == first.id
    requires Tiled(first.position) && Pos2MapTag(first.position) != Pos2MapTag(second.position)
    ensures var w1 := AddUserTo(w, first);
            WorldInv(w1) && !WorldInv(AddUserTo(w1, second))
  {
    var table := TableOf(w);
    InvRepresents(w);
    AddSimulates(w, table, first);
    RepresentsInv(AddUserTo(w, first), table[first.id := first]);
    AddKeepsInvariantExactly(AddUserTo(w, first), table[first.id := first], second);
  }

  /** It does happen, in every world: a second user of the same id in another tile leaves the first one behind. */
  lemma ReplacedUserStaysBehind(w: WorldState, id: UserId, velocity: Velocity, money: U64)
    requires WorldInv(w) && id !in w.users
    ensures var w1 := AddUserTo(w, User(id, Vector2(1.0, 1.0), velocity, money));
            var w2 := AddUserTo(w1, User(id, Vector2(-1.0, -1.0), velocity, money));
            WorldInv(w1) && !WorldInv(w2)
  {
    CornersDiffer();
    OtherTileBreaksInvariant(w, User(id, Vector2(1.0, 1.0), velocity, money),
                             User(id, Vector2(-1.0, -1.0), velocity, money));
  }

  // ----- runs -----

  ghost function WorldRun(conf: Config, w: WorldState, ops: seq<Op>): (r: (WorldState, seq<Answer>))
    decreases |ops|
  {
    if ops == [] then (w, []) else
      var (w1, answer) := WorldStep(conf, w, ops[0]);
      var (w2, answers) := WorldRun(conf, w1, ops[1..]);
      (w2, [answer] + answers)
  }

  function TableRun(conf: Config, a: Table, ops: seq<Op>): (r: (Table, seq<Answer>))
    decreases |ops|
  {
    if ops == [] then (a, []) else
      var (a1, answer) := TableStep(conf, a, ops[0]);
      var (a2, answers) := TableRun(conf, a1, ops[1..]);
      (a2, [answer] + answers)
  }

  ghost predicate CleanRun(conf: Config, a: Table, ops: seq<Op>)
    decreases |ops|
  {
    ops == [] || (OpIsClean(a, ops[0]) && CleanRun(conf, TableStep(conf, a, ops[0]).0, ops[1..]))
  }

  /** Over any sequence of operations the tiled world and the flat table give the same answers, and at
      the end the world still stands for the table; no position is excluded. */
  lemma {:induction false} RunSimulates(conf: Config, w: WorldState, a: Table, ops: seq<Op>)
    requires Represents(w, a) && CleanRun(conf, a, ops)
    ensures WorldRun(conf, w, ops).1 == TableRun(conf, a, ops).1
    ensures Represents(WorldRun(conf, w, ops).0, TableRun(conf, a, ops).0)
    decreases |ops|
  {
    if ops != [] {
      StepSimulates(conf, w, a, ops[0]);
      RunSimulates(conf, WorldStep(conf, w, ops[0]).0, TableStep(conf, a, ops[0]).0, ops[1..]);
    }
  }

  // ----- the naive world, which knows nothing of tiles -----

  function NaiveStep(conf: Config, a: Table, op: Op): (Table, Answer) {
    match op
    case Add(user) => (a[user.id := user], Done)
    case Remove(id) => (a - {id}, Done)
    case SetVelocity(id, velocity) => (if id in a then a[id := a[id].(velocity := velocity)] else a, Done)
    case Aoe(id, radius, money) =>
      if radius > conf.maxAoeRadius || id !in a then (a, Done)
      else (Pay(a, Hits(a, id, a[id].position, radius), money), Done)
    case Tick => (ShiftAll(a, conf.tickTime), Done)
    case Query(scope) => (a, Found(Scan(a, scope)))
  }

  function NaiveRun(conf: Config, a: Table, ops: seq<Op>): (r: (Table, seq<Answer>))
    decreases |ops|
  {
    if ops == [] then (a, []) else
      var (a1, answer) := NaiveStep(conf, a, ops[0]);
      var (a2, answers) := NaiveRun(conf, a1, ops[1..]);
      (a2, [answer] + answers)
  }

  predicate AllTiled(a: Table) {
    forall id | id in a :: Tiled(a[id].position)
  }

  /** No position added or reached by a tick of the naive run lacks a tile. */
  ghost predicate StaysTiled(conf: Config, a: Table, ops: seq<Op>)
    decreases |ops|
  {
    AllTiled(a) && (ops == [] || StaysTiled(conf, NaiveStep(conf, a, ops[0]).0, ops[1..]))
  }

  /** Every user is added under an id that is not in use. */
  ghost predicate FreshIds(conf: Config, a: Table, ops: seq<Op>)
    decreases |ops|
  {
    ops == [] ||
    ((ops[0].Add? ==> ops[0].user.id !in a) && FreshIds(conf, NaiveStep(conf, a, ops[0]).0, ops[1..]))
  }

  lemma PlacedAll(a: Table)
    ensures Placed(a) == a <==> AllTiled(a)
  {
    if Placed(a) == a {
      forall id | id in a ensures Tiled(a[id].position) {
        assert id in Placed(a);
      }
    }
  }

  /** Where an operation of the tiled world does what it would do without tiles. */
  ghost predicate InSync(conf: Config, a: Table, op: Op) {
    match op
    case Remove(id) => id in a ==> Tiled(a[id].position)
    case Aoe(id, radius, money) =>
      money != 0 && radius <= conf.maxAoeRadius && id in a ==>
        forall v | v in a && v != id && !Tiled(a[v].position) :: !WithinRadius(a[v].position, a[id].position, radius)
    case Tick => AllTiled(a) && AllTiled(ShiftAll(a, conf.tickTime))
    case Query(scope) => forall v | v in a && !Tiled(a[v].position) :: !scope.Contains(a[v].position)
    case _ => true
  }

  lemma TickExactlyNaive(conf: Config, a: Table)
    ensures TableStep(conf, a, Tick) == NaiveStep(conf, a, Tick) <==> InSync(conf, a, Tick)
  {
    var naive := ShiftAll(a, conf.tickTime);
    var tiled := Placed(ShiftAll(Placed(a), conf.tickTime));
    PlacedAll(a);
    PlacedAll(naive);
    assert tiled.Keys <= Placed(a).Keys <= a.Keys;
    if tiled == naive {
      assert Placed(a).Keys == a.Keys;
      assert Placed(a) == a;
    }
  }

  lemma QueryExactlyNaive(conf: Config, a: Table, scope: RectScope)
    requires Keyed(a)
    ensures TableStep(conf, a, Query(scope)) == NaiveStep(conf, a, Query(scope)) <==> InSync(conf, a, Query(scope))
  {
    if InSync(conf, a, Query(scope)) {
      forall u | u in Scan(a, scope) ensures u in Scan(Placed(a), scope) {
        assert u == Placed(a)[u.id];
      }
      forall u | u in Scan(Placed(a), scope) ensures u in Scan(a, scope) {
        assert u == a[u.id];
      }
      assert Scan(Placed(a), scope) == Scan(a, scope);
    } else {
      var v :| v in a && !Tiled(a[v].position) && scope.Contains(a[v].position);
      assert a[v] in Scan(a, scope) && a[v] !in Scan(Placed(a), scope);
    }
  }

  lemma PayExactly(a: Table, hits: set<UserId>, more: set<UserId>, money: U64)
    requires hits <= more <= a.Keys
    ensures Pay(a, hits, money) == Pay(a, more, money) <==> money == 0 || hits == more
  {
    if money != 0 && hits != more {
      var id :| id in more && id !in hits;
      assert Pay(a, more, money)[id] == Credit(a[id], money) && Pay(a, hits, money)[id] == a[id];
      assert Credit(a[id], money).money != a[id].money;
    }
  }

  lemma AoeExactlyNaive(conf: Config, a: Table, id: UserId, radius: real, money: U64)
    ensures TableStep(conf, a, Aoe(id, radius, money)) == NaiveStep(conf, a, Aoe(id, radius, money)) <==>
            InSync(conf, a, Aoe(id, radius, money))
  {
    if radius <= conf.maxAoeRadius && id in a {
      var hits, more := Hits(Placed(a), id, a[id].position, radius), Hits(a, id, a[id].position, radius);
      PayExactly(a, hits, more, money);
      if hits == more {
        forall v | v in a && v != id && !Tiled(a[v].position) ensures v !in more {
          assert v !in hits;
        }
      }
    }
  }

  /** The tiled world does what a table without tiles would do, exactly in these cases: the user to be removed has
      a tile; nobody without one is in the rectangle or in the circle; everybody has one before and after a tick. */
  lemma StepIsNaiveExactly(conf: Config, a: Table, op: Op)
    requires Keyed(a)
    ensures TableStep(conf, a, op) == NaiveStep(conf, a, op) <==> InSync(conf, a, op)
  {
    match op {
      case Remove(id) =>
        if id !in a {
          assert a - {id} == a;
        }
      case Aoe(id, radius, money) => AoeExactlyNaive(conf, a, id, radius, money);
      case Tick => TickExactlyNaive(conf, a);
      case Query(scope) => QueryExactlyNaive(conf, a, scope);
      case _ =>
    }
  }

  lemma NaiveKeepsKeyed(conf: Config, a: Table, op: Op)
    requires Keyed(a)
    ensures Keyed(NaiveStep(conf, a, op).0)
  {
  }

  /** Every operation of the naive run is in sync. */
  ghost predicate StaysInSync(conf: Config, a: Table, ops: seq<Op>)
    decreases |ops|
  {
    ops == [] || (InSync(conf, a, ops[0]) && StaysInSync(conf, NaiveStep(conf, a, ops[0]).0, ops[1..]))
  }

  /** At every point of the naive run the tiled world would do the same. */
  ghost predicate NeverDiffers(conf: Config, a: Table, ops: seq<Op>)
    decreases |ops|
  {
    ops == [] ||
    (TableStep(conf, a, ops[0]) == NaiveStep(conf, a, ops[0]) &&
     NeverDiffers(conf, NaiveStep(conf, a, ops[0]).0, ops[1..]))
  }

  lemma {:induction false} NeverDiffersExactly(conf: Config, a: Table, ops: seq<Op>)
    requires Keyed(a)
    ensures NeverDiffers(conf, a, ops) <==> StaysInSync(conf, a, ops)
    decreases |ops|
  {
    if ops != [] {
      StepIsNaiveExactly(conf, a, ops[0]);
      NaiveKeepsKeyed(conf, a, ops[0]);
      NeverDiffersExactly(conf, NaiveStep(conf, a, ops[0]).0, ops[1..]);
    }
  }

  lemma {:induction false} RunIsNaive(conf: Config, a: Table, ops: seq<Op>)
    requires Keyed(a) && StaysInSync(conf, a, ops) && FreshIds(conf, a, ops)
    ensures TableRun(conf, a, ops) == NaiveRun(conf, a, ops) && CleanRun(conf, a, ops)
    decreases |ops|
  {
    if ops != [] {
      StepIsNaiveExactly(conf, a, ops[0]);
      NaiveKeepsKeyed(conf, a, ops[0]);
      RunIsNaive(conf, NaiveStep(conf, a, ops[0]).0, ops[1..]);
    }
  }

  lemma {:induction false} TiledIsInSync(conf: Config, a: Table, ops: seq<Op>)
    requires StaysTiled(conf, a, ops)
    ensures StaysInSync(conf, a, ops)
    decreases |ops|
  {
    if ops != [] {
      var a' := NaiveStep(conf, a, ops[0]).0;
      assert StaysTiled(conf, a', ops[1..]);
      TiledIsInSync(conf, a', ops[1..]);
    }
  }

  lemma EmptyWorldRepresents()
    ensures Represents(EMPTY_WORLD, map[])
  {
    SameTiles(EMPTY_TILES, Retile(map[]));
  }

  /** From a new world on, as long as every operation is in sync, nobody can tell the tiled world from a plain
      table of users with full scans. */
  lemma TiledWorldIsNaiveWorld(conf: Config, ops: seq<Op>)
    requires StaysInSync(conf, map[], ops) && FreshIds(conf, map[], ops)
    ensures WorldRun(conf, EMPTY_WORLD, ops).1 == NaiveRun(conf, map[], ops).1
    ensures Represents(WorldRun(conf, EMPTY_WORLD, ops).0, NaiveRun(conf, map[], ops).0)
    ensures WorldInv(WorldRun(conf, EMPTY_WORLD, ops).0)
  {
    EmptyWorldRepresents();
    RunIsNaive(conf, map[], ops);
    RunSimulates(conf, EMPTY_WORLD, map[], ops);
    RepresentsInv(WorldRun(conf, EMPTY_WORLD, ops).0, NaiveRun(conf, map[], ops).0);
  }

  /** In particular as long as every position added or reached by a tick has a tile. */
  lemma TiledPositionsSuffice(conf: Config, ops: seq<Op>)
    requires StaysTiled(conf, map[], ops) && FreshIds(conf, map[], ops)
    ensures WorldRun(conf, EMPTY_WORLD, ops).1 == NaiveRun(conf, map[], ops).1
    ensures Represents(WorldRun(conf, EMPTY_WORLD, ops).0, NaiveRun(conf, map[], ops).0)
  {
    TiledIsInSync(conf, map[], ops);
    TiledWorldIsNaiveWorld(conf, ops);
  }

  predicate Finds(answer: Answer, user: User) {
    answer.Found? && user in answer.users
  }

  /** What happens to a user added where there is no tile, for instance on the negative x axis: no query finds
      it, its removal panics, and the next tick forgets it, while the naive world finds it and removes it. */
  lemma UntiledUserIsLost(conf: Config, w: WorldState, a: Table, user: User, scope: RectScope)
    requires Represents(w, a) && user.id !in a
    requires !Tiled(user.position) && scope.Contains(user.position)
    ensures var w1 := WorldStep(conf, w, Add(user)).0;
            var a1 := NaiveStep(conf, a, Add(user)).0;
            && WorldStep(conf, w1, Query(scope)).1 == WorldStep(conf, w, Query(scope)).1
            && !Finds(WorldStep(conf, w1, Query(scope)).1, user)
            && WorldStep(conf, w1, Remove(user.id)) == (w1, Panicked)
            && user.id !in WorldStep(conf, w1, Tick).0.users
            && Finds(NaiveStep(conf, a1, Query(scope)).1, user)
            && NaiveStep(conf, a1, Remove(user.id)) == (a, Done)
  {
    var w1 := WorldStep(conf, w, Add(user)).0;
    var a1 := a[user.id := user];
    UntiledUserOfTable(conf, a, user, scope);
    StepSimulates(conf, w, a, Add(user));
    StepSimulates(conf, w, a, Query(scope));
    StepSimulates(conf, w1, a1, Query(scope));
    StepSimulates(conf, w1, a1, Tick);
    RemovePanics(w1, a1, user.id);
  }

  lemma UntiledUserOfTable(conf: Config, a: Table, user: User, scope: RectScope)
    requires Keyed(a) && user.id !in a && !Tiled(user.position) && scope.Contains(user.position)
    ensures var a1 := a[user.id := user];
            && TableStep(conf, a1, Query(scope)).1 == TableStep(conf, a, Query(scope)).1
            && !Finds(TableStep(conf, a1, Query(scope)).1, user)
            && user.id !in TableStep(conf, a1, Tick).0
            && Finds(NaiveStep(conf, a1, Query(scope)).1, user)
            && NaiveStep(conf, a1, Remove(user.id)) == (a, Done)
  {
    var a1 := a[user.id := user];
    assert Placed(a1) == Placed(a);
    assert a1[user.id] in Scan(a1, scope);
    assert a1 - {user.id} == a;
  }

  lemma RemovePanics(w: WorldState, a: Table, id: UserId)
    requires Represents(w, a) && id in a && !Tiled(a[id].position)
    ensures RemoveUserFrom(w, id) == (w, true)
  {
    RetileAt(a, id);
  }

  /** The whole negative x axis is such a place. */
  lemma NegativeAxisIsUntiled(x: real)
    requires x < 0.0
    ensures !Tiled(Vector2(x, 0.0))
  {
    TiledExactly(Vector2(x, 0.0));
  }
}
