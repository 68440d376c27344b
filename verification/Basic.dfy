/** Value types of the game world. Rust owns users by value, so a user is a value here too;
    f32 coordinates are modelled by reals. */
module Basic {
  /** The i64 that names a user; ids are only ever compared. */
  type UserId(==, !new)

  const U64_SIZE: nat := 0x1_0000_0000_0000_0000
  type U64 = n: nat | n < U64_SIZE

  /** Movement is clamped to a square of this half-width. */
  const WORLD_LIMIT: real := 1000000.0

  datatype Option<+T> = None | Some(value: T)

  datatype Vector2 = Vector2(x: real, y: real) {
    predicate IsZero() {
      x == 0.0 && y == 0.0
    }
  }

  datatype Velocity = Velocity(direction: Vector2, len: real)

  datatype User = User(id: UserId, position: Vector2, velocity: Velocity, money: U64)

  /** A rectangle given by two corners; nothing forces `leftUp` to lie left of or above `rightDown`. */
  datatype RectScope = RectScope(leftUp: Vector2, rightDown: Vector2) {
    predicate Contains(p: Vector2) {
      leftUp.x <= p.x <= rightDown.x && rightDown.y <= p.y <= leftUp.y
    }
  }

  predicate InSquare(p: Vector2) {
    -WORLD_LIMIT <= p.x <= WORLD_LIMIT && -WORLD_LIMIT <= p.y <= WORLD_LIMIT
  }

  function Clamp(c: real): (r: real)
    ensures -WORLD_LIMIT <= r <= WORLD_LIMIT
    ensures -WORLD_LIMIT <= c <= WORLD_LIMIT ==> r == c
  {
    if c > WORLD_LIMIT then WORLD_LIMIT else if c < -WORLD_LIMIT then -WORLD_LIMIT else c
  }

  /** Where a user would get in the given time if the world had no bounds. */
  function Target(user: User, time: real): Vector2 {
    var v := user.velocity;
    Vector2(user.position.x + v.direction.x * v.len * time, user.position.y + v.direction.y * v.len * time)
  }

  /** One movement step. A user without direction is not touched, not even clamped. */
  function Shift(user: User, time: real): (r: User)
    ensures r == user.(position := r.position)
    ensures user.velocity.direction.IsZero() ==> r == user
    ensures !user.velocity.direction.IsZero() ==> InSquare(r.position)
    ensures !user.velocity.direction.IsZero() && InSquare(Target(user, time)) ==> r.position == Target(user, time)
  {
    if user.velocity.direction.IsZero() then
      user
    else
      var target := Target(user, time);
      user.(position := Vector2(Clamp(target.x), Clamp(target.y)))
  }

  /** A moving user that ends inside the square has gone in its direction: the displacement is the direction times
      speed and time, no more and no less, and not the other way. */
  lemma ShiftFollowsVelocity(user: User, time: real)
    requires !user.velocity.direction.IsZero()
    requires -WORLD_LIMIT < Shift(user, time).position.x < WORLD_LIMIT
    requires -WORLD_LIMIT < Shift(user, time).position.y < WORLD_LIMIT
    ensures var end := Shift(user, time).position;
            var dx, dy := end.x - user.position.x, end.y - user.position.y;
            var d := user.velocity.direction;
            && dx * d.y == dy * d.x
            && dx * d.x + dy * d.y == user.velocity.len * time * (d.x * d.x + d.y * d.y)
  {
    TargetFollowsVelocity(user, time);
  }

  lemma TargetFollowsVelocity(user: User, time: real)
    ensures var end := Target(user, time);
            var dx, dy := end.x - user.position.x, end.y - user.position.y;
            var d := user.velocity.direction;
            && dx * d.y == dy * d.x
            && dx * d.x + dy * d.y == user.velocity.len * time * (d.x * d.x + d.y * d.y)
  {
    var d, s := user.velocity.direction, user.velocity.len * time;
    assert d.x * user.velocity.len * time == d.x * s;
    assert d.y * user.velocity.len * time == d.y * s;
    Proportional(d.x, d.y, s);
  }

  lemma Proportional(x: real, y: real, s: real)
    ensures x * s * y == y * s * x
    ensures x * s * x + y * s * y == s * (x * x + y * y)
  {
  }

  /** A user at (100,100) walking right at speed 10 is at (100.2,100) after 0.02 seconds. */
  lemma WalkRight(id: UserId, money: U64)
    ensures Shift(User(id, Vector2(100.0, 100.0), Velocity(Vector2(1.0, 0.0), 10.0), money), 0.02).position ==
            Vector2(100.2, 100.0)
  {
  }

  function Distance(a: real, b: real): real {
    if a <= b then b - a else a - b
  }

  /** A moving user ends at the point of the square that is nearest to its target, along both axes. */
  lemma ShiftIsNearest(user: User, time: real, p: Vector2)
    requires !user.velocity.direction.IsZero() && InSquare(p)
    ensures var target := Target(user, time);
            var end := Shift(user, time).position;
            Distance(end.x, target.x) <= Distance(p.x, target.x) && Distance(end.y, target.y) <= Distance(p.y, target.y)
  {
  }

  /** u64 addition as a release build does it: it wraps around. */
  function Credit(user: User, amount: U64): (r: User)
    ensures r == user.(money := r.money)
    ensures r.money == user.money + amount || r.money == user.money + amount - U64_SIZE
  {
    user.(money := (user.money + amount) % U64_SIZE)
  }

  /** HashMap iteration: the next key is any of those not visited yet. */
  method NextKey<K(==)>(left: set<K>) returns (key: K)
    requires left != {}
    ensures key in left
  {
    key :| key in left;
  }

  /** Progress of a loop over a set: what has been visited grows by the key just taken. */
  lemma Visited<K>(all: set<K>, left: set<K>, key: K, before: set<K>)
    requires key in left && left <= all
    ensures all - (left - {key}) == (all - left) + {key}
    ensures before + (all - (left - {key})) == before + (all - left) + {key}
  {
  }

  ghost function Pick<K>(s: set<K>): (key: K)
    requires s != {}
    ensures key in s
  {
    var key :| key in s; key
  }

  ghost predicate Distinct<T(!new)>(s: seq<T>) {
    forall i, j | 0 <= i < j < |s| :: s[i] != s[j]
  }

  function Elements<T(==)>(s: seq<T>): set<T> {
    set x | x in s
  }

  /** The list holds each element of the set once and nothing else. */
  ghost predicate Enumerates<T(!new)>(list: seq<T>, elements: set<T>) {
    Distinct(list) && forall x :: x in list <==> x in elements
  }
}
