/** The three mutexes of a game server and the tasks that take them: nobody ever waits in a circle. */
module Locks {

  type TaskId(==, !new)

  datatype Lock = HeartbeatMap | Context | World {
    function Rank(): nat {
      match this
      case HeartbeatMap => 0
      case Context => 1
      case World => 2
    }
  }

  datatype Action = Acquire(lock: Lock) | Release(lock: Lock)

  type Program = seq<Action>

  /** What one round of each kind of task does with the locks. */
  datatype Kind =
    | HandleInWorld
    | HandleByForwarding
    | MonitorClients(offline: nat)
    | UpdateHeartbeat
    | TickMaster
    | TickSlave
    | TickSingle
    | SyncWorld
    | UseContext

  function Guarded(lock: Lock, inside: Program): Program {
    [Acquire(lock)] + inside + [Release(lock)]
  }

  function RemoveOffline(count: nat): Program {
    if count == 0 then [] else Guarded(Context, Guarded(World, [])) + RemoveOffline(count - 1)
  }

  function ProgramOf(kind: Kind): Program {
    match kind
    case HandleInWorld => Guarded(Context, Guarded(World, []))
    case HandleByForwarding => Guarded(Context, [])
    case MonitorClients(offline) => Guarded(HeartbeatMap, RemoveOffline(offline) + Guarded(World, []))
    case UpdateHeartbeat => Guarded(HeartbeatMap, [])
    case TickMaster => Guarded(Context, Guarded(World, []) + Guarded(World, []))
    case TickSlave => Guarded(Context, Guarded(World, []))
    case TickSingle => Guarded(World, [])
    case SyncWorld => Guarded(World, [])
    case UseContext => Guarded(Context, [])
  }

  /** A program that holds the locks `held` only ever takes locks above those it has, gives back only what it
      has, and has nothing at its end. */
  predicate Ordered(program: Program, held: set<Lock>)
    decreases |program|
  {
    if program == [] then held == {} else
    match program[0]
    case Acquire(l) => (forall h | h in held :: h.Rank() < l.Rank()) && Ordered(program[1..], held + {l})
    case Release(l) => l in held && Ordered(program[1..], held - {l})
  }

  lemma {:induction false} GuardedThen(lock: Lock, inside: Program, rest: Program, held: set<Lock>)
    requires forall h | h in held :: h.Rank() < lock.Rank()
    requires Ordered(inside + ([Release(lock)] + rest), held + {lock})
    ensures Ordered(Guarded(lock, inside) + rest, held)
  {
    assert (Guarded(lock, inside) + rest)[1..] == inside + ([Release(lock)] + rest);
  }

  lemma ReleaseThen(lock: Lock, rest: Program, held: set<Lock>)
    requires lock in held && Ordered(rest, held - {lock})
    ensures Ordered([Release(lock)] + rest, held)
  {
    assert ([Release(lock)] + rest)[1..] == rest;
  }

  lemma GuardAlone(lock: Lock, rest: Program, held: set<Lock>)
    requires forall h | h in held :: h.Rank() < lock.Rank()
    requires Ordered(rest, held)
    ensures Ordered(Guarded(lock, []) + rest, held)
  {
    assert held + {lock} - {lock} == held;
    ReleaseThen(lock, rest, held + {lock});
    assert [] + ([Release(lock)] + rest) == [Release(lock)] + rest;
    GuardedThen(lock, [], rest, held);
  }

  lemma ContextAndWorld(rest: Program, held: set<Lock>)
    requires forall h | h in held :: h.Rank() < Context.Rank()
    requires Ordered(rest, held)
    ensures Ordered(Guarded(Context, Guarded(World, [])) + rest, held)
  {
    assert held + {Context} - {Context} == held;
    ReleaseThen(Context, rest, held + {Context});
    GuardAlone(World, [Release(Context)] + rest, held + {Context});
    GuardedThen(Context, Guarded(World, []), rest, held);
  }

  lemma {:induction false} RemoveOfflineOrdered(count: nat, rest: Program, held: set<Lock>)
    requires forall h | h in held :: h.Rank() < Context.Rank()
    requires Ordered(rest, held)
    ensures Ordered(RemoveOffline(count) + rest, held)
  {
    if count == 0 {
      assert RemoveOffline(count) + rest == rest;
    } else {
      RemoveOfflineOrdered(count - 1, rest, held);
      ContextAndWorld(RemoveOffline(count - 1) + rest, held);
      assert RemoveOffline(count) + rest ==
             Guarded(Context, Guarded(World, [])) + (RemoveOffline(count - 1) + rest);
    }
  }

  lemma MonitorIsOrdered(offline: nat)
    ensures Ordered(ProgramOf(MonitorClients(offline)) + [], {})
  {
    var last := [Release(HeartbeatMap)];
    ReleaseThen(HeartbeatMap, [], {HeartbeatMap});
    assert last + [] == last;
    GuardAlone(World, last, {HeartbeatMap});
    RemoveOfflineOrdered(offline, Guarded(World, []) + last, {HeartbeatMap});
    var inside := RemoveOffline(offline) + Guarded(World, []);
    assert inside + (last + []) == RemoveOffline(offline) + (Guarded(World, []) + last);
    assert {} + {HeartbeatMap} == {HeartbeatMap};
    GuardedThen(HeartbeatMap, inside, [], {});
  }

  lemma TickMasterIsOrdered()
    ensures Ordered(ProgramOf(TickMaster) + [], {})
  {
    var last := [Release(Context)];
    ReleaseThen(Context, [], {Context});
    assert last + [] == last;
    GuardAlone(World, last, {Context});
    GuardAlone(World, Guarded(World, []) + last, {Context});
    var inside := Guarded(World, []) + Guarded(World, []);
    assert inside + (last + []) == Guarded(World, []) + (Guarded(World, []) + last);
    assert {} + {Context} == {Context};
    GuardedThen(Context, inside, [], {});
  }

  /** Every task takes the locks in the order heartbeat map, context, world. */
  lemma EveryTaskIsOrdered(kind: Kind)
    ensures Ordered(ProgramOf(kind), {})
  {
    match kind {
      case MonitorClients(offline) => MonitorIsOrdered(offline);
      case TickMaster => TickMasterIsOrdered();
      case HandleInWorld => ContextAndWorld([], {});
      case TickSlave => ContextAndWorld([], {});
      case HandleByForwarding => GuardAlone(Context, [], {});
      case UseContext => GuardAlone(Context, [], {});
      case UpdateHeartbeat => GuardAlone(HeartbeatMap, [], {});
      case TickSingle => GuardAlone(World, [], {});
      case SyncWorld => GuardAlone(World, [], {});
    }
    assert ProgramOf(kind) + [] == ProgramOf(kind);
  }

  // ----- tasks side by side -----

  /** What each task still has to do, and who holds which lock. */
  datatype State = State(tasks: map<TaskId, Program>, holder: map<Lock, TaskId>)

  /** `Die` is a panic: the guards give the locks back. */
  datatype Step = Spawn(task: TaskId, kind: Kind) | Go(task: TaskId) | Die(task: TaskId)

  function HeldBy(s: State, task: TaskId): set<Lock> {
    set l | l in s.holder && s.holder[l] == task
  }

  predicate CanGo(s: State, task: TaskId) {
    && task in s.tasks && s.tasks[task] != []
    && (s.tasks[task][0].Acquire? ==> s.tasks[task][0].lock !in s.holder)
  }

  /** A step that is not possible does nothing. */
  function Apply(s: State, step: Step): State {
    match step
    case Spawn(t, kind) => if t in s.tasks then s else s.(tasks := s.tasks[t := ProgramOf(kind)])
    case Go(t) =>
      if !CanGo(s, t) then s else
      var a := s.tasks[t][0];
      State(s.tasks[t := s.tasks[t][1..]],
            if a.Acquire? then s.holder[a.lock := t] else s.holder - {a.lock})
    case Die(t) => if t !in s.tasks then s else State(s.tasks[t := []], s.holder - HeldBy(s, t))
  }

  function Run(s: State, steps: seq<Step>): State
    decreases |steps|
  {
    if steps == [] then s else Run(Apply(s, steps[0]), steps[1..])
  }

  ghost predicate LocksOk(s: State) {
    && (forall l | l in s.holder :: s.holder[l] in s.tasks)
    && (forall t | t in s.tasks :: Ordered(s.tasks[t], HeldBy(s, t)))
  }

  lemma LocksKept(s: State, step: Step)
    requires LocksOk(s)
    ensures LocksOk(Apply(s, step))
  {
    match step {
      case Spawn(t, kind) =>
        if t !in s.tasks {
          EveryTaskIsOrdered(kind);
          assert HeldBy(s, t) == {};
          forall u | u in s.tasks ensures HeldBy(Apply(s, step), u) == HeldBy(s, u) {
          }
          assert HeldBy(Apply(s, step), t) == HeldBy(s, t);
        }
      case Go(t) => GoKeeps(s, t);
      case Die(t) =>
        if t in s.tasks {
          var s' := Apply(s, step);
          assert HeldBy(s', t) == {};
          forall u | u in s.tasks && u != t ensures HeldBy(s', u) == HeldBy(s, u) {
          }
        }
    }
  }

  lemma GoKeeps(s: State, t: TaskId)
    requires LocksOk(s)
    ensures LocksOk(Apply(s, Go(t)))
  {
    if CanGo(s, t) {
      var s' := Apply(s, Go(t));
      var a := s.tasks[t][0];
      if a.Acquire? {
        assert HeldBy(s', t) == HeldBy(s, t) + {a.lock};
      } else {
        assert HeldBy(s', t) == HeldBy(s, t) - {a.lock};
        assert s.holder[a.lock] == t;
      }
      forall u | u in s.tasks && u != t ensures HeldBy(s', u) == HeldBy(s, u) {
      }
    }
  }

  /** `task` waits for a lock that `other` holds. */
  predicate WaitsFor(s: State, task: TaskId, other: TaskId) {
    && task in s.tasks && s.tasks[task] != [] && s.tasks[task][0].Acquire?
    && s.tasks[task][0].lock in s.holder && s.holder[s.tasks[task][0].lock] == other
  }

  /** The rank of the lock that a task is about to take. */
  function Wanted(s: State, task: TaskId): nat {
    if task in s.tasks && s.tasks[task] != [] then s.tasks[task][0].lock.Rank() else 0
  }

  lemma WaitsClimb(s: State, a: TaskId, b: TaskId, c: TaskId)
    requires LocksOk(s) && WaitsFor(s, a, b) && WaitsFor(s, b, c)
    ensures Wanted(s, a) < Wanted(s, b)
  {
    assert s.tasks[a][0].lock in HeldBy(s, b);
  }

  ghost predicate IsWaitChain(s: State, chain: seq<TaskId>) {
    forall i | 0 <= i < |chain| - 1 :: WaitsFor(s, chain[i], chain[i + 1])
  }

  lemma {:induction false} ChainClimbs(s: State, chain: seq<TaskId>)
    requires LocksOk(s) && IsWaitChain(s, chain) && |chain| >= 3
    ensures Wanted(s, chain[0]) < Wanted(s, chain[|chain| - 2])
    decreases |chain|
  {
    var k := |chain|;
    assert WaitsFor(s, chain[k - 3], chain[k - 2]) && WaitsFor(s, chain[k - 2], chain[k - 1]);
    WaitsClimb(s, chain[k - 3], chain[k - 2], chain[k - 1]);
    if k > 3 {
      var shorter := chain[..k - 1];
      assert IsWaitChain(s, shorter);
      ChainClimbs(s, shorter);
    }
  }

  /** No circle of tasks waiting for one another, of whatever length. */
  lemma NoWaitCycle(s: State, chain: seq<TaskId>)
    requires LocksOk(s) && |chain| >= 2 && chain[0] == chain[|chain| - 1]
    ensures !IsWaitChain(s, chain)
  {
    if IsWaitChain(s, chain) {
      assert WaitsFor(s, chain[0], chain[1]);
      var longer := chain + [chain[1]];
      assert IsWaitChain(s, longer);
      ChainClimbs(s, longer);
    }
  }

  /** Whoever waits, waits in the end for a task that can go on. */
  lemma {:induction false} SomeoneCanGo(s: State, task: TaskId) returns (other: TaskId)
    requires LocksOk(s) && task in s.tasks && s.tasks[task] != []
    ensures CanGo(s, other)
    decreases if s.tasks[task][0].Acquire? then 3 - s.tasks[task][0].lock.Rank() else 0
  {
    if CanGo(s, task) {
      other := task;
    } else {
      var next := s.holder[s.tasks[task][0].lock];
      assert WaitsFor(s, task, next);
      assert s.tasks[task][0].lock in HeldBy(s, next);
      if s.tasks[next][0].Acquire? {
        other := SomeoneCanGo(s, next);
      } else {
        other := next;
      }
    }
  }

  /** In every reachable state nobody waits in a circle, and as long as a task is unfinished some task can go on. */
  lemma {:induction false} NoDeadlock(s: State, steps: seq<Step>, task: TaskId, chain: seq<TaskId>)
    requires LocksOk(s)
    ensures var now := Run(s, steps);
            && (task in now.tasks && now.tasks[task] != [] ==> exists t :: CanGo(now, t))
            && (|chain| >= 2 && chain[0] == chain[|chain| - 1] ==> !IsWaitChain(now, chain))
    decreases |steps|
  {
    if steps == [] {
      if task in s.tasks && s.tasks[task] != [] {
        var t := SomeoneCanGo(s, task);
      }
      if |chain| >= 2 && chain[0] == chain[|chain| - 1] {
        NoWaitCycle(s, chain);
      }
    } else {
      LocksKept(s, steps[0]);
      NoDeadlock(Apply(s, steps[0]), steps[1..], task, chain);
    }
  }
}
