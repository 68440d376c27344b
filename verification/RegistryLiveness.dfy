/** Who stays listed: a sweep drops exactly the nodes that have not been heard from for more than five seconds. */
module RegistryLiveness {
  import opened Basic
  import opened LoadBalance
  import opened Registry
  import opened RegistryProtocol

  // ----- one report or registration, then one sweep -----

  /** After a report a sweep keeps the node exactly when its clock shows at most 5000 milliseconds more, and then
      with the reported load. */
  lemma ReportKeepsListedExactly(reg: Reg, k: string, load: StateInfo, now: int, clock: string -> int)
    requires k in reg.nodeList && k in reg.nodeState
    ensures var heard := Reported(reg, k, load, now);
            var swept := Swept(heard, Dead(heard.nodeState, clock));
            && (k in swept.nodeList <==> clock(k) <= now + 5000)
            && (k in swept.nodeState <==> clock(k) <= now + 5000)
            && (k in swept.nodeState ==> swept.nodeState[k].info == load)
    ensures forall j | j in reg.nodeState && j != k ::
              j in Reported(reg, k, load, now).nodeState && Reported(reg, k, load, now).nodeState[j] == reg.nodeState[j]
  {
  }

  /** A registration counts as a first report, of a node with load 0.9. */
  lemma RegistrationKeepsListedExactly(reg: Reg, k: string, info: NodeInfo, peer: Peer, now: int, clock: string -> int)
    requires Registered(reg, k, info, peer, now).1 == Success
    ensures var heard := Registered(reg, k, info, peer, now).0;
            var swept := Swept(heard, Dead(heard.nodeState, clock));
            && (k in swept.nodeList <==> clock(k) <= now + 5000)
            && (k in swept.nodeState <==> clock(k) <= now + 5000)
            && (k in swept.nodeState ==> swept.nodeState[k].info == StateInfo(0, 0, 0.9))
  {
  }

  /** A node that nobody knows is not listed by reporting. */
  lemma UnknownReportIsIgnored(reg: Reg, k: string, load: StateInfo, now: int)
    requires k !in reg.nodeState
    ensures Reported(reg, k, load, now) == reg
  {
  }

  /** A slave that has just registered can be offered to clients at once: with it among the others the balancer has
      an answer (`LoadBalance.GetLoadBalanceConnection`). */
  lemma FreshSlaveIsOffered(reg: Reg, k: string, info: NodeInfo, peer: Peer, now: int)
    requires Registered(reg, k, info, peer, now).1 == Success && info.nodeType == Slave && k == info.GetKey()
    requires ElectionReady(reg) && reg.masterNode.Some? && reg.masterNode.value.GetKey() in reg.nodeList
    ensures var after := Registered(reg, k, info, peer, now).0;
            var m := reg.masterNode.value;
            && after.masterNode == Some(m) && |after.nodeList| > 1
            && OthersHaveState(after.nodeState, after.nodeList, m)
            && k in after.nodeState - {m.GetKey()} && after.nodeState[k].info.loadFactor < 1.0
  {
    ReadyBalances(reg);
    OneMoreNode(reg.nodeState, reg.nodeList, reg.masterNode.value, k, info, NodeState(now, UNREPORTED));
    TwoKeys(reg.nodeList[k := info], k, reg.masterNode.value.GetKey());
  }

  lemma OneMoreNode(states: StateTable, nodes: NodeTable, master: NodeInfo, k: string, info: NodeInfo, state: NodeState)
    requires OthersHaveState(states, nodes, master) && k == info.GetKey() && k != master.GetKey()
    ensures OthersHaveState(states[k := state], nodes[k := info], master)
  {
    var key := master.GetKey();
    assert (nodes[k := info] - {key}).Keys == (nodes - {key}).Keys + {k};
    assert (states[k := state] - {key}).Keys == (states - {key}).Keys + {k};
  }

  lemma TwoKeys(nodes: NodeTable, a: string, b: string)
    requires a in nodes && b in nodes && a != b
    ensures |nodes| > 1
  {
    assert nodes.Keys == nodes.Keys - {a, b} + {a, b};
    assert |nodes| == |nodes.Keys|;
  }

  // ----- whole runs -----

  type Clock = string -> int

  /** The sweeps of the run drop the nodes that their clocks find dead. `clocks[i]` is read in step i only. */
  predicate SweepsByClock(s: State, steps: seq<Step>, clocks: seq<Clock>)
    requires |clocks| == |steps|
    decreases |steps|
  {
    steps == [] ||
    ((steps[0].Sweep? ==> steps[0].dead == Dead(s.reg.nodeState, clocks[0]))
     && SweepsByClock(Apply(s, steps[0]), steps[1..], clocks[1..]))
  }

  /** The step lets the registry hear from node k, and when. */
  function Heard(s: State, step: Step, k: string): Option<int> {
    match step
    case Report(key, _, now) => if key == k then Some(now) else None
    case Enlist(t, _, now) => if Enabled(s, step) && s.registrations[t].key == k then Some(now) else None
    case Register(key, info, _, now) =>
      if key == k && Registered(s.reg, key, info, "", now).1 == Success && Enabled(s, step) then Some(now) else None
    case _ => None
  }

  function LastHeard(s: State, step: Step, k: string, last: int): int {
    match Heard(s, step, k)
    case None => last
    case Some(now) => now
  }

  /** The load that was reported last, or 0.9 since the last registration. */
  function LastLoad(s: State, step: Step, k: string, load: StateInfo): StateInfo {
    if Heard(s, step, k).None? then load
    else if step.Report? then step.state
    else StateInfo(0, 0, 0.9)
  }

  predicate IsListed(s: State, k: string, load: StateInfo) {
    k in s.reg.nodeList && k in s.reg.nodeState && s.reg.nodeState[k].info == load
  }

  /** At every point of the run node k is listed with the load it has reported last. */
  predicate StaysListed(s: State, steps: seq<Step>, k: string, load: StateInfo)
    decreases |steps|
  {
    IsListed(s, k, load) &&
    (steps == [] || StaysListed(Apply(s, steps[0]), steps[1..], k, LastLoad(s, steps[0], k, load)))
  }

  /** No sweep of the run takes place more than 5000 milliseconds after node k was last heard from. */
  predicate HeardInTime(s: State, steps: seq<Step>, clocks: seq<Clock>, k: string, last: int)
    requires |clocks| == |steps|
    decreases |steps|
  {
    steps == [] ||
    ((steps[0].Sweep? && Enabled(s, steps[0]) ==> clocks[0](k) <= last + 5000)
     && HeardInTime(Apply(s, steps[0]), steps[1..], clocks[1..], k, LastHeard(s, steps[0], k, last)))
  }

  lemma ListedStepExactly(s: State, step: Step, clock: Clock, k: string, last: int, load: StateInfo)
    requires IsListed(s, k, load) && s.reg.nodeState[k].lastHeartbeat == last
    requires step.Sweep? ==> step.dead == Dead(s.reg.nodeState, clock)
    ensures var s' := Apply(s, step);
            && (IsListed(s', k, LastLoad(s, step, k, load)) <==>
                  (step.Sweep? && Enabled(s, step) ==> clock(k) <= last + 5000))
            && (k in s'.reg.nodeState ==> s'.reg.nodeState[k].lastHeartbeat == LastHeard(s, step, k, last))
  {
  }

  lemma {:induction false} StaysListedFrom(s: State, steps: seq<Step>, clocks: seq<Clock>, k: string, last: int,
                                           load: StateInfo)
    requires |clocks| == |steps| && SweepsByClock(s, steps, clocks)
    requires IsListed(s, k, load) && s.reg.nodeState[k].lastHeartbeat == last
    ensures StaysListed(s, steps, k, load) <==> HeardInTime(s, steps, clocks, k, last)
    decreases |steps|
  {
    if steps != [] {
      var s' := Apply(s, steps[0]);
      var load' := LastLoad(s, steps[0], k, load);
      ListedStepExactly(s, steps[0], clocks[0], k, last, load);
      if IsListed(s', k, load') {
        StaysListedFrom(s', steps[1..], clocks[1..], k, LastHeard(s, steps[0], k, last), load');
      }
    }
  }

  /** From the moment a node has registered, whatever else happens and however the lock scopes interleave: it is
      listed at every point of the run, with the load it has reported last, exactly when no sweep takes place more
      than 5000 milliseconds after its last report or registration. */
  lemma StaysListedExactly(s: State, first: Step, steps: seq<Step>, clocks: seq<Clock>, k: string)
    requires Heard(s, first, k).Some? && !first.Report?
    requires |clocks| == |steps| && SweepsByClock(Apply(s, first), steps, clocks)
    ensures StaysListed(Apply(s, first), steps, k, StateInfo(0, 0, 0.9)) <==>
            HeardInTime(Apply(s, first), steps, clocks, k, Heard(s, first, k).value)
  {
    StaysListedFrom(Apply(s, first), steps, clocks, k, Heard(s, first, k).value, StateInfo(0, 0, 0.9));
  }
}
