/** The registry centre as a step system. A registration takes and drops the lock up to four times, and any
    other step may come in between; a command to become master is answered once, at any later time. */
module RegistryProtocol {
  import opened Basic
  import opened LoadBalance
  import opened Registry

  /** Names a registration that is being handled or a command that has not been answered yet. */
  type Ticket(==, !new)

  /** `Checked`: not registered yet. `Free`: a master that has seen no other master. `Ready`: about to be listed;
      if it is a master, it has set `master_node`. */
  datatype Stage = Checked | Free | Ready

  datatype Registration = Registration(key: string, info: NodeInfo, stage: Stage)

  datatype State = State(reg: Reg, registrations: map<Ticket, Registration>, commands: map<Ticket, string>)

  datatype Step =
    | Begin(ticket: Ticket, key: string, info: NodeInfo)
    | CheckMaster(ticket: Ticket)
    | ClaimMaster(ticket: Ticket)
    | Enlist(ticket: Ticket, peer: Peer, now: int)
    | Register(key: string, info: NodeInfo, peer: Peer, now: int)
    | Report(key: string, state: StateInfo, now: int)
    | Sweep(dead: set<string>, candidate: Option<string>, ticket: Ticket)
    | Answer(ticket: Ticket, info: NodeInfo)

  /** A node registers and reports under its own key; an answer comes from the node that was commanded and
      tells that it is a master now. Which survivor is chosen is open here: `Registry.Elected` says. */
  predicate Enabled(s: State, step: Step) {
    match step
    case Begin(t, key, info) => t !in s.registrations && key == info.GetKey()
    case CheckMaster(t) => t in s.registrations && s.registrations[t].stage == Checked
    case ClaimMaster(t) => t in s.registrations && s.registrations[t].stage == Free
    case Enlist(t, peer, now) => t in s.registrations && s.registrations[t].stage == Ready
    case Register(key, info, peer, now) => key == info.GetKey()
    case Report(key, state, now) => true
    case Sweep(dead, candidate, t) =>
      && dead <= s.reg.nodeState.Keys && t !in s.commands
      && (candidate.Some? ==>
            MasterIsDead(s.reg, dead) && candidate.value in s.reg.nodeList && candidate.value !in dead)
    case Answer(t, info) => t in s.commands && info.GetKey() == s.commands[t] && info.nodeType == Master
  }

  function AfterCheck(s: State, t: Ticket, r: Registration): State {
    match r.info.nodeType
    case Master =>
      if s.reg.masterNode.Some? then s.(registrations := s.registrations - {t})
      else s.(registrations := s.registrations[t := r.(stage := Free)])
    case Slave =>
      if s.reg.masterNode.None? then s.(registrations := s.registrations - {t})
      else s.(registrations := s.registrations[t := r.(stage := Ready)])
  }

  /** A step that is not enabled does nothing. */
  function Apply(s: State, step: Step): State {
    if !Enabled(s, step) then s else
    match step
    case Begin(t, key, info) =>
      if key in s.reg.nodeList then s
      else s.(registrations := s.registrations[t := Registration(key, info, Checked)])
    case CheckMaster(t) => AfterCheck(s, t, s.registrations[t])
    case ClaimMaster(t) =>
      var r := s.registrations[t];
      s.(reg := s.reg.(masterNode := Some(r.info)), registrations := s.registrations[t := r.(stage := Ready)])
    case Enlist(t, peer, now) =>
      var r := s.registrations[t];
      s.(reg := WithNode(s.reg, r.key, r.info, peer, now), registrations := s.registrations - {t})
    case Register(key, info, peer, now) => s.(reg := Registered(s.reg, key, info, peer, now).0)
    case Report(key, state, now) => s.(reg := Reported(s.reg, key, state, now))
    case Sweep(dead, candidate, t) =>
      s.(reg := Swept(s.reg, dead),
         commands := if candidate.Some? then s.commands[t := candidate.value] else s.commands)
    case Answer(t, info) => s.(reg := Converted(s.reg, info), commands := s.commands - {t})
  }

  function Run(s: State, steps: seq<Step>): State
    decreases |steps|
  {
    if steps == [] then s else Run(Apply(s, steps[0]), steps[1..])
  }

  ghost predicate Initial(s: State) {
    && s.reg.nodeList.Keys == {} && s.reg.nodeState.Keys == {} && s.reg.masterNode == None && s.reg.peers.Keys == {}
    && s.registrations.Keys == {} && s.commands.Keys == {}
  }

  /** Four steps in a row are the registration of class `Registry.AppContext`. */
  lemma UninterruptedRegistration(s: State, t: Ticket, key: string, info: NodeInfo, peer: Peer, now: int)
    requires t !in s.registrations && key == info.GetKey()
    ensures Run(s, [Begin(t, key, info), CheckMaster(t), ClaimMaster(t), Enlist(t, peer, now)]) ==
            Apply(s, Register(key, info, peer, now))
  {
    var s1 := Apply(s, Begin(t, key, info));
    RunFour(s, Begin(t, key, info), CheckMaster(t), ClaimMaster(t), Enlist(t, peer, now));
    if key in s.reg.nodeList {
    } else if info.nodeType == Master {
      MasterInFourSteps(s, t, key, info, peer, now);
    } else {
      SlaveInFourSteps(s, t, key, info, peer, now);
    }
  }

  lemma MasterInFourSteps(s: State, t: Ticket, key: string, info: NodeInfo, peer: Peer, now: int)
    requires t !in s.registrations && key == info.GetKey() && key !in s.reg.nodeList && info.nodeType == Master
    ensures Apply(Apply(Apply(Apply(s, Begin(t, key, info)), CheckMaster(t)), ClaimMaster(t)), Enlist(t, peer, now)) ==
            Apply(s, Register(key, info, peer, now))
  {
    var s2 := Apply(Apply(s, Begin(t, key, info)), CheckMaster(t));
    if s.reg.masterNode.None? {
      var s4 := Apply(Apply(s2, ClaimMaster(t)), Enlist(t, peer, now));
      assert s4.registrations == s.registrations;
    } else {
      assert s2.registrations == s.registrations;
    }
  }

  lemma SlaveInFourSteps(s: State, t: Ticket, key: string, info: NodeInfo, peer: Peer, now: int)
    requires t !in s.registrations && key == info.GetKey() && key !in s.reg.nodeList && info.nodeType == Slave
    ensures Apply(Apply(Apply(Apply(s, Begin(t, key, info)), CheckMaster(t)), ClaimMaster(t)), Enlist(t, peer, now)) ==
            Apply(s, Register(key, info, peer, now))
  {
    var s2 := Apply(Apply(s, Begin(t, key, info)), CheckMaster(t));
    if s.reg.masterNode.Some? {
      var s4 := Apply(Apply(s2, ClaimMaster(t)), Enlist(t, peer, now));
      assert s4.registrations == s.registrations;
    } else {
      assert s2.registrations == s.registrations;
    }
  }

  lemma RunFour(s: State, a: Step, b: Step, c: Step, d: Step)
    ensures Run(s, [a, b, c, d]) == Apply(Apply(Apply(Apply(s, a), b), c), d)
  {
    var s3 := Apply(Apply(Apply(s, a), b), c);
    assert [a, b, c, d][1..] == [b, c, d] && [b, c, d][1..] == [c, d] && [c, d][1..] == [d];
    assert Run(s3, [d]) == Run(Apply(s3, d), []);
    assert Run(Apply(Apply(s, a), b), [c, d]) == Run(s3, [d]);
    assert Run(Apply(s, a), [b, c, d]) == Run(Apply(Apply(s, a), b), [c, d]);
  }

  // ----- what every interleaving keeps -----

  ghost predicate Listed(s: State, master: NodeInfo) {
    master.GetKey() in s.reg.nodeList
  }

  /** Some registration has set this master and not listed it yet. */
  ghost predicate BeingListed(s: State, master: NodeInfo) {
    exists t :: t in s.registrations && s.registrations[t].stage == Ready && s.registrations[t].info == master
  }

  /** A node registers under its own key, and only a master is on its way to set itself. */
  predicate RegistrationOk(r: Registration) {
    r.key == r.info.GetKey() && (r.stage == Free ==> r.info.nodeType == Master)
  }

  /** Every node with a state is listed, every listed node has a peer, and the master is listed or about to be. */
  ghost predicate ChainOk(s: State) {
    && s.reg.nodeState.Keys <= s.reg.nodeList.Keys <= s.reg.peers.Keys && KeysOk(s.reg.nodeList)
    && (s.reg.masterNode.Some? ==> Listed(s, s.reg.masterNode.value) || BeingListed(s, s.reg.masterNode.value))
    && (forall t | t in s.registrations :: RegistrationOk(s.registrations[t]))
    && (forall t | t in s.commands :: s.commands[t] in s.reg.peers)
  }

  /** The master stays listed or being listed: whoever takes it off the list also forgets it. */
  lemma MasterKept(s: State, step: Step)
    requires ChainOk(s) && Enabled(s, step)
    ensures var s' := Apply(s, step);
            s'.reg.masterNode.Some? ==> Listed(s', s'.reg.masterNode.value) || BeingListed(s', s'.reg.masterNode.value)
  {
    var s' := Apply(s, step);
    if step.ClaimMaster? {
      assert s'.registrations[step.ticket].info == s'.reg.masterNode.value;
    } else if s.reg.masterNode.Some? && s'.reg.masterNode == s.reg.masterNode {
      SameMasterKept(s, step, s.reg.masterNode.value);
    }
  }

  lemma SameMasterKept(s: State, step: Step, master: NodeInfo)
    requires ChainOk(s) && Enabled(s, step) && s.reg.masterNode == Some(master)
    requires Apply(s, step).reg.masterNode == Some(master)
    ensures Listed(Apply(s, step), master) || BeingListed(Apply(s, step), master)
  {
    if Listed(s, master) {
      ListedKept(s, step, master);
    } else {
      BeingListedKept(s, step, master);
    }
  }

  /** Only a sweep takes nodes off the list, and when it takes the master off it forgets it. */
  lemma ListedKept(s: State, step: Step, master: NodeInfo)
    requires Listed(s, master) && Enabled(s, step)
    requires s.reg.masterNode == Some(master) && Apply(s, step).reg.masterNode == Some(master)
    ensures Listed(Apply(s, step), master)
  {
  }

  lemma BeingListedKept(s: State, step: Step, master: NodeInfo)
    requires BeingListed(s, master) && Enabled(s, step)
    requires forall t | t in s.registrations :: RegistrationOk(s.registrations[t])
    ensures Listed(Apply(s, step), master) || BeingListed(Apply(s, step), master)
  {
    var s' := Apply(s, step);
    var t :| t in s.registrations && s.registrations[t].stage == Ready && s.registrations[t].info == master;
    if t in s'.registrations && s'.registrations[t] == s.registrations[t] {
      assert BeingListed(s', master);
    } else {
      assert step == Enlist(t, step.peer, step.now);
    }
  }

  lemma ChainKept(s: State, step: Step)
    requires ChainOk(s)
    ensures ChainOk(Apply(s, step))
  {
    if Enabled(s, step) {
      MasterKept(s, step);
      KeysKept(s, step);
      CommandsKept(s, step);
      NamesKept(s, step);
    }
  }

  lemma KeysKept(s: State, step: Step)
    requires ChainOk(s) && Enabled(s, step)
    ensures var s' := Apply(s, step);
            s'.reg.nodeState.Keys <= s'.reg.nodeList.Keys <= s'.reg.peers.Keys
  {
  }

  lemma CommandsKept(s: State, step: Step)
    requires ChainOk(s) && Enabled(s, step)
    ensures var s' := Apply(s, step);
            s.reg.peers.Keys <= s'.reg.peers.Keys && forall t | t in s'.commands :: s'.commands[t] in s'.reg.peers
  {
  }

  lemma NamesKept(s: State, step: Step)
    requires ChainOk(s) && Enabled(s, step)
    ensures var s' := Apply(s, step);
            && KeysOk(s'.reg.nodeList)
            && (forall t | t in s'.registrations :: RegistrationOk(s'.registrations[t]))
  {
  }

  /** However the lock scopes interleave, the registry keeps its three key sets nested and knows its master. */
  lemma {:induction false} ChainOnRuns(s: State, steps: seq<Step>)
    requires ChainOk(s)
    ensures ChainOk(Run(s, steps))
    decreases |steps|
  {
    if steps != [] {
      ChainKept(s, steps[0]);
      ChainOnRuns(Apply(s, steps[0]), steps[1..]);
    }
  }

  lemma InitialChain(s: State)
    requires Initial(s)
    ensures ChainOk(s)
  {
  }

  /** So it holds in every reachable state. */
  lemma ReachableChain(s: State, steps: seq<Step>)
    requires Initial(s)
    ensures ChainOk(Run(s, steps))
  {
    InitialChain(s);
    ChainOnRuns(s, steps);
  }

  /** What the monitor of class `Registry.AppContext` does is a step of this system. */
  lemma MonitorIsSweep(s: State, dead: set<string>, sent: seq<Outgoing>, candidate: Option<string>,
                       order: seq<string>, t: Ticket)
    requires ChainOk(s) && dead <= s.reg.nodeState.Keys && MasterIsDead(s.reg, dead) && t !in s.commands
    requires Elected(Swept(s.reg, dead), sent, candidate, order)
    ensures var s' := Apply(s, Sweep(dead, candidate, t));
            && s'.reg == Swept(s.reg, dead)
            && s'.commands == (if candidate.Some? then s.commands[t := candidate.value] else s.commands)
            && (candidate.Some? <==> s'.reg.nodeList.Keys != {})
  {
  }
}
