/** When the registry has a single master, and what elections need, with the lock scopes of registrations
    interleaved in any way. */
module SingleMaster {
  import opened Basic
  import opened LoadBalance
  import opened Registry
  import opened RegistryProtocol

  /** At most one election is pending, none while there is a master. At most one node is listed as a master, and
      it is the master; so is every node about to be listed as one. The master is listed or about to be. */
  ghost predicate OneMaster(s: State) {
    && (forall t, t' | t in s.commands && t' in s.commands :: t == t')
    && (forall t | t in s.commands :: s.reg.masterNode.None?)
    && (forall k | k in s.reg.nodeList && s.reg.nodeList[k].nodeType == Master ::
          s.reg.masterNode == Some(s.reg.nodeList[k]))
    && (forall t | t in s.registrations && IsClaim(s.registrations[t]) ::
          s.reg.masterNode == Some(s.registrations[t].info))
    && (s.reg.masterNode.Some? ==> IsHeld(s, s.reg.masterNode.value))
  }

  /** A registration that has set the master and not listed it yet. */
  predicate IsClaim(r: Registration) {
    r.stage == Ready && r.info.nodeType == Master
  }

  ghost predicate IsHeld(s: State, master: NodeInfo) {
    && master.nodeType == Master
    && ((Listed(s, master) && s.reg.nodeList[master.GetKey()] == master) || BeingListed(s, master))
  }

  /** What must not come in between. A master that has seen no other must find neither another master nor a pending
      election when it sets itself; a slave must not take the entry of the master over; the master must not be
      found dead while it is about to be listed; no master may register during an election. */
  ghost predicate Guarded(s: State, step: Step) {
    Enabled(s, step) ==>
      match step
      case ClaimMaster(t) =>
        s.commands.Keys == {} && (s.reg.masterNode.None? || s.reg.masterNode == Some(s.registrations[t].info))
      case Enlist(t, _, _) =>
        var r := s.registrations[t];
        r.info.nodeType == Slave && s.reg.masterNode.Some? && s.reg.masterNode.value.GetKey() == r.key ==>
          BeingListed(s, s.reg.masterNode.value)
      case Sweep(dead, _, _) => MasterIsDead(s.reg, dead) ==> !BeingListed(s, s.reg.masterNode.value)
      case Register(_, _, _, _) => !RivalRegisters(s, step)
      case _ => true
  }

  /** A master that registers in one go while an election is pending. */
  predicate RivalRegisters(s: State, step: Step) {
    && step.Register? && step.info.nodeType == Master && step.key !in s.reg.nodeList
    && s.reg.masterNode.None? && s.commands.Keys != {}
  }

  // ----- one step -----

  lemma CheckKeeps(s: State, step: Step)
    requires OneMaster(s) && Enabled(s, step) && (step.Begin? || step.CheckMaster? || step.Report?)
    ensures OneMaster(Apply(s, step))
  {
    var s' := Apply(s, step);
    if s.reg.masterNode.Some? && BeingListed(s, s.reg.masterNode.value) {
      StillBeingListed(s, s', s.reg.masterNode.value);
    }
  }

  lemma StillBeingListed(s: State, s': State, master: NodeInfo)
    requires BeingListed(s, master)
    requires forall t | t in s.registrations && s.registrations[t].stage == Ready ::
               t in s'.registrations && s'.registrations[t] == s.registrations[t]
    ensures BeingListed(s', master)
  {
    var t :| t in s.registrations && s.registrations[t].stage == Ready && s.registrations[t].info == master;
    assert s'.registrations[t].info == master;
  }

  lemma ClaimExactly(s: State, t: Ticket)
    requires OneMaster(s) && ChainOk(s) && Enabled(s, ClaimMaster(t))
    ensures OneMaster(Apply(s, ClaimMaster(t))) <==> Guarded(s, ClaimMaster(t))
  {
    var s' := Apply(s, ClaimMaster(t));
    var info := s.registrations[t].info;
    assert s'.registrations[t].info == info;
    assert BeingListed(s', info);
    if s.reg.masterNode.Some? && s.reg.masterNode.value != info {
      var m := s.reg.masterNode.value;
      if BeingListed(s, m) {
        var u :| u in s.registrations && s.registrations[u].stage == Ready && s.registrations[u].info == m;
        assert IsClaim(s'.registrations[u]);
      }
    }
  }

  lemma MasterEnlists(s: State, t: Ticket, peer: Peer, now: int)
    requires OneMaster(s) && ChainOk(s) && Enabled(s, Enlist(t, peer, now))
    requires s.registrations[t].info.nodeType == Master
    ensures OneMaster(Apply(s, Enlist(t, peer, now)))
  {
    assert IsClaim(s.registrations[t]);
  }

  lemma SlaveEnlistsExactly(s: State, t: Ticket, peer: Peer, now: int)
    requires OneMaster(s) && ChainOk(s) && Enabled(s, Enlist(t, peer, now))
    requires s.registrations[t].info.nodeType == Slave
    ensures OneMaster(Apply(s, Enlist(t, peer, now))) <==> Guarded(s, Enlist(t, peer, now))
  {
    if s.reg.masterNode.Some? {
      OtherEnlists(s, t, peer, now, s.reg.masterNode.value);
    }
  }

  /** A registration other than the master's own leaves the master being listed if it was, and listed if it was
      unless it takes over its entry. */
  lemma OtherEnlists(s: State, t: Ticket, peer: Peer, now: int, master: NodeInfo)
    requires Enabled(s, Enlist(t, peer, now)) && s.registrations[t].info != master
    ensures BeingListed(Apply(s, Enlist(t, peer, now)), master) <==> BeingListed(s, master)
  {
    var s' := Apply(s, Enlist(t, peer, now));
    if BeingListed(s, master) {
      var u :| u in s.registrations && s.registrations[u].stage == Ready && s.registrations[u].info == master;
      assert s'.registrations[u].info == master;
    }
    if BeingListed(s', master) {
      var u :| u in s'.registrations && s'.registrations[u].stage == Ready && s'.registrations[u].info == master;
      assert s.registrations[u].info == master;
    }
  }

  lemma SweepKeeps(s: State, dead: set<string>, candidate: Option<string>, t: Ticket)
    requires OneMaster(s) && ChainOk(s) && Enabled(s, Sweep(dead, candidate, t)) && !MasterIsDead(s.reg, dead)
    ensures OneMaster(Apply(s, Sweep(dead, candidate, t)))
  {
    var s' := Apply(s, Sweep(dead, candidate, t));
    if s.reg.masterNode.Some? && BeingListed(s, s.reg.masterNode.value) {
      StillBeingListed(s, s', s.reg.masterNode.value);
    }
  }

  lemma DeadMasterExactly(s: State, dead: set<string>, candidate: Option<string>, t: Ticket)
    requires OneMaster(s) && ChainOk(s) && Enabled(s, Sweep(dead, candidate, t)) && MasterIsDead(s.reg, dead)
    ensures OneMaster(Apply(s, Sweep(dead, candidate, t))) <==> !BeingListed(s, s.reg.masterNode.value)
  {
    var s' := Apply(s, Sweep(dead, candidate, t));
    var m := s.reg.masterNode.value;
    if BeingListed(s, m) {
      var u :| u in s.registrations && s.registrations[u].stage == Ready && s.registrations[u].info == m;
      assert IsClaim(s'.registrations[u]);
    }
  }

  lemma MasterRegistersExactly(s: State, key: string, info: NodeInfo, peer: Peer, now: int)
    requires OneMaster(s) && ChainOk(s) && Enabled(s, Register(key, info, peer, now)) && info.nodeType == Master
    requires key !in s.reg.nodeList && s.reg.masterNode.None?
    ensures OneMaster(Apply(s, Register(key, info, peer, now))) <==> s.commands.Keys == {}
  {
    var s' := Apply(s, Register(key, info, peer, now));
    assert s'.reg.nodeList[info.GetKey()] == info;
  }

  lemma SlaveRegisters(s: State, key: string, info: NodeInfo, peer: Peer, now: int)
    requires OneMaster(s) && ChainOk(s) && Enabled(s, Register(key, info, peer, now)) && info.nodeType == Slave
    requires key !in s.reg.nodeList && s.reg.masterNode.Some?
    ensures OneMaster(Apply(s, Register(key, info, peer, now)))
  {
    if BeingListed(s, s.reg.masterNode.value) {
      StillBeingListed(s, Apply(s, Register(key, info, peer, now)), s.reg.masterNode.value);
    }
  }

  lemma RegisterExactly(s: State, key: string, info: NodeInfo, peer: Peer, now: int)
    requires OneMaster(s) && ChainOk(s) && Enabled(s, Register(key, info, peer, now))
    ensures OneMaster(Apply(s, Register(key, info, peer, now))) <==> !RivalRegisters(s, Register(key, info, peer, now))
  {
    if key !in s.reg.nodeList {
      if info.nodeType == Master && s.reg.masterNode.None? {
        MasterRegistersExactly(s, key, info, peer, now);
      } else if info.nodeType == Slave && s.reg.masterNode.Some? {
        SlaveRegisters(s, key, info, peer, now);
      }
    }
  }

  lemma AnswerKeeps(s: State, t: Ticket, info: NodeInfo)
    requires OneMaster(s) && ChainOk(s) && Enabled(s, Answer(t, info))
    ensures OneMaster(Apply(s, Answer(t, info)))
  {
  }

  /** A step, whichever lock scope it is, keeps a single master exactly when it is guarded. */
  lemma OneMasterExactly(s: State, step: Step)
    requires OneMaster(s) && ChainOk(s)
    ensures OneMaster(Apply(s, step)) <==> Guarded(s, step)
  {
    if Enabled(s, step) {
      match step {
        case Begin(_, _, _) => CheckKeeps(s, step);
        case CheckMaster(_) => CheckKeeps(s, step);
        case Report(_, _, _) => CheckKeeps(s, step);
        case ClaimMaster(t) => ClaimExactly(s, t);
        case Enlist(t, peer, now) =>
          if s.registrations[t].info.nodeType == Master {
            MasterEnlists(s, t, peer, now);
          } else {
            SlaveEnlistsExactly(s, t, peer, now);
          }
        case Sweep(dead, candidate, t) =>
          if MasterIsDead(s.reg, dead) {
            DeadMasterExactly(s, dead, candidate, t);
          } else {
            SweepKeeps(s, dead, candidate, t);
          }
        case Register(key, info, peer, now) => RegisterExactly(s, key, info, peer, now);
        case Answer(t, info) => AnswerKeeps(s, t, info);
      }
    }
  }

  // ----- runs -----

  ghost predicate AllGuarded(s: State, steps: seq<Step>)
    decreases |steps|
  {
    steps == [] || (Guarded(s, steps[0]) && AllGuarded(Apply(s, steps[0]), steps[1..]))
  }

  /** There is a single master at every point of the run. */
  ghost predicate StaysSingle(s: State, steps: seq<Step>)
    decreases |steps|
  {
    OneMaster(s) && (steps == [] || StaysSingle(Apply(s, steps[0]), steps[1..]))
  }

  lemma InitialSingle(s: State)
    requires Initial(s)
    ensures ChainOk(s) && OneMaster(s) && ElectionReady(s.reg)
  {
  }

  lemma {:induction false} StaysSingleExactly(s: State, steps: seq<Step>)
    requires OneMaster(s) && ChainOk(s)
    ensures StaysSingle(s, steps) <==> AllGuarded(s, steps)
    decreases |steps|
  {
    if steps != [] {
      OneMasterExactly(s, steps[0]);
      ChainKept(s, steps[0]);
      if Guarded(s, steps[0]) {
        StaysSingleExactly(Apply(s, steps[0]), steps[1..]);
      }
    }
  }

  /** From an empty registry on, whatever the lock scopes do: there is a single master at every point of a run
      exactly when every step is guarded. */
  lemma SingleMasterOnRunsExactly(s: State, steps: seq<Step>)
    requires Initial(s)
    ensures StaysSingle(s, steps) <==> AllGuarded(s, steps)
  {
    InitialSingle(s);
    StaysSingleExactly(s, steps);
  }

  // ----- no more than what is listed -----

  /** The plain property: at most one election is pending, and whoever is listed as a master is the master. It says
      nothing of registrations on their way and of the entry of the master itself. */
  ghost predicate AtMostOne(s: State) {
    && (forall t, t' | t in s.commands && t' in s.commands :: t == t')
    && (forall k | k in s.reg.nodeList && s.reg.nodeList[k].nodeType == Master ::
          s.reg.masterNode == Some(s.reg.nodeList[k]))
  }

  predicate OthersAreSlaves(reg: Reg, info: NodeInfo) {
    forall k | k in reg.nodeList && reg.nodeList[k].nodeType == Master :: reg.nodeList[k] == info
  }

  /** What must not come in between for the plain property. */
  predicate ListGuarded(s: State, step: Step) {
    Enabled(s, step) ==>
      match step
      case ClaimMaster(t) => OthersAreSlaves(s.reg, s.registrations[t].info)
      case Enlist(t, _, _) =>
        s.registrations[t].info.nodeType == Master ==> s.reg.masterNode == Some(s.registrations[t].info)
      case Sweep(_, candidate, _) => candidate.Some? ==> s.commands.Keys == {}
      case Answer(_, info) =>
        forall k | k in s.reg.nodeList && s.reg.nodeList[k].nodeType == Master :: k == info.GetKey()
      case _ => true
  }

  lemma AtMostOneExactly(s: State, step: Step)
    requires AtMostOne(s) && ChainOk(s)
    ensures AtMostOne(Apply(s, step)) <==> ListGuarded(s, step)
  {
    if Enabled(s, step) {
      match step {
        case Sweep(dead, candidate, t) => SweepListsExactly(s, dead, candidate, t);
        case Answer(t, info) => AnswerListsExactly(s, t, info);
        case Enlist(t, peer, now) => EnlistListsExactly(s, t, peer, now);
        case ClaimMaster(t) => ClaimListsExactly(s, t);
        case _ => HarmlessStep(s, step);
      }
    }
  }

  /** Checks, reports and registrations in one go never list a second master. */
  lemma HarmlessStep(s: State, step: Step)
    requires AtMostOne(s) && Enabled(s, step)
    requires step.Begin? || step.CheckMaster? || step.Report? || step.Register?
    ensures AtMostOne(Apply(s, step))
  {
  }

  lemma ClaimListsExactly(s: State, t: Ticket)
    requires AtMostOne(s) && Enabled(s, ClaimMaster(t))
    ensures AtMostOne(Apply(s, ClaimMaster(t))) <==> OthersAreSlaves(s.reg, s.registrations[t].info)
  {
  }

  lemma SweepListsExactly(s: State, dead: set<string>, candidate: Option<string>, t: Ticket)
    requires AtMostOne(s) && ChainOk(s) && Enabled(s, Sweep(dead, candidate, t))
    ensures AtMostOne(Apply(s, Sweep(dead, candidate, t))) <==> (candidate.Some? ==> s.commands.Keys == {})
  {
    var s' := Apply(s, Sweep(dead, candidate, t));
    assert candidate.Some? ==> t in s'.commands && forall u | u in s.commands :: u in s'.commands && u != t;
    assert forall k | k in s.reg.nodeList :: s.reg.nodeList[k].GetKey() == k;
  }

  lemma AnswerListsExactly(s: State, t: Ticket, info: NodeInfo)
    requires AtMostOne(s) && ChainOk(s) && Enabled(s, Answer(t, info))
    ensures AtMostOne(Apply(s, Answer(t, info))) <==> ListGuarded(s, Answer(t, info))
  {
    var s' := Apply(s, Answer(t, info));
    forall k | k in s.reg.nodeList && k != info.GetKey()
      ensures k in s'.reg.nodeList && s'.reg.nodeList[k] == s.reg.nodeList[k] && s.reg.nodeList[k] != info
    {
      assert s.reg.nodeList[k].GetKey() == k;
    }
  }

  lemma EnlistListsExactly(s: State, t: Ticket, peer: Peer, now: int)
    requires AtMostOne(s) && ChainOk(s) && Enabled(s, Enlist(t, peer, now))
    ensures AtMostOne(Apply(s, Enlist(t, peer, now))) <==> ListGuarded(s, Enlist(t, peer, now))
  {
    var s' := Apply(s, Enlist(t, peer, now));
    assert s'.reg.nodeList[s.registrations[t].key] == s.registrations[t].info;
  }

  ghost predicate AllListGuarded(s: State, steps: seq<Step>)
    decreases |steps|
  {
    steps == [] || (ListGuarded(s, steps[0]) && AllListGuarded(Apply(s, steps[0]), steps[1..]))
  }

  ghost predicate StaysAtMostOne(s: State, steps: seq<Step>)
    decreases |steps|
  {
    AtMostOne(s) && (steps == [] || StaysAtMostOne(Apply(s, steps[0]), steps[1..]))
  }

  /** From an empty registry on, whatever the lock scopes do: at every point of a run at most one election is pending
      and at most the master is listed as a master, exactly when every step passes its guard. */
  lemma {:induction false} AtMostOneOnRunsExactly(s: State, steps: seq<Step>)
    requires Initial(s) || (AtMostOne(s) && ChainOk(s))
    ensures StaysAtMostOne(s, steps) <==> AllListGuarded(s, steps)
    decreases |steps|
  {
    if Initial(s) {
      InitialChain(s);
    }
    if steps != [] {
      AtMostOneExactly(s, steps[0]);
      ChainKept(s, steps[0]);
      if ListGuarded(s, steps[0]) {
        AtMostOneOnRunsExactly(Apply(s, steps[0]), steps[1..]);
      }
    }
  }

  // ----- the invariant that also protects the master's own entry -----

  /** It is the stronger property. */
  lemma OneMasterIsAtMostOne(s: State)
    requires OneMaster(s)
    ensures AtMostOne(s)
  {
  }

  /** What the invariant is for: two nodes listed as masters are one, and it is the master. */
  lemma MasterIsUnique(s: State, k: string, k': string)
    requires OneMaster(s) && ChainOk(s)
    requires k in s.reg.nodeList && s.reg.nodeList[k].nodeType == Master
    requires k' in s.reg.nodeList && s.reg.nodeList[k'].nodeType == Master
    ensures k == k' && s.reg.masterNode == Some(s.reg.nodeList[k]) && s.commands.Keys == {}
  {
    assert s.reg.nodeList[k].GetKey() == k && s.reg.nodeList[k'].GetKey() == k';
  }

  // ----- elections -----

  predicate OnlyMasterStateless(reg: Reg) {
    forall k | k in reg.nodeList && k !in reg.nodeState :: reg.masterNode == Some(reg.nodeList[k])
  }

  lemma StatelessKept(s: State, step: Step)
    requires OneMaster(s) && ChainOk(s) && OnlyMasterStateless(s.reg) && Guarded(s, step)
    ensures OnlyMasterStateless(Apply(s, step).reg)
  {
  }

  lemma ReadyKept(s: State, step: Step)
    requires OneMaster(s) && ChainOk(s) && ElectionReady(s.reg) && Guarded(s, step)
    ensures ElectionReady(Apply(s, step).reg)
  {
    ChainKept(s, step);
    StatelessKept(s, step);
  }

  /** On every guarded run the registry stays ready for elections, even when a node that has been dropped answers
      late and is listed without a state: `Registry.AppContext.MonitorHeartbeats` then never panics, and if the
      master is dead it commands one least loaded survivor and tells each other one. */
  lemma {:induction false} ElectionsAreSound(s: State, steps: seq<Step>, dead: set<string>)
    requires Initial(s) || (OneMaster(s) && ChainOk(s) && ElectionReady(s.reg))
    requires AllGuarded(s, steps)
    ensures var reg := Run(s, steps).reg;
            && ElectionReady(reg)
            && (dead <= reg.nodeState.Keys && MasterIsDead(reg, dead) ==> CanElect(Swept(reg, dead)))
    decreases |steps|
  {
    if Initial(s) {
      InitialSingle(s);
    }
    if steps == [] {
      if dead <= s.reg.nodeState.Keys && MasterIsDead(s.reg, dead) {
        ReadyCanElect(s.reg, dead);
      }
    } else {
      OneMasterExactly(s, steps[0]);
      ChainKept(s, steps[0]);
      ReadyKept(s, steps[0]);
      ElectionsAreSound(Apply(s, steps[0]), steps[1..], dead);
    }
  }

  /** Every listed node has a state. */
  predicate AllHaveState(s: State) {
    s.reg.nodeState.Keys == s.reg.nodeList.Keys
  }

  /** A step keeps it exactly when it is not the answer of a node that has been dropped in the meantime. */
  lemma AllHaveStateExactly(s: State, step: Step)
    requires ChainOk(s) && AllHaveState(s) && Enabled(s, step)
    ensures AllHaveState(Apply(s, step)) <==> (step.Answer? ==> s.commands[step.ticket] in s.reg.nodeState)
  {
  }

  // ----- registrations that nothing interrupts -----

  predicate Atomic(step: Step) {
    step.Register? || step.Report? || step.Sweep? || step.Answer?
  }

  ghost predicate SingleOk(s: State) {
    OneMaster(s) && s.registrations.Keys == {}
  }

  /** With uninterrupted registrations the guards come down to one: no new master during an election. */
  lemma SingleMasterExactly(s: State, step: Step)
    requires SingleOk(s) && ChainOk(s) && Atomic(step) && Enabled(s, step)
    ensures SingleOk(Apply(s, step)) <==> !RivalRegisters(s, step)
  {
    OneMasterExactly(s, step);
  }

  ghost predicate NoRivals(s: State, steps: seq<Step>)
    decreases |steps|
  {
    steps == [] || (Atomic(steps[0]) && !RivalRegisters(s, steps[0]) && NoRivals(Apply(s, steps[0]), steps[1..]))
  }

  lemma {:induction false} NoRivalsIsGuarded(s: State, steps: seq<Step>)
    requires SingleOk(s) && ChainOk(s) && NoRivals(s, steps)
    ensures AllGuarded(s, steps) && SingleOk(Run(s, steps)) && ChainOk(Run(s, steps))
    decreases |steps|
  {
    if steps != [] {
      ChainKept(s, steps[0]);
      if Enabled(s, steps[0]) {
        SingleMasterExactly(s, steps[0]);
        OneMasterExactly(s, steps[0]);
      }
      NoRivalsIsGuarded(Apply(s, steps[0]), steps[1..]);
    }
  }

  /** A single master and sound elections on every run of uninterrupted registrations without a rival. */
  lemma SingleMasterOnRuns(s: State, steps: seq<Step>)
    requires Initial(s) && NoRivals(s, steps)
    ensures OneMaster(Run(s, steps)) && ElectionReady(Run(s, steps).reg) && StaysSingle(s, steps)
  {
    InitialSingle(s);
    NoRivalsIsGuarded(s, steps);
    StaysSingleExactly(s, steps);
    ElectionsAreSound(s, steps, {});
  }

  ghost predicate StatelessMaster(s: State, m: NodeInfo) {
    s.reg.masterNode == Some(m) && m.GetKey() !in s.reg.nodeState
  }

  /** The registration under the master's key, begun before the answer, that lists it once more. */
  predicate GivesState(s: State, step: Step, m: NodeInfo) {
    step.Enlist? && Enabled(s, step) && s.registrations[step.ticket].key == m.GetKey()
  }

  /** A listed master without a state is not found dead by any sweep and gets no state from a report: a guarded step
      changes that exactly when it lists the master again. */
  lemma StatelessStepExactly(s: State, step: Step, m: NodeInfo)
    requires OneMaster(s) && ChainOk(s) && Guarded(s, step) && StatelessMaster(s, m) && Listed(s, m)
    ensures Listed(Apply(s, step), m)
    ensures StatelessMaster(Apply(s, step), m) <==> !GivesState(s, step, m)
  {
  }

  ghost predicate StaysStateless(s: State, steps: seq<Step>, m: NodeInfo)
    decreases |steps|
  {
    StatelessMaster(s, m) && s.commands.Keys == {} &&
    (steps == [] || StaysStateless(Apply(s, steps[0]), steps[1..], m))
  }

  ghost predicate NeverListedAgain(s: State, steps: seq<Step>, m: NodeInfo)
    decreases |steps|
  {
    steps == [] || (!GivesState(s, steps[0], m) && NeverListedAgain(Apply(s, steps[0]), steps[1..], m))
  }

  /** On a guarded run the master stays without a state, with no election pending, at every point exactly when no
      registration lists it again. */
  lemma {:induction false} StaysStatelessExactly(s: State, steps: seq<Step>, m: NodeInfo)
    requires OneMaster(s) && ChainOk(s) && AllGuarded(s, steps) && StatelessMaster(s, m) && Listed(s, m)
    ensures StaysStateless(s, steps, m) <==> NeverListedAgain(s, steps, m)
    decreases |steps|
  {
    if steps != [] {
      OneMasterExactly(s, steps[0]);
      ChainKept(s, steps[0]);
      StatelessStepExactly(s, steps[0], m);
      if !GivesState(s, steps[0], m) {
        StaysStatelessExactly(Apply(s, steps[0]), steps[1..], m);
      }
    }
  }

  lemma {:induction false} AtomicNeverListsAgain(s: State, steps: seq<Step>, m: NodeInfo)
    requires SingleOk(s) && ChainOk(s) && NoRivals(s, steps)
    ensures NeverListedAgain(s, steps, m)
    decreases |steps|
  {
    if steps != [] {
      ChainKept(s, steps[0]);
      if Enabled(s, steps[0]) {
        SingleMasterExactly(s, steps[0]);
      }
      AtomicNeverListsAgain(Apply(s, steps[0]), steps[1..], m);
    }
  }

  /** With registrations that nothing interrupts and no rival, such a master therefore stays for ever. */
  lemma StatelessMasterStays(s: State, steps: seq<Step>, m: NodeInfo)
    requires SingleOk(s) && ChainOk(s) && NoRivals(s, steps) && StatelessMaster(s, m)
    ensures StaysStateless(s, steps, m)
  {
    NoRivalsIsGuarded(s, steps);
    AtomicNeverListsAgain(s, steps, m);
    StaysStatelessExactly(s, steps, m);
  }

  /** On every guarded run, split lock scopes and late answers included: whenever there is a master, the balancer has
      what it needs in order not to fail. */
  lemma BalancerNeverFails(s: State, steps: seq<Step>)
    requires Initial(s) && AllGuarded(s, steps)
    ensures var reg := Run(s, steps).reg;
            reg.masterNode.Some? ==> OthersHaveState(reg.nodeState, reg.nodeList, reg.masterNode.value)
  {
    ElectionsAreSound(s, steps, {});
    if Run(s, steps).reg.masterNode.Some? {
      ReadyBalances(Run(s, steps).reg);
    }
  }
}
