/** Runs of the registry that go wrong when something comes in between, each from a state where nothing is wrong yet. */
module RegistryRaces {
  import opened Basic
  import opened LoadBalance
  import opened Registry
  import opened RegistryProtocol
  import opened SingleMaster

  ghost predicate TwoMasters(reg: Reg) {
    exists k, k' :: k in reg.nodeList && k' in reg.nodeList && k != k'
                    && reg.nodeList[k].nodeType == Master && reg.nodeList[k'].nodeType == Master
  }

  lemma BothSeeNoMaster(s: State, t: Ticket, t': Ticket, a: NodeInfo, b: NodeInfo)
    requires t !in s.registrations && t' !in s.registrations && t != t' && s.reg.masterNode.None?
    requires a.nodeType == Master && b.nodeType == Master
    requires a.GetKey() !in s.reg.nodeList && b.GetKey() !in s.reg.nodeList
    ensures var s1 := Run(s, [Begin(t, a.GetKey(), a), Begin(t', b.GetKey(), b), CheckMaster(t), CheckMaster(t')]);
            && t in s1.registrations && s1.registrations[t] == Registration(a.GetKey(), a, Free)
            && t' in s1.registrations && s1.registrations[t'] == Registration(b.GetKey(), b, Free)
  {
    RunFour(s, Begin(t, a.GetKey(), a), Begin(t', b.GetKey(), b), CheckMaster(t), CheckMaster(t'));
  }

  lemma BothAreListed(s: State, t: Ticket, t': Ticket, a: NodeInfo, b: NodeInfo, peer: Peer, now: int)
    requires t in s.registrations && s.registrations[t] == Registration(a.GetKey(), a, Free)
    requires t' in s.registrations && s.registrations[t'] == Registration(b.GetKey(), b, Free)
    requires t != t' && a.GetKey() != b.GetKey()
    ensures var reg := Run(s, [ClaimMaster(t), ClaimMaster(t'), Enlist(t, peer, now), Enlist(t', peer, now)]).reg;
            && a.GetKey() in reg.nodeList && reg.nodeList[a.GetKey()] == a
            && b.GetKey() in reg.nodeList && reg.nodeList[b.GetKey()] == b
  {
    RunFour(s, ClaimMaster(t), ClaimMaster(t'), Enlist(t, peer, now), Enlist(t', peer, now));
  }

  /** Why the lock must not be dropped in between: two masters that register at the same time are both accepted. */
  lemma SplitLocksAllowTwoMasters(s: State, t: Ticket, t': Ticket, a: NodeInfo, b: NodeInfo, peer: Peer, now: int)
    requires t !in s.registrations && t' !in s.registrations && t != t' && s.reg.masterNode.None?
    requires a.nodeType == Master && b.nodeType == Master && a.GetKey() != b.GetKey()
    requires a.GetKey() !in s.reg.nodeList && b.GetKey() !in s.reg.nodeList
    ensures var s1 := Run(s, [Begin(t, a.GetKey(), a), Begin(t', b.GetKey(), b), CheckMaster(t), CheckMaster(t')]);
            var s2 := Run(s1, [ClaimMaster(t), ClaimMaster(t'), Enlist(t, peer, now), Enlist(t', peer, now)]);
            TwoMasters(s2.reg)
  {
    BothSeeNoMaster(s, t, t', a, b);
    BothAreListed(Run(s, [Begin(t, a.GetKey(), a), Begin(t', b.GetKey(), b), CheckMaster(t), CheckMaster(t')]),
                  t, t', a, b, peer, now);
  }

  /** Why a new master must not register during an election: the elected node joins it. */
  lemma RivalMeansTwoMasters(s: State, key: string, rival: NodeInfo, peer: Peer, now: int, t: Ticket, elected: NodeInfo)
    requires ChainOk(s) && Enabled(s, Register(key, rival, peer, now))
    requires RivalRegisters(s, Register(key, rival, peer, now))
    requires Enabled(s, Answer(t, elected)) && elected.GetKey() != key
    ensures TwoMasters(Apply(Apply(s, Register(key, rival, peer, now)), Answer(t, elected)).reg)
  {
    var s2 := Apply(Apply(s, Register(key, rival, peer, now)), Answer(t, elected));
    assert s2.reg.nodeList[key] == rival;
    assert s2.reg.nodeList[elected.GetKey()] == elected;
  }

  /** How a node loses its state: the master `a` dies, `b` is told to take over, dies as well, and answers late. */
  lemma LateAnswerLosesState(s: State, a: NodeInfo, b: NodeInfo, peer: Peer, now: int, t: Ticket, t': Ticket)
    requires Initial(s) && a.nodeType == Master && b.nodeType == Slave && a.GetKey() != b.GetKey() && t != t'
    ensures var s1 := Apply(s, Register(a.GetKey(), a, peer, now));
            var s2 := Apply(s1, Register(b.GetKey(), b, peer, now));
            var s3 := Apply(s2, Sweep({a.GetKey()}, Some(b.GetKey()), t));
            var s4 := Apply(s3, Sweep({b.GetKey()}, None, t'));
            var m := b.(nodeType := Master);
            && s4.reg.masterNode.None? && s4.reg.nodeList.Keys == {} && s4.reg.nodeState.Keys == {}
            && s4.registrations.Keys == {} && s4.commands.Keys == {t}
            && Enabled(s4, Answer(t, m)) && SingleOk(Apply(s4, Answer(t, m)))
            && StatelessMaster(Apply(s4, Answer(t, m)), m)
  {
    var s1 := Apply(s, Register(a.GetKey(), a, peer, now));
    var s2 := Apply(s1, Register(b.GetKey(), b, peer, now));
    assert s2.reg.masterNode == Some(a) && s2.reg.nodeState.Keys == {a.GetKey(), b.GetKey()};
    var s3 := Apply(s2, Sweep({a.GetKey()}, Some(b.GetKey()), t));
    assert s3.reg.nodeState.Keys == {b.GetKey()} && s3.commands[t] == b.GetKey();
    var s4 := Apply(s3, Sweep({b.GetKey()}, None, t'));
    assert s4.reg.nodeList.Keys == {} && s4.commands.Keys == {t};
  }

  /** Why the master must not be found dead while it is about to be listed: if it registers twice at the same time,
      it can end up listed as a master that is not the master. */
  lemma DeadMasterIsListedAgain(s: State, t: Ticket, t': Ticket, u: Ticket, a: NodeInfo, peer: Peer, now: int)
    requires Initial(s) && a.nodeType == Master && t != t'
    ensures var s1 := Run(s, [Begin(t, a.GetKey(), a), Begin(t', a.GetKey(), a), CheckMaster(t), CheckMaster(t')]);
            var s2 := Run(s1, [ClaimMaster(t), Enlist(t, peer, now), ClaimMaster(t'), Sweep({a.GetKey()}, None, u)]);
            var s3 := Apply(s2, Enlist(t', peer, now));
            a.GetKey() in s3.reg.nodeList && s3.reg.nodeList[a.GetKey()] == a && s3.reg.masterNode.None?
  {
    BothSeeNoMaster(s, t, t', a, a);
    var s1 := Run(s, [Begin(t, a.GetKey(), a), Begin(t', a.GetKey(), a), CheckMaster(t), CheckMaster(t')]);
    FourChecksTouchNoCommand(s, t, t', a);
    TwiceClaimed(s1, t, t', u, a, peer, now);
  }

  lemma FourChecksTouchNoCommand(s: State, t: Ticket, t': Ticket, a: NodeInfo)
    requires Initial(s)
    ensures Run(s, [Begin(t, a.GetKey(), a), Begin(t', a.GetKey(), a), CheckMaster(t), CheckMaster(t')]).commands ==
            s.commands
  {
    RunFour(s, Begin(t, a.GetKey(), a), Begin(t', a.GetKey(), a), CheckMaster(t), CheckMaster(t'));
  }

  lemma TwiceClaimed(s: State, t: Ticket, t': Ticket, u: Ticket, a: NodeInfo, peer: Peer, now: int)
    requires t in s.registrations && s.registrations[t] == Registration(a.GetKey(), a, Free)
    requires t' in s.registrations && s.registrations[t'] == Registration(a.GetKey(), a, Free)
    requires t != t' && u !in s.commands
    ensures var s2 := Run(s, [ClaimMaster(t), Enlist(t, peer, now), ClaimMaster(t'), Sweep({a.GetKey()}, None, u)]);
            var s3 := Apply(s2, Enlist(t', peer, now));
            a.GetKey() in s3.reg.nodeList && s3.reg.nodeList[a.GetKey()] == a && s3.reg.masterNode.None?
  {
    RunFour(s, ClaimMaster(t), Enlist(t, peer, now), ClaimMaster(t'), Sweep({a.GetKey()}, None, u));
    var s1 := Apply(Apply(Apply(s, ClaimMaster(t)), Enlist(t, peer, now)), ClaimMaster(t'));
    assert s1.reg.masterNode == Some(a) && s1.registrations[t'] == Registration(a.GetKey(), a, Ready);
    assert a.GetKey() in s1.reg.nodeState && s1.commands == s.commands;
  }

  /** Why a slave must not take the entry of the master over: cleared under an older master, it is listed where the
      new master was, and no node is listed as a master any more. */
  lemma SlaveReplacesMaster(s: State, t: Ticket, u: Ticket, a: NodeInfo, b: NodeInfo, peer: Peer, now: int)
    requires Initial(s) && a.nodeType == Master && b.nodeType == Slave && a.GetKey() != b.GetKey()
    ensures var m := b.(nodeType := Master);
            var s1 := Run(s, [Register(a.GetKey(), a, peer, now), Begin(t, b.GetKey(), b), CheckMaster(t),
                              Sweep({a.GetKey()}, None, u)]);
            var s2 := Apply(Apply(s1, Register(m.GetKey(), m, peer, now)), Enlist(t, peer, now));
            && s2.reg.masterNode == Some(m)
            && s2.reg.nodeList.Keys == {m.GetKey()} && s2.reg.nodeList[m.GetKey()] == b
            && s2.registrations.Keys == {} && s2.commands.Keys == {}
  {
    var m := b.(nodeType := Master);
    RunFour(s, Register(a.GetKey(), a, peer, now), Begin(t, b.GetKey(), b), CheckMaster(t),
            Sweep({a.GetKey()}, None, u));
    var s0 := Apply(Apply(Apply(s, Register(a.GetKey(), a, peer, now)), Begin(t, b.GetKey(), b)), CheckMaster(t));
    assert s0.reg.masterNode == Some(a) && s0.registrations[t] == Registration(b.GetKey(), b, Ready);
    assert a.GetKey() in s0.reg.nodeState;
    var s1 := Apply(s0, Sweep({a.GetKey()}, None, u));
    assert s1.reg.masterNode.None? && s1.reg.nodeList.Keys == {};
    assert m.GetKey() == b.GetKey();
  }

  /** And why no election may start while one is pending: the rival dies, and a second node is told to take over. */
  lemma RivalMeansTwoElections(s: State, key: string, rival: NodeInfo, peer: Peer, now: int, t: Ticket, t': Ticket,
                               survivor: string)
    requires ChainOk(s) && Enabled(s, Register(key, rival, peer, now))
    requires RivalRegisters(s, Register(key, rival, peer, now))
    requires t in s.commands && t' !in s.commands && survivor in s.reg.nodeList
    ensures var s2 := Apply(Apply(s, Register(key, rival, peer, now)), Sweep({key}, Some(survivor), t'));
            t != t' && t in s2.commands && t' in s2.commands
  {
    var s1 := Apply(s, Register(key, rival, peer, now));
    assert s1.reg.masterNode == Some(rival) && key in s1.reg.nodeState && survivor in s1.reg.nodeList;
  }

  /** The run of `SlaveReplacesMaster` keeps the plain property all along; only the stronger invariant sees it. */
  lemma SlaveReplacesMasterUnseen(s: State, t: Ticket, u: Ticket, a: NodeInfo, b: NodeInfo, peer: Peer, now: int)
    requires Initial(s) && a.nodeType == Master && b.nodeType == Slave && a.GetKey() != b.GetKey()
    ensures var m := b.(nodeType := Master);
            var s1 := Run(s, [Register(a.GetKey(), a, peer, now), Begin(t, b.GetKey(), b), CheckMaster(t),
                              Sweep({a.GetKey()}, None, u)]);
            var s2 := Apply(Apply(s1, Register(m.GetKey(), m, peer, now)), Enlist(t, peer, now));
            AtMostOne(s2) && !OneMaster(s2)
  {
    SlaveReplacesMaster(s, t, u, a, b, peer, now);
  }

  /** A stateless master that does get its state back: after the run of `LateAnswerLosesState` up to the late answer,
      the node begins to register once more before it answers, and is listed again afterwards. Every step is guarded. */
  lemma SecondRegistrationGivesState(s: State, r: Ticket, t: Ticket, m: NodeInfo, peer: Peer, now: int)
    requires s.reg.masterNode.None? && m.nodeType == Master && m.GetKey() !in s.reg.nodeList
    requires s.registrations.Keys == {} && s.commands.Keys == {t} && s.commands[t] == m.GetKey()
    ensures var steps := [Begin(r, m.GetKey(), m), CheckMaster(r), Answer(t, m), ClaimMaster(r)];
            var s1 := Run(s, steps);
            var s2 := Apply(s1, Enlist(r, peer, now));
            && AllGuarded(s, steps) && Guarded(s1, Enlist(r, peer, now))
            && (m.GetKey() !in s.reg.nodeState ==> StatelessMaster(s1, m))
            && s2.reg.masterNode == Some(m) && m.GetKey() in s2.reg.nodeState
  {
    var a, b, c, d := Begin(r, m.GetKey(), m), CheckMaster(r), Answer(t, m), ClaimMaster(r);
    RunFour(s, a, b, c, d);
    var s0 := Apply(Apply(s, a), b);
    assert s0.registrations[r] == Registration(m.GetKey(), m, Free) && s0.commands == s.commands && s0.reg == s.reg;
    var s1 := Apply(s0, c);
    assert s1.commands.Keys == {} && s1.reg.masterNode == Some(m) && s1.registrations == s0.registrations;
    var s2 := Apply(s1, d);
    assert s2.registrations[r] == Registration(m.GetKey(), m, Ready) && s2.reg == s1.reg;
    GuardedFour(s, a, b, c, d);
  }

  lemma GuardedFour(s: State, a: Step, b: Step, c: Step, d: Step)
    requires Guarded(s, a) && Guarded(Apply(s, a), b) && Guarded(Apply(Apply(s, a), b), c)
    requires Guarded(Apply(Apply(Apply(s, a), b), c), d)
    ensures AllGuarded(s, [a, b, c, d])
  {
    var s3 := Apply(Apply(Apply(s, a), b), c);
    assert [a, b, c, d][1..] == [b, c, d] && [b, c, d][1..] == [c, d] && [c, d][1..] == [d] && [d][1..] == [];
    assert AllGuarded(Apply(s3, d), []);
    assert AllGuarded(s3, [d]);
    assert AllGuarded(Apply(Apply(s, a), b), [c, d]);
    assert AllGuarded(Apply(s, a), [b, c, d]);
  }
}
