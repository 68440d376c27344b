/** Requests and replies over whole runs of a cluster: who is answered, and which requests are not. */
module Replies {
  import opened Basic
  import MapTool
  import opened Simulation
  import opened Handler
  import opened Cluster
  import opened ClusterTheorems

  ghost predicate Asked(step: Step, n: NodeKey, t: Ticket, peer: Peer) {
    step.ClientMessage? && step.node == n && step.ticket == t && step.peer == peer
  }

  lemma RequestsGrow(conf: Config, s: State, step: Step, t: Ticket)
    ensures t in s.requests && Enabled(conf, s, step) && (step.ClientMessage? || step.ClientSilent?) ==>
              step.ticket != t
    ensures t in Apply(conf, s, step).requests ==>
              || (t in s.requests && Apply(conf, s, step).requests[t] == s.requests[t])
              || (step.ClientMessage? && step.ticket == t
                  && Apply(conf, s, step).requests[t] == Request(step.node, Some(step.peer)))
              || Apply(conf, s, step).requests[t].clientPeer == None
  {
  }

  lemma {:induction false} RequestsWereAsked(conf: Config, s: State, steps: seq<Step>, t: Ticket)
    requires Initial(s)
    ensures var r := Run(conf, s, steps).requests;
            t in r && r[t].clientPeer.Some? ==>
              exists k :: 0 <= k < |steps| && Asked(steps[k], r[t].node, t, r[t].clientPeer.value)
    decreases |steps|
  {
    if steps != [] {
      var before := steps[..|steps| - 1];
      var step := steps[|steps| - 1];
      var mid := Run(conf, s, before);
      RequestsWereAsked(conf, s, before, t);
      RequestsGrow(conf, mid, step, t);
      var r := Run(conf, s, steps).requests;
      if t in r && r[t].clientPeer.Some? {
        if t in mid.requests && r[t] == mid.requests[t] {
          var k :| 0 <= k < |before| && Asked(before[k], r[t].node, t, r[t].clientPeer.value);
          assert steps[k] == before[k];
        } else {
          assert Asked(steps[|steps| - 1], r[t].node, t, r[t].clientPeer.value);
        }
      }
    }
  }

  /** Everything a slave ever sends to a client answers a message that this very client has sent to this very
      slave, and no message is answered twice. */
  lemma RepliesReachTheAsker(conf: Config, s: State, steps: seq<Step>, i: nat, j: nat)
    requires Initial(s)
    requires i < |Run(conf, s, steps).delivered| && j < |Run(conf, s, steps).delivered|
    ensures var d := Run(conf, s, steps).delivered;
            && (exists k :: 0 <= k < |steps| && Asked(steps[k], d[i].node, d[i].ticket, d[i].peer))
            && (d[i].ticket == d[j].ticket ==> i == j)
  {
    ReachableInv(conf, s, steps);
    RequestsWereAsked(conf, s, steps, Run(conf, s, steps).delivered[i].ticket);
  }

  // ----- every request of a client is answered unless a handler panics -----

  ghost predicate Answers(delivered: seq<Delivery>, t: Ticket) {
    exists i :: 0 <= i < |delivered| && delivered[i].ticket == t
  }

  /** On its way to the master, on its way back, or answered. */
  ghost predicate Underway(s: State, t: Ticket) {
    t in s.pending || t in s.replies || Answers(s.delivered, t)
  }

  predicate FromAClient(s: State, t: Ticket) {
    t in s.requests && s.requests[t].clientPeer.Some?
  }

  /** A slave panics on a logout without session, the master on the removal of a user without a tile. */
  ghost predicate Panics(conf: Config, s: State, step: Step, t: Ticket) {
    Enabled(conf, s, step) &&
    match step
    case ClientMessage(n, ticket, _, msg) =>
      ticket == t && msg.op.Logout? && msg.clientId !in s.slaves[n].clients
    case MasterHandles(ticket) =>
      var op := s.pending[ticket].msg.op;
      && ticket == t && op.DelUser? && op.id in s.master.world.users
      && !MapTool.Tiled(s.master.world.users[op.id].position)
    case _ => false
  }

  lemma SlaveHandlesExactly(conf: Config, node: Node, msg: Message, peer: Peer)
    requires node.isSlave && FromClient(msg.op)
    ensures var e := Handle(conf, node, msg, peer);
            && (e.panicked <==> msg.op.Logout? && msg.clientId !in node.clients)
            && (e.panicked <==> e.toMaster == [] && e.toClient == [])
  {
  }

  lemma MasterHandlesExactly(conf: Config, node: Node, msg: Message, peer: Peer)
    requires !node.isSlave && Forwarded(msg.op) && WorldInv(node.world)
    ensures var e := Handle(conf, node, msg, peer);
            && (e.panicked <==> msg.op.DelUser? && msg.op.id in node.world.users
                                && !MapTool.Tiled(node.world.users[msg.op.id].position))
            && (e.panicked <==> e.toClient == [])
  {
    if msg.op.DelUser? && msg.op.id in node.world.users {
      RemovePanicsExactly(node.world, msg.op.id);
    }
  }

  lemma OneMoreAnswer(delivered: seq<Delivery>, d: Delivery, t: Ticket)
    ensures Answers(delivered + [d], t) <==> Answers(delivered, t) || d.ticket == t
  {
    var more := delivered + [d];
    assert more[|delivered|] == d;
    if Answers(delivered, t) {
      var i :| 0 <= i < |delivered| && delivered[i].ticket == t;
      assert more[i].ticket == t;
    }
  }

  lemma AfterSlaveUnderway(s: State, n: NodeKey, ticket: Ticket, request: Request, e: Effect, t: Ticket)
    requires |e.toMaster| + |e.toClient| <= 1
    ensures Underway(AfterSlave(s, n, ticket, request, e), t) <==>
            Underway(s, t) || (t == ticket && (e.toMaster != [] || e.toClient != []))
  {
    if e.toClient != [] {
      OneMoreAnswer(s.delivered, Delivery(n, e.toClient[0].peer, ticket, e.toClient[0].body), t);
    }
  }

  lemma ClientMessageUnderway(conf: Config, s: State, n: NodeKey, ticket: Ticket, peer: Peer, msg: Message, t: Ticket)
    requires RolesOk(s) && Enabled(conf, s, ClientMessage(n, ticket, peer, msg))
    ensures var step := ClientMessage(n, ticket, peer, msg);
            Underway(Apply(conf, s, step), t) <==> Underway(s, t) || (t == ticket && !Panics(conf, s, step, t))
  {
    SlaveHandlesExactly(conf, s.slaves[n], msg, peer);
    SlaveEffect(conf, s.slaves[n], msg, peer);
    AfterSlaveUnderway(s.(owner := OwnerAfter(s, s.slaves[n], msg, AtSlave(n))), n, ticket, Request(n, Some(peer)),
                       Handle(conf, s.slaves[n], msg, peer), t);
  }

  lemma MasterHandlesUnderway(conf: Config, s: State, ticket: Ticket, t: Ticket)
    requires RolesOk(s) && RouteOk(s) && WorldInv(s.master.world) && ticket in s.pending
    ensures Underway(Apply(conf, s, MasterHandles(ticket)), t) <==>
            Underway(s, t) && !Panics(conf, s, MasterHandles(ticket), t)
  {
    MasterHandlesExactly(conf, s.master, s.pending[ticket].msg, s.pending[ticket].from);
  }

  lemma ForwardUnderway(conf: Config, s: State, ticket: Ticket, t: Ticket)
    requires RouteOk(s) && ticket in s.replies && FromAClient(s, t)
    ensures Underway(Apply(conf, s, SlaveForwards(ticket)), t) <==> Underway(s, t)
  {
    var r := s.replies[ticket];
    if r.reply.clientPeer.Some? {
      OneMoreAnswer(s.delivered, Delivery(r.to, r.reply.clientPeer.value, ticket, r.reply.body), t);
    }
  }

  lemma OtherStepUnderway(conf: Config, s: State, step: Step, t: Ticket)
    requires step.MasterClientMessage? || step.MasterClientSilent? || step.TickAndPublish? || step.SlaveSyncs?
    ensures Underway(Apply(conf, s, step), t) <==> Underway(s, t)
    ensures Apply(conf, s, step).requests == s.requests
  {
  }

  lemma RequestsKept(conf: Config, s: State, step: Step, t: Ticket)
    requires t in s.requests
    ensures t in Apply(conf, s, step).requests && Apply(conf, s, step).requests[t] == s.requests[t]
  {
  }

  lemma RequestIsNew(conf: Config, s: State, step: Step, t: Ticket)
    requires t !in s.requests && FromAClient(Apply(conf, s, step), t)
    ensures step.ClientMessage? && step.ticket == t && Enabled(conf, s, step)
  {
  }

  /** A step leaves a client's request underway, or puts a new one underway, exactly when it does not panic on it. */
  lemma StepUnderway(conf: Config, s: State, step: Step, t: Ticket)
    requires ClusterInv(s) && FromAClient(Apply(conf, s, step), t)
    ensures Underway(Apply(conf, s, step), t) <==>
            (t in s.requests ==> Underway(s, t)) && !Panics(conf, s, step, t)
  {
    if t !in s.requests {
      RequestIsNew(conf, s, step, t);
      ClientMessageUnderway(conf, s, step.node, step.ticket, step.peer, step.msg, t);
    } else if Enabled(conf, s, step) {
      RequestsKept(conf, s, step, t);
      OldRequestUnderway(conf, s, step, t);
    }
  }

  lemma OldRequestUnderway(conf: Config, s: State, step: Step, t: Ticket)
    requires RolesOk(s) && RouteOk(s) && WorldInv(s.master.world) && Enabled(conf, s, step) && FromAClient(s, t)
    ensures Underway(Apply(conf, s, step), t) <==> Underway(s, t) && !Panics(conf, s, step, t)
  {
    match step {
      case ClientMessage(n, ticket, peer, msg) => ClientMessageUnderway(conf, s, n, ticket, peer, msg, t);
      case ClientSilent(n, ticket, client) =>
        AfterSlaveUnderway(s, n, ticket, Request(n, None), LoseClient(s.slaves[n], client), t);
      case MasterHandles(ticket) => MasterHandlesUnderway(conf, s, ticket, t);
      case SlaveForwards(ticket) => ForwardUnderway(conf, s, ticket, t);
      case _ => OtherStepUnderway(conf, s, step, t);
    }
  }

  ghost predicate PanickedAt(conf: Config, s: State, steps: seq<Step>, k: nat, t: Ticket)
    requires k < |steps|
  {
    Panics(conf, Run(conf, s, steps[..k]), steps[k], t)
  }

  ghost predicate NeverPanicked(conf: Config, s: State, steps: seq<Step>, t: Ticket) {
    forall k | 0 <= k < |steps| :: !PanickedAt(conf, s, steps, k, t)
  }

  lemma NeverPanickedStep(conf: Config, s: State, steps: seq<Step>, t: Ticket)
    requires steps != []
    ensures var last := |steps| - 1;
            NeverPanicked(conf, s, steps, t) <==>
            NeverPanicked(conf, s, steps[..last], t) && !Panics(conf, Run(conf, s, steps[..last]), steps[last], t)
  {
    var last := |steps| - 1;
    var before := steps[..last];
    forall k | 0 <= k < last ensures PanickedAt(conf, s, steps, k, t) <==> PanickedAt(conf, s, before, k, t) {
      assert steps[..k] == before[..k];
    }
    if NeverPanicked(conf, s, steps, t) {
      assert !PanickedAt(conf, s, steps, last, t);
    }
  }

  lemma PanicsOnRequest(conf: Config, s: State, step: Step, t: Ticket)
    requires RouteOk(s) && Panics(conf, s, step, t)
    ensures t in Apply(conf, s, step).requests
  {
  }

  lemma {:induction false} UnknownNeverPanicked(conf: Config, s: State, steps: seq<Step>, t: Ticket)
    requires Initial(s) && t !in Run(conf, s, steps).requests
    ensures NeverPanicked(conf, s, steps, t)
    decreases |steps|
  {
    if steps != [] {
      var last := |steps| - 1;
      var mid := Run(conf, s, steps[..last]);
      ReachableInv(conf, s, steps[..last]);
      if t in mid.requests {
        RequestsKept(conf, mid, steps[last], t);
      }
      if Panics(conf, mid, steps[last], t) {
        PanicsOnRequest(conf, mid, steps[last], t);
      }
      UnknownNeverPanicked(conf, s, steps[..last], t);
      NeverPanickedStep(conf, s, steps, t);
    }
  }

  /** At any point of any run, a request that a client has sent to a slave is on its way, on its way back or
      answered, exactly when no handler has panicked on it. */
  lemma {:induction false} RequestsAreAnsweredExactly(conf: Config, s: State, steps: seq<Step>, t: Ticket)
    requires Initial(s) && FromAClient(Run(conf, s, steps), t)
    ensures Underway(Run(conf, s, steps), t) <==> NeverPanicked(conf, s, steps, t)
    decreases |steps|
  {
    if steps != [] {
      var last := |steps| - 1;
      var mid := Run(conf, s, steps[..last]);
      ReachableInv(conf, s, steps[..last]);
      StepUnderway(conf, mid, steps[last], t);
      if t in mid.requests {
        RequestsKept(conf, mid, steps[last], t);
        RequestsAreAnsweredExactly(conf, s, steps[..last], t);
      } else {
        UnknownNeverPanicked(conf, s, steps[..last], t);
      }
      NeverPanickedStep(conf, s, steps, t);
    }
  }

  /** A request that gets lost: a logout without session is never answered. */
  lemma LogoutWithoutSessionIsLost(conf: Config, s: State, n: NodeKey, t: Ticket, peer: Peer, client: ClientId)
    requires Initial(s) && n in s.slaves
    ensures var s' := Apply(conf, s, ClientMessage(n, t, peer, Message(client, None, Logout)));
            FromAClient(s', t) && !Underway(s', t)
  {
    ClientMessageUnderway(conf, s, n, t, peer, Message(client, None, Logout), t);
  }
}
