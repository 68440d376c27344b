/** What clients are told: every answer that a slave delivers is the answer to what that client asked. */
module Answers {
  import opened Basic
  import opened Tiles
  import opened WorldSpec
  import opened Simulation
  import opened Handler
  import opened Cluster
  import opened ClusterTheorems

  // ----- one message at one server -----

  /** The answer to a client's message, from what the server knows when the message comes in. */
  ghost function AnswerTo(node: Node, msg: Message): ReplyBody {
    match msg.op
    case Login(user) => if msg.clientId in node.clients then AlreadyIn else NewUser(user.id)
    case Logout => if node.isSlave then Deleted else LoggedOut
    case Aoe(_, _, _) => AoeDone
    case SetVelocity(_, _) => VelocitySet
    case Query(scope) =>
      var users := Flat(node.world.maps);
      Users(set id | id in users && scope.Contains(users[id].position) :: users[id])
    case AddUser(user) => NewUser(user.id)
    case DelUser(_) => Deleted
  }

  /** A master, or a server on its own, sends one answer, to the peer that asked, unless it panics. */
  lemma MasterAnswersAsker(conf: Config, node: Node, msg: Message, peer: Peer)
    requires !node.isSlave
    ensures var e := Handle(conf, node, msg, peer);
            && (e.panicked <==> e.toClient == [])
            && (!e.panicked ==> |e.toClient| == 1 && e.toClient[0].peer == peer
                                && e.toClient[0].body == AnswerTo(node, msg))
  {
  }

  /** Forwarding is transparent: the world becomes what it would become if the master had the sessions of the slave
      and the client had asked the master itself. */
  lemma ForwardingIsTransparent(conf: Config, slave: Node, master: Node, msg: Message, peer: Peer)
    requires slave.isSlave && !master.isSlave && FromClient(msg.op)
    requires Handle(conf, slave, msg, peer).toMaster != []
    ensures Handle(conf, master, Handle(conf, slave, msg, peer).toMaster[0], slave.key).node.world ==
            Handle(conf, master.(clients := slave.clients), msg, peer).node.world
  {
  }

  // ----- runs -----

  /** In step k the client behind `peer` has sent a message to slave n, and `body` is the answer to it. */
  ghost predicate AskedAt(conf: Config, s: State, steps: seq<Step>, k: nat, n: NodeKey, t: Ticket, peer: Peer,
                          body: ReplyBody)
    requires k < |steps|
  {
    var before := Run(conf, s, steps[..k]);
    var step := steps[k];
    && step.ClientMessage? && step.node == n && step.ticket == t && step.peer == peer
    && Enabled(conf, before, step) && body == AnswerTo(before.slaves[n], step.msg)
  }

  ghost predicate Asked(conf: Config, s: State, steps: seq<Step>, n: NodeKey, t: Ticket, peer: Peer, body: ReplyBody) {
    exists k :: 0 <= k < |steps| && AskedAt(conf, s, steps, k, n, t, peer, body)
  }

  /** The answer a forwarded message is due. */
  function Due(op: Operation): ReplyBody {
    match op
    case AddUser(user) => NewUser(user.id)
    case Aoe(_, _, _) => AoeDone
    case SetVelocity(_, _) => VelocitySet
    case _ => Deleted
  }

  ghost predicate PendingAsked(conf: Config, s: State, steps: seq<Step>, p: map<Ticket, InFlight>) {
    forall t | t in p && p[t].msg.clientPeer.Some? ::
      Asked(conf, s, steps, p[t].from, t, p[t].msg.clientPeer.value, Due(p[t].msg.op))
  }

  ghost predicate RepliesAsked(conf: Config, s: State, steps: seq<Step>, r: map<Ticket, InReply>) {
    forall t | t in r && r[t].reply.clientPeer.Some? ::
      Asked(conf, s, steps, r[t].to, t, r[t].reply.clientPeer.value, r[t].reply.body)
  }

  ghost predicate DeliveredAsked(conf: Config, s: State, steps: seq<Step>, d: seq<Delivery>) {
    forall i | 0 <= i < |d| :: Asked(conf, s, steps, d[i].node, d[i].ticket, d[i].peer, d[i].body)
  }

  lemma AskedLonger(conf: Config, s: State, steps: seq<Step>, n: NodeKey, t: Ticket, peer: Peer, body: ReplyBody)
    requires steps != [] && Asked(conf, s, steps[..|steps| - 1], n, t, peer, body)
    ensures Asked(conf, s, steps, n, t, peer, body)
  {
    var before := steps[..|steps| - 1];
    var k :| 0 <= k < |before| && AskedAt(conf, s, before, k, n, t, peer, body);
    assert steps[..k] == before[..k];
    assert AskedAt(conf, s, steps, k, n, t, peer, body);
  }

  lemma AskedNow(conf: Config, s: State, steps: seq<Step>)
    requires steps != []
    requires var step := steps[|steps| - 1];
             step.ClientMessage? && Enabled(conf, Run(conf, s, steps[..|steps| - 1]), step)
    ensures var step := steps[|steps| - 1];
            var slave := Run(conf, s, steps[..|steps| - 1]).slaves[step.node];
            Asked(conf, s, steps, step.node, step.ticket, step.peer, AnswerTo(slave, step.msg))
  {
    var step := steps[|steps| - 1];
    var slave := Run(conf, s, steps[..|steps| - 1]).slaves[step.node];
    assert AskedAt(conf, s, steps, |steps| - 1, step.node, step.ticket, step.peer, AnswerTo(slave, step.msg));
  }

  /** A slave answers a client as it should, or sends the master a message that is due that very answer. */
  lemma SlaveSendsDue(conf: Config, node: Node, msg: Message, peer: Peer)
    requires node.isSlave && FromClient(msg.op)
    ensures var e := Handle(conf, node, msg, peer);
            && (e.toMaster != [] ==>
                  Due(e.toMaster[0].op) == AnswerTo(node, msg) && e.toMaster[0].clientPeer == Some(peer))
            && (e.toClient != [] ==> e.toClient[0].body == AnswerTo(node, msg) && e.toClient[0].peer == peer)
  {
  }

  lemma MasterSendsDue(conf: Config, node: Node, msg: Message, peer: Peer)
    requires !node.isSlave && Forwarded(msg.op)
    ensures var e := Handle(conf, node, msg, peer);
            e.toClient != [] ==> e.toClient[0].body == Due(msg.op) && e.toClient[0].clientPeer == msg.clientPeer
  {
  }

  lemma PendingStep(conf: Config, s: State, steps: seq<Step>)
    requires steps != []
    requires var mid := Run(conf, s, steps[..|steps| - 1]);
             RolesOk(mid) && PendingAsked(conf, s, steps[..|steps| - 1], mid.pending)
    ensures PendingAsked(conf, s, steps, Run(conf, s, steps).pending)
  {
    var before, step := steps[..|steps| - 1], steps[|steps| - 1];
    var mid, now := Run(conf, s, before), Run(conf, s, steps);
    forall t | t in now.pending && now.pending[t].msg.clientPeer.Some?
      ensures var p := now.pending[t];
              Asked(conf, s, steps, p.from, t, p.msg.clientPeer.value, Due(p.msg.op))
    {
      var p := now.pending[t];
      if t in mid.pending && p == mid.pending[t] {
        AskedLonger(conf, s, steps, p.from, t, p.msg.clientPeer.value, Due(p.msg.op));
      } else {
        NewPending(conf, mid, step, t);
        SlaveSendsDue(conf, mid.slaves[step.node], step.msg, step.peer);
        AskedNow(conf, s, steps);
      }
    }
  }

  lemma NewPending(conf: Config, s: State, step: Step, t: Ticket)
    requires var s' := Apply(conf, s, step);
             && t in s'.pending && s'.pending[t].msg.clientPeer.Some?
             && !(t in s.pending && s'.pending[t] == s.pending[t])
    ensures Enabled(conf, s, step) && step.ClientMessage? && step.ticket == t
    ensures var e := Handle(conf, s.slaves[step.node], step.msg, step.peer);
            e.toMaster != [] && Apply(conf, s, step).pending[t] == InFlight(step.node, e.toMaster[0])
  {
  }

  lemma RepliesStep(conf: Config, s: State, steps: seq<Step>)
    requires steps != []
    requires var mid := Run(conf, s, steps[..|steps| - 1]);
             && RolesOk(mid) && PendingAsked(conf, s, steps[..|steps| - 1], mid.pending)
             && RepliesAsked(conf, s, steps[..|steps| - 1], mid.replies)
    ensures RepliesAsked(conf, s, steps, Run(conf, s, steps).replies)
  {
    var before, step := steps[..|steps| - 1], steps[|steps| - 1];
    var mid, now := Run(conf, s, before), Run(conf, s, steps);
    forall t | t in now.replies && now.replies[t].reply.clientPeer.Some?
      ensures var r := now.replies[t];
              Asked(conf, s, steps, r.to, t, r.reply.clientPeer.value, r.reply.body)
    {
      var r := now.replies[t];
      if !(t in mid.replies && r == mid.replies[t]) {
        NewReply(conf, mid, step, t);
        MasterSendsDue(conf, mid.master, mid.pending[t].msg, mid.pending[t].from);
      }
      AskedLonger(conf, s, steps, r.to, t, r.reply.clientPeer.value, r.reply.body);
    }
  }

  lemma NewReply(conf: Config, s: State, step: Step, t: Ticket)
    requires var s' := Apply(conf, s, step);
             t in s'.replies && !(t in s.replies && s'.replies[t] == s.replies[t])
    ensures Enabled(conf, s, step) && step == MasterHandles(t)
    ensures var m := s.pending[t];
            var e := Handle(conf, s.master, m.msg, m.from);
            e.toClient != [] && Apply(conf, s, step).replies[t] == InReply(m.from, e.toClient[0])
  {
  }

  lemma DeliveredStep(conf: Config, s: State, steps: seq<Step>)
    requires steps != []
    requires var mid := Run(conf, s, steps[..|steps| - 1]);
             && RolesOk(mid) && RepliesAsked(conf, s, steps[..|steps| - 1], mid.replies)
             && DeliveredAsked(conf, s, steps[..|steps| - 1], mid.delivered)
    ensures DeliveredAsked(conf, s, steps, Run(conf, s, steps).delivered)
  {
    var before, step := steps[..|steps| - 1], steps[|steps| - 1];
    var mid, now := Run(conf, s, before), Run(conf, s, steps);
    DeliveredGrows(conf, mid, step);
    forall i | 0 <= i < |now.delivered|
      ensures var d := now.delivered[i]; Asked(conf, s, steps, d.node, d.ticket, d.peer, d.body)
    {
      var d := now.delivered[i];
      if i < |mid.delivered| {
        assert d == mid.delivered[i];
        AskedLonger(conf, s, steps, d.node, d.ticket, d.peer, d.body);
      } else if step.ClientMessage? {
        SlaveSendsDue(conf, mid.slaves[step.node], step.msg, step.peer);
        AskedNow(conf, s, steps);
      } else {
        AskedLonger(conf, s, steps, d.node, d.ticket, d.peer, d.body);
      }
    }
  }

  /** A slave delivers its own answer, or a copy of a reply of the master. */
  lemma DeliveredGrows(conf: Config, s: State, step: Step)
    ensures var s' := Apply(conf, s, step);
            && |s.delivered| <= |s'.delivered| <= |s.delivered| + 1 && s.delivered <= s'.delivered
            && (|s'.delivered| > |s.delivered| ==>
                  var d := s'.delivered[|s.delivered|];
                  && Enabled(conf, s, step) && (step.ClientMessage? || step.SlaveForwards? || step.ClientSilent?)
                  && (step.ClientMessage? ==>
                        var e := Handle(conf, s.slaves[step.node], step.msg, step.peer);
                        && e.toClient != []
                        && d == Delivery(step.node, e.toClient[0].peer, step.ticket, e.toClient[0].body))
                  && !step.ClientSilent?
                  && (step.SlaveForwards? ==>
                        var r := s.replies[step.ticket];
                        && r.reply.clientPeer.Some?
                        && d == Delivery(r.to, r.reply.clientPeer.value, step.ticket, r.reply.body)))
  {
  }

  lemma {:induction false} AllAsked(conf: Config, s: State, steps: seq<Step>)
    requires Initial(s)
    ensures var now := Run(conf, s, steps);
            && PendingAsked(conf, s, steps, now.pending) && RepliesAsked(conf, s, steps, now.replies)
            && DeliveredAsked(conf, s, steps, now.delivered)
    decreases |steps|
  {
    if steps != [] {
      AllAsked(conf, s, steps[..|steps| - 1]);
      ReachableInv(conf, s, steps[..|steps| - 1]);
      PendingStep(conf, s, steps);
      RepliesStep(conf, s, steps);
      DeliveredStep(conf, s, steps);
    }
  }

  /** In every reachable state: whatever a slave has delivered to a client is the answer to the message that this
      client has sent to this slave under this ticket, from what the slave knew when the message came in: the id of
      the new user, or that the client is logged in already; that the user is deleted; that the aoe is done or the
      velocity set; or the full scan of the slave's tiles. */
  lemma DeliveriesAnswerRequests(conf: Config, s: State, steps: seq<Step>, i: nat)
    requires Initial(s) && i < |Run(conf, s, steps).delivered|
    ensures var d := Run(conf, s, steps).delivered[i];
            exists k :: 0 <= k < |steps| && AskedAt(conf, s, steps, k, d.node, d.ticket, d.peer, d.body)
  {
    AllAsked(conf, s, steps);
    var d := Run(conf, s, steps).delivered[i];
    assert Asked(conf, s, steps, d.node, d.ticket, d.peer, d.body);
  }
}
