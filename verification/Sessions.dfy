/** Session bookkeeping of a cluster, apart from the worlds: who has a session where, which additions and
    removals are on the way to the master, and which ids the master's world holds. */
module Sessions {
  import opened Basic
  import opened Handler
  import opened Cluster

  type Flights = map<Ticket, InFlight>

  datatype View = View(
    clients: map<NodeKey, map<ClientId, UserId>>,
    masterClients: map<ClientId, UserId>,
    pending: Flights,
    onMaster: set<UserId>,
    owner: map<UserId, Owner>,
    departed: set<UserId>)

  /** What a step of the cluster amounts to for the sessions. */
  datatype Move =
    | Open(node: NodeKey, client: ClientId, id: UserId, ticket: Ticket, flight: InFlight)
    | Close(node: NodeKey, client: ClientId, ticket: Ticket, flight: InFlight)
    | Send(ticket: Ticket, flight: InFlight)
    | HandleAdd(ticket: Ticket)
    | HandleDel(ticket: Ticket, removed: bool)
    | HandleOther(ticket: Ticket)
    | MasterOpen(client: ClientId, id: UserId)
    | MasterClose(client: ClientId, removed: bool)
    | Shrink(left: set<UserId>)
    | Idle

  /** The ids whose AddUser message has not been handled yet. */
  ghost function Adding(p: Flights): set<UserId> {
    set t | t in p && p[t].msg.op.AddUser? :: p[t].msg.op.user.id
  }

  /** The ids whose DelUser message has not been handled yet. */
  ghost function Deleting(p: Flights): set<UserId> {
    set t | t in p && p[t].msg.op.DelUser? :: p[t].msg.op.id
  }

  function AddedBy(m: InFlight): set<UserId> {
    if m.msg.op.AddUser? then {m.msg.op.user.id} else {}
  }

  function DeletedBy(m: InFlight): set<UserId> {
    if m.msg.op.DelUser? then {m.msg.op.id} else {}
  }

  /** No id is on its way twice. */
  ghost predicate OnceInFlight(p: Flights) {
    && (forall t, t' | t in p && t' in p && p[t].msg.op.AddUser? && p[t'].msg.op.AddUser?
          && p[t].msg.op.user.id == p[t'].msg.op.user.id :: t == t')
    && (forall t, t' | t in p && t' in p && p[t].msg.op.DelUser? && p[t'].msg.op.DelUser?
          && p[t].msg.op.id == p[t'].msg.op.id :: t == t')
  }

  ghost predicate Possible(v: View, move: Move) {
    match move
    case Open(n, c, id, t, m) =>
      && n in v.clients && c !in v.clients[n] && id !in v.owner && t !in v.pending
      && m.msg.op.AddUser? && m.msg.op.user.id == id
    case Close(n, c, t, m) =>
      n in v.clients && c in v.clients[n] && t !in v.pending && m.msg.op == DelUser(v.clients[n][c])
    case Send(t, m) => t !in v.pending && !m.msg.op.AddUser? && !m.msg.op.DelUser?
    case HandleAdd(t) => t in v.pending && v.pending[t].msg.op.AddUser?
    case HandleDel(t, removed) => t in v.pending && v.pending[t].msg.op.DelUser?
    case HandleOther(t) => t in v.pending && !v.pending[t].msg.op.AddUser? && !v.pending[t].msg.op.DelUser?
    case MasterOpen(c, id) => c !in v.masterClients && id !in v.owner
    case MasterClose(c, removed) => c in v.masterClients
    case Shrink(left) => left <= v.onMaster
    case Idle => true
  }

  ghost function Moved(v: View, move: Move): View
    requires Possible(v, move)
  {
    match move
    case Open(n, c, id, t, m) =>
      v.(clients := v.clients[n := v.clients[n][c := id]], owner := v.owner[id := AtSlave(n)],
         pending := v.pending[t := m])
    case Close(n, c, t, m) =>
      v.(clients := v.clients[n := v.clients[n] - {c}], pending := v.pending[t := m])
    case Send(t, m) => v.(pending := v.pending[t := m])
    case HandleAdd(t) => v.(pending := v.pending - {t}, onMaster := v.onMaster + AddedBy(v.pending[t]))
    case HandleDel(t, removed) =>
      var id := v.pending[t].msg.op.id;
      v.(pending := v.pending - {t}, departed := v.departed + {id},
         onMaster := if removed then v.onMaster - {id} else v.onMaster)
    case HandleOther(t) => v.(pending := v.pending - {t})
    case MasterOpen(c, id) =>
      v.(masterClients := v.masterClients[c := id], owner := v.owner[id := AtMaster], onMaster := v.onMaster + {id})
    case MasterClose(c, removed) =>
      v.(masterClients := v.masterClients - {c},
         onMaster := if removed then v.onMaster - {v.masterClients[c]} else v.onMaster)
    case Shrink(left) => v.(onMaster := left)
    case Idle => v
  }

  ghost predicate Owned(v: View, id: UserId, n: NodeKey) {
    id in v.owner && v.owner[id] == AtSlave(n)
  }

  ghost predicate HasSession(v: View, n: NodeKey, id: UserId) {
    n in v.clients && exists c :: c in v.clients[n] && v.clients[n][c] == id
  }

  // ----- what every move keeps -----

  ghost predicate ClientsOk(v: View) {
    && (forall n, c | n in v.clients && c in v.clients[n] ::
          var id := v.clients[n][c];
          Owned(v, id, n) && id !in Deleting(v.pending) && id !in v.departed)
    && (forall n, c, c' | n in v.clients && c in v.clients[n] && c' in v.clients[n]
          && v.clients[n][c] == v.clients[n][c'] :: c == c')
    && (forall c | c in v.masterClients ::
          v.masterClients[c] in v.owner && v.owner[v.masterClients[c]] == AtMaster)
    && (forall id | id in v.owner && v.owner[id].AtSlave? :: v.owner[id].node in v.clients)
  }

  ghost predicate FlightsOk(v: View) {
    && OnceInFlight(v.pending)
    && (forall id | id in Adding(v.pending) ::
          id in v.owner && v.owner[id].AtSlave? && id !in v.onMaster)
    && (forall id | id in Deleting(v.pending) ::
          id in v.owner && v.owner[id].AtSlave? && id !in v.departed)
    && v.onMaster <= v.owner.Keys
    && v.departed <= v.owner.Keys
  }

  /** Every id a slave ever made up has a session there, or its removal is on the way, or was handled. */
  ghost predicate AllAccounted(v: View) {
    forall id | id in v.owner && v.owner[id].AtSlave? ::
      HasSession(v, v.owner[id].node, id) || id in Deleting(v.pending) || id in v.departed
  }

  ghost predicate SessionsOk(v: View) {
    ClientsOk(v) && FlightsOk(v) && AllAccounted(v)
  }

  // ----- the conservation law -----

  /** The users of slave `n` that the master holds, plus those still to be added, minus those to be removed. */
  ghost predicate Expected(v: View, n: NodeKey, id: UserId) {
    Owned(v, id, n) && (id in v.onMaster || id in Adding(v.pending)) && id !in Deleting(v.pending)
  }

  ghost predicate Conserved(v: View) {
    forall n, id | n in v.clients :: HasSession(v, n, id) <==> Expected(v, n, id)
  }

  /** The moves that break the law: a removal handled before the addition of the same user, a removal that
      fails on the master, and a tick that drops a user of a slave whose removal is not on the way. */
  ghost predicate Clean(v: View, move: Move)
    requires Possible(v, move)
  {
    match move
    case HandleDel(t, removed) =>
      var id := v.pending[t].msg.op.id;
      id !in Adding(v.pending) && (id in v.onMaster ==> removed)
    case Shrink(left) =>
      forall id | id in v.onMaster - left && id in v.owner && v.owner[id].AtSlave? :: id in Deleting(v.pending)
    case _ => true
  }

  lemma InFlightAdd(p: Flights, t: Ticket, m: InFlight)
    requires t !in p
    ensures Adding(p[t := m]) == Adding(p) + AddedBy(m)
    ensures Deleting(p[t := m]) == Deleting(p) + DeletedBy(m)
  {
    var p' := p[t := m];
    assert p'[t] == m;
    forall id | id in Adding(p) ensures id in Adding(p') {
      var t' :| t' in p && p[t'].msg.op.AddUser? && p[t'].msg.op.user.id == id;
      assert p'[t'] == p[t'];
    }
    forall id | id in Deleting(p) ensures id in Deleting(p') {
      var t' :| t' in p && p[t'].msg.op.DelUser? && p[t'].msg.op.id == id;
      assert p'[t'] == p[t'];
    }
  }

  lemma OnceAdd(p: Flights, t: Ticket, m: InFlight)
    requires t !in p && OnceInFlight(p) && AddedBy(m) !! Adding(p) && DeletedBy(m) !! Deleting(p)
    ensures OnceInFlight(p[t := m])
  {
    forall t' | t' in p && p[t'].msg.op.AddUser? ensures p[t'].msg.op.user.id in Adding(p) {
    }
    forall t' | t' in p && p[t'].msg.op.DelUser? ensures p[t'].msg.op.id in Deleting(p) {
    }
  }

  lemma InFlightRemove(p: Flights, t: Ticket)
    requires OnceInFlight(p) && t in p
    ensures OnceInFlight(p - {t})
    ensures Adding(p - {t}) == Adding(p) - AddedBy(p[t])
    ensures Deleting(p - {t}) == Deleting(p) - DeletedBy(p[t])
    ensures AddedBy(p[t]) <= Adding(p) && DeletedBy(p[t]) <= Deleting(p)
  {
    var p' := p - {t};
    forall id | id in Adding(p) - AddedBy(p[t]) ensures id in Adding(p') {
      var t' :| t' in p && p[t'].msg.op.AddUser? && p[t'].msg.op.user.id == id;
      assert t' in p' && p'[t'] == p[t'];
    }
    forall id | id in Deleting(p) - DeletedBy(p[t]) ensures id in Deleting(p') {
      var t' :| t' in p && p[t'].msg.op.DelUser? && p[t'].msg.op.id == id;
      assert t' in p' && p'[t'] == p[t'];
    }
  }

  lemma OpenSessions(v: View, n: NodeKey, c: ClientId, id: UserId, n': NodeKey, id': UserId)
    requires n in v.clients && c !in v.clients[n]
    ensures var v' := v.(clients := v.clients[n := v.clients[n][c := id]]);
            HasSession(v', n', id') <==> HasSession(v, n', id') || (n' == n && id' == id)
  {
    var v' := v.(clients := v.clients[n := v.clients[n][c := id]]);
    assert v'.clients[n][c] == id;
    if HasSession(v, n', id') {
      var c' :| c' in v.clients[n'] && v.clients[n'][c'] == id';
      assert c' in v'.clients[n'] && v'.clients[n'][c'] == id';
    }
  }

  lemma CloseSessions(v: View, n: NodeKey, c: ClientId, n': NodeKey, id': UserId)
    requires ClientsOk(v) && n in v.clients && c in v.clients[n]
    ensures var v' := v.(clients := v.clients[n := v.clients[n] - {c}]);
            HasSession(v', n', id') <==> HasSession(v, n', id') && !(n' == n && id' == v.clients[n][c])
  {
    var v' := v.(clients := v.clients[n := v.clients[n] - {c}]);
    if HasSession(v, n', id') && !(n' == n && id' == v.clients[n][c]) {
      var c' :| c' in v.clients[n'] && v.clients[n'][c'] == id';
      assert c' in v'.clients[n'] && v'.clients[n'][c'] == id';
    }
  }

  /** Sessions and pending messages stay well-formed whatever happens, in whatever order. */
  lemma MoveKeepsOk(v: View, move: Move)
    requires SessionsOk(v) && Possible(v, move)
    ensures SessionsOk(Moved(v, move))
  {
    match move {
      case Open(n, c, id, t, m) => OpenKeeps(v, n, c, id, t, m);
      case Close(n, c, t, m) => CloseKeeps(v, n, c, t, m);
      case Send(t, m) => SendKeeps(v, t, m);
      case HandleAdd(t) => HandleKeeps(v, move, t);
      case HandleDel(t, removed) => HandleKeeps(v, move, t);
      case HandleOther(t) => HandleKeeps(v, move, t);
      case _ => MasterSideKeeps(v, move);
    }
  }

  lemma SendKeeps(v: View, t: Ticket, m: InFlight)
    requires SessionsOk(v) && Possible(v, Send(t, m))
    ensures SessionsOk(Moved(v, Send(t, m)))
  {
    InFlightAdd(v.pending, t, m);
    OnceAdd(v.pending, t, m);
  }

  lemma HandleKeeps(v: View, move: Move, t: Ticket)
    requires SessionsOk(v) && Possible(v, move) && t in v.pending
    requires (move.HandleAdd? || move.HandleDel? || move.HandleOther?) && move.ticket == t
    ensures SessionsOk(Moved(v, move))
  {
    InFlightRemove(v.pending, t);
  }

  lemma MasterSideKeeps(v: View, move: Move)
    requires SessionsOk(v) && Possible(v, move)
    requires move.MasterOpen? || move.MasterClose? || move.Shrink? || move.Idle?
    ensures SessionsOk(Moved(v, move))
  {
    if move.MasterOpen? {
      MasterOpenKeeps(v, move.client, move.id);
    } else if move.MasterClose? {
      MasterCloseKeeps(v, move.client, move.removed);
    }
  }

  lemma MasterOpenKeeps(v: View, c: ClientId, id: UserId)
    requires SessionsOk(v) && Possible(v, MasterOpen(c, id))
    ensures SessionsOk(Moved(v, MasterOpen(c, id)))
  {
  }

  lemma MasterCloseKeeps(v: View, c: ClientId, removed: bool)
    requires SessionsOk(v) && Possible(v, MasterClose(c, removed))
    ensures SessionsOk(Moved(v, MasterClose(c, removed)))
  {
  }

  lemma OpenKeeps(v: View, n: NodeKey, c: ClientId, id: UserId, t: Ticket, m: InFlight)
    requires SessionsOk(v) && Possible(v, Open(n, c, id, t, m))
    ensures SessionsOk(Moved(v, Open(n, c, id, t, m)))
  {
    InFlightAdd(v.pending, t, m);
    OnceAdd(v.pending, t, m);
    OpenKeepsClients(v, n, c, id, t, m);
    OpenKeepsAccounts(v, n, c, id, t, m);
  }

  lemma OpenKeepsClients(v: View, n: NodeKey, c: ClientId, id: UserId, t: Ticket, m: InFlight)
    requires SessionsOk(v) && Possible(v, Open(n, c, id, t, m))
    requires Deleting(v.pending[t := m]) == Deleting(v.pending)
    ensures ClientsOk(Moved(v, Open(n, c, id, t, m)))
  {
  }

  lemma OpenKeepsAccounts(v: View, n: NodeKey, c: ClientId, id: UserId, t: Ticket, m: InFlight)
    requires AllAccounted(v) && Possible(v, Open(n, c, id, t, m))
    requires Deleting(v.pending[t := m]) == Deleting(v.pending)
    ensures AllAccounted(Moved(v, Open(n, c, id, t, m)))
  {
    forall n', id' ensures HasSession(Moved(v, Open(n, c, id, t, m)), n', id') <==>
                           HasSession(v, n', id') || (n' == n && id' == id)
    {
      OpenSessions(v, n, c, id, n', id');
    }
  }

  lemma CloseKeeps(v: View, n: NodeKey, c: ClientId, t: Ticket, m: InFlight)
    requires SessionsOk(v) && Possible(v, Close(n, c, t, m))
    ensures SessionsOk(Moved(v, Close(n, c, t, m)))
  {
    InFlightAdd(v.pending, t, m);
    CloseKeepsFlights(v, n, c, t, m);
    CloseKeepsClients(v, n, c, t, m);
    CloseKeepsAccounts(v, n, c, t, m);
  }

  lemma CloseKeepsFlights(v: View, n: NodeKey, c: ClientId, t: Ticket, m: InFlight)
    requires ClientsOk(v) && FlightsOk(v) && Possible(v, Close(n, c, t, m))
    ensures FlightsOk(Moved(v, Close(n, c, t, m)))
  {
    InFlightAdd(v.pending, t, m);
    OnceAdd(v.pending, t, m);
  }

  lemma CloseKeepsClients(v: View, n: NodeKey, c: ClientId, t: Ticket, m: InFlight)
    requires ClientsOk(v) && Possible(v, Close(n, c, t, m))
    requires Deleting(v.pending[t := m]) == Deleting(v.pending) + {v.clients[n][c]}
    ensures ClientsOk(Moved(v, Close(n, c, t, m)))
  {
  }

  lemma CloseKeepsAccounts(v: View, n: NodeKey, c: ClientId, t: Ticket, m: InFlight)
    requires ClientsOk(v) && AllAccounted(v) && Possible(v, Close(n, c, t, m))
    requires Deleting(v.pending[t := m]) == Deleting(v.pending) + {v.clients[n][c]}
    ensures AllAccounted(Moved(v, Close(n, c, t, m)))
  {
    forall n', id' ensures HasSession(Moved(v, Close(n, c, t, m)), n', id') <==>
                           HasSession(v, n', id') && !(n' == n && id' == v.clients[n][c])
    {
      CloseSessions(v, n, c, n', id');
    }
  }

  /** The sessions of a slave are the ids it made up whose removal is neither on the way nor handled:
      true in every state, whatever the order of handling and whatever the worlds do. */
  lemma SessionsAreUnremovedIds(v: View, n: NodeKey, id: UserId)
    requires SessionsOk(v) && n in v.clients
    ensures HasSession(v, n, id) <==> Owned(v, id, n) && id !in Deleting(v.pending) && id !in v.departed
  {
  }

  lemma SessionsElsewhere(v: View, move: Move, n: NodeKey, id: UserId)
    requires ClientsOk(v) && Possible(v, move)
    ensures HasSession(Moved(v, move), n, id) <==>
            match move
            case Open(n', c, id', _, _) => HasSession(v, n, id) || (n == n' && id == id')
            case Close(n', c, _, _) => HasSession(v, n, id) && !(n == n' && id == v.clients[n'][c])
            case _ => HasSession(v, n, id)
  {
    match move {
      case Open(n', c, id', t, m) => OpenSessions(v, n', c, id', n, id);
      case Close(n', c, t, m) => CloseSessions(v, n', c, n, id);
      case _ =>
    }
  }

  /** A move keeps the conservation law exactly when it is clean. */
  lemma ConservedExactly(v: View, move: Move)
    requires SessionsOk(v) && Conserved(v) && Possible(v, move)
    ensures Conserved(Moved(v, move)) <==> Clean(v, move)
  {
    if Clean(v, move) {
      forall n, id | n in v.clients ensures HasSession(Moved(v, move), n, id) <==> Expected(Moved(v, move), n, id) {
        SessionsElsewhere(v, move, n, id);
        CleanMoveAt(v, move, n, id);
      }
    } else {
      UncleanMoveBreaks(v, move);
    }
  }

  lemma CleanMoveAt(v: View, move: Move, n: NodeKey, id: UserId)
    requires SessionsOk(v) && Conserved(v) && Possible(v, move) && Clean(v, move) && n in v.clients
    ensures Expected(Moved(v, move), n, id) <==>
            match move
            case Open(n', c, id', _, _) => HasSession(v, n, id) || (n == n' && id == id')
            case Close(n', c, _, _) => HasSession(v, n, id) && !(n == n' && id == v.clients[n'][c])
            case _ => HasSession(v, n, id)
  {
    if move.Open? || move.Close? || move.Send? {
      InFlightAdd(v.pending, move.ticket, move.flight);
    } else if move.HandleAdd? || move.HandleDel? || move.HandleOther? {
      CleanHandleAt(v, move, n, id);
    } else {
      CleanMasterSideAt(v, move, n, id);
    }
  }

  /** Handling moves the ids it adds or removes from the queue to the master or away from it, and no others. */
  lemma CleanHandleAt(v: View, move: Move, n: NodeKey, id: UserId)
    requires SessionsOk(v) && Possible(v, move) && Clean(v, move) && n in v.clients
    requires move.HandleAdd? || move.HandleDel? || move.HandleOther?
    requires HasSession(v, n, id) <==> Expected(v, n, id)
    ensures Expected(Moved(v, move), n, id) <==> HasSession(v, n, id)
  {
    InFlightRemove(v.pending, move.ticket);
  }

  lemma CleanMasterSideAt(v: View, move: Move, n: NodeKey, id: UserId)
    requires SessionsOk(v) && Possible(v, move) && Clean(v, move) && n in v.clients
    requires move.MasterOpen? || move.MasterClose? || move.Shrink? || move.Idle?
    requires HasSession(v, n, id) <==> Expected(v, n, id)
    ensures Expected(Moved(v, move), n, id) <==> HasSession(v, n, id)
  {
  }

  lemma UncleanMoveBreaks(v: View, move: Move)
    requires SessionsOk(v) && Conserved(v) && Possible(v, move) && !Clean(v, move)
    ensures !Conserved(Moved(v, move))
  {
    match move {
      case HandleDel(t, removed) =>
        var id := v.pending[t].msg.op.id;
        InFlightRemove(v.pending, t);
        assert id in Deleting(v.pending);
        BrokenBy(v, move, id);
      case Shrink(left) =>
        var id :| id in v.onMaster - left && id in v.owner && v.owner[id].AtSlave? && id !in Deleting(v.pending);
        assert Expected(v, v.owner[id].node, id);
        SessionsElsewhere(v, move, v.owner[id].node, id);
        BrokenBy(v, move, id);
    }
  }

  lemma BrokenBy(v: View, move: Move, id: UserId)
    requires ClientsOk(v) && Possible(v, move) && id in v.owner && v.owner[id].AtSlave?
    requires var n := v.owner[id].node;
             n in v.clients && (HasSession(Moved(v, move), n, id) != Expected(Moved(v, move), n, id))
    ensures !Conserved(Moved(v, move))
  {
  }
}
