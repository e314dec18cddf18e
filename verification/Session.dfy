/** Sessions with peers and where input is currently going. */
module Sessions {
  import opened Prelude
  import opened Geometry
  import opened Layouts

  type SessionId = nat

  datatype Role = Controller | Target

  datatype Session = Session(id: SessionId, peer: MachineId, role: Role)

  datatype ActiveTarget = Local | Remote(peer: MachineId)

  datatype SessionError =
    | DuplicateSession(id: SessionId)
    | PeerAlreadyConnected(peer: MachineId)
    | UnknownSession(id: SessionId)
    | NoSessionForPeer(peer: MachineId)

  datatype SessionEvent =
    | Established(id: SessionId, peer: MachineId, role: Role)
    | Closed(id: SessionId)
    | ActiveTargetChanged(target: ActiveTarget)

  /** The value of a session manager. */
  datatype Manager = Manager(local: MachineId, sessions: map<SessionId, Session>,
                             byPeer: map<MachineId, SessionId>, active: ActiveTarget, events: seq<SessionEvent>)
  {
    /** The two indexes are inverse to each other, input only ever goes to a peer
        with a session, and the events emitted so far tell the whole story. */
    predicate WellFormed() {
      && (forall id {:trigger sessions[id]} | id in sessions :: sessions[id].id == id
                                        && sessions[id].peer in byPeer && byPeer[sessions[id].peer] == id)
      && (forall peer {:trigger byPeer[peer]} | peer in byPeer ::
            byPeer[peer] in sessions && sessions[byPeer[peer]].peer == peer)
      && (active.Remote? ==> active.peer in byPeer)
      && Replay(events) == Told(sessions, active)
    }

    function SetActive(target: ActiveTarget): Manager {
      if active == target then this
      else this.(active := target, events := events + [ActiveTargetChanged(target)])
    }

    function Establish(id: SessionId, peer: MachineId, role: Role): Result<Manager, SessionError> {
      if id in sessions then Err(DuplicateSession(id))
      else if peer in byPeer then Err(PeerAlreadyConnected(peer))
      else Ok(this.(sessions := sessions[id := Session(id, peer, role)], byPeer := byPeer[peer := id],
                    events := events + [Established(id, peer, role)]))
    }

    function Close(id: SessionId): Result<Manager, SessionError> {
      if id !in sessions then Err(UnknownSession(id)) else
      var peer := sessions[id].peer;
      var removed := this.(sessions := sessions - {id}, byPeer := byPeer - {peer});
      var settled := if active == Remote(peer) then removed.SetActive(Local) else removed;
      Ok(settled.(events := settled.events + [Closed(id)]))
    }

    function YieldControl(): (Manager, bool) {
      (SetActive(Local), active != Local)
    }

    function FollowPeer(peer: MachineId): Result<Manager, SessionError> {
      if peer !in byPeer then Err(NoSessionForPeer(peer)) else Ok(SetActive(Remote(peer)))
    }

    function HandleCrossing(crossing: Crossing): Result<Manager, SessionError> {
      if crossing.peer == local then Ok(SetActive(Local))
      else if crossing.peer !in byPeer then Err(NoSessionForPeer(crossing.peer))
      else Ok(SetActive(Remote(crossing.peer)))
    }
  }

  /** What a listener has learned from the events alone. */
  datatype Told = Told(sessions: map<SessionId, Session>, active: ActiveTarget)

  function Hear(t: Told, e: SessionEvent): Told {
    match e
    case Established(id, peer, role) => t.(sessions := t.sessions[id := Session(id, peer, role)])
    case Closed(id) => t.(sessions := t.sessions - {id})
    case ActiveTargetChanged(target) => t.(active := target)
  }

  function Replay(events: seq<SessionEvent>): Told {
    if events == [] then Told(map[], Local)
    else Hear(Replay(events[..|events| - 1]), events[|events| - 1])
  }

  lemma ReplayOneMore(events: seq<SessionEvent>, e: SessionEvent)
    ensures Replay(events + [e]) == Hear(Replay(events), e)
  {
    assert (events + [e])[..|events|] == events;
  }

  lemma SetActiveKeeps(m: Manager, target: ActiveTarget)
    requires m.WellFormed() && (target.Remote? ==> target.peer in m.byPeer)
    ensures m.SetActive(target).WellFormed()
  {
    ReplayOneMore(m.events, ActiveTargetChanged(target));
  }

  /** A new session never disturbs another one, nor where input goes. */
  lemma EstablishAddsOne(m: Manager, id: SessionId, peer: MachineId, role: Role)
    requires m.WellFormed()
    ensures match m.Establish(id, peer, role)
            case Ok(n) => n.WellFormed() && n.active == m.active && n.local == m.local
                          && n.byPeer == m.byPeer[peer := id]
                          && n.sessions == m.sessions[id := Session(id, peer, role)]
            case Err(_) => id in m.sessions || peer in m.byPeer
  {
    ReplayOneMore(m.events, Established(id, peer, role));
  }

  /** Closing a known session succeeds, forgets exactly that peer, and brings
      input home exactly when it was going there. */
  lemma CloseRemovesOne(m: Manager, id: SessionId)
    requires m.WellFormed() && id in m.sessions
    ensures var r := m.Close(id);
            && r.Ok? && r.value.WellFormed() && r.value.local == m.local
            && r.value.sessions == m.sessions - {id}
            && r.value.byPeer == m.byPeer - {m.sessions[id].peer}
            && r.value.active == if m.active == Remote(m.sessions[id].peer) then Local else m.active
  {
    var peer := m.sessions[id].peer;
    var home := if m.active == Remote(peer) then m.SetActive(Local) else m;
    SetActiveKeeps(m, Local);
    assert m.Close(id).value == Forget(home, id);
    ReplayOneMore(home.events, Closed(id));
    ForgetKeepsIndexes(home, id);
  }

  function Forget(m: Manager, id: SessionId): Manager
    requires id in m.sessions
  {
    m.(sessions := m.sessions - {id}, byPeer := m.byPeer - {m.sessions[id].peer}, events := m.events + [Closed(id)])
  }

  lemma ForgetKeepsIndexes(m: Manager, id: SessionId)
    requires m.WellFormed() && id in m.sessions
    ensures var n := Forget(m, id);
            && (forall i | i in n.sessions :: n.sessions[i].peer in n.byPeer && n.byPeer[n.sessions[i].peer] == i)
            && (forall peer | peer in n.byPeer ::
                  n.byPeer[peer] in n.sessions && n.sessions[n.byPeer[peer]].peer == peer)
  {
    forall other | other in m.byPeer && other != m.sessions[id].peer ensures m.byPeer[other] != id {
      assert m.sessions[m.byPeer[other]].peer == other;
    }
  }

  /** Only a change of target is told, and only once. */
  lemma TargetChangesAreTold(m: Manager, target: ActiveTarget)
    ensures var n := m.SetActive(target);
            && n.local == m.local && n.sessions == m.sessions && n.byPeer == m.byPeer && n.active == target
            && n.events == m.events + if m.active == target then [] else [ActiveTargetChanged(target)]
    ensures m.YieldControl() == (m.SetActive(Local), m.active.Remote?)
  {
  }

  /** Input goes where the cursor went, provided somebody is there. */
  lemma InputFollowsTheCursor(m: Manager, crossing: Crossing)
    ensures var r := m.HandleCrossing(crossing);
            if crossing.peer == m.local then r == Ok(m.SetActive(Local))
            else if crossing.peer in m.byPeer then r == Ok(m.SetActive(Remote(crossing.peer)))
            else r == Err(NoSessionForPeer(crossing.peer))
    ensures var f := m.FollowPeer(crossing.peer);
            if crossing.peer in m.byPeer then f == Ok(m.SetActive(Remote(crossing.peer)))
            else f == Err(NoSessionForPeer(crossing.peer))
  {
  }

  /** What is told of a session, and why one is refused. */
  lemma SessionsAreTold(m: Manager, id: SessionId, peer: MachineId, role: Role)
    ensures match m.Establish(id, peer, role)
            case Ok(n) => n.events == m.events + [Established(id, peer, role)]
            case Err(e) => e == if id in m.sessions then DuplicateSession(id) else PeerAlreadyConnected(peer)
    ensures match m.Close(id)
            case Ok(n) =>
              && id in m.sessions
              && n.events == m.events
                             + (if m.active == Remote(m.sessions[id].peer) then [ActiveTargetChanged(Local)] else [])
                             + [Closed(id)]
            case Err(e) => id !in m.sessions && e == UnknownSession(id)
  {
  }

  class SessionManager {
    const local: MachineId
    var sessions: map<SessionId, Session>
    var byPeer: map<MachineId, SessionId>
    var active: ActiveTarget
    var events: seq<SessionEvent>

    function View(): Manager
      reads this
    {
      Manager(local, sessions, byPeer, active, events)
    }

    constructor (local: MachineId)
      ensures View() == Manager(local, map[], map[], Local, [])
      ensures View().WellFormed()
    {
      this.local := local;
      sessions, byPeer, active, events := map[], map[], Local, [];
    }

    method Establish(id: SessionId, peer: MachineId, role: Role) returns (r: Result<(), SessionError>)
      modifies this
      ensures match old(View()).Establish(id, peer, role)
              case Ok(m) => r == Ok(()) && View() == m
              case Err(e) => r == Err(e) && View() == old(View())
    {
      if id in sessions {
        return Err(DuplicateSession(id));
      }
      if peer in byPeer {
        return Err(PeerAlreadyConnected(peer));
      }
      sessions := sessions[id := Session(id, peer, role)];
      byPeer := byPeer[peer := id];
      events := events + [Established(id, peer, role)];
      return Ok(());
    }

    method Close(id: SessionId) returns (r: Result<(), SessionError>)
      modifies this
      ensures match old(View()).Close(id)
              case Ok(m) => r == Ok(()) && View() == m
              case Err(e) => r == Err(e) && View() == old(View())
    {
      if id !in sessions {
        return Err(UnknownSession(id));
      }
      var session := sessions[id];
      sessions := sessions - {id};
      byPeer := byPeer - {session.peer};
      if active == Remote(session.peer) {
        SetActive(Local);
      }
      events := events + [Closed(id)];
      return Ok(());
    }

    method YieldControl() returns (changed: bool)
      modifies this
      ensures (View(), changed) == old(View()).YieldControl()
    {
      changed := active != Local;
      SetActive(Local);
    }

    method FollowPeer(peer: MachineId) returns (r: Result<(), SessionError>)
      modifies this
      ensures match old(View()).FollowPeer(peer)
              case Ok(m) => r == Ok(()) && View() == m
              case Err(e) => r == Err(e) && View() == old(View())
    {
      if peer !in byPeer {
        return Err(NoSessionForPeer(peer));
      }
      SetActive(Remote(peer));
      return Ok(());
    }

    method HandleCrossing(crossing: Crossing) returns (r: Result<(), SessionError>)
      modifies this
      ensures match old(View()).HandleCrossing(crossing)
              case Ok(m) => r == Ok(()) && View() == m
              case Err(e) => r == Err(e) && View() == old(View())
    {
      if crossing.peer == local {
        SetActive(Local);
        return Ok(());
      }
      if crossing.peer !in byPeer {
        return Err(NoSessionForPeer(crossing.peer));
      }
      SetActive(Remote(crossing.peer));
      return Ok(());
    }

    method SetActive(target: ActiveTarget)
      modifies this
      ensures View() == old(View()).SetActive(target)
    {
      if active != target {
        active := target;
        events := events + [ActiveTargetChanged(target)];
      }
    }
  }
}
