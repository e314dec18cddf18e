/** Everything that changes while a daemon runs, as a value, and each operation
    done under the state lock as a function of that value. */
module States {
  import opened Prelude
  import opened Geometry
  import opened Layouts
  import opened Sessions
  import opened Commands

  /** One connected peer: its session, its screen, the local edge it sits past,
      how its modifier keys are relabelled, and the commands queued for its task. */
  datatype PeerLink = PeerLink(host: string, session: SessionId, role: Role, screen: Screen, edge: Edge,
                               swap: ModifierSwap, commands: seq<PeerCommand>)
  {
    function Queue(c: PeerCommand): PeerLink {
      this.(commands := commands + [c])
    }

    function Placed(name: string, e: Edge): PeerLink {
      if host == name then this.(edge := e) else this
    }

    function Relabelled(name: string, s: ModifierSwap): PeerLink {
      if host == name then this.(swap := s) else this
    }
  }

  type Links = map<MachineId, PeerLink>

  function QueueFor(links: Links, peer: MachineId, c: PeerCommand): Links {
    if peer in links then links[peer := links[peer].Queue(c)] else links
  }

  function QueueForAll(links: Links, c: PeerCommand): Links {
    map p | p in links :: links[p].Queue(c)
  }

  function PlaceHost(links: Links, host: string, edge: Edge): Links {
    map p | p in links :: links[p].Placed(host, edge)
  }

  function RelabelHost(links: Links, host: string, swap: ModifierSwap): Links {
    map p | p in links :: links[p].Relabelled(host, swap)
  }

  /** What the user chose for each host, connected or not. */
  datatype Settings = Settings(placements: map<string, Edge>, swaps: map<string, ModifierSwap>)

  // ---- Rebuilding the layout from the live links ----

  /** A listing of a set, in some order: hash-map iteration promises no more. */
  ghost predicate Lists(order: seq<MachineId>, s: set<MachineId>) {
    && (forall p :: p in order <==> p in s)
    && (forall i, j | 0 <= i < j < |order| :: order[i] != order[j])
  }

  function OkOr<T, E>(r: Result<T, E>, otherwise: T): T {
    match r
    case Ok(v) => v
    case Err(_) => otherwise
  }

  /** Adds a peer past its edge, carrying on regardless when a step is refused. */
  function WithPeer(l: Layout, local: MachineId, peer: MachineId, link: PeerLink): Layout {
    var added := OkOr(l.WithMachine(Machine(peer, link.screen)), l);
    OkOr(added.WithLink(local, link.edge, peer), added)
  }

  function BuildLayout(local: MachineId, screen: Screen, links: Links, order: seq<MachineId>): Layout {
    if order == [] then
      OkOr(Layout(map[], map[]).WithMachine(Machine(local, screen)), Layout(map[], map[]))
    else if Last(order) in links then
      WithPeer(BuildLayout(local, screen, links, Front(order)), local, Last(order), links[Last(order)])
    else
      BuildLayout(local, screen, links, Front(order))
  }

  // ---- The state and its operations ----

  function ClampToScreen(screen: Screen, x: int, y: int): Point {
    Point(Clamp(x, 0, SaturatingSub(screen.width, 1)), Clamp(y, 0, SaturatingSub(screen.height, 1)))
  }

  datatype State = State(local: MachineId, screen: Screen, sessions: Manager, layout: Layout, cursor: CursorState,
                         links: Links, settings: Settings, suppressed: bool, warps: seq<(int, int)>)
  {
    function Home(): CursorState {
      CursorState(local, ORIGIN)
    }

    function SyncSuppression(): State {
      this.(suppressed := sessions.active.Remote?)
    }

    function RebuildLayout(order: seq<MachineId>): State {
      var l := BuildLayout(local, screen, links, order);
      this.(layout := l, cursor := if cursor.machine in l.screens then cursor else Home())
    }

    function SyncCursorToOs(os: Option<(int, int)>): State {
      match os
      case None => this
      case Some((x, y)) => this.(cursor := CursorState(local, ClampToScreen(screen, x, y)))
    }

    /** A movement measured on this machine, in the units of whichever screen the
        cursor is on. */
    function ScaledForCursor(delta: MouseDelta): MouseDelta {
      if cursor.machine in layout.screens && cursor.machine != local
      then ScaleDelta(delta, screen, layout.screens[cursor.machine])
      else delta
    }

    function AdvanceCursor(delta: MouseDelta): (State, bool) {
      match layout.Advance(cursor, ScaledForCursor(delta))
      case Err(_) => (this.(cursor := Home()), false)
      case Ok(moved) =>
        match moved.crossing
        case None => (this.(cursor := moved.cursor), false)
        case Some(crossing) =>
          match sessions.HandleCrossing(crossing)
          case Err(_) => (this, false)
          case Ok(m) => (this.(sessions := m, cursor := moved.cursor).PlaceCursorAfterCrossing(crossing), true)
    }

    function PlaceCursorAfterCrossing(crossing: Crossing): State {
      var x, y := crossing.entry.x, crossing.entry.y;
      if crossing.peer == local then
        this.(warps := warps + [(x, y)], links := QueueForAll(links, CursorReturned(x, y)))
      else
        this.(links := QueueFor(links, crossing.peer, Warp(x, y)))
    }

    function ForwardTo(peer: MachineId, event: InputEvent): State {
      if peer in links then this.(links := QueueFor(links, peer, Input(links[peer].swap.Apply(event)))) else this
    }

    /** One captured event, and where the OS says the cursor is. */
    function RouteCaptured(event: InputEvent, os: Option<(int, int)>): State {
      match sessions.active
      case Local =>
        if event.Motion? then SyncCursorToOs(os).AdvanceCursor(event.delta).0.SyncSuppression()
        else SyncSuppression()
      case Remote(peer) =>
        if event.Motion? then
          var (moved, crossed) := AdvanceCursor(event.delta);
          (if crossed then moved
           else moved.ForwardTo(peer, Pointer(moved.cursor.position.x, moved.cursor.position.y))).SyncSuppression()
        else ForwardTo(peer, event).SyncSuppression()
    }

    function YieldControlToPeer(): State {
      var (m, gaveWay) := sessions.YieldControl();
      if gaveWay then this.(sessions := m, cursor := Home()).SyncSuppression() else this.(sessions := m)
    }

    /** A `CursorWarp` has arrived: the peer is in control, and says where its
        cursor entered this screen. */
    function TakenOver(x: int, y: int): State {
      var y' := YieldControlToPeer();
      y'.(warps := y'.warps + [(x, y)])
    }

    function FollowPeerCursor(peer: MachineId, x: int, y: int): State {
      if peer !in layout.screens then this else
      match sessions.FollowPeer(peer)
      case Err(_) => this
      case Ok(m) =>
        this.(sessions := m, cursor := CursorState(peer, ClampToScreen(layout.screens[peer], x, y))).SyncSuppression()
    }

    function CleanupPeer(peer: MachineId, order: seq<MachineId>): State {
      var removed :=
        if peer in links then
          this.(links := links - {peer}, sessions := OkOr(sessions.Close(links[peer].session), sessions))
        else this;
      removed.RebuildLayout(order).SyncSuppression()
    }

    function Placing(host: string, edge: Edge): State {
      this.(settings := settings.(placements := settings.placements[host := edge]),
            links := PlaceHost(links, host, edge))
    }

    /** Placing a host past an edge, given what its name parsed to. */
    function SetLayout(host: string, parsed: Option<Edge>, order: seq<MachineId>): State {
      if parsed.None? then this else
      var placed := Placing(host, parsed.value);
      if placed.links == map[] then placed else placed.RebuildLayout(order).SyncSuppression()
    }

    function SetModifierSwap(host: string, parsed: Option<ModifierSwap>): State {
      if parsed.None? then this else
      this.(settings := settings.(swaps := settings.swaps[host := parsed.value]),
            links := RelabelHost(links, host, parsed.value))
    }

    /** A host nobody placed sits left of a machine that accepted it and right of
        one that dialled it. */
    function EdgeFor(host: string, role: Role): Edge {
      if host in settings.placements then settings.placements[host] else if role.Target? then Left else Right
    }

    function SwapFor(host: string): ModifierSwap {
      if host in settings.swaps then settings.swaps[host] else Unchanged
    }

    function Establish(session: SessionId, peer: MachineId, role: Role, host: string, peerScreen: Screen,
                       order: seq<MachineId>): Result<State, SessionError>
    {
      match sessions.Establish(session, peer, role)
      case Err(e) => Err(e)
      case Ok(m) =>
        var link := PeerLink(host, session, role, peerScreen, EdgeFor(host, role), SwapFor(host), []);
        Ok(this.(sessions := m, links := links[peer := link]).RebuildLayout(order))
    }

    /** The peer's task has taken every queued command. */
    function Drain(peer: MachineId): State {
      if peer in links then this.(links := links[peer := links[peer].(commands := [])]) else this
    }
  }

  /** What the peer task's signalling arm does with one message of its stream. */
  function OnSignal(d: State, session: SessionId, peer: MachineId, message: ControlMessage): State {
    match message
    case CursorWarpMessage(claimed, x, y) => if claimed == session then d.TakenOver(x, y) else d
    case CursorReturnedMessage(claimed, x, y) => if claimed == session then d.FollowPeerCursor(peer, x, y) else d
    case DisconnectMessage(_) => d
  }

  function Started(local: MachineId, screen: Screen, settings: Settings): State {
    State(local, screen, Manager(local, map[], map[], Local, []), Layout(map[], map[]),
          CursorState(local, ORIGIN), map[], settings, false, []).RebuildLayout([])
  }
}
