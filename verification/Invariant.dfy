/** What every operation of a daemon keeps, and hence what every run keeps. */
module Invariant {
  import opened Prelude
  import opened Geometry
  import opened Layouts
  import opened Sessions
  import opened Commands
  import opened States

  /** The layout is a star: exactly the local machine and the placed peers, each
      peer's only neighbour being the local machine across the facing edge, and
      the local machine's neighbour on an edge being a peer placed there. */
  ghost predicate Star(l: Layout, local: MachineId, screen: Screen, links: Links, placed: set<MachineId>)
    requires placed <= links.Keys
  {
    && l.WellFormed()
    && l.screens.Keys == placed + {local} && l.screens[local] == screen
    && (forall p {:trigger l.screens[p]} | p in placed :: l.screens[p] == links[p].screen)
    && (forall p, e {:trigger l.Neighbor(p, e)} | p in placed ::
          l.Neighbor(p, e) == if e == Opposite(links[p].edge) then Some(local) else None)
    && (forall e {:trigger l.Neighbor(local, e)} :: PlacedAt(l.Neighbor(local, e), e, links, placed))
  }

  /** A neighbour sits past edge `e`: someone placed there, if anyone is. */
  ghost predicate PlacedAt(neighbor: Option<MachineId>, e: Edge, links: Links, placed: set<MachineId>)
    requires placed <= links.Keys
  {
    match neighbor
    case Some(p) => p in placed && links[p].edge == e
    case None => forall p | p in placed :: links[p].edge != e
  }

  /** Sessions and links name the same peers, one session each. */
  ghost predicate InStep(m: Manager, links: Links) {
    && m.WellFormed()
    && m.byPeer.Keys == links.Keys
    && (forall p | p in links :: m.byPeer[p] == links[p].session
                                 && m.sessions[links[p].session] == Session(links[p].session, p, links[p].role))
  }

  /** The joint invariant of everything the state lock guards. */
  ghost predicate Valid(d: State) {
    && d.sessions.local == d.local && d.local !in d.links
    && InStep(d.sessions, d.links)
    && Star(d.layout, d.local, d.screen, d.links, d.links.Keys)
    && d.layout.Tracks(d.cursor)
    && d.cursor.machine == (if d.sessions.active.Remote? then d.sessions.active.peer else d.local)
    && (d.suppressed <==> d.sessions.active.Remote?)
  }

  // ---- The rebuilt layout ----

  /** Adding one more peer to a star gives a star. */
  lemma WithPeerKeepsStar(l: Layout, local: MachineId, screen: Screen, links: Links, placed: set<MachineId>,
                          peer: MachineId)
    requires placed <= links.Keys && local !in links && peer in links && peer !in placed
    requires Star(l, local, screen, links, placed)
    ensures Star(WithPeer(l, local, peer, links[peer]), local, screen, links, placed + {peer})
  {
    var link := links[peer];
    var l' := WithPeer(l, local, peer, link);
    assert l' == Layout(l.screens[peer := link.screen],
                        l.links[(local, link.edge) := peer][(peer, Opposite(link.edge)) := local]);
    forall p, e | p in placed + {peer}
      ensures l'.Neighbor(p, e) == if e == Opposite(links[p].edge) then Some(local) else None
    {
      assert p != peer ==> l'.Neighbor(p, e) == l.Neighbor(p, e);
      assert p == peer ==> l.Neighbor(p, e) == None;
    }
    forall e ensures PlacedAt(l'.Neighbor(local, e), e, links, placed + {peer}) {
      assert PlacedAt(l.Neighbor(local, e), e, links, placed);
    }
  }

  /** Whatever order the peers are visited in, and however many share an edge. */
  lemma {:induction false} BuildLayoutIsStar(local: MachineId, screen: Screen, links: Links, order: seq<MachineId>,
                                             placed: set<MachineId>)
    requires local !in links && placed <= links.Keys && Lists(order, placed)
    ensures Star(BuildLayout(local, screen, links, order), local, screen, links, placed)
    decreases |order|
  {
    if order == [] {
    } else {
      var peer := Last(order);
      FrontLists(order, placed);
      BuildLayoutIsStar(local, screen, links, Front(order), placed - {peer});
      WithPeerKeepsStar(BuildLayout(local, screen, links, Front(order)), local, screen, links, placed - {peer}, peer);
      assert placed - {peer} + {peer} == placed;
    }
  }

  lemma FrontLists(order: seq<MachineId>, s: set<MachineId>)
    requires order != [] && Lists(order, s)
    ensures Last(order) in s && Lists(Front(order), s - {Last(order)})
  {
    assert order == Front(order) + [Last(order)];
    assert Last(order) in order;
  }

  /** The rebuilt layout gives the local machine a neighbour on an edge exactly
      when some peer is placed there, and each peer exactly one neighbour. */
  lemma RebuiltNeighbours(local: MachineId, screen: Screen, links: Links, order: seq<MachineId>)
    requires local !in links && Lists(order, links.Keys)
    ensures var l := BuildLayout(local, screen, links, order);
            && (forall e :: l.Neighbor(local, e).Some? <==> exists p :: p in links && links[p].edge == e)
            && (forall e | l.Neighbor(local, e).Some? ::
                  var p := l.Neighbor(local, e).value; p in links && links[p].edge == e)
            && (forall p, e | p in links ::
                  l.Neighbor(p, e) == if e == Opposite(links[p].edge) then Some(local) else None)
  {
    BuildLayoutIsStar(local, screen, links, order, links.Keys);
  }

  /** No two peers sit past the same edge. */
  ghost predicate EdgesApart(links: Links) {
    forall p, q | p in links && q in links && links[p].edge == links[q].edge :: p == q
  }

  /** The rebuilt layout's links all lead back exactly when no edge is shared:
      past a shared one, only one of the peers can be reached. */
  lemma RebuiltIsSymmetricIff(local: MachineId, screen: Screen, links: Links, order: seq<MachineId>)
    requires local !in links && Lists(order, links.Keys)
    ensures Symmetric(BuildLayout(local, screen, links, order)) <==> EdgesApart(links)
  {
    hide BuildLayout;
    BuildLayoutIsStar(local, screen, links, order, links.Keys);
    StarIsSymmetricIff(BuildLayout(local, screen, links, order), local, screen, links);
  }

  lemma StarIsSymmetricIff(l: Layout, local: MachineId, screen: Screen, links: Links)
    requires local !in links && Star(l, local, screen, links, links.Keys)
    ensures Symmetric(l) <==> EdgesApart(links)
  {
    if Symmetric(l) {
      forall p, q | p in links && q in links && links[p].edge == links[q].edge ensures p == q {
        LeadsBackTo(l, local, screen, links, p);
        LeadsBackTo(l, local, screen, links, q);
      }
    }
    if EdgesApart(links) {
      forall m: MachineId, e | l.Neighbor(m, e).Some?
        ensures l.Neighbor(l.Neighbor(m, e).value, Opposite(e)) == Some(m)
      {
        assert m in l.screens;
        OppositeTwice(e);
        if m == local {
          assert PlacedAt(l.Neighbor(local, e), e, links, links.Keys);
        } else {
          OppositeTwice(links[m].edge);
          assert PlacedAt(l.Neighbor(local, links[m].edge), links[m].edge, links, links.Keys);
        }
      }
    }
  }

  lemma LeadsBackTo(l: Layout, local: MachineId, screen: Screen, links: Links, p: MachineId)
    requires local !in links && Star(l, local, screen, links, links.Keys) && Symmetric(l) && p in links
    ensures l.Neighbor(local, links[p].edge) == Some(p)
  {
    OppositeTwice(links[p].edge);
    assert l.Neighbor(p, Opposite(links[p].edge)) == Some(local);
  }

  lemma RebuildIsStar(d: State, order: seq<MachineId>)
    requires d.local !in d.links && Lists(order, d.links.Keys)
    ensures Star(d.RebuildLayout(order).layout, d.local, d.screen, d.links, d.links.Keys)
  {
    BuildLayoutIsStar(d.local, d.screen, d.links, order, d.links.Keys);
  }

  // ---- Links that differ only in what is queued ----

  ghost predicate SamePeers(links: Links, links': Links) {
    && links.Keys == links'.Keys
    && forall p | p in links :: links'[p] == links[p].(commands := links'[p].commands)
  }

  /** Nor does the invariant depend on how keys are relabelled. */
  ghost predicate SameSeats(links: Links, links': Links) {
    && links.Keys == links'.Keys
    && forall p | p in links :: links'[p] == links[p].(swap := links'[p].swap, commands := links'[p].commands)
  }

  lemma SameSeatsKeepStar(l: Layout, local: MachineId, screen: Screen, links: Links, links': Links)
    requires SameSeats(links, links') && Star(l, local, screen, links, links.Keys)
    ensures Star(l, local, screen, links', links'.Keys)
  {
    assert forall p | p in links' :: links'[p].edge == links[p].edge && links'[p].screen == links[p].screen;
  }

  lemma SameSeatsKeepValid(d: State, links': Links)
    requires Valid(d) && SameSeats(d.links, links')
    ensures Valid(d.(links := links'))
  {
    hide Star;
    SameSeatsKeepStar(d.layout, d.local, d.screen, d.links, links');
  }

  lemma SamePeersKeepValid(d: State, links': Links)
    requires Valid(d) && SamePeers(d.links, links')
    ensures Valid(d.(links := links'))
  {
    hide Valid;
    SameSeatsKeepValid(d, links');
  }

  lemma QueueingKeepsPeers(links: Links, peer: MachineId, c: PeerCommand)
    ensures SamePeers(links, QueueFor(links, peer, c)) && SamePeers(links, QueueForAll(links, c))
  {
  }

  lemma PeersHaveSessions(d: State)
    requires Valid(d)
    ensures d.sessions.local == d.local && d.sessions.byPeer.Keys == d.links.Keys && d.local !in d.links
    ensures d.sessions.active.Remote? ==> d.sessions.active.peer in d.links
    ensures d.cursor.machine == if d.sessions.active.Remote? then d.sessions.active.peer else d.local
  {
    hide Star;
  }

  // ---- Every operation keeps the invariant ----

  lemma StartedIsValid(local: MachineId, screen: Screen, settings: Settings)
    ensures Valid(Started(local, screen, settings))
  {
    RebuildIsStar(Started(local, screen, settings), []);
  }

  /** Where a movement takes a valid state: it is never lost, a crossing always
      has this machine at one end, and it changes hands accordingly. */
  lemma AdvanceCursorKeeps(d: State, delta: MouseDelta)
    requires Valid(d)
    ensures var (n, crossed) := d.AdvanceCursor(delta);
            var r := d.layout.Advance(d.cursor, d.ScaledForCursor(delta));
            && r.Ok? && n.cursor == r.value.cursor && n.local == d.local && n.screen == d.screen
            && Valid(n.SyncSuppression())
            && (crossed <==> r.value.crossing.Some?)
            && (crossed ==> n.sessions.active == if d.sessions.active.Local? then Remote(n.cursor.machine) else Local)
            && (!crossed ==> n == d.(cursor := n.cursor) && n.cursor.machine == d.cursor.machine && Valid(n))
            && SamePeers(d.links, n.links) && n.layout == d.layout && n.settings == d.settings
  {
    AdvanceStaysTracked(d.layout, d.cursor, d.ScaledForCursor(delta));
    var moved := d.layout.Advance(d.cursor, d.ScaledForCursor(delta)).value;
    if moved.crossing.Some? {
      CrossingHasLocalEnd(d, moved.crossing.value, delta);
      CrossingKeeps(d, moved.crossing.value);
    }
  }

  /** The state just after a crossing was accepted. */
  function Crossed(d: State, crossing: Crossing): State {
    d.(sessions := OkOr(d.sessions.HandleCrossing(crossing), d.sessions),
       cursor := CursorState(crossing.peer, crossing.entry)).PlaceCursorAfterCrossing(crossing)
  }

  lemma CrossingKeeps(d: State, crossing: Crossing)
    requires Valid(d) && d.layout.Tracks(CursorState(crossing.peer, crossing.entry))
    requires if d.sessions.active.Local? then crossing.peer in d.links else crossing.peer == d.local
    ensures var n := Crossed(d, crossing);
            && d.sessions.HandleCrossing(crossing).Ok?
            && Valid(n.SyncSuppression()) && SamePeers(d.links, n.links)
            && n.layout == d.layout && n.local == d.local && n.screen == d.screen && n.settings == d.settings
            && n.sessions.active == if d.sessions.active.Local? then Remote(crossing.peer) else Local
  {
    hide Valid, SamePeers;
    PeersHaveSessions(d);
    var n, at := Crossed(d, crossing), crossing.entry;
    QueueingKeepsPeers(d.links, crossing.peer, Warp(at.x, at.y));
    QueueingKeepsPeers(d.links, crossing.peer, CursorReturned(at.x, at.y));
    var target := if crossing.peer == d.local then Local else Remote(crossing.peer);
    RetargetKeepsValid(d, target, n.cursor, n.links, n.warps);
  }

  lemma RetargetKeepsValid(d: State, target: ActiveTarget, c: CursorState, links': Links, warps: seq<(int, int)>)
    requires Valid(d) && (target.Remote? ==> target.peer in d.links) && SamePeers(d.links, links')
    requires d.layout.Tracks(c) && c.machine == if target.Remote? then target.peer else d.local
    ensures Valid(State(d.local, d.screen, d.sessions.SetActive(target), d.layout, c, links', d.settings,
                        target.Remote?, warps))
  {
    hide Star;
    SetActiveKeeps(d.sessions, target);
    assert SameSeats(d.links, links');
    SameSeatsKeepStar(d.layout, d.local, d.screen, d.links, links');
  }

  lemma CrossingHasLocalEnd(d: State, crossing: Crossing, delta: MouseDelta)
    requires Valid(d)
    requires var r := d.layout.Advance(d.cursor, d.ScaledForCursor(delta));
             r.Ok? && r.value.crossing == Some(crossing)
    ensures if d.sessions.active.Local? then crossing.peer in d.links else crossing.peer == d.local
  {
    AdvanceStaysTracked(d.layout, d.cursor, d.ScaledForCursor(delta));
    var e :| d.layout.Neighbor(d.cursor.machine, e) == Some(crossing.peer);
    assert d.sessions.active.Local? ==> PlacedAt(d.layout.Neighbor(d.local, e), e, d.links, d.links.Keys);
  }

  lemma SyncCursorKeeps(d: State, os: Option<(int, int)>)
    requires Valid(d) && d.sessions.active.Local?
    ensures Valid(d.SyncCursorToOs(os))
  {
    hide InStep;
  }

  lemma RouteCapturedKeeps(d: State, event: InputEvent, os: Option<(int, int)>)
    requires Valid(d)
    ensures Valid(d.RouteCaptured(event, os)) && d.RouteCaptured(event, os).local == d.local
    ensures d.RouteCaptured(event, os).screen == d.screen && d.RouteCaptured(event, os).settings == d.settings
    ensures SamePeers(d.links, d.RouteCaptured(event, os).links)
  {
    if d.sessions.active.Local? {
      if event.Motion? {
        SyncCursorKeeps(d, os);
        AdvanceCursorKeeps(d.SyncCursorToOs(os), event.delta);
      }
    } else {
      RouteToPeerKeeps(d, event, os);
    }
  }

  lemma RouteToPeerKeeps(d: State, event: InputEvent, os: Option<(int, int)>)
    requires Valid(d) && d.sessions.active.Remote?
    ensures Valid(d.RouteCaptured(event, os)) && d.RouteCaptured(event, os).local == d.local
    ensures d.RouteCaptured(event, os).screen == d.screen && d.RouteCaptured(event, os).settings == d.settings
    ensures SamePeers(d.links, d.RouteCaptured(event, os).links)
  {
    hide Star;
    var peer := d.sessions.active.peer;
    if event.Motion? {
      AdvanceCursorKeeps(d, event.delta);
      var (moved, crossed) := d.AdvanceCursor(event.delta);
      if !crossed {
        ForwardingKeepsValid(moved, peer, Pointer(moved.cursor.position.x, moved.cursor.position.y));
      }
    } else {
      ForwardingKeepsValid(d, peer, event);
    }
  }

  lemma ForwardingKeepsValid(d: State, peer: MachineId, event: InputEvent)
    requires Valid(d)
    ensures Valid(d.ForwardTo(peer, event)) && d.ForwardTo(peer, event).SyncSuppression() == d.ForwardTo(peer, event)
    ensures SamePeers(d.links, d.ForwardTo(peer, event).links)
  {
    hide Star;
    if peer in d.links {
      var c := Input(d.links[peer].swap.Apply(event));
      QueueingKeepsPeers(d.links, peer, c);
      SamePeersKeepValid(d, QueueFor(d.links, peer, c));
    }
  }

  lemma TakenOverKeeps(d: State, x: int, y: int)
    requires Valid(d)
    ensures var n := d.TakenOver(x, y);
            && Valid(n) && n.local == d.local && n.screen == d.screen && n.links == d.links
            && n.settings == d.settings
            && n.sessions.active == Local && n.warps == d.warps + [(x, y)]
            && n.cursor == if d.sessions.active.Remote? then CursorState(d.local, Point(0, 0)) else d.cursor
  {
    SetActiveKeeps(d.sessions, Local);
  }

  /** Following a peer that is linked always succeeds, and tracks the position
      given, pulled into its screen. */
  lemma FollowKeeps(d: State, peer: MachineId, x: int, y: int)
    requires Valid(d)
    ensures var n := d.FollowPeerCursor(peer, x, y);
            && Valid(n) && n.local == d.local && n.screen == d.screen && n.links == d.links
            && n.settings == d.settings && n.warps == d.warps
            && if peer !in d.links then n == d
               else
                 var s := d.links[peer].screen;
                 && n.sessions.active == Remote(peer)
                 && n.cursor == CursorState(peer, Point(Clamp(x, 0, s.width - 1), Clamp(y, 0, s.height - 1)))
  {
    hide InStep;
    PeersHaveSessions(d);
    if peer in d.links {
      var at := CursorState(peer, ClampToScreen(d.links[peer].screen, x, y));
      assert d.layout.screens[peer] == d.links[peer].screen;
      RetargetKeepsValid(d, Remote(peer), at, d.links, d.warps);
    }
  }

  // ---- Operations that rebuild the layout ----

  /** All of the invariant that does not concern the layout, which is about to be
      rebuilt: a cursor left on a machine that is gone will be brought home. */
  ghost predicate Ready(d: State) {
    && d.sessions.local == d.local && d.local !in d.links
    && InStep(d.sessions, d.links)
    && if d.cursor.machine == d.local then d.sessions.active.Local? && InScreen(d.cursor.position, d.screen)
       else if d.cursor.machine in d.links then
         && d.sessions.active == Remote(d.cursor.machine)
         && InScreen(d.cursor.position, d.links[d.cursor.machine].screen)
       else d.sessions.active.Local?
  }

  lemma ValidIsReady(d: State)
    requires Valid(d)
    ensures Ready(d) && d.cursor.machine in d.links.Keys + {d.local}
  {
    PeersHaveSessions(d);
  }

  lemma RebuiltIsValid(d: State, order: seq<MachineId>)
    requires Ready(d) && Lists(order, d.links.Keys)
    ensures Valid(d.RebuildLayout(order).SyncSuppression())
    ensures d.RebuildLayout(order).cursor == if d.cursor.machine in d.links.Keys + {d.local} then d.cursor else d.Home()
  {
    hide InStep;
    RebuildIsStar(d, order);
  }

  /** The state once a peer's session is closed, before the layout is rebuilt. */
  function Closed(d: State, peer: MachineId): State
    requires peer in d.links
  {
    d.(links := d.links - {peer}, sessions := OkOr(d.sessions.Close(d.links[peer].session), d.sessions))
  }

  lemma ClosedIsReady(d: State, peer: MachineId)
    requires Ready(d) && peer in d.links
    ensures Ready(Closed(d, peer))
    ensures Closed(d, peer).sessions.active == if d.sessions.active == Remote(peer) then Local else d.sessions.active
  {
    hide InStep;
    LeavingKeepsInStep(d.sessions, d.links, peer);
  }

  lemma LeavingKeepsInStep(m: Manager, links: Links, peer: MachineId)
    requires InStep(m, links) && peer in links
    ensures var r := m.Close(links[peer].session);
            && r.Ok? && InStep(r.value, links - {peer}) && r.value.local == m.local
            && r.value.active == if m.active == Remote(peer) then Local else m.active
  {
    CloseRemovesOne(m, links[peer].session);
    assert forall p | p in links && p != peer :: links[p].session != links[peer].session;
  }

  lemma CleanupKeeps(d: State, peer: MachineId, order: seq<MachineId>)
    requires Valid(d) && Lists(order, d.links.Keys - {peer})
    ensures var n := d.CleanupPeer(peer, order);
            && Valid(n) && n.local == d.local && n.screen == d.screen && n.links == d.links - {peer}
            && n.settings == d.settings && n.warps == d.warps
            && n.sessions.active == (if d.sessions.active == Remote(peer) then Local else d.sessions.active)
            && n.cursor == if d.sessions.active == Remote(peer) then d.Home() else d.cursor
  {
    hide Valid, Ready;
    ValidIsReady(d);
    PeersHaveSessions(d);
    if peer in d.links {
      ClosedIsReady(d, peer);
      RebuiltIsValid(Closed(d, peer), order);
    } else {
      assert d.links - {peer} == d.links && d.links.Keys - {peer} == d.links.Keys;
      RebuiltIsValid(d, order);
    }
  }

  lemma PlacedIsReady(d: State, host: string, edge: Edge)
    requires Ready(d)
    ensures var links' := PlaceHost(d.links, host, edge);
            links'.Keys == d.links.Keys && Ready(d.Placing(host, edge))
  {
  }

  /** Placing a host moves exactly its own live links, to the edge asked for, is
      remembered for its next connection, and touches nothing else; an edge that
      was not understood changes nothing at all. */
  lemma SetLayoutKeeps(d: State, host: string, parsed: Option<Edge>, order: seq<MachineId>)
    requires Valid(d) && (parsed.Some? ==> Lists(order, d.links.Keys))
    ensures var n := d.SetLayout(host, parsed, order);
            && Valid(n) && n.local == d.local && n.screen == d.screen && n.sessions == d.sessions
            && n.cursor == d.cursor && n.warps == d.warps && n.links.Keys == d.links.Keys
            && match parsed
               case None => n == d
               case Some(e) =>
                 && n.settings == Settings(d.settings.placements[host := e], d.settings.swaps)
                 && forall p | p in d.links ::
                      n.links[p] == d.links[p].(edge := if d.links[p].host == host then e else d.links[p].edge)
  {
    hide Ready, Star, InStep;
    ValidIsReady(d);
    if parsed.Some? {
      var placed := d.Placing(host, parsed.value);
      PlacedIsReady(d, host, parsed.value);
      RebuiltIsValid(placed, order);
      if placed.links == map[] {
        NobodyToPlace(d, host, parsed.value);
      }
    }
  }

  /** Relabelling for a host concerns exactly its own live links and its next
      connection, and nothing else. */
  lemma SetModifierSwapKeeps(d: State, host: string, parsed: Option<ModifierSwap>)
    requires Valid(d)
    ensures var n := d.SetModifierSwap(host, parsed);
            && Valid(n) && n.local == d.local && n.screen == d.screen && n.sessions == d.sessions
            && n.cursor == d.cursor && n.warps == d.warps && n.layout == d.layout && n.links.Keys == d.links.Keys
            && match parsed
               case None => n == d
               case Some(swap) =>
                 && n.settings == Settings(d.settings.placements, d.settings.swaps[host := swap])
                 && forall p | p in d.links ::
                      n.links[p] == d.links[p].(swap := if d.links[p].host == host then swap else d.links[p].swap)
  {
    hide Star, InStep;
    if parsed.Some? {
      SameSeatsKeepValid(d, RelabelHost(d.links, host, parsed.value));
    }
  }

  lemma NobodyToPlace(d: State, host: string, edge: Edge)
    requires Valid(d) && PlaceHost(d.links, host, edge) == map[]
    ensures Valid(d.Placing(host, edge))
  {
    hide Star, InStep;
    assert PlaceHost(d.links, host, edge).Keys == {};
    assert d.links == map[];
  }

  /** The state once a session is up, before the layout is rebuilt. */
  function Joined(d: State, session: SessionId, peer: MachineId, role: Role, host: string, screen: Screen): State {
    d.(sessions := OkOr(d.sessions.Establish(session, peer, role), d.sessions),
       links := d.links[peer := PeerLink(host, session, role, screen, d.EdgeFor(host, role), d.SwapFor(host), [])])
  }

  lemma JoinedIsReady(d: State, session: SessionId, peer: MachineId, role: Role, host: string, screen: Screen)
    requires Ready(d) && d.cursor.machine in d.links.Keys + {d.local}
    requires peer != d.local && d.sessions.Establish(session, peer, role).Ok?
    ensures var n := Joined(d, session, peer, role, host, screen);
            && Ready(n) && n.sessions.active == d.sessions.active && n.cursor == d.cursor
            && n.links.Keys == d.links.Keys + {peer} && peer !in d.links
  {
    hide InStep;
    JoiningKeepsInStep(d.sessions, d.links, peer, Joined(d, session, peer, role, host, screen).links[peer]);
  }

  lemma LinkHasItsSession(m: Manager, links: Links, p: MachineId)
    requires InStep(m, links) && p in links
    ensures links[p].session in m.sessions
  {
    assert m.byPeer[p] == links[p].session;
  }

  lemma JoiningKeepsInStep(m: Manager, links: Links, peer: MachineId, link: PeerLink)
    requires InStep(m, links) && m.Establish(link.session, peer, link.role).Ok?
    ensures var n := m.Establish(link.session, peer, link.role).value;
            InStep(n, links[peer := link]) && n.active == m.active && n.local == m.local && peer !in links
  {
    hide Manager.WellFormed;
    EstablishAddsOne(m, link.session, peer, link.role);
    forall p | p in links ensures links[p].session in m.sessions {
      LinkHasItsSession(m, links, p);
    }
  }

  /** A new session adds one link and leaves the others, the cursor and the active
      target where they are. The peer sits past the edge chosen for its host, or
      else left of a machine that accepted it and right of one that dialled it. */
  lemma EstablishKeeps(d: State, session: SessionId, peer: MachineId, role: Role, host: string, screen: Screen,
                       order: seq<MachineId>)
    requires Valid(d) && peer != d.local && Lists(order, d.links.Keys + {peer})
    requires d.Establish(session, peer, role, host, screen, order).Ok?
    ensures var n := d.Establish(session, peer, role, host, screen, order).value;
            && Valid(n) && n.local == d.local && n.screen == d.screen && peer !in d.links
            && n.links == d.links[peer := PeerLink(host, session, role, screen,
                            if host in d.settings.placements then d.settings.placements[host]
                            else if role == Target then Left else Right,
                            if host in d.settings.swaps then d.settings.swaps[host] else Unchanged, [])]
            && n.settings == d.settings && n.warps == d.warps
            && n.cursor == d.cursor && n.sessions.active == d.sessions.active
  {
    hide Ready, Star, InStep;
    ValidIsReady(d);
    JoinedIsReady(d, session, peer, role, host, screen);
    RebuiltIsValid(Joined(d, session, peer, role, host, screen), order);
  }

  /** It is refused only when that peer or that session is already there. */
  lemma EstablishRefusedOnlyForDuplicates(d: State, session: SessionId, peer: MachineId, role: Role, host: string,
                                          screen: Screen, order: seq<MachineId>)
    requires Valid(d)
    ensures d.Establish(session, peer, role, host, screen, order).Err? <==>
            peer in d.links || exists p :: p in d.links && d.links[p].session == session
  {
    if session in d.sessions.sessions {
      var p := d.sessions.sessions[session].peer;
      assert p in d.links && d.links[p].session == session;
    }
  }

  // ---- Runs ----

  datatype Step =
    | Captured(event: InputEvent, os: Option<(int, int)>)
    | WarpArrived(x: int, y: int)
    | ReturnArrived(peer: MachineId, x: int, y: int)
    | SessionEnded(peer: MachineId, order: seq<MachineId>)
    | Placed(host: string, parsed: Option<Edge>, order: seq<MachineId>)
    | Relabelled(host: string, swap: Option<ModifierSwap>)
    | Connected(session: SessionId, peer: MachineId, role: Role, host: string, screen: Screen, order: seq<MachineId>)
    | Drained(peer: MachineId)
    | Queued(peer: MachineId, command: PeerCommand)

  /** A peer is another machine, and an iteration visits each link once. */
  ghost predicate Possible(d: State, s: Step) {
    match s
    case SessionEnded(peer, order) => Lists(order, d.links.Keys - {peer})
    case Placed(_, parsed, order) => parsed.Some? ==> Lists(order, d.links.Keys)
    case Connected(_, peer, _, _, _, order) => peer != d.local && Lists(order, d.links.Keys + {peer})
    case _ => true
  }

  function Apply(d: State, s: Step): State {
    match s
    case Captured(event, os) => d.RouteCaptured(event, os)
    case WarpArrived(x, y) => d.TakenOver(x, y)
    case ReturnArrived(peer, x, y) => d.FollowPeerCursor(peer, x, y)
    case SessionEnded(peer, order) => d.CleanupPeer(peer, order)
    case Placed(host, parsed, order) => d.SetLayout(host, parsed, order)
    case Relabelled(host, swap) => d.SetModifierSwap(host, swap)
    case Connected(session, peer, role, host, screen, order) =>
      OkOr(d.Establish(session, peer, role, host, screen, order), d)
    case Drained(peer) => d.Drain(peer)
    case Queued(peer, command) => d.(links := QueueFor(d.links, peer, command))
  }

  lemma ApplyKeepsValid(d: State, s: Step)
    requires Valid(d) && Possible(d, s)
    ensures Valid(Apply(d, s)) && Apply(d, s).local == d.local
  {
    hide Valid;
    match s
    case Captured(event, os) => RouteCapturedKeeps(d, event, os);
    case WarpArrived(x, y) => TakenOverKeeps(d, x, y);
    case ReturnArrived(peer, x, y) => FollowKeeps(d, peer, x, y);
    case SessionEnded(peer, order) => CleanupKeeps(d, peer, order);
    case Placed(host, parsed, order) => SetLayoutKeeps(d, host, parsed, order);
    case Relabelled(host, swap) => SetModifierSwapKeeps(d, host, swap);
    case Connected(session, peer, role, host, screen, order) =>
      if d.Establish(session, peer, role, host, screen, order).Ok? {
        EstablishKeeps(d, session, peer, role, host, screen, order);
      }
    case Drained(peer) => SamePeersKeepValid(d, d.Drain(peer).links);
    case Queued(peer, command) => SamePeersKeepValid(d, QueueFor(d.links, peer, command));
  }

  /** The state after a run, each step being possible where it is taken. */
  ghost predicate Runs(d: State, steps: seq<Step>, end: State)
    decreases |steps|
  {
    if steps == [] then end == d
    else Possible(d, steps[0]) && Runs(Apply(d, steps[0]), steps[1..], end)
  }

  lemma {:induction false} RunKeepsValid(d: State, steps: seq<Step>, end: State)
    requires Valid(d) && Runs(d, steps, end)
    ensures Valid(end) && end.local == d.local
    decreases |steps|
  {
    hide Valid;
    if steps == [] {
    } else {
      ApplyKeepsValid(d, steps[0]);
      RunKeepsValid(Apply(d, steps[0]), steps[1..], end);
    }
  }

  /** From start-up on, whatever happens: the cursor is tracked on the machine
      input goes to and inside its screen, the local input is withheld exactly
      while it goes elsewhere, links and sessions name the same peers, and no
      movement is ever lost. */
  lemma EveryRunIsTracked(local: MachineId, screen: Screen, settings: Settings, steps: seq<Step>,
                          end: State, delta: MouseDelta)
    requires Runs(Started(local, screen, settings), steps, end)
    ensures Valid(end)
    ensures end.sessions.active == Local <==> end.cursor.machine == local
    ensures forall p :: end.sessions.active == Remote(p) <==> end.cursor.machine == p && p != local
    ensures end.suppressed <==> end.sessions.active != Local
    ensures end.layout.screens.Keys == end.links.Keys + {local} == end.sessions.byPeer.Keys + {local}
    ensures end.layout.Advance(end.cursor, end.ScaledForCursor(delta)).Ok?
  {
    StartedIsValid(local, screen, settings);
    RunKeepsValid(Started(local, screen, settings), steps, end);
    AdvanceCursorKeeps(end, delta);
  }

  // ---- What is forwarded ----

  /** A movement that stays on a peer is forwarded to that peer alone, as one
      position inside its screen: the tracked one. */
  lemma ForwardedPositionIsOnThePeer(d: State, delta: MouseDelta, os: Option<(int, int)>)
    requires Valid(d) && d.sessions.active.Remote? && !d.AdvanceCursor(delta).1
    ensures var n := d.RouteCaptured(Motion(delta), os);
            var peer := d.sessions.active.peer;
            && n.cursor.machine == peer && InScreen(n.cursor.position, d.links[peer].screen)
            && n.links == d.links[peer := d.links[peer].Queue(
                                    Input(Pointer(n.cursor.position.x, n.cursor.position.y)))]
  {
    AdvanceCursorKeeps(d, delta);
  }
}
