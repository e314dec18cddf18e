/** What captured input turns into: who is told of a crossing, and which events
    reach a peer's connection over a whole run. */
module Delivery {
  import opened Prelude
  import opened Geometry
  import opened Layouts
  import opened Sessions
  import opened Commands
  import opened States
  import opened Invariant

  // ---- One captured event ----

  /** A crossing is told to exactly those it concerns, at the very spot the cursor
      is tracked from then on: going over, only the machine entered; coming back,
      every peer, and this machine's own pointer is put there. */
  lemma CrossingTells(d: State, delta: MouseDelta)
    requires Valid(d) && d.AdvanceCursor(delta).1
    ensures var n := d.AdvanceCursor(delta).0;
            var at, to := n.cursor.position, n.cursor.machine;
            if d.sessions.active.Local? then
              && to in d.links && n.sessions.active == Remote(to)
              && n.links == d.links[to := d.links[to].Queue(Warp(at.x, at.y))] && n.warps == d.warps
            else
              && to == d.local && n.sessions.active == Local
              && n.links == QueueForAll(d.links, CursorReturned(at.x, at.y)) && n.warps == d.warps + [(at.x, at.y)]
  {
    AdvanceCursorKeeps(d, delta);
    AdvanceStaysTracked(d.layout, d.cursor, d.ScaledForCursor(delta));
    var crossing := d.layout.Advance(d.cursor, d.ScaledForCursor(delta)).value.crossing.value;
    CrossingHasLocalEnd(d, crossing, delta);
    CrossedTells(d, crossing);
  }

  lemma CrossedTells(d: State, crossing: Crossing)
    requires Valid(d) && d.sessions.HandleCrossing(crossing).Ok?
    requires if d.sessions.active.Local? then crossing.peer in d.links else crossing.peer == d.local
    ensures Crossed(d, crossing).cursor == CursorState(crossing.peer, crossing.entry)
    ensures var n, at, to := Crossed(d, crossing), crossing.entry, crossing.peer;
            if d.sessions.active.Local? then
              && to in d.links && n.sessions.active == Remote(to)
              && n.links == d.links[to := d.links[to].Queue(Warp(at.x, at.y))] && n.warps == d.warps
            else
              && to == d.local && n.sessions.active == Local
              && n.links == QueueForAll(d.links, CursorReturned(at.x, at.y)) && n.warps == d.warps + [(at.x, at.y)]
  {
    PeersHaveSessions(d);
    hide Valid;
  }

  /** With input on its own screen, a machine moves its cursor from wherever the
      operating system last put it, pulled into the screen, and not from where it
      last tracked it; the movement is not rescaled. */
  lemma LocalMoveStartsWhereTheOsIs(d: State, delta: MouseDelta, x: int, y: int)
    requires Valid(d) && d.sessions.active.Local?
    ensures var n := d.RouteCaptured(Motion(delta), Some((x, y)));
            var from := Point(Clamp(x, 0, d.screen.width - 1), Clamp(y, 0, d.screen.height - 1));
            var r := d.layout.Advance(CursorState(d.local, from), delta);
            r.Ok? && n.cursor == r.value.cursor && (n.sessions.active.Local? <==> r.value.crossing.None?)
  {
    hide Valid, State.AdvanceCursor;
    SyncCursorKeeps(d, Some((x, y)));
    AdvanceCursorKeeps(d.SyncCursorToOs(Some((x, y))), delta);
  }

  /** Without a position from the operating system it moves on from where it is
      tracked. */
  lemma LocalMoveStartsWhereItIsTracked(d: State, delta: MouseDelta)
    requires Valid(d) && d.sessions.active.Local?
    ensures var n := d.RouteCaptured(Motion(delta), None);
            var r := d.layout.Advance(d.cursor, delta);
            r.Ok? && n.cursor == r.value.cursor && (n.sessions.active.Local? <==> r.value.crossing.None?)
  {
    hide Valid, State.AdvanceCursor;
    PeersHaveSessions(d);
    AdvanceCursorKeeps(d, delta);
  }

  /** Keys, buttons and scrolls are none of the daemon's business while input is
      local, and otherwise are queued, relabelled, for the machine that has the
      cursor. Nothing else comes of them. */
  lemma OtherInputGoesOneWay(d: State, event: InputEvent, os: Option<(int, int)>)
    requires Valid(d) && !event.Motion?
    ensures var n := d.RouteCaptured(event, os);
            match d.sessions.active
            case Local => n == d
            case Remote(p) =>
              && p in d.links
              && var link := d.links[p];
                 n == d.(links := d.links[p := link.(commands := link.commands + [Input(link.swap.Apply(event))])])
  {
    hide Star, InStep;
    PeersHaveSessions(d);
  }

  /** A hand-over that names another session is as good as none. */
  lemma OtherSessionsAreIgnored(d: State, session: SessionId, peer: MachineId, m: ControlMessage)
    requires m.session != session || m.DisconnectMessage?
    ensures OnSignal(d, session, peer, m) == d
  {
  }

  // ---- A whole run, towards one peer ----

  predicate IsAction(e: InputEvent) {
    !e.Motion? && !e.Pointer?
  }

  function Actions(es: seq<InputEvent>): seq<InputEvent> {
    if es == [] then [] else Actions(Front(es)) + if IsAction(Last(es)) then [Last(es)] else []
  }

  function QueuedActions(cs: seq<PeerCommand>): seq<InputEvent> {
    if cs == [] then [] else QueuedActions(Front(cs)) + ActionOf(Last(cs))
  }

  function ActionOf(c: PeerCommand): seq<InputEvent> {
    if c.Input? && IsAction(c.event) then [c.event] else []
  }

  /** What a captured event adds to what is meant for a peer: an action captured
      while input goes there, relabelled as the user then wanted it. */
  function Meant(d: State, peer: MachineId, event: InputEvent): seq<InputEvent> {
    if IsAction(event) && d.sessions.active == Remote(peer) && peer in d.links
    then [d.links[peer].swap.Apply(event)]
    else []
  }

  /** A daemon, everything its connection to one peer has sent as input, and the
      actions its user meant for that peer. */
  datatype Connection = Connection(d: State, sent: seq<InputEvent>, meant: seq<InputEvent>)

  /** Taking one step: what is captured may be meant for the peer; what is drained
      goes out. */
  function Carry(c: Connection, peer: MachineId, s: Step): Connection {
    Connection(Invariant.Apply(c.d, s),
               if s == Drained(peer) && peer in c.d.links
               then c.sent
                    + SendAll(NOTHING_SENT, c.d.links[peer].session, Coalesce(c.d.links[peer].commands)).datagrams
               else c.sent,
               if s.Captured? then c.meant + Meant(c.d, peer, s.event) else c.meant)
  }

  /** The connection lasts: the peer is not cleaned up or told to disconnect, and
      only captured input is queued as input. */
  ghost predicate Lasts(c: Connection, peer: MachineId, s: Step) {
    && Invariant.Possible(c.d, s)
    && !(s.SessionEnded? && s.peer == peer)
    && !(s.Queued? && s.peer == peer && (s.command.Disconnect? || s.command.Input?))
  }

  ghost predicate Carries(c: Connection, peer: MachineId, steps: seq<Step>, end: Connection)
    decreases |steps|
  {
    if steps == [] then end == c
    else Lasts(c, peer, steps[0]) && Carries(Carry(c, peer, steps[0]), peer, steps[1..], end)
  }

  ghost predicate AllAccountedFor(c: Connection, peer: MachineId) {
    && Valid(c.d) && peer in c.d.links && Disconnect !in c.d.links[peer].commands
    && Actions(c.sent) + QueuedActions(c.d.links[peer].commands) == c.meant
  }

  // ---- What one step adds to the peer's queue ----

  /** The queue grew by at most one command, standing for these actions. */
  predicate Adds(cs: seq<PeerCommand>, cs': seq<PeerCommand>, actions: seq<InputEvent>) {
    || (cs' == cs && actions == [])
    || (cs' != [] && Front(cs') == cs && ActionOf(Last(cs')) == actions && Last(cs') != Disconnect)
  }

  lemma AddsOne(cs: seq<PeerCommand>, cs': seq<PeerCommand>, actions: seq<InputEvent>)
    requires Adds(cs, cs', actions) && Disconnect !in cs
    ensures QueuedActions(cs') == QueuedActions(cs) + actions && Disconnect !in cs'
  {
    if cs' == cs && actions == [] {
      assert QueuedActions(cs) + [] == QueuedActions(cs);
    } else {
      assert cs' == cs + [Last(cs')];
    }
  }

  lemma CapturedAdds(d: State, peer: MachineId, event: InputEvent, os: Option<(int, int)>)
    requires Valid(d) && peer in d.links
    ensures var n := d.RouteCaptured(event, os);
            && peer in n.links
            && Adds(d.links[peer].commands, n.links[peer].commands,
                    Meant(d, peer, event))
  {
    if event.Motion? {
      hide State.RouteCaptured;
      CapturedMotionAdds(d, peer, event.delta, os);
    } else {
      hide Valid;
      PeersHaveSessions(d);
    }
  }

  lemma CapturedMotionAdds(d: State, peer: MachineId, delta: MouseDelta, os: Option<(int, int)>)
    requires Valid(d) && peer in d.links
    ensures var n := d.RouteCaptured(Motion(delta), os);
            peer in n.links && Adds(d.links[peer].commands, n.links[peer].commands, [])
  {
    hide Valid, State.AdvanceCursor;
    if d.sessions.active.Local? {
      SyncCursorKeeps(d, os);
      MotionAdds(d.SyncCursorToOs(os), peer, delta);
    } else {
      MotionAdds(d, peer, delta);
    }
  }

  lemma MotionAdds(d: State, peer: MachineId, delta: MouseDelta)
    requires Valid(d) && peer in d.links
    ensures var (n, crossed) := d.AdvanceCursor(delta);
            && peer in n.links && (!crossed ==> n.links == d.links)
            && Adds(d.links[peer].commands, n.links[peer].commands, [])
  {
    hide Valid;
    AdvanceCursorKeeps(d, delta);
    if d.AdvanceCursor(delta).1 {
      hide State.AdvanceCursor;
      CrossingTells(d, delta);
    }
  }

  lemma OthersLeaveTheQueue(d: State, peer: MachineId, s: Step)
    requires Valid(d) && peer in d.links && Invariant.Possible(d, s)
    requires s.WarpArrived? || s.ReturnArrived? || s.Placed? || s.Relabelled? || s.Connected?
             || (s.SessionEnded? && s.peer != peer)
    ensures var n := Invariant.Apply(d, s); peer in n.links && n.links[peer].commands == d.links[peer].commands
  {
    hide Valid;
    match s
    case WarpArrived(x, y) => TakenOverKeeps(d, x, y);
    case ReturnArrived(p, x, y) => FollowKeeps(d, p, x, y);
    case SessionEnded(p, order) => CleanupKeeps(d, p, order);
    case Placed(host, parsed, order) => SetLayoutKeeps(d, host, parsed, order);
    case Relabelled(host, swap) => SetModifierSwapKeeps(d, host, swap);
    case Connected(session, p, role, host, screen, order) =>
      if d.Establish(session, p, role, host, screen, order).Ok? {
        EstablishKeeps(d, session, p, role, host, screen, order);
      }
  }

  // ---- What draining sends ----

  lemma {:induction false} ActionsAppend(a: seq<InputEvent>, b: seq<InputEvent>)
    ensures Actions(a + b) == Actions(a) + Actions(b)
  {
    if b == [] {
      assert a + b == a && Actions(a) + [] == Actions(a);
    } else {
      assert Front(a + b) == a + Front(b) && Last(a + b) == Last(b);
      ActionsAppend(a, Front(b));
    }
  }

  lemma {:induction false} CoalesceKeepsActions(cs: seq<PeerCommand>)
    ensures QueuedActions(Coalesce(cs)) == QueuedActions(cs)
  {
    if cs == [] {
    } else {
      var out, next := Coalesce(Front(cs)), Last(cs);
      CoalesceKeepsActions(Front(cs));
      if IsPointer(next) && out != [] && IsPointer(Last(out)) {
        assert Front(Front(out) + [next]) == Front(out);
      } else {
        assert Front(out + [next]) == out;
      }
    }
  }

  lemma {:induction false} SendAllKeepsActions(session: SessionId, cs: seq<PeerCommand>)
    requires Disconnect !in cs
    ensures var s := SendAll(NOTHING_SENT, session, cs);
            !s.closing && Actions(s.datagrams) == QueuedActions(cs)
  {
    hide SendOne, ActionOf;
    if cs == [] {
    } else {
      assert Last(cs) in cs;
      SendAllKeepsActions(session, Front(cs));
      SendOneKeepsActions(SendAll(NOTHING_SENT, session, Front(cs)), session, Last(cs));
    }
  }

  lemma SendOneKeepsActions(s: Sent, session: SessionId, c: PeerCommand)
    requires !s.closing && c != Disconnect
    ensures !SendOne(s, session, c).closing
    ensures Actions(SendOne(s, session, c).datagrams) == Actions(s.datagrams) + ActionOf(c)
  {
    if c.Input? {
      assert Front(s.datagrams + [c.event]) == s.datagrams;
    }
  }

  lemma DrainSends(session: SessionId, cs: seq<PeerCommand>)
    requires Disconnect !in cs
    ensures Actions(SendAll(NOTHING_SENT, session, Coalesce(cs)).datagrams) == QueuedActions(cs)
  {
    CoalesceKeepsActions(cs);
    CoalesceKeepsControls(session, cs);
    SendAllKeepsActions(session, Coalesce(cs));
  }

  // ---- Every step accounts for every action ----

  /** Whatever moves the cursor makes in between, whoever else is connected or
      placed, and however the queue is cut into batches: the actions sent to a
      peer, and those still queued for it, are exactly the ones captured while
      input was going to it, relabelled as the user then wanted, each once and in
      order. */
  lemma {:induction false} EveryActionIsSentOnce(c: Connection, peer: MachineId, steps: seq<Step>, end: Connection)
    requires AllAccountedFor(c, peer) && Carries(c, peer, steps, end)
    ensures AllAccountedFor(end, peer)
    decreases |steps|
  {
    hide AllAccountedFor, Carry;
    if steps == [] {
    } else {
      CarryKeeps(c, peer, steps[0]);
      EveryActionIsSentOnce(Carry(c, peer, steps[0]), peer, steps[1..], end);
    }
  }

  lemma CarryKeeps(c: Connection, peer: MachineId, s: Step)
    requires AllAccountedFor(c, peer) && Lasts(c, peer, s)
    ensures AllAccountedFor(Carry(c, peer, s), peer)
  {
    if s == Drained(peer) {
      DrainKeeps(c, peer);
    } else {
      OtherStepsKeep(c, peer, s);
    }
  }

  lemma DrainKeeps(c: Connection, peer: MachineId)
    requires AllAccountedFor(c, peer)
    ensures AllAccountedFor(Carry(c, peer, Drained(peer)), peer)
  {
    hide Valid, Coalesce, SendAll;
    ApplyKeepsValid(c.d, Drained(peer));
    var link := c.d.links[peer];
    DrainSends(link.session, link.commands);
    ActionsAppend(c.sent, SendAll(NOTHING_SENT, link.session, Coalesce(link.commands)).datagrams);
    assert c.meant + [] == c.meant;
  }

  lemma OtherStepsKeep(c: Connection, peer: MachineId, s: Step)
    requires AllAccountedFor(c, peer) && Lasts(c, peer, s) && s != Drained(peer)
    ensures AllAccountedFor(Carry(c, peer, s), peer)
  {
    hide Valid, Invariant.Apply, Adds, Actions, QueuedActions, Meant;
    ApplyKeepsValid(c.d, s);
    var d := c.d;
    var added := if s.Captured? then Meant(d, peer, s.event) else [];
    StepAdds(d, peer, s);
    AddsOne(d.links[peer].commands, Invariant.Apply(d, s).links[peer].commands, added);
    var sent, queued := Actions(c.sent), QueuedActions(d.links[peer].commands);
    assert sent + (queued + added) == (sent + queued) + added;
    assert c.meant + [] == c.meant;
  }

  lemma StepAdds(d: State, peer: MachineId, s: Step)
    requires Valid(d) && peer in d.links && Invariant.Possible(d, s)
    requires !((s.SessionEnded? || s.Drained?) && s.peer == peer)
    requires !(s.Queued? && s.peer == peer && (s.command.Disconnect? || s.command.Input?))
    ensures var n := Invariant.Apply(d, s);
            && peer in n.links
            && Adds(d.links[peer].commands, n.links[peer].commands,
                    if s.Captured? then Meant(d, peer, s.event) else [])
  {
    hide Valid, State.RouteCaptured;
    match s
    case Captured(event, os) => CapturedAdds(d, peer, event, os);
    case Drained(p) =>
    case Queued(p, command) =>
    case _ => OthersLeaveTheQueue(d, peer, s);
  }

  /** From the moment a session is set up: once the queue is drained, the actions
      sent to the peer are exactly those captured while input was going to it,
      relabelled as the user then wanted. */
  lemma NothingMeantIsLost(d: State, session: SessionId, peer: MachineId, role: Role, host: string, screen: Screen,
                           order: seq<MachineId>, steps: seq<Step>, end: Connection)
    requires Valid(d) && peer != d.local && Lists(order, d.links.Keys + {peer})
    requires d.Establish(session, peer, role, host, screen, order).Ok?
    requires Carries(Connection(d.Establish(session, peer, role, host, screen, order).value, [], []), peer, steps, end)
    ensures Actions(Carry(end, peer, Drained(peer)).sent) == end.meant
  {
    hide Valid, State.Establish, AllAccountedFor, Carry;
    EstablishKeeps(d, session, peer, role, host, screen, order);
    var start := Connection(d.Establish(session, peer, role, host, screen, order).value, [], []);
    NewConnectionsAreAccountedFor(start.d, peer);
    EveryActionIsSentOnce(start, peer, steps, end);
    DrainingLeavesNothing(end, peer);
  }

  lemma NewConnectionsAreAccountedFor(d: State, peer: MachineId)
    requires Valid(d) && peer in d.links && d.links[peer].commands == []
    ensures AllAccountedFor(Connection(d, [], []), peer)
  {
    hide Valid;
  }

  lemma DrainingLeavesNothing(c: Connection, peer: MachineId)
    requires AllAccountedFor(c, peer)
    ensures Actions(Carry(c, peer, Drained(peer)).sent) == c.meant
  {
    hide Valid, SendAll, Coalesce;
    DrainKeeps(c, peer);
    var drained := Carry(c, peer, Drained(peer));
    assert Actions(drained.sent) + [] == Actions(drained.sent);
  }
}
