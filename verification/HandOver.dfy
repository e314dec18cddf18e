/** Two daemons sharing one session: each decides on its own when its cursor
    crosses, and hears of the other's crossings later, in order. */
module HandOvers {
  import opened Prelude
  import opened Geometry
  import opened Layouts
  import opened Sessions
  import opened Commands
  import opened States
  import opened Invariant

  /** One hand-over: whether the cursor came back to its sender or went over to
      its receiver, and where it then was. */
  datatype HandOver = HandOver(returned: bool, machine: MachineId, x: int, y: int)

  datatype Entry = SentOne(h: HandOver) | GotOne(h: HandOver)

  /** A machine: its state, what it has put on its control stream that the other
      has not yet read, and its hand-overs so far, oldest first. */
  datatype Node = Node(d: State, wire: seq<ControlMessage>, log: seq<Entry>)

  datatype World = World(left: Node, right: Node)

  /** What a machine may do next: act on a captured event, let its peer task send
      what is queued, read one message, re-place the peer, change how its keys are
      relabelled, or share a copy. */
  datatype Action =
    | Capture(event: InputEvent, os: Option<(int, int)>)
    | Send
    | Hear
    | Place(host: string, parsed: Option<Edge>, order: seq<MachineId>)
    | Relabel(host: string, swap: Option<ModifierSwap>)
    | Share(data: seq<nat>)

  function LinkTo(me: Node, you: Node): PeerLink
    requires you.d.local in me.d.links
  {
    me.d.links[you.d.local]
  }

  ghost predicate Connected(me: Node, you: Node) {
    && Valid(me.d) && me.d.local != you.d.local && me.d.links.Keys == {you.d.local}
    && LinkTo(me, you).screen == you.d.screen
    && Disconnect !in LinkTo(me, you).commands
  }

  function MessageFor(session: SessionId, h: HandOver): ControlMessage {
    if h.returned then CursorReturnedMessage(session, h.x, h.y) else CursorWarpMessage(session, h.x, h.y)
  }

  /** The hand-over a machine takes part in by crossing: where it tracks the
      cursor from then on. */
  function HandOverOf(n: State): HandOver {
    HandOver(n.sessions.active.Local?, n.cursor.machine, n.cursor.position.x, n.cursor.position.y)
  }

  /** Acting on one message, and what was heard by it: where the cursor is now
      tracked, or where this machine's own pointer was put. */
  function Heed(d: State, session: SessionId, peer: MachineId, m: ControlMessage): (State, seq<Entry>) {
    var n := OnSignal(d, session, peer, m);
    match m
    case CursorWarpMessage(claimed, _, _) =>
      (n, if claimed == session then [GotOne(HandOver(false, n.local, Last(n.warps).0, Last(n.warps).1))] else [])
    case CursorReturnedMessage(claimed, _, _) =>
      (n, if claimed == session
          then [GotOne(HandOver(true, n.cursor.machine, n.cursor.position.x, n.cursor.position.y))] else [])
    case DisconnectMessage(_) => (n, [])
  }

  function ActOn(me: Node, you: Node, a: Action): (Node, Node)
    requires you.d.local in me.d.links
  {
    var link := LinkTo(me, you);
    match a
    case Capture(event, os) =>
      var n := me.d.RouteCaptured(event, os);
      var crossed := n.sessions.active != me.d.sessions.active;
      (me.(d := n, log := if crossed then me.log + [SentOne(HandOverOf(n))] else me.log), you)
    case Send =>
      var sent := SendAll(NOTHING_SENT, link.session, Coalesce(link.commands));
      (me.(d := me.d.Drain(you.d.local), wire := me.wire + sent.control), you)
    case Hear =>
      if you.wire == [] then (me, you) else
      var (n, heard) := Heed(me.d, link.session, you.d.local, you.wire[0]);
      (me.(d := n, log := me.log + heard), you.(wire := you.wire[1..]))
    case Place(host, parsed, order) => (me.(d := me.d.SetLayout(host, parsed, order)), you)
    case Relabel(host, swap) => (me.(d := me.d.SetModifierSwap(host, swap)), you)
    case Share(data) => (me.(d := me.d.(links := QueueFor(me.d.links, you.d.local, Clipboard(data)))), you)
  }

  // ---- What each side keeps about what it sent and the other heard ----

  function Sents(log: seq<Entry>): seq<HandOver> {
    if log == [] then [] else Sents(Front(log)) + if Last(log).SentOne? then [Last(log).h] else []
  }

  function Gots(log: seq<Entry>): seq<HandOver> {
    if log == [] then [] else Gots(Front(log)) + if Last(log).GotOne? then [Last(log).h] else []
  }

  lemma LogOneMore(log: seq<Entry>, e: Entry)
    ensures Sents(log + [e]) == Sents(log) + if e.SentOne? then [e.h] else []
    ensures Gots(log + [e]) == Gots(log) + if e.GotOne? then [e.h] else []
  {
    assert Front(log + [e]) == log;
  }

  /** Everything sent and not yet heard: unread on the stream, then still queued. */
  function InFlight(me: Node, you: Node): seq<ControlMessage>
    requires you.d.local in me.d.links
  {
    me.wire + Controls(LinkTo(me, you).session, LinkTo(me, you).commands)
  }

  function Self(d: State): Machine {
    Machine(d.local, d.screen)
  }

  /** Every hand-over names a real spot: on its sender's own screen when the
      cursor returned, on its receiver's otherwise. */
  predicate RealSpots(hs: seq<HandOver>, sender: Machine, receiver: Machine) {
    forall h | h in hs :: RealSpot(h, sender, receiver)
  }

  predicate RealSpot(h: HandOver, sender: Machine, receiver: Machine) {
    var holder := if h.returned then sender else receiver;
    h.machine == holder.id && 0 <= h.x < holder.screen.width && 0 <= h.y < holder.screen.height
  }

  function MessagesFor(session: SessionId, hs: seq<HandOver>): seq<ControlMessage> {
    seq(|hs|, i requires 0 <= i < |hs| => MessageFor(session, hs[i]))
  }

  /** The receiver has heard exactly the oldest of the sender's hand-overs, with
      the positions they were sent with; the rest are in flight, in order. */
  predicate Delivers(session: SessionId, inFlight: seq<ControlMessage>, sent: seq<HandOver>, heard: seq<HandOver>) {
    heard <= sent && inFlight == MessagesFor(session, sent[|heard|..])
  }

  /** The last hand-over a machine took part in leaves its input elsewhere: it
      gave the cursor away, or heard that the other took it home. */
  predicate LeftRemote(log: seq<Entry>) {
    log != [] && if Last(log).SentOne? then !Last(log).h.returned else Last(log).h.returned
  }

  ghost predicate Agrees(me: Node, you: Node) {
    && Connected(me, you)
    && Delivers(LinkTo(me, you).session, InFlight(me, you), Sents(me.log), Gots(you.log))
    && RealSpots(Sents(me.log), Self(me.d), Self(you.d))
    && (me.d.sessions.active.Remote? <==> LeftRemote(me.log))
  }

  predicate LastSent(log: seq<Entry>) {
    log != [] && Last(log).SentOne?
  }

  predicate LastGot(log: seq<Entry>) {
    log != [] && Last(log).GotOne?
  }

  ghost predicate Inv(w: World) {
    && Agrees(w.left, w.right) && Agrees(w.right, w.left)
    && LinkTo(w.left, w.right).session == LinkTo(w.right, w.left).session
    && (Quiet(w) ==> !(LastSent(w.left.log) && !LastGot(w.right.log))
                     && !(LastSent(w.right.log) && !LastGot(w.left.log)))
  }

  /** Nothing is in flight either way. */
  ghost predicate Quiet(w: World)
    requires Connected(w.left, w.right) && Connected(w.right, w.left)
  {
    InFlight(w.left, w.right) == [] && InFlight(w.right, w.left) == []
  }

  // ---- Each action keeps both sides ----

  function CrossingCommand(n: State): PeerCommand {
    var x, y := n.cursor.position.x, n.cursor.position.y;
    if n.sessions.active.Local? then CursorReturned(x, y) else Warp(x, y)
  }

  /** From `d` to `n` the cursor changed hands, and exactly the message that says
      so was queued for the peer. */
  predicate HandsOver(d: State, n: State, peer: MachineId) {
    && peer in d.links && peer in n.links
    && n.sessions.active != d.sessions.active
    && n.links[peer] == d.links[peer].Queue(CrossingCommand(n))
    && n.cursor.machine == if n.sessions.active.Local? then d.local else peer
  }

  /** From `d` to `n` the cursor did not change hands, and at most an input event
      or a clipboard payload was queued. */
  ghost predicate KeepsHold(d: State, n: State, peer: MachineId) {
    && peer in d.links && peer in n.links
    && n.sessions.active == d.sessions.active
    && (|| n.links[peer] == d.links[peer]
        || exists c: PeerCommand :: (c.Input? || c.Clipboard?) && n.links[peer] == d.links[peer].Queue(c))
  }

  lemma CaptureQueues(d: State, peer: MachineId, event: InputEvent, os: Option<(int, int)>)
    requires Valid(d) && d.links.Keys == {peer}
    ensures var n := d.RouteCaptured(event, os); HandsOver(d, n, peer) || KeepsHold(d, n, peer)
  {
    hide Valid;
    PeersHaveSessions(d);
    if event.Motion? {
      var from := if d.sessions.active.Local? then d.SyncCursorToOs(os) else d;
      if d.sessions.active.Local? {
        SyncCursorKeeps(d, os);
      }
      MotionQueues(from, peer, event.delta);
    }
  }

  lemma MotionQueues(d: State, peer: MachineId, delta: MouseDelta)
    requires Valid(d) && d.links.Keys == {peer}
    ensures var (n, crossed) := d.AdvanceCursor(delta);
            if crossed then HandsOver(d, n, peer)
            else n.sessions.active == d.sessions.active && n.links == d.links
  {
    AdvanceCursorKeeps(d, delta);
    AdvanceStaysTracked(d.layout, d.cursor, d.ScaledForCursor(delta));
    var moved := d.layout.Advance(d.cursor, d.ScaledForCursor(delta)).value;
    if moved.crossing.Some? {
      CrossingHasLocalEnd(d, moved.crossing.value, delta);
      CrossingQueues(d, peer, moved.crossing.value);
    }
  }

  lemma CrossingQueues(d: State, peer: MachineId, crossing: Crossing)
    requires Valid(d) && d.links.Keys == {peer}
    requires if d.sessions.active.Local? then crossing.peer in d.links else crossing.peer == d.local
    ensures HandsOver(d, Crossed(d, crossing), peer)
  {
    hide Star;
    assert crossing.peer == d.local || crossing.peer == peer;
  }

  lemma DeliversOneMore(session: SessionId, inFlight: seq<ControlMessage>, sent: seq<HandOver>,
                        heard: seq<HandOver>, h: HandOver)
    requires Delivers(session, inFlight, sent, heard)
    ensures Delivers(session, inFlight + [MessageFor(session, h)], sent + [h], heard)
  {
    assert (sent + [h])[|heard|..] == sent[|heard|..] + [h];
  }

  lemma DeliversNext(session: SessionId, inFlight: seq<ControlMessage>, sent: seq<HandOver>, heard: seq<HandOver>)
    requires Delivers(session, inFlight, sent, heard) && inFlight != []
    ensures |heard| < |sent| && inFlight[0] == MessageFor(session, sent[|heard|])
    ensures Delivers(session, inFlight[1..], sent, heard + [sent[|heard|]])
  {
    assert sent[|heard|..][1..] == sent[|heard| + 1..];
  }

  /** Queueing one command adds what it stands for to what is in flight. */
  lemma QueueOne(me: Node, you: Node, me': Node, c: PeerCommand)
    requires you.d.local in me.d.links && you.d.local in me'.d.links && me'.wire == me.wire
    requires LinkTo(me', you) == LinkTo(me, you).Queue(c) && c != Disconnect
    ensures InFlight(me', you) == InFlight(me, you) + ControlOf(LinkTo(me, you).session, c)
    ensures Disconnect in LinkTo(me', you).commands ==> Disconnect in LinkTo(me, you).commands
    ensures LinkTo(me', you).screen == LinkTo(me, you).screen && LinkTo(me', you).session == LinkTo(me, you).session
  {
    var cs := LinkTo(me, you).commands;
    assert Front(cs + [c]) == cs;
  }

  /** Handing over adds one message, and the log says so. */
  lemma CrossingKeepsSides(me: Node, you: Node, me': Node)
    requires Agrees(me, you) && Agrees(you, me)
    requires Valid(me'.d) && Self(me'.d) == Self(me.d) && SamePeers(me.d.links, me'.d.links)
    requires HandsOver(me.d, me'.d, you.d.local)
    requires me'.wire == me.wire && me'.log == me.log + [SentOne(HandOverOf(me'.d))]
    ensures Agrees(me', you) && Agrees(you, me')
    ensures InFlight(me', you) != []
  {
    hide Valid;
    var session, h, c := LinkTo(me, you).session, HandOverOf(me'.d), CrossingCommand(me'.d);
    QueueOne(me, you, me', c);
    assert ControlOf(session, c) == [MessageFor(session, h)];
    DeliversOneMore(session, InFlight(me, you), Sents(me.log), Gots(you.log), h);
    LogOneMore(me.log, SentOne(h));
    assert Gots(me.log) + [] == Gots(me.log);
    SpotIsReal(me, you, me');
  }

  lemma SpotIsReal(me: Node, you: Node, me': Node)
    requires Connected(me, you) && Valid(me'.d) && Self(me'.d) == Self(me.d)
    requires SamePeers(me.d.links, me'.d.links) && HandsOver(me.d, me'.d, you.d.local)
    ensures RealSpot(HandOverOf(me'.d), Self(me.d), Self(you.d))
  {
    assert you.d.local in me'.d.links;
    assert me'.d.layout.screens[me'.d.cursor.machine] ==
           if me'.d.sessions.active.Local? then me.d.screen else you.d.screen;
  }

  lemma HoldingKeepsSides(me: Node, you: Node, me': Node)
    requires Agrees(me, you) && Agrees(you, me)
    requires Valid(me'.d) && Self(me'.d) == Self(me.d) && SamePeers(me.d.links, me'.d.links)
    requires KeepsHold(me.d, me'.d, you.d.local)
    requires me'.wire == me.wire && me'.log == me.log
    ensures Agrees(me', you) && Agrees(you, me')
    ensures InFlight(me', you) == InFlight(me, you)
  {
    hide Valid;
    if LinkTo(me', you) != LinkTo(me, you) {
      var c: PeerCommand :| (c.Input? || c.Clipboard?) && LinkTo(me', you) == LinkTo(me, you).Queue(c);
      QueueOne(me, you, me', c);
      assert InFlight(me, you) + [] == InFlight(me, you);
    }
  }

  lemma CaptureKeepsSides(me: Node, you: Node, event: InputEvent, os: Option<(int, int)>)
    requires Agrees(me, you) && Agrees(you, me)
    ensures var (me', you') := ActOn(me, you, Capture(event, os));
            && Agrees(me', you') && Agrees(you', me') && you' == you && me'.d.local == me.d.local
            && LinkTo(me', you').session == LinkTo(me, you).session
            && if me'.d.sessions.active == me.d.sessions.active
               then me'.log == me.log && InFlight(me', you') == InFlight(me, you)
               else me'.log == me.log + [SentOne(HandOverOf(me'.d))] && InFlight(me', you') != []
  {
    hide Valid;
    var me' := ActOn(me, you, Capture(event, os)).0;
    RouteCapturedKeeps(me.d, event, os);
    CaptureQueues(me.d, you.d.local, event, os);
    if HandsOver(me.d, me'.d, you.d.local) {
      CrossingKeepsSides(me, you, me');
    } else {
      HoldingKeepsSides(me, you, me');
    }
  }

  lemma SendKeepsSides(me: Node, you: Node)
    requires Agrees(me, you) && Agrees(you, me)
    ensures var (me', you') := ActOn(me, you, Send);
            && Agrees(me', you') && Agrees(you', me') && you' == you && me'.log == me.log
            && me'.d.local == me.d.local
            && LinkTo(me', you').session == LinkTo(me, you).session
            && InFlight(me', you') == InFlight(me, you)
            && me'.wire == InFlight(me', you')
  {
    hide Valid;
    var link := LinkTo(me, you);
    BatchKeepsHandOvers(link.session, link.commands);
    SamePeersKeepValid(me.d, me.d.Drain(you.d.local).links);
  }

  lemma ShareKeepsSides(me: Node, you: Node, data: seq<nat>)
    requires Agrees(me, you) && Agrees(you, me)
    ensures var (me', you') := ActOn(me, you, Share(data));
            && Agrees(me', you') && Agrees(you', me') && you' == you && me'.log == me.log
            && me'.d.local == me.d.local
            && LinkTo(me', you').session == LinkTo(me, you).session
            && InFlight(me', you') == InFlight(me, you)
  {
    hide Valid;
    var me' := ActOn(me, you, Share(data)).0;
    SamePeersKeepValid(me.d, me'.d.links);
    assert LinkTo(me', you) == LinkTo(me, you).Queue(Clipboard(data));
    HoldingKeepsSides(me, you, me');
  }

  lemma PlaceKeepsSides(me: Node, you: Node, host: string, parsed: Option<Edge>, order: seq<MachineId>)
    requires Agrees(me, you) && Agrees(you, me) && (parsed.Some? ==> Lists(order, me.d.links.Keys))
    ensures var (me', you') := ActOn(me, you, Place(host, parsed, order));
            && Agrees(me', you') && Agrees(you', me') && you' == you && me'.log == me.log
            && me'.d.local == me.d.local
            && LinkTo(me', you').session == LinkTo(me, you).session
            && InFlight(me', you') == InFlight(me, you)
  {
    hide Valid, State.SetLayout;
    SetLayoutKeeps(me.d, host, parsed, order);
    assert you.d.local in me.d.links;
  }

  lemma RelabelKeepsSides(me: Node, you: Node, host: string, swap: Option<ModifierSwap>)
    requires Agrees(me, you) && Agrees(you, me)
    ensures var (me', you') := ActOn(me, you, Relabel(host, swap));
            && Agrees(me', you') && Agrees(you', me') && you' == you && me'.log == me.log
            && me'.d.local == me.d.local
            && LinkTo(me', you').session == LinkTo(me, you).session
            && InFlight(me', you') == InFlight(me, you)
  {
    hide Valid, State.SetModifierSwap;
    SetModifierSwapKeeps(me.d, host, swap);
    assert you.d.local in me.d.links;
  }

  /** The oldest message in flight is the next hand-over of the sender's log, and
      hearing it reproduces that hand-over exactly, position and all. */
  lemma HeedsTheHandOver(me: Node, you: Node, h: HandOver)
    requires Connected(me, you) && RealSpot(h, Self(you.d), Self(me.d))
    ensures var session := LinkTo(me, you).session;
            var (n, heard) := Heed(me.d, session, you.d.local, MessageFor(session, h));
            && heard == [GotOne(h)] && Valid(n)
            && n.local == me.d.local && n.screen == me.d.screen && n.links == me.d.links
            && (n.sessions.active.Remote? <==> h.returned)
  {
    hide Valid, State.FollowPeerCursor, State.TakenOver;
    if h.returned {
      FollowKeeps(me.d, you.d.local, h.x, h.y);
    } else {
      TakenOverKeeps(me.d, h.x, h.y);
    }
  }

  lemma HearKeepsSides(me: Node, you: Node)
    requires Agrees(me, you) && Agrees(you, me) && LinkTo(me, you).session == LinkTo(you, me).session
    requires you.wire != []
    ensures var (me', you') := ActOn(me, you, Hear);
            && Agrees(me', you') && Agrees(you', me') && you'.log == you.log && LastGot(me'.log)
            && me'.d.local == me.d.local
            && LinkTo(me', you').session == LinkTo(you', me').session
            && InFlight(me', you') == InFlight(me, you)
            && you'.wire == you.wire[1..] && InFlight(you', me') == InFlight(you, me)[1..]
            && |Gots(me.log)| < |Sents(you.log)|
            && me'.log == me.log + [GotOne(Sents(you.log)[|Gots(me.log)|])]
  {
    hide Valid;
    var session := LinkTo(you, me).session;
    DeliversNext(session, InFlight(you, me), Sents(you.log), Gots(me.log));
    var h := Sents(you.log)[|Gots(me.log)|];
    assert h in Sents(you.log);
    assert you.wire[0] == InFlight(you, me)[0] == MessageFor(session, h);
    HeedsTheHandOver(me, you, h);
    var (me', you') := ActOn(me, you, Hear);
    HeardKeepsSides(me, you, me', you', h);
  }

  lemma HeardKeepsSides(me: Node, you: Node, me': Node, you': Node, h: HandOver)
    requires Agrees(me, you) && Agrees(you, me) && LinkTo(me, you).session == LinkTo(you, me).session
    requires you.wire != [] && you' == you.(wire := you.wire[1..])
    requires Valid(me'.d) && Self(me'.d) == Self(me.d) && me'.d.links == me.d.links && me'.wire == me.wire
    requires |Gots(me.log)| < |Sents(you.log)| && h == Sents(you.log)[|Gots(me.log)|]
    requires me'.log == me.log + [GotOne(h)] && (me'.d.sessions.active.Remote? <==> h.returned)
    ensures Agrees(me', you') && Agrees(you', me')
    ensures InFlight(me', you') == InFlight(me, you) && InFlight(you', me') == InFlight(you, me)[1..]
  {
    hide Valid;
    DeliversNext(LinkTo(you, me).session, InFlight(you, me), Sents(you.log), Gots(me.log));
    LogOneMore(me.log, GotOne(h));
    assert Sents(me.log) + [] == Sents(me.log);
  }

  // ---- Whole runs ----

  datatype Move = Move(onLeft: bool, action: Action)

  predicate Linked(w: World) {
    w.right.d.local in w.left.d.links && w.left.d.local in w.right.d.links
  }

  function Do(w: World, m: Move): World
    requires Linked(w)
  {
    if m.onLeft then
      var (me, you) := ActOn(w.left, w.right, m.action); World(me, you)
    else
      var (me, you) := ActOn(w.right, w.left, m.action); World(you, me)
  }

  /** An iteration over links visits each once; nothing else limits a move. */
  ghost predicate Allowed(w: World, m: Move) {
    m.action.Place? && m.action.parsed.Some? ==>
      Lists(m.action.order, (if m.onLeft then w.left else w.right).d.links.Keys)
  }

  ghost predicate Leads(w: World, ms: seq<Move>, end: World)
    decreases |ms|
  {
    if ms == [] then end == w
    else Linked(w) && Allowed(w, ms[0]) && Leads(Do(w, ms[0]), ms[1..], end)
  }

  /** A session has just been set up at both ends: nothing sent, nothing queued,
      each machine's input on its own screen. */
  ghost predicate Fresh(me: Node, you: Node) {
    && Connected(me, you) && LinkTo(me, you).commands == []
    && me.wire == [] && me.log == [] && me.d.sessions.active == Local
  }

  ghost predicate Initial(w: World) {
    && Fresh(w.left, w.right) && Fresh(w.right, w.left)
    && LinkTo(w.left, w.right).session == LinkTo(w.right, w.left).session
  }

  lemma DoKeepsInv(w: World, m: Move)
    requires Inv(w) && Allowed(w, m)
    ensures Inv(Do(w, m))
  {
    hide Valid;
    if m.onLeft {
      ActKeepsInv(w.left, w.right, m.action);
    } else {
      ActKeepsInv(w.right, w.left, m.action);
    }
  }

  /** Whose turn it is never matters: the joint invariant reads the same from
      either side. */
  lemma ActKeepsInv(me: Node, you: Node, a: Action)
    requires Inv(World(me, you)) && (a.Place? && a.parsed.Some? ==> Lists(a.order, me.d.links.Keys))
    ensures var (me', you') := ActOn(me, you, a); Inv(World(me', you'))
  {
    hide Agrees;
    match a
    case Capture(event, os) => CaptureKeepsSides(me, you, event, os);
    case Send => SendKeepsSides(me, you);
    case Hear =>
      if you.wire != [] {
        HearKeepsSides(me, you);
      }
    case Relabel(host, swap) => RelabelKeepsSides(me, you, host, swap);
    case Share(data) => ShareKeepsSides(me, you, data);
    case Place(host, parsed, order) => PlaceKeepsSides(me, you, host, parsed, order);
  }

  lemma {:induction false} LeadsFurther(w: World, ms: seq<Move>, mid: World, ms': seq<Move>, end: World)
    requires Leads(w, ms, mid) && Leads(mid, ms', end)
    ensures Leads(w, ms + ms', end)
    decreases |ms|
  {
    hide Do, Linked, Allowed;
    if ms == [] {
      assert [] + ms' == ms';
    } else {
      assert (ms + ms')[1..] == ms[1..] + ms';
      LeadsFurther(Do(w, ms[0]), ms[1..], mid, ms', end);
    }
  }

  lemma {:induction false} RunKeepsInv(w: World, ms: seq<Move>, end: World)
    requires Inv(w) && Leads(w, ms, end)
    ensures Inv(end)
    decreases |ms|
  {
    hide Valid;
    if ms == [] {
    } else {
      DoKeepsInv(w, ms[0]);
      RunKeepsInv(Do(w, ms[0]), ms[1..], end);
    }
  }

  lemma InitialHasInv(w: World)
    requires Initial(w)
    ensures Inv(w)
  {
    hide Valid;
    assert MessagesFor(LinkTo(w.left, w.right).session, []) == [];
  }

  /** Two daemons without links, whatever happened to them before, that set one
      session up with each other start from there. */
  lemma SettingUpIsInitial(left: State, right: State, session: SessionId, role: Role, role': Role, host: string,
                           host': string)
    requires Valid(left) && Valid(right) && left.local != right.local && left.links == map[] == right.links
    ensures var l := left.Establish(session, right.local, role, host, right.screen, [right.local]);
            var r := right.Establish(session, left.local, role', host', left.screen, [left.local]);
            && l.Ok? && r.Ok? && Initial(World(Node(l.value, [], []), Node(r.value, [], [])))
  {
    hide Valid;
    SetsUp(left, session, right.local, role, host, right.screen);
    SetsUp(right, session, left.local, role', host', left.screen);
  }

  lemma SetsUp(d: State, session: SessionId, peer: MachineId, role: Role, host: string, screen: Screen)
    requires Valid(d) && d.links == map[] && peer != d.local
    ensures var r := d.Establish(session, peer, role, host, screen, [peer]);
            && r.Ok? && Valid(r.value) && Self(r.value) == Self(d) && r.value.sessions.active == Local
            && r.value.links.Keys == {peer} && r.value.links[peer].commands == []
            && r.value.links[peer].session == session && r.value.links[peer].screen == screen
  {
    hide Valid;
    PeersHaveSessions(d);
    EstablishRefusedOnlyForDuplicates(d, session, peer, role, host, screen, [peer]);
    assert Lists([peer], d.links.Keys + {peer});
    EstablishKeeps(d, session, peer, role, host, screen, [peer]);
  }

  // ---- Who is in control ----

  predicate SendsAway(n: Node) {
    n.d.sessions.active.Remote?
  }

  /** No hand-over was ever sent. */
  predicate NeverHandedOver(w: World) {
    Sents(w.left.log) == [] && Sents(w.right.log) == []
  }

  /** Each machine heard the other's last message only after sending its own last
      one: the two passed each other on the way. */
  predicate CrossedInFlight(w: World) {
    LastGot(w.left.log) && LastGot(w.right.log)
  }

  /** Both of those last messages brought the cursor back, or both took it over. */
  predicate CrossedReturns(w: World) {
    CrossedInFlight(w) && Last(w.left.log).h.returned && Last(w.right.log).h.returned
  }

  predicate CrossedWarps(w: World) {
    CrossedInFlight(w) && !Last(w.left.log).h.returned && !Last(w.right.log).h.returned
  }

  /** After any run that leaves nothing in flight, exactly one machine sends its
      input to the other, unless no hand-over ever happened or the last message
      each way crossed in flight and both were of one kind. Two crossed returns
      leave both sending their input away, two crossed warps leave neither. */
  lemma ExactlyWhoIsInControl(start: World, ms: seq<Move>, w: World)
    requires Initial(start) && Leads(start, ms, w)
    ensures Inv(w)
    ensures Quiet(w) ==>
              && (SendsAway(w.left) != SendsAway(w.right) <==>
                  !(NeverHandedOver(w) || CrossedReturns(w) || CrossedWarps(w)))
              && (SendsAway(w.left) && SendsAway(w.right) <==> CrossedReturns(w))
              && (!SendsAway(w.left) && !SendsAway(w.right) <==> NeverHandedOver(w) || CrossedWarps(w))
  {
    hide Valid;
    InitialHasInv(start);
    RunKeepsInv(start, ms, w);
    if Quiet(w) {
      AllHeardWhenQuiet(w);
      LogHasAnEntry(w.left.log);
      LogHasAnEntry(w.right.log);
      LastEntry(w.left.log);
      LastEntry(w.right.log);
    }
  }

  lemma QuietMeansAllHeard(me: Node, you: Node)
    requires Agrees(me, you) && InFlight(me, you) == []
    ensures Sents(me.log) == Gots(you.log)
  {
    assert |MessagesFor(LinkTo(me, you).session, Sents(me.log)[|Gots(you.log)|..])| == 0;
  }

  lemma AllHeardWhenQuiet(w: World)
    requires Inv(w) && Quiet(w)
    ensures Gots(w.right.log) == Sents(w.left.log) && Gots(w.left.log) == Sents(w.right.log)
  {
    QuietMeansAllHeard(w.left, w.right);
    QuietMeansAllHeard(w.right, w.left);
  }

  lemma {:induction false} LogHasAnEntry(log: seq<Entry>)
    ensures log == [] <==> Sents(log) == [] && Gots(log) == []
  {
    if log == [] {
    } else {
      LogHasAnEntry(Front(log));
    }
  }

  lemma LastEntry(log: seq<Entry>)
    ensures log != [] ==> if Last(log).SentOne? then Sents(log) != [] && Last(Sents(log)) == Last(log).h
            else Gots(log) != [] && Last(Gots(log)) == Last(log).h
  {
  }

  /** Whatever has been heard is what was sent, in order and with the position:
      on hearing that the cursor returned, the receiver tracks it exactly where
      the sender did when it crossed, and on being taken over its own pointer is
      put exactly where the sender tracked it. Both are real spots. */
  lemma PositionsAgree(start: World, ms: seq<Move>, w: World)
    requires Initial(start) && Leads(start, ms, w)
    ensures Gots(w.right.log) <= Sents(w.left.log) && Gots(w.left.log) <= Sents(w.right.log)
    ensures RealSpots(Sents(w.left.log), Self(w.left.d), Self(w.right.d))
    ensures RealSpots(Sents(w.right.log), Self(w.right.d), Self(w.left.d))
  {
    InitialHasInv(start);
    RunKeepsInv(start, ms, w);
  }

  // ---- How a disagreement ends ----

  lemma {:induction false} LogsGrow(w: World, ms: seq<Move>, end: World)
    requires Leads(w, ms, end)
    ensures w.left.log <= end.left.log && w.right.log <= end.right.log
    decreases |ms|
  {
    if ms == [] {
    } else {
      hide State.RouteCaptured, State.SetLayout, Heed, SendAll, Coalesce;
      LogsGrow(Do(w, ms[0]), ms[1..], end);
    }
  }

  lemma {:induction false} GotsGrow(log: seq<Entry>, log': seq<Entry>)
    requires log <= log'
    ensures Gots(log) <= Gots(log')
    decreases |log'|
  {
    if log == log' {
    } else {
      GotsGrow(log, Front(log'));
    }
  }

  /** If nothing more was heard, whatever was added last was sent. */
  lemma NothingHeardMeansSent(log: seq<Entry>, log': seq<Entry>)
    requires log <= log' && Gots(log') == Gots(log) && Sents(log') != Sents(log)
    ensures LastSent(log')
  {
    assert |log| == |log'| ==> log == log';
    assert log <= Front(log');
    GotsGrow(log, Front(log'));
  }

  /** Any disagreement ends with the next uncontested hand-over: when, from a
      moment with nothing in flight, one side hands the cursor over once or more
      and the other not at all, then once everything is heard exactly one of them
      sends its input away. */
  lemma UncontestedHandOverSettles(start: World, ms: seq<Move>, w: World, ms': seq<Move>, end: World)
    requires Initial(start) && Leads(start, ms, w) && Leads(w, ms', end)
    ensures Inv(w) && Inv(end)
    ensures Quiet(w) && Quiet(end)
            && (Sents(end.left.log) == Sents(w.left.log)) != (Sents(end.right.log) == Sents(w.right.log)) ==>
            SendsAway(end.left) != SendsAway(end.right)
  {
    hide Valid, Delivers, InFlight;
    LogsGrow(w, ms', end);
    LeadsFurther(start, ms, w, ms', end);
    ExactlyWhoIsInControl(start, ms, w);
    ExactlyWhoIsInControl(start, ms + ms', end);
    if Quiet(w) && Quiet(end) {
      AllHeardWhenQuiet(w);
      AllHeardWhenQuiet(end);
      if Sents(end.left.log) != Sents(w.left.log) && Sents(end.right.log) == Sents(w.right.log) {
        NothingHeardMeansSent(w.left.log, end.left.log);
      }
      if Sents(end.right.log) != Sents(w.right.log) && Sents(end.left.log) == Sents(w.left.log) {
        NothingHeardMeansSent(w.right.log, end.right.log);
      }
    }
  }
}
