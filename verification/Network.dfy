/** Any number of machines, each connected to all the others, that hand the cursor
    over one at a time: who then follows it, and who is left behind. */
module Networks {
  import opened Prelude
  import opened Geometry
  import opened Sessions
  import opened Commands
  import opened States
  import opened Invariant
  import opened Delivery
  import opened Contention

  type Network = map<MachineId, State>

  /** Every machine keeps its invariant, is linked to all the others, knows their
      screens, and shares one session with each. */
  ghost predicate Meshed(net: Network) {
    && (forall m | m in net :: Valid(net[m]) && net[m].local == m && net[m].links.Keys == net.Keys - {m})
    && (forall m, q | m in net && q in net && m != q :: Paired(net[m], net[q]))
  }

  /** Each knows the other's screen, and one session joins them. */
  ghost predicate Paired(d: State, e: State) {
    && e.local in d.links && d.local in e.links
    && d.links[e.local].screen == e.screen && e.links[d.local].screen == d.screen
    && d.links[e.local].session == e.links[d.local].session
  }

  /** All agree that the cursor is on `h`: its input stays there, and everyone
      else's goes there. */
  ghost predicate HeldBy(net: Network, h: MachineId) {
    && h in net && net[h].sessions.active == Local
    && forall q | q in net && q != h :: net[q].sessions.active == Remote(h)
  }

  /** What the step from `d` to `n` queued for a peer. */
  function News(d: State, n: State, peer: MachineId): seq<PeerCommand> {
    if peer in d.links && peer in n.links && |d.links[peer].commands| <= |n.links[peer].commands|
    then n.links[peer].commands[|d.links[peer].commands|..]
    else []
  }

  function HearAll(d: State, session: SessionId, peer: MachineId, messages: seq<ControlMessage>): State {
    if messages == [] then d
    else OnSignal(HearAll(d, session, peer, Front(messages)), session, peer, Last(messages))
  }

  datatype Turn = Turn(at: MachineId, event: InputEvent, os: Option<(int, int)>)

  /** One uncontested turn: a machine acts on a captured event, and everyone hears
      the hand-over messages it queued for them before anything else happens. */
  function TakeTurn(net: Network, t: Turn): Network {
    if t.at !in net then net else
    var d := net[t.at];
    var n := d.RouteCaptured(t.event, t.os);
    map q | q in net ::
      if q == t.at then n
      else if q !in d.links then net[q]
      else HearAll(net[q], d.links[q].session, t.at, Controls(d.links[q].session, News(d, n, q)))
  }

  function TakeTurns(net: Network, turns: seq<Turn>): Network {
    if turns == [] then net else TakeTurn(TakeTurns(net, Front(turns)), Last(turns))
  }

  // ---- What one machine's turn tells the others ----

  /** Whoever hears anything hears one message: the machine entered that it was,
      or everyone that the cursor went home. */
  predicate Tells(d: State, n: State, q: MachineId, messages: seq<ControlMessage>)
    requires q in d.links
  {
    var session, at := d.links[q].session, n.cursor.position;
    messages == if n.sessions.active == d.sessions.active then []
                else if n.sessions.active.Local? then [CursorReturnedMessage(session, at.x, at.y)]
                else if n.sessions.active.peer == q then [CursorWarpMessage(session, at.x, at.y)]
                else []
  }

  lemma TurnTells(d: State, event: InputEvent, os: Option<(int, int)>, q: MachineId)
    requires Valid(d) && q in d.links
    ensures var n := d.RouteCaptured(event, os);
            && Tells(d, n, q, Controls(d.links[q].session, News(d, n, q)))
            && (n.sessions.active != d.sessions.active ==>
                  n.sessions.active.Local? != d.sessions.active.Local?
                  && n.cursor.machine == if n.sessions.active.Local? then d.local else n.sessions.active.peer)
  {
    hide Valid, State.RouteCaptured;
    CapturedMoves(d, event, os);
    NewsIsQueued(d, d.RouteCaptured(event, os), q);
  }

  /** From `d` to `n` the cursor either stays with whoever has it, and at most an
      event is forwarded, or it changes hands at a crossing. */
  ghost predicate MovesOn(d: State, n: State) {
    var at, to := n.cursor.position, n.cursor.machine;
    && n.links.Keys == d.links.Keys
    && if n.sessions.active == d.sessions.active then
         forall q | q in d.links :: ForwardsAtMost(d.links[q], n.links[q])
       else if d.sessions.active.Local? then
         && n.sessions.active == Remote(to) && to in d.links
         && n.links == d.links[to := d.links[to].Queue(Warp(at.x, at.y))]
       else
         && n.sessions.active == Local && to == d.local
         && n.links == QueueForAll(d.links, CursorReturned(at.x, at.y))
  }

  ghost predicate ForwardsAtMost(link: PeerLink, link': PeerLink) {
    link' == link || exists e :: link' == link.Queue(Input(e))
  }

  lemma CapturedMoves(d: State, event: InputEvent, os: Option<(int, int)>)
    requires Valid(d)
    ensures MovesOn(d, d.RouteCaptured(event, os))
  {
    if d.sessions.active.Remote? && !event.Motion? {
      hide Valid;
      PeersHaveSessions(d);
      ForwardingMovesOn(d, d.sessions.active.peer, event);
    } else if d.sessions.active.Remote? {
      RemoteMotionMoves(d, event.delta, os);
    } else if event.Motion? {
      LocalMotionMoves(d, event.delta, os);
    }
  }

  lemma ForwardingMovesOn(d: State, peer: MachineId, event: InputEvent)
    ensures MovesOn(d, d.ForwardTo(peer, event).SyncSuppression())
  {
    if peer in d.links {
      assert ForwardsAtMost(d.links[peer], d.links[peer].Queue(Input(event)));
    }
  }

  lemma LocalMotionMoves(d: State, delta: MouseDelta, os: Option<(int, int)>)
    requires Valid(d) && d.sessions.active.Local?
    ensures MovesOn(d, d.RouteCaptured(Motion(delta), os))
  {
    hide Valid, State.AdvanceCursor;
    SyncCursorKeeps(d, os);
    var from := d.SyncCursorToOs(os);
    AdvanceCursorKeeps(from, delta);
    if from.AdvanceCursor(delta).1 {
      CrossingTells(from, delta);
    }
  }

  lemma RemoteMotionMoves(d: State, delta: MouseDelta, os: Option<(int, int)>)
    requires Valid(d) && d.sessions.active.Remote?
    ensures MovesOn(d, d.RouteCaptured(Motion(delta), os))
  {
    hide Valid, State.AdvanceCursor;
    AdvanceCursorKeeps(d, delta);
    var (n, crossed) := d.AdvanceCursor(delta);
    if crossed {
      CrossingTells(d, delta);
    } else {
      ForwardingMovesOn(n, d.sessions.active.peer, Pointer(n.cursor.position.x, n.cursor.position.y));
    }
  }

  /** A queue that is as it was, or one command longer. */
  lemma NewsIsQueued(d: State, n: State, q: MachineId)
    requires q in d.links && q in n.links
    ensures n.links[q] == d.links[q] ==> Controls(d.links[q].session, News(d, n, q)) == []
    ensures forall c {:trigger d.links[q].Queue(c)} | n.links[q] == d.links[q].Queue(c) ::
              Controls(d.links[q].session, News(d, n, q)) == ControlOf(d.links[q].session, c)
  {
    forall c {:trigger d.links[q].Queue(c)} | n.links[q] == d.links[q].Queue(c)
      ensures Controls(d.links[q].session, News(d, n, q)) == ControlOf(d.links[q].session, c)
    {
      assert News(d, n, q) == [c] && Front([c]) == [];
    }
  }

  // ---- What a turn does to everyone ----

  /** What the others make of a turn that took `d` to `n`: `e` becomes `e'`. */
  ghost predicate Follows(d: State, n: State, e: State, e': State) {
    && Valid(e') && e'.local == e.local && e'.screen == e.screen && e'.links == e.links
    && if n.sessions.active == d.sessions.active then e' == e
       else if n.sessions.active.Local? then e'.sessions.active == Remote(d.local) && e'.cursor == n.cursor
       else if n.sessions.active.peer == e.local then e'.sessions.active == Local
       else e' == e
  }

  lemma OtherFollows(d: State, event: InputEvent, os: Option<(int, int)>, e: State)
    requires Valid(d) && Valid(e) && Paired(d, e)
    ensures var n, session := d.RouteCaptured(event, os), d.links[e.local].session;
            Follows(d, n, e, HearAll(e, session, d.local, Controls(session, News(d, n, e.local))))
  {
    hide Valid, State.RouteCaptured, OnSignal, News, Follows;
    var n, session := d.RouteCaptured(event, os), d.links[e.local].session;
    RouteCapturedKeeps(d, event, os);
    TurnTells(d, event, os, e.local);
    CursorIsOnItsScreen(n);
    var messages := Controls(session, News(d, n, e.local));
    if messages == [] {
      NothingFollows(d, n, e);
    } else {
      assert Front(messages) == [] && messages == [messages[0]];
      OneMessageFollows(d, n, e, session, messages[0]);
    }
  }

  lemma NothingFollows(d: State, n: State, e: State)
    requires Valid(e) && e.local in d.links && Tells(d, n, e.local, [])
    ensures Follows(d, n, e, e)
  {
  }

  lemma CursorIsOnItsScreen(d: State)
    requires Valid(d)
    ensures d.cursor.machine == d.local ==> InScreen(d.cursor.position, d.screen)
  {
  }

  lemma OneMessageFollows(d: State, n: State, e: State, session: SessionId, m: ControlMessage)
    requires Valid(e) && d.local in e.links && e.local in d.links && session == d.links[e.local].session
    requires e.links[d.local].screen == d.screen && n.sessions.active != d.sessions.active
    requires n.cursor.machine == (if n.sessions.active.Local? then d.local else n.sessions.active.peer)
    requires n.cursor.machine == d.local ==> InScreen(n.cursor.position, d.screen)
    requires Tells(d, n, e.local, [m])
    ensures Follows(d, n, e, OnSignal(e, session, d.local, m))
  {
    hide Valid, State.FollowPeerCursor, State.TakenOver;
    FollowKeeps(e, d.local, n.cursor.position.x, n.cursor.position.y);
    TakenOverKeeps(e, n.cursor.position.x, n.cursor.position.y);
  }

  /** A whole turn: one machine moves on, and every other one follows. */
  ghost predicate Turns(net: Network, at: MachineId, after: Network) {
    && at in net && after.Keys == net.Keys
    && Valid(after[at]) && after[at].local == net[at].local && after[at].screen == net[at].screen
    && SamePeers(net[at].links, after[at].links) && MovesOn(net[at], after[at])
    && forall q | q in net && q != at :: Follows(net[at], after[at], net[q], after[q])
  }

  lemma TurnTurns(net: Network, t: Turn)
    requires Meshed(net) && t.at in net
    ensures Turns(net, t.at, TakeTurn(net, t))
  {
    hide Valid, State.RouteCaptured, Follows, MovesOn, HearAll, News, Controls, SamePeers;
    var d := net[t.at];
    RouteCapturedKeeps(d, t.event, t.os);
    CapturedMoves(d, t.event, t.os);
    forall q | q in net && q != t.at
      ensures q in d.links && Follows(d, d.RouteCaptured(t.event, t.os), net[q], TakeTurn(net, t)[q])
    {
      assert Paired(d, net[q]);
      hide Meshed;
      OtherFollows(d, t.event, t.os, net[q]);
    }
  }

  lemma TurnKeepsMeshed(net: Network, t: Turn)
    requires Meshed(net)
    ensures Meshed(TakeTurn(net, t)) && TakeTurn(net, t).Keys == net.Keys
  {
    if t.at in net {
      TurnTurns(net, t);
      TurningKeepsMeshed(net, t.at, TakeTurn(net, t));
    }
  }

  lemma PairedStill(d: State, e: State, d': State, e': State)
    requires Paired(d, e) && SamePeers(d.links, d'.links) && SamePeers(e.links, e'.links)
    requires d'.local == d.local && d'.screen == d.screen && e'.local == e.local && e'.screen == e.screen
    ensures Paired(d', e')
  {
  }

  lemma TurningKeepsMeshed(net: Network, at: MachineId, after: Network)
    requires Meshed(net) && Turns(net, at, after)
    ensures Meshed(after)
  {
    hide Valid, MovesOn, Paired;
    forall m, q | m in after && q in after && m != q ensures Paired(after[m], after[q]) {
      assert Paired(net[m], net[q]);
      assert m == at || Follows(net[at], after[at], net[m], after[m]);
      assert q == at || Follows(net[at], after[at], net[q], after[q]);
      PairedStill(net[m], net[q], after[m], after[q]);
    }
  }

  lemma {:induction false} TurnsKeepMeshed(net: Network, turns: seq<Turn>)
    requires Meshed(net)
    ensures Meshed(TakeTurns(net, turns)) && TakeTurns(net, turns).Keys == net.Keys
  {
    if turns == [] {
    } else {
      TurnsKeepMeshed(net, Front(turns));
      TurnKeepsMeshed(TakeTurns(net, Front(turns)), Last(turns));
    }
  }

  /** Whatever the network went through, and whoever believed what: a turn that
      brings the cursor home leaves everyone agreed on it, at the spot where its
      machine tracks it. A turn that takes it over to a peer leaves everyone
      agreed exactly when all third machines were already sending their input to
      that peer, since nobody tells them. Any other turn changes no one's mind. */
  lemma WhoIsAgreedOn(net: Network, turns: seq<Turn>, t: Turn)
    requires Meshed(net) && t.at in net
    ensures var before := TakeTurns(net, turns);
            var after := TakeTurn(before, t);
            && before.Keys == after.Keys == net.Keys
            && match (before[t.at].sessions.active, after[t.at].sessions.active)
               case (Remote(_), Local) =>
                 HeldBy(after, t.at) && forall q | q in net :: after[q].cursor == after[t.at].cursor
               case (Local, Remote(p)) =>
                 (exists h :: HeldBy(after, h)) <==>
                 forall q | q in net && q != t.at && q != p :: before[q].sessions.active == Remote(p)
               case (was, now) => was == now && forall q | q in net && q != t.at :: after[q] == before[q]
  {
    hide Meshed, Valid, State.RouteCaptured;
    TurnsKeepMeshed(net, turns);
    var before := TakeTurns(net, turns);
    TurnAgrees(before, t);
  }

  lemma TurnAgrees(net: Network, t: Turn)
    requires Meshed(net) && t.at in net
    ensures var after := TakeTurn(net, t);
            && after.Keys == net.Keys
            && match (net[t.at].sessions.active, after[t.at].sessions.active)
               case (Remote(_), Local) =>
                 HeldBy(after, t.at) && forall q | q in net :: after[q].cursor == after[t.at].cursor
               case (Local, Remote(p)) =>
                 (exists h :: HeldBy(after, h)) <==>
                 forall q | q in net && q != t.at && q != p :: net[q].sessions.active == Remote(p)
               case (was, now) => was == now && forall q | q in net && q != t.at :: after[q] == net[q]
  {
    hide TakeTurn, Valid, Paired, MovesOn;
    TurnTurns(net, t);
    TurningAgrees(net, t.at, TakeTurn(net, t));
  }

  lemma TurningAgrees(net: Network, at: MachineId, after: Network)
    requires Turns(net, at, after) && net[at].links.Keys == net.Keys - {at}
    requires forall q | q in net :: net[q].local == q
    ensures match (net[at].sessions.active, after[at].sessions.active)
            case (Remote(_), Local) => HeldBy(after, at) && forall q | q in net :: after[q].cursor == after[at].cursor
            case (Local, Remote(p)) =>
              (exists h :: HeldBy(after, h)) <==>
              forall q | q in net && q != at && q != p :: net[q].sessions.active == Remote(p)
            case (was, now) => was == now && forall q | q in net && q != at :: after[q] == net[q]
  {
    hide Valid, SamePeers;
    if net[at].sessions.active.Local? && after[at].sessions.active.Remote? {
      var p := after[at].sessions.active.peer;
      if forall q | q in net && q != at && q != p :: net[q].sessions.active == Remote(p) {
        assert HeldBy(after, p);
      }
      forall h | HeldBy(after, h) ensures h == p {
        assert h != at;
      }
    }
  }

  // ---- Three machines are already too many ----

  ghost predicate AllLocal(net: Network) {
    forall m | m in net :: net[m].sessions.active == Local
  }

  /** With input on its own screen everywhere, any machine of three or more can
      take the cursor over to another with one movement that everyone concerned
      hears of, and still no machine is agreed on: a third one was told nothing. */
  lemma ThirdIsLeftBehind(net: Network, at: MachineId, q: MachineId, third: MachineId)
    requires Meshed(net) && at in net && q in net && third in net && at != q && at != third && q != third
    requires AllLocal(net)
    ensures exists event :: var after := TakeTurn(net, Turn(at, event, None));
                            after[at].sessions.active.Remote? && !exists h :: HeldBy(after, h)
  {
    hide Valid, Paired, State.RouteCaptured;
    var d := net[at];
    var t := Turn(at, Motion(FullPush(d.screen, d.links[q].edge)), None);
    CanCrossOver(d, q);
    TurnAgrees(net, t);
    var p := TakeTurn(net, t)[at].sessions.active.peer;
    assert net[if p == q then third else q].sessions.active != Remote(p);
  }

  function Connect(d: State, session: SessionId, peer: State, order: seq<MachineId>): State {
    OkOr(d.Establish(session, peer.local, Controller, "", peer.screen, order), d)
  }

  /** Such networks come about: any three daemons without links can connect. */
  lemma ThreeCanMesh(a: State, b: State, c: State)
    requires Valid(a) && Valid(b) && Valid(c) && a.links == b.links == c.links == map[]
    requires a.local != b.local && a.local != c.local && b.local != c.local
    ensures exists net :: Meshed(net) && AllLocal(net) && net.Keys == {a.local, b.local, c.local}
  {
    hide Valid, Meshed, AllLocal, ConnectBoth;
    ConnectsBoth(a, 0, b, 1, c);
    ConnectsBoth(b, 0, a, 2, c);
    ConnectsBoth(c, 1, a, 2, b);
    MeshOfThree(ConnectBoth(a, 0, b, 1, c), ConnectBoth(b, 0, a, 2, c), ConnectBoth(c, 1, a, 2, b));
  }

  function NetworkOf(a: State, b: State, c: State): Network {
    map[a.local := a, b.local := b, c.local := c]
  }

  lemma MeshOfThree(a: State, b: State, c: State)
    requires Valid(a) && Valid(b) && Valid(c)
    requires a.local != b.local && a.local != c.local && b.local != c.local
    requires a.links.Keys == {b.local, c.local} && b.links.Keys == {a.local, c.local}
    requires c.links.Keys == {a.local, b.local}
    requires Paired(a, b) && Paired(a, c) && Paired(b, c)
    requires a.sessions.active == b.sessions.active == c.sessions.active == Local
    ensures Meshed(NetworkOf(a, b, c)) && AllLocal(NetworkOf(a, b, c))
    ensures NetworkOf(a, b, c).Keys == {a.local, b.local, c.local}
  {
    hide Valid, Paired, Meshed;
    PairedBothWays(a, b);
    PairedBothWays(a, c);
    PairedBothWays(b, c);
    var net := NetworkOf(a, b, c);
    assert net[a.local] == a && net[b.local] == b && net[c.local] == c;
    assert net.Keys == {a.local, b.local, c.local};
    hide NetworkOf;
    OfThree(net, a, b, c);
    IsMeshed(net);
  }

  lemma OfThree(net: Network, a: State, b: State, c: State)
    requires a.local in net && net[a.local] == a && b.local in net && net[b.local] == b
    requires c.local in net && net[c.local] == c && net.Keys == {a.local, b.local, c.local}
    requires a.local != b.local && a.local != c.local && b.local != c.local
    requires a.links.Keys == {b.local, c.local} && b.links.Keys == {a.local, c.local}
    requires c.links.Keys == {a.local, b.local}
    ensures forall m | m in net :: net[m].local == m && net[m].links.Keys == net.Keys - {m}
    ensures forall m | m in net :: net[m] == a || net[m] == b || net[m] == c
  {
    assert net.Keys - {a.local} == {b.local, c.local};
    assert net.Keys - {b.local} == {a.local, c.local};
    assert net.Keys - {c.local} == {a.local, b.local};
  }

  lemma IsMeshed(net: Network)
    requires forall m | m in net :: Valid(net[m]) && net[m].local == m && net[m].links.Keys == net.Keys - {m}
    requires forall m, q | m in net && q in net && m != q :: Paired(net[m], net[q])
    ensures Meshed(net)
  {
  }

  lemma PairedBothWays(d: State, e: State)
    requires Paired(d, e)
    ensures Paired(e, d)
  {
  }

  function ConnectBoth(d: State, s: SessionId, p: State, s': SessionId, p': State): State {
    Connect(Connect(d, s, p, [p.local]), s', p', [p.local, p'.local])
  }

  lemma ConnectsBoth(d: State, s: SessionId, p: State, s': SessionId, p': State)
    requires Valid(d) && d.links == map[] && s != s'
    requires d.local != p.local && d.local != p'.local && p.local != p'.local
    ensures var n := ConnectBoth(d, s, p, s', p');
            && Valid(n) && n.local == d.local && n.screen == d.screen && n.sessions.active == Local
            && n.links.Keys == {p.local, p'.local}
            && n.links[p.local].screen == p.screen && n.links[p.local].session == s
            && n.links[p'.local].screen == p'.screen && n.links[p'.local].session == s'
  {
    hide Valid, State.Establish;
    PeersHaveSessions(d);
    assert Lists([p.local], d.links.Keys + {p.local});
    Connects(d, s, p, [p.local]);
    var once := Connect(d, s, p, [p.local]);
    assert Lists([p.local, p'.local], once.links.Keys + {p'.local});
    Connects(once, s', p', [p.local, p'.local]);
  }

  lemma Connects(d: State, session: SessionId, peer: State, order: seq<MachineId>)
    requires Valid(d) && peer.local != d.local && peer.local !in d.links
    requires Lists(order, d.links.Keys + {peer.local})
    requires forall p | p in d.links :: d.links[p].session != session
    ensures var n := Connect(d, session, peer, order);
            && Valid(n) && n.local == d.local && n.screen == d.screen && n.sessions.active == d.sessions.active
            && n.links == d.links[peer.local := PeerLink("", session, Controller, peer.screen,
                                                         d.EdgeFor("", Controller), d.SwapFor(""), [])]
  {
    hide Valid;
    EstablishRefusedOnlyForDuplicates(d, session, peer.local, Controller, "", peer.screen, order);
    EstablishKeeps(d, session, peer.local, Controller, "", peer.screen, order);
  }
}
