/** Getting the cursor home: movements towards a peer's home edge always bring
    input back to this machine, within as many of them as there are pixels. */
module Homeward {
  import opened Prelude
  import opened Geometry
  import opened Layouts
  import opened Sessions
  import opened Commands
  import opened States
  import opened Invariant
  import opened Delivery

  /** The edge of the peer holding the cursor that this machine sits past. */
  function HomeEdge(d: State): Edge
    requires d.sessions.active.Remote? && d.sessions.active.peer in d.links
  {
    Opposite(d.links[d.sessions.active.peer].edge)
  }

  /** The part of a movement that points out through an edge. */
  function Toward(e: Edge, delta: MouseDelta): int {
    var dx: int, dy: int := delta.dx, delta.dy;
    match e
    case Left => -dx
    case Right => dx
    case Top => -dy
    case Bottom => dy
  }

  /** How many pixels the cursor is from an edge of the screen it is on. */
  function PixelsTo(e: Edge, p: Point, s: Screen): nat
    requires InScreen(p, s)
  {
    -Overrun(s, p.x, p.y, e)
  }

  ghost function ToGo(d: State): nat
    requires Valid(d) && d.sessions.active.Remote?
  {
    PixelsTo(HomeEdge(d), d.cursor.position, d.links[d.sessions.active.peer].screen)
  }

  /** The part of a movement along the home axis keeps its direction when
      scaled; representable movements do. */
  predicate HomewardSurvives(from: Screen, to: Screen, e: Edge, delta: MouseDelta) {
    if IsHorizontal(e) then SurvivesScaling(delta.dx, from.width, to.width)
    else SurvivesScaling(delta.dy, from.height, to.height)
  }

  lemma ScaledStaysToward(from: Screen, to: Screen, e: Edge, delta: MouseDelta)
    requires Toward(e, delta) > 0
    ensures Toward(e, ScaleDelta(delta, from, to)) > 0 <==> HomewardSurvives(from, to, e, delta)
  {
    ScaleAxisKeepsDirectionIff(delta.dx, from.width, to.width);
    ScaleAxisKeepsDirectionIff(delta.dy, from.height, to.height);
  }

  /** A movement towards home, whatever its other component, arrives exactly
      when the scaled amount reaches past the edge; every peer is then told
      where. Otherwise it stays on the peer and the distance left changes by the
      scaled amount. It makes progress exactly when its direction survives. */
  lemma OneMoveCloser(d: State, delta: MouseDelta, os: Option<(int, int)>)
    requires Valid(d) && d.sessions.active.Remote? && Toward(HomeEdge(d), delta) > 0
    ensures var n := d.RouteCaptured(Motion(delta), os);
            var reach := Toward(HomeEdge(d), d.ScaledForCursor(delta));
            && Valid(n) && n.screen == d.screen && n.local == d.local
            && (reach > 0 <==> HomewardSurvives(d.screen, d.links[d.sessions.active.peer].screen, HomeEdge(d), delta))
            && if reach > ToGo(d) then
                 var at := n.cursor.position;
                 && n.sessions.active == Local && n.warps == d.warps + [(at.x, at.y)]
                 && n.links == QueueForAll(d.links, CursorReturned(at.x, at.y))
               else
                 && n.sessions.active == d.sessions.active && SamePeers(d.links, n.links)
                 && (ToGo(n) < ToGo(d) <==> reach > 0)
                 && (reach > 0 ==> ToGo(n) == ToGo(d) - reach)
  {
    hide Valid, State.RouteCaptured, ScaleDelta;
    PeersHaveSessions(d);
    var s, e, step := d.links[d.sessions.active.peer].screen, HomeEdge(d), d.ScaledForCursor(delta);
    OnThePeersScreen(d, delta);
    ScaledStaysToward(d.screen, s, e, delta);
    OverrunIsWhatIsLeft(s, d.cursor.position, step, e);
    OnlyWayOutIsHome(d, delta);
    if Toward(e, step) > ToGo(d) {
      ArrivesHome(d, delta, os);
    } else {
      ComesCloser(d, delta, os);
    }
  }

  lemma OnThePeersScreen(d: State, delta: MouseDelta)
    requires Valid(d) && d.sessions.active.Remote?
    ensures var s := d.links[d.sessions.active.peer].screen;
            d.layout.screens[d.cursor.machine] == s && InScreen(d.cursor.position, s)
            && d.ScaledForCursor(delta) == ScaleDelta(delta, d.screen, s)
  {
  }

  lemma OverrunIsWhatIsLeft(s: Screen, p: Point, step: MouseDelta, e: Edge)
    requires InScreen(p, s)
    ensures Overrun(s, p.x + step.dx, p.y + step.dy, e) == Toward(e, step) - PixelsTo(e, p, s)
    ensures var to := Point(Clamp(p.x + step.dx, 0, s.width - 1), Clamp(p.y + step.dy, 0, s.height - 1));
            Toward(e, step) <= PixelsTo(e, p, s) ==>
              && (PixelsTo(e, to, s) < PixelsTo(e, p, s) <==> Toward(e, step) > 0)
              && (Toward(e, step) > 0 ==> PixelsTo(e, to, s) == PixelsTo(e, p, s) - Toward(e, step))
  {
  }

  lemma ArrivesHome(d: State, delta: MouseDelta, os: Option<(int, int)>)
    requires Valid(d) && d.sessions.active.Remote?
    requires var r := d.layout.Advance(d.cursor, d.ScaledForCursor(delta));
             r.Ok? && r.value.crossing.Some?
    ensures var n := d.RouteCaptured(Motion(delta), os);
            var at := n.cursor.position;
            && Valid(n) && n.screen == d.screen && n.local == d.local && n.cursor.machine == d.local
            && n.sessions.active == Local && n.warps == d.warps + [(at.x, at.y)]
            && n.links == QueueForAll(d.links, CursorReturned(at.x, at.y))
            && d.layout.Advance(d.cursor, d.ScaledForCursor(delta)).value.cursor == n.cursor
  {
    AdvanceCursorKeeps(d, delta);
    AdvanceStaysTracked(d.layout, d.cursor, d.ScaledForCursor(delta));
    CrossingHasLocalEnd(d, d.layout.Advance(d.cursor, d.ScaledForCursor(delta)).value.crossing.value, delta);
  }

  lemma ComesCloser(d: State, delta: MouseDelta, os: Option<(int, int)>)
    requires Valid(d) && d.sessions.active.Remote?
    requires var r := d.layout.Advance(d.cursor, d.ScaledForCursor(delta));
             r.Ok? && r.value.crossing.None?
    ensures var n := d.RouteCaptured(Motion(delta), os);
            var p, step := d.cursor.position, d.ScaledForCursor(delta);
            var s := d.links[d.sessions.active.peer].screen;
            && Valid(n) && n.screen == d.screen && n.local == d.local
            && n.sessions.active == d.sessions.active && SamePeers(d.links, n.links)
            && n.cursor.position == Point(Clamp(p.x + step.dx, 0, s.width - 1), Clamp(p.y + step.dy, 0, s.height - 1))
  {
    RouteCapturedKeeps(d, Motion(delta), os);
    AdvanceCursorKeeps(d, delta);
    OnlyWayOutIsHome(d, delta);
  }

  /** A peer has no other neighbour, so a move leaves it exactly by overrunning
      the home edge, however far it overruns any other. */
  lemma OnlyWayOutIsHome(d: State, delta: MouseDelta)
    requires Valid(d) && d.sessions.active.Remote?
    ensures var s, step := d.links[d.sessions.active.peer].screen, d.ScaledForCursor(delta);
            var x, y := d.cursor.position.x + step.dx, d.cursor.position.y + step.dy;
            var r := d.layout.Advance(d.cursor, step);
            && r.Ok? && (r.value.crossing.Some? <==> Overrun(s, x, y, HomeEdge(d)) > 0)
            && (r.value.crossing.Some? ==> r.value.crossing.value.peer == d.local)
            && (r.value.crossing.None? ==>
                r.value.cursor.position == Point(Clamp(x, 0, s.width - 1), Clamp(y, 0, s.height - 1)))
  {
    var step, peer := d.ScaledForCursor(delta), d.sessions.active.peer;
    AdvanceIsCorrect(d.layout, d.cursor, step);
    OverrunMeansCrossing(d.layout, d.cursor, step);
    assert d.layout.Neighbor(peer, HomeEdge(d)) == Some(d.local);
    forall e | (peer, e) in d.layout.links ensures e == HomeEdge(d) {
      assert d.layout.Neighbor(peer, e).Some?;
    }
    if d.layout.Advance(d.cursor, step).value.crossing.Some? {
      CrossingHasLocalEnd(d, d.layout.Advance(d.cursor, step).value.crossing.value, delta);
    }
  }

  // ---- A whole sequence of captured events ----

  datatype Capture = Capture(event: InputEvent, os: Option<(int, int)>)

  function After(d: State, captured: seq<Capture>): State
    decreases |captured|
  {
    if captured == [] then d
    else After(d.RouteCaptured(captured[0].event, captured[0].os), captured[1..])
  }

  function Moves(captured: seq<Capture>): nat {
    if captured == [] then 0 else Moves(captured[1..]) + if captured[0].event.Motion? then 1 else 0
  }

  /** Every movement among these has a part pointing out through `e` that
      survives scaling; the events between movements are arbitrary. */
  predicate AllHomeward(captured: seq<Capture>, from: Screen, to: Screen, e: Edge) {
    forall c | c in captured && c.event.Motion? ::
      Toward(e, c.event.delta) > 0 && HomewardSurvives(from, to, e, c.event.delta)
  }

  /** One captured event while input goes to a peer: only a movement can bring it
      home, and one that does not, when it points there, comes closer. */
  lemma OneEventCloser(d: State, c: Capture)
    requires Valid(d) && d.sessions.active.Remote?
    requires AllHomeward([c], d.screen, d.links[d.sessions.active.peer].screen, HomeEdge(d))
    ensures var n := d.RouteCaptured(c.event, c.os);
            && Valid(n) && n.screen == d.screen && n.local == d.local
            && if n.sessions.active.Local? then c.event.Motion? && n.cursor.machine == d.local
               else
                 && n.sessions.active == d.sessions.active && SamePeers(d.links, n.links)
                 && ToGo(n) + Moves([c]) <= ToGo(d)
  {
    hide Valid, ToGo;
    RouteCapturedKeeps(d, c.event, c.os);
    PeersHaveSessions(d);
    assert Moves([c][1..]) == 0;
    if c.event.Motion? {
      hide State.RouteCaptured;
      assert c in [c];
      OneMoveCloser(d, c.event.delta, c.os);
    } else {
      OtherEventsStay(d, c.event, c.os);
    }
  }

  lemma OtherEventsStay(d: State, event: InputEvent, os: Option<(int, int)>)
    requires Valid(d) && d.sessions.active.Remote? && !event.Motion?
    ensures var n := d.RouteCaptured(event, os);
            Valid(n) && n.cursor == d.cursor && n.sessions == d.sessions && ToGo(n) == ToGo(d)
  {
    hide Star;
    RouteCapturedKeeps(d, event, os);
  }

  /** From anywhere on a peer, movements towards home number at most one more
      than the pixels to the home edge before input is back on this machine. */
  lemma {:induction false} GetsHome(d: State, captured: seq<Capture>)
    requires Valid(d) && d.sessions.active.Remote?
    requires AllHomeward(captured, d.screen, d.links[d.sessions.active.peer].screen, HomeEdge(d))
    requires Moves(captured) > ToGo(d)
    ensures exists k: nat ::
              && k <= |captured| && After(d, captured[..k]).sessions.active == Local
              && After(d, captured[..k]).cursor.machine == d.local
              && Moves(captured[..k]) <= ToGo(d) + 1
    decreases |captured|
  {
    hide Valid, State.RouteCaptured, ToGo;
    var n := d.RouteCaptured(captured[0].event, captured[0].os);
    PeersHaveSessions(d);
    assert captured == [captured[0]] + captured[1..];
    assert Moves([captured[0]][1..]) == 0;
    OneEventCloser(d, captured[0]);
    if n.sessions.active.Local? {
      AfterOneMore(d, captured, 0);
      assert captured[1..][..0] == [];
    } else {
      GetsHome(n, captured[1..]);
      var k: nat :| k <= |captured[1..]| && After(n, captured[1..][..k]).sessions.active == Local
                    && After(n, captured[1..][..k]).cursor.machine == n.local
                    && Moves(captured[1..][..k]) <= ToGo(n) + 1;
      AfterOneMore(d, captured, k);
    }
  }

  lemma AfterOneMore(d: State, captured: seq<Capture>, k: nat)
    requires captured != [] && k < |captured|
    ensures After(d, captured[..k + 1])
            == After(d.RouteCaptured(captured[0].event, captured[0].os), captured[1..][..k])
    ensures Moves(captured[..k + 1]) == Moves(captured[1..][..k]) + if captured[0].event.Motion? then 1 else 0
  {
    assert captured[..k + 1][1..] == captured[1..][..k];
  }

  // ---- Leaving home ----

  /** How far all these movements together point out through an edge. */
  function Total(captured: seq<Capture>, e: Edge): int {
    if captured == [] then 0
    else (if captured[0].event.Motion? then Toward(e, captured[0].event.delta) else 0) + Total(captured[1..], e)
  }

  /** Every movement among these has a part pointing out through `e`, and the
      operating system never says where the cursor is. */
  predicate AllOutward(captured: seq<Capture>, e: Edge) {
    forall c | c in captured && c.event.Motion? :: Toward(e, c.event.delta) > 0 && c.os == None
  }

  ghost predicate SomeonePast(d: State, e: Edge) {
    exists p :: p in d.links && d.links[p].edge == e
  }

  /** A movement towards a neighbour either crosses or comes closer by all of the
      part that points there; one straight there crosses exactly when that part
      exceeds the pixels left. */
  lemma OneMoveAway(d: State, delta: MouseDelta, e: Edge)
    requires Valid(d) && d.sessions.active.Local? && SomeonePast(d, e) && Toward(e, delta) > 0
    ensures var n := d.RouteCaptured(Motion(delta), None);
            var left := PixelsTo(e, d.cursor.position, d.screen);
            && Valid(n) && n.screen == d.screen && SomeonePast(n, e)
            && (n.sessions.active.Local? ==> PixelsTo(e, n.cursor.position, d.screen) == left - Toward(e, delta))
            && (Along(e, delta.dx, delta.dy) == 0 ==> (n.sessions.active.Remote? <==> Toward(e, delta) > left))
  {
    hide Valid, State.RouteCaptured;
    CursorIsAtHome(d);
    RouteCapturedKeeps(d, Motion(delta), None);
    LocalMoveStartsWhereItIsTracked(d, delta);
    AdvanceTowards(d, delta, e);
    OverrunIsWhatIsLeft(d.screen, d.cursor.position, delta, e);
    var p :| p in d.links && d.links[p].edge == e;
    assert p in d.RouteCaptured(Motion(delta), None).links;
  }

  lemma CursorIsAtHome(d: State)
    requires Valid(d) && d.sessions.active.Local?
    ensures d.cursor.machine == d.local && InScreen(d.cursor.position, d.screen)
  {
  }

  lemma AdvanceTowards(d: State, delta: MouseDelta, e: Edge)
    requires Valid(d) && d.sessions.active.Local? && SomeonePast(d, e)
    ensures var x, y := d.cursor.position.x + delta.dx, d.cursor.position.y + delta.dy;
            var r := d.layout.Advance(d.cursor, delta);
            && r.Ok?
            && (Overrun(d.screen, x, y, e) > 0 ==> r.value.crossing.Some?)
            && (Along(e, delta.dx, delta.dy) == 0 && r.value.crossing.Some? ==>
                  Overrun(d.screen, x, y, e) > 0 || Overrun(d.screen, x, y, Opposite(e)) > 0)
            && (r.value.crossing.None? ==>
                  r.value.cursor.position == Point(Clamp(x, 0, d.screen.width - 1), Clamp(y, 0, d.screen.height - 1)))
  {
    AdvanceIsCorrect(d.layout, d.cursor, delta);
    OverrunMeansCrossing(d.layout, d.cursor, delta);
    assert PlacedAt(d.layout.Neighbor(d.local, e), e, d.links, d.links.Keys);
    assert d.layout.Neighbor(d.local, e).Some?;
  }

  /** Movements towards a neighbour take the cursor off this machine once they add
      up to more than the pixels left, without the operating system's help. */
  lemma {:induction false} LeavesOnceTheyAddUp(d: State, captured: seq<Capture>, e: Edge)
    requires Valid(d) && d.sessions.active.Local? && SomeonePast(d, e)
    requires AllOutward(captured, e) && Total(captured, e) > PixelsTo(e, d.cursor.position, d.screen)
    ensures exists k: nat :: k <= |captured| && After(d, captured[..k]).sessions.active.Remote?
    decreases |captured|
  {
    hide Valid, State.RouteCaptured, PixelsTo, SomeonePast;
    var c := captured[0];
    var n := d.RouteCaptured(c.event, c.os);
    if c.event.Motion? {
      assert c in captured;
      OneMoveAway(d, c.event.delta, e);
    } else {
      OtherInputGoesOneWay(d, c.event, c.os);
    }
    if n.sessions.active.Remote? {
      AfterOneMore(d, captured, 0);
      assert captured[1..][..0] == [];
    } else {
      LeavesOnceTheyAddUp(n, captured[1..], e);
      var k: nat :| k <= |captured[1..]| && After(n, captured[1..][..k]).sessions.active.Remote?;
      AfterOneMore(d, captured, k);
    }
  }

  /** And, going straight there, not before. */
  lemma {:induction false} StaysUntilTheyAddUp(d: State, captured: seq<Capture>, e: Edge)
    requires Valid(d) && d.sessions.active.Local? && SomeonePast(d, e)
    requires AllOutward(captured, e) && Total(captured, e) <= PixelsTo(e, d.cursor.position, d.screen)
    requires forall c | c in captured && c.event.Motion? :: Along(e, c.event.delta.dx, c.event.delta.dy) == 0
    ensures After(d, captured).sessions.active.Local?
    decreases |captured|
  {
    hide Valid, State.RouteCaptured, PixelsTo, SomeonePast;
    if captured == [] {
    } else {
      var c := captured[0];
      TotalNotNegative(captured[1..], e);
      if c.event.Motion? {
        assert c in captured;
        OneMoveAway(d, c.event.delta, e);
      } else {
        OtherInputGoesOneWay(d, c.event, c.os);
      }
      StaysUntilTheyAddUp(d.RouteCaptured(c.event, c.os), captured[1..], e);
    }
  }

  lemma {:induction false} TotalNotNegative(captured: seq<Capture>, e: Edge)
    requires AllOutward(captured, e)
    ensures Total(captured, e) >= 0
  {
    if captured == [] {
    } else {
      assert captured[0] in captured;
      TotalNotNegative(captured[1..], e);
    }
  }
}
