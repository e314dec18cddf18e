/** The virtual desktop: which machines exist, which neighbour sits past each of
    their edges, and where the cursor goes when it is moved. */
module Layouts {
  import opened Prelude
  import opened Geometry

  datatype Machine = Machine(id: MachineId, screen: Screen)

  datatype LayoutError = UnknownMachine(id: MachineId) | DuplicateMachine(id: MachineId)

  datatype CursorState = CursorState(machine: MachineId, position: Point)

  datatype Crossing = Crossing(peer: MachineId, entry: Point)

  datatype Moved = Moved(cursor: CursorState, crossing: Option<Crossing>)

  /** The value of a layout: screens, and the neighbour across each linked edge. */
  datatype Layout = Layout(screens: map<MachineId, Screen>, links: map<(MachineId, Edge), MachineId>)
  {
    predicate WellFormed() {
      forall key | key in links :: key.0 in screens && links[key] in screens
    }

    predicate Tracks(c: CursorState) {
      c.machine in screens && InScreen(c.position, screens[c.machine])
    }

    function Neighbor(m: MachineId, e: Edge): Option<MachineId> {
      if (m, e) in links then Some(links[(m, e)]) else None
    }

    function WithMachine(m: Machine): Result<Layout, LayoutError> {
      if m.id in screens then Err(DuplicateMachine(m.id)) else Ok(Layout(screens[m.id := m.screen], links))
    }

    function WithLink(a: MachineId, e: Edge, b: MachineId): Result<Layout, LayoutError> {
      if a !in screens then Err(UnknownMachine(a))
      else if b !in screens then Err(UnknownMachine(b))
      else Ok(Layout(screens, links[(a, e) := b][(b, Opposite(e)) := a]))
    }

    /** The neighbour past an overrun edge, together with that edge and by how
        much it was overrun. */
    function Exit(m: MachineId, overrun: Option<(Edge, int)>): Option<(Edge, int, MachineId)> {
      if overrun.Some? && (m, overrun.value.0) in links
      then Some((overrun.value.0, overrun.value.1, links[(m, overrun.value.0)]))
      else None
    }

    function Chosen(m: MachineId, horizontal: Option<(Edge, int)>, vertical: Option<(Edge, int)>):
      Option<(Edge, int, MachineId)>
    {
      var h, v := Exit(m, horizontal), Exit(m, vertical);
      if h.Some? && v.Some? then (if h.value.1 > v.value.1 then h else v)
      else if h.Some? then h
      else v
    }

    function Advance(c: CursorState, delta: MouseDelta): Result<Moved, LayoutError> {
      if c.machine !in screens then Err(UnknownMachine(c.machine)) else
      var screen := screens[c.machine];
      var x, y := c.position.x + delta.dx, c.position.y + delta.dy;
      var chosen := Chosen(c.machine, EdgeOvershoot(x, screen.width, Left, Right),
                           EdgeOvershoot(y, screen.height, Top, Bottom));
      match chosen
      case Some((edge, _, peer)) =>
        if peer !in screens then Err(UnknownMachine(peer)) else
        var entry := EntryPoint(edge, screens[peer], screen, x, y);
        Ok(Moved(CursorState(peer, entry), Some(Crossing(peer, entry))))
      case None =>
        Ok(Moved(CursorState(c.machine, Point(Clamp(x, 0, screen.width - 1), Clamp(y, 0, screen.height - 1))), None))
    }
  }

  function EdgeOvershoot(coord: int, length: int, low: Edge, high: Edge): Option<(Edge, int)> {
    if coord < 0 then Some((low, -coord))
    else if coord >= length then Some((high, coord - (length - 1)))
    else None
  }

  function EntryPoint(edge: Edge, peer: Screen, from: Screen, x: int, y: int): Point {
    if IsHorizontal(edge) then
      Point(if edge.Right? then 0 else SaturatingSub(peer.width, 1), Project(y, from.height, peer.height))
    else
      Point(Project(x, from.width, peer.width), if edge.Bottom? then 0 else SaturatingSub(peer.height, 1))
  }

  function Project(coord: int, src: u32, dst: u32): (r: nat)
    ensures dst > 0 ==> r < dst
  {
    if src <= 1 || dst == 0 then 0 else
    var clamped := Clamp(coord, 0, src - 1);
    ProjectBounds(clamped, src, dst);
    clamped * (dst - 1) / (src - 1)
  }

  lemma ProjectBounds(clamped: int, src: u32, dst: u32)
    requires src > 1 && dst > 0 && 0 <= clamped <= src - 1
    ensures 0 <= clamped * (dst - 1) <= (src - 1) * (dst - 1)
    ensures 0 <= clamped * (dst - 1) / (src - 1) <= dst - 1
  {
    MulMonotone(0, clamped, dst - 1);
    MulMonotone(clamped, src - 1, dst - 1);
    var q := clamped * (dst - 1) / (src - 1);
    DivBounds(clamped * (dst - 1), src - 1);
    assert (src - 1) * (dst - 1) == (dst - 1) * (src - 1);
    MulCancel(q, dst - 1, src - 1);
  }

  // ---- Mapping a coordinate between spans ----

  lemma ProjectIsMonotone(a: int, b: int, src: u32, dst: u32)
    requires a <= b && dst > 0
    ensures Project(a, src, dst) <= Project(b, src, dst)
  {
    if src > 1 {
      var a', b' := Clamp(a, 0, src - 1), Clamp(b, 0, src - 1);
      MulMonotone(a', b', dst - 1);
      ProjectBounds(a', src, dst);
      ProjectBounds(b', src, dst);
      TruncDivMonotone(a' * (dst - 1), b' * (dst - 1), src - 1);
    }
  }

  /** The proportional place is the last whole one not past it; coordinates outside
      the span count as its ends, and a span of one pixel has no proportion. */
  lemma ProjectIsTheFloor(coord: int, src: u32, dst: u32)
    requires dst > 0
    ensures var r := Project(coord, src, dst);
            && (src > 1 && 0 <= coord < src ==>
                  r * (src - 1) <= coord * (dst - 1) < (r + 1) * (src - 1))
            && (coord <= 0 || src <= 1 ==> r == 0)
            && (src > 1 && coord >= src ==> r == dst - 1)
    ensures Project(coord, src, 0) == 0
  {
    if src > 1 {
      var clamped := Clamp(coord, 0, src - 1);
      ProjectBounds(clamped, src, dst);
      DivBounds(clamped * (dst - 1), src - 1);
      var r := Project(coord, src, dst);
      assert (r + 1) * (src - 1) == r * (src - 1) + (src - 1);
      ProjectFixesEnds(src, dst);
    }
  }

  /** Both ends are fixed, and spans of one length keep every coordinate. */
  lemma ProjectFixesEnds(src: u32, dst: u32)
    requires src > 1 && dst > 0
    ensures Project(0, src, dst) == 0 && Project(src - 1, src, dst) == dst - 1
    ensures forall y | 0 <= y < src :: Project(y, src, src) == y
  {
    assert (src - 1) * (dst - 1) == (dst - 1) * (src - 1);
    DivExact(dst - 1, src - 1);
    forall y | 0 <= y < src ensures Project(y, src, src) == y {
      DivExact(y, src - 1);
    }
  }

  /** The multiplication is done in 64 unsigned bits, and fits there. */
  lemma ProjectFitsU64(coord: int, src: u32, dst: u32)
    requires src > 1 && dst > 0
    ensures 0 <= Clamp(coord, 0, src - 1) * (dst - 1) <= U64_MAX
  {
    ProjectBounds(Clamp(coord, 0, src - 1), src, dst);
    MulMonotone(src - 1, U32_MAX, dst - 1);
  }

  /** Mapping a coordinate to another span and back never moves it up, and moves
      it down by fewer pixels than one plus the ratio of the spans. */
  lemma ProjectThereAndBack(y: nat, own: u32, peer: u32)
    requires y < own && peer > 1
    ensures var back := Project(Project(y, own, peer), peer, own);
            back <= y && (own > 1 ==> (y - back - 1) * (peer - 1) < own - 1)
  {
    if own > 1 {
      var there := Project(y, own, peer);
      ProjectBounds(y, own, peer);
      ProjectBounds(there, peer, own);
      DivBounds(y * (peer - 1), own - 1);
      DivBounds(there * (own - 1), peer - 1);
      FloorThereAndBack(y, there, Project(there, peer, own), own - 1, peer - 1);
    }
  }

  lemma FloorThereAndBack(y: nat, there: nat, back: nat, own: nat, peer: nat)
    requires peer > 0
    requires there * own <= y * peer < there * own + own
    requires back * peer <= there * own < back * peer + peer
    ensures back <= y && (y - back - 1) * peer < own
  {
    MulCancel(back, y, peer);
    assert (y - back - 1) * peer == y * peer - (back * peer + peer);
  }

  // ---- Moving the cursor ----

  /** How far a candidate position lies beyond an edge; positive when past it. */
  function Overrun(s: Screen, x: int, y: int, e: Edge): int {
    match e
    case Left => -x
    case Right => x - (s.width - 1)
    case Top => -y
    case Bottom => y - (s.height - 1)
  }

  /** The edge a move leaves by: linked, overrun, overrun by at least as much as
      any other linked edge, and a tie goes to the vertical direction. */
  predicate LeavesBy(l: Layout, m: MachineId, x: int, y: int, e: Edge)
    requires m in l.screens
  {
    && (m, e) in l.links
    && Overrun(l.screens[m], x, y, e) > 0
    && (forall other | (m, other) in l.links ::
          || Overrun(l.screens[m], x, y, other) < Overrun(l.screens[m], x, y, e)
          || (Overrun(l.screens[m], x, y, other) == Overrun(l.screens[m], x, y, e)
              && (other == e || !IsHorizontal(e))))
  }

  lemma AtMostOneWayOut(l: Layout, m: MachineId, x: int, y: int, e: Edge, e': Edge)
    requires m in l.screens && LeavesBy(l, m, x, y, e) && LeavesBy(l, m, x, y, e')
    ensures e == e'
  {
    assert Overrun(l.screens[m], x, y, e) == Overrun(l.screens[m], x, y, e');
  }

  /** The point on a screen's side `e`, `along` pixels along it. */
  function OnSide(s: Screen, e: Edge, along: nat): Point {
    match e
    case Left => Point(0, along)
    case Right => Point(s.width - 1, along)
    case Top => Point(along, 0)
    case Bottom => Point(along, s.height - 1)
  }

  /** The coordinate a crossing of edge `e` keeps in proportion. */
  function Along(e: Edge, x: int, y: int): int {
    if IsHorizontal(e) then y else x
  }

  function SideLength(s: Screen, e: Edge): Side {
    if IsHorizontal(e) then s.height else s.width
  }

  /** On a well-formed layout a move never fails and always lands on a real spot
      of the screen it names. It crosses exactly when some linked edge was
      overrun (`OverrunMeansCrossing`), by the edge `LeavesBy` picks out, onto the facing side of that
      neighbour at the proportional place; otherwise it stays, pulled into
      bounds. */
  lemma AdvanceIsCorrect(l: Layout, c: CursorState, delta: MouseDelta)
    requires l.WellFormed() && l.Tracks(c)
    ensures var x, y := c.position.x + delta.dx, c.position.y + delta.dy;
            var s := l.screens[c.machine];
            var r := l.Advance(c, delta);
            && r.Ok? && l.Tracks(r.value.cursor)
            && (r.value.crossing.Some? <==> exists e :: LeavesBy(l, c.machine, x, y, e))
            && (forall e | LeavesBy(l, c.machine, x, y, e) ::
                  var peer := l.links[(c.machine, e)];
                  var t := l.screens[peer];
                  var entry := OnSide(t, Opposite(e), Project(Along(e, x, y), SideLength(s, e), SideLength(t, e)));
                  r.value == Moved(CursorState(peer, entry), Some(Crossing(peer, entry))))
            && (r.value.crossing.None? ==>
                r.value.cursor == CursorState(c.machine, Point(Clamp(x, 0, s.width - 1), Clamp(y, 0, s.height - 1))))
  {
    var x, y := c.position.x + delta.dx, c.position.y + delta.dy;
    var s := l.screens[c.machine];
    ChosenIsTheWayOut(l, c.machine, x, y);
    var chosen := l.Chosen(c.machine, EdgeOvershoot(x, s.width, Left, Right), EdgeOvershoot(y, s.height, Top, Bottom));
    if chosen.Some? {
      var (edge, _, peer) := chosen.value;
      assert LeavesBy(l, c.machine, x, y, edge);
      forall e | LeavesBy(l, c.machine, x, y, e) ensures e == edge {
        AtMostOneWayOut(l, c.machine, x, y, e, edge);
      }
    }
  }

  /** The edge a move is found to leave by is the one it should leave by. */
  lemma ChosenIsTheWayOut(l: Layout, m: MachineId, x: int, y: int)
    requires l.WellFormed() && m in l.screens
    ensures var s := l.screens[m];
            match l.Chosen(m, EdgeOvershoot(x, s.width, Left, Right), EdgeOvershoot(y, s.height, Top, Bottom))
            case Some((edge, _, peer)) =>
              LeavesBy(l, m, x, y, edge) && peer == l.links[(m, edge)] && peer in l.screens
            case None => forall e | (m, e) in l.links :: Overrun(s, x, y, e) <= 0
  {
    var s := l.screens[m];
    var h, v := EdgeOvershoot(x, s.width, Left, Right), EdgeOvershoot(y, s.height, Top, Bottom);
    OvershootIsOverrun(s, x, y);
    if l.Chosen(m, h, v).None? {
      forall e | (m, e) in l.links ensures Overrun(s, x, y, e) <= 0 {
        assert IsHorizontal(e) ==> !(h.Some? && h.value.0 == e);
        assert !IsHorizontal(e) ==> !(v.Some? && v.value.0 == e);
      }
    }
  }

  lemma OverrunMeansCrossing(l: Layout, c: CursorState, delta: MouseDelta)
    requires l.WellFormed() && l.Tracks(c)
    ensures var x, y := c.position.x + delta.dx, c.position.y + delta.dy;
            l.Advance(c, delta).Ok? && (l.Advance(c, delta).value.crossing.Some? <==>
              exists e :: (c.machine, e) in l.links && Overrun(l.screens[c.machine], x, y, e) > 0)
  {
    AdvanceIsCorrect(l, c, delta);
    ChosenIsTheWayOut(l, c.machine, c.position.x + delta.dx, c.position.y + delta.dy);
  }

  /** The short form: a move never fails, stays in bounds, and changes machine
      only across a link. */
  lemma AdvanceStaysTracked(l: Layout, c: CursorState, delta: MouseDelta)
    requires l.WellFormed() && l.Tracks(c)
    ensures var r := l.Advance(c, delta);
            && r.Ok? && l.Tracks(r.value.cursor)
            && match r.value.crossing
               case Some(crossing) => r.value.cursor == CursorState(crossing.peer, crossing.entry)
                                      && exists e :: l.Neighbor(c.machine, e) == Some(crossing.peer)
               case None => r.value.cursor.machine == c.machine
  {
    AdvanceIsCorrect(l, c, delta);
    var r := l.Advance(c, delta).value;
    if r.crossing.Some? {
      var e :| LeavesBy(l, c.machine, c.position.x + delta.dx, c.position.y + delta.dy, e);
      assert l.Neighbor(c.machine, e) == Some(r.crossing.value.peer);
    }
  }

  lemma OvershootIsOverrun(s: Screen, x: int, y: int)
    ensures var h := EdgeOvershoot(x, s.width, Left, Right);
            var v := EdgeOvershoot(y, s.height, Top, Bottom);
            && (forall e | IsHorizontal(e) :: Overrun(s, x, y, e) > 0 <==> h.Some? && h.value.0 == e)
            && (forall e | !IsHorizontal(e) :: Overrun(s, x, y, e) > 0 <==> v.Some? && v.value.0 == e)
            && (h.Some? ==> h.value.1 == Overrun(s, x, y, h.value.0))
            && (v.Some? ==> v.value.1 == Overrun(s, x, y, v.value.0))
  {
  }

  /** Candidate positions and overruns all fit 64 signed bits. */
  lemma AdvanceFitsI64(c: CursorState, delta: MouseDelta, s: Screen, e: Edge)
    requires InScreen(c.position, s)
    ensures var x, y := c.position.x + delta.dx, c.position.y + delta.dy;
            FitsI64(x) && FitsI64(y) && FitsI64(Overrun(s, x, y, e))
  {
    match e {
      case Left =>
      case Right =>
      case Top =>
      case Bottom =>
    }
  }

  // ---- Crossing and coming straight back ----

  /** A movement of `n` straight out through edge `e`. */
  function Push(e: Edge, n: i32): MouseDelta
    requires n > 0
  {
    match e
    case Left => MouseDelta(-n, 0)
    case Right => MouseDelta(n, 0)
    case Top => MouseDelta(0, -n)
    case Bottom => MouseDelta(0, n)
  }

  /** Pushing straight across a linked edge and straight back lands on the same
      machine, at the edge left by. The coordinate along the edge never grows; it
      shrinks by `k` pixels with `(k - 1) * (peer - 1) < own - 1`, so by at most
      one when the peer's side is at least as long, and by none when equal. */
  lemma CrossAndReturn(l: Layout, c: CursorState, e: Edge, out: i32, back: i32)
    requires l.WellFormed() && l.Tracks(c) && out > 0 && back > 0
    requires (c.machine, e) in l.links && (l.links[(c.machine, e)], Opposite(e)) in l.links
    requires l.links[(l.links[(c.machine, e)], Opposite(e))] == c.machine
    requires Overrun(l.screens[c.machine], c.position.x + Push(e, out).dx, c.position.y + Push(e, out).dy, e) > 0
    ensures var peer := l.links[(c.machine, e)];
            var across := l.Advance(c, Push(e, out));
            && across.Ok? && across.value.cursor.machine == peer
            && var home := l.Advance(across.value.cursor, Push(Opposite(e), back));
            && home.Ok?
            && var before := Along(e, c.position.x, c.position.y);
            var after := Along(e, home.value.cursor.position.x, home.value.cursor.position.y);
            var own, far := SideLength(l.screens[c.machine], e), SideLength(l.screens[peer], e);
            && 0 <= after <= before
            && home.value.cursor == CursorState(c.machine, OnSide(l.screens[c.machine], e, after))
            && (far > 1 ==> before == after || (before - after - 1) * (far - 1) < own - 1)
            && (far >= own && far > 1 ==> before - after <= 1)
            && (far == own ==> before == after)
  {
    var own, peer := l.screens[c.machine], l.links[(c.machine, e)];
    var far := l.screens[peer];
    var before := Along(e, c.position.x, c.position.y);
    CrossStraight(l, c, e, out);
    var there := Project(before, SideLength(own, e), SideLength(far, e));
    CrossStraight(l, CursorState(peer, OnSide(far, Opposite(e), there)), Opposite(e), back);
    LossAlongTheEdge(before, SideLength(own, e), SideLength(far, e));
  }

  lemma CrossStraight(l: Layout, c: CursorState, e: Edge, n: i32)
    requires l.WellFormed() && l.Tracks(c) && n > 0 && (c.machine, e) in l.links
    requires Overrun(l.screens[c.machine], c.position.x + Push(e, n).dx, c.position.y + Push(e, n).dy, e) > 0
    ensures var own, peer := l.screens[c.machine], l.links[(c.machine, e)];
            var far := l.screens[peer];
            var along := Project(Along(e, c.position.x, c.position.y), SideLength(own, e), SideLength(far, e));
            var entry := OnSide(far, Opposite(e), along);
            l.Advance(c, Push(e, n)) == Ok(Moved(CursorState(peer, entry), Some(Crossing(peer, entry))))
  {
    var step := Push(e, n);
    assert LeavesBy(l, c.machine, c.position.x + step.dx, c.position.y + step.dy, e);
    AdvanceIsCorrect(l, c, step);
  }

  lemma LossAlongTheEdge(before: nat, own: Side, far: Side)
    requires before < own
    ensures var after := Project(Project(before, own, far), far, own);
            && after <= before
            && (far > 1 ==> before == after || (before - after - 1) * (far - 1) < own - 1)
            && (far >= own && far > 1 ==> before - after <= 1)
            && (far == own ==> before == after)
  {
    var after := Project(Project(before, own, far), far, own);
    if far > 1 && own > 1 {
      ProjectThereAndBack(before, own, far);
      if far == own {
        ProjectFixesEnds(own, far);
      }
      if far >= own && before - after > 1 {
        MulMonotone(1, before - after - 1, far - 1);
      }
    }
  }

  // ---- The layout as an updatable object ----

  class VirtualLayout {
    var screens: map<MachineId, Screen>
    var links: map<(MachineId, Edge), MachineId>

    function View(): Layout
      reads this
    {
      Layout(screens, links)
    }

    constructor ()
      ensures View() == Layout(map[], map[])
    {
      screens, links := map[], map[];
    }

    method AddMachine(machine: Machine) returns (r: Result<(), LayoutError>)
      modifies this
      ensures match old(View()).WithMachine(machine)
              case Ok(l) => r == Ok(()) && View() == l
              case Err(e) => r == Err(e) && View() == old(View())
    {
      if machine.id in screens {
        return Err(DuplicateMachine(machine.id));
      }
      screens := screens[machine.id := machine.screen];
      return Ok(());
    }

    method Link(a: MachineId, edge: Edge, b: MachineId) returns (r: Result<(), LayoutError>)
      modifies this
      ensures match old(View()).WithLink(a, edge, b)
              case Ok(l) => r == Ok(()) && View() == l
              case Err(e) => r == Err(e) && View() == old(View())
    {
      if a !in screens {
        return Err(UnknownMachine(a));
      }
      if b !in screens {
        return Err(UnknownMachine(b));
      }
      links := links[(a, edge) := b];
      links := links[(b, Opposite(edge)) := a];
      return Ok(());
    }
  }

  // ---- What adding and linking change, and why they are refused ----

  lemma AddingAddsOneScreen(l: Layout, m: Machine)
    ensures match l.WithMachine(m)
            case Ok(n) => m.id !in l.screens && n.screens == l.screens[m.id := m.screen] && n.links == l.links
            case Err(e) => m.id in l.screens && e == DuplicateMachine(m.id)
  {
  }

  /** Linking changes what lies past two edges: each of the two machines past the
      other's. Machines that are not there cannot be linked. */
  lemma LinkingChangesTwoEdges(l: Layout, a: MachineId, e: Edge, b: MachineId)
    ensures match l.WithLink(a, e, b)
            case Ok(n) =>
              && a in l.screens && b in l.screens && n.screens == l.screens
              && n.Neighbor(a, e) == Some(b) && n.Neighbor(b, Opposite(e)) == Some(a)
              && forall m: MachineId, f | (m, f) != (a, e) && (m, f) != (b, Opposite(e)) ::
                   n.Neighbor(m, f) == l.Neighbor(m, f)
            case Err(x) => x == UnknownMachine(if a !in l.screens then a else b) && (a !in l.screens || b !in l.screens)
  {
  }

  /** A cursor on a machine that is not there cannot be moved, nor onto one. */
  lemma AdvanceNeedsKnownMachines(l: Layout, c: CursorState, delta: MouseDelta)
    ensures c.machine !in l.screens ==> l.Advance(c, delta) == Err(UnknownMachine(c.machine))
    ensures c.machine in l.screens && l.Advance(c, delta).Err? ==>
              exists e :: (c.machine, e) in l.links && l.links[(c.machine, e)] !in l.screens
                          && l.Advance(c, delta) == Err(UnknownMachine(l.links[(c.machine, e)]))
  {
    if c.machine in l.screens && l.Advance(c, delta).Err? {
      var s := l.screens[c.machine];
      var x, y := c.position.x + delta.dx, c.position.y + delta.dy;
      var h, v := EdgeOvershoot(x, s.width, Left, Right), EdgeOvershoot(y, s.height, Top, Bottom);
      var chosen := l.Chosen(c.machine, h, v);
      assert (c.machine, chosen.value.0) in l.links;
    }
  }

  // ---- Whether links lead back ----

  /** Every link leads back across the facing edge. */
  ghost predicate Symmetric(l: Layout) {
    forall m: MachineId, e {:trigger l.Neighbor(m, e)} | l.Neighbor(m, e).Some? ::
      l.Neighbor(l.Neighbor(m, e).value, Opposite(e)) == Some(m)
  }

  /** Both edges that a link would join are free, or already joined to each other. */
  predicate FreeToLink(l: Layout, a: MachineId, e: Edge, b: MachineId) {
    && (l.Neighbor(a, e) == None || l.Neighbor(a, e) == Some(b))
    && (l.Neighbor(b, Opposite(e)) == None || l.Neighbor(b, Opposite(e)) == Some(a))
  }

  /** Linking keeps a layout symmetric exactly when neither edge it joins led
      somewhere else. */
  lemma LinkKeepsSymmetryIff(l: Layout, a: MachineId, e: Edge, b: MachineId)
    requires Symmetric(l) && l.WithLink(a, e, b).Ok?
    ensures Symmetric(l.WithLink(a, e, b).value) <==> FreeToLink(l, a, e, b)
  {
    var n := l.WithLink(a, e, b).value;
    assert Opposite(Opposite(e)) == e;
    assert forall m: MachineId, f ::
        n.Neighbor(m, f) == (if (m, f) == (b, Opposite(e)) then Some(a)
                             else if (m, f) == (a, e) then Some(b)
                             else l.Neighbor(m, f));
    if FreeToLink(l, a, e, b) {
      forall m: MachineId, f | n.Neighbor(m, f).Some?
        ensures n.Neighbor(n.Neighbor(m, f).value, Opposite(f)) == Some(m)
      {
        OppositeTwice(f);
      }
    } else if l.Neighbor(a, e).Some? && l.Neighbor(a, e) != Some(b) {
      var was := l.Neighbor(a, e).value;
      assert n.Neighbor(was, Opposite(e)) == Some(a) && n.Neighbor(a, e) == Some(b);
    } else {
      var was := l.Neighbor(b, Opposite(e)).value;
      assert n.Neighbor(was, e) == Some(b) && n.Neighbor(b, Opposite(e)) == Some(a);
    }
  }

  lemma OppositeTwice(e: Edge)
    ensures Opposite(Opposite(e)) == e
  {
  }

  /** What then goes wrong: giving an edge a new neighbour leaves the old
      neighbour's link back in place. */
  lemma RelinkingLeavesTheOldBackLink(l: Layout, a: MachineId, e: Edge, b: MachineId, b': MachineId)
    requires a in l.screens && b in l.screens && b' in l.screens && b != b' && a != b && a != b'
    ensures var once := l.WithLink(a, e, b);
            && once.Ok?
            && var twice := once.value.WithLink(a, e, b');
            && twice.Ok?
            && twice.value.Neighbor(a, e) == Some(b')
            && twice.value.Neighbor(b, Opposite(e)) == Some(a)
  {
  }
}
