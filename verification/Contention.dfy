/** The ways two machines can disagree are real: from any freshly set up session,
    both users moving at once leads to each of them. */
module Contention {
  import opened Prelude
  import opened Geometry
  import opened Layouts
  import opened Sessions
  import opened Commands
  import opened States
  import opened Invariant
  import opened Homeward
  import opened HandOvers

  lemma {:induction false} LeadsOn(w: World, ms: seq<Move>, mid: World, m: Move)
    requires Leads(w, ms, mid) && Linked(mid) && Allowed(mid, m)
    ensures Leads(w, ms + [m], Do(mid, m))
    decreases |ms|
  {
    hide Do, Linked, Allowed;
    if ms == [] {
      assert [m][1..] == [];
    } else {
      assert (ms + [m])[1..] == ms[1..] + [m];
      LeadsOn(Do(w, ms[0]), ms[1..], mid, m);
    }
  }

  function GotAll(hs: seq<HandOver>): seq<Entry> {
    seq(|hs|, i requires 0 <= i < |hs| => GotOne(hs[i]))
  }

  function Unheard(me: Node, you: Node): seq<HandOver>
    requires |Gots(me.log)| <= |Sents(you.log)|
  {
    Sents(you.log)[|Gots(me.log)|..]
  }

  function Me(w: World, onLeft: bool): Node {
    if onLeft then w.left else w.right
  }

  /** Nothing is left queued: all that is in flight is on the streams. */
  ghost predicate Flushed(w: World)
    requires Linked(w)
  {
    w.left.wire == InFlight(w.left, w.right) && w.right.wire == InFlight(w.right, w.left)
  }

  lemma HearOne(w: World, onLeft: bool)
    requires Inv(w) && Flushed(w) && Me(w, !onLeft).wire != []
    ensures var n := Do(w, Move(onLeft, Hear));
            var me, you, me', you' := Me(w, onLeft), Me(w, !onLeft), Me(n, onLeft), Me(n, !onLeft);
            && Inv(n) && Flushed(n) && you'.wire == you.wire[1..] && me'.wire == me.wire && you'.log == you.log
            && Unheard(me, you) != [] && me'.log == me.log + [GotOne(Unheard(me, you)[0])]
            && Unheard(me', you') == Unheard(me, you)[1..]
  {
    hide Valid;
    HearOneSide(Me(w, onLeft), Me(w, !onLeft));
    DoKeepsInv(w, Move(onLeft, Hear));
  }

  lemma HearOneSide(me: Node, you: Node)
    requires Agrees(me, you) && Agrees(you, me) && LinkTo(me, you).session == LinkTo(you, me).session
    requires me.wire == InFlight(me, you) && you.wire == InFlight(you, me) && you.wire != []
    ensures var (me', you') := ActOn(me, you, Hear);
            && Agrees(me', you') && Agrees(you', me')
            && me'.wire == InFlight(me', you') == me.wire && you'.wire == InFlight(you', me') == you.wire[1..]
            && you'.log == you.log
            && Unheard(me, you) != [] && me'.log == me.log + [GotOne(Unheard(me, you)[0])]
            && Unheard(me', you') == Unheard(me, you)[1..]
  {
    hide Valid;
    HearKeepsSides(me, you);
    var h := Sents(you.log)[|Gots(me.log)|];
    LogOneMore(me.log, GotOne(h));
    assert Unheard(me, you)[1..] == Sents(you.log)[|Gots(me.log)| + 1..];
  }

  lemma GotAllCons(log: seq<Entry>, hs: seq<HandOver>)
    requires hs != []
    ensures log + [GotOne(hs[0])] + GotAll(hs[1..]) == log + GotAll(hs)
  {
  }

  /** Once flushed, a machine can read the other's stream to the end. */
  lemma HearTheRest(start: World, ms: seq<Move>, w: World, onLeft: bool) returns (ms': seq<Move>, w': World)
    requires Leads(start, ms, w) && Inv(w) && Flushed(w)
    ensures Leads(start, ms', w') && Inv(w') && Flushed(w')
    ensures var me, you, me', you' := Me(w, onLeft), Me(w, !onLeft), Me(w', onLeft), Me(w', !onLeft);
            && you'.wire == [] && me'.wire == me.wire && you'.log == you.log
            && me'.log == me.log + GotAll(Unheard(me, you))
    decreases |Me(w, !onLeft).wire|
  {
    hide Valid;
    var me, you := Me(w, onLeft), Me(w, !onLeft);
    if you.wire == [] {
      QuietMeansAllHeard(you, me);
      assert me.log + GotAll([]) == me.log;
      ms', w' := ms, w;
    } else {
      var m := Move(onLeft, Hear);
      HearOne(w, onLeft);
      LeadsOn(start, ms, w, m);
      ms', w' := HearTheRest(start, ms + [m], Do(w, m), onLeft);
      GotAllCons(me.log, Unheard(me, you));
    }
  }

  /** If nobody moves, everything in flight arrives: each log grows by exactly
      what the other had sent and this one not yet heard. */
  lemma EverythingArrives(start: World, ms: seq<Move>, w: World) returns (ms': seq<Move>, w': World)
    requires Leads(start, ms, w) && Inv(w)
    ensures Leads(start, ms', w') && Inv(w') && Quiet(w')
    ensures w'.left.log == w.left.log + GotAll(Unheard(w.left, w.right))
    ensures w'.right.log == w.right.log + GotAll(Unheard(w.right, w.left))
  {
    var l, r := Move(true, Send), Move(false, Send);
    var w1 := Do(w, l);
    SendKeepsSides(w.left, w.right);
    DoKeepsInv(w, l);
    LeadsOn(start, ms, w, l);
    var w2 := Do(w1, r);
    SendKeepsSides(w1.right, w1.left);
    DoKeepsInv(w1, r);
    LeadsOn(start, ms + [l], w1, r);
    var ms3, w3 := HearTheRest(start, ms + [l] + [r], w2, true);
    SentsKeep(w.left.log, Unheard(w.left, w.right));
    ms', w' := HearTheRest(start, ms3, w3, false);
  }

  lemma {:induction false} SentsKeep(log: seq<Entry>, hs: seq<HandOver>)
    ensures Sents(log + GotAll(hs)) == Sents(log)
    decreases |hs|
  {
    if hs == [] {
      assert log + GotAll(hs) == log;
    } else {
      assert log + GotAll(hs) == (log + GotAll(Front(hs))) + [GotOne(Last(hs))];
      SentsKeep(log, Front(hs));
      LogOneMore(log + GotAll(Front(hs)), GotOne(Last(hs)));
      assert Sents(log) + [] == Sents(log);
    }
  }

  // ---- Crossing over and coming back ----

  /** A push as long as the screen, out through an edge. */
  function FullPush(s: Screen, e: Edge): MouseDelta {
    Push(e, if IsHorizontal(e) then s.width else s.height)
  }

  /** With input on its own screen a machine can always cross to its peer. */
  lemma CanCrossOver(d: State, peer: MachineId)
    requires Valid(d) && peer in d.links && d.sessions.active == Local
    ensures d.RouteCaptured(Motion(FullPush(d.screen, d.links[peer].edge)), None).sessions.active.Remote?
  {
    var e := d.links[peer].edge;
    var delta := FullPush(d.screen, e);
    assert PlacedAt(d.layout.Neighbor(d.local, e), e, d.links, d.links.Keys);
    assert (d.local, e) in d.layout.links;
    assert Overrun(d.screen, d.cursor.position.x + delta.dx, d.cursor.position.y + delta.dy, e) > 0;
    OverrunMeansCrossing(d.layout, d.cursor, delta);
    AdvanceCursorKeeps(d, delta);
  }

  /** With its input on the peer, it can always bring it back in one movement. */
  lemma CanComeBack(d: State)
    requires Valid(d) && d.sessions.active.Remote?
    ensures d.RouteCaptured(Motion(FullPush(d.screen, HomeEdge(d))), None).sessions.active == Local
  {
    var s, e := d.links[d.sessions.active.peer].screen, HomeEdge(d);
    FullPushReaches(d.screen, s, e);
    assert s == d.layout.screens[d.sessions.active.peer];
    OneMoveCloser(d, FullPush(d.screen, e), None);
  }

  lemma FullPushReaches(from: Screen, to: Screen, e: Edge)
    ensures Toward(e, FullPush(from, e)) > 0
    ensures Toward(e, ScaleDelta(FullPush(from, e), from, to)) == if IsHorizontal(e) then to.width else to.height
  {
    ScaleAxisFullScreen(from.width, to.width);
    ScaleAxisFullScreen(from.height, to.height);
  }

  /** One machine hands the cursor over, whichever way it still can. */
  lemma CrossOnce(start: World, ms: seq<Move>, w: World, onLeft: bool) returns (ms': seq<Move>, w': World)
    requires Leads(start, ms, w) && Inv(w)
    ensures Leads(start, ms', w') && Inv(w')
    ensures var me, me' := if onLeft then w.left else w.right, if onLeft then w'.left else w'.right;
            var you, you' := if onLeft then w.right else w.left, if onLeft then w'.right else w'.left;
            && you' == you && me'.d.sessions.active != me.d.sessions.active
            && me'.log == me.log + [SentOne(HandOverOf(me'.d))]
            && (HandOverOf(me'.d).returned <==> me.d.sessions.active.Remote?)
  {
    var me, you := if onLeft then w.left else w.right, if onLeft then w.right else w.left;
    var peer := you.d.local;
    var event;
    if me.d.sessions.active.Local? {
      event := Motion(FullPush(me.d.screen, me.d.links[peer].edge));
      CanCrossOver(me.d, peer);
    } else {
      event := Motion(FullPush(me.d.screen, HomeEdge(me.d)));
      CanComeBack(me.d);
    }
    var m := Move(onLeft, Action.Capture(event, None));
    CaptureKeepsSides(me, you, event, None);
    DoKeepsInv(w, m);
    LeadsOn(start, ms, w, m);
    ms', w' := ms + [m], Do(w, m);
  }

  /** Both users push across at once: neither machine ends up sending its input
      anywhere, though each was told the other took over. */
  lemma CrossedWarpsHappen(start: World)
    requires Initial(start)
    ensures exists ms, w :: Leads(start, ms, w) && Inv(w) && Quiet(w) && CrossedWarps(w)
                            && !SendsAway(w.left) && !SendsAway(w.right)
  {
    InitialHasInv(start);
    var ms1, w1 := CrossOnce(start, [], start, true);
    var ms2, w2 := CrossOnce(start, ms1, w1, false);
    LogOneMore([], w2.left.log[0]);
    LogOneMore([], w2.right.log[0]);
    assert w2.left.log == [] + [w2.left.log[0]] && w2.right.log == [] + [w2.right.log[0]];
    var ms3, w3 := EverythingArrives(start, ms2, w2);
    ExactlyWhoIsInControl(start, ms3, w3);
  }

  /** Both push across and straight back before hearing from the other: both end
      up sending their input away, so that neither acts on any. */
  lemma CrossedReturnsHappen(start: World)
    requires Initial(start)
    ensures exists ms, w :: Leads(start, ms, w) && Inv(w) && Quiet(w) && CrossedReturns(w)
                            && SendsAway(w.left) && SendsAway(w.right)
  {
    InitialHasInv(start);
    var ms1, w1 := CrossOnce(start, [], start, true);
    var ms2, w2 := CrossOnce(start, ms1, w1, true);
    var ms3, w3 := CrossOnce(start, ms2, w2, false);
    var ms4, w4 := CrossOnce(start, ms3, w3, false);
    TwoSent(w4.left.log);
    TwoSent(w4.right.log);
    var ms5, w5 := EverythingArrives(start, ms4, w4);
    ExactlyWhoIsInControl(start, ms5, w5);
  }

  lemma TwoSent(log: seq<Entry>)
    requires |log| == 2 && log[0].SentOne? && log[1].SentOne?
    ensures Sents(log) == [log[0].h, log[1].h] && Gots(log) == []
  {
    var first := [log[0]];
    assert log == first + [log[1]] && first == [] + [log[0]];
    assert Sents([]) == [] && Gots([]) == [];
    hide Sents, Gots;
    LogOneMore([], log[0]);
    LogOneMore(first, log[1]);
  }

  // ---- How a disagreement ends ----

  /** From every reachable moment with nothing in flight, either side alone can
      hand the cursor over so that, once the other has heard of it, exactly one
      machine sends its input away. */
  lemma EitherSideCanSettle(start: World, ms: seq<Move>, w: World, onLeft: bool)
    requires Initial(start) && Leads(start, ms, w)
    ensures Inv(w)
    ensures Quiet(w) ==> exists ms', end :: Leads(w, ms', end) && Inv(end) && Quiet(end)
                                            && Sents(Me(end, !onLeft).log) == Sents(Me(w, !onLeft).log)
                                            && SendsAway(end.left) != SendsAway(end.right)
  {
    hide Valid, Leads;
    ExactlyWhoIsInControl(start, ms, w);
    if Quiet(w) {
      var ms', end := HandOverAndHear(w, onLeft);
      UncontestedHandOverSettles(start, ms, w, ms', end);
    }
  }

  lemma HandOverAndHear(w: World, onLeft: bool) returns (ms: seq<Move>, end: World)
    requires Inv(w)
    ensures Leads(w, ms, end) && Inv(end) && Quiet(end)
    ensures Sents(Me(end, !onLeft).log) == Sents(Me(w, !onLeft).log)
    ensures Sents(Me(end, onLeft).log) != Sents(Me(w, onLeft).log)
  {
    assert Leads(w, [], w);
    hide Agrees, Leads, Quiet, InFlight;
    var ms1, w1 := CrossOnce(w, [], w, onLeft);
    LogOneMore(Me(w, onLeft).log, Last(Me(w1, onLeft).log));
    HeardWasSent(w1);
    ms, end := EverythingArrives(w, ms1, w1);
    SentsKeep(w1.left.log, Unheard(w1.left, w1.right));
    SentsKeep(w1.right.log, Unheard(w1.right, w1.left));
  }

  lemma HeardWasSent(w: World)
    requires Inv(w)
    ensures Gots(w.left.log) <= Sents(w.right.log) && Gots(w.right.log) <= Sents(w.left.log)
  {
    hide Valid;
  }
}
