/** What a peer task is asked to send, and the batching of it: consecutive
    cursor positions collapse into the newest one. */
module Commands {
  import opened Prelude
  import opened Geometry
  import opened Sessions

  /** The modifier keys held, by bit number. */
  type Modifiers = set<nat>

  const CONTROL: nat := 1
  const META: nat := 3

  datatype InputEvent =
    | Key(code: nat, press: bool, modifiers: Modifiers)
    | Motion(delta: MouseDelta)
    | Pointer(x: int, y: int)
    | Button(button: nat, press: bool)
    | Scroll(dx: i32, dy: i32)

  // ---- Relabelling modifier keys for a peer ----

  datatype ModifierSwap = Unchanged | MetaAndControl
  {
    function Apply(event: InputEvent): InputEvent {
      if this == Unchanged || !event.Key? then event
      else Key(SwapKey(event.code), event.press, SwapModifiers(event.modifiers))
    }
  }

  const LEFT_CONTROL: nat := 0xE0
  const LEFT_GUI: nat := 0xE3
  const RIGHT_CONTROL: nat := 0xE4
  const RIGHT_GUI: nat := 0xE7

  function SwapKey(code: nat): nat {
    if code == LEFT_CONTROL then LEFT_GUI
    else if code == LEFT_GUI then LEFT_CONTROL
    else if code == RIGHT_CONTROL then RIGHT_GUI
    else if code == RIGHT_GUI then RIGHT_CONTROL
    else code
  }

  function SwapModifiers(modifiers: Modifiers): Modifiers {
    var swapped := modifiers - {META} - {CONTROL};
    var withControl := if META in modifiers then swapped + {CONTROL} else swapped;
    if CONTROL in modifiers then withControl + {META} else withControl
  }

  /** The swap is its own inverse, so that no two events are confused; it alters
      key events only, exchanges the two modifiers and nothing else, and does so
      in the key and in the modifiers held alike. */
  lemma SwapIsItsOwnInverse(swap: ModifierSwap, event: InputEvent)
    ensures swap.Apply(swap.Apply(event)) == event
    ensures !event.Key? ==> swap.Apply(event) == event
    ensures event.Key? && swap.MetaAndControl? ==>
              var out := swap.Apply(event);
              && out.Key? && out.press == event.press
              && (CONTROL in out.modifiers <==> META in event.modifiers)
              && (META in out.modifiers <==> CONTROL in event.modifiers)
              && out.modifiers - {CONTROL, META} == event.modifiers - {CONTROL, META}
              && (out.code in {LEFT_CONTROL, RIGHT_CONTROL} <==> event.code in {LEFT_GUI, RIGHT_GUI})
              && (out.code in {LEFT_GUI, RIGHT_GUI} <==> event.code in {LEFT_CONTROL, RIGHT_CONTROL})
              && (out.code != event.code ==> event.code in {LEFT_CONTROL, LEFT_GUI, RIGHT_CONTROL, RIGHT_GUI})
              && (out.code in {LEFT_CONTROL, LEFT_GUI} <==> event.code in {LEFT_CONTROL, LEFT_GUI})
  {
    if event.Key? && swap.MetaAndControl? {
      assert SwapModifiers(SwapModifiers(event.modifiers)) == event.modifiers;
    }
  }

  datatype PeerCommand =
    | Input(event: InputEvent)
    | Warp(x: int, y: int)
    | CursorReturned(x: int, y: int)
    | Clipboard(data: seq<nat>)
    | Disconnect

  predicate IsPointer(c: PeerCommand) {
    c.Input? && c.event.Pointer?
  }

  function Last<T>(s: seq<T>): T
    requires s != []
  {
    s[|s| - 1]
  }

  function Front<T>(s: seq<T>): seq<T>
    requires s != []
  {
    s[..|s| - 1]
  }

  function Coalesce(batch: seq<PeerCommand>): seq<PeerCommand> {
    if batch == [] then []
    else Joined(Coalesce(Front(batch)), Last(batch))
  }

  function Joined(out: seq<PeerCommand>, next: PeerCommand): seq<PeerCommand> {
    if IsPointer(next) && out != [] && IsPointer(Last(out)) then Front(out) + [next] else out + [next]
  }

  method CoalesceMotion(batch: seq<PeerCommand>) returns (out: seq<PeerCommand>)
    ensures out == Coalesce(batch)
  {
    out := [];
    for i := 0 to |batch|
      invariant out == Coalesce(batch[..i])
    {
      assert Front(batch[..i + 1]) == batch[..i];
      var isPointer := IsPointer(batch[i]);
      var prevIsPointer := out != [] && IsPointer(Last(out));
      if isPointer && prevIsPointer {
        out := out[|out| - 1 := batch[i]];
      } else {
        out := out + [batch[i]];
      }
    }
    assert batch[..|batch|] == batch;
  }

  // ---- Coalescing keeps what the commands mean ----

  /** A machine at the receiving end: where its pointer is, everything done so
      far and where the pointer was at the time, and whether it was told the
      session is over. */
  datatype Receiver = Receiver(at: Option<(int, int)>, log: seq<Done>, closed: bool)

  datatype Done = Done(command: PeerCommand, at: Option<(int, int)>)

  function Obey(r: Receiver, c: PeerCommand): Receiver {
    if r.closed then r else
    match c
    case Input(Pointer(x, y)) => r.(at := Some((x, y)))
    case Input(Motion(d)) =>
      r.(at := if r.at.Some? then Some((r.at.value.0 + d.dx, r.at.value.1 + d.dy)) else None)
    case Warp(x, y) => r.(at := Some((x, y)), log := r.log + [Done(c, r.at)])
    case Disconnect => r.(closed := true, log := r.log + [Done(c, r.at)])
    case _ => r.(log := r.log + [Done(c, r.at)])
  }

  function Drive(r: Receiver, cs: seq<PeerCommand>): Receiver {
    if cs == [] then r else Obey(Drive(r, Front(cs)), Last(cs))
  }

  lemma {:induction false} DriveAppend(r: Receiver, a: seq<PeerCommand>, b: seq<PeerCommand>)
    ensures Drive(r, a + b) == Drive(Drive(r, a), b)
  {
    if b == [] {
      assert a + b == a;
    } else {
      assert Front(a + b) == a + Front(b);
      DriveAppend(r, a, Front(b));
    }
  }

  /** The receiver ends in the same place having done the same things at the
      same places, whether or not the batch was coalesced. */
  lemma {:induction false} CoalesceKeepsMeaning(r: Receiver, batch: seq<PeerCommand>)
    ensures Drive(r, Coalesce(batch)) == Drive(r, batch)
  {
    if batch == [] {
    } else {
      var out, next := Coalesce(Front(batch)), Last(batch);
      CoalesceKeepsMeaning(r, Front(batch));
      if IsPointer(next) && out != [] && IsPointer(Last(out)) {
        assert Front(Front(out) + [next]) == Front(out);
      } else {
        assert Front(out + [next]) == out;
      }
    }
  }

  function Flatten(batches: seq<seq<PeerCommand>>): seq<PeerCommand> {
    if batches == [] then [] else Flatten(Front(batches)) + Last(batches)
  }

  function CoalesceEach(batches: seq<seq<PeerCommand>>): seq<PeerCommand> {
    if batches == [] then [] else CoalesceEach(Front(batches)) + Coalesce(Last(batches))
  }

  /** However the stream happens to be cut into batches, the receiver is driven
      exactly as by the raw stream. */
  lemma {:induction false} BatchingDoesNotMatter(r: Receiver, batches: seq<seq<PeerCommand>>)
    ensures Drive(r, CoalesceEach(batches)) == Drive(r, Flatten(batches))
  {
    if batches == [] {
    } else {
      BatchingDoesNotMatter(r, Front(batches));
      DriveAppend(r, CoalesceEach(Front(batches)), Coalesce(Last(batches)));
      DriveAppend(r, Flatten(Front(batches)), Last(batches));
      CoalesceKeepsMeaning(Drive(r, Flatten(Front(batches))), Last(batches));
    }
  }

  // ---- What coalescing keeps, and what it leaves ----

  function WithoutPointers(cs: seq<PeerCommand>): seq<PeerCommand> {
    if cs == [] then []
    else WithoutPointers(Front(cs)) + if IsPointer(Last(cs)) then [] else [Last(cs)]
  }

  predicate NoAdjacentPointers(cs: seq<PeerCommand>) {
    forall i | 0 < i < |cs| :: !(IsPointer(cs[i - 1]) && IsPointer(cs[i]))
  }

  /** Every command that is not a position is kept, in order; of each run of
      positions only the last survives, so no two are left side by side. */
  lemma {:induction false} CoalesceKeepsTheRest(batch: seq<PeerCommand>)
    ensures WithoutPointers(Coalesce(batch)) == WithoutPointers(batch)
    ensures NoAdjacentPointers(Coalesce(batch))
    ensures batch != [] ==> Coalesce(batch) != [] && Last(Coalesce(batch)) == Last(batch)
  {
    if batch == [] {
    } else {
      var out, next := Coalesce(Front(batch)), Last(batch);
      CoalesceKeepsTheRest(Front(batch));
      if IsPointer(next) && out != [] && IsPointer(Last(out)) {
        assert Front(Front(out) + [next]) == Front(out);
      } else {
        assert Front(out + [next]) == out;
      }
    }
  }

  lemma {:induction false} NothingLeftToCoalesce(cs: seq<PeerCommand>)
    requires NoAdjacentPointers(cs)
    ensures Coalesce(cs) == cs
  {
    if cs == [] {
    } else {
      NothingLeftToCoalesce(Front(cs));
      if |cs| > 1 {
        assert Last(Front(cs)) == cs[|cs| - 2];
      }
    }
  }

  lemma CoalesceIsIdempotent(batch: seq<PeerCommand>)
    ensures Coalesce(Coalesce(batch)) == Coalesce(batch)
  {
    CoalesceKeepsTheRest(batch);
    NothingLeftToCoalesce(Coalesce(batch));
  }

  // ---- Sending a batch ----

  /** The two hand-over messages of the control stream. */
  datatype ControlMessage =
    | CursorWarpMessage(session: SessionId, x: int, y: int)
    | CursorReturnedMessage(session: SessionId, x: int, y: int)
    | DisconnectMessage(session: SessionId)

  /** What leaves a peer task, by channel: datagrams, the control stream, and the
      clipboard's own stream. */
  datatype Sent = Sent(datagrams: seq<InputEvent>, control: seq<ControlMessage>,
                       payloads: seq<seq<nat>>, closing: bool)

  const NOTHING_SENT := Sent([], [], [], false)

  function SendOne(s: Sent, session: SessionId, c: PeerCommand): Sent {
    if s.closing then s else
    match c
    case Input(event) => s.(datagrams := s.datagrams + [event])
    case Warp(x, y) => s.(control := s.control + [CursorWarpMessage(session, x, y)])
    case CursorReturned(x, y) => s.(control := s.control + [CursorReturnedMessage(session, x, y)])
    case Clipboard(data) => s.(payloads := s.payloads + [data])
    case Disconnect => s.(control := s.control + [DisconnectMessage(session)], closing := true)
  }

  function SendAll(s: Sent, session: SessionId, cs: seq<PeerCommand>): Sent {
    if cs == [] then s else SendOne(SendAll(s, session, Front(cs)), session, Last(cs))
  }

  /** Sending that may fail. A position that cannot be sent is simply lost; any
      other failure ends the session. */
  function TryOne(s: Sent, session: SessionId, c: PeerCommand, fails: bool): Sent {
    if !fails then SendOne(s, session, c)
    else if s.closing || c.Input? then s
    else s.(closing := true)
  }

  /** `fails`: which of these commands cannot be sent, should their turn come. */
  function TryAll(session: SessionId, cs: seq<PeerCommand>, fails: set<nat>): Sent {
    if cs == [] then NOTHING_SENT
    else TryOne(TryAll(session, Front(cs), fails), session, Last(cs), |cs| - 1 in fails)
  }

  /** The command arm of the peer task's loop: one drained batch goes out, up to
      and including the first request to disconnect or the first failure that
      ends the session. */
  method SendBatch(session: SessionId, batch: seq<PeerCommand>, fails: set<nat>) returns (s: Sent)
    ensures s == TryAll(session, Coalesce(batch), fails)
  {
    s := NOTHING_SENT;
    var out := CoalesceMotion(batch);
    for i := 0 to |out|
      invariant s == TryAll(session, out[..i], fails)
      invariant !s.closing
    {
      assert Front(out[..i + 1]) == out[..i];
      match out[i] {
        case Input(event) =>
          if i !in fails {
            s := s.(datagrams := s.datagrams + [event]);
          }
        case Warp(x, y) =>
          if i !in fails {
            s := s.(control := s.control + [CursorWarpMessage(session, x, y)]);
          } else {
            s := s.(closing := true);
          }
        case CursorReturned(x, y) =>
          if i !in fails {
            s := s.(control := s.control + [CursorReturnedMessage(session, x, y)]);
          } else {
            s := s.(closing := true);
          }
        case Clipboard(data) =>
          if i !in fails {
            s := s.(payloads := s.payloads + [data]);
          } else {
            s := s.(closing := true);
          }
        case Disconnect =>
          if i !in fails {
            s := s.(control := s.control + [DisconnectMessage(session)]);
          }
          s := s.(closing := true);
      }
      if s.closing {
        TryClosed(session, out, fails, i + 1);
        return;
      }
    }
    assert out[..|out|] == out;
  }

  lemma {:induction false} TryClosed(session: SessionId, cs: seq<PeerCommand>, fails: set<nat>, i: nat)
    requires i <= |cs| && TryAll(session, cs[..i], fails).closing
    ensures TryAll(session, cs, fails) == TryAll(session, cs[..i], fails)
    decreases |cs|
  {
    if i == |cs| {
      assert cs[..i] == cs;
    } else {
      assert Front(cs)[..i] == cs[..i];
      TryClosed(session, Front(cs), fails, i);
    }
  }

  /** Failures never reorder or alter what goes out on the reliable streams: it is
      the beginning of what a faultless batch sends, and all of it unless the
      session ends. Without failures nothing is missing at all. */
  lemma {:induction false} FailuresOnlyCutShort(session: SessionId, cs: seq<PeerCommand>, fails: set<nat>)
    ensures var s, whole := TryAll(session, cs, fails), SendAll(NOTHING_SENT, session, cs);
            && s.control <= whole.control && s.payloads <= whole.payloads && (whole.closing ==> s.closing)
            && (!s.closing ==> s.control == whole.control && s.payloads == whole.payloads)
            && ((forall i | i in fails :: i >= |cs|) ==> s == whole)
  {
    if cs == [] {
    } else {
      FailuresOnlyCutShort(session, Front(cs), fails);
      assert |cs| - 1 in fails ==> !(forall i | i in fails :: i >= |cs|);
    }
  }

  /** The hand-over messages a queue of commands stands for. */
  function Controls(session: SessionId, cs: seq<PeerCommand>): seq<ControlMessage> {
    if cs == [] then []
    else Controls(session, Front(cs)) + ControlOf(session, Last(cs))
  }

  function ControlOf(session: SessionId, c: PeerCommand): seq<ControlMessage> {
    match c
    case Warp(x, y) => [CursorWarpMessage(session, x, y)]
    case CursorReturned(x, y) => [CursorReturnedMessage(session, x, y)]
    case _ => []
  }

  lemma {:induction false} ControlsAppend(session: SessionId, a: seq<PeerCommand>, b: seq<PeerCommand>)
    ensures Controls(session, a + b) == Controls(session, a) + Controls(session, b)
  {
    if b == [] {
      assert a + b == a;
    } else {
      assert Front(a + b) == a + Front(b) && Last(a + b) == Last(b);
      ControlsAppend(session, a, Front(b));
      var x, y, z := Controls(session, a), Controls(session, Front(b)), ControlOf(session, Last(b));
      assert (x + y) + z == x + (y + z);
    }
  }

  lemma {:induction false} CoalesceKeepsControls(session: SessionId, batch: seq<PeerCommand>)
    ensures Controls(session, Coalesce(batch)) == Controls(session, batch)
    ensures Disconnect in Coalesce(batch) ==> Disconnect in batch
  {
    if batch == [] {
    } else {
      var out, next := Coalesce(Front(batch)), Last(batch);
      CoalesceKeepsControls(session, Front(batch));
      if IsPointer(next) && out != [] && IsPointer(Last(out)) {
        assert Front(Front(out) + [next]) == Front(out);
      } else {
        assert Front(out + [next]) == out;
      }
    }
  }

  lemma {:induction false} SendAllKeepsControls(session: SessionId, cs: seq<PeerCommand>)
    requires Disconnect !in cs
    ensures SendAll(NOTHING_SENT, session, cs).control == Controls(session, cs)
    ensures !SendAll(NOTHING_SENT, session, cs).closing
  {
    if cs == [] {
    } else {
      SendAllKeepsControls(session, Front(cs));
      assert Last(cs) in cs;
    }
  }

  /** A batch without a request to disconnect puts exactly the queued hand-over
      messages on the control stream, in the order they were queued. */
  lemma BatchKeepsHandOvers(session: SessionId, batch: seq<PeerCommand>)
    requires Disconnect !in batch
    ensures var s := SendAll(NOTHING_SENT, session, Coalesce(batch));
            s.control == Controls(session, batch) && !s.closing
  {
    CoalesceKeepsControls(session, batch);
    SendAllKeepsControls(session, Coalesce(batch));
  }

  // ---- Exactly what goes out ----

  /** The clipboard payloads a queue of commands stands for. */
  function Copies(cs: seq<PeerCommand>): seq<seq<nat>> {
    if cs == [] then []
    else Copies(Front(cs)) + if Last(cs).Clipboard? then [Last(cs).data] else []
  }

  /** The input events of a queue of commands, but for those that cannot be sent. */
  function Events(cs: seq<PeerCommand>, fails: set<nat>): seq<InputEvent> {
    if cs == [] then []
    else Events(Front(cs), fails) + if Last(cs).Input? && |cs| - 1 !in fails then [Last(cs).event] else []
  }

  /** The session ends with this command: the user asked for it, or a stream that
      should have carried it is gone. */
  predicate Ends(c: PeerCommand, fails: bool) {
    c.Disconnect? || (fails && !c.Input?)
  }

  predicate EndsAt(cs: seq<PeerCommand>, fails: set<nat>, k: nat) {
    && k <= |cs| && (k < |cs| ==> Ends(cs[k], k in fails))
    && forall i | 0 <= i < k :: !Ends(cs[i], i in fails)
  }

  /** Each kind of command goes out its own way, in order and unaltered, up to the
      one that ends the session; only a request to disconnect that could be sent
      is itself told to the peer. */
  lemma {:induction false} SentExactly(session: SessionId, cs: seq<PeerCommand>, fails: set<nat>, k: nat)
    requires EndsAt(cs, fails, k)
    ensures var s := TryAll(session, cs, fails);
            && s.datagrams == Events(cs[..k], fails) && s.payloads == Copies(cs[..k])
            && s.control == Controls(session, cs[..k])
                            + (if k < |cs| && cs[k].Disconnect? && k !in fails then [DisconnectMessage(session)]
                               else [])
            && (s.closing <==> k < |cs|)
    decreases |cs|
  {
    if cs == [] {
    } else {
      var front := Front(cs);
      if k < |cs| {
        assert front[..k] == cs[..k];
        SentExactly(session, front, fails, k);
      } else {
        assert front[..k - 1] == front && cs[..k] == cs;
        SentExactly(session, front, fails, k - 1);
        assert Controls(session, front) + [] == Controls(session, front);
      }
    }
  }
}
