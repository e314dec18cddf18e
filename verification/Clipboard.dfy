/** Opt-in clipboard sharing, and why it cannot echo for ever. */
module ClipboardSharing {
  import opened Prelude

  const MAX_CLIPBOARD_BYTES: nat := 64 * 1024 * 1024

  datatype ClipboardData = Text(text: seq<nat>) | Image(width: u32, height: u32, bytes: seq<nat>)
  {
    /** Neither malformed nor over the size limit. */
    predicate Valid() {
      match this
      case Text(text) => |text| <= MAX_CLIPBOARD_BYTES
      case Image(width, height, bytes) => |bytes| == width * height * 4 && |bytes| <= MAX_CLIPBOARD_BYTES
    }
  }

  datatype ClipboardError = Disabled | Platform | Validation

  /** One machine's manager, with the operating system's clipboard it reads and
      writes. */
  datatype Manager = Manager(enabled: bool, lastSynced: Option<ClipboardData>, content: Option<ClipboardData>)
  {
    function SetEnabled(on: bool): Manager {
      this.(enabled := on, lastSynced := if on then lastSynced else None)
    }

    /** `readable`: whether the operating system lets the clipboard be read. */
    function Poll(readable: bool): (Manager, Result<Option<ClipboardData>, ClipboardError>) {
      if !enabled then (this, Err(Disabled))
      else if !readable then (this, Err(Platform))
      else match content
        case None => (this, Ok(None))
        case Some(data) =>
          if lastSynced == Some(data) then (this, Ok(None))
          else (this.(lastSynced := Some(data)), Ok(if data.Valid() then Some(data) else None))
    }

    /** `writable`: whether the operating system takes the new contents. */
    function Update(data: ClipboardData, writable: bool): (Manager, Result<(), ClipboardError>) {
      if !enabled then (this, Err(Disabled))
      else if !data.Valid() then (this, Err(Validation))
      else if !writable then (this, Err(Platform))
      else (this.(content := Some(data), lastSynced := Some(data)), Ok(()))
    }

    /** The next poll could find something to send. */
    predicate Pending() {
      enabled && content.Some? && lastSynced != content
    }
  }

  class ClipboardManager {
    var enabled: bool
    var lastSynced: Option<ClipboardData>
    var content: Option<ClipboardData>

    function View(): Manager
      reads this
    {
      Manager(enabled, lastSynced, content)
    }

    constructor (enabled: bool, content: Option<ClipboardData>)
      ensures View() == Manager(enabled, None, content)
    {
      this.enabled, lastSynced, this.content := enabled, None, content;
    }

    method SetEnabled(on: bool)
      modifies this
      ensures View() == old(View()).SetEnabled(on)
    {
      enabled := on;
      if !on {
        lastSynced := None;
      }
    }

    method PollLocalChange(readable: bool) returns (r: Result<Option<ClipboardData>, ClipboardError>)
      modifies this`lastSynced
      ensures (View(), r) == old(View()).Poll(readable)
    {
      if !enabled {
        return Err(Disabled);
      }
      if !readable {
        return Err(Platform);
      }
      var current := content;
      if current.Some? && lastSynced.Some? && current == lastSynced {
        return Ok(None);
      }
      if current.Some? {
        lastSynced := current;
        if !current.value.Valid() {
          return Ok(None);
        }
        return Ok(current);
      }
      return Ok(None);
    }

    method HandleRemoteUpdate(data: ClipboardData, writable: bool) returns (r: Result<(), ClipboardError>)
      modifies this
      ensures (View(), r) == old(View()).Update(data, writable)
    {
      if !enabled {
        return Err(Disabled);
      }
      if !data.Valid() {
        return Err(Validation);
      }
      if !writable {
        return Err(Platform);
      }
      content := Some(data);
      lastSynced := Some(data);
      return Ok(());
    }
  }

  // ---- A network of managers ----

  /** What can happen to machine `at`: its user copies something or empties the
      clipboard, it polls, it hears of a remote copy, or sharing is switched. */
  datatype Event =
    | UserSets(at: nat, contents: Option<ClipboardData>)
    | Polls(at: nat, readable: bool)
    | Hears(at: nat, data: ClipboardData, writable: bool)
    | Switches(at: nat, on: bool)

  type Network = seq<Manager>

  predicate OnNetwork(events: seq<Event>, n: Network) {
    forall e | e in events :: e.at < |n|
  }

  function React(m: Manager, e: Event): Manager {
    match e
    case UserSets(_, data) => m.(content := data)
    case Polls(_, readable) => m.Poll(readable).0
    case Hears(_, data, writable) => m.Update(data, writable).0
    case Switches(_, on) => m.SetEnabled(on)
  }

  /** The event makes the machine send its clipboard to the others. */
  predicate Sends(m: Manager, e: Event) {
    e.Polls? && m.Poll(e.readable).1.Ok? && m.Poll(e.readable).1.value.Some?
  }

  /** The event gives the machine something new to send: a copy while sharing is
      on, or sharing being turned on. */
  predicate Earns(m: Manager, e: Event) {
    (e.UserSets? && e.contents.Some? && m.enabled) || (e.Switches? && e.on && !m.enabled)
  }

  function Run(n: Network, events: seq<Event>): Network
    requires OnNetwork(events, n)
    ensures |Run(n, events)| == |n|
    decreases |events|
  {
    if events == [] then n
    else
      assert events[0] in events;
      Run(n[events[0].at := React(n[events[0].at], events[0])], events[1..])
  }

  /** How often machine `i` sends during a run, and how often it earned that. */
  function SentBy(n: Network, i: nat, events: seq<Event>): nat
    requires OnNetwork(events, n) && i < |n|
    decreases |events|
  {
    if events == [] then 0
    else
      var e := events[0];
      assert e in events;
      (if e.at == i && Sends(n[i], e) then 1 else 0) + SentBy(n[e.at := React(n[e.at], e)], i, events[1..])
  }

  function EarnedBy(n: Network, i: nat, events: seq<Event>): nat
    requires OnNetwork(events, n) && i < |n|
    decreases |events|
  {
    if events == [] then 0
    else
      var e := events[0];
      assert e in events;
      (if e.at == i && Earns(n[i], e) then 1 else 0) + EarnedBy(n[e.at := React(n[e.at], e)], i, events[1..])
  }

  function One(b: bool): nat {
    if b then 1 else 0
  }

  /** One event on one machine: a send uses up something pending, and only a copy
      or a switch-on can make something pending. */
  lemma SendingUsesUpPending(m: Manager, e: Event)
    ensures One(Sends(m, e)) + One(React(m, e).Pending()) <= One(m.Pending()) + One(Earns(m, e))
  {
  }

  /** Whatever the network does, and whatever arrives from it, a machine sends no
      more often than its user copied or sharing was turned on there, and once
      more if it started with something to send. */
  lemma {:induction false} SendsAreEarned(n: Network, i: nat, events: seq<Event>)
    requires OnNetwork(events, n) && i < |n|
    ensures SentBy(n, i, events) + One(Run(n, events)[i].Pending()) <= EarnedBy(n, i, events) + One(n[i].Pending())
    decreases |events|
  {
    if events == [] {
    } else {
      var e := events[0];
      assert e in events;
      SendingUsesUpPending(n[i], e);
      SendsAreEarned(n[e.at := React(n[e.at], e)], i, events[1..]);
    }
  }

  function TotalSent(n: Network, events: seq<Event>, upto: nat): nat
    requires OnNetwork(events, n) && upto <= |n|
  {
    if upto == 0 then 0 else TotalSent(n, events, upto - 1) + SentBy(n, upto - 1, events)
  }

  function TotalEarned(n: Network, events: seq<Event>, upto: nat): nat
    requires OnNetwork(events, n) && upto <= |n|
  {
    if upto == 0 then 0
    else TotalEarned(n, events, upto - 1) + EarnedBy(n, upto - 1, events) + One(n[upto - 1].Pending())
  }

  /** Over the whole network: broadcasts never outnumber user copies, switch-ons,
      and the clipboards that were full to begin with. */
  lemma {:induction false} BroadcastsAreBounded(n: Network, events: seq<Event>, upto: nat)
    requires OnNetwork(events, n) && upto <= |n|
    ensures TotalSent(n, events, upto) <= TotalEarned(n, events, upto)
  {
    if upto == 0 {
    } else {
      BroadcastsAreBounded(n, events, upto - 1);
      SendsAreEarned(n, upto - 1, events);
    }
  }

  /** After a remote update has been applied, the machine sends nothing until its
      own user copies or sharing is turned on again, however often it polls and
      whatever else arrives. */
  lemma UpdateIsNeverEchoed(n: Network, i: nat, data: ClipboardData, events: seq<Event>)
    requires i < |n| && OnNetwork(events, n) && n[i].Update(data, true).1.Ok?
    requires EarnedBy(n[i := n[i].Update(data, true).0], i, events) == 0
    ensures SentBy(n[i := n[i].Update(data, true).0], i, events) == 0
  {
    SendsAreEarned(n[i := n[i].Update(data, true).0], i, events);
  }

  /** A copy made while sharing is on is sent by the next poll that can read it,
      unless it is unfit to travel or is what was synced last. */
  lemma NewCopyIsSentOnce(m: Manager, data: ClipboardData)
    requires m.enabled
    ensures var copied := React(m, UserSets(0, Some(data)));
            var (polled, r) := copied.Poll(true);
            && r == Ok(if data.Valid() && m.lastSynced != Some(data) then Some(data) else None)
            && polled.Poll(true) == (polled, Ok(None))
  {
  }

  // ---- What reaches the clipboards ----

  /** An update is applied exactly when sharing is on, the payload is fit, and the
      system takes it; then the clipboard holds it and it is not sent back.
      Otherwise nothing changes. */
  lemma UpdatesReachTheClipboard(m: Manager, data: ClipboardData, writable: bool)
    ensures var (n, r) := m.Update(data, writable);
            && (r.Ok? <==> m.enabled && data.Valid() && writable)
            && (r.Ok? ==>
                  && n.content == Some(data) && n.enabled
                  && forall readable :: n.Poll(readable) == (n, if readable then Ok(None) else Err(Platform)))
            && (r.Err? ==>
                  && n == m
                  && r.error == if !m.enabled then Disabled else if !data.Valid() then Validation else Platform)
  {
  }

  /** A poll never touches the clipboard, and finds something to send exactly when
      the clipboard can be read and holds something fit that was not synced last.
      Fit or not, what it read counts as synced from then on. */
  lemma PollsFindWhatIsNew(m: Manager, readable: bool)
    ensures var (n, r) := m.Poll(readable);
            && n.content == m.content && n.enabled == m.enabled
            && n.lastSynced == (if m.enabled && readable && m.content.Some? then m.content else m.lastSynced)
            && (r.Err? <==> !m.enabled || !readable)
            && (r.Err? ==> n == m && r.error == if m.enabled then Platform else Disabled)
            && forall data :: r == Ok(Some(data)) <==>
                 m.enabled && readable && m.content == Some(data) && m.lastSynced != Some(data) && data.Valid()
  {
  }

  /** What may travel, either way: up to 64 mebibytes, and of an image exactly four
      bytes for every pixel. */
  lemma OnlyFitPayloadsTravel(m: Manager, data: ClipboardData)
    requires m.enabled && m.content == Some(data) && m.lastSynced != Some(data)
    ensures m.Update(data, true).1.Ok? <==> m.Poll(true).1 == Ok(Some(data))
    ensures m.Update(data, true).1.Ok? <==>
            match data
            case Text(text) => |text| <= 0x400_0000
            case Image(width, height, bytes) => |bytes| == 4 * (width * height) <= 0x400_0000
  {
    if data.Image? {
      assert data.width * data.height * 4 == 4 * (data.width * data.height);
    }
  }

  /** While sharing is off nothing is read, written or sent, whatever is tried; what
      was synced is forgotten, so that turning it on sends what is there. */
  lemma NothingHappensWhileOff(m: Manager, data: ClipboardData, readable: bool, writable: bool)
    ensures var off := m.SetEnabled(false);
            && off.content == m.content
            && off.Poll(readable) == (off, Err(Disabled)) && off.Update(data, writable) == (off, Err(Disabled))
            && off.SetEnabled(true).Poll(true).1
               == Ok(if m.content.Some? && m.content.value.Valid() then m.content else None)
    ensures m.enabled ==> m.SetEnabled(true) == m
  {
  }

  /** What the machines of a closed network do: their users copy, sharing is turned
      on and off, and one of them polls and the others hear of what it found. */
  datatype Act =
    | Copies(at: nat, contents: Option<ClipboardData>)
    | Turns(at: nat, on: bool)
    | Shares(at: nat, readable: bool, writes: set<nat>)

  /** One machine polls; what it found, if anything, is applied at all the others,
      those in `writes` being able to take it. */
  function Share(n: Network, at: nat, readable: bool, writes: set<nat>): Network
    requires at < |n|
  {
    var (m, r) := n[at].Poll(readable);
    if r.Ok? && r.value.Some? then
      seq(|n|, i requires 0 <= i < |n| => if i == at then m else n[i].Update(r.value.value, i in writes).0)
    else n[at := m]
  }

  function Perform(n: Network, a: Act): Network {
    if a.at >= |n| then n else
    match a
    case Copies(at, contents) => n[at := n[at].(content := contents)]
    case Turns(at, on) => n[at := n[at].SetEnabled(on)]
    case Shares(at, readable, writes) => Share(n, at, readable, writes)
  }

  function PerformAll(n: Network, acts: seq<Act>): Network
    decreases |acts|
  {
    if acts == [] then n else PerformAll(Perform(n, acts[0]), acts[1..])
  }

  /** Everyone who shares holds this, and has nothing to send. */
  ghost predicate Agreed(n: Network, data: ClipboardData) {
    forall i | 0 <= i < |n| && n[i].enabled :: n[i].content == n[i].lastSynced == Some(data)
  }

  /** The act gives nobody anything new. */
  predicate BringsNothing(a: Act) {
    (a.Turns? && !a.on) || a.Shares?
  }

  /** When a machine sends what it found and everyone who shares can take it, they
      all hold it, and those who do not share keep what they had. */
  lemma SharingReachesEveryone(n: Network, at: nat, readable: bool, writes: set<nat>)
    requires at < |n| && n[at].Poll(readable).1.Ok? && n[at].Poll(readable).1.value.Some?
    requires forall i | 0 <= i < |n| && n[i].enabled && i != at :: i in writes
    ensures var data := n[at].Poll(readable).1.value.value;
            var after := Share(n, at, readable, writes);
            && n[at].content == Some(data) && |after| == |n| && Agreed(after, data)
            && forall i | 0 <= i < |n| && !n[i].enabled :: after[i] == n[i]
  {
    PollsFindWhatIsNew(n[at], readable);
  }

  lemma PerformKeepsAgreed(n: Network, a: Act, data: ClipboardData)
    requires Agreed(n, data) && BringsNothing(a)
    ensures Agreed(Perform(n, a), data) && |Perform(n, a)| == |n|
    ensures forall i | 0 <= i < |n| :: Perform(n, a)[i].content == n[i].content
  {
    if a.Shares? && a.at < |n| {
      PollsFindWhatIsNew(n[a.at], a.readable);
    }
  }

  /** And so it stays, however often anyone polls, until a user copies something or
      turns sharing on. */
  lemma {:induction false} AgreementLasts(n: Network, acts: seq<Act>, data: ClipboardData)
    requires Agreed(n, data) && forall a | a in acts :: BringsNothing(a)
    ensures var end := PerformAll(n, acts);
            && Agreed(end, data) && |end| == |n|
            && forall i | 0 <= i < |n| :: end[i].content == n[i].content
    decreases |acts|
  {
    if acts == [] {
    } else {
      assert acts[0] in acts;
      PerformKeepsAgreed(n, acts[0], data);
      AgreementLasts(Perform(n, acts[0]), acts[1..], data);
    }
  }
}
