/** The daemon's shared state as an object, each lock-held operation updating its
    fields in place. Every method is proved to do what the function of the same
    name says, and so inherits the invariant those functions keep. */
module Daemons {
  import opened Prelude
  import opened Geometry
  import opened Layouts
  import opened Sessions
  import opened Commands
  import opened States
  import opened Names

  /** Why a setting was refused, or holds only until the daemon ends. */
  datatype SettingError = UnknownName | NotSaved

  class Daemon {
    const local: MachineId
    const screen: Screen
    const sessions: SessionManager
    var layout: VirtualLayout
    var cursor: CursorState
    var links: Links
    var placements: map<string, Edge>
    var swaps: map<string, ModifierSwap>
    var saved: Settings
    var suppressed: bool
    var warps: seq<(int, int)>

    function View(): State
      reads this, sessions, layout
    {
      State(local, screen, sessions.View(), layout.View(), cursor, links, Settings(placements, swaps),
            suppressed, warps)
    }

    constructor (local: MachineId, screen: Screen, settings: Settings)
      ensures fresh(sessions) && fresh(layout) && sessions.local == local
      ensures View() == Started(local, screen, settings) && saved == settings
    {
      this.local, this.screen := local, screen;
      sessions := new SessionManager(local);
      layout := new VirtualLayout();
      cursor := CursorState(local, ORIGIN);
      links, placements, swaps := map[], settings.placements, settings.swaps;
      saved := settings;
      suppressed, warps := false, [];
      new;
      ghost var order := RebuildLayout();
      assert forall i | 0 <= i < |order| :: order[i] in order;
    }

    method SyncSuppression()
      modifies this`suppressed
      ensures View() == old(View()).SyncSuppression()
    {
      var suppress := sessions.active.Remote?;
      if suppressed != suppress {
        suppressed := suppress;
      }
    }

    method RebuildLayout() returns (ghost order: seq<MachineId>)
      modifies this`layout, this`cursor
      ensures Lists(order, links.Keys) && fresh(layout)
      ensures View() == old(View()).RebuildLayout(order)
    {
      layout, order := BuildDesktop();
      if cursor.machine !in layout.screens {
        cursor := CursorState(local, ORIGIN);
      }
    }

    /** Iterates over the links in no particular order; `order` is the one taken. */
    method BuildDesktop() returns (l: VirtualLayout, ghost order: seq<MachineId>)
      ensures Lists(order, links.Keys) && fresh(l)
      ensures l.View() == BuildLayout(local, screen, links, order)
    {
      l := new VirtualLayout();
      var _ := l.AddMachine(Machine(local, screen));
      assert l.View() == BuildLayout(local, screen, links, []);
      hide BuildLayout;
      var todo := links.Keys;
      order := [];
      while todo != {}
        invariant fresh(l) && todo <= links.Keys
        invariant Lists(order, links.Keys - todo)
        invariant l.View() == BuildLayout(local, screen, links, order)
        modifies l
        decreases |todo|
      {
        var peer :| peer in todo;
        var _ := l.AddMachine(Machine(peer, links[peer].screen));
        var _ := l.Link(local, links[peer].edge, peer);
        ListsOneMore(order, links.Keys - todo, peer);
        BuildsOneMore(local, screen, links, order, peer);
        order := order + [peer];
        assert links.Keys - todo + {peer} == links.Keys - (todo - {peer});
        todo := todo - {peer};
      }
      assert links.Keys - todo == links.Keys;
    }

    method SyncCursorToOs(os: Option<(int, int)>)
      modifies this`cursor
      ensures View() == old(View()).SyncCursorToOs(os)
    {
      if os.Some? {
        cursor := CursorState(local, ClampToScreen(screen, os.value.0, os.value.1));
      }
    }

    method AdvanceCursor(movement: MouseDelta) returns (crossed: bool)
      modifies this, sessions
      ensures saved == old(saved)
      ensures layout == old(layout)
      ensures (View(), crossed) == old(View()).AdvanceCursor(movement)
    {
      var delta := movement;
      if cursor.machine in layout.screens && cursor.machine != local {
        delta := ScaleDelta(movement, screen, layout.screens[cursor.machine]);
      }
      var advance := layout.View().Advance(cursor, delta);
      if advance.Err? {
        cursor := CursorState(local, ORIGIN);
        return false;
      }
      if advance.value.crossing.None? {
        cursor := advance.value.cursor;
        return false;
      }
      var crossing := advance.value.crossing.value;
      var handled := sessions.HandleCrossing(crossing);
      if handled.Err? {
        return false;
      }
      cursor := advance.value.cursor;
      PlaceCursorAfterCrossing(crossing);
      return true;
    }

    method PlaceCursorAfterCrossing(crossing: Crossing)
      modifies this`links, this`warps
      ensures View() == old(View()).PlaceCursorAfterCrossing(crossing)
    {
      var x, y := crossing.entry.x, crossing.entry.y;
      if crossing.peer == local {
        warps := warps + [(x, y)];
        QueueForEveryone(CursorReturned(x, y));
      } else if crossing.peer in links {
        links := links[crossing.peer := links[crossing.peer].Queue(Warp(x, y))];
      }
    }

    method QueueForEveryone(command: PeerCommand)
      modifies this`links
      ensures links == QueueForAll(old(links), command)
    {
      var todo := links.Keys;
      while todo != {}
        invariant todo <= links.Keys == old(links).Keys
        invariant forall p | p in links :: links[p] == if p in todo then old(links)[p] else old(links)[p].Queue(command)
        decreases |todo|
      {
        var peer :| peer in todo;
        links := links[peer := links[peer].Queue(command)];
        todo := todo - {peer};
      }
    }

    method ForwardTo(peer: MachineId, event: InputEvent)
      modifies this`links
      ensures View() == old(View()).ForwardTo(peer, event)
    {
      if peer in links {
        var relabelled := links[peer].swap.Apply(event);
        links := links[peer := links[peer].Queue(Input(relabelled))];
      }
    }

    method RouteCaptured(event: InputEvent, os: Option<(int, int)>)
      modifies this, sessions
      ensures saved == old(saved)
      ensures layout == old(layout)
      ensures View() == old(View()).RouteCaptured(event, os)
    {
      var active := sessions.active;
      match active {
        case Local =>
          if event.Motion? {
            SyncCursorToOs(os);
            var _ := AdvanceCursor(event.delta);
          }
        case Remote(peer) =>
          if event.Motion? {
            var crossed := AdvanceCursor(event.delta);
            if !crossed {
              ForwardTo(peer, Pointer(cursor.position.x, cursor.position.y));
            }
          } else {
            ForwardTo(peer, event);
          }
      }
      SyncSuppression();
    }

    method YieldControlToPeer()
      modifies this, sessions
      ensures saved == old(saved)
      ensures layout == old(layout)
      ensures View() == old(View()).YieldControlToPeer()
    {
      var gaveWay := sessions.YieldControl();
      if gaveWay {
        cursor := CursorState(local, ORIGIN);
        SyncSuppression();
      }
    }

    method FollowPeerCursor(peer: MachineId, x: int, y: int)
      modifies this, sessions
      ensures saved == old(saved)
      ensures layout == old(layout)
      ensures View() == old(View()).FollowPeerCursor(peer, x, y)
    {
      if peer !in layout.screens {
        return;
      }
      var followed := sessions.FollowPeer(peer);
      if followed.Err? {
        return;
      }
      cursor := CursorState(peer, ClampToScreen(layout.screens[peer], x, y));
      SyncSuppression();
    }

    /** What the peer task's signalling arm does with one message of its stream,
        and whether the task ends with it; a hand-over of another session is
        ignored. */
    method Signalled(session: SessionId, peer: MachineId, message: ControlMessage) returns (ends: bool)
      modifies this, sessions
      ensures saved == old(saved)
      ensures layout == old(layout)
      ensures View() == OnSignal(old(View()), session, peer, message)
      ensures ends <==> message.DisconnectMessage?
    {
      ends := false;
      match message {
        case CursorWarpMessage(claimed, x, y) =>
          if claimed == session {
            YieldControlToPeer();
            warps := warps + [(x, y)];
          }
        case CursorReturnedMessage(claimed, x, y) =>
          if claimed == session {
            FollowPeerCursor(peer, x, y);
          }
        case DisconnectMessage(_) =>
          ends := true;
      }
    }

    method CleanupPeer(peer: MachineId) returns (ghost order: seq<MachineId>)
      modifies this, sessions
      ensures saved == old(saved)
      ensures Lists(order, old(links).Keys - {peer}) && fresh(layout)
      ensures View() == old(View()).CleanupPeer(peer, order)
    {
      if peer in links {
        var session := links[peer].session;
        links := links - {peer};
        var _ := sessions.Close(session);
      }
      order := RebuildLayout();
      SyncSuppression();
    }

    /** `configured`: the configuration file can be read and written. When it
        cannot, the placement holds for now all the same. */
    method SetLayout(host: string, name: string, configured: bool)
      returns (r: Result<(), SettingError>, ghost order: seq<MachineId>)
      modifies this
      ensures ParseEdge(name).Some? ==> Lists(order, links.Keys)
      ensures View() == old(View()).SetLayout(host, ParseEdge(name), order)
      ensures ParseEdge(name).None? || links == map[] ==> layout == old(layout)
      ensures ParseEdge(name).Some? && links != map[] ==> fresh(layout)
      ensures r == if ParseEdge(name).None? then Err(UnknownName) else if configured then Ok(()) else Err(NotSaved)
      ensures saved == if r.Ok? then old(saved).(placements := old(saved).placements[host := ParseEdge(name).value])
                       else old(saved)
    {
      order := [];
      var parsed := ParseEdge(name);
      if parsed.None? {
        return Err(UnknownName), order;
      }
      var edge := parsed.value;
      placements := placements[host := edge];
      PlaceLiveLinks(host, edge);
      if links != map[] {
        order := RebuildLayout();
        SyncSuppression();
      }
      if !configured {
        return Err(NotSaved), order;
      }
      saved := saved.(placements := saved.placements[host := edge]);
      return Ok(()), order;
    }

    method SetModifierSwap(host: string, name: string, configured: bool) returns (r: Result<(), SettingError>)
      modifies this
      ensures View() == old(View()).SetModifierSwap(host, ParseSwap(name)) && layout == old(layout)
      ensures r == if ParseSwap(name).None? then Err(UnknownName) else if configured then Ok(()) else Err(NotSaved)
      ensures saved == if r.Ok? then old(saved).(swaps := old(saved).swaps[host := ParseSwap(name).value])
                       else old(saved)
    {
      var parsed := ParseSwap(name);
      if parsed.None? {
        return Err(UnknownName);
      }
      swaps := swaps[host := parsed.value];
      RelabelLiveLinks(host, parsed.value);
      if !configured {
        return Err(NotSaved);
      }
      saved := saved.(swaps := saved.swaps[host := parsed.value]);
      return Ok(());
    }

    method RelabelLiveLinks(host: string, swap: ModifierSwap)
      modifies this`links
      ensures links == RelabelHost(old(links), host, swap)
    {
      var todo := links.Keys;
      while todo != {}
        invariant todo <= links.Keys == old(links).Keys
        invariant forall p | p in links ::
            links[p] == if p in todo then old(links)[p] else old(links)[p].Relabelled(host, swap)
        decreases |todo|
      {
        var peer :| peer in todo;
        if links[peer].host == host {
          links := links[peer := links[peer].(swap := swap)];
        }
        todo := todo - {peer};
      }
    }

    method PlaceLiveLinks(host: string, edge: Edge)
      modifies this`links
      ensures links == PlaceHost(old(links), host, edge)
    {
      var todo := links.Keys;
      while todo != {}
        invariant todo <= links.Keys == old(links).Keys
        invariant forall p | p in links ::
            links[p] == if p in todo then old(links)[p] else old(links)[p].Placed(host, edge)
        decreases |todo|
      {
        var peer :| peer in todo;
        if links[peer].host == host {
          links := links[peer := links[peer].(edge := edge)];
        }
        todo := todo - {peer};
      }
    }

    /** The block shared by an accepted and a dialled connection. */
    method Establish(session: SessionId, peer: MachineId, role: Role, host: string, peerScreen: Screen)
      returns (r: Result<(), SessionError>, ghost order: seq<MachineId>)
      modifies this, sessions
      ensures saved == old(saved)
      ensures match old(View()).Establish(session, peer, role, host, peerScreen, order)
              case Ok(n) => r == Ok(()) && View() == n && fresh(layout) && Lists(order, links.Keys)
              case Err(e) => r == Err(e) && View() == old(View()) && layout == old(layout)
    {
      order := [];
      var established := sessions.Establish(session, peer, role);
      if established.Err? {
        return Err(established.error), order;
      }
      var edge := if role.Target? then Left else Right;
      if host in placements {
        edge := placements[host];
      }
      var swap := Unchanged;
      if host in swaps {
        swap := swaps[host];
      }
      links := links[peer := PeerLink(host, session, role, peerScreen, edge, swap, [])];
      order := RebuildLayout();
      return Ok(()), order;
    }

    /** The command arm of a peer's task: everything queued is taken, and goes out
        coalesced; when that ends the session, so does the task. */
    method SendQueued(peer: MachineId, fails: set<nat>) returns (s: Sent)
      requires peer in links
      modifies this`links
      ensures View() == old(View()).Drain(peer)
      ensures s == TryAll(old(links)[peer].session, Coalesce(old(links)[peer].commands), fails)
    {
      var link := links[peer];
      links := links[peer := link.(commands := [])];
      s := SendBatch(link.session, link.commands, fails);
    }
  }

  lemma BuildsOneMore(local: MachineId, screen: Screen, links: Links, order: seq<MachineId>, peer: MachineId)
    requires peer in links
    ensures BuildLayout(local, screen, links, order + [peer])
            == WithPeer(BuildLayout(local, screen, links, order), local, peer, links[peer])
  {
    assert Front(order + [peer]) == order;
  }

  lemma ListsOneMore(order: seq<MachineId>, s: set<MachineId>, p: MachineId)
    requires Lists(order, s) && p !in s
    ensures Lists(order + [p], s + {p})
  {
    forall i | 0 <= i < |order| ensures order[i] != p {
      assert order[i] in order;
    }
  }
}
