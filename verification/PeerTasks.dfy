/** The tasks that serve connections: each sets up a session for its peer, runs,
    and cleans up by machine id, in any interleaving with the others. */
module PeerTasks {
  import opened Geometry
  import opened Sessions
  import opened States
  import opened Invariant

  type TaskId = nat

  /** A connection's task before it has a session, while it owns one, and after. */
  datatype Phase =
    | Connecting(peer: MachineId, role: Role, host: string, screen: Screen)
    | Owning(peer: MachineId, session: SessionId, role: Role, host: string, screen: Screen)
    | Gone

  type Tasks = map<TaskId, Phase>

  datatype System = System(d: State, tasks: Tasks)

  /** What can happen next: a connection appears, a task tries to set its session
      up, a task ends and cleans up, or anything else is done to the state that
      neither adds nor removes a link. */
  datatype Event =
    | Appears(task: TaskId, peer: MachineId, role: Role, host: string, screen: Screen)
    | SetsUp(task: TaskId, session: SessionId, order: seq<MachineId>)
    | Ends(task: TaskId, order: seq<MachineId>)
    | Otherwise(step: Step)

  ghost predicate CanHappen(s: System, e: Event) {
    match e
    case Appears(t, peer, _, _, _) => t !in s.tasks && peer != s.d.local
    case SetsUp(t, _, order) =>
      t in s.tasks && s.tasks[t].Connecting? && Lists(order, s.d.links.Keys + {s.tasks[t].peer})
    case Ends(t, order) =>
      t in s.tasks && s.tasks[t].Owning? && Lists(order, s.d.links.Keys - {s.tasks[t].peer})
    case Otherwise(step) => !step.Connected? && !step.SessionEnded? && Invariant.Possible(s.d, step)
  }

  function Happen(s: System, e: Event): System {
    match e
    case Appears(t, peer, role, host, screen) => s.(tasks := s.tasks[t := Connecting(peer, role, host, screen)])
    case SetsUp(t, session, order) =>
      if t !in s.tasks || !s.tasks[t].Connecting? then s else
      var p := s.tasks[t];
      (match s.d.Establish(session, p.peer, p.role, p.host, p.screen, order)
       case Err(_) => s.(tasks := s.tasks[t := Gone])
       case Ok(d) => System(d, s.tasks[t := Owning(p.peer, session, p.role, p.host, p.screen)]))
    case Ends(t, order) =>
      if t !in s.tasks || !s.tasks[t].Owning? then s else
      System(s.d.CleanupPeer(s.tasks[t].peer, order), s.tasks[t := Gone])
    case Otherwise(step) => s.(d := Apply(s.d, step))
  }

  /** A link was inserted by the task in this phase; only where the peer sits and
      what is queued for it may have changed since. */
  predicate InsertedBy(link: PeerLink, p: Phase) {
    p.Owning? && link.session == p.session && link.role == p.role && link.host == p.host && link.screen == p.screen
  }

  ghost predicate Owns(tasks: Tasks, t: TaskId, peer: MachineId) {
    t in tasks && tasks[t].Owning? && tasks[t].peer == peer
  }

  /** Every linked machine has one owning task, every owning task its own link,
      and no two tasks own the same machine. */
  ghost predicate OneOwnerEach(links: Links, tasks: Tasks) {
    && (forall t, peer | Owns(tasks, t, peer) :: peer in links && InsertedBy(links[peer], tasks[t]))
    && (forall t, u, peer | Owns(tasks, t, peer) && Owns(tasks, u, peer) :: t == u)
    && (forall peer | peer in links :: exists t :: Owns(tasks, t, peer))
  }

  ghost predicate Sound(s: System) {
    && Valid(s.d)
    && (forall t | t in s.tasks && !s.tasks[t].Gone? :: s.tasks[t].peer != s.d.local)
    && OneOwnerEach(s.d.links, s.tasks)
  }

  lemma NewOwner(links: Links, tasks: Tasks, t: TaskId, phase: Phase, link: PeerLink)
    requires OneOwnerEach(links, tasks) && t in tasks && !tasks[t].Owning?
    requires phase.Owning? && InsertedBy(link, phase) && phase.peer !in links
    ensures OneOwnerEach(links[phase.peer := link], tasks[t := phase])
  {
    var tasks' := tasks[t := phase];
    assert Owns(tasks', t, phase.peer);
    forall u, peer | Owns(tasks', u, peer) ensures u == t || Owns(tasks, u, peer) {}
    forall peer | peer in links ensures exists u :: Owns(tasks', u, peer) {
      var u :| Owns(tasks, u, peer);
      assert Owns(tasks', u, peer);
    }
  }

  lemma OwnerLeaves(links: Links, tasks: Tasks, t: TaskId)
    requires OneOwnerEach(links, tasks) && t in tasks && tasks[t].Owning?
    ensures OneOwnerEach(links - {tasks[t].peer}, tasks[t := Gone])
  {
    var gone, tasks' := tasks[t].peer, tasks[t := Gone];
    assert Owns(tasks, t, gone);
    forall u, peer | Owns(tasks', u, peer) ensures Owns(tasks, u, peer) && peer != gone {
      assert Owns(tasks, u, peer);
    }
    forall peer | peer in links && peer != gone ensures exists u :: Owns(tasks', u, peer) {
      var u :| Owns(tasks, u, peer);
      assert Owns(tasks', u, peer);
    }
  }

  /** A task that owns nothing may come, go, or fail without changing ownership,
      and so may whatever leaves the links' origin alone. */
  lemma SameOwners(links: Links, tasks: Tasks, links': Links, tasks': Tasks)
    requires OneOwnerEach(links, tasks)
    requires links'.Keys == links.Keys
    requires forall p, phase | p in links && InsertedBy(links[p], phase) :: InsertedBy(links'[p], phase)
    requires forall t, peer :: Owns(tasks', t, peer) <==> Owns(tasks, t, peer)
    requires forall t, peer | Owns(tasks, t, peer) :: t in tasks' && tasks'[t] == tasks[t]
    ensures OneOwnerEach(links', tasks')
  {
    forall peer | peer in links' ensures exists u :: Owns(tasks', u, peer) {
      var u :| Owns(tasks, u, peer);
      assert Owns(tasks', u, peer);
    }
  }

  lemma SetUpKeepsSound(s: System, t: TaskId, session: SessionId, order: seq<MachineId>)
    requires Sound(s) && CanHappen(s, SetsUp(t, session, order))
    ensures Sound(Happen(s, SetsUp(t, session, order)))
  {
    hide Star;
    var p := s.tasks[t];
    if s.d.Establish(session, p.peer, p.role, p.host, p.screen, order).Ok? {
      EstablishKeeps(s.d, session, p.peer, p.role, p.host, p.screen, order);
      var link := PeerLink(p.host, session, p.role, p.screen, s.d.EdgeFor(p.host, p.role), s.d.SwapFor(p.host), []);
      NewOwner(s.d.links, s.tasks, t, Owning(p.peer, session, p.role, p.host, p.screen), link);
    } else {
      SameOwners(s.d.links, s.tasks, s.d.links, s.tasks[t := Gone]);
    }
  }

  /** Nothing but setting up and cleaning up touches which links there are. */
  lemma StepKeepsLinks(d: State, step: Step)
    requires Valid(d) && Invariant.Possible(d, step) && !step.Connected? && !step.SessionEnded?
    ensures var n := Apply(d, step);
            && n.links.Keys == d.links.Keys
            && forall p, phase | p in d.links && InsertedBy(d.links[p], phase) :: InsertedBy(n.links[p], phase)
  {
    hide Star;
    match step
    case Captured(event, os) => RouteCapturedKeeps(d, event, os);
    case Placed(host, parsed, order) => SetLayoutKeeps(d, host, parsed, order);
    case ReturnArrived(peer, x, y) => assert d.FollowPeerCursor(peer, x, y).links == d.links;
    case _ =>
  }

  lemma HappenKeepsSound(s: System, e: Event)
    requires Sound(s) && CanHappen(s, e)
    ensures Sound(Happen(s, e))
  {
    hide Star;
    match e
    case Appears(t, peer, role, host, screen) =>
      SameOwners(s.d.links, s.tasks, s.d.links, s.tasks[t := Connecting(peer, role, host, screen)]);
    case SetsUp(t, session, order) => SetUpKeepsSound(s, t, session, order);
    case Ends(t, order) =>
      CleanupKeeps(s.d, s.tasks[t].peer, order);
      OwnerLeaves(s.d.links, s.tasks, t);
    case Otherwise(step) =>
      ApplyKeepsValid(s.d, step);
      StepKeepsLinks(s.d, step);
      SameOwners(s.d.links, s.tasks, Apply(s.d, step).links, s.tasks);
  }

  ghost predicate Unfolds(s: System, es: seq<Event>, end: System)
    decreases |es|
  {
    if es == [] then end == s else CanHappen(s, es[0]) && Unfolds(Happen(s, es[0]), es[1..], end)
  }

  lemma {:induction false} UnfoldKeepsSound(s: System, es: seq<Event>, end: System)
    requires Sound(s) && Unfolds(s, es, end)
    ensures Sound(end)
    decreases |es|
  {
    if es == [] {
    } else {
      HappenKeepsSound(s, es[0]);
      UnfoldKeepsSound(Happen(s, es[0]), es[1..], end);
    }
  }

  /** However accepted and dialled connections interleave, a task that ends finds
      the very link it inserted under its peer's id, closes exactly its own
      session, and leaves every other link alone. */
  lemma CleanupRemovesOwnLink(local: MachineId, screen: Screen, settings: Settings, es: seq<Event>,
                              s: System, t: TaskId, order: seq<MachineId>)
    requires Unfolds(System(Started(local, screen, settings), map[]), es, s) && CanHappen(s, Ends(t, order))
    ensures var p := s.tasks[t];
            && p.peer in s.d.links && InsertedBy(s.d.links[p.peer], p)
            && (forall u :: Owns(s.tasks, u, p.peer) <==> u == t)
            && var closed := s.d.sessions.Close(s.d.links[p.peer].session);
            && closed.Ok? && closed.value.byPeer == s.d.sessions.byPeer - {p.peer}
            && closed.value.sessions == s.d.sessions.sessions - {p.session}
            && Happen(s, Ends(t, order)).d.links == s.d.links - {p.peer}
            && Happen(s, Ends(t, order)).d.sessions == closed.value
  {
    StartedIsValid(local, screen, settings);
    UnfoldKeepsSound(System(Started(local, screen, settings), map[]), es, s);
    var p := s.tasks[t];
    assert Owns(s.tasks, t, p.peer);
    CleanupKeeps(s.d, p.peer, order);
    CloseRemovesOne(s.d.sessions, p.session);
  }
}
