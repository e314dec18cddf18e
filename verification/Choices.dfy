/** What the user chose for a host, and how long it holds: where its machine sits
    and how its modifier keys are relabelled, now and whenever it connects again. */
module Choices {
  import opened Prelude
  import opened Geometry
  import opened Layouts
  import opened Sessions
  import opened Commands
  import opened States
  import opened Invariant

  /** Whoever is connected from `host` sits past `e`, in the links and in the
      layout, and so will whoever connects from it next. */
  ghost predicate SitsPast(d: State, host: string, e: Edge) {
    && LinksSay(d, host, e)
    && forall p | p in d.links && d.links[p].host == host :: d.layout.Neighbor(p, Opposite(e)) == Some(d.local)
  }

  ghost predicate LinksSay(d: State, host: string, e: Edge) {
    && host in d.settings.placements && d.settings.placements[host] == e
    && forall p | p in d.links && d.links[p].host == host :: d.links[p].edge == e
  }

  /** Keys for whoever is connected from `host` are relabelled by `swap`, and will
      be for whoever connects from it next. */
  ghost predicate KeysGoBy(d: State, host: string, swap: ModifierSwap) {
    && host in d.settings.swaps && d.settings.swaps[host] == swap
    && forall p | p in d.links && d.links[p].host == host :: d.links[p].swap == swap
  }

  predicate Places(s: Step, host: string) {
    s.Placed? && s.host == host && s.parsed.Some?
  }

  predicate Relabels(s: Step, host: string) {
    s.Relabelled? && s.host == host && s.swap.Some?
  }

  // ---- One step ----

  /** A link with the same origin and the same choices as another. */
  predicate SameChoices(link: PeerLink, link': PeerLink) {
    link'.host == link.host && link'.edge == link.edge && link'.swap == link.swap
  }

  /** Steps that choose nothing and connect nobody. */
  predicate Ordinary(s: Step) {
    !s.Placed? && !s.Relabelled? && !s.Connected?
  }

  lemma OrdinaryStepsChooseNothing(d: State, s: Step)
    requires Valid(d) && Invariant.Possible(d, s) && Ordinary(s)
    ensures var n := Invariant.Apply(d, s);
            && n.settings == d.settings && n.links.Keys <= d.links.Keys
            && forall p | p in n.links :: SameChoices(d.links[p], n.links[p])
  {
    hide Valid, State.RouteCaptured;
    match s
    case Captured(event, os) => RouteCapturedKeeps(d, event, os);
    case WarpArrived(x, y) => TakenOverKeeps(d, x, y);
    case ReturnArrived(peer, x, y) => FollowKeeps(d, peer, x, y);
    case SessionEnded(peer, order) => CleanupKeeps(d, peer, order);
    case _ =>
  }

  /** In a valid state a link's edge is where its machine sits in the layout. */
  lemma SitsWhereItsLinkSays(d: State, p: MachineId)
    requires Valid(d) && p in d.links
    ensures d.layout.Neighbor(p, Opposite(d.links[p].edge)) == Some(d.local)
    ensures d.layout.Neighbor(d.local, d.links[p].edge).Some?
  {
    var e := d.links[p].edge;
    assert PlacedAt(d.layout.Neighbor(d.local, e), e, d.links, d.links.Keys);
  }

  lemma SitsPastIfLinksSay(d: State, host: string, e: Edge)
    requires Valid(d) && LinksSay(d, host, e)
    ensures SitsPast(d, host, e)
  {
    hide Valid;
    forall p | p in d.links && d.links[p].host == host
      ensures d.layout.Neighbor(p, Opposite(e)) == Some(d.local)
    {
      SitsWhereItsLinkSays(d, p);
    }
  }

  /** From `d` to `n`, nothing was chosen for this host. */
  ghost predicate Keeps(d: State, n: State, host: string, e: Edge, swap: ModifierSwap) {
    && (LinksSay(d, host, e) ==> LinksSay(n, host, e))
    && (KeysGoBy(d, host, swap) ==> KeysGoBy(n, host, swap))
  }

  lemma PlacingKeepsOthers(d: State, other: string, parsed: Option<Edge>, order: seq<MachineId>, host: string, e: Edge,
                           swap: ModifierSwap)
    requires Valid(d) && Invariant.Possible(d, Placed(other, parsed, order))
    ensures var n := d.SetLayout(other, parsed, order);
            && (KeysGoBy(d, host, swap) ==> KeysGoBy(n, host, swap))
            && (other != host || parsed.None? ==> Keeps(d, n, host, e, swap))
  {
    hide Valid, State.SetLayout;
    SetLayoutKeeps(d, other, parsed, order);
  }

  lemma RelabellingKeepsOthers(d: State, other: string, parsed: Option<ModifierSwap>, host: string, e: Edge,
                               swap: ModifierSwap)
    requires Valid(d)
    ensures var n := d.SetModifierSwap(other, parsed);
            && (LinksSay(d, host, e) ==> LinksSay(n, host, e))
            && (other != host || parsed.None? ==> Keeps(d, n, host, e, swap))
  {
    hide Valid, State.SetModifierSwap;
    SetModifierSwapKeeps(d, other, parsed);
  }

  lemma ConnectingKeepsAll(d: State, s: Step, host: string, e: Edge, swap: ModifierSwap)
    requires Valid(d) && Invariant.Possible(d, s) && s.Connected?
    ensures Keeps(d, Invariant.Apply(d, s), host, e, swap)
  {
    hide Valid, State.Establish;
    if d.Establish(s.session, s.peer, s.role, s.host, s.screen, s.order).Ok? {
      EstablishKeeps(d, s.session, s.peer, s.role, s.host, s.screen, s.order);
    }
  }

  lemma StepKeepsLinksSaying(d: State, s: Step, host: string, e: Edge, swap: ModifierSwap)
    requires Valid(d) && Invariant.Possible(d, s)
    ensures LinksSay(d, host, e) && !Places(s, host) ==> LinksSay(Invariant.Apply(d, s), host, e)
    ensures KeysGoBy(d, host, swap) && !Relabels(s, host) ==> KeysGoBy(Invariant.Apply(d, s), host, swap)
  {
    if s.Placed? {
      hide Valid, LinksSay, KeysGoBy;
      PlacingKeepsOthers(d, s.host, s.parsed, s.order, host, e, swap);
    } else if s.Relabelled? {
      hide Valid, LinksSay, KeysGoBy;
      RelabellingKeepsOthers(d, s.host, s.swap, host, e, swap);
    } else if s.Connected? {
      hide Valid, LinksSay, KeysGoBy, Invariant.Apply;
      ConnectingKeepsAll(d, s, host, e, swap);
    } else {
      hide Valid, Invariant.Apply;
      OrdinaryStepsChooseNothing(d, s);
    }
  }

  lemma StepKeepsChoices(d: State, s: Step, host: string, e: Edge, swap: ModifierSwap)
    requires Valid(d) && Invariant.Possible(d, s)
    ensures SitsPast(d, host, e) && !Places(s, host) ==> SitsPast(Invariant.Apply(d, s), host, e)
    ensures KeysGoBy(d, host, swap) && !Relabels(s, host) ==> KeysGoBy(Invariant.Apply(d, s), host, swap)
  {
    hide Valid, Invariant.Apply, LinksSay, KeysGoBy;
    ApplyKeepsValid(d, s);
    StepKeepsLinksSaying(d, s, host, e, swap);
    if LinksSay(Invariant.Apply(d, s), host, e) {
      SitsPastIfLinksSay(Invariant.Apply(d, s), host, e);
    }
  }

  // ---- Whole runs ----

  lemma {:induction false} ChoicesLast(d: State, steps: seq<Step>, end: State, host: string, e: Edge,
                                       swap: ModifierSwap)
    requires Valid(d) && Runs(d, steps, end)
    ensures SitsPast(d, host, e) && (forall s | s in steps :: !Places(s, host)) ==> SitsPast(end, host, e)
    ensures KeysGoBy(d, host, swap) && (forall s | s in steps :: !Relabels(s, host)) ==> KeysGoBy(end, host, swap)
    decreases |steps|
  {
    hide Valid, Invariant.Apply, SitsPast, KeysGoBy;
    if steps == [] {
    } else {
      assert steps[0] in steps;
      ApplyKeepsValid(d, steps[0]);
      StepKeepsChoices(d, steps[0], host, e, swap);
      ChoicesLast(Invariant.Apply(d, steps[0]), steps[1..], end, host, e, swap);
    }
  }

  /** Once a host is placed, everyone connected from it sits past that edge, through
      any run in which it is not placed again, whoever comes and goes: those
      connected then, and those that connect later. */
  lemma PlacementLasts(d: State, host: string, e: Edge, order: seq<MachineId>, steps: seq<Step>, end: State)
    requires Valid(d) && Lists(order, d.links.Keys)
    requires Runs(d.SetLayout(host, Some(e), order), steps, end) && forall s | s in steps :: !Places(s, host)
    ensures SitsPast(end, host, e)
  {
    hide Valid, State.SetLayout;
    SetLayoutKeeps(d, host, Some(e), order);
    var n := d.SetLayout(host, Some(e), order);
    SitsPastIfLinksSay(n, host, e);
    ChoicesLast(n, steps, end, host, e, Unchanged);
  }

  /** And so it is with relabelling. */
  lemma RelabellingLasts(d: State, host: string, swap: ModifierSwap, steps: seq<Step>, end: State)
    requires Valid(d)
    requires Runs(d.SetModifierSwap(host, Some(swap)), steps, end) && forall s | s in steps :: !Relabels(s, host)
    ensures KeysGoBy(end, host, swap)
  {
    hide Valid, State.SetModifierSwap;
    SetModifierSwapKeeps(d, host, Some(swap));
    ChoicesLast(d.SetModifierSwap(host, Some(swap)), steps, end, host, Left, swap);
  }

  /** A host nobody placed is found where its role puts it, by default. */
  lemma UnplacedHostsSitByRole(d: State, session: SessionId, peer: MachineId, role: Role, host: string, screen: Screen,
                               order: seq<MachineId>)
    requires Valid(d) && peer != d.local && Lists(order, d.links.Keys + {peer})
    requires d.Establish(session, peer, role, host, screen, order).Ok? && host !in d.settings.placements
    ensures var n := d.Establish(session, peer, role, host, screen, order).value;
            n.layout.Neighbor(peer, if role == Target then Right else Left) == Some(d.local)
  {
    hide Valid, State.Establish;
    EstablishKeeps(d, session, peer, role, host, screen, order);
    SitsWhereItsLinkSays(d.Establish(session, peer, role, host, screen, order).value, peer);
  }

  /** A daemon starts with exactly what was saved, nobody connected, and its input
      and its cursor at home. */
  lemma StartsAsSaved(local: MachineId, screen: Screen, settings: Settings)
    ensures var d := Started(local, screen, settings);
            && Valid(d) && d.settings == settings && d.links == map[] && d.warps == []
            && d.local == local && d.screen == screen
            && d.sessions.active == Local && d.cursor == CursorState(local, Point(0, 0)) && !d.suppressed
            && d.layout.screens == map[local := screen] && d.layout.links == map[]
  {
    StartedIsValid(local, screen, settings);
  }
}
