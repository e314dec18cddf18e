# Verified model of the shared-cursor daemon

A Dafny model of a program that shares one keyboard and mouse between machines: each machine runs a daemon,
and pushing the cursor past a screen edge hands input over to the machine placed there.

The centre of the model is the state the daemon guards with one lock (`State.dfy`, `Daemon.dfy`) and the
protocol two daemons run over it (`HandOver.dfy`). Around it stand the geometry it relies on and the stream
algorithms that feed it. Every operation of the daemon is given twice: as a method of a class that updates its
fields in place, and as a function of the state's value that the method is proved to compute. The laws are then
proved of the functions, for all inputs, all runs and, in the protocol, all interleavings.

| file | what it holds |
|---|---|
| `Prelude.dfy` | machine integers, casts, division rounding towards zero |
| `Geometry.dfy`, `Layout.dfy` | rescaling of movements; the virtual desktop and moving the cursor across it |
| `Session.dfy`, `Commands.dfy`, `Names.dfy` | the session manager; input events, relabelling, commands for a peer, their batching and sending; the words settings are named by |
| `State.dfy`, `Daemon.dfy` | the locked state as a value, and as an object updated in place |
| `Invariant.dfy` | the joint invariant, kept by every operation and every run |
| `Choices.dfy` | what the user chose for a host, and how long it holds |
| `Delivery.dfy`, `Homeward.dfy` | what captured input turns into; getting the cursor home, and away |
| `HandOver.dfy`, `Contention.dfy` | two daemons with one queue each way: who is in control, and how they can disagree |
| `Network.dfy` | any number of machines that hand the cursor over one at a time |
| `PeerTasks.dfy` | connections set up and cleaned up in any interleaving |
| `Scroll.dfy`, `RateLimit.dfy`, `Clipboard.dfy`, `Trust.dfy`, `Framing.dfy` | the self-contained stream and store algorithms |

What the model assumes: screen sides are 1 to 2^31 - 1 (a clamp to an empty range panics, and positions are sent
as signed 32-bit numbers); a peer's machine id is not the local one; iterating over the links visits each once, in
an arbitrary order; the cursor position the operating system reports is arbitrary and may be missing; the control
stream is reliable and in order.

## Where the code and its comments differ

The model follows the code.

- `crates/omni-topology/src/geometry.rs:43` says an axis is rescaled by rounding to nearest; the code truncates
  towards zero, except that it never goes below one pixel. `Geometry.ScaleAxisCanRoundAway` shows an ordinary
  movement that is not rounded to the nearest, and `Geometry.ScaleAxisIsNearestIff` says exactly which are.
- The cast that follows keeps only the low 32 bits, so a large enough movement can turn round:
  `Geometry.ScaleAxisCanFlip` shows one, and `Geometry.ScaleAxisKeepsDirectionIff` says exactly which do not.
- `crates/omni-topology/src/layout.rs:78-79` says links are kept symmetric; giving an edge a new neighbour leaves
  the old neighbour's link back in place (`Layouts.RelinkingLeavesTheOldBackLink`). Linking keeps a symmetric
  layout symmetric exactly when neither edge it joins led somewhere else (`Layouts.LinkKeepsSymmetryIff`), and the
  daemon's own layout is symmetric exactly when no two peers share an edge (`Invariant.RebuiltIsSymmetricIff`).
- `crates/omni-protocol/src/control.rs:50-55` says a hand-over leaves exactly one of the two machines in control.
  That is not so when two hand-overs cross in flight. `HandOvers.ExactlyWhoIsInControl` says exactly when it holds,
  and `Contention.CrossedWarpsHappen` and `Contention.CrossedReturnsHappen` show that each exception occurs from
  every freshly set up session. Giving way to whoever crossed last, which the comment at
  `crates/omni-runtime/src/daemon.rs:1226-1227` says settles it, does so from the next uncontested hand-over on
  (`HandOvers.UncontestedHandOverSettles`).
- `crates/omni-runtime/src/trust.rs:182` says a peer is forgotten by a prefix of its fingerprint. Reading a record
  does not mind how its digits are spelled, but that comparison does: a record in upper case outlives it
  (`Trusting.UpperCaseOutlivesRemoval`). `Trusting.RemovedIsStillTrustedIff` says exactly when a removed certificate is
  still let in; those this program recorded itself are not (`Trusting.RemovedFingerprintIsNotTrusted`).

## Model

| member | source | states |
|---|---|---|
| HandOvers.ExactlyWhoIsInControl | crates/omni-runtime/src/daemon.rs:605-621 | After any run of two daemons with nothing left in flight, exactly one sends its input away unless no hand-over was ever sent or the last message each way crossed in flight and both were of one kind; both do so only after two crossed returns, neither only after no hand-over or two crossed warps |
| HandOvers.PositionsAgree | crates/omni-runtime/src/daemon.rs:1256-1276 | What each side has heard is a prefix of what the other sent, machine and position included, and every position is a real spot on the screen it names |
| HandOvers.HeedsTheHandOver | crates/omni-runtime/src/daemon.rs:1129-1144 | Acting on a hand-over message reproduces the sender's hand-over exactly, since clamping is the identity on it, and sends input to the peer exactly when the cursor returned there |
| HandOvers.ActKeepsInv | crates/omni-runtime/src/daemon.rs:1040-1147 | A captured event, a drained batch, a message read, a re-placement or a clipboard payload at either machine keeps the joint protocol invariant |
| HandOvers.RunKeepsInv | crates/omni-runtime/src/daemon.rs:1125-1147 | The same over every interleaving of the two machines' steps |
| HandOvers.CaptureKeepsSides | crates/omni-runtime/src/daemon.rs:498-539 | A captured event either changes hands and queues exactly one hand-over message for the peer, or changes nothing that is in flight |
| HandOvers.HearKeepsSides | crates/omni-runtime/src/daemon.rs:1125-1147 | Reading a message takes exactly the oldest one in flight and enters it in the receiver's history |
| HandOvers.SettingUpIsInitial | crates/omni-runtime/src/daemon.rs:886-912 | Two daemons without links, whatever happened to them before, that set one session up with each other succeed and are where these runs start |
| HandOvers.UncontestedHandOverSettles | crates/omni-runtime/src/daemon.rs:1219-1227 | Between two quiet moments of any run in which one side handed the cursor over and the other did not, any disagreement ends: exactly one machine sends its input away |
| Contention.EverythingArrives | crates/omni-runtime/src/daemon.rs:1040-1147 | From any reachable state there is a continuation in which nobody moves and everything in flight is heard, each history growing by exactly what was outstanding |
| Contention.CrossedWarpsHappen | crates/omni-protocol/src/control.rs:50-55 | From every freshly set up session some run ends quiet with neither machine sending its input away: the comment's claim fails |
| Contention.CrossedReturnsHappen | crates/omni-protocol/src/control.rs:50-55 | From every freshly set up session some run ends quiet with both machines sending their input away |
| Contention.CanCrossOver | crates/omni-runtime/src/daemon.rs:562-593 | A push as long as the screen over a peer's edge always hands input to a peer |
| Contention.CanComeBack | crates/omni-runtime/src/daemon.rs:562-593 | A push as long as the local screen towards home brings input back in one movement, whatever the two screens' sizes |
| Contention.EitherSideCanSettle | crates/omni-runtime/src/daemon.rs:1219-1227 | From every reachable quiet moment either side alone can bring that about |
| Networks.WhoIsAgreedOn | crates/omni-runtime/src/daemon.rs:605-621 | With any number of machines taking turns: bringing the cursor home leaves everyone agreed on that machine, tracking the same spot; taking it over to a peer leaves everyone agreed iff all third machines already aimed at that peer; any other event changes no one's mind |
| Networks.ThirdIsLeftBehind | crates/omni-runtime/src/daemon.rs:618-620 | With three machines or more and input local everywhere, one movement of any machine ends with nobody agreed on |
| Networks.TurnsKeepMeshed | crates/omni-runtime/src/daemon.rs:498-539 | Every run of turns keeps each machine's invariant, its links to all others, and the session each pair shares |
| Networks.CapturedMoves | crates/omni-runtime/src/daemon.rs:498-539 | A captured event forwards at most one event, or crosses and queues exactly the messages that say so, and for nobody else |
| Networks.ThreeCanMesh | crates/omni-runtime/src/daemon.rs:886-912 | Any three daemons without links can connect to form such a network |
| Invariant.EveryRunIsTracked | crates/omni-runtime/src/daemon.rs:168-179 | After any run from start-up: active is Remote(p) iff the cursor is on p and Local iff it is here, the local input is withheld iff active is Remote, layout, links and sessions name the same machines, and moving the cursor never fails |
| Invariant.RunKeepsValid | crates/omni-runtime/src/daemon.rs:108-120 | The joint invariant of links, sessions, layout, cursor and suppression survives every run |
| Invariant.ApplyKeepsValid | crates/omni-runtime/src/daemon.rs:498-621 | Every lock-held operation (routing here, the others in rows of their own) keeps the joint invariant, whatever its arguments and the order links are visited in |
| Invariant.StartedIsValid | crates/omni-runtime/src/daemon.rs:454-466 | The state at start-up meets it |
| Invariant.AdvanceCursorKeeps | crates/omni-runtime/src/daemon.rs:562-593 | The "cursor tracking lost" branch and the refused crossing are unreachable; a crossing has this machine at one end and flips the active target, and anything else only moves the cursor on its own screen |
| Invariant.CrossingHasLocalEnd | crates/omni-runtime/src/daemon.rs:454-466 | Every crossing goes from this machine to a linked peer or from a peer to this machine |
| Invariant.CrossingKeeps | crates/omni-runtime/src/daemon.rs:585-621 | Accepting a crossing keeps the invariant and changes nothing of the links but their queues |
| Invariant.RouteCapturedKeeps | crates/omni-runtime/src/daemon.rs:498-539 | Routing any captured event keeps the invariant |
| Invariant.TakenOverKeeps | crates/omni-runtime/src/daemon.rs:1228-1244 | Being taken over always ends with input local and the pointer put where the peer said; the tracked cursor goes to the corner if input was away, and stays otherwise |
| Invariant.FollowKeeps | crates/omni-runtime/src/daemon.rs:1256-1283 | Following a linked peer always succeeds and tracks the position pulled into its screen; a machine without a link changes nothing |
| Invariant.CleanupKeeps | crates/omni-runtime/src/daemon.rs:1294-1304 | Cleaning up forgets exactly that link and keeps the invariant; input and cursor come home if they were on that peer, and otherwise stay where they are |
| Invariant.SetLayoutKeeps | crates/omni-runtime/src/daemon.rs:1591-1618 | Placing a host sets exactly its own live links to the edge asked for, remembers it, and touches no other link, no session, and not the cursor; an edge not understood changes nothing; the invariant is kept however many peers share the edge |
| Invariant.SetModifierSwapKeeps | crates/omni-runtime/src/daemon.rs:1498-1519 | Relabelling for a host sets exactly its own live links to the swap asked for, remembers it, and touches nothing else; a word not understood changes nothing |
| Invariant.EstablishKeeps | crates/omni-runtime/src/daemon.rs:770-802 | A new session adds one link with an empty queue, past the edge the user placed its host at, or else left for a machine that accepted it and right for one that dialled it, relabelled as chosen; the other links, the cursor and the target stay, and the invariant is kept |
| Invariant.EstablishRefusedOnlyForDuplicates | crates/omni-session/src/session.rs:135-152 | Establishing fails exactly when that peer or that session is already linked |
| Invariant.BuildLayoutIsStar | crates/omni-runtime/src/daemon.rs:454-466 | In whatever order the peers are visited, the rebuilt layout is exactly this machine and the peers, joined as a star |
| Invariant.RebuiltNeighbours | crates/omni-runtime/src/daemon.rs:454-466 | This machine has a neighbour on an edge iff some peer is placed there, and that neighbour is one of them; each peer's only neighbour is this machine, across the facing edge |
| Invariant.RebuiltIsSymmetricIff | crates/omni-runtime/src/daemon.rs:454-466 | All its links lead back iff no two peers sit past one edge |
| Invariant.ForwardedPositionIsOnThePeer | crates/omni-runtime/src/daemon.rs:510-528 | A movement that stays on a peer is queued for that peer alone, as one position inside its screen: the tracked one |
| Choices.PlacementLasts | crates/omni-runtime/src/daemon.rs:1591-1618 | After a host is placed at an edge, through any run that does not place it again, everyone connected from it sits past that edge, in links and layout, those connected then and those that connect later |
| Choices.RelabellingLasts | crates/omni-runtime/src/daemon.rs:1498-1519 | The same of how its modifier keys are relabelled |
| Choices.ChoicesLast | crates/omni-runtime/src/daemon.rs:776-798 | No run undoes a choice but one that chooses again for that host |
| Choices.StepKeepsChoices | crates/omni-runtime/src/daemon.rs:776-798 | Nor does any one step |
| Choices.UnplacedHostsSitByRole | crates/omni-runtime/src/daemon.rs:893-896 | A host nobody placed reaches this machine over its right edge if it was accepted, over its left if it was dialled |
| Choices.StartsAsSaved | crates/omni-runtime/src/daemon.rs:255-262 | A daemon starts with exactly the saved choices, nobody connected, input and cursor at home |
| Delivery.NothingMeantIsLost | crates/omni-runtime/src/daemon.rs:498-539 | From the moment a session is set up, over any run that leaves it up: the keys, buttons and scrolls sent to a peer are exactly those captured while input was going to it, relabelled as then chosen, each once and in order |
| Delivery.EveryActionIsSentOnce | crates/omni-runtime/src/daemon.rs:1040-1096 | At every point of such a run: sent plus still queued equals captured for it |
| Delivery.CrossingTells | crates/omni-runtime/src/daemon.rs:605-621 | A crossing to a peer queues one message at the tracked spot for that peer and nobody else; a crossing home queues one for every peer and puts this machine's own pointer there |
| Delivery.LocalMoveStartsWhereTheOsIs | crates/omni-runtime/src/daemon.rs:543-558 | While input is local a movement starts from the operating system's cursor pulled into the screen, unscaled, and changes hands exactly when the layout says it crosses |
| Delivery.LocalMoveStartsWhereItIsTracked | crates/omni-runtime/src/daemon.rs:543-548 | Without a position from the operating system it starts from where the cursor is tracked |
| Delivery.OtherInputGoesOneWay | crates/omni-runtime/src/daemon.rs:502-535 | Keys, buttons and scrolls change nothing while input is local, and otherwise add exactly themselves, relabelled, to the queue of the machine that has the cursor |
| Delivery.OtherSessionsAreIgnored | crates/omni-runtime/src/daemon.rs:1129-1144 | A hand-over message of another session changes nothing |
| Homeward.GetsHome | crates/omni-runtime/src/daemon.rs:562-593 | From anywhere on a peer, among captured events whose movements all point home and survive scaling, with other components and other events arbitrary, input is back local within (pixels to the home edge + 1) movements |
| Homeward.LeavesOnceTheyAddUp | crates/omni-runtime/src/daemon.rs:498-593 | Without any position from the operating system, movements towards an edge with a peer take the cursor off this machine once their parts that way add up to more than the pixels left |
| Homeward.StaysUntilTheyAddUp | crates/omni-runtime/src/daemon.rs:498-593 | And, going straight there, not before |
| Homeward.OneMoveAway | crates/omni-runtime/src/daemon.rs:562-593 | One such movement crosses or comes closer by all of its part that way; a straight one crosses iff that part exceeds the pixels left |
| Homeward.OneMoveCloser | crates/omni-runtime/src/daemon.rs:562-593 | A movement towards home arrives iff its scaled part exceeds the distance left, and otherwise shortens that distance by exactly that part; it makes progress iff its direction survives scaling |
| Homeward.OnlyWayOutIsHome | crates/omni-topology/src/layout.rs:126-164 | On a peer, a movement crosses iff it overruns the home edge, however far it overruns any other, and only to this machine |
| Homeward.ScaledStaysToward | crates/omni-topology/src/geometry.rs:36-41 | A scaled movement still points home iff the part along the home axis survives scaling |
| PeerTasks.CleanupRemovesOwnLink | crates/omni-runtime/src/daemon.rs:1294-1304 | In any interleaving of accepted and dialled connections, the task that ends owns the link it removes by machine id, is the only task that does, closes its own session successfully, and touches no other |
| PeerTasks.HappenKeepsSound | crates/omni-runtime/src/daemon.rs:770-827 | Connecting, setting up, ending and every other operation keep one owning task for each link |
| PeerTasks.SetUpKeepsSound | crates/omni-runtime/src/daemon.rs:886-912 | Setting a session up makes its task the one owner of a new link, or leaves all ownership alone |
| Daemons.Daemon.constructor | crates/omni-runtime/src/daemon.rs:108-120 | A new daemon holds the starting state |
| Daemons.Daemon.SyncSuppression | crates/omni-runtime/src/daemon.rs:168-179 | Input is withheld exactly while it goes to a peer, nothing else changes |
| Daemons.Daemon.BuildDesktop | crates/omni-runtime/src/daemon.rs:454-461 | The loop over the links builds the layout the specification gives for the order taken |
| Daemons.Daemon.RebuildLayout | crates/omni-runtime/src/daemon.rs:454-466 | The layout is replaced by the one built from the links, and a cursor left on a machine that is gone comes home |
| Daemons.Daemon.SyncCursorToOs | crates/omni-runtime/src/daemon.rs:543-548 | The tracked cursor becomes the clamped position of the operating system's, if there is one |
| Daemons.Daemon.AdvanceCursor | crates/omni-runtime/src/daemon.rs:562-593 | Does in place what the specification says, on every branch including the failing ones |
| Daemons.Daemon.PlaceCursorAfterCrossing | crates/omni-runtime/src/daemon.rs:605-621 | Puts the local pointer and tells every peer, or tells the one entered |
| Daemons.Daemon.QueueForEveryone | crates/omni-runtime/src/daemon.rs:615-617 | The loop queues the message for every link exactly once |
| Daemons.Daemon.ForwardTo | crates/omni-runtime/src/daemon.rs:623-631 | The event is queued for that peer with its modifier keys relabelled, or dropped if it has no link |
| Daemons.Daemon.RouteCaptured | crates/omni-runtime/src/daemon.rs:498-539 | Does in place what the specification says of every captured event |
| Daemons.Daemon.YieldControlToPeer | crates/omni-runtime/src/daemon.rs:1228-1244 | Gives control up, resetting the tracked cursor only if it had any |
| Daemons.Daemon.FollowPeerCursor | crates/omni-runtime/src/daemon.rs:1256-1283 | Follows the peer's cursor, or changes nothing without its screen or session |
| Daemons.Daemon.Signalled | crates/omni-runtime/src/daemon.rs:1125-1147 | The signalling arm acts on its own session's hand-overs and ignores others', and the task ends exactly on a request to disconnect |
| Daemons.Daemon.CleanupPeer | crates/omni-runtime/src/daemon.rs:1294-1304 | Removes the link, closes its session, rebuilds and resyncs |
| Daemons.Daemon.SetLayout | crates/omni-runtime/src/daemon.rs:1591-1618 | Refuses an unknown edge name; otherwise remembers the placement, moves live links of that host, rebuilds only when there are links, and reports whether the choice was saved |
| Daemons.Daemon.PlaceLiveLinks | crates/omni-runtime/src/daemon.rs:1602-1613 | The loop moves exactly the links of that host |
| Daemons.Daemon.SetModifierSwap | crates/omni-runtime/src/daemon.rs:1498-1538 | Refuses an unknown word; otherwise remembers the choice, relabels live links of that host, and reports whether it was saved |
| Daemons.Daemon.RelabelLiveLinks | crates/omni-runtime/src/daemon.rs:1508-1518 | The loop relabels exactly the links of that host |
| Daemons.Daemon.Establish | crates/omni-runtime/src/daemon.rs:770-802 | Sets a session up at its remembered or default edge and relabelling, or changes nothing |
| Daemons.Daemon.SendQueued | crates/omni-runtime/src/daemon.rs:1051-1096 | Takes everything queued and sends it coalesced, as far as sending works |
| Layouts.AdvanceIsCorrect | crates/omni-topology/src/layout.rs:126-164 | On a well-formed layout a move never fails and lands inside the screen it names; it crosses iff some edge is the one to leave by, namely the linked edge overrun most with ties going vertical, onto the facing side at the proportional place; otherwise it stays, clamped |
| Layouts.OverrunMeansCrossing | crates/omni-topology/src/layout.rs:140-147 | A move crosses iff it overruns some edge with a neighbour |
| Layouts.AtMostOneWayOut | crates/omni-topology/src/layout.rs:140-147 | The edge to leave by is unique |
| Layouts.ChosenIsTheWayOut | crates/omni-topology/src/layout.rs:136-147 | The search over the two overrun edges finds exactly it |
| Layouts.AdvanceStaysTracked | crates/omni-topology/src/layout.rs:126-164 | A move changes machine only across a link, and its cursor is always on a known screen |
| Layouts.AdvanceFitsI64 | crates/omni-topology/src/layout.rs:131-139 | No candidate position or overrun leaves 64 signed bits |
| Layouts.CrossAndReturn | crates/omni-topology/src/layout.rs:126-213 | Straight across and straight back returns to the same machine; the coordinate along the edge never grows and loses k pixels with (k-1)(far-1) < own-1 when the far side exceeds one pixel: at most one when it is as long, none when equal |
| Layouts.ProjectIsMonotone | crates/omni-topology/src/layout.rs:206-213 | Mapping between spans never reverses an order |
| Layouts.ProjectFixesEnds | crates/omni-topology/src/layout.rs:204-213 | First goes to first, last to last, and equal spans keep every coordinate |
| Layouts.ProjectFitsU64 | crates/omni-topology/src/layout.rs:210-212 | The product never exceeds 64 unsigned bits |
| Layouts.ProjectThereAndBack | crates/omni-topology/src/layout.rs:206-213 | There and back never moves a coordinate up, and down by fewer than one plus the ratio of the spans |
| Layouts.Project | crates/omni-topology/src/layout.rs:206-213 | The result is a coordinate of the target span |
| Layouts.ProjectIsTheFloor | crates/omni-topology/src/layout.rs:206-213 | The result is the last whole coordinate not past the proportional place; outside the span counts as its ends |
| Layouts.AddingAddsOneScreen | crates/omni-topology/src/layout.rs:90-96 | A new machine adds its screen and nothing else; one that is there is refused by name |
| Layouts.LinkingChangesTwoEdges | crates/omni-topology/src/layout.rs:105-115 | Linking changes what lies past exactly two edges, and names the first machine that is missing |
| Layouts.AdvanceNeedsKnownMachines | crates/omni-topology/src/layout.rs:126-152 | Moving fails only off the map: from a machine that is not there, or onto one |
| Layouts.LinkKeepsSymmetryIff | crates/omni-topology/src/layout.rs:105-115 | On a layout whose links all lead back, linking keeps that so iff both edges it joins are free or already joined to each other |
| Layouts.RelinkingLeavesTheOldBackLink | crates/omni-topology/src/layout.rs:105-115 | Otherwise, as an example, the old neighbour still leads back |
| Layouts.VirtualLayout.AddMachine | crates/omni-topology/src/layout.rs:90-96 | Adds a screen, or refuses a duplicate and changes nothing |
| Layouts.VirtualLayout.Link | crates/omni-topology/src/layout.rs:105-115 | Links both ways, or names the unknown machine and changes nothing |
| Geometry.ScaleAxisMeaning | crates/omni-topology/src/geometry.rs:44-55 | When the result fits, sign and non-zeroness are kept and the fraction of the screen is matched to within one pixel |
| Geometry.ScaleAxisNeverOvershoots | crates/omni-topology/src/geometry.rs:44-55 | The result never exceeds the fraction covered, short of a whole pixel, and a screen without a size leaves movements alone |
| Geometry.ScaleAxisKeepsDirectionIff | crates/omni-topology/src/geometry.rs:44-55 | For all 32-bit inputs, the direction survives iff the quotient's low 32 bits read as a number of the right sign |
| Geometry.FittingMovementsSurvive | crates/omni-topology/src/geometry.rs:44-55 | Every movement whose scaled amount fits 32 bits keeps its direction |
| Geometry.ScaleAxisCanFlip | crates/omni-topology/src/geometry.rs:54 | A movement that turns round because of the cast |
| Geometry.ScaleAxisIsNearestIff | crates/omni-topology/src/geometry.rs:43-55 | For any movement between non-empty screens: no whole number of pixels is closer iff the amount fits and either is under one pixel and at least half of one, or has at most half a pixel cut off |
| Geometry.ScaleAxisCanRoundAway | crates/omni-topology/src/geometry.rs:43-48 | One pixel of three scaled to five comes out as one, and two is closer |
| Geometry.ScaleAxisIsOdd | crates/omni-topology/src/geometry.rs:44-55 | Opposite movements scale to opposite amounts |
| Geometry.ScaleAxisIsMonotone | crates/omni-topology/src/geometry.rs:44-55 | A larger movement never scales to a smaller one |
| Geometry.ScaleAxisFullScreen | crates/omni-topology/src/geometry.rs:30-31 | A move across the whole of one screen crosses the whole of the other |
| Geometry.ScaleAxisFitsI64 | crates/omni-topology/src/geometry.rs:48 | The computation stays within 64 signed bits |
| Geometry.Opposite | crates/omni-topology/src/geometry.rs:84-92 | The facing edge is another one, of the same direction |
| Sessions.EstablishAddsOne | crates/omni-session/src/session.rs:135-152 | A new session disturbs no other and not the active target; refused only when the id or the peer is taken; indexes and emitted events stay consistent |
| Sessions.CloseRemovesOne | crates/omni-session/src/session.rs:156-167 | Closing forgets exactly that session and peer and brings input home exactly when it was going there |
| Sessions.SetActiveKeeps | crates/omni-session/src/session.rs:231-237 | Retargeting keeps the indexes inverse and the events telling the whole story |
| Sessions.TargetChangesAreTold | crates/omni-session/src/session.rs:191-237 | One event for each change of target and none without one; yielding says whether input was away |
| Sessions.InputFollowsTheCursor | crates/omni-session/src/session.rs:207-228 | Input follows the cursor home, or to a peer with a session, and nobody else |
| Sessions.SessionsAreTold | crates/omni-session/src/session.rs:135-167 | Which events establishing and closing emit, in order, and why each is refused |
| Sessions.SessionManager.Establish | crates/omni-session/src/session.rs:135-152 | Does it in place, changing nothing on refusal |
| Sessions.SessionManager.Close | crates/omni-session/src/session.rs:156-167 | Does it in place, changing nothing for an unknown session |
| Sessions.SessionManager.YieldControl | crates/omni-session/src/session.rs:191-195 | Input goes local, and says whether it was not |
| Sessions.SessionManager.FollowPeer | crates/omni-session/src/session.rs:207-213 | Input goes to the peer, or nothing changes without a session |
| Sessions.SessionManager.HandleCrossing | crates/omni-session/src/session.rs:218-228 | Input follows the cursor, or nothing changes without a session |
| Sessions.SessionManager.SetActive | crates/omni-session/src/session.rs:231-237 | The target changes with one event, and not at all when it is the same |
| Commands.CoalesceMotion | crates/omni-runtime/src/daemon.rs:1192-1208 | The loop replacing the last element computes the specified coalescing |
| Commands.CoalesceKeepsMeaning | crates/omni-runtime/src/daemon.rs:1186-1191 | A receiver driven by the coalesced batch ends in the same place with the same log, each action at the same position, as by the raw batch |
| Commands.BatchingDoesNotMatter | crates/omni-runtime/src/daemon.rs:1047-1055 | The same however the stream of commands is cut into batches |
| Commands.CoalesceKeepsTheRest | crates/omni-runtime/src/daemon.rs:1192-1208 | Every other command is kept, in order; no two positions stay adjacent; the newest command stays last |
| Commands.CoalesceIsIdempotent | crates/omni-runtime/src/daemon.rs:1192-1208 | Coalescing twice changes nothing more |
| Commands.SendBatch | crates/omni-runtime/src/daemon.rs:1051-1096 | The loop sends the coalesced batch by channel, up to and including the first request to disconnect or the first failure on a stream; a position or event that cannot be sent is dropped |
| Commands.BatchKeepsHandOvers | crates/omni-runtime/src/daemon.rs:1064-1077 | Exactly the queued hand-over messages go out on the control stream, in order |
| Commands.FailuresOnlyCutShort | crates/omni-runtime/src/daemon.rs:1057-1096 | Whichever sends fail, what went out on each reliable stream is the beginning of the faultless batch, all of it unless the session ends; with no failure nothing is missing |
| Commands.SentExactly | crates/omni-runtime/src/daemon.rs:1057-1096 | Each kind of command goes out its own way, in order and unaltered, up to the one that ends the session; a failed datagram loses only itself |
| Commands.SwapIsItsOwnInverse | crates/omni-protocol/src/remap.rs:58-104 | Relabelling is its own inverse, touches key events only, and exchanges the two modifiers, in the key and in the modifiers held alike, keeping sides and everything else |
| Names.NamesReadBack | crates/omni-runtime/src/daemon.rs:1569-1587 | What an edge or a relabelling is called parses back to it, in any letter case and with any space around |
| Names.NamesExactly | crates/omni-runtime/src/daemon.rs:1569-1577 | Exactly which words name which edge and which relabelling, letter case and space around them aside |
| Names.AnyTextIsAWord | crates/omni-runtime/src/daemon.rs:1570 | Every text is a word with space around it, which is what trimming finds |
| Names.SpacesAndPrintables | crates/omni-runtime/src/daemon.rs:1570 | Blanks, tabs and line ends count as space, printable ASCII does not |
| Scrolling.TakeBalances | crates/omni-input/src/scroll.rs:43-60 | One call accounts for everything that came in, pending stays below one unit on the side of its amount, and something is cut off iff the sum leaves 32 bits |
| Scrolling.NoDenominatorNoUnits | crates/omni-input/src/scroll.rs:43-47 | A denominator of zero or less yields nothing and loses nothing |
| Scrolling.StreamBalances | crates/omni-input/src/scroll.rs:43-60 | Over any stream with positive, changing denominators: in equals out plus pending plus what clamps cut off |
| Scrolling.NothingCutWithoutClamps | crates/omni-input/src/scroll.rs:43-60 | And nothing is cut off when no sum leaves 32 bits |
| Scrolling.TruncDivNoLarger | crates/omni-input/src/scroll.rs:55-60 | Quotient, product and remainder fit 32 bits whenever the dividend does, clamped or not |
| Scrolling.TakeFitsI64 | crates/omni-input/src/scroll.rs:49-54 | The sum fits 64 signed bits |
| Scrolling.WheelDistanceSurvives | crates/omni-input/src/windows/source.rs:482-492 | For every unclamped stream of wheel events between two Windows machines, 1000 L1 in and 1000 L2 out differ by less than 120 + 1000 L2 |
| Scrolling.SameSettingLosesAtMostOne | crates/omni-input/src/windows/sink.rs:207-230 | With equal settings the totals never differ by more than one wheel unit, however long the stream |
| Scrolling.WholeIffSettingIsModest | crates/omni-input/src/windows/mod.rs:49 | The clamps act on no stream at all iff the capturing setting is at most 65 of the allowed 100 |
| Scrolling.OtherAxisUntouched | crates/omni-input/src/scroll.rs:85-96 | An event on one axis leaves the other's remainder alone |
| Scrolling.Scaled.Take | crates/omni-input/src/scroll.rs:43-60 | Yields the whole units and keeps the remainder; a denominator of zero or less yields nothing |
| Scrolling.ScrollAccumulator.TakeScaled | crates/omni-input/src/scroll.rs:85-96 | Each axis keeps its own remainder under its own denominator |
| Scrolling.WheelSource.WheelMillilines | crates/omni-input/src/windows/source.rs:482-492 | One event's distance under the machine's own setting, the rest carried |
| Scrolling.WheelSource.OnWheel | crates/omni-input/src/windows/source.rs:451-462 | Emits that distance unless it is zero |
| Scrolling.WindowsSink.InjectScroll | crates/omni-input/src/windows/sink.rs:207-230 | Injects the whole wheel units of each axis under this machine's settings and keeps the rest; a refused vertical movement skips the horizontal one |
| Scrolling.RelayVertical | crates/omni-input/src/windows/source.rs:451-456 | Hook, distance and injection together are one step of the journey the theorems are about |
| RateLimiting.AdmitsExactly | crates/omni-runtime/src/ratelimit.rs:36-46 | An event passes iff that keeps every window ending with it within burst + rate x length |
| RateLimiting.EveryWindowIsLimited | crates/omni-runtime/src/ratelimit.rs:36-46 | Every window of calls admits at most burst + rate x its length |
| RateLimiting.PassesUndroppedIff | crates/omni-runtime/src/ratelimit.rs:36-46 | A stream passes without a drop iff all its windows are within that bound |
| RateLimiting.LevelIsTightestSlack | crates/omni-runtime/src/ratelimit.rs:36-46 | What is in the bucket is the least that any window ending now has left |
| RateLimiting.GoingBackRefillsNothing | crates/omni-runtime/src/ratelimit.rs:36-46 | A call at an earlier instant finds what was left, and time runs from there |
| RateLimiting.RateLimiter.constructor | crates/omni-runtime/src/ratelimit.rs:22-29 | Starts full |
| RateLimiting.RateLimiter.AllowAt | crates/omni-runtime/src/ratelimit.rs:36-46 | One call spends a token if there is one after refilling; time going back refills nothing |
| ClipboardSharing.SendsAreEarned | crates/omni-clipboard/src/service.rs:40-107 | In any run of any network, a machine sends no more often than its user copied while sharing was on or sharing was turned on, plus once for what it began with |
| ClipboardSharing.BroadcastsAreBounded | crates/omni-runtime/src/daemon.rs:685-702 | The same summed over the whole network: no ping-pong |
| ClipboardSharing.UpdateIsNeverEchoed | crates/omni-clipboard/src/service.rs:88-107 | After applying a remote update a machine sends nothing until its own user copies or turns sharing on |
| ClipboardSharing.NewCopyIsSentOnce | crates/omni-clipboard/src/service.rs:51-84 | A copy is sent by the next poll unless unfit or already synced, and by no poll after that |
| ClipboardSharing.UpdatesReachTheClipboard | crates/omni-clipboard/src/service.rs:88-107 | An update is applied iff sharing is on, the payload is fit and the system takes it; then the clipboard holds it and no poll sends it back; otherwise nothing changes and the reason is told |
| ClipboardSharing.PollsFindWhatIsNew | crates/omni-clipboard/src/service.rs:51-84 | A poll never touches the clipboard and finds something iff it can be read and holds something fit that was not synced last |
| ClipboardSharing.OnlyFitPayloadsTravel | crates/omni-protocol/src/clipboard.rs:30-77 | What may be sent or applied: up to 64 MiB, and of an image exactly four bytes for every pixel |
| ClipboardSharing.NothingHappensWhileOff | crates/omni-clipboard/src/service.rs:40-107 | While sharing is off nothing is read, written or sent; turning it on sends what is there |
| ClipboardSharing.SharingReachesEveryone | crates/omni-runtime/src/daemon.rs:685-702 | What one machine's poll finds, everyone who shares holds once they have heard, and those who do not keep what they had |
| ClipboardSharing.AgreementLasts | crates/omni-clipboard/src/service.rs:51-107 | And so it stays, however often anyone polls, until a user copies or turns sharing on |
| ClipboardSharing.ClipboardManager.SetEnabled | crates/omni-clipboard/src/service.rs:40-46 | Turning sharing off forgets what was synced |
| ClipboardSharing.ClipboardManager.PollLocalChange | crates/omni-clipboard/src/service.rs:51-84 | What a poll returns and remembers, in each of its cases |
| ClipboardSharing.ClipboardManager.HandleRemoteUpdate | crates/omni-clipboard/src/service.rs:88-107 | What an update writes and remembers, in each of its cases |
| Trusting.AcceptedPinHolds | crates/omni-runtime/src/trust.rs:162-209 | After accepting a certificate for a host, through any operations that speak of neither, dialling the host goes on with that certificate and no other |
| Trusting.StoreStaysUnambiguous | crates/omni-runtime/src/trust.rs:115-195 | Any sequence of loads, accepts and removes keeps one record per host and per fingerprint |
| Trusting.RestartsAreHarmless | crates/omni-runtime/src/trust.rs:115-195 | While the file can be written, any run with restarts from it ends with what the operations alone lead to, in memory and on disk |
| Trusting.FailedSavesOnlyLag | crates/omni-runtime/src/trust.rs:132-195 | A failed save never stops an operation from taking effect; only the file is then as it was |
| Trusting.AcceptPins | crates/omni-runtime/src/trust.rs:162-180 | The accepted certificate's record is the only one claiming the host |
| Trusting.AcceptsExactly | crates/omni-runtime/src/trust.rs:162-180 | Accepting drops other claims to the host, lets the fingerprint's record name it, and touches no other record; without a host it adds a record only for a new fingerprint |
| Trusting.AcceptsInOrder | crates/omni-runtime/src/trust.rs:162-180 | The records left keep their order, the fingerprint's own its place, and a new one comes last |
| Trusting.RemovesExactly | crates/omni-runtime/src/trust.rs:184-195 | Removing drops exactly the records of that host and those whose fingerprint begins with the selector; the rest stay in order |
| Trusting.RemovedHostIsUnpinned | crates/omni-runtime/src/trust.rs:184-209 | A host removed by name is pinned to nothing, through any operations that do not accept it again |
| Trusting.RemovedFingerprintIsNotTrusted | crates/omni-runtime/src/trust.rs:138-195 | A certificate removed by its fingerprint, recorded as this program spells it, is not let in unasked through any operations that do not accept it again |
| Trusting.RemovedIsStillTrustedIff | crates/omni-runtime/src/trust.rs:184-195 | Otherwise it is still let in iff some record spells it another way, when no other fingerprint shares its identity |
| Trusting.UpperCaseOutlivesRemoval | crates/omni-runtime/src/trust.rs:184-195 | Such a record: the same digits in upper case |
| Trusting.StaysForgotten | crates/omni-runtime/src/trust.rs:115-195 | A host nobody claims and a fingerprint nobody recorded stay so until accepted |
| Trusting.AuthorizesExactly | crates/omni-runtime/src/trust.rs:203-269 | Dialling goes on iff every readable record of the host has that very fingerprint |
| Trusting.UnknownIsNotTrusted | crates/omni-runtime/src/trust.rs:138-147 | A fingerprint not on record is never let in unasked |
| Trusting.KeepsTheNewestInOrder | crates/omni-runtime/src/trust.rs:55-70 | The pass keeps exactly the records at which no later one names the same host, whole and in their original order |
| Trusting.KeepsTheLastRecord | crates/omni-runtime/src/trust.rs:55-70 | With distinct fingerprints, a record is kept iff no later one names its host |
| Trusting.KeepNewestKeeps | crates/omni-runtime/src/trust.rs:55-70 | The pass leaves one record per host |
| Trusting.KeepNewestNames | crates/omni-runtime/src/trust.rs:55-70 | It drops no host altogether and invents none |
| Trusting.NothingToDrop | crates/omni-runtime/src/trust.rs:55-70 | It changes nothing when there is nothing to drop |
| Trusting.RetainKeeps | crates/omni-runtime/src/trust.rs:184-195 | Removing keeps exactly the records not selected, and both kinds of uniqueness |
| Trusting.HexRoundTrip | crates/omni-runtime/src/trust.rs:72-82 | A stored fingerprint reads back as itself |
| Trusting.HexIsInjective | crates/omni-runtime/src/trust.rs:46-82 | Two fingerprints have one text only if they are the same |
| Trusting.ReadsOnlyHex | crates/omni-runtime/src/trust.rs:72-82 | What reads as bytes is their text in some letter case, signs aside, and a fingerprint's takes exactly 64 characters |
| Trusting.UpperCaseReadsBack | crates/omni-runtime/src/trust.rs:72-82 | Upper case reads back as well |
| Trusting.HexSpellsTheNumber | crates/omni-runtime/src/trust.rs:46-48 | The text spells the same number as the bytes, first digit first |
| Trusting.InboundExactly | crates/omni-runtime/src/trust.rs:138-147 | Who gets in unasked: the fingerprint on record first with its identity; another with that identity is a mismatch, and nobody else is allowed |
| Trusting.InboundGoesByEightBytes | crates/omni-runtime/src/trust.rs:38-44 | Nobody is let in or turned away as an impostor but by the first eight bytes of a recorded fingerprint; being let in takes all of them |
| Trusting.AcceptedIsTrusted | crates/omni-runtime/src/trust.rs:138-180 | An accepted peer is then trusted unless another fingerprint shares its identity |
| Trusting.TrustState.Load | crates/omni-runtime/src/trust.rs:115-130 | Starts empty without a file, refuses one that cannot be read or parsed, and otherwise collapses duplicate host pins and rewrites the file if any went |
| Trusting.TrustState.DedupHostPins | crates/omni-runtime/src/trust.rs:55-70 | The backward pass with a set of seen hosts computes it, and reports whether anything went |
| Trusting.TrustState.Accept | crates/omni-runtime/src/trust.rs:162-180 | Updates the record list in place as specified, then saves it and reports a failure to |
| Trusting.TrustState.Remove | crates/omni-runtime/src/trust.rs:184-195 | Drops the records of that host or fingerprint prefix, saves if any went, and reports both |
| Trusting.TrustState.AuthorizeServer | crates/omni-runtime/src/trust.rs:257-269 | Goes on iff the host is unpinned or pinned to this very fingerprint |
| Framing.FramesReadBack | crates/omni-transport/src/quic.rs:492-539 | The frames of any list of payloads within the limit read back to that list and then a clean end |
| Framing.MessagesReadBack | crates/omni-transport/src/quic.rs:492-539 | Where decoding undoes encoding, the messages sent read back in order, whatever follows them |
| Framing.UndecodableEndsTheReading | crates/omni-transport/src/quic.rs:532-539 | A payload that does not decode ends the reading, after all messages before it |
| Framing.WhatElseEndsTheReading | crates/omni-transport/src/quic.rs:523-531 | So do a frame over the limit, told by its size, and the end of the stream, clean only between frames |
| Framing.FailedWriteLosesOneFrame | crates/omni-transport/src/quic.rs:496-503 | A write that fails part-way leaves the reader exactly the frames before it |
| Framing.CutStreamGivesAPrefix | crates/omni-transport/src/quic.rs:523-539 | A stream cut anywhere gives exactly the payloads that arrived whole, and a clean end only where the cut falls between frames |
| Framing.OversizeIsRefusedUnread | crates/omni-transport/src/quic.rs:447-450 | A header is refused with nothing read after it iff it announces more than the limit |
| Framing.OversizeEndsTheReading | crates/omni-transport/src/quic.rs:523-539 | An oversize frame lets all earlier payloads through and none of the later ones |
| Framing.LengthRoundTrip | crates/omni-transport/src/quic.rs:447-448 | A length reads back from its four bytes |
| Framing.HeadersAreBigEndian | crates/omni-transport/src/quic.rs:497 | The first byte of a header counts most |
| Framing.ControlSender.Send | crates/omni-transport/src/quic.rs:492-505 | Writes one message's frame, or as much of it as the stream takes and reports the failure; writes nothing for a message that does not encode or fit |
| Framing.ControlReceiver.Recv | crates/omni-transport/src/quic.rs:523-539 | Reads one frame, advances past it and decodes it, or says why not |

## Left out

- HandOvers.ExactlyWhoIsInControl: covers two machines and one session that stays up.
- Networks.WhoIsAgreedOn: machines take turns, each turn being heard by everyone before the next; hand-overs that cross in flight are studied for two machines only.
- HandOvers.RunKeepsInv: a run holds no request to disconnect, no end of the connection and no failed send, since each ends the session.
- Delivery.NothingMeantIsLost: is about what is handed to the transport while sending works; datagrams may be lost on the way and the receiver's rate limiter may drop floods.
- Homeward.GetsHome: asks that each homeward component survives scaling, which every one that fits 32 bits after scaling does; others can turn round, as `Geometry.ScaleAxisCanFlip` shows.
- RateLimiting.EveryWindowIsLimited: times and levels are real numbers, so floating-point rounding is not modelled; call times do not run backwards in a stream.
- ClipboardSharing.SendsAreEarned: polls and updates are whole operations; the operating system's clipboard is read and written outside the lock, and a poll between an update's write and its bookkeeping could still echo.
- ClipboardSharing.ClipboardManager.HandleRemoteUpdate: a write either fails and leaves the clipboard as it was, or makes it read back exactly what was written.
- Trusting.StoreStaysUnambiguous: starts from records with distinct fingerprints.
- Trusting.TrustState.Load: the file's text and its parsing are not modelled, only what reading comes to; a failed write leaves the file as it was.
- Daemons.Daemon.SetLayout: the configuration file's other contents and its text are not modelled, only whether the choice reached it.
- Daemons.Daemon.Signalled: putting the local pointer is recorded in a log; a sink that fails or is missing is not modelled.
- Operating-system adapters, QUIC and TLS, certificates and hashing: foreign code; fingerprints are opaque 32-byte values.
- Heartbeats, time-outs, shutdown, notifications to subscribers, the other IPC commands, the updater and the user interfaces: plumbing and I/O.
- Key maps, desktop bounds, caps-lock taps, click counting and the Windows modifier repair: finite tables and one-branch facts.
- Role reversal of a session: changes one field that nothing here reads.
- Poisoned locks: the daemon goes on with the state as it was.
- Connection authentication, certificate checks and the handshake's version and approval exchange before a session is set up: I/O, and library behaviour.
