# ggs protocols, verified

A Dafny model of the stateful protocols and transformations of the ggs game-server
skeleton, with proofs of what they keep over every run.

## What is modelled

Five groups of modules follow the structure of the repository.

**Saving an actor's model.** `PersistProtocol` is a step system over memory (module to
versioned content), the dirty marks with the "everything" flag, the one-shot save timer,
the queue of updates of the actor's storage key, the result notifications on their way, and
the stored document. `PersistInvariants` and `PersistTheorems` hold what every step keeps,
`PersistLoads` compares runs after a failed load with runs from an empty document,
`PersistHistory` says what gets into the store, `PersistConsequences` when the store equals
memory, `PersistSaves` which saves put a content there, and `PersistRuns` has concrete runs. `PersistentActors` is the same code in place, a
class whose methods each equal one step of the protocol.

**Agents.** `LoginTakeover` interleaves the login handlers of any number of connections over
the registry of agents and the login locks, one read or write of shared state per step, with
stops from outside split into their flag and their clean-up. `LateCleanUps` says which
clean-ups do harm and what follows from them.
`AgentDirectories` is the registry and the handler in place; the object records its own
steps, so what it does is by construction a run of the protocol. `AgentShutdown` is one
agent's read loop, write loop, bounded queue and stop procedure, one access to what they share
per step and with any number of parties calling stop, early or late.

**Creation.** `CharacterCreation` interleaves lock, counts, refresh, id generation, insert and
binding of any number of requests, with lease expiry as a step of the environment;
`LeaseExpiry` says what expiry at any moment can do, `CharacterAnswers` who is answered what.
`AccountCreation` is the lock-free find, generate, upsert race.

**Framing and routing.** `PacketFraming` is the frame format as a specification;
`PacketReadWriters` holds the reading and writing code against it, with 32-bit counters and
writes taken in pieces. `NodeRouting` is the batching of cluster events and the full
synchronisation; `GroupNames` and `CharacterRouting` are the group names that agent and game
compute separately.

**Loops with exact specifications.** `LoadHooks` (binary-search insertion), `ConfigTables`
(paged reading and indexes), `ItemLedger` (64-bit item counts).

A run is a sequence of states and steps, or of steps alone. Everything outside the modelled
code (does an update succeed, in what order do notifications arrive, when does a lease
expire, how much does a write take) is a parameter of a step, so the theorems hold for every
such choice.

## Assumptions

- Updates with one storage key run in the order in which they were submitted, and a
  synchronous save waits behind those queued before it. Notifications come in any order,
  because the storage back end runs with two operation consumers
  (`app/game/internal/app/app.go:97-98`); every one is delivered while the actor runs.
- A save may reach the store although its caller is told that it failed. An update that
  is not an upsert and meets no document succeeds and stores nothing. A full update sets the
  field that holds all modules, a partial one sets single modules in it. The empty update
  extracted from a clean model (`internal/infra/actor/persist/persist.go:56-59`) can succeed
  like any other, and changes nothing.
- A load that is answered is answered truthfully. It may fail for any reason.
- Starting a timer succeeds. A handler marks what it writes before it returns.
- One storage key belongs to one actor, which is the only writer of its document.
- The login lock excludes its holders, and a player belongs to one user id. There is one login
  request per connection; `SecondLoginRegistersAStoppedAgent` and
  `SecondLoginLeavesAStaleEntry` show that this is needed. Player ids and session ids are not
  zero. The stops that a login handler itself performs are one step each, because their
  clean-up removes nothing (`HandlerStopsRemoveNothing`).
- An id counter is changed only by incrementing it. An insert that takes effect does so before
  its caller is told of a failure. The upsert of an account by user id is atomic, which rests
  on the unique index on the user id (`internal/infra/mongo/models/account.go`).
- Different node names give different node ids.
- Decrypting undoes encrypting. A read that finds too few bytes fails.

## Where the code does less than one would expect

Each entry names the exact condition under which the code does meet the expectation.

- The success notification of a save clears every mark, also the marks made after the
  save's extraction. `LostMark` is a run that ends quiet, clean and behind for good;
  `CleanAndBehindWasMarkedInAWindow` says that such a window is the only way to get there
  after every load but one that failed on a missing document (`CleanAndBehindIff`), and
  `AckKeepsCleanStoredIff` says for each notification whether it does harm. `StoredIff` says for
  every run which contents are stored.
- `LoadModel` tells its caller whether the document exists, and says so also for every failed
  load, after which the actor works on empty memory. On a missing document no save ever arrives
  (`UpsertsWhileMissingIff`, `CleanAndBehindIff`). On an existing one the first saves
  overwrite stored modules with new ones (`FailedLoadRun`, `FailedLoadFullUpdate`): stored
  versions go back, the store holds what memory never held, and a clean or stopped actor
  differs from its store. `StoredNeverGoesBackIff`, `StoredWasHeldIff`,
  `FullUpdateMayMergeIff`, `CleanIsStoredIff` and `StoppedIsStoredIff` say after which loads
  each of these cannot happen.
- The registry deletes by player id alone, and a stop raises its flag before it deletes. A
  clean-up that removes the entry of a live agent which no login is about to stop leads to two
  live agents for one player, and nothing else does (`LateCleanUpIff`, `OneAgentPerPlayer`).
- The stop signal is closed before the reason is stored, the write loop looks at the reason once,
  and a write loop that fails to write notifies nobody, so a disconnect notice can be missed
  (`NoticeIff`, `NoticeCanBeMissed`).
- A lease that expires between a refresh and the end of the insert, and no other, can break a
  cap on characters (`LateExpiryIff`).
- The game router finds no group for a player whose stored server id is not positive, while
  the agent does (`AgentAndGameAgree`).
- An event about a living node from another server than its own makes replay and
  synchronisation differ (`ReplayIsAliveIff`). Nodes named after their server never cause one
  (`ServerNodesMoveCleanly`).
- A `LoadTable` that fails after the item table leaves a new table with an old level index
  (`FailedCallIndexIff`, `ReplacesWithoutRebuildingIff`, `LevelIndexCurrentIff`).
- An addition that overflows removes the whole entry (`Conservation`, `CountIsNetIff`).
- A payload of 2^32 bytes or more is framed with a wrong length and may be cut short without an
  error (`FrameReadsBackIff`, `Write`).

## Model

| member | source | states |
|---|---|---|
| PersistConsequences.CleanAndBehindWasMarkedInAWindow | internal/infra/actor/persist/persist.go:53-146 | in every run and order of notifications, after every load but one that failed on a missing document, a key that is clean while the store is behind memory was marked between some save's extraction and that save's success notification, and not marked again since |
| PersistConsequences.CleanAndBehindIff | internal/infra/actor/persist/persist.go:32-146 | such windows are the only way to be clean and behind, in all runs, if and only if the load did not fail on a missing document |
| PersistSaves.StoredIff | internal/infra/actor/persist/persist.go:53-146 | after every load and in every run, the store holds what memory holds for a module if and only if some save that carried it was extracted after its newest write and took effect, or the store held that content from the start and no save has touched it |
| PersistSaves.KeyIsTraced | internal/infra/actor/persist/persist.go:119-132 | in every run each stored content is from the start and untouched, or is what memory held when some save that took effect was extracted |
| PersistSaves.SavedMeansUpToDate | internal/infra/actor/persist/persist.go:119-132 | from any start whose store is not ahead of memory, a content that some save carried and that took effect stays stored until the module is written again |
| PersistSaves.StopsIff | internal/infra/actor/actor.go:276-290 | a stop completes if and only if nothing was dirty or one of the four attempts of its save reports success; then the marks are gone, and otherwise everything but the store is as it was |
| PersistSaves.AttemptSucceedsIff | internal/infra/actor/persist/persist.go:100-110 | a save reports success if and only if one of its attempts does |
| PersistSaves.ExtractsTheMarked | internal/infra/actor/persist/persist.go:53-76 | an update carries exactly the marked modules, or all of them, with what memory holds, and is an upsert if and only if everything is marked |
| PersistSaves.AttemptIsOneUpdate | internal/infra/actor/persist/persist.go:95-105 | however often a save is attempted, the store ends as after one update, or as before if no attempt reached it |
| PersistSaves.SameExtraction | internal/infra/actor/persist/persist.go:119-132 | two extractions at different moments of a run have different ids |
| PersistHistory.StoredNeverGoesBack | internal/infra/actor/persist/persist.go:119-132 | from any start whose store is not ahead of memory, between any two points of a run no module leaves the store or goes back to an earlier version |
| PersistHistory.StoredNeverGoesBackIff | internal/infra/actor/persist/persist.go:32-48 | stored contents go forward only, in all runs, if and only if the load was answered or nothing was stored |
| PersistHistory.StoredWasHeldOrInherited | internal/infra/actor/persist/persist.go:53-76 | after any start, failed or not, every content queued is one that memory held at some point of the run, and every content stored is that or was stored from the start |
| PersistHistory.StoredWasHeldIff | internal/infra/actor/persist/persist.go:32-76 | every content stored is one that memory held in this run, in all runs, if and only if the load was answered or nothing was stored |
| PersistHistory.FullUpdateMayMergeIff | internal/infra/actor/persist/persist.go:56-68 | whenever a full update runs, replacing the stored modules and merging into them agree, in all runs, if and only if the load was answered or nothing was stored |
| PersistConsequences.DirtIsOnItsWay | internal/infra/actor/persist/persist.go:169-198 | whatever the load reported, a running actor with dirt has a live save timer, a queued save or a notification on its way; at most one timer lives, and it is the one in the slot |
| PersistLoads.OverlayRun | internal/infra/actor/persist/persist.go:87-146 | runs from two starts that differ in the document only can do the same steps, and their documents stay equal or differ by old modules under the new ones |
| PersistLoads.CoveredByBaseline | internal/infra/actor/persist/persist.go:32-48 | a run after a failed load of an existing document behaves as after a load of an empty one, for which the whole invariant holds |
| PersistConsequences.CleanIsStored | internal/infra/actor/persist/persist.go:178-198 | in a run without a mark inside a save's window every key is dirty or stored, and a clean model is stored exactly, except that after a failed load old modules may lie beside it |
| PersistConsequences.CleanIsStoredIff | internal/infra/actor/persist/persist.go:178-198 | without such a mark a clean model is stored exactly, in all runs, if and only if the load was answered or failed on a document without modules |
| PersistConsequences.StoppedIsStored | internal/infra/actor/actor.go:276-290 | after every load but one that failed on a missing document, a stop that completes leaves behind at most keys whose newest mark fell into a window |
| PersistConsequences.StoppedIsStoredIff | internal/infra/actor/actor.go:260-290 | without such a mark a completed stop leaves the store equal to memory, in all runs, if and only if the load was answered or failed on a document without modules |
| PersistRuns.LostMark | app/game/internal/handler/common/common.go:12-24 | a concrete run in which a mark made after the extraction is cleared and the store stays behind with nothing in flight |
| PersistRuns.FailedLoadRun | internal/infra/actor/persist/persist.go:44-47 | after any failed load there is a run whose save succeeds and whose actor stops clean, with the module overwritten in an existing document and no document where none was |
| PersistRuns.FailedLoadFullUpdate | internal/infra/actor/persist/persist.go:56-64 | after any failed load there is a run that queues a full update without any of the stored modules |
| PersistConsequences.QuietRunsComeToRest | internal/infra/actor/persist/persist.go:119-198 | whatever the load reported, left alone and without failures the system comes to rest within a number of steps known at the start, clean and with nothing in flight |
| PersistConsequences.QuietRunsSave | internal/infra/actor/persist/persist.go:119-198 | when it has come to rest the store holds every key of memory, also those that were dirty, except keys whose newest mark was made in the window of a save, past or still open at the start |
| PersistConsequences.QuietRunsSaveIff | internal/infra/actor/persist/persist.go:32-146 | a system left alone stores every key of memory outside windows, after every run, if and only if the load did not fail on a missing document |
| PersistTheorems.InvStep | internal/infra/actor/persist/persist.go:119-198 | every step of actor, timer, store and notifications keeps: one timer, dirt on its way, missing document means all dirty, unique save ids, ordered versions, and every clean key either stored or recorded as lost |
| PersistTheorems.AckOkAccounted | app/game/internal/handler/common/common.go:12-24 | a success notification removes all marks; the keys it leaves unsaved are exactly accounted to marks made since that save's extraction |
| PersistTheorems.LostHasWitness | app/game/internal/handler/common/common.go:12-24 | a key recorded as lost has an extraction, a later mark and a still later success notification of the same save in the run itself |
| PersistTheorems.StopKeepsUpToDate | internal/infra/actor/persist/persist.go:87-113 | the retries of a final save never undo a stored content, and a final save that succeeds stores the current content of every dirty key |
| PersistInvariants.TimerStep | internal/infra/actor/persist/persist.go:169-198 | every step keeps that only the slot's timer lives and that dirt is on its way |
| PersistInvariants.MarkingArmsIff | internal/infra/actor/actor.go:238-253 | marking arms the save timer if and only if it finds dirt, and never replaces an armed one |
| PersistInvariants.AbsentStep | internal/infra/actor/persist/persist.go:56-68 | every step keeps that while the document is missing everything is marked, only upserts are queued and no success is on its way |
| PersistInvariants.AttemptKeepsUpsert | internal/infra/actor/persist/persist.go:95-105 | retries that end in success leave a document if they send an upsert, and never remove one |
| PersistInvariants.ChainStep | internal/infra/actor/persist/persist.go:119-132 | every step keeps store, queue and memory ordered by version, and moves store and memory forward only |
| PersistInvariants.IdsStep | internal/infra/actor/persist/persist.go:119-145 | every step keeps that a save is in the queue or has one notification, never both, and the queue is in extraction order |
| PersistInvariants.AttemptStaysInChain | internal/infra/actor/persist/persist.go:95-112 | however the attempts of one save turn out, the store ends between what it was and memory, and holds the whole update if one succeeded |
| PersistConsequences.StoppedIsClean | internal/infra/actor/actor.go:276-290 | a stopped actor has no dirty marks, however the run went |
| PersistConsequences.MarkSurvivesFailures | internal/infra/actor/persist/persist.go:178-198 | a mark survives every step but a success notification and a completed stop, in particular all failures |
| PersistConsequences.AckKeepsCleanStoredIff | app/game/internal/handler/common/common.go:12-24 | a success notification keeps "clean means stored" if and only if every dirty key marked since that save's extraction is stored already |
| PersistConsequences.UpsertsWhileMissingIff | internal/infra/actor/persist/persist.go:32-48 | only upserts are ever sent to a missing document, in all runs, if and only if the load did not fail on a missing document |
| PersistConsequences.QuietStepWorks | internal/infra/actor/persist/persist.go:169-198 | every step of timer, store and notifications that does not fail decreases the work left |
| PersistConsequences.QuietStepExists | internal/infra/actor/persist/persist.go:169-198 | while work is left, one of those steps is possible |
| PersistentActors.PersistentActor.LoadModel | internal/infra/actor/persist/persist.go:32-48 | tries again on network errors only, up to four times; reports "exists" for every outcome but "no documents" |
| PersistentActors.PersistentActor.OnStart | internal/infra/actor/actor.go:260-274 | starts in the protocol's start state for the load's outcome: a new document is marked entirely and its save timer armed |
| PersistentActors.PersistentActor.StartSaveTimerInPlace | internal/infra/actor/persist/persist.go:169-176 | arms a timer only when the slot is free |
| PersistentActors.PersistentActor.OnModelDirtyInPlace | internal/infra/actor/actor.go:238-243 | arms the save timer if and only if there is dirt |
| PersistentActors.PersistentActor.WriteAndMark | internal/infra/actor/actor.go:245-253 | writing modules and marking a list of keys is the protocol's update step |
| PersistentActors.PersistentActor.WriteAndMarkAll | internal/infra/actor/actor.go:255-258 | writing modules and marking everything is the protocol's full update step |
| PersistentActors.PersistentActor.OnSaveTimerFired | internal/infra/actor/persist/persist.go:179-198 | frees the slot, then queues what is dirty now, or arms the timer again when the queue refuses it |
| PersistentActors.PersistentActor.ExtractModelDirty | internal/infra/actor/persist/persist.go:53-76 | yields the whole model as an upsert, or the current contents of the marked modules without upsert |
| PersistentActors.PersistentActor.HandleActorSaveResult | app/game/internal/handler/common/common.go:12-31 | success clears every mark, failure arms the save timer |
| PersistentActors.PersistentActor.ExecuteNext | internal/infra/actor/persist/persist.go:127-145 | the oldest queued update runs and its result goes out as one notification |
| PersistentActors.PersistentActor.SaveModel | internal/infra/actor/persist/persist.go:87-113 | sends one extraction until an attempt reports success, at most four times; succeeds if and only if one does, and clears the marks only then |
| PersistentActors.PersistentActor.OnStop | internal/infra/actor/actor.go:276-290 | saves if dirty, and stops if and only if it was clean or one of the four attempts reports success |
| LoginTakeover.OneAgentPerPlayer | app/agent/internal/infra/agent/hook_login.go:60-132 | with stops split into flag and clean-up, in every state reachable without a harmful clean-up two connected unstopped agents never serve one player, every registry entry names an agent of its own player that is live or being stopped, and a live agent is registered unless a login for its account holds the lock |
| LateCleanUps.LateCleanUpIff | app/agent/internal/infra/agent/agent.go:224-235 | a clean-up can lead to two live agents for one player, with no further harmful clean-up, if and only if it removes the entry of a live agent that no login has found already |
| LateCleanUps.SplitStopLetsTwoAgentsLive | app/agent/internal/agent.go:36-39 | a run from the empty registry with one harmful clean-up that ends with two connected unstopped agents for one player |
| LoginTakeover.AtomicStopsAreHarmless | app/agent/internal/infra/agent/agent.go:224-235 | when every stop is one step no clean-up does harm, the invariant holds and nobody is ever half stopped |
| LoginTakeover.HandlerStopsRemoveNothing | app/agent/internal/infra/agent/hook_login.go:78-132 | the stops inside a login handler never change the registry, whenever their clean-up runs |
| LoginTakeover.InvStep | app/agent/internal/infra/agent/hook_login.go:60-132 | every step that does no harm keeps lock ownership, entries, the account of live agents and what each handler knows in its phase |
| LoginTakeover.EntryStep | app/agent/internal/agent.go:31-48 | after every step each registry entry names an agent of that very player that has published itself and is live or being stopped |
| LateCleanUps.SecondLoginRegistersAStoppedAgent | app/agent/internal/infra/agent/hook_login.go:78-121 | a second login request for the same player on one connection finds, stops and then registers that very connection |
| LateCleanUps.SecondLoginLeavesAStaleEntry | app/agent/internal/infra/agent/hook_login.go:78-121 | a second login request for another player on one connection leaves an entry under the first player whose agent serves the second |
| LoginTakeover.StoppedIff | app/agent/internal/infra/agent/agent.go:217-235 | in every run an agent is connected if and only if its login linked it, and stopped if and only if a refused or failed login, a takeover or somebody who got it from the registry has stopped it |
| LoginTakeover.KnowsStep | app/agent/internal/infra/agent/hook_login.go:78-132 | what a handler has read stays true, or becomes irrelevant, through the steps of all other connections |
| LoginTakeover.AccountedStep | app/agent/internal/infra/agent/hook_login.go:78-132 | a live agent is always registered, about to be, retracting itself, or being taken over from by a lock holder of its player |
| LoginTakeover.LocksStep | app/agent/internal/infra/agent/hook_login.go:60-76 | whoever is inside the locked part holds the lock of its own account |
| LoginTakeover.OneHolder | app/agent/internal/infra/agent/hook_login.go:60-76 | two handlers inside the locked part for one player are the same |
| LoginTakeover.OneLive | app/agent/internal/infra/agent/hook_login.go:78-121 | two connected unstopped agents of one player are the same |
| AgentDirectories.AgentDirectory.StopProcedure | app/agent/internal/infra/agent/agent.go:224-235 | only the first stop has an effect, and only a connected agent is removed from the registry |
| AgentDirectories.AgentDirectory.OneAgentEach | app/agent/internal/agent.go:29-57 | whatever the directory has done, one live agent per player, and every entry live under its own player |
| AgentDirectories.AgentDirectory.AcceptConnection | app/agent/internal/infra/agent/agent.go:41-54 | a new connection is unconnected, unstopped and unregistered, and is one protocol step |
| AgentDirectories.AgentDirectory.StopFromOutside | app/agent/internal/app/actor.go:77-116 | a stop by a response, push, disconnect or the connection itself leaves the agent stopped and is one protocol step |
| AgentDirectories.AgentDirectory.TakeOver | app/agent/internal/infra/agent/hook_login.go:78-82 | looking up, removing and stopping a predecessor keeps every lock, and leaves the player without an entry |
| AgentDirectories.AgentDirectory.LinkAndPublish | app/agent/internal/infra/agent/hook_login.go:118-121 | afterwards the agent is the live registered one of its player |
| AgentDirectories.AgentDirectory.Abandon | app/agent/internal/infra/agent/hook_login.go:84-116 | a failure before connecting stops the agent and releases the lock |
| AgentDirectories.AgentDirectory.RetractAndStop | app/agent/internal/infra/agent/hook_login.go:123-132 | a failed forward stops the published agent, leaves the player without an entry and releases the lock |
| AgentDirectories.AgentDirectory.ConnectAndPublish | app/agent/internal/infra/agent/hook_login.go:84-132 | after the takeover the agent ends live and registered if connecting and forwarding succeed, stopped otherwise, and the lock is released |
| AgentDirectories.AgentDirectory.HandleLoginReq | app/agent/internal/infra/agent/hook_login.go:39-133 | an undisturbed login ends with the connection live and registered for the token's player exactly when token, lock, connection and forward succeed, and stopped otherwise; a lock it got is released |
| AgentShutdown.ShutdownSafety | app/agent/internal/infra/agent/agent.go:82-174 | in every interleaving the stop signal is closed at most once, a finished read loop means a stop has begun, a finished write loop means in addition a closed connection, and a begun stop has closed the signal or can |
| AgentShutdown.StopperStep | app/agent/internal/infra/agent/agent.go:224-235 | every step keeps that at most one caller ever passes the flag, and that this caller closes the signal once |
| AgentShutdown.LoopsStep | app/agent/internal/infra/agent/agent.go:82-174 | every step keeps that a loop is in the stop procedure exactly while it waits for it, that only a begun stop lets a loop end, and that the connection is closed exactly by the end of the write loop |
| AgentShutdown.FifoStep | app/agent/internal/infra/agent/agent.go:134-155 | every step keeps the queue bound and that what the write loop forwarded is the non-hooked part of what was handled |
| AgentShutdown.WrittenInOrder | app/agent/internal/infra/agent/agent.go:131-161 | the packets that the write loop forwards are the non-hooked part of a prefix of the accepted packets, in order, and of all of them when the queue is drained; the queue never exceeds ten; replies that hooks send and the disconnect notice go out on the same connection and are not counted |
| AgentShutdown.AcceptedAreReceived | app/agent/internal/infra/agent/agent.go:196-215 | what the queue has accepted is exactly what was received while there was room, in order |
| AgentShutdown.NonHookedSplits | app/agent/internal/infra/agent/agent.go:139-154 | the packets that count as forwarded are, of every part of the queue, those without a hook, in order |
| AgentShutdown.NonHookedOfLast | app/agent/internal/infra/agent/agent.go:139-154 | of one more packet, it is counted if and only if it has no hook |
| AgentShutdown.PacketGetsThrough | app/agent/internal/infra/agent/agent.go:134-154 | a packet that finds the write loop idle is forwarded with the next steps of the loop, unless a hook takes it |
| AgentShutdown.ReceiverWaitsIff | app/agent/internal/infra/agent/agent.go:208-214 | whoever brings a packet waits if and only if the queue holds ten and the signal is not closed |
| AgentShutdown.RankStep | app/agent/internal/infra/agent/agent.go:82-235 | once the signal is closed every step of any party decreases one measure |
| AgentShutdown.RankRun | app/agent/internal/infra/agent/agent.go:82-235 | the number of steps after the signal plus the measure left never exceeds the measure at the signal |
| AgentShutdown.ForcedStepExists | app/agent/internal/infra/agent/agent.go:82-174 | once a stop has begun, until both loops have ended some step is possible that nobody outside can withhold |
| AgentShutdown.StopEndsBothLoops | app/agent/internal/infra/agent/agent.go:82-174 | once a stop has begun, with any further calls of stop and finitely many packets left, the step that closes the signal stays enabled until it is taken, every continuation after it is bounded, and where no step is left that nobody can withhold both loops have ended and the connection is closed |
| AgentShutdown.NotifiesIff | app/agent/internal/infra/agent/agent.go:131-174 | in every run the write loop ends on a path that notifies if and only if it never failed to write a packet; seeing the signal and a packet that cannot be decoded both notify |
| AgentShutdown.ReasonOfTheFirstCall | app/agent/internal/infra/agent/agent.go:224-235 | the reason of a stop is the one given by the call of stop that raised the flag |
| AgentShutdown.EntersIff | app/agent/internal/infra/agent/agent.go:89-157 | a call of stop starts in exactly the steps that fail or whose hook stops the agent, for the reason given there |
| AgentShutdown.HandlesWhatItReads | app/agent/internal/infra/agent/agent.go:82-129 | every packet that is read is handled by the next step of the read loop, and by no other |
| AgentShutdown.ReadLoopGoesRound | app/agent/internal/infra/agent/agent.go:82-129 | while the signal is not closed and the connection is open the read loop can read and forward one packet and is back where it was |
| AgentShutdown.StopMayAlwaysBeCalled | app/agent/internal/infra/agent/agent.go:217-227 | anybody may call stop at any time, and a call after the first changes nothing |
| AgentShutdown.ReaderEndsIff | app/agent/internal/infra/agent/agent.go:82-129 | the read loop ends if and only if it saw the signal, or a read or a packet failed; a hook that stops the agent does not end it by itself |
| AgentShutdown.NoticeIff | app/agent/internal/infra/agent/agent.go:164-174 | the reason pushed to the client is the reason of the stop if and only if there is none, or the write loop never failed to write and the reason was stored before the loop looks at it |
| AgentShutdown.NoticeCanBeMissed | app/agent/internal/infra/agent/agent.go:164-174 | a concrete run in which a stop has a reason, stored while the connection is still open, and the write loop ends without pushing it |
| CharacterCreation.CapsNeverExceeded | app/login/internal/handlers/character.go:79-119 | for any number of concurrent requests and any expiry outside refresh-to-insert, no account has more than two characters, in all or on one server |
| CharacterCreation.RefreshMeansCountsExact | app/login/internal/handlers/character.go:107-111 | a refresh that succeeds proves that both earlier counts are still exact and below the caps |
| CharacterCreation.CountsStep | app/login/internal/handlers/character.go:201-223 | a request's counts stay exact through every step of everybody else for as long as it holds the lock |
| CharacterCreation.CapsStep | app/login/internal/handlers/character.go:243-254 | no insert by a lock holder exceeds a cap |
| CharacterCreation.InsertCounts | internal/infra/mongo/repo/character.go:22-73 | an insert raises by one exactly the counts of its account, and of its server on that account |
| CharacterCreation.IdsStep | internal/infra/mongo/repo/id_generator.go:23-37 | every step keeps generated ids different from one another and from everything stored, and not above the counter |
| CharacterCreation.BoundStep | app/login/internal/handlers/character.go:243-265 | every step keeps that inserted characters are stored and returned ids bound to their server |
| CharacterCreation.ReturnedIdsAreBound | app/login/internal/handlers/character.go:226-266 | whenever leases expire, a returned id names exactly one stored character of that account and server, is bound to that server, and is returned to nobody else |
| CharacterAnswers.AnsweredIff | app/login/internal/handlers/character.go:78-119 | in every run a request returns an id if and only if it got as far as binding one, and fails if and only if one of its steps failed |
| CharacterAnswers.IdWasDrawn | app/login/internal/handlers/character.go:234-264 | the id that a request inserts and returns is the one it drew from the counter |
| CharacterAnswers.StoredIff | app/login/internal/handlers/character.go:243-254 | a character is stored if and only if it was before or an insert of a request with that id, account and server took effect |
| CharacterAnswers.LocksAreReleased | app/login/internal/handlers/character.go:88-100 | every lock belongs to a request that is still at work: none outlives its request, answered or failed |
| CharacterAnswers.UndisturbedCreation | app/login/internal/handlers/character.go:78-119 | an undisturbed request for an account below both caps stores one new character, binds it to its server, releases the lock and returns the next id |
| LeaseExpiry.CapsHoldUndisturbed | app/login/internal/handlers/character.go:190-254 | whenever leases expire, the caps hold in every run in which no request stores a character after another one stored one of the same account since it counted |
| LeaseExpiry.LateExpiryIff | app/login/internal/handlers/character.go:107-116 | an expiry can lead to an exceeded cap, with no further late expiry, if and only if it hits a request between its refresh and the end of its insert |
| AccountCreation.CreationConverges | app/login/internal/handlers/middleware/auth.go:121-148 | in every interleaving two answered callers have the same user id if and only if they got the same account id, and no id is above the counter |
| AccountCreation.AnsweredIff | app/login/internal/handlers/middleware/auth.go:121-148 | in every run a caller gets an account if and only if one was found or its upsert reports success, and an error if and only if one of its steps failed |
| AccountCreation.CreatedIff | internal/infra/mongo/repo/account.go:38-49 | a user id has an account if and only if it had one before or some request upserted it |
| AccountCreation.UndisturbedCaller | app/login/internal/handlers/middleware/auth.go:121-148 | an undisturbed caller gets the account that exists, or a new one under the next id |
| AccountCreation.AccountsAreStable | internal/infra/mongo/repo/account.go:38-49 | an account keeps its id from any point of a run to any later one |
| AccountCreation.InvStep | internal/infra/mongo/repo/account.go:38-49 | every step keeps stored and pending ids distinct and answers equal to what is stored, and changes no existing account |
| PacketFraming.FramingIsBijective | internal/base/net/packet.go:87-130 | reading a stream to its end yields a packet list and a tail if and only if the stream is the frames of that list followed by that tail, all lengths are within the bounds and below 2^32, and the tail holds no packet |
| PacketFraming.FrameReadsBackIff | internal/base/net/packet.go:87-130 | a frame in front of any bytes reads back as its packet and those bytes if and only if its length is within the bounds and below 2^32 |
| PacketFraming.FrameIs | internal/base/net/packet.go:112-127 | a frame is the length modulo 2^32 in four bytes, most significant first, and the packet |
| PacketFraming.OutOfBoundsIsRefused | internal/base/net/packet.go:95-98 | a whole packet outside the bounds is refused by its announced length |
| PacketFraming.ReadIsFrame | internal/base/net/packet.go:87-106 | whatever reads as a packet began with exactly the frame of that packet |
| PacketFraming.TruncatedYieldsNothing | internal/base/net/packet.go:87-106 | no proper prefix of a frame yields a packet: the read fails for want of bytes, or at once when the announced length is out of bounds |
| PacketFraming.CutStreamYieldsWholePackets | internal/base/net/packet.go:87-106 | a stream cut inside its last frame yields exactly the packets before it |
| PacketFraming.HeaderRoundTrip | internal/base/net/packet.go:95-119 | a length below 2^32 survives the four-byte header |
| PacketFraming.HeaderUnique | internal/base/net/packet.go:95-119 | every four bytes are the header of exactly the length they announce |
| PacketFraming.EncryptsUpToTheFirstFailure | internal/base/net/packet.go:161-171 | the sender gets out the ciphertexts of exactly the messages before the first that cannot be encrypted or framed |
| PacketFraming.ReceivesWhatWasSent | internal/base/net/packet.go:144-171 | the receiver decrypts exactly the messages the sender got out whole, in order, even behind a partial last frame |
| PacketReadWriters.PutUint32 | internal/base/net/packet.go:118-119 | fills the header buffer with the big-endian digits |
| PacketReadWriters.Write | internal/base/net/packet.go:53-65 | below 2^32 bytes, success means everything was written, failure a prefix, and with writes that make progress it succeeds; for any size, success means that the number of bytes written is at least the length, both modulo 2^32, what is written is a prefix while it is below 2^32 bytes, and a connection that takes single bytes gets exactly the first length modulo 2^32 of them |
| PacketReadWriters.ReadAnyPacket | internal/base/net/packet.go:14-32 | consumes exactly one packet as the frame format reads it, without bounds, or fails and consumes what there is |
| PacketReadWriters.PacketReadWriter.ReadPacket | internal/base/net/packet.go:86-106 | consumes exactly one packet within the bounds as the frame format reads it; a bad length consumes the header, a truncated stream everything |
| PacketReadWriters.WriteAnyPacket | internal/base/net/packet.go:34-51 | below 2^32 bytes, success appends exactly the frame, failure a prefix of it, and with writes that make progress it succeeds; for any size what is written is a prefix of the frame while it is below 2^32 bytes, and success means the whole header and at least the length of the payload modulo 2^32 |
| PacketReadWriters.PacketReadWriter.WritePacket | internal/base/net/packet.go:108-130 | a packet outside the bounds writes nothing; otherwise the frame, or a prefix on failure |
| PacketReadWriters.PacketReadWriter.EncryptAndWritePacket | internal/base/net/packet.go:161-171 | writes the frame of the ciphertext, nothing when encrypting fails or the ciphertext is outside the bounds |
| PacketReadWriters.PacketReadWriter.ReadAndDecryptPacket | internal/base/net/packet.go:144-159 | reads one packet and yields what its payload decrypts to |
| NodeRouting.NodeSelector.UpdateEvents | app/agent/internal/infra/router/nodeselector.go:41-61 | grouping a batch and applying the groups in any order gives every group the members that applying the accepted events one at a time gives |
| NodeRouting.NodeSelector.SetNodes | app/agent/internal/infra/router/nodeselector.go:27-39 | a full synchronisation makes every group the accepted nodes listed for it; a partial one leaves unlisted groups alone |
| NodeRouting.BatchStep | app/agent/internal/infra/router/nodeselector.go:45-56 | putting one event into the batch does to every group what the event does |
| NodeRouting.SyncAgreesWithReplay | app/agent/internal/infra/router/nodeselector.go:29-61 | a full synchronisation with the nodes that a log leaves alive gives the membership that replaying the log from empty gives, for every log in which events about a living node come from its own server |
| NodeRouting.SyncAgreesForServerNodes | internal/base/nodeutil/node.go:9-22 | in particular that holds for every log of nodes that servers make for themselves |
| NodeRouting.ReplayIsAliveIff | app/agent/internal/infra/router/nodeselector.go:43-61 | replaying any log from empty gives every group exactly its living nodes, at every moment of the log, if and only if every event about a living node comes from the server it is alive on |
| NodeRouting.ReplayStepIff | app/agent/internal/infra/router/nodeselector.go:49-55 | one more event keeps replay and living nodes in step if and only if it comes from the node's own server |
| NodeRouting.ServerNodesMoveCleanly | internal/base/nodeutil/node.go:9-22 | nodes that servers make for themselves, named after the server, never change servers |
| NodeRouting.MovedNodeIsLeftBehind | app/agent/internal/infra/router/nodeselector.go:49-55 | a node not named after its server that moves without a removal stays in its old group under replay, not under synchronisation |
| GroupNames.FormatIntInjective | app/agent/internal/infra/router/nodeselector.go:76-81 | decimal printing of signed integers loses nothing |
| GroupNames.FormatIntParses | internal/base/nodeutil/node.go:9-12 | what is printed is a sign and decimal digits that read back as the number |
| GroupNames.FormatIntIs | internal/base/nodeutil/node.go:9-12 | decimal notation, one digit after the other, with a sign for negative numbers |
| GroupNames.GroupsPrintServers | app/game/internal/app/actor.go:247-253 | agent and game give every group the same name: the printed server id for game nodes, the category otherwise |
| GroupNames.OnlyPlayersHaveGroups | app/game/internal/app/actor.go:210-245 | an actor has a group if and only if it is a player with a positive server id in the routing table, and a server if and only if it has a group or is a server itself |
| GroupNames.GroupsInjective | app/agent/internal/infra/router/nodeselector.go:75-81 | game groups are equal if and only if the server ids are, and no category without a slash can clash with them |
| GroupNames.NodeNamesInjective | internal/base/nodeutil/node.go:9-12 | server node names are equal if and only if the server ids are |
| CharacterRouting.AgentAndGameAgree | app/game/internal/app/actor.go:210-253 | for every character id that creation returned, the game router's group is the agent's pick group if and only if the server id is positive, and otherwise there is none |
| CharacterRouting.SameGroupIffSameServer | app/game/internal/app/actor.go:210-253 | two returned characters on positive servers are routed to one group if and only if they live on one server |
| LoadHooks.HookRegistry.RegisterAfterLoadFunc | internal/gdconf/gdconf_load.go:174-197 | a second hook for a table is refused; otherwise the list is the stable sort by priority of all registrations and agrees with the map |
| LoadHooks.HookRegistry.Search | internal/gdconf/gdconf_load.go:191-194 | the position splits the list into priorities not above and priorities above the new one |
| LoadHooks.InsertKeepsStableSort | internal/gdconf/gdconf_load.go:191-196 | inserting behind the last hook of the same priority gives the stable sort with the new hook registered last |
| LoadHooks.StableSortUnique | internal/gdconf/gdconf_load.go:168-197 | two sorted lists with the same hooks in the same order per priority are equal |
| LoadHooks.RunOrderIsDetermined | internal/gdconf/gdconf_load.go:28-32 | the order in which hooks run is determined by the registrations alone |
| ConfigTables.LoadNormal | internal/gdconf/gdconf_load_helper.go:29-65 | for any number of documents the loop ends, succeeds exactly when every page asked for is readable, and then returns every document once in order |
| ConfigTables.InitById | internal/gdconf/Item.go:39-44 | looking up an id equals a scan for the last entry with that id |
| ConfigTables.GroupByLevel | internal/gdconf/Item_ext.go:10-16 | looking up a level equals a scan for its entries, in table order |
| ConfigTables.LastWithIdIff | internal/gdconf/Item.go:39-44 | what the id index finds is an entry with that id after which no other has it |
| ConfigTables.AtLevelSplits | internal/gdconf/Item_ext.go:11-14 | what the level index finds is, of every part of the table, what it finds in that part, in table order |
| ConfigTables.AtLevelOfOne | internal/gdconf/Item_ext.go:11-14 | of one entry the level index finds the entry if it has the level, and nothing otherwise |
| ConfigTables.UniqueIdsAreFound | internal/gdconf/Item.go:39-44 | with unique ids every entry is found under its own id |
| ConfigTables.ConfigStore.LoadOne | internal/gdconf/gdconf_load.go:132-152 | a table is replaced only when its load succeeds, the item table with its id index built from the new entries, and the other tables stay as they were |
| ConfigTables.ConfigStore.LoadNamed | internal/gdconf/gdconf_load.go:61-76 | the tables before the first failure are loaded and no other, and the level index is rebuilt only when all succeeded and the item table was among them |
| ConfigTables.ConfigStore.Load | internal/gdconf/gdconf_load.go:16-35 | succeeds exactly when there is a database and both tables can be read; without a database nothing changes |
| ConfigTables.ConfigStore.LoadTable | internal/gdconf/gdconf_load.go:37-79 | a missing database, an empty list or an unknown name anywhere in the list changes nothing |
| ConfigTables.IndexesFollowTheTable | internal/gdconf/Item_ext.go:9-22 | after any successful calls of which one named the item table, the table holds every document of the last such call once in order and both indexes equal a scan of it |
| ConfigTables.FailedCallIndexIff | internal/gdconf/gdconf_load.go:61-76 | after any call, wherever it fails, the level index is current if and only if the call rebuilt it, or left a table alone whose index was current, or replaced the table by items that the old index fits already |
| ConfigTables.ReplacesWithoutRebuildingIff | internal/gdconf/gdconf_load.go:61-76 | a call replaces the table without rebuilding its index if and only if it names the item table first and another table later, and only the item table can be loaded |
| ConfigTables.LevelIndexCurrentIff | internal/gdconf/gdconf_load.go:61-76 | after any sequence of calls over any databases, the level index is current if and only if the items it was built from and the items of the current table have the same entries at every level |
| ItemLedger.Conservation | internal/infra/actor/model/player/items.go:57-103 | what an id holds plus what overflows destroyed equals accepted additions minus successful subtractions, and nothing was destroyed if and only if no addition of the id overflowed |
| ItemLedger.CountIsNetIff | internal/infra/actor/model/player/items.go:57-103 | the count equals additions minus subtractions if and only if no addition of the id overflowed |
| ItemLedger.Ledger.OnInit | internal/infra/actor/model/player/items.go:16-19 | starts empty |
| ItemLedger.Ledger.GetNum | internal/infra/actor/model/player/items.go:26-39 | the count of an id, zero for a missing one |
| ItemLedger.Ledger.GetItem | internal/infra/actor/model/player/items.go:41-55 | the entry of an id, and no entry exactly when its count is zero |
| ItemLedger.Ledger.Add | internal/infra/actor/model/player/items.go:57-77 | the returned count is the count afterwards, other ids are untouched, entries stay well-formed, and the entry holds the true sum up to 2^63-1 and is gone exactly above |
| ItemLedger.Ledger.Sub | internal/infra/actor/model/player/items.go:79-103 | takes the whole amount exactly when the entry holds as much, and nothing otherwise; reports which, returns the count afterwards and leaves other ids untouched |

## Left out

- PacketReadWriters.Write: of a payload of 2^32 bytes or more it does not say which bytes follow once 2^32 bytes have been written and the counter has wrapped around.
- PacketReadWriters.WriteAnyPacket: likewise; `FrameReadsBackIff` says that no such payload can be read back.
- AgentShutdown.WrittenInOrder: replies that hooks send and the disconnect notice are not part of the written packets.
- CharacterCreation.CapsNeverExceeded: excludes expiry between refresh and insert; `LateExpiryIff` and `CapsHoldUndisturbed` cover it.
- ConfigTables.LoadNormal: the collection does not change between two pages of one read.
- LoadHooks.HookRegistry.RegisterAfterLoadFunc: the panic on a second registration is a refusal that changes nothing.
- The interleaved protocols (`LoginTakeover`, `AgentShutdown`, `CharacterCreation`, `AccountCreation`) are step systems over values, because their code runs in several goroutines or processes; updates inside one step are not split further.
- A dirty entry is kept as the key of its module, read when the update is extracted; the pointer itself is not modelled, nor is a module that is replaced by another object.
- Failures to serialise a model, to start a timer or to deliver a notification.
- The variant of an actor whose model has one dirty flag and no modules.
- Restarting a stopped actor, and the release of its model.
- The item map that is absent before `OnInit`, in which `Add` would fail.
- `LoadTable` sorts the hooks of the named tables with an unstable sort; only one hook is registered, for the item table, so it runs once more when the table is named twice, with the same result.
- The content of the global table, which is only a flag here; item fields other than id, level and name.
- `PickGame` beyond the group it asks for: the ranking inside a group is not part of this model.
- Redis locks, the storage back end, the cluster and the base selector enter through what is assumed about them.
- Token parsing, key exchange, cryptography, HTTP handlers, start-up, configuration, logging, code generators and generated protocol code.
- The player heartbeat timer and the interactive client: only easy members.
