# jsync, modelled and proved in Dafny

jsync mirrors files between two machines over one shared, ordered event stream. This project models the
parts of it where the hard guarantees live, and proves them over all inputs, all runs and all interleavings:

- **Sync** (`version`, `causality`, `events`, `bridge`, `session`, `delivery`, `nothing_lost`, `same_second`,
  `published_copy`, `quiesce`).
  Per-path version vectors, the echo guard, and the two atomic steps of a node, publishOne and applyEvent, as
  classes and methods proved against functions on values. A session is a transition system: two nodes, one
  append-only log, one cursor each; user edits, watcher reports, reconciliation pushes, control messages and
  deliveries interleave freely.
- **Start-up and reconciliation** (`startup`, `reconcile`, `union`, `reconcile_run`, `reconcile_steps`, `handover`,
  `startup_loops`).
  The optional bootstrap, the manifest exchange, push and drain, and the hand-over to the live loop, on both roles
  at once; and the same with its data, from the first manifest into live traffic, in any interleaving of the two
  nodes, one of which may be live while the other still drains. The protocol without data is tied to the loops of
  the code branch by branch, and every reconciliation with data is one of its runs.
- **Encryption** (`ratchet`, `prekeys`, `x3dh`, `secure_session`). Symbolic key material: a Diffie-Hellman output
  is an unordered pair of private keys, HKDF is a free constructor, AES-GCM opens exactly what was sealed under the same key,
  nonce and associated data. X3DH follows section 2.2 (the 0xFF prefix) and section 3.3 (DH1 to DH4) of the
  Signal X3DH specification, the chain section 2.2 of the Double Ratchet specification.
- **Transfers** (`chunks`, `archive`, `resume`, `commit`). Splitting and reassembling a stream over a bad
  network, archives that skip what the receiver has, parked sandboxes over any number of cut attempts, and a
  commit that survives crashes.
- **Small state machines** (`watchindex`, `renames`, `renames_any`, `auditlog`, `payload`). The watcher's two-way index, the
  pairing of rename halves across notification buffers, the rotating audit log, and the signed bytes of a
  handshake request.

Paths are non-empty sequences of components, relative to the root. The name that a conflict copy gets is a
constructor of its own, so it equals no other name. Content hashing is injective. Files that one step updates
in place are classes; everything a proof ranges over is a value, and each method's contract ties the two.

`dafny verify dfyconfig.toml` checks everything.

## What the proofs show about the code

Most properties hold as the documentation promises. Where the code does not give a property without a
condition, the condition is exact (an "if and only if", or a lemma with the inputs that break it):

- Conflict files are named by the second, and two losses follow when one path is in conflict twice within a
  second. The second copy takes the name of the first, and the peer's next write of that file can be applied over
  it before it is reported (`SameSecond.SameSecondLosesContent`). Or the user has edited the first copy and the edit
  is published: the second copy replaces it on disk, is reported in its place, and spreads to the peer, although
  nobody touched the file since (`PublishedCopy.PublishedEditIsReplaced`). Published content is accounted for at every point
  of a run exactly as long as neither happens (`NothingLost.LostExactlyByOverwriting`), and neither happens while
  conflict names are new (`NothingLost.NothingIsLost`).
- A delivery decides by version vectors alone. An edit the watcher has not reported yet is overwritten by a
  write whose author had everything published for the path (`NothingLost.LocalContentSurvives`).
- A write joins the version store before it is applied. One that the file system refuses counts as seen from then
  on (`Bridge.FailedWriteIsSeen`); the error ends the session, and the store with it.
- A write that the broker delivers twice is dropped in a plain session; in an encrypted one it ends the session,
  because the live loop decrypts before it compares vectors (`Delivery.RedeliveredToLoop`).
- The prekey store is saved periodically, not with each bundle. A restart is safe exactly when no one-time prekey
  was handed out since the last save; otherwise an id comes back that was handed out, and can be handed out again
  (`PreKeys.RestartKeepsLifeCycle`, `PreKeys.StaleSaveReissues`).
- Both ends derive the same secret exactly when the signed prekey of the bundle is still in place
  (`X3DH.KeyAgreement`); after a rotation both handshakes still succeed, and the first write does not decrypt
  (`SecureSession.FirstWriteOpens`). And no key or nonce repeats exactly because the responder replies with a fresh ratchet
  key (`X3DH.NoKeyOrNonceReuse`).
- A resumed transfer is sound as long as each session claims the entry the sender was told about. When it
  claims first - internal/handshake/responder.go starts the session (82-84) before it asks what can be resumed
  (86-89) - a file noted as received can be sent again, cut, skipped the next time and committed truncated
  (`Resume.CompleteIffSkippedWhole`, `Resume.ClaimBeforePeek`).
- A crashed commit can be retried exactly while the sandbox is still there. After the second rename a retry
  moves the new tree to the stale path and fails (`Commit.RetryAfterCrash`).
- A directory whose files have gone one by one keeps its entry in the watcher's index. A file that then takes its
  name is indexed, but its removal is taken for that of the directory, and is not reported
  (`WatchIndex.FileUnderDirectoryName`, `WatchIndex.EmptiedDirectoryKeepsItsName`).
- Removing a directory reports and forgets the files directly in it; files further down stay indexed, and a
  directory that has only subdirectories is ignored (`WatchIndex.RemovalReachesOwnFilesOnly`,
  `WatchIndex.RemovalOfUntracked`). A removal timer outlives a registration of the same file
  (`WatchIndex.TimerOutlivesRegistration`).
- A directory that appears with its contents is indexed in full, but only the files directly in it are reported
  (`WatchIndex.CreationReportsOwnFilesOnly`).
- An old name that another one follows in the same notification buffer, before its pair, leaves no trace
  (`Renames.HiddenOldName`). For any records in any cut, the events lead to the same names exactly when no such
  hidden old name is the last word about a name that was there, and no name is added back, last, between its old
  name and that one's pair (`AnyRecords.EventsAgreeExactly`).

## Model

| member | source | states |
|---|---|---|
| Paths.ConflictPathInjective | internal/syncfs/event.go:124-137 | two conflict files coincide only if path, origin and second do |
| Version.CompareVectors | internal/syncfs/version.go:32-59 | the two flags set over the union of the keys decide the order by domination: equal, after, before or concurrent, missing components reading as zero |
| Version.LeqCounts | internal/syncfs/version.go:32-59 | domination over the listed keys is domination over all machine ids |
| Version.VersionStore.Bump | internal/syncfs/version.go:79-90 | the node's own component of the path goes up by one, every other component and path stays, and the new vector is the one returned |
| Version.Merge | internal/syncfs/version.go:122-131 | the in-place merge loop ends with the component-wise maximum of both vectors |
| Version.VersionStore.Reconcile | internal/syncfs/version.go:107-133 | safe exactly when the incoming vector strictly dominates the stored one, a conflict exactly when neither dominates; in all four branches the stored vector becomes the join |
| Version.AdoptedIsJoin | internal/syncfs/version.go:107-133 | whatever branch is taken, what is stored is the component-wise maximum of what was stored and what came in |
| Version.StoredIsJoinOfSeen | internal/syncfs/version.go:79-133 | after any sequence of Bump and Reconcile each component is the greatest over all vectors bumped to or received |
| Version.SameSeenSameStored | internal/syncfs/version.go:79-133 | two sequences of bumps and deliveries, mixed in any way, that saw the same vectors store the same counts |
| Version.DeliveryOrderIrrelevant | internal/syncfs/version.go:107-133 | the same for deliveries alone: only the set of vectors received matters, not order or duplicates |
| Causality.RunInv | internal/syncfs/version.go:79-133 | in any run of any number of nodes every vector component is backed by a write of that path that the node has, or has in its history of the path, and histories are ordered by domination |
| Causality.LeqMeansHistory | internal/syncfs/version.go:32-59 | a vector dominated by another's belongs to a write in the other's transitive causal history of the path |
| Causality.VectorsCaptureCausality | internal/syncfs/version.go:32-90 | for any two published writes of one path in any run of any number of nodes, with late, early and repeated deliveries: "after" exactly when one is in the other's causal history of that path, "concurrent" exactly when neither is, "equal" only for one and the same write |
| Events.EchoGuard.MarkApplied | internal/syncfs/echo.go:39-43 | the path expects the hash; every other entry and every rename stays |
| Events.EchoGuard.MarkRemoved | internal/syncfs/echo.go:47-51 | the path expects a removal; everything else stays |
| Events.EchoGuard.MarkRenamed | internal/syncfs/echo.go:91-95 | the new path expects a rename from the old one; everything else stays |
| Events.EchoGuard.IsEcho | internal/syncfs/echo.go:56-65 | an echo exactly when that hash was expected for the path; the entry goes only then |
| Events.EchoGuard.IsEchoRemove | internal/syncfs/echo.go:69-78 | an echo exactly when a removal was expected for the path; the entry goes only then |
| Events.EchoGuard.IsEchoRename | internal/syncfs/echo.go:100-109 | an echo exactly when that rename was expected; the entry goes only then |
| Events.EchoIsExact | internal/syncfs/echo.go:39-109 | after an applied change the guard recognises, about its path, exactly that change with that content: not a user's removal of a file just written, other content over it, or a rename from elsewhere; about other paths it recognises what it did |
| Events.EchoIsOnce | internal/syncfs/echo.go:56-109 | an echo is recognised once, and that takes nothing else from the guard |
| Events.AtMoved | internal/syncfs/event.go:172-188 | after a directory rename exactly the files of the directory are found below the new path, each with its content, and every other file where it was |
| Events.WriteKeepsTree | internal/syncfs/event.go:140-159 | a write is refused exactly when it would leave a file above or below another |
| Events.RemoveTakes | internal/syncfs/event.go:161-168 | a removal takes the path and everything below it, and leaves every other file with its content |
| Events.RenameMoves | internal/syncfs/event.go:172-188 | a rename, of a file, onto a file or of a directory, brings everything at or below the old path, each with its content, to the new one, and leaves every other file as it was |
| Events.RenameRefused | internal/syncfs/event.go:172-188 | exactly when a rename is refused |
| Events.RenameBack | internal/syncfs/event.go:172-188 | a rename of a file or directory to a free path is undone by the opposite rename: nothing is lost, merged or touched beside it |
| Bridge.PublishOne | internal/syncfs/bridge.go:62-152 | on the version store, guard and chain it updates: an echo, a vanished file and a rescan publish nothing; anything else publishes one event, and the node's new state is the one of the transition system |
| Bridge.PushReconciled | internal/syncfs/reconcile.go:139-165 | a vanished path is passed over; otherwise the file is bumped, encrypted if the session is, and published, without touching the echo guard |
| Bridge.ApplyEvent | internal/syncfs/bridge.go:167-212 | stale writes change nothing on disk, conflicting ones go to the conflict path and leave the guard alone, clean ones are applied and marked; an error of the file system is returned with the version store already joined and everything else as it was |
| Bridge.ReceiveEvent | internal/syncfs/bridge.go:281-320 | own and bootstrap messages change nothing; a write is decrypted before anything is decided about it, so the chain advances whatever comes of it; the node after an error is stated too |
| Bridge.ReceiveChanges | internal/syncfs/bridge.go:260-329 | the live loop takes the messages one by one, passes over what does not parse, and ends at the first failing fetch, message or acknowledgement, with the node as it then is |
| Bridge.MalformedIsPassedOver | internal/syncfs/bridge.go:273-278 | messages that do not parse make no difference to a live session |
| Bridge.FailedWriteIsSeen | internal/syncfs/bridge.go:167-212 | a write that the file system refuses has moved the chain and joined the version store all the same, and touched nothing else; given again to a plain session it is dropped as stale |
| Bridge.SessionGoesOnOrEnds | internal/syncfs/bridge.go:269-329 | what the live loop makes of its next fetch: a failing fetch, message or acknowledgement ends it, with the node as it stood or as the message left it, and otherwise it goes on with the node the message makes |
| Bridge.ReceivedParts | internal/syncfs/bridge.go:260-329 | whatever the decision, a received event advances the receiving chain and joins the vector exactly once |
| Bridge.ReceivedFiles | internal/syncfs/bridge.go:260-329 | an applied write leaves its plaintext at its path and a set-aside one at its conflict path, and changes no other file |
| Bridge.ReceivedRemoval | internal/syncfs/event.go:161-168 | a received removal always succeeds and is marked; neither the path nor anything below it is left, and every other file is as it was |
| Bridge.ReceivedRename | internal/syncfs/event.go:172-188 | a received rename is marked, and leaves what was at or below the old path at or below the new one and every other file as it was; it fails only if the file system refuses it |
| Bridge.ReceivedKeepsTree | internal/syncfs/bridge.go:167-212 | whatever is received, no file ever stands above another |
| Session.StepShape | internal/syncfs/bridge.go:62-212 | every step of a session is local, appends one message, or consumes one, with exactly the matching change to vectors and chains |
| Session.ReportIsPublishOne | internal/syncfs/bridge.go:62-152 | the step of a report is publishOne: the node as it leaves it and the event it publishes, if any |
| Session.StepCounts | internal/syncfs/version.go:79-133 | every step keeps: stored and published vectors count the writes of both nodes up to a position of the stream |
| Session.RunCounts | internal/syncfs/version.go:79-133 | the same after any run of a two-node session |
| Session.FirstDeliveryOrder | internal/syncfs/bridge.go:167-212 | the next peer write compares as after when its author had all of this node's writes to the path, and as concurrent otherwise |
| Delivery.FirstDelivery | internal/syncfs/bridge.go:167-212 | a first delivery is never stale or skipped; it overwrites the plain file exactly when its author had received every write this node published for the path, and otherwise goes to the conflict file |
| Delivery.Redelivery | internal/syncfs/version.go:107-133 | a write already consumed is dropped when it comes again, whatever its data: nothing changes and no conflict is raised |
| Delivery.RedeliveredToLoop | internal/syncfs/bridge.go:295-311 | a write delivered to the live loop a second time is dropped in a plain session, and ends an encrypted one in a decryption error |
| Delivery.StepChains | internal/syncfs/bridge.go:295-311 | every step keeps both chains at the positions that the numbers of writes published and consumed give |
| Delivery.NeverFailsToDecrypt | internal/syncfs/bridge.go:295-311 | the peer's next write always decrypts, to what its author read from disk; a delivery that fails is refused by the file system |
| Delivery.Lockstep | internal/syncfs/bridge.go:295-311 | in every run, across reconciliation and live loop, each receiving chain stands at the number of peer writes consumed, stale and conflicting ones included, with the peer's key for that position |
| NothingLost.StepInv | internal/syncfs/bridge.go:167-212 | every step of a run of writes keeps each published write accounted for on both nodes, unless it is a delivery that replaces the last trace of one; under new conflict names there is no such delivery |
| NothingLost.PeerWriteFiles | internal/syncfs/event.go:124-137 | what a delivery leaves on disk: the plaintext at the path if the author had everything, at the conflict path otherwise, and every other file as it was |
| NothingLost.CopyIsLost | internal/syncfs/event.go:124-137 | a write applied over an unreported conflict copy leaves the content of that copy accounted for by nothing |
| NothingLost.PublishedIsLost | internal/syncfs/event.go:124-137 | and so does a write set aside over a published file, for that file |
| NothingLost.LostExactlyByOverwriting | internal/syncfs/bridge.go:167-212 | in every run of writes: at every point each published write is on each node in flight, the current content of its path, changed there by the user since, superseded by a write whose author had it, or kept from the conflict file it was put in (still there, edited by the user since, or its content published again) - if and only if no delivery is applied over the unreported conflict copy that is its last trace, and none is set aside over the published file that is |
| NothingLost.NothingIsLost | internal/syncfs/bridge.go:167-212 | the same conclusion for every run in which conflict names are new: at each set-aside the node has not published a file by that name, no file has such a name at the start, and no user makes one up |
| NothingLost.LastWriteAtRest | internal/syncfs/bridge.go:167-212 | under the same condition, when both nodes have consumed the stream and their users' edits are published, the last write of every path is in place on its author, and on the peer in place or kept from its conflict file |
| SameSecond.SameSecondLosesContent | internal/syncfs/event.go:124-137 | a run of twenty steps, for any file name and contents, after which a published write is nowhere on the peer: one path in conflict twice within one second |
| PublishedCopy.PublishedEditIsReplaced | internal/syncfs/event.go:124-137 | a run of twelve steps, for any file name and contents, after which a user's published edit is nowhere on its own node, with nobody having touched the file since; and six more after which it is in no file of either |
| NothingLost.LocalContentSurvives | internal/syncfs/bridge.go:167-212 | exactly what the path of a delivered write holds afterwards: the delivered content if the author had everything published, what was there otherwise, unreported edits notwithstanding |
| Quiesce.EchoReported | internal/syncfs/echo.go:56-109 | a due report of an applied change is recognised as an echo, and its guard entry goes with it |
| Quiesce.NewsReported | internal/syncfs/bridge.go:62-152 | the report of a conflict file or of a local change is never taken for an echo, however late it comes |
| Quiesce.AppliedIsDue | internal/syncfs/bridge.go:167-212 | a change applied apart from what is due leaves exactly one new expected report, and disturbs none |
| Quiesce.ConflictsAreShallow | internal/syncfs/event.go:124-137 | conflict files of conflict files arise only down to the depth of the user's own paths |
| Quiesce.QStepInv | internal/syncfs/bridge.go:62-212 | every step keeps guards, due reports and message sources matched, and makes a measure of the remaining work smaller |
| Quiesce.NoEchoLoop | internal/syncfs/bridge.go:62-212 | each message has one source, a local change or one conflict file, no source has two messages, every local change has one or is still to be reported, and has one when all is quiet; and a finite number of local changes bounds the whole exchange |
| Quiesce.NodeNotStuck | internal/syncfs/bridge.go:62-329 | every due report can be made, and with none due the next message can be delivered unless the file system refuses it |
| Quiesce.NotStuck | internal/syncfs/bridge.go:62-329 | until the exchange is quiet, some node can report or consume, or its next delivery is refused by the file system |
| Quiesce.Settles | internal/syncfs/bridge.go:62-329 | once the user stops, every exchange runs on to quiet, all reports made and the stream consumed on both nodes, or to a refused delivery |
| Reconciliation.DiffPaths | internal/syncfs/reconcile.go:94-102 | lists, once each, exactly the paths the peer lacks or holds with another hash |
| Reconciliation.PushAll | internal/syncfs/reconcile.go:205-210 | the push loop publishes one write for each listed path that still exists, in order, each bumped and sealed after the one before |
| Reconciliation.DrainUntilReconcileDone | internal/syncfs/reconcile.go:226-284 | own messages and those that do not parse are skipped, the peer's writes decrypted and applied, its "done" ends the drain, any other op and any failure, of a fetch and an acknowledgement too, ends it in an error; the node is stated in every case |
| Reconciliation.DrainsWhatParses | internal/syncfs/reconcile.go:239-244 | while fetches and acknowledgements succeed the drain is that of the messages that parse, the one the runs are about |
| Reconciliation.FailuresEndTheDrain | internal/syncfs/reconcile.go:234-283 | a failing fetch or acknowledgement ends the drain, with the node as it stood or as the write left it |
| Reconciliation.AwaitManifest | internal/syncfs/encrypt.go:94-131 | the wait for the manifest: what comes of it for any messages and failures, and where the next fetch goes on |
| Reconciliation.AwaitedIsFirst | internal/syncfs/encrypt.go:94-131 | a manifest that ends the wait is the peer's first message; before it come only own messages and those that do not parse |
| Reconciliation.FirstDecidesTheWait | internal/syncfs/encrypt.go:94-131 | the first failing fetch or peer message decides the wait: the manifest, an unexpected op, or the failure |
| Reconciliation.Reconcile | internal/syncfs/reconcile.go:196-219 | publishes the manifest and waits for the peer's; then publishes the writes of exactly the differing paths and "done", and ends where draining what is left to fetch ends |
| Union.DrainSkipsOwn | internal/syncfs/reconcile.go:248-252 | a node's own messages, wherever they are interleaved, make no difference to its drain |
| Union.DrainIsUnion | internal/syncfs/reconcile.go:196-284 | one end, after its own pushes, drains the peer's pushes to the union |
| Union.ReconcileComputesUnion | internal/syncfs/reconcile.go:196-284 | both ends finish; each keeps its own files, gets the peer's one-sided files, and exactly one conflict copy of the peer's content for each path that both trees hold with different contents, and nothing else; equal paths are unchanged |
| ReconcileRun.StepInv | internal/syncfs/reconcile.go:196-284 | every step of two interleaved nodes keeps: what each has said is its manifest, its pushes in order, "done", and only then live changes, what each has heard is a prefix of that, and each node is what pushing and draining so far make of it |
| ReconcileRun.NeverBroken | internal/syncfs/reconcile.go:226-284 | in no interleaving does a node meet an op it does not expect, however early its peer is live |
| ReconcileRun.RunsEndInUnion | internal/syncfs/reconcile.go:196-284 | in every interleaving each node has the union once it has finished, plain or encrypted, whatever its peer does by then |
| ReconcileRun.NotStuck | internal/syncfs/reconcile.go:196-284 | until both have finished, some node that has not can take a step, or its next delivery is refused by the file system |
| ReconcileSteps.StepShortens | internal/syncfs/reconcile.go:196-284 | each step of a reconciling node brings it nearer to its end, and nothing its peer does, live traffic included, takes it further away |
| ReconcileSteps.ReconcilesInBound | internal/syncfs/reconcile.go:196-284 | in every run a node reconciles in at most two steps for each of its own files, one for each of its peer's, and six more |
| Handover.StepInv | internal/daemon/watch_session.go:106-126 | every step, of a reconciling or a live node, keeps the stream and the nodes of the session the same as those of the reconciliation, up to where each node goes live |
| Handover.NothingExcluded | internal/daemon/watch_session.go:106-126 | whatever the reconciliation can do the session can do, and a live node can do all that a session allows |
| Handover.IsASession | internal/daemon/watch_session.go:106-126 | a run from the first manifest into live traffic is a run of the two-node session, so that what holds of those holds across both phases |
| Handover.FromStartToLive | internal/daemon/watch_session.go:106-126 | in every such run: no unexpected op, the bound on reconciling, the union for each node that went live, and the chains in lockstep throughout |
| Handover.GoesLiveAsItIs | internal/daemon/watch_session.go:106-126 | a node enters live traffic with exactly the files, vectors, guard and chains its reconciliation ended with |
| Startup.Consumer.AwaitControl | internal/syncfs/encrypt.go:94-131 | everything before the peer's first message is consumed; that message is returned if it has the wanted op, and is left in place as a fatal error otherwise |
| Startup.StepInv | internal/syncfs/encrypt.go:94-131 | every step keeps both nodes' positions in step with what each has said and heard |
| Startup.StartupIsSafe | internal/syncfs/reconcile.go:196-284 | in every interleaving of optional bootstrap, reconciliation and live loop, neither node reaches a wrong-op or unknown-op branch |
| Startup.LiveSeesOnlyMutations | internal/syncfs/bridge.go:260-329 | a node in the live loop is never given a manifest, a "done" or a bootstrap message |
| Startup.StartupNeverDeadlocks | internal/syncfs/encrypt.go:94-131 | until both nodes are live, one of them can take a start-up step |
| Startup.StartupProgresses | internal/syncfs/reconcile.go:196-284 | every start-up step makes the measure of what is left smaller, and live traffic never makes it larger |
| Startup.StartupTerminates | internal/daemon/watch_session.go:53-146 | so every run has at most as many start-up steps as the measure says at its start |
| StartupLoops.OpTellsKind | internal/syncfs/event.go:18-60 | each event has the op of its kind and no other |
| StartupLoops.LiveLoopBranches | internal/syncfs/bridge.go:281-320 | the peer's events that break a live node in the protocol are exactly those that the live loop refuses as unknown; it passes over bootstrap messages |
| StartupLoops.DrainBranches | internal/syncfs/reconcile.go:245-259 | the protocol's draining node ends, goes on and breaks exactly as the drain does |
| StartupLoops.AwaitBranches | internal/syncfs/encrypt.go:94-131 | and so does its wait for the manifest |
| StartupLoops.ReconciliationIsStartup | internal/syncfs/reconcile.go:196-284 | every run of a reconciliation with its data, one node perhaps already live, is with the data left out a run of the start-up protocol |
| Ratchet.Chain.constructor | internal/crypto/ratchet/ratchet.go:54-64 | a chain starts in the state it is given, which for the two ends of a session is a KDF_RK output and counter 0 |
| Ratchet.Chain.Encrypt | internal/crypto/ratchet/ratchet.go:72-86 | seals under the current message key and nonce, returns the counter, and advances the chain by one |
| Ratchet.Chain.Decrypt | internal/crypto/ratchet/ratchet.go:93-115 | refuses any counter but the next and anything sealed otherwise, without moving; otherwise returns the plaintext and advances |
| Ratchet.ChainKeysDistinct | internal/crypto/ratchet/ratchet.go:146-153 | two chain keys are equal only at the same position of chains with the same root, however far both run |
| Ratchet.KeysAndNoncesDistinct | internal/crypto/ratchet/ratchet.go:72-86 | the same for AES keys and nonces, past the wrap of the 32-bit counter |
| Ratchet.OpensExactlyWhatWasSealed | internal/crypto/ratchet/ratchet.go:93-115 | a chain opens exactly what was sealed at its own position with the same associated data, and says of anything else whether it is out of order or not authentic |
| Ratchet.RootIsMadeOf | internal/crypto/ratchet/ratchet.go:128-139 | a chain starts at 0 from the second half of KDF_RK, salted with the DH output, and two start alike exactly when secret and DH output are the same |
| Ratchet.MaterialIsMadeOf | internal/crypto/ratchet/ratchet.go:146-153 | the next chain key, AES key and nonce are the three parts of one KDF output, in this order |
| Ratchet.MaterialApart | internal/crypto/ratchet/ratchet.go:146-153 | chain keys, AES keys, nonces and root outputs are never one and the same |
| Ratchet.ChainCounter | internal/crypto/ratchet/ratchet.go:72-86 | after n messages the counter is n modulo 2^32 |
| Ratchet.OpensExactlyInOrder | internal/crypto/ratchet/ratchet.go:72-115 | a receiver at position j opens the sender's message i exactly when i is j, and gets the plaintext |
| PreKeys.Store.New | internal/crypto/x3dh/store.go:43-67 | a first pool with ids from 1 on, a signed prekey with id 1, nothing pending |
| PreKeys.Store.Load | internal/crypto/x3dh/persist.go:40-93 | the loops bring back the saved pool, signed prekey and counter, and no pending key |
| PreKeys.Store.Save | internal/crypto/x3dh/persist.go:97-126 | the file holds the pool, once each, the signed prekey and the counter, and not the pending keys |
| PreKeys.Store.ReplenishOneTimePreKeys | internal/crypto/x3dh/store.go:69-90 | fresh consecutive ids join the pool and the counter moves past them; nothing else changes |
| PreKeys.Store.RotateSignedPreKey | internal/crypto/x3dh/store.go:92-102 | a new signed prekey with the next id, signed by the identity; the pools stay |
| PreKeys.Store.TakeBundle | internal/crypto/x3dh/store.go:108-127 | some available id, if there is one, moves to pending and into the bundle; with none the bundle has id 0 and no key |
| PreKeys.SaveThenLoad | internal/crypto/x3dh/persist.go:40-126 | loading what was just saved restores everything but the pending keys |
| PreKeys.GeneratedIds | internal/crypto/x3dh/store.go:69-79 | replenishing adds exactly the ids from the counter on |
| PreKeys.RotationsNumber | internal/crypto/x3dh/store.go:92-102 | without restarts the id of the signed prekey counts the rotations, modulo 2^32, and a save brings it over a restart |
| PreKeys.BornNumber | internal/crypto/x3dh/store.go:43-102 | from a first boot on a bundle names signed prekey 1 plus the rotations since |
| PreKeys.BundleNamesSigned | internal/crypto/x3dh/store.go:108-127 | after a rotation bundles carry the new key under its id, the node's two identity keys, and a one-time key exactly for an available id |
| PreKeys.PreKeyLifeCycle | internal/crypto/x3dh/store.go:69-127 | over any run of bundles, replenishing, rotation, responses, saves and restarts in which no restart comes after an unsaved bundle: available, pending and consumed ids are disjoint and in range, no id is in two bundles, none is consumed twice, 0 is none of them, and the live and the saved signed prekey are signed with the node's identity |
| PreKeys.BornInv | internal/crypto/x3dh/store.go:43-67 | a first boot starts the life cycle |
| PreKeys.RestartKeepsLifeCycle | internal/crypto/x3dh/persist.go:40-126 | after any such run one more restart keeps the life cycle exactly when no one-time prekey was handed out since the last save or restart |
| PreKeys.StaleSaveReissues | internal/crypto/x3dh/persist.go:97-126 | a concrete run in which a restart from a stale save puts one id into two bundles |
| X3DH.DeriveResponderChains | internal/crypto/x3dh/x3dh.go:141-195 | refuses an id that is not pending and then changes nothing; otherwise derives the secret and the inbound chain and spends the one-time prekey, and only that |
| X3DH.EveryBundleIsAccepted | internal/crypto/x3dh/x3dh.go:39-80 | from a first boot on, through rotations, saves and restarts, an initiator accepts every bundle the store hands out |
| X3DH.ForeignSignatureIsRefused | internal/crypto/x3dh/x3dh.go:44-54 | a complete bundle is accepted exactly when its signature is by its identity and over its signed prekey |
| X3DH.SpentIsRefused | internal/crypto/x3dh/x3dh.go:153-166 | a pending one-time prekey serves one initiation; afterwards its id is refused |
| X3DH.SecretIsMadeOf | internal/crypto/x3dh/x3dh.go:65-72 | the secret is the KDF of the 0xFF prefix and DH1 to DH3, and of DH4 exactly with a one-time prekey |
| X3DH.InitiationsDiffer | internal/crypto/x3dh/x3dh.go:56-72 | two initiations for one bundle have the same secret exactly when identity and ephemeral are the same |
| X3DH.BundlesDiffer | internal/crypto/x3dh/x3dh.go:56-72 | one initiation has the same secret for two bundles exactly when identity key, signed prekey and one-time prekey, or its absence, are the same |
| X3DH.OnlyTheBundlesOwnerAgrees | internal/crypto/x3dh/x3dh.go:141-243 | of all responders exactly those with the signed prekey, the identity key and the one-time key behind the bundle get the initiator's secret |
| X3DH.SecretIsNoChainKey | internal/crypto/x3dh/x3dh.go:227-243 | the secret is none of the chain keys, message keys and nonces derived later |
| X3DH.DHSymmetric | internal/crypto/x3dh/x3dh.go:39-80 | both ends compute the same Diffie-Hellman output |
| X3DH.DHIdentifiesPair | internal/crypto/x3dh/x3dh.go:39-80 | an output names its two key pairs |
| X3DH.PendingSurvives | internal/crypto/x3dh/x3dh.go:153-166 | a pending prekey stays until it is spent or the store restarts |
| X3DH.KeyAgreement | internal/crypto/x3dh/x3dh.go:39-195 | with or without a one-time prekey, over any run of the responder's store in between, both ends succeed, and derive the same secret exactly when the signed prekey is still the one in the bundle |
| X3DH.SecretsAgree | internal/crypto/x3dh/x3dh.go:39-195 | the same for the two sets of keys alone, as long as the responder still has what the bundle named |
| X3DH.ChainsMirror | cmd/jsync/main.go:213-253 | in each direction the sender's first chain is the receiver's |
| X3DH.NoKeyOrNonceReuse | internal/daemon/watch_session.go:148-188 | no two encryptions of a watch session, in either direction and however many, share an AES key or a nonce, exactly because the responder's ratchet key is not its signed prekey |
| SecureSession.HandshakeMirrors | cmd/jsync/main.go:213-253 | after any handshake each end has its secret, and the chains each end has derived by itself mirror the other's exactly when the signed prekey was not rotated |
| SecureSession.HandshakeLockstep | internal/syncfs/bridge.go:295-311 | lockstep for a session whose chains come from its handshake: in every run the next write of the peer decrypts to what its author read from disk |
| SecureSession.StreamNeverReuses | internal/daemon/watch_session.go:148-188 | no two writes in the stream of such a session are sealed with the same AES key or the same nonce |
| SecureSession.RedeliveryEndsSession | internal/syncfs/bridge.go:295-311 | a write that comes a second time ends such a session in a decryption error |
| SecureSession.FirstWriteOpens | internal/crypto/x3dh/x3dh.go:141-195 | the responder opens the initiator's first write exactly when the signed prekey was not rotated in between |
| Chunks.BlockSize | internal/pipeline/chunk.go:60-70 | the chunk size that is asked for, 512 KiB if it is not positive |
| Chunks.BlocksCut | internal/pipeline/chunk.go:73-87 | a stream of n bytes is cut into n / size + 1 blocks that concatenate to it, all full but the last, which is short and may be empty |
| Chunks.HeadersOfTransfer | internal/pipeline/chunk.go:87-120 | the chunks are numbered in order, the last and no other is final, and the first and no other carries the bootstrap keys and the announced size |
| Chunks.SealChunk | internal/pipeline/chunk.go:92-101 | a chunk goes out as read, or sealed at its own number; a ratchet that is not at that number is an error |
| Chunks.PublishArchive | internal/pipeline/chunk.go:73-120 | the longest prefix of the transfer that reader, ratchet and broker allow is published, in order, only the last chunk marked final; the error says which of the three stopped it |
| Chunks.OpenMessage | internal/pipeline/chunk.go:187-226 | one message: header and sequence checks, deriving the chain from chunk 0, decryption, each with its error |
| Chunks.ReceiveLoop | internal/pipeline/chunk.go:173-252 | the bytes handed to the pipe and the error, for any messages that come, any point at which the pipe closes and any failing acknowledgement |
| Chunks.NotTaken | internal/pipeline/chunk.go:187-226 | no chunk is taken under another number than the wanted one, and no encrypted chunk joins a transfer that began in the clear |
| Chunks.TakesOnlyNext | internal/pipeline/chunk.go:187-226 | of all messages of a transfer the receiver can take only the one it wants, and takes it if its chain is the sender's |
| Chunks.PrefixSafety | internal/pipeline/chunk.go:173-252 | whatever is dropped, repeated or reordered, and whatever chain the receiver derives, the output is a prefix of what was sent, and all of it if there is no error |
| Chunks.RoundTrip | internal/pipeline/chunk.go:73-252 | for every stream and chunk size, plain or encrypted, with matching chains: success exactly when all messages come first and in order and pipe and acknowledgements hold, and then the output is the stream |
| Archives.WalkAndAdd | internal/pipeline/archive.go:121-168 | exactly the entries that are not files the receiver already has, in the order of the walk |
| Archives.ArchiveHas | internal/pipeline/archive.go:121-140 | an entry is sent exactly when it is in the tree and not skipped; directories and links never are |
| Archives.Sandbox.ExtractArchive | internal/pipeline/extract.go:47-136 | extracts entry by entry until one fails or the stream breaks off, and notes exactly the files received in full |
| Archives.Sandbox.ExtractWhole | internal/pipeline/extract.go:58-106 | the loop over whole entries stops at the first that fails |
| Archives.EntryExtracted | internal/pipeline/extract.go:58-106 | into a sandbox that holds parts of the same tree any entry can be extracted; it is then in place, and nothing but missing parents changed beside it |
| Archives.WholeEntries | internal/pipeline/extract.go:58-106 | extraction of whole entries never fails and keeps every file noted as complete whole |
| Archives.WholeEntriesInPlace | internal/pipeline/extract.go:58-106 | it puts each of its entries in place and leaves every other file as it was |
| Archives.BrokenKeeps | internal/pipeline/extract.go:121-136 | a file broken off in the middle is not noted, and no file noted as complete suffers |
| Archives.TreeUnique | internal/pipeline/extract.go:47-116 | two sandboxes that hold exactly the tree are equal |
| Archives.EntryRefused | internal/pipeline/extract.go:58-106 | exactly which entries are refused: below something that is no directory, over something of another kind, a link out of the tree or in the place of a directory that is not empty |
| Archives.EscapingLinkIsRefused | internal/pipeline/extract.go:86-104 | a link that leaves the tree is refused |
| Archives.SucceedsEntryByEntry | internal/pipeline/extract.go:58-106 | an extraction succeeds exactly when each entry in turn does |
| Archives.AnyCutIsContained | internal/pipeline/extract.go:47-136 | whatever archive is extracted, well-formed or not, and wherever it breaks off or fails: directories and nothing else stand above things, and each link was there before or is a confined one of the archive |
| Resume.ResumeRegistry.Park | internal/daemon/resume.go:66-74 | the entry for the key is replaced, with a fresh expiry; others stay |
| Resume.ResumeRegistry.Claim | internal/daemon/resume.go:81-95 | the entry is handed out unless it has expired, and forgotten either way |
| Resume.ResumeRegistry.Peek | internal/daemon/resume.go:104-117 | lists exactly the completed files of an unexpired entry, and changes nothing |
| Resume.ResumeRegistry.Sweep | internal/daemon/resume.go:123-135 | removes exactly the expired entries and returns their sandboxes |
| Resume.ReceiveSession | internal/daemon/receiver.go:84-177 | claims or starts a sandbox, extracts, then commits, aborts on a full disk, or parks; other transfers and directories are untouched |
| Resume.CompleteIffSkippedWhole | internal/pipeline/archive.go:121-168 | a complete stream into any sandbox gives the tree of a clean transfer exactly when every skipped file is whole in the sandbox |
| Resume.CutKeeps | internal/daemon/receiver.go:154-166 | an attempt cut anywhere parks a sandbox in which every completed file is whole |
| Resume.AttemptInv | internal/daemon/receiver.go:84-177 | each attempt keeps the parked sandbox sound, and a complete one commits the clean tree |
| Resume.ResumeEqualsCleanTransfer | internal/daemon/receiver.go:84-177 | any number of attempts cut anywhere, aborted or swept, followed by one that completes, commits exactly what one clean transfer commits |
| Resume.DestUntouched | internal/daemon/receiver.go:84-177 | until an attempt completes, the destination is as it was |
| Resume.CleanIsTree | internal/pipeline/extract.go:47-116 | a clean transfer commits exactly the source tree |
| Resume.VisibleIsClaimable | internal/daemon/resume.go:81-117 | what the registry shows of an entry is exactly what a session can claim |
| Resume.ParkedForGrace | internal/daemon/receiver.go:149-166 | a cut attempt parks its sandbox until five minutes after its end, and no longer |
| Resume.FullDiskKeepsNothing | internal/daemon/receiver.go:149-166 | after a cut attempt on a full disk nothing is parked |
| Resume.SweepIsInvisible | internal/daemon/resume.go:123-135 | sweeping removes nothing that could still be claimed, and leaves nothing that could not |
| Resume.ResumesWithinGrace | internal/daemon/receiver.go:84-177 | an attempt that asks and claims within that time goes on in the sandbox, and is sent no file that has come whole in any attempt before |
| Resume.StartsAfreshAfterGrace | internal/daemon/receiver.go:84-177 | a later one is sent everything, into an empty sandbox |
| Resume.EditedIsSent | internal/pipeline/archive.go:121-140 | a file whose content is no longer the one noted is sent again |
| Resume.ResumeAfterEdit | internal/pipeline/archive.go:121-168 | so contents may change between attempts: a complete attempt commits exactly the tree as it then is |
| Resume.ClaimBeforePeek | internal/handshake/responder.go:82-89 | when a session claims before the sender asks, any file cut at any byte can end up committed truncated |
| Commit.Volume.CommitSandbox | internal/pipeline/extract.go:218-246 | without a crash: the sandbox becomes the destination and the old tree is gone; without a sandbox an existing destination is moved aside and the commit fails |
| Commit.RunInv | internal/pipeline/extract.go:218-246 | at every crash point nothing has moved, or the two renames are half done, or the new tree is installed |
| Commit.CrashSafe | internal/pipeline/extract.go:218-246 | at every crash point, however often the commit restarts: the new tree is whole in the sandbox or at the destination, the old one at the destination or the stale path until then, and the destination never holds a mixture |
| Commit.RetryAfterCrash | internal/pipeline/extract.go:218-246 | a retry installs the new tree exactly when the sandbox is still there; otherwise it moves the new tree to the stale path |
| Commit.AnythingMayHappen | internal/pipeline/extract.go:218-246 | what a run allows for: any action may fail, a removal may stop at any part, a commit may be started again while there is a sandbox |
| Commit.NothingIsInvented | internal/pipeline/extract.go:218-246 | no action puts anything anywhere that was not in the sandbox, at the destination or on the stale path |
| Commit.CommitCanFinish | internal/pipeline/extract.go:218-246 | with no failure the actions lead where the commit as a whole does, done exactly if there is a sandbox |
| Commit.RestartCanFinish | internal/pipeline/extract.go:218-246 | from every crash point at which the sandbox is there the commit can be started again and finished |
| Commit.ActionsRefineCommit | internal/pipeline/extract.go:218-246 | the atomic actions together do what the whole commit does |
| WatchIndex.Watcher.RegisterTree | internal/watch/watcher.go:222-253 | indexes every file of the walk under its parent, and schedules nothing |
| WatchIndex.Watcher.HandleWrite | internal/watch/watcher.go:429-457 | a regular file is indexed under its parent and its timer reset to a modification; what is excluded, gone or a directory is ignored |
| WatchIndex.Watcher.HandleCreate | internal/watch/watcher.go:396-427 | a directory is indexed with all its walk finds, and exactly the files directly in it are reported at once; a file is handled as a write; the rest is ignored |
| WatchIndex.Watcher.HandleRemove | internal/watch/watcher.go:459-492 | a tracked directory gives up exactly its own files, each scheduled for removal once; a tracked file is scheduled once; anything else is ignored; exactly what is scheduled has got a removal timer, and no other timer has changed |
| WatchIndex.Watcher.HandleRename | internal/watch/watcher.go:500-536 | between two excluded places nothing happens; out of one it is a creation, into one a removal; otherwise a rename timer by new path, and no change to the index |
| WatchIndex.Watcher.Forget | internal/watch/watcher.go:353-362 | the file leaves both maps, and nothing else does |
| WatchIndex.Watcher.Rename | internal/watch/watcher.go:364-381 | an indexed file moves to its new parent in both maps; an unknown one changes nothing |
| WatchIndex.Watcher.Fire | internal/watch/watcher.go:303-321 | a path timer fires once; a removal forgets the file before it is reported |
| WatchIndex.Watcher.FireMove | internal/watch/watcher.go:303-321 | a rename timer fires once, moves the file in the index and reports the pair |
| WatchIndex.ScheduledIsTimed | internal/watch/watcher.go:459-492 | the files a removal is about, and that exactly those get a removal timer |
| WatchIndex.TimersDecide | internal/watch/watcher.go:276-321 | for each operation, exactly which timer each file has after it |
| WatchIndex.LastWordIsReported | internal/watch/watcher.go:276-321 | after any operations a file's timer reports what the last operation that set it said, a removal or a modification |
| WatchIndex.RemovalIsReported | internal/watch/watcher.go:303-321 | a file that goes is reported as removed, once, and leaves the index |
| WatchIndex.MoveIsReported | internal/watch/watcher.go:500-536 | a move is reported as its pair, old path and new, once, and no other rename is disturbed |
| WatchIndex.FileUnderDirectoryName | internal/watch/watcher.go:459-492 | a tracked file's removal is scheduled exactly when its path is not tracked as a directory |
| WatchIndex.EmptiedDirectoryKeepsItsName | internal/watch/watcher.go:353-362 | a directory whose files go one by one stays tracked |
| WatchIndex.RemovedDirectoryGivesUpItsName | internal/watch/watcher.go:459-477 | a directory that is removed does not |
| WatchIndex.StepDecides | internal/watch/watcher.go:222-492 | for each operation, exactly which files are indexed after it |
| WatchIndex.LastWordDecides | internal/watch/watcher.go:222-492 | after any sequence of operations a file is indexed exactly when the last one that decided about it added it |
| WatchIndex.RemovalReachesOwnFilesOnly | internal/watch/watcher.go:459-477 | a removed directory's removal is scheduled for a file exactly when the file is directly in it |
| WatchIndex.RemovalOfUntracked | internal/watch/watcher.go:479-492 | removing a directory that has only subdirectories changes and schedules nothing |
| WatchIndex.CreationReportsOwnFilesOnly | internal/watch/watcher.go:396-427 | every file below a new directory is indexed, one of them is reported exactly when it is directly in it, and no timer is set |
| WatchIndex.TimerOutlivesRegistration | internal/watch/watcher.go:303-321 | registering a tree does not cancel a removal timer, a write does |
| Renames.RecursiveDirWatcher.HandleAction | internal/watch/winwatcher_windows.go:197-251 | one record: an old name waits, a new name pairs with it or becomes a create, everything else passes through |
| Renames.RecursiveDirWatcher.ParseAndEmit | internal/watch/winwatcher_windows.go:158-195 | one buffer: its records in order, then a removal for an old name left over, and no old name waits afterwards |
| Renames.ScanReplays | internal/watch/winwatcher_windows.go:158-251 | replaying the events of one buffer leads to the same names as its records |
| Renames.CutsDoNotMatter | internal/watch/winwatcher_windows.go:158-251 | however a paired record stream is cut into buffers, replaying the events leads to the same set of names as the records |
| Renames.ModificationsPassThrough | internal/watch/winwatcher_windows.go:158-251 | of any records in any cut exactly the modifications are reported as such, in order |
| Renames.UncutPair | internal/watch/winwatcher_windows.go:197-216 | a pair within one buffer is one rename, and nothing around it changes |
| Renames.CutPair | internal/watch/winwatcher_windows.go:180-193 | a pair cut in two is a removal and a creation |
| Renames.HiddenOldName | internal/watch/winwatcher_windows.go:197-251 | in any buffer, the events are the same without an old name that another one follows before its pair comes |
| Renames.HiddenNameStays | internal/watch/winwatcher_windows.go:158-251 | replaying the events of such a buffer agrees with its records exactly when the name was not there, or the rest of the buffer mentions it |
| Renames.DelayedPair | internal/watch/winwatcher_windows.go:158-251 | a pair with other records in between is one rename at its end, and the replay agrees with the records exactly unless the old name came back in between and is mentioned no more |
| AnyRecords.EventsLeave | internal/watch/winwatcher_windows.go:158-251 | for any records in any cut: the events leave exactly the names that were there or appeared with no removal emitted since, an old name's removal being emitted with its pair or at the end of its buffer, and never if another old name comes first |
| AnyRecords.EventsAgreeExactly | internal/watch/winwatcher_windows.go:158-251 | for any records in any cut: events and records lead to the same names if and only if no name that stays by the events has a hidden old name as its last word, and none is added back, last, while its own old name waits |
| Renames.SecondOldNameHidesFirst | internal/watch/winwatcher_windows.go:199-202 | the smallest such buffer, three records on any names |
| AuditLog.Logger.Open | internal/auditlog/auditlog.go:91-114 | opens what an earlier session left, or an empty live file, with the default limit and the live file's size |
| AuditLog.Logger.SetMaxBytes | internal/auditlog/auditlog.go:117-124 | the limit changes, the files do not |
| AuditLog.Logger.Log | internal/auditlog/auditlog.go:130-165 | the line goes to the live file, after a rotation exactly when a non-empty live file would exceed the limit |
| AuditLog.Logger.Rotate | internal/auditlog/auditlog.go:172-192 | the in-place shift drops the oldest backup only, moves every file one on, and starts an empty live file |
| AuditLog.Logger.ReadAll | internal/auditlog/read.go:89-95 | reads the files oldest first, passing over missing ones |
| AuditLog.LoggedKeeps | internal/auditlog/auditlog.go:130-192 | a record loses none of what is read back, except the oldest file when all backups are in use |
| AuditLog.BoundedSuffix | internal/auditlog/auditlog.go:130-192 | whatever is logged, what is read back is a contiguous suffix that ends in the newest record, in at most five files, and all of it unless all five are in use |
| AuditLog.StaysWellFilled | internal/auditlog/auditlog.go:130-165 | each file is within the limit or holds one record, and each backup had no room for the record after it |
| AuditLog.DropsOnlyBeyondTwiceTheLimit | internal/auditlog/auditlog.go:130-192 | once a record is missing, more than twice the limit is retained |
| AuditLog.NoLimit | internal/auditlog/auditlog.go:152-157 | without a limit nothing is ever rotated |
| SignedPayloads.SignedPayload | internal/handshake/protocol.go:65-82 | appends the fields in order, big-endian integers and length-prefixed strings |
| SignedPayloads.BigEndianValue | internal/handshake/protocol.go:67-68 | k bytes hold the integer modulo 256^k |
| SignedPayloads.DecodesPayload | internal/handshake/protocol.go:65-82 | a decoder recovers every field |
| SignedPayloads.PayloadDecoded | internal/handshake/protocol.go:65-82 | and whatever decodes is the payload of what it decodes to |
| SignedPayloads.SamePayloadSameRequest | internal/handshake/protocol.go:65-82 | two requests sign the same bytes exactly when they agree on nonce, machine id, path, flag and key, on version and direction modulo 2^32 and on the instant modulo 2^64 |
| SignedPayloads.InRangePayloadIsInjective | internal/handshake/protocol.go:65-82 | with integers in uint32 range and instants in UnixNano range, equal payloads are equal requests |

## Left out

- NATS, JetStream, streams and consumers: the event stream is an append-only sequence with one cursor per node, in the order internal/transport/nats/stream.go fixes.
- JSON: events and manifests are values. In the runs of two nodes, messages that do not parse and failing fetches, acknowledgements and publications of an event do not occur; the receiving loops themselves are modelled with them.
- Real cryptography (AES-GCM, HKDF, X25519, Ed25519, SHA-256): symbolic terms with stated laws, and injective hashing.
- tar, gzip, file modes and the operating system's file system: a tree is a map from paths to items, an archive a sequence of entries. In the sync part a directory exists as far as it holds files, so empty directories are not mirrored.
- The pipe between receiving and extracting: how many chunks it takes is a parameter; that either side makes progress is not claimed.
- Path cleaning, containment checks and the characters sanitizeForFilename replaces: paths are sequences of components, machine ids name conflict files as they are. Whether a link's target stays inside the tree is a given of its entry.
- Ignore patterns: the trees are what is left after they have been applied. Scanning a manifest is taken to list every file.
- Audit records and the conflict callback inside publishOne and applyEvent: they change nothing a node reads.
- A session without chains that receives an encrypted write: the code would write the ciphertext to disk; the model stops with an error, and Lockstep shows that no session gets there.
- Chunks.OpenMessage: a header that says Encrypted over plaintext, or the reverse, does not occur, because the payload's form and the header are one in the model; only messages that a sender makes are covered in full.
- Bridge.ReceiveChanges: what the fetches bring is a parameter; a cancelled session counts as a failing fetch.
- Reconciliation.Reconcile: what the fetches bring is a parameter, and a scan or a publication that fails is left out; the interleaving of the two nodes is in ReconcileRun.
- Overflow of the 64-bit counters in version vectors and of 32-bit prekey ids: both are unbounded in the model, ids under the stated bound.
- Removals and renames in the causality and lost-content properties: the code does not version them. They do take part in lockstep, start-up and the echo property.
- Quiesce.NoEchoLoop: assumes, as an explicit part of each step, that a change on disk, local or applied, is reported once, in the form it was made, before the next change that touches its path; reports may otherwise come as late as they like. Without that an old guard entry can match a later write with the same content; reconciliation, which never reads the guard, is one way such entries arise.
- Union.DrainIsUnion: what the drain is given is a parameter of the lemma; ReconcileRun derives it from the run.
- Union.ReconcileComputesUnion: the same, and it assumes fresh version stores, no local edits meanwhile, no path below another file and conflict names not in use; the code has no check for these, and ReconcileRun.RunsEndInUnion and Handover.FromStartToLive assume the last two, for the names that were used.
- Handover.FromStartToLive: starts after the optional bootstrap, whose place in the stream is in Startup; local edits begin when a node goes live, as its watcher does.
- NothingLost.NothingIsLost: `since` is a second before which no delivery happens and from which on no file at the start has a conflict name; users do not make up names of conflict copies of their own node's writes. LostExactlyByOverwriting assumes none of this.
- Causality.VectorsCaptureCausality: histories are per path, as the vectors are; what a node knew of other paths is not part of them.
- Resume.ResumeEqualsCleanTransfer: assumes a fixed source tree and that each session claims the entry its sender was told about; ResumeAfterEdit covers edited contents, not a source whose files turn into directories or links.
- Resume.ReceiveSession: a commit that fails after a complete extraction, and the parking that follows it, are left out.
- Archives.Sandbox.ExtractArchive: file modes, and a file written through a link left in a sandbox, which a fixed tree rules out, are left out.
- Commit.CrashSafe: a restart is considered while the sandbox exists; RetryAfterCrash says what happens otherwise. A parent directory is taken to exist.
- WatchIndex.Watcher.RegisterTree: the walk itself, its skipped directories and its errors are a parameter; debounce delays and the races of the event loop are not modelled, a timer fires when a step says so.
- WatchIndex.Watcher.HandleWrite: what looking at the path finds is a parameter, as in HandleCreate and HandleRename.
- AuditLog.BoundedSuffix: assumes that file operations succeed; a logger that has lost its file drops records silently.
- AuditLog.Logger.Open: a directory or file that cannot be opened is left out.
- AuditLog.Logger.Log: failing and partial writes are left out.
- AuditLog.Logger.Rotate: failing renames, removals and reopens are left out.
- AuditLog.Logger.ReadAll: parsing, filtering and sorting of the records read back are left out.
- Renames.RecursiveDirWatcher.ParseAndEmit: the decoding of the notification buffer and a watcher closed in the middle are not modelled.
- Progress reports, status messages, retries, the command line, configuration and service installation: plumbing around the modelled parts.
