# Access Pages: verified protocols

Access Pages gives guests time-limited links to a few Home Assistant entities.  This project models
the parts of it in which several processes, files and a remote service have to stay consistent
through crashes, lost replies and concurrent edits, and proves what they promise.

`dafny verify dfyconfig.toml` checks everything.

## How the models are built

Each subsystem is a state and a set of atomic steps: one SQLite transaction, one atomic rename, one
upstream effect, one frame sent or handled.  A run is any sequence of allowed steps; because a crash
keeps what is durable and forgets the rest, a crash at any point leaves the end of some run, and what
is proved of all runs holds after it.  Beside the steps stands a class with the operations of the
source, written statement by statement.  In `GuestResourceStore`, `LayerVBroker`, `PageStore`,
`PolicyPublisher`, `GuestBroker` and `Enrollment` a ghost log (in `GuestBroker` with the states in
between) records the steps it takes, and `Valid()` says that the log is a run that leads to the fields,
so the theorems about runs apply to every state an operation passes through.  The yamux classes and
`VerificationStore` are instead proved against the functions that the runs are made of; the limiters,
`PageLocks` and `ConnectorIdentity` keep their history, or what was ever published, in ghost fields that
`Valid()` ties to the rest.  Where the source reads shared state more than once without a lock, a method
that its callers know only by its contract (`Others`, `Meanwhile`) stands between the reads: everything
that is not in the contract may have changed.

| files | what they model |
|---|---|
| `YamuxFraming`, `YamuxStream`, `YamuxLink`, `YamuxSession` | the vendored stream multiplexer: bytes, one stream object, the two ends of a stream, two sessions over one connection |
| `GuestResources`, `GuestResourceStore`, `Backoff` | ownership of upstream resources: rows, retirements, generations, orphans, reset |
| `BrokerProtocol`, `LayerVBroker` | the Gateway, which lists grants, and the broker, which owns their resources |
| `GrantDeletion` | a grant's deletion from end to end: the files and the queue of the Gateway together with the broker |
| `PageRevocation`, `PageStore` | page files, revocation markers and the cleanup queue |
| `PolicyPublisher` | publication of policies to the policy store, rollback and retry |
| `VerificationTables`, `VerificationStore` | guest sessions, one-time invitations and one-time codes |
| `GuestAuthority`, `GuestBroker` | the guest's requests, up to the service call, and what explains one |
| `RateLimit`, `PageLocks`, `ConnectorIdentity`, `Enrollment` | limiters, the per-page lock table, endpoint identities, agent enrollment |

## Findings

Six properties hold only under a condition.  Each is proved under it, and a run, or for the last a
length, shows that it fails without.

- A listed grant is never retired, in any run, exactly if the broker can read the Gateway's grants
  (`ACCESS_PAGES_GATEWAY_GRANTS_DIR` is set) and the Gateway commits less than 15 seconds after the
  broker saved the grant's mapping (`BrokerProtocol.GuestIsolationExactly`; the failing runs are
  `LateCommitLosesGrant` and `BlindBrokerLosesGrant`).
- A grant committed to a page survives the next recovery exactly if no revocation of that page was
  pending; otherwise it is erased without a cleanup (`PageRevocation.CommitSurvivesExactly`,
  `NoGrantIsForgottenExactly`; the failing run is `MaskedCommitIsForgotten`).  A marker stays pending in
  a running process when queueing a cleanup fails.
- A removed grant stays off its page exactly if no operation that loaded the page before writes it back
  (`PageRevocation.ReturnsOnlyByWriteBack`, `ComesBackExactly`; the failing run is `ExpiredGrantReturns`).
  Expiry for the page list and the activity view takes no page lock (admin.py:60, admin.py:80), so it can
  come between the load and the write-back of a mint or of an edit that is rolled back.  Grants masked by
  a marker that was written under the page's lock never return (`MaskedIsNeverReturned`); a connection
  reset writes markers also for pages that were created while it waited for its locks
  (server.py:1175-1179), which that theorem leaves out.
- Policies never differ silently exactly if a request that failed is never applied later
  (`PolicyPublisher.DivergenceIsNeverSilentExactly`; the failing run is `LateRunDiverges`).
- An end of file on a yamux stream means that everything arrived exactly if no bytes are sent after the
  FIN (`YamuxSession.EndOfFileIsCompleteExactly`; the failing run is `LateWriteIsLost`): a write that has
  passed its checks when the stream is closed still sends its chunk, behind the FIN.
- A yamux write makes progress under an open window exactly if the bytes left are not a multiple of
  2^32, because the length is converted to `uint32`; a `Write` of 2^32 bytes or more never completes
  (`YamuxStream.ChunkProgress`, `YamuxStream.Stream.Write`).

## Assumptions

- SHA-256 is injective: secrets, tokens, codes and connector ids stand for their digests.
- Upstream gives the resource of one connector id the same CRID whenever it is published.
- Time does not go back; where it is read before a lock, lock order agrees with it.
- A grant id, once committed to a page, is never committed again with the same contents.
- The Gateway asks the broker only to queue revocations; a request for a grant that never had a mapping
  is served with no mint of that grant in between.  The resource reset runs while the broker serves
  nothing.
- A wrapped-around clock, a changed file mode and a damaged database are not modelled.

## Model

| member | source | states |
|---|---|---|
| `YamuxFraming.HeaderRoundTrip` | third_party_licenses/yamux-source/const.go:152-183 | decoding an encoded header gives back its type, flags, stream id and length |
| `YamuxFraming.HeaderCanonical` | third_party_licenses/yamux-source/const.go:152-183 | encoding what was decoded gives back the same twelve bytes |
| `YamuxFraming.Encode` | third_party_licenses/yamux-source/const.go:177-183 | written in place into a buffer, the header is the big-endian encoding of its fields |
| `YamuxFraming.RecvLoop` | third_party_licenses/yamux-source/session.go:547-574 | the receive loop delivers exactly the frames of the reference parser, in order, and stops at exactly the bytes that begin no further frame |
| `YamuxFraming.FramingRoundTrip` | third_party_licenses/yamux-source/session.go:483-519 | reading the concatenated bytes of any well-formed frames yields those frames and leaves nothing over |
| `YamuxFraming.FramingInjective` | third_party_licenses/yamux-source/session.go:483-519 | two frame sequences with the same bytes are the same sequence |
| `YamuxFraming.ParseAfterFrames` | third_party_licenses/yamux-source/session.go:547-626 | whatever follows complete frames is parsed from its own first byte: frame alignment is never lost, whether or not a stream takes the body |
| `YamuxFraming.ReadingIsCanonical` | third_party_licenses/yamux-source/session.go:547-574 | for any byte string: the frames read, serialized, and the bytes left over are together that string; what is left begins no frame, for the reason the loop gives; and only a last frame can be cut |
| `YamuxFraming.CutStreamDeliversPrefix` | third_party_licenses/yamux-source/session.go:547-574 | a connection cut at any byte delivers, for each stream, a prefix of what was sent to it |
| `YamuxStream.DeltaExact` | third_party_licenses/yamux-source/stream.go:280-299 | within the window invariant the uint32 delta does not wrap and an update restores the window to its maximum |
| `YamuxStream.UpdateIsWorthwhile` | third_party_licenses/yamux-source/stream.go:275-311 | an update goes out exactly if a flag is due or half of the maximum is free, and it grants all that is free |
| `YamuxStream.ChunkLeavesWholeMultiples` | third_party_licenses/yamux-source/stream.go:204-228 | the chunk is at most the window and the buffer, and a buffer of 2^32 bytes or more never shrinks below that |
| `YamuxStream.ChunkProgress` | third_party_licenses/yamux-source/stream.go:204-228 | an open window moves at least one byte exactly if the length left is not a multiple of 2^32 |
| `YamuxStream.Stream.TakeSendFlags` | third_party_licenses/yamux-source/stream.go:258-271 | SYN or ACK exactly once, with the phase change that goes with it |
| `YamuxStream.Stream.SendWindowUpdate` | third_party_licenses/yamux-source/stream.go:275-311 | new state and frame sent, including the case in which nothing is sent |
| `YamuxStream.Stream.Read` | third_party_licenses/yamux-source/stream.go:101-165 | which bytes a read returns and what stays buffered, the update that follows, and exactly when it is an end of file, a reset or would block |
| `YamuxStream.Stream.WriteChunk` | third_party_licenses/yamux-source/stream.go:186-254 | one attempt: the frame sent and the window after the deduction that happens only then |
| `YamuxStream.Stream.Write` | third_party_licenses/yamux-source/stream.go:170-254 | the frames sent carry exactly the accepted bytes for any window fragmentation and any closes and resets meanwhile, a close here or a reset before an attempt ends the write, the window balances, a short buffer is left unfinished only if all credit granted before the last attempt was used, and one of 2^32 bytes or more never completes |
| `YamuxStream.Stream.CloseStream` | third_party_licenses/yamux-source/stream.go:332-387 | the phase after a close and whether a FIN is owed |
| `YamuxStream.Stream.SendClose` | third_party_licenses/yamux-source/stream.go:314-329 | the FIN frame and nothing else changed but the phase |
| `YamuxStream.Stream.HandleFlags` | third_party_licenses/yamux-source/stream.go:416-464 | which flags are errors in which phase, and the phase and unregistration after ACK, FIN and RST |
| `YamuxStream.Stream.IncrSendWindow` | third_party_licenses/yamux-source/stream.go:474-483 | the window grows by the update, modulo 2^32 |
| `YamuxStream.Stream.ReadData` | third_party_licenses/yamux-source/stream.go:486-528 | the body is appended and deducted, or refused when it exceeds the receive window |
| `YamuxLink.ActKeeps` | third_party_licenses/yamux-source/stream.go:101-387 | every act of one end keeps the invariant of the stream's two ends and both queues |
| `YamuxLink.AttemptIsOneChunk` | third_party_licenses/yamux-source/stream.go:186-231 | the four acts of an uninterrupted attempt of a write send one chunk and deduct it, as one attempt of the stream object does |
| `YamuxLink.ReceiveKeeps` | third_party_licenses/yamux-source/session.go:577-626 | handling the next frame never fails, whatever is refused, and keeps that invariant: between conforming peers the receive-window-exceeded and unexpected-FIN errors are unreachable |
| `YamuxLink.WritableExactly` | third_party_licenses/yamux-source/stream.go:186-201 | a stream passes the checks of a write exactly while it is neither closed here nor reset, whatever the peer closed |
| `YamuxLink.SendsUnderOpenWindow` | third_party_licenses/yamux-source/stream.go:204-228 | a writer that passed its checks goes on exactly under an open window, and then its chunk carries bytes unless the length is a multiple of 2^32 |
| `YamuxLink.CloseCloses` | third_party_licenses/yamux-source/stream.go:332-387 | after a close the stream is closed or was reset, and its FIN is owed unless it was closed before |
| `YamuxSession.Session.OpenStream` | third_party_licenses/yamux-source/session.go:160-206 | stream ids go up by two until they are exhausted, and the frame that opens the stream is queued |
| `YamuxSession.Session.IncomingStream` | third_party_licenses/yamux-source/session.go:677-715 | an incoming stream is registered, refused with RST, or a duplicate error |
| `YamuxSession.Session.HandleStreamMessage` | third_party_licenses/yamux-source/session.go:577-626 | the one stream a frame belongs to changes as its two-ended model says; frames for unknown streams change none |
| `YamuxSession.MoveProjects` | third_party_licenses/yamux-source/session.go:477-626 | every move of a session is one move of one stream's link and leaves all other streams untouched |
| `YamuxSession.SessionsNeverFail` | third_party_licenses/yamux-source/session.go:547-626 | no schedule of two conforming sessions ever reaches a protocol error |
| `YamuxSession.MultiplexingIsTransparent` | third_party_licenses/yamux-source/session.go:477-527 | in every run, for every stream, registered or not: what arrived is a prefix of what was written; while the stream is registered the rest is its payload in transit |
| `YamuxSession.EndOfFileIsComplete` | third_party_licenses/yamux-source/stream.go:101-165 | in every run, a stream object that saw the FIN of a peer that sent no bytes after it has got all the peer wrote |
| `YamuxSession.EndOfFileIsCompleteExactly` | third_party_licenses/yamux-source/stream.go:332-387 | an end of file means that everything arrived, in all runs, if and only if no bytes are sent after a FIN |
| `YamuxSession.EndOfFileIsCompleteWhen` | third_party_licenses/yamux-source/stream.go:101-165 | in every run, a registered stream that saw the FIN has everything if and only if none of its payload is in transit, which is so whenever no bytes were sent after the FIN |
| `YamuxSession.LateWriteIsLost` | third_party_licenses/yamux-source/stream.go:192-219 | a run in which a write that passed its checks before a close is accepted and lost, behind a regular end of file |
| `YamuxSession.CreditIsConserved` | third_party_licenses/yamux-source/stream.go:204-299 | in every run, for every open stream and both directions: sender's window less what is queued but not deducted, data in transit and credit in transit add up to the receiver's window, modulo 2^32 before a deduction and exactly otherwise; the receiver's window and buffer stay within the maximum |
| `YamuxSession.CreditNeverDeadlocks` | third_party_licenses/yamux-source/stream.go:286-299 | in every run, once a reader emptied its buffer, sent the update it owes and nothing of the stream is in transit, the sender has more than half of the maximum window |
| `YamuxSession.ClosedStreamsAreReleased` | third_party_licenses/yamux-source/stream.go:332-464 | in every run, once both ends closed a stream and no FIN is left to send or deliver, neither session holds it |
| `YamuxSession.PhaseIsHistory` | third_party_licenses/yamux-source/stream.go:416-464 | in every run, the phase of a stream object and whether it is registered are what its history amounts to: confirmed, closed here, closed by the peer, reset |
| `YamuxSession.ResetsAreRefusals` | third_party_licenses/yamux-source/session.go:677-715 | in every run, a stream that processed an RST is unregistered and reset, takes no reads or writes from then on, and was refused by its peer; and a refused stream was reset at its opener or the one RST is on its way |
| `YamuxSession.ConfirmationsAreTrue` | third_party_licenses/yamux-source/stream.go:258-271 | in every run, an opener is confirmed only if its acceptor has sent the ACK, and both agree once none is in transit |
| `YamuxSession.CutConnectionGivesPrefix` | third_party_licenses/yamux-source/session.go:547-626 | from a cut connection a stream's reader gets a prefix of what its peer wrote, registered or not |
| `GuestResources.StepKeepsInv` | guest_resources.py:577-832 | every transaction and every upstream outcome keeps: one connector id per row, phases and CRIDs consistent, retirements exactly for retiring rows, everything published owned |
| `GuestResources.ConnectorsAreUnique` | guest_resources.py:521-527 | no two rows share a connector id, across page-pool generations and renames |
| `GuestResources.RenameIsFree` | guest_resources.py:630-640 | the id a page pool is renamed to is free, so renames never collide |
| `GuestResources.PhasesAreMonotone` | guest_resources.py:621-762 | over any run a row is found again with the same connector id, a phase no earlier and the CRID it had |
| `GuestResources.ConnectorBindsOneCrid` | guest_resources.py:664-692 | over any run a connector id is bound to at most one CRID |
| `GuestResources.WriteAheadOwnership` | guest_resources.py:641-695 | every resource that exists upstream, even one whose publish reply was lost, has a row that is not closed, unless a reset closed it unpublished |
| `GuestResources.RevocationIsConfirmed` | guest_resources.py:714-762 | a row with a CRID is closed only after a delete call for it returned, one without only by a reset, and retirements are exactly the retiring rows |
| `GuestResources.ReadyResourceExists` | guest_resources.py:714-762 | no run deletes a resource while its row is still ready |
| `GuestResourceStore.Store.Ensure` | guest_resources.py:621-702 | the row afterwards and the reason for every error: changed target, retired, failed, unconfirmed or foreign publication, not serving; and a rotated page pool |
| `GuestResourceStore.Store.Allocate` | guest_resources.py:664-692 | bound exactly if the reply confirms and no other row holds the CRID; every other reply leaves the row creating |
| `GuestResourceStore.Store.Revoke` | guest_resources.py:714-762 | closed exactly when the branch that applies was confirmed, otherwise retiring with its retirement on record; a mismatch changes nothing |
| `GuestResourceStore.Store.DeleteUpstream` | guest_resources.py:739-755 | exactly which replies of the three deletion branches count as done |
| `GuestResourceStore.Store.RevokeOwned` | guest_resources.py:704-712 | revocation by the row alone, closed exactly as there, and an allocation that is still pending |
| `GuestResourceStore.Store.SelectDue` | guest_resources.py:764-789 | distinct due entries, at most the limit, and all of them when fewer |
| `GuestResourceStore.Store.DrainRetirements` | guest_resources.py:764-789 | each entry of the batch is gone with its row closed or due after its delay, and nothing else changes |
| `GuestResourceStore.Store.RetireOrphan` | guest_resources.py:813-818 | an orphan is closed exactly if its deletion is confirmed and, while it is still being created, its publication is confirmed and brings a resource no other row has |
| `GuestResourceStore.Store.RetireOrphans` | guest_resources.py:791-832 | mapped, young, backing-off, pooled and retired rows are untouched, and behind a closed gate nothing at all changes; every other due row of the batch is closed exactly if it was recoverable in its turn and put off otherwise, until a turn is refused for the rate, which closes the gate |
| `GuestResourceStore.Store.InvalidateForReset` | guest_resources.py:577-619 | afterwards no row is usable and every retirement is left to management authority |
| `GuestResourceStore.ResetTouchesOne` | guest_resources.py:584-613 | resetting one binding closes or retires it and changes no other row |
| `Backoff.DelaysDoubleToAnHour` | guest_resources.py:764-832 | without advice from the service every queue doubles its delay with each failure until it reaches an hour, from 2, 5, 5 and, for a rate limit, 60 seconds on |
| `Backoff.DelaysHeedTheService` | layerv_broker.py:338-346 | the delay the service asked for is taken, but not less than a second, or five, or the recovery's own |
| `BrokerProtocol.ActKeeps` | layerv_broker.py:159-346 | every act of broker, Gateway and clock keeps each grant's invariant |
| `BrokerProtocol.ListedGrantsAreNeverRetired` | layerv_broker.py:273-346 | in every run a listed grant keeps its mapping and a ready resource of its own |
| `BrokerProtocol.GuestIsolationExactly` | layerv_broker.py:273-346 | that holds in all runs if and only if the broker can see the Gateway's grants and the commit window is at most 15 seconds |
| `BrokerProtocol.ActTracks` | layerv_broker.py:159-346 | no act, whatever the broker can see, loses a queued revocation, reopens a closed grant, or changes the resource an answer named |
| `BrokerProtocol.QueuedRevocationIsKept` | layerv_broker.py:306-346 | in every run, once a revocation is queued it stays queued until the grant has no mapping and the deletion of its resource was confirmed |
| `BrokerProtocol.RevocationIsNeverStuck` | layerv_broker.py:336-346 | in every run, whatever crashed or was cut off, every grant that ever had a mapping is closed or some continuation closes it |
| `GrantDeletion.MoveKeeps` | upstream_cleanup.py:1-5 | every write of the Gateway, act of the broker and answer between them keeps: committed grants and queued jobs are what the broker offered, and what was answered or accepted is on record or done |
| `GrantDeletion.NoDeletionIsLost` | upstream_cleanup.py:1-5 | in every run of Gateway and broker together, with crashes of either and lost or late replies: a grant that was ever committed is in its page, a marker, the cleanup queue or the broker's queue, each time under its own name, until the deletion of its resource was confirmed; writes to a page whose revocation is pending are left out, as `PageRevocation.NoGrantIsForgottenExactly` shows they must be |
| `GrantDeletion.DeletionIsNeverStuck` | layerv_broker.py:332-346 | from every state such a run reaches, the deletion of a committed grant's resource can still be completed |
| `BrokerProtocol.LateCommitLosesGrant` | layerv_broker.py:306-318 | a run in which a commit 15 seconds after the answer or later loses the grant |
| `BrokerProtocol.BlindBrokerLosesGrant` | layerv_broker.py:273-277 | a run in which a broker that cannot see the Gateway's grants retires a listed one |
| `LayerVBroker.Broker.Isolated` | layerv_broker.py:159-346 | isolation in every state these operations pass through or leave after a crash |
| `LayerVBroker.Broker.EnsureReady` | guest_resources.py:621-702 | exactly when the allocation part of a mint succeeds, from the rows, the publication and the target |
| `LayerVBroker.Broker.CreateGrant` | layerv_broker.py:159-243 | exactly how a mint ends for each combination of what was there and what upstream and the disk answer, and what each end leaves behind: mapping, row and offers |
| `LayerVBroker.Broker.Invite` | layerv_broker.py:189-243 | a failed mint or save leaves the resource revoked or its retirement on record; an invitation for another resource is answered with an error alone; a success answers with the saved mapping of a ready resource |
| `LayerVBroker.Broker.RevokeRow` | guest_resources.py:714-762 | closed exactly if the mapping names the row's resource and it was closed before or the deletion returned |
| `LayerVBroker.Broker.DeleteGrant` | layerv_broker.py:246-270 | exactly when a deletion goes through; the mapping goes only after the row was closed |
| `LayerVBroker.Broker.QueueRevocation` | layerv_broker.py:306-318 | a mapped grant is queued once, 15 seconds on; an unmapped one is deleted at once, or the request fails; unless it fails the deletion is on record or done |
| `LayerVBroker.Broker.DrainOne` | layerv_broker.py:336-346 | skipped exactly while the grant is live, otherwise deleted or put off by its delay |
| `LayerVBroker.Broker.DrainRevocations` | layerv_broker.py:332-346 | each due entry of the batch gets one turn: skipped exactly if its grant was live then; otherwise it leaves the queue exactly if the deletion goes through, with no mapping and no open row left, and waits out its delay if not; other entries stay |
| `PageRevocation.WriteKeeps` | pages.py:63-128 | every durable write keeps: committed grants accounted for, markers listing what they mask, queued work not lost, snapshots covering what they will overwrite |
| `PageRevocation.NoGrantIsForgotten` | pages.py:63-128 | at every crash point of a guarded run a committed grant is in its page file, in a marker, in the queue or was taken over by the broker |
| `PageRevocation.NoGrantIsForgottenExactly` | pages.py:85-109 | no run forgets a grant if and only if nothing is written to a page while a revocation of it is pending |
| `PageRevocation.MaskedCommitIsForgotten` | server.py:940-945 | a run from an empty store in which a mint commits to a page whose revocation was interrupted, and recovery erases the grant without queueing it |
| `PageRevocation.ReturnsOnlyByWriteBack` | admin.py:269-276 | in every run, a grant that was masked or removed is returned by a load again if and only if its page is written back with it, and only from a snapshot taken before |
| `PageRevocation.ComesBackExactly` | server.py:943-945 | a removed grant can come back exactly as long as an operation that loaded the page before the removal may still write it back |
| `PageRevocation.ExpiredGrantReturns` | server.py:573-577 | a run in which an expiry that takes no page lock comes between a load and its write-back: the expired grant is queued for deletion and back on the page |
| `PageRevocation.MaskedIsNeverReturned` | pages.py:118-128 | a grant masked by a marker that was written with no operation in the middle of the page is never returned by a load again |
| `PageRevocation.RecoveryRun` | pages.py:85-109 | what recovery leaves behind is reached by allowed writes |
| `PageRevocation.CommitSurvivesExactly` | server.py:940-945 | a grant committed by load and replace survives recovery if and only if no revocation of the page was pending |
| `PageStore.PageStore.Load` | pages.py:59-78 | the stored page, without grants while a marker is there |
| `PageStore.PageStore.Create` | pages.py:130-144 | a new page, or nothing when it exists |
| `PageStore.PageStore.Update` | pages.py:146-163 | an edit never changes the grants a load returns |
| `PageStore.PageStore.CommitGrant` | server.py:940-945 | what was loaded is written back with the new grant in front, whatever expired meanwhile, and a pending revocation costs the run its guarantee |
| `PageStore.PageStore.UpdatePublished` | admin.py:352-364 | a published edit is in the page and adds no grant; one that could not be published puts the page back as it was loaded before, whatever expired meanwhile |
| `PageStore.PageStore.EnqueueGrant` | upstream_cleanup.py:34-48 | a grant with nothing upstream is ignored, and a queued deletion is not replaced |
| `PageStore.PageStore.Recover` | pages.py:85-109 | the grants of the marker are queued, the file cleared, the marker gone |
| `PageStore.PageStore.RevokePage` | pages.py:118-128 | the page's grants are returned, queued and cleared, after any earlier revocation was finished |
| `PageStore.PageStore.RemoveGrant` | pages.py:181-197 | one grant is taken off and queued, the others stay, and a missing one changes nothing |
| `PageStore.ByIdInOrder` | pages.py:181-197 | the grants that are taken off and those that stay keep their order |
| `PageStore.PageStore.Split` | pages.py:207-218 | expired and active grants, each in order |
| `PageStore.PageStore.Expire` | pages.py:199-224 | exactly the grants with an expiry not after now are taken off and queued |
| `PageStore.PageStore.Delete` | pages.py:261-276 | the file goes only when it holds no grant, all of which were queued |
| `PageStore.PageStore.CleanOne` | upstream_cleanup.py:63-78 | completed when the broker accepted it, otherwise due after its delay with one more attempt |
| `PageStore.PageStore.Drain` | upstream_cleanup.py:57-78 | every job of the batch is completed or due later, and no other changes |
| `PolicyPublisher.ActKeeps` | policy.py:32-58 | every step keeps: policies agree or a publication is owed, and an acknowledged page agrees |
| `PolicyPublisher.DivergenceIsNeverSilentExactly` | policy.py:100-109 | no run and no crash leaves a difference without a pending marker, if and only if failed requests are never applied later |
| `PolicyPublisher.LateRunDiverges` | policy.py:71-98 | a run in which a request applied late leaves a difference nothing will repair |
| `PolicyPublisher.Administrator.NeverSilent` | policy.py:32-58 | the same at every point of the operations below |
| `PolicyPublisher.Administrator.Publish` | policy.py:100-109 | marker, request and clearing, for every outcome of each |
| `PolicyPublisher.Administrator.Create` | admin.py:230-241 | published and kept, or deleted again with the marker left |
| `PolicyPublisher.Administrator.Update` | admin.py:352-364 | published and kept, or the previous policy restored with the marker left |
| `PolicyPublisher.Administrator.Delete` | admin.py:452-464 | the local deletion stands, and a failed removal leaves the marker |
| `PolicyPublisher.Administrator.Retry` | server.py:1409-1419 | pages it got to agree with the store and, if the marker could be removed, owe nothing; the first failure ends the round |
| `VerificationTables.DatabaseIsSound` | verification.py:101-249 | sessions and session grants have the same keys, challenges and verifications belong to their session, attempts stay at most five, no verification outlives its session, after any run |
| `VerificationTables.OneTimeOpensOnce` | verification.py:125-137 | in any run, across revocations, a one-time invitation opens at most one session |
| `VerificationTables.EvaluatedCodesAreFresh` | verification.py:195-227 | in any run, a code that is evaluated was sent less than ten minutes before, is tried for the fifth time at most, and belongs to a live session of that page and grant |
| `VerificationTables.GuessesAreBounded` | verification.py:170-184 | in any T seconds without success, cancellation or revocation at most 5(T/60 + 2) wrong codes are evaluated |
| `VerificationTables.GuessUsesBudget` | verification.py:206-220 | each transaction uses up at least the guess it evaluates |
| `VerificationTables.SixthGuessIsNotEvaluated` | verification.py:195-227 | a run in which a one-time invitation is used and five of six wrong codes are evaluated: the bounds on both are attained |
| `VerificationStore.VerificationStore.ConsumeBootstrap` | verification.py:101-140 | exactly which invitations open a session, the rows that are written, and that a refusal changes nothing |
| `VerificationStore.VerificationStore.GuestSessionInfo` | verification.py:142-155 | the grant, expiry and secret of a live session of that page |
| `VerificationStore.VerificationStore.IssueGuestChallenge` | verification.py:157-185 | exactly when there is no session, the code is still valid, it is too soon, or one is sent; a sent one is stored for ten minutes, and nothing else changes |
| `VerificationStore.VerificationStore.CancelGuestChallenge` | verification.py:187-193 | only the challenge with that id is withdrawn |
| `VerificationStore.VerificationStore.VerifyGuestChallenge` | verification.py:195-227 | exactly when a code can be tried; a wrong one costs an attempt that stays counted; a right one verifies for twelve hours, the session or the grant, whichever is shortest |
| `VerificationStore.VerificationStore.GuestVerifiedUntil` | verification.py:229-238 | a live verification of that session, page and grant |
| `VerificationStore.RevocationIsExact` | verification.py:240-249 | a revocation deletes all rows of the grant's sessions and nothing of others |
| `GuestAuthority.FindGrant` | ha_broker.py:833-842 | the first bootstrap-flow grant with that id, or proof that there is none |
| `GuestAuthority.ActionExactly` | ha_broker.py:142-160 | a request resolves to the first resource and action of its ids in the published policy, exactly if the service is curated for the domain and not read-only |
| `GuestAuthority.StatusExactly` | ha_broker.py:833-911 | exactly which guests are let in, which of them are ready, and until when |
| `GuestAuthority.SessionHasOrigin` | ha_broker.py:867-897 | every session in the tables goes back to an exchange of the secret it records |
| `GuestAuthority.VerificationHasOrigin` | ha_broker.py:976-991 | every verification goes back to a correct code for that session |
| `GuestAuthority.EntryBeforeCode` | verification.py:195-227 | the session a guest enters with was opened before the code its verification goes back to |
| `GuestAuthority.NotPermittedExactly` | ha_broker.py:1120-1156 | a request is refused as not permitted only if the policy did not offer the action when it began or when it was looked at again, and whatever is sent was offered both times |
| `GuestAuthority.SentExactly` | ha_broker.py:1120-1167 | a request is sent to Home Assistant exactly if its guest was ready and within the rate, the offered action passed proximity and validation, the policy still offered the same afterwards, and the guest was still ready and not expired |
| `GuestAuthority.TurnedAwayExactly` | ha_broker.py:1120-1131 | exactly when a request ends before the policy is looked at: no status, a code still needed, or the rate |
| `GuestAuthority.HistoryBoundsGuesses` | verification.py:195-227 | in any part of a history in which nothing ends a session's challenge, at most five wrong codes are evaluated for every full minute and ten more |
| `GuestAuthority.DispatchIsExplained` | ha_broker.py:1120-1167 | every service call follows an exchange of the current grant's secret for that session and, if demanded, a later correct code for it; then, with the guest ready, proximity and these parameters were checked for this guest and for exactly the resource, action and proximity policy still published; that policy offers the action, curated and not read-only; and the call happens before grant, session and verification expire |
| `GuestAuthority.VisitIsJustified` | ha_broker.py:1120-1167 | a history in which a guest enters, gives a code, is found near and switches a lamp on, justified as every dispatch must be |
| `GuestBroker.GuestBroker.EveryDispatchIsExplained` | ha_broker.py:1120-1167 | that explanation for every service call these requests ever make |
| `GuestBroker.GuestBroker.GuessesAreBounded` | ha_broker.py:976-991 | that bound for all replies these requests ever gave |
| `GuestBroker.GuestBroker.SessionStatus` | ha_broker.py:833-911 | the status is exactly what four states, read in order, show of session, grant, time and verification |
| `GuestBroker.GuestBroker.Prepare` | ha_broker.py:1120-1147 | exactly what the policy published when it began and the answers make of a request: not permitted, too far, invalid or ready; and the checks are on record, for this guest and after it was found ready |
| `GuestBroker.GuestBroker.Recheck` | ha_broker.py:1148-1156 | whether the same resource, action and proximity are still published |
| `GuestBroker.GuestBroker.Send` | ha.py:384-390 | refused once the deadline has passed, otherwise the last act of the history |
| `GuestBroker.GuestBroker.GuestAction` | ha_broker.py:1120-1171 | how an action ends is exactly what the states it read and the answers show; if it reached Home Assistant, the last act is its dispatch of the data that this request's own validation produced |
| `GuestBroker.GuestBroker.Exchange` | ha_broker.py:867-897 | a session is handed out exactly if the grant had the secret, the exchange opened one and the grant still had the secret afterwards; and what the guest is told of it |
| `GuestBroker.GuestBroker.Confirm` | ha_broker.py:887-897 | if the grant changed meanwhile no session of it is left; otherwise the guest is told the earlier expiry and whether a code is still needed |
| `GuestBroker.GuestBroker.RequestCode` | ha_broker.py:956-973 | which guests get a code: exactly those with a context, when the session may have one now; it is stored for ten minutes, and delivered exactly if the mail went out and the context still held, otherwise withdrawn |
| `GuestBroker.GuestBroker.VerifyCode` | ha_broker.py:976-991 | the reply is exactly that of the store to the code, for a guest whose grant asks for one and against the expiry it had just before; every evaluated guess is a transaction of the history, and a wrong one costs an attempt |
| `RateLimit.WindowIsNeverOverfull` | rate_limit.py:23-40 | no window of a key, wherever it ends, ever holds more than the limit |
| `RateLimit.SlidingWindowRateLimiter.Cleanup` | rate_limit.py:16-21 | afterwards exactly the keys with an event in the window have a place |
| `RateLimit.SlidingWindowRateLimiter.Allow` | rate_limit.py:23-40 | accepted exactly if fewer than the limit were accepted in the window, over the full history; with a key limit a refusal otherwise means every place is held by another key with an event in the window; and what is kept of the key, and, after a window without cleanup, of all others |
| `RateLimit.SlidingWindowRateLimiter.NeverMoreThanLimit` | rate_limit.py:23-40 | the bound on windows for everything this limiter accepted |
| `RateLimit.MinimumIntervalRateLimiter.Check` | rate_limit.py:52-63 | refused only within the interval, with the least sufficient wait in whole seconds; accepted within it only if all other places were taken by keys accepted since |
| `RateLimit.EvictOldest` | rate_limit.py:58-61 | forgetting the oldest key loses it only after every other place was taken since |
| `PageLocks.LockTable.Enter` | server.py:183-188 | the page's one entry, made if missing, counts the use |
| `PageLocks.LockTable.Leave` | server.py:193-197 | the entry leaves the table exactly with its last use, and no other page's entry changes |
| `PageLocks.LockTable.MutualExclusion` | server.py:181-197 | two uses inside one page's critical section are the same thread's |
| `PageLocks.LockTable.TableIsExact` | server.py:181-197 | the table has an entry for exactly the pages in use |
| `ConnectorIdentity.Identity` | homeassistant-app/app_runner.py:287-318 | inconsistent files are refused exactly, a known page keeps its id, a new one gets the smallest that no page has or had, a thousand-and-first gets none |
| `ConnectorIdentity.ReadOwners` | homeassistant-app/app_runner.py:293-310 | who owns which id, or an id out of range or owned twice |
| `ConnectorIdentity.AddressesAreDistinct` | homeassistant-app/app_runner.py:209-214 | different ids have different addresses, from 127.77.0.1 to 127.77.3.250 |
| `ConnectorIdentity.AppRunner.Choose` | homeassistant-app/app_runner.py:880-897 | ids that were published are kept and new ones are new; it fails only for a page that was never published |
| `ConnectorIdentity.AppRunner.Reconcile` | homeassistant-app/app_runner.py:880-908 | with a crash before, between or after the two writes, whatever was published keeps its id |
| `ConnectorIdentity.AppRunner.NeverShared` | homeassistant-app/app_runner.py:880-908 | two pages that were ever published never share an id or an address |
| `Enrollment.LoginsAreAuthorized` | guest_resources.py:202-216 | in any run of competing, dying processes there is at most one login per authorisation |
| `Enrollment.EveryAuthorisationAllowsALogin` | guest_resources.py:342-369 | that bound is attained for every number of resets |
| `Enrollment.ConnectorPublisher.TryClaim` | guest_resources.py:202-216 | won exactly if the row said fresh or reset, and otherwise nothing changed but the recovery flag |
| `Enrollment.ConnectorPublisher.Bootstrap` | guest_resources.py:342-369 | refused unless fresh; how it ends after that for each token, claim, key and login; the process logs in once if it gets that far and otherwise not at all; and its turn is over afterwards |
| `Enrollment.ConnectorPublisher.AtMostOneLoginPerAuthorisation` | guest_resources.py:342-369 | the bound at every point of these operations |

## Left out

- `YamuxStream.Stream.Read`: does not model waiting and read deadlines; one read that does not wait.
- `YamuxStream.Stream.Write`: does not model a deadline that passes while a frame waits to be sent, because such a frame may still go out without its deduction; updates, closes and resets that arrive meanwhile are parameters.
- `YamuxLink.ReceiveKeeps`: covers conforming peers; what a peer that breaks the protocol can cause is not modelled.
- `YamuxSession.SessionsNeverFail`: does not model ping, keepalive, go-away, session shutdown, close timeouts, the semaphore of unacknowledged SYNs or the capacity of the send channel.
- `GuestResourceStore.Store.InvalidateForReset`: takes one step per row where the code has one transaction, which allows more crash points than there are; the row that re-authorises enrollment is in `Enrollment`.
- `GuestResourceStore.Store.RetireOrphans`: says nothing of rows beyond its batch, because the scan takes 50 rows in no order and does not move the ones it skips; likewise `LayerVBroker.Broker.DrainRevocations`.
- `GuestResourceStore.Store.Ensure`: does not model the validation of ids, CRIDs and public keys; a reply either confirms identity, target and readiness or does not.
- `GrantDeletion.NoDeletionIsLost`: covers grants with a resource of their own whose deletion goes through the cleanup queue; what the broker sees of the Gateway's pages (`listed`) changes freely there, since no deletion depends on it.
- `BrokerProtocol.ListedGrantsAreNeverRetired`: lists a grant once, because only an expired grant can be written back after its removal and the property speaks of unexpired ones; covers guest isolation only and no reset; page pools share one resource among grants and are not retired by these paths.
- `LayerVBroker.Broker.CreateGrant`: does not model the checks of lifetime and target path, the connector registry, the deletion of a single link after a failed save, or the journal of page-pool mints (PendingInvitations).
- `LayerVBroker.Broker.DrainRevocations`: takes the batch of due entries as given, at most 50 of them.
- `PageStore.PageStore.Load`: is atomic; a reader in another process that reads file and marker one after the other is not modelled.
- `PageStore.PageStore.Update`: treats everything but the grants as one value; page validation and normalisation are not modelled.
- `PageStore.PageStore.Create`: asks that its grants are new, which fresh grant ids make true, and that the page is not in the middle of another operation, which the page's lock makes true; so do `PageStore.PageStore.CommitGrant` and `PageStore.PageStore.UpdatePublished`.
- `PolicyPublisher.Administrator.Publish`: models a publisher that is configured; without a policy store nothing is published and nothing is owed.
- `GuestBroker.GuestBroker.Prepare`: takes the outcomes of parameter validation, capability checks and the proximity query as inputs and records for what they were asked.
- `GuestBroker.GuestBroker.SessionInfo`: and `VerifiedUntil` read the tables as values, as the methods of `VerificationStore` of similar name do on the store's fields.
- `GuestBroker.GuestBroker.SessionStatus`: states what the four reads show of their own states, in order, not that it held at once, because nothing in the code makes it.
- `GuestAuthority.ResourceAction`: takes the table of curated services as a parameter.
- `ConnectorIdentity.Identity`: covers entries that carry a user id; histories of older versions that hold only a generation are skipped by the code and absent here.
- `Enrollment.ConnectorPublisher.Bootstrap`: reduces the evidence that an installation is not fresh to the status row and the wrapping key, and starts from a database that exists.
- `PageLocks.LockTable.Enter`: an interruption between counting in and taking the lock is not modelled.
- HTTP handlers, sockets, peer credentials, mail, Home Assistant and LayerV clients and the daemon's interface are outcomes: success, failure not applied, failure but applied.
- Pages, themes, onboarding, ingress, audit text, packaging and release scripts.
- Token budgets of the diagnostics, camera limits, guest state and page views: they would add only easier members.
- retire_deleted_page_pools and the list of all grants revoked at once repeat operations that are modelled.
