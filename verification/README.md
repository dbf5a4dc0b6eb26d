# Verified model of the issues sync server

A Dafny model of `issued`, the multi-writer sync server: what its write handlers, its event delivery, its object
cache, its session rotation, its migration runner and its audit pages do, and proofs of what they keep in every run.
`dafny verify dfyconfig.toml` checks everything.

How the pieces fit:

- **Writes.** `WriteProtocol` has the six write handlers as interleaved processes: each step is one statement of one
  request, any statement may fail, and any number of requests overlap. `Linearizability` proves that the `files` table
  is a sequential run of a conditional map (If-Match and If-None-Match of sections 13.1.1 and 13.1.2 of RFC 9110, 428
  of section 3 of RFC 6585) and that no update is lost; `Conservation` balances events and `AuditTrail` audit rows
  against commits; `EventOrder` and `KeptEvents` say when the event table rebuilds the index under overlap,
  `AuditOrder` when the audit log is a chain, `Agreement` and `KeptAgreement` when a row agrees with its S3 object.
  `SerialWrites` and `Rebuild` treat requests served one at a time (the index, the audit chain, S3 agreement); `Races`
  gives overlapping runs that lose serial guarantees; `Answers` has what each request answers and does alone as a
  table; `Handlers` has the handlers as code on mutable tables, proved equal to the processes and the table.
  `Resources` has paths, S3 keys and the issue listing, `Ordering` the order on names.
- **Event delivery.** `Delivery` is the interleaved machine of writers, hub, clients, replays and garbage collection,
  in which the hub offers a broadcast to one client per step. `DeliveryProofs`, `ReplayProofs` and `Reconnect` prove
  its whole-run properties, `DeliveryOrder` and `ReplayOrder` what is enqueued twice or out of order, `Retention` what
  the table holds and what a failed INSERT means, `Limits` the sizes of channels and replays; `HubService` has the
  hub, the read and write loops and the replay as code over mutable clients, each method proved to be a run of that
  machine.
- **Cache.** `RecencyList` is the abstract LRU list with its whole-run theorems, `CacheSurvival` says which keys are
  still there; `LruCache` is the linked ring, map and byte counter, proved to follow it.
- **Sessions.** `Sessions` and `SessionProofs` have rotation (section 10.4 of RFC 6749), revocation and access-token
  expiry (`exp`, section 4.1.4 of RFC 7519) as interleaved statements; `SessionExpiry` has when rows expire and that
  expired ones are refused; `SessionTable` has the functions as code.
- **Migrations** and **AuditPages** have the migration runner and the audit pagination.

Assumptions: SHA-256 of a body is any function that never returns the empty string (nothing else about it is needed);
the digest of a token is a free constructor; tokens are fresh; one clock never goes back; `AppendEvent` assigns its id
and makes its row visible at once, with `created_at` not decreasing in the id; a statement that fails has had no effect.

Where the code and its documentation differ the model follows the code: a failed precondition is answered 409, not 412,
with the raw If-Match header compared to the unquoted etag; the comment on `RotateRefreshToken` speaks of re-using the
just-issued pair, while the code rejects a rotation within the grace window.

Claims that are false of the code, each with a run that shows it and the exact condition under which it holds:

- Rows agree with S3 objects. Broken by a refused PUT (`Rebuild.RefusedPutBreaksAgreement`) and by a DELETE that overlaps
  a POST (`Races.DeleteSweepsNewObject`). After any run it holds exactly as the last commit on the row and the last
  upload or sweep of the key say (`Agreement.AgreesIff`); it stays so in every continuation if and only if the requests in
  flight are safe (`KeptAgreement.StaysAgreeingIff`).
- The event table rebuilds the index. Broken by overlapping PUTs (`Races.AppendOrderCanDiffer`). True of every run in
  which no append fails and nobody commits on a row while another request is between commit and append there
  (`EventOrder.TidyRunsRebuildIndex`). From any state, without further commits on the row, certain if and only if every
  request that still owes an event wrote the etag the row has (`EventOrder.CatchesUpIff`); with the commits of the
  requests in flight, if and only if none of them can change the row while another owes its event
  (`KeptEvents.AlwaysTellsIff`).
- The audit log chains etag_before to the previous etag_after. Broken by a PUT that looks up its etag_before before
  another one commits (`Races.AuditBeforeCanBeStale`). If audit rows are written in commit order, true of a row if and
  only if no commit between lookup and commit of a PUT left another etag (`AuditOrder.AuditChainsIff`).
- A 409 from DELETE means another etag. Broken when the row appears before the existence probe
  (`Races.ConflictWithoutMismatch`); the answer is true if and only if the last commit in between, if any, left the row
  present exactly when it was present at the DELETE (`Linearizability.RefusalReasonIsTrueIff`).
- Access tokens end 15 minutes after revocation: if and only if no rotation is in flight unstamped at that moment
  (`SessionProofs.RevocationBoundsAccessIff`, whose necessary half builds the run).
- Rotations are 30 seconds apart. Broken by overlapping rotations (`SessionProofs.OverlappingRotationsBothSucceed`);
  certain if and only if at most one rotation in flight can still update the row, and not too early
  (`SessionProofs.StaysSpacedIff`).
- Sends never hit a closed channel: true of the hub (`DeliveryProofs.ChannelLifecycle`), false of the read loop and of
  replays (`ReplayProofs.ReplayMayOutliveItsChannel`); after the close it never happens if and only if the read loop has
  ended and no replay is querying or has a frame left (`ReplayProofs.NoSendAfterCloseIff`).
- A subscriber gets events in order and once. Live frames alone do, and so does each replay
  (`DeliveryOrder.EnqueuedAtMostOnce`). Together they do not: an event is enqueued by both exactly when it was in the
  table at the query and its broadcast was offered after the subscription (`DeliveryOrder.EnqueuedTwiceIff`), and a
  replayed row can follow a newer live one (`ReplayOrder.ReplayCanFollowNewer`) if and only if the replay is still to
  query or has a row left (`ReplayOrder.StaysInPlaceIff`).
- Bigger caches include smaller ones. Broken by two Sets and a Get (`RecencyList.GetCanBreakInclusion`), and by two Sets
  alone of which the second fits the larger cache only (`RecencyList.SetCanBreakInclusion`). True all along a run if and
  only if every Get hits both caches or misses the larger one and every Set fits the smaller cache or not even the
  larger, except while the smaller one is empty (`RecencyList.BiggerCacheIncludesSmallerIff`).

## Model

| member | source | states |
|---|---|---|
| Reconnect.ReconnectLeavesNoGap | internal/ws/handler.go:102-125 | Under every interleaving, for a client registered and subscribed before its replay queries and kept so with room for the replay: once the replay has ended, every event of the project with id > since not collected before the query is enqueued, by replay or live, or resyncRequired is; an event appended after the query once its broadcast has left the channel and is not just being offered |
| Reconnect.SubscribingStartsTheReplay | internal/ws/handler.go:102-124 | A subscribe with `since` by a registered client leads to exactly the situation the no-gap theorem starts from |
| Reconnect.NextCovered | internal/ws/hub.go:70-90 | Every single step of the server keeps the coverage invariant: rows up to the query come from the replay, rows after it are live once offered |
| Reconnect.StoreCovered | internal/api/v1/write.go:84-94 | Append before broadcast: a row appended now has not been broadcast, so it is still to come live |
| Reconnect.EndedReplayCoversRow | internal/ws/replay.go:46-67 | A replay that ended without drops has enqueued every row it had to, or asked for a resync |
| Reconnect.ProcessedIsSeen | internal/ws/hub.go:70-90 | A broadcast whose writer is done and which is neither queued nor being offered has been offered to the client |
| DeliveryProofs.LiveDeliveryIsGapFree | internal/ws/hub.go:70-90 | Over any run with the client continuously registered and subscribed, the live frames enqueued for the project are exactly the project's broadcasts in the channel's send history between the first and the last one offered, in send order; all but those queued or being offered are offered |
| DeliveryProofs.RemovedForGood | internal/ws/hub.go:76-86 | A client removed by the hub is never registered again and receives no further hub frame, in any run |
| DeliveryProofs.RefusalRemoves | internal/ws/hub.go:74-87 | A frame refused by a full buffer removes the client and closes its channel without enqueuing anything |
| DeliveryProofs.ChannelLifecycle | internal/ws/hub.go:52-93 | In every run each channel is closed at most once, registered clients have open channels, and the hub never sends on or closes a closed one |
| DeliveryProofs.DeliveriesCommute | internal/ws/hub.go:72-89 | Offers to two clients commute, so the map's iteration order does not matter |
| DeliveryProofs.FanOutIgnoresOrder | internal/ws/hub.go:70-90 | Taking a broadcast and offering it to every registered client has one outcome, whatever the order of visits |
| DeliveryProofs.TableIsSuffixOfHistory | internal/ws/gc.go:28-40 | After any interleaving of appends and garbage collections the event table is a suffix of everything appended, ids ascending |
| DeliveryProofs.RetainIsSuffix | internal/ws/gc.go:29-32 | A collection keeps a suffix of an ordered table |
| DeliveryProofs.RetainKeeps | internal/ws/gc.go:29-32 | A row survives a collection exactly when it is not older than the cutoff |
| Retention.TableIsTheUncollected | internal/ws/gc.go:28-40 | After every run the table holds exactly the rows ever inserted that no later collection was due for |
| Retention.FailedAppendIsBroadcast | internal/api/v1/write.go:84-94 | In every run after a failed INSERT the event never gets a row, and once its writer is done its broadcast has been sent |
| Retention.FailedAppendReachesClients | internal/api/v1/write.go:90-93 | From every state such an event can reach an attached client live, with no row in the table |
| Limits.ChannelsStayBounded | internal/ws/hub.go:41-49 | In every run the channels hold at most 256 broadcasts, 64 registrations, 64 unregistrations and 256 frames per client |
| Limits.OfferIff | internal/ws/hub.go:72-87 | A subscribed client is sent the broadcast exactly if fewer than 256 frames wait, and is removed otherwise |
| Limits.ResyncIff | internal/ws/replay.go:12-58 | A query leads to a resync exactly if 500 or more events match, and else to all of them in order |
| Limits.BroadcastWaitsIff | internal/ws/hub.go:97-99 | A broadcast waits exactly while 256 are queued, and then joins the end |
| Limits.ConnectionsWaitIff | internal/ws/handler.go:65-77 | Registering and unregistering wait exactly while 64 are queued |
| Limits.FailedQueryIsSilent | internal/ws/replay.go:25-27 | A replay whose query fails enqueues nothing in any continuation |
| Limits.RevocationReachesIff | internal/ws/hub.go:104-117 | A revocation reaches a client of the map exactly if it is the member's, subscribed and has room |
| Limits.UnsubscribedGetsNothing | internal/ws/handler.go:127-128 | After an unsubscribe, and while it lasts, no event of the project is sent live |
| ReplayProofs.SelectIsExact | internal/ws/replay.go:18-24 | The query returns ascending ids, at most 500, and when fewer exactly the retained rows of the project behind `since` |
| ReplayProofs.ReplaysFollowTheirSelection | internal/ws/replay.go:34-67 | In every run a replay works on what the table held at its query, and its frames are an ordered subsequence of those rows |
| ReplayProofs.RoomyReplayIsComplete | internal/ws/replay.go:60-66 | If every frame it sends finds room, a replay's frames are exactly the selected rows in order, whatever happens in between |
| ReplayProofs.NoSendAfterCloseIff | internal/ws/handler.go:102-125 | Once the hub has closed a client's channel, no continuation of the run sends on it if and only if the read loop has ended and no replay is querying or has a frame left |
| ReplayProofs.ReplayMayOutliveItsChannel | internal/ws/replay.go:60-66 | A run in which a replay sends on a channel the hub has closed |
| DeliveryOrder.EnqueuedAtMostOnce | internal/ws/hub.go:70-90 | In every run the live frames of a project are a subsequence of its broadcasts in send order, without repeats, and no replay enqueues an event twice |
| DeliveryOrder.EnqueuedTwiceIff | internal/ws/handler.go:102-125 | For a reconnecting client whose replay has ended without a resync, an event is enqueued by replay and live if and only if it was in the table at the query, behind `since`, and was sent live before or offered since the subscription |
| DeliveryOrder.LiveIff | internal/ws/hub.go:70-90 | While attached, a client is sent an event live exactly if its broadcast is offered to it |
| ReplayOrder.StaysInPlaceIff | internal/ws/replay.go:60-66 | For an attached client, no continuation enqueues a replayed row behind a newer live event if and only if the replay neither has its query to make nor a row left |
| ReplayOrder.ReplayCanFollowNewer | internal/ws/replay.go:60-66 | A run from the start in which a replayed event is enqueued behind a newer live one |
| ReplayOrder.CatchUp | internal/ws/hub.go:52-93 | From every state the hub can finish its fan-out and empty its channel while an attached client that is drained stays attached |
| HubService.Hub.RunBroadcast | internal/ws/hub.go:70-90 | As code it is one HubTake and one HubDeliver per registered client in the map's order, with the order-free outcome: subscribed clients with room get exactly this frame, those without are removed and closed, nobody else changes |
| HubService.Hub.RunRegister | internal/ws/hub.go:55-58 | As code it is the machine's HubRegister: the oldest waiting client joins the map |
| HubService.Hub.RunUnregister | internal/ws/hub.go:61-67 | As code it is the machine's HubUnregister: the client leaves the map and only its channel is closed, if it was there |
| HubService.Hub.BroadcastAccessRevoked | internal/ws/hub.go:104-117 | As code it is one Revoke step per client of the map: exactly the named user's subscribed clients with room get the frame; nobody is removed |
| HubService.Hub.Broadcast | internal/ws/hub.go:97-99 | As code it is the machine's Broadcast step of its writer: the event goes to the end of the channel |
| HubService.Hub.Connect | internal/ws/handler.go:59-65 | As code it is the machine's Connect: a new client of that user, without subscriptions and with an empty open channel, waits at the end of the register channel |
| HubService.Hub.Disconnect | internal/ws/handler.go:73-77 | As code it is the machine's Disconnect: the reader is gone and the client waits at the end of the unregister channel |
| HubService.Hub.HandleMessage | internal/ws/handler.go:101-132 | As code a subscribe is the machine's Subscribe, then SendAck: subscriptions change before the ack is offered and the replay starts; an ack without room is dropped, on a closed channel it panics; unknown messages change nothing |
| HubService.Hub.WriteNext | internal/ws/handler.go:144-157 | As code it is the machine's Drain: frames leave in the order they came, also after the channel was closed, and the end is seen only when it is empty |
| HubService.Hub.SendOne | internal/ws/replay.go:60-66 | One select of a replay, in whatever state others have left the channel, is the machine's SendReplay: sent, dropped without room, or a panic on a closed channel |
| HubService.Hub.ReplayEvents | internal/ws/replay.go:18-67 | As code, with nothing else running between its statements, it is a Query and then SendReplay steps to the end: the resync frame or as many payloads as fit, oldest first; on a closed channel it panics if there is anything to send |
| Linearizability.WritesAreLinearizable | internal/api/v1/write.go:96-351 | Under every interleaving the `files` table is the sequential run of the decisions on a conditional map; a 2xx request has exactly one decision, granted, a 409 or 404 one exactly one, refused, any other none |
| Linearizability.StepDecides | internal/storage/queries.go:214-288 | Every statement adds at most one decision, of its own request, answered as the conditional map answers in that state |
| Linearizability.CommitDecides | internal/storage/queries.go:214-272 | The conditional UPDATE, INSERT or DELETE takes effect exactly when its condition holds, and otherwise changes nothing |
| Linearizability.SequentialOrderRespectsRealTime | internal/api/v1/write.go:96-351 | A request finished before another arrives is decided before it |
| Linearizability.NoLostUpdate | internal/storage/queries.go:215-230 | If a commit under If-Match e follows one that left anything but e, some upsert between them wrote e again |
| Linearizability.SameIfMatchTwice | internal/storage/queries.go:215-230 | In every run two granted commits on a path with the same If-Match e have an upsert of e at or after the first and before the second |
| Linearizability.RefusalReasonIsTrueIff | internal/storage/queries.go:259-270 | In every run the 409 or 404 of a refused DELETE is true of the row it was refused on if and only if the last commit between DELETE and probe, if any, left the row present exactly when it was present then; a failed probe says 404 |
| Linearizability.LastCommitDecides | internal/storage/queries.go:214-288 | A row holds what the last granted commit since a point wrote, or what it held then |
| Linearizability.RefusalReasonIsTrue | internal/storage/queries.go:259-270 | In particular, with no commit on the row between DELETE and probe, 409 says exactly that the row was there with another etag and 404 that it was not (or that the probe failed) |
| Conservation.EventsMatchCommits | internal/api/v1/write.go:84-94 | Under every interleaving appended events, failed appends and requests between commit and append are, as multisets, the committed transitions |
| Conservation.EventDescribesTransition | internal/api/v1/write.go:170-184 | A granted request announces the operation and etag of its row's true transition; a row announced as deleted was there under the expected etag, attachments apart, whose DELETE checks nothing |
| Conservation.StepSettles | internal/api/v1/write.go:149-184 | Each statement either commits and then owes one event, or settles the owed event, or does neither |
| AuditTrail.AuditMatchesCommits | internal/api/v1/write.go:163-168 | Under every interleaving audit rows written, those whose insert failed and those still owed are, as multisets, what is due for the committed requests: the requester, the action for its method and kind of resource, the path and the new etag |
| AuditTrail.RequestsAreTheArrivals | internal/api/v1/write.go:96-187 | In every run what is processed and decided is, request by request, what arrived |
| Rebuild.CommitOrderRebuildsIndex | internal/api/v1/write.go:149-184 | After any interleaving the committed transitions folded in commit order give the `files` table |
| EventOrder.TidyRunsRebuildIndex | internal/api/v1/write.go:84-94 | For every interleaving: if no append fails and nobody commits on a row while another request is between commit and append there, then once nobody is in between the event table folds to exactly the index |
| EventOrder.CatchesUpIff | internal/api/v1/write.go:153-184 | After any interleaving, whatever way the run settles, a row's events end up telling its etag if and only if every request that still owes one wrote the row's etag, or none does and they tell it already |
| EventOrder.TwoOwedEventsCanMislead | internal/api/v1/write.go:153-184 | Two requests on one row between commit and append with different etags have a continuation after which the events tell another etag than the row's |
| EventOrder.LateAppendMisleads | internal/api/v1/write.go:153-184 | A request that owes an event with another etag than the row's can be the last to append it |
| EventOrder.StepMoves | internal/api/v1/write.go:149-184 | Each statement commits and then owes its event, appends it, or touches neither index nor events |
| KeptEvents.AlwaysTellsIff | internal/api/v1/write.go:149-184 | After any interleaving, the events tell the row in every quiet state of every continuation without new requests for it if and only if every request that owes an event wrote what the row holds and no request in flight can change the row while another owes its event, now or after a commit still to come |
| KeptEvents.StaysSettled | internal/api/v1/write.go:149-184 | Every step, commits on the row included, keeps such a row so |
| KeptEvents.PairMisleads | internal/api/v1/write.go:149-184 | Two requests in flight, the second able to change the row behind the first one's commit, have a continuation after which the events tell another etag |
| Agreement.TransfersRebuildObjects | internal/api/v1/write.go:143-147 | After any interleaving the objects are the fold of the uploads and sweeps, each of its own request's key and body, and every committed PUT or POST has uploaded |
| Agreement.AgreesIff | internal/api/v1/write.go:143-161 | After any interleaving: if the last commit on the row is a PUT or POST, the resource agrees if and only if the last transfer of its key is an upload with the etag of the committed body; after a DELETE it agrees; without a commit the last transfer is held against the initial row |
| Agreement.StepTransfers | internal/api/v1/write.go:143-161 | Each statement uploads its own body, sweeps its own key, or transfers nothing, and what it commits was uploaded before |
| KeptAgreement.StaysAgreeingIff | internal/api/v1/write.go:317-329 | After any interleaving, a resource agrees in every continuation without new requests for it if and only if it is safe: it agrees, no DELETE is about to clean up, what will upload or can commit carries the row's etag, and no DELETE can take the row away with a request left to create it again; a missing row has nobody to create it or all who may create it agree |
| KeptAgreement.SafeStaysSafe | internal/api/v1/write.go:143-161 | Every step of every request keeps a safe resource safe |
| KeptAgreement.DeleteAndCreateBreak | internal/api/v1/write.go:317-329 | From any state with a DELETE that can take effect and a request that can then create the row, a continuation leaves the row without its object |
| KeptAgreement.RivalsBreak | internal/api/v1/write.go:226-258 | Two requests that can both create a missing row with different etags have a continuation that breaks agreement |
| Rebuild.EventsRebuildIndex | internal/api/v1/write.go:84-94 | Served one at a time with no failed append, folding the event table yields exactly the path-to-etag index |
| Rebuild.AuditIsAChain | internal/storage/queries.go:291-308 | Served one at a time with no failed audit insert or lookup, the audit log chains the initial table to the current one |
| AuditOrder.AuditChainsIff | internal/api/v1/write.go:140-168 | For every interleaving in which no audit insert of the row fails and nobody commits on it while another owes its audit row: the row's audit rows end with its etag, and are a chain if and only if no commit between lookup and commit of a PUT left another etag than the one looked up |
| AuditOrder.BeforeIsTrueIff | internal/api/v1/write.go:140-153 | The etag_before of a request about to commit is what the row then holds if and only if its lookup is still fresh; a failed lookup is only true of a create |
| AuditOrder.OverlappingAuditIsAChain | internal/storage/queries.go:291-308 | If that holds on every row, the whole log chains the initial table to the current one |
| Rebuild.BeforeIsPreviousAfter | internal/api/v1/write.go:140-168 | In a chained log each row's etag_before is the etag_after of the previous row on its path, attachment deletes apart |
| Rebuild.DisagreementMeansUnconfirmedPut | internal/api/v1/write.go:135-161 | In serial runs a row and its object disagree only if the latest upload came from a PUT whose commit did not succeed |
| Rebuild.WhoKeepsAgreement | internal/api/v1/write.go:226-258 | POST and DELETE never break agreement and a successful PUT or POST restores it |
| Rebuild.FailedPutKeepsAgreementIff | internal/api/v1/write.go:143-161 | A PUT that uploaded but did not commit leaves agreement if and only if there is no row or the row has the new etag |
| Rebuild.RefusedPutBreaksAgreement | internal/api/v1/write.go:143-161 | A PUT with a stale If-Match is answered 409 and leaves row and object in disagreement |
| Rebuild.OthersUntouched | internal/api/v1/write.go:136-137 | A request changes neither row nor object of any other resource |
| Races.ConflictWithoutMismatch | internal/storage/queries.go:251-272 | A run in which DELETE answers 409 though the row was never there with another etag |
| Races.DeleteSweepsNewObject | internal/api/v1/write.go:317-329 | A run in which DELETE and POST both succeed and the new row has no object |
| Races.AppendOrderCanDiffer | internal/api/v1/write.go:153-184 | A run in which the event table rebuilds an older etag than the row's |
| Races.AuditBeforeCanBeStale | internal/api/v1/write.go:140-168 | A run in which two PUTs succeed one after the other and the second audit row does not start where the first ended |
| SerialWrites.ServeIsARun | internal/api/v1/write.go:96-188 | Serving a request alone is one of the interleaved runs, so all their theorems apply |
| SerialWrites.ServeProgress | internal/api/v1/write.go:121-186 | What one request does from start to end, for every set of failing statements: row, object, audit row and event together or not at all as the stage reached says |
| Answers.PutAnswers | internal/api/v1/write.go:98-187 | A PUT served alone, for every row, header and set of failing statements: its status, and row, object, audit row and event spelled out |
| Answers.PostAnswers | internal/api/v1/write.go:198-280 | The same for POST of an issue |
| Answers.DeleteAnswers | internal/api/v1/write.go:285-350 | The same for DELETE of an issue and of an attachment |
| Answers.HandledIff | internal/api/v1/write.go:365-373 | A request gets a handler exactly if its project id has 36 characters, its issue id is four digits, its attachment has a name, and the route exists |
| Handlers.Server.PutHandler | internal/api/v1/write.go:98-187 | The three PUT handlers as code do exactly what their process does, and answer and leave what the PUT table says |
| Handlers.Server.PostIssueHandler | internal/api/v1/write.go:198-280 | The same for POST of an issue and its table |
| Handlers.Server.DeleteIssueHandler | internal/api/v1/write.go:285-350 | The same for DELETE of an issue and its table |
| Handlers.Server.DeleteAttachmentHandler | internal/api/v1/write.go:458-524 | The same for DELETE of an attachment and its table; it checks no condition and no row count |
| Handlers.Server.UpsertFile | internal/storage/queries.go:214-246 | Updates the row only under its exact etag, or inserts only if absent; conflict otherwise, table unchanged |
| Handlers.Server.DeleteFile | internal/storage/queries.go:251-272 | Deletes only under the exact etag; otherwise conflict or not-found by the probe, table unchanged |
| Handlers.Server.FileExists | internal/storage/queries.go:276-288 | The row's etag if it is there, the empty string otherwise or on failure |
| Handlers.Server.WriteAuditLog | internal/storage/queries.go:291-308 | Appends one row with the given actor and action and with empty etags as NULL, or nothing on failure |
| Handlers.Server.AppendEvent | internal/storage/queries.go:311-321 | Appends the event at the end, or nothing on failure |
| Resources.ResourcesNeverCollide | internal/api/v1/write.go:136-137 | Two valid resources of any projects share a row, or an S3 key, if and only if they are the same |
| Resources.PathsAreInjective | internal/api/v1/write.go:399-400 | Within a project, equal paths mean equal resources |
| Resources.SelectedIff | internal/storage/queries.go:101-106 | The listing query selects a resource exactly when it is an issue with a live row |
| Resources.IssuePathsAreIssues | internal/storage/queries.go:103 | The listing pattern matches the path of issues and of nothing else |
| Resources.AnswerExists | internal/storage/queries.go:101-106 | For every table and project there is an answer to the listing query |
| Resources.IssuesForProject | internal/storage/queries.go:100-133 | The listing has exactly the ids (with etags) of live issue rows, in ascending order |
| RecencyList.FitIsLongestFittingPrefix | internal/storage/cache.go:91-99 | Eviction keeps exactly the longest prefix of the recency list that fits |
| RecencyList.SetSurvives | internal/storage/cache.go:50-77 | A fitting Set leaves its own entry at the front |
| RecencyList.RunWithinCapacity | internal/storage/cache.go:50-108 | In every run keys are distinct and the total size is within capacity |
| RecencyList.HitIsLastWrite | internal/storage/cache.go:35-87 | In every run a hit returns the last fitting Set of the key that no Delete followed |
| CacheSurvival.FoundIff | internal/storage/cache.go:35-108 | After every run a key is found if and only if it has a fitting Set with no later Delete and its value, with the values of all keys used since its own last use, has fitted the capacity ever since |
| CacheSurvival.StackIsByLastUse | internal/storage/cache.go:35-77 | What FoundIff counts is ordered by last use: the keys in front of a key are those used since |
| CacheSurvival.StackHas | internal/storage/cache.go:50-87 | And has exactly the keys whose last fitting Set no Delete followed, with that value |
| CacheSurvival.DeleteKeepsOthers | internal/storage/cache.go:80-87 | A Delete takes out its key and keeps every other lookup and the order of the rest |
| CacheSurvival.SetKeepsWhatFits | internal/storage/cache.go:50-77 | A fitting Set keeps a prefix of the new list if and only if it fits; an oversized one changes nothing |
| CacheSurvival.GetKeepsAll | internal/storage/cache.go:35-45 | A Get changes no lookup; a hit comes to the front |
| RecencyList.BiggerCacheIncludesSmallerIff | internal/storage/cache.go:35-108 | All along any run the smaller cache's list is a prefix of the larger one's if and only if every Get hits both or misses the larger, and every Set fits the smaller or not even the larger, except while the smaller is empty |
| RecencyList.OpKeepsInclusionIff | internal/storage/cache.go:35-87 | One operation keeps inclusion if and only if it does not tell the two caches apart |
| RecencyList.BiggerCacheIncludesSmaller | internal/storage/cache.go:50-99 | In particular after such a run the smaller cache's list is a prefix of the larger one's |
| RecencyList.SetDeleteRunsAreIncluded | internal/storage/cache.go:50-99 | That holds for all Set and Delete runs whose values fit the smaller cache |
| RecencyList.GetKeepsInclusionIff | internal/storage/cache.go:35-45 | A Get keeps inclusion if and only if it does not hit the larger cache alone (or the smaller is empty) |
| RecencyList.GetCanBreakInclusion | internal/storage/cache.go:35-45 | A run of two one-byte Sets and a Get after which the cache of capacity 1 is not included in that of capacity 2 |
| RecencyList.SetCanBreakInclusion | internal/storage/cache.go:50-77 | A run of two Sets, the second fitting only the larger cache, after which the cache of capacity 1 is not included in that of capacity 2 |
| LruCache.LruCache.Get | internal/storage/cache.go:35-45 | On the linked ring: returns the list's answer and moves the entry to the front |
| LruCache.LruCache.Set | internal/storage/cache.go:50-77 | On the linked ring: the abstract Set, oversized values leaving everything as it was |
| LruCache.LruCache.Delete | internal/storage/cache.go:80-87 | On the linked ring: this key is gone, every other key is found as before, and the rest keep their order |
| LruCache.LruCache.Evict | internal/storage/cache.go:91-99 | Removes from the back until the rest fits, ending for zero-size values too |
| LruCache.LruCache.RemoveElement | internal/storage/cache.go:103-108 | Keeps ring, map and byte count in agreement |
| LruCache.Moved | internal/storage/cache.go:43 | Moving an element to the front keeps index, entries and byte count |
| SessionProofs.RevocationIsFinal | internal/storage/admin_queries.go:79-88 | Under every interleaving a revoked session stays revoked and no rotation selecting it later returns tokens |
| SessionProofs.RevokeIsForGood | internal/storage/admin_queries.go:79-88 | After a revocation the session is revoked in every continuation |
| SessionExpiry.PassedInTime | internal/auth/session.go:185-190 | In every run a rotation past its first check read the clock no later than the expiry of the row it selected, which was not revoked |
| SessionExpiry.PassedGrace | internal/auth/session.go:192-197 | In every run a rotation past its second check read the clock at least 30 s after its row was last seen |
| SessionExpiry.ExpiredNeverPasses | internal/auth/session.go:188-190 | A rotation whose row expired before its first check is answered with tokens in no continuation |
| SessionExpiry.NativeRowsExpireAfterThirtyDays | internal/auth/session.go:25 | In every run a native row expires exactly 30 days after the stamp of its last access token |
| SessionExpiry.WebRowsExpireAfterSevenDays | internal/auth/session.go:76-98 | In every run a web row expires exactly 7 days after its issue, whatever happened to it since |
| SessionProofs.ReplacedTokenNeverPasses | internal/auth/session.go:173-233 | Under every interleaving a replaced refresh token never passes a later lookup |
| SessionProofs.RotationsAreSpaced | internal/auth/session.go:195-233 | Without overlapping rotations of the session: first renewal at least 30 s after issue, n renewals span at least (n-1)*30 s |
| SessionProofs.OverlappingRotationsBothSucceed | internal/auth/session.go:173-233 | A run in which two overlapping rotations both succeed at the same instant |
| SessionProofs.StaysSpacedIff | internal/auth/session.go:173-233 | After any run, overlapping or not, renewals stay 30 s apart in every continuation without further overlap if and only if they are so far, at most one rotation in flight can still update the row, and not within 30 s of the last update |
| SessionProofs.RivalRotationsBreak | internal/auth/session.go:173-233 | Two rotations in flight that can both update the row have a continuation in which both succeed at one instant |
| SessionProofs.HastyRotationBreaks | internal/auth/session.go:195-233 | A rotation in flight that can update the row too early has a continuation in which it does |
| SessionProofs.RevocationBoundsAccessIff | internal/auth/session.go:185-235 | Every access token expires within 15 minutes of the revocation in all continuations if and only if no rotation is in flight that has not stamped and can still pass |
| SessionProofs.AccessEndsAfterRevocation | internal/auth/session.go:207-212 | The sufficient half, for every continuation and every token |
| SessionProofs.UnstampedRotationOutlives | internal/auth/session.go:207-235 | The necessary half: a continuation that breaks the bound |
| SessionProofs.OutlivesIffStampedLater | internal/auth/session.go:24 | With `exp` in whole seconds, a token outlives a moment by its duration exactly when stamped in a later second |
| Sessions.NextKeepsInv | internal/db/migrations/001_initial.sql:42 | Every statement keeps refresh hashes unique and in-flight tokens out of the table |
| SessionTable.SessionTable.RotateRefreshToken | internal/auth/session.go:165-236 | As code: a pair exactly if the token is found, its row is unrevoked, unexpired at the first clock reading and not seen within 30 s before the second, and the UPDATE goes through; then the new hash, 30 days and a 15-minute token, else nothing changes |
| SessionTable.SessionTable.IssueNativeSession | internal/auth/session.go:33-72 | As code: a new row found by its token that expires in 30 days, and a 15-minute access token; nothing if the INSERT fails |
| SessionTable.SessionTable.ValidateWebSession | internal/auth/session.go:127-160 | As code: the owner exactly for a web session that is not revoked and not past its expiry; exactly its row is then marked as seen now, unless that UPDATE fails |
| SessionTable.SessionTable.RevokeSession | internal/storage/admin_queries.go:79-88 | As code: sets revoked_at of that row to now and changes no other |
| Migrations.MigrationsApplyOnceInOrder | internal/db/migrate.go:49-97 | After any sequence of runs failing anywhere, the applied versions are a prefix of the plan, each took effect once; a run returning nil leaves all applied |
| Migrations.PlanIsSound | internal/db/migrate.go:41-50 | The plan has the wanted files in ascending name order, and no version twice |
| Migrations.PlanIsTheSortedFiles | internal/db/migrate.go:41-50 | The plan has one version per wanted file, in sorted order, each the file's name without .sql |
| Migrations.NilMeansAllFilesApplied | internal/db/migrate.go:49-97 | After any runs, one that returns nil leaves exactly the wanted files applied, once each, in ascending order of names |
| Migrations.RunGoesToTheFirstFault | internal/db/migrate.go:49-97 | A run applies what is not applied up to the first file whose fault ends it, and returns nil if and only if there is none |
| Migrations.WantedHas | internal/db/migrate.go:41-46 | Exactly the plain files ending in .sql are taken |
| Ordering.LessIff | internal/db/migrate.go:47 | A name comes first exactly if it is a proper prefix of the other or smaller at the first difference |
| Migrations.Migrator.Migrate | internal/db/migrate.go:23-98 | The runner as code does exactly one run of the plan, whose files and outcome the lemmas here pin down |
| Migrations.Migrator.ApplyOne | internal/db/migrate.go:65-92 | Script and tracking row are committed together or not at all |
| Migrations.Migrator.CollectFiles | internal/db/migrate.go:41-47 | The loop and the sort give the sorted list of wanted names |
| AuditPages.AllPagesShowAllRows | internal/admin/admin.go:738-741 | Pages 1 to TotalPages concatenated are exactly the matching rows, newest first |
| AuditPages.EarlierPagesAreFull | internal/storage/admin_queries.go:304-318 | Every page before the last is full |
| AuditPages.PagesSuffice | internal/admin/admin.go:738-741 | The page count is at least 1, holds all rows, and one page fewer would not |
| AuditPages.FewerPagesDoNot | internal/admin/admin.go:738-741 | No smaller number of pages holds all rows |
| AuditPages.LastPageIsTheLast | internal/admin/admin.go:738-741 | With any matching row, a page is empty if and only if it is behind the last one counted |
| AuditPages.SliceIsExact | internal/storage/admin_queries.go:304-318 | LIMIT and OFFSET: which row is at each place of a page and how many there are |
| AuditPages.NewestIsExact | internal/storage/admin_queries.go:306-316 | The paged rows are exactly the rows of the given user, project and action, where given, ids strictly descending |
| AuditPages.BuildWhere | internal/storage/admin_queries.go:276-295 | The built conditions and arguments select a row exactly when it has the given user, project and action, where given |
| AuditPages.RunAuditLog | internal/storage/admin_queries.go:267-340 | The two queries and the result loop give the slice of that page and the total, with 50 and page 1 as defaults |
| AuditPages.GetAudit | internal/admin/admin.go:717-750 | A page below 1 becomes 1; shows the 50 rows of that page, the total, and the least number of pages of 50, at least 1; an empty page beyond the last |

## Left out

- WebAuthn, JWT signing and parsing, invites, bootstrap, roles and middleware: role and input checks are one guard at the start of each handler.
- Lost acknowledgements: a statement that reports an error is taken to have had no effect.
- Size, content type and modification columns of `files`: written by every upsert and read by no condition.
- `Cache.Delete` in the handlers: the cache is modelled on its own, since no handler fills it.
- A server without a hub, which appends no events: the model always has one.
- LruCache.LruCache.constructor: negative capacities are not modelled; they make every Set a no-op.
- HubService.Hub.ReplayEvents: composes the statements of one replay with nothing in between; `HubService.Hub.SendOne` is the single statement in any state.
- HubService.Hub.Broadcast: blocking sends are methods that wait for room; a full channel is not an error of the source.
- The instant between a refused broadcast and the removal of the slow client is one step of the hub.
- Handlers.Server.DeleteFile: the handler runs undisturbed here; between its two statements other requests run only in `WriteProtocol`.
- Migrations.Migrator.Migrate: failures to create the tracking table or to read the directory, which return before any file, are not modelled.
- Timestamps inside event payloads, client addresses, user agents and JSON encoding.
- Read handlers, admin pages other than the audit log, S3 streaming, mail, configuration, routing, deployment.
