# A verified model of the chat backend

The project models the state machines of the Go chat backend and proves what they promise over
every run. Code that changes fields is a class whose methods are proved against functions on
values; the properties are then lemmas about those functions and about all runs of steps.

| file | subject |
|---|---|
| `HubState.dfy`, `HubRuns.dfy`, `HubFanOut.dfy`, `HubObjects.dfy` | the WebSocket hub: critical sections as functions, every interleaving of them, the fan-out law, and the `Hub`/`Client` objects |
| `Cluster.dfy`, `ClusterDelivery.dfy`, `Channels.dfy` | several pods over one Redis log and one message table; channel names |
| `Admission.dfy` | the per-address connection counter |
| `Snowflake.dfy`, `SnowflakeCallers.dfy` | the id generator, serial and with callers that interleave |
| `RateLimiter.dfy` | the sliding-window script and its sorted set |
| `Tokens.dfy` | token issue, validation, refresh and logout over a blacklist that expires |
| `Messages.dfy`, `Reactions.dfy`, `RowRaces.dfy`, `Paging.dfy` | message lifecycle, deduplication, reactions, calls that race on one row, cursor paging |
| `RoomTables.dfy`, `Rooms.dfy` | room membership, the drift of `member_count`, the room cache |

How to read the runs: a `Run` folds a sequence of steps, and a step that is not enabled changes
nothing, so a lemma over all sequences is a lemma over all runs. In the hub a broadcast is not one
step. Its snapshot, and for each client the lookup, the check with the send, and the eviction are
steps of their own, and the critical sections of all other goroutines come between them. The class
method `BroadcastMessage` is the call without interruption, and `UninterruptedIsARun` shows that it
is one of those interleavings.

## What turned out false, and the exact condition

- Ids made by interleaved callers are in lock order if and only if no caller reads a millisecond that
  another caller is waiting to see the end of (`IdsInLockOrder`). A run in which no millisecond uses
  up its 4096 sequence values is always in order; `ExhaustionRepeatsAStamp` gives a run with two
  equal ids.
- Serial ids stay in order for all clocks below a bound if and only if the bound is at most 2^41 ms
  after the epoch (`SerialOrderHorizon`).
- The limiter keeps its bound on all runs if and only if the window is shorter than a millisecond or
  a whole number of milliseconds (`BoundIffWholeMillis`), because the key's expiry is cut to whole
  milliseconds.
- `Logout` does not look at the type of its tokens, so a refresh token in the access slot gets the
  short entry, which even replaces an earlier long one. In a run of the service methods no consumed
  token is ever accepted again if and only if each logout's entries lapse no earlier than the tokens
  of known users they are for (`RevocationOutlivesToken`); only the newest refresh token of each
  login is ever accepted if and only if this holds for superseded refresh tokens (`RotationIff`).
  `SwappedSlotsReviveAToken` and `SwappedSlotsForkALogin` are runs where they fail. Those calls reach
  only `AuthService.Logout` itself: the route lets a logout through only with a valid access token in
  the access slot (cmd/server/main.go:218, internal/handlers/handlers.go:123-148). Through the route,
  rotation and the bound on usable refresh tokens hold in every run (`RoutedConservation`), and
  revocation holds in every run if and only if access tokens live no longer than refresh tokens
  (`RoutedRevocationIff`). The equivalences are for TTLs that are not negative.
- `extractRoomIDAndEvent` undoes the channel printers if and only if the room id has no colon.
- Paging yields each visible row once, for every page size, if and only if no two visible rows share
  their `created_at` (`CompleteIffDistinctTimes`).
- "A deleted row is frozen" holds for serial calls. With interleaved calls a deleted row stays as it
  is if and only if no edit is past its check and every reaction call past its check would change
  nothing (`RowRaces.DeletedIsFrozenIff`): neither `Update` nor `UpdateReactionsTx` looks at
  `deleted_at`. A pending edit always changes the row, since every store writes the edit time
  (`PendingEditThaws`).
- Reactions refine the set of pairs under any interleaving of reaction calls. With edits in between
  they do if and only if no edit stores reactions that a commit changed since the edit read them
  (`ReactionsSurviveEditsIff`), because `Update` writes back the reactions it read.
- Every subscriber of a room is an active member if and only if no subscriber was last taken out by
  `RemoveMember`, which does not unsubscribe (`SubscribersAreMembers`).
- After CloseAll the gauges are too high by exactly the cleanups of clients it had closed
  (`GaugesConserved`).
- A banned user who has left stays out if and only if nobody calls `AddMember` for them
  (`BannedStaysOutIff`).

Where documentation and code disagree the model follows the code: the deduplication key is written
with a plain `Set`, not `SET NX`; blacklist entries get the full TTL of their slot, not the token's
remaining validity; `RefreshToken` issues the new pair before it invalidates the old `jti`.

## Model

| member | source | states |
|---|---|---|
| Snowflake.PackIsFields | pkg/snowflake/snowflake.go:51-53 | the 64-bit shifts and ors put offset, node and sequence in places that do not overlap |
| Snowflake.PackUnpack | pkg/snowflake/snowflake.go:51-53 | node and sequence always come back from an id, the time exactly within 2^41 ms of the epoch |
| Snowflake.NodesNeverCollide | pkg/snowflake/snowflake.go:51-53 | generators with different node ids never make the same id, whatever their clocks |
| Snowflake.Generator.SetNodeID | pkg/snowflake/snowflake.go:91-100 | accepts exactly 0..1023 and otherwise leaves the node id alone |
| Snowflake.Generator.Generate | pkg/snowflake/snowflake.go:28-55 | for any clock readings, the loops end in the state of the specification and return that state's packed id |
| Snowflake.Generator.WaitNextMillis | pkg/snowflake/snowflake.go:57-67 | returns the first reading after the last time used, or waits on when there is none |
| Snowflake.DrawReturns | pkg/snowflake/snowflake.go:28-67 | a call returns no later than the first reading past the last time used |
| Snowflake.DrawAdvances | pkg/snowflake/snowflake.go:41-50 | every returned id has a strictly greater time and sequence than the one before |
| Snowflake.DrawIsTimely | pkg/snowflake/snowflake.go:32-50 | an id carries the last reading taken, with the next sequence value of its millisecond or zero of a later one, and no earlier reading would have done |
| Snowflake.SerialIdsIncrease | pkg/snowflake/snowflake.go:28-67 | serial calls return strictly increasing ids for every sequence of readings below the horizon, backward jumps included |
| Snowflake.SerialOrderHorizon | pkg/snowflake/snowflake.go:11-18 | that order is guaranteed for readings below a bound exactly when the bound is at most 2^41 ms after the epoch |
| Snowflake.SerialIdsUnpack | pkg/snowflake/snowflake.go:50-54 | each id of a serial run unpacks to its generator's node and the time and sequence it was drawn with |
| Snowflake.GeneratorsNeverCollide | pkg/snowflake/snowflake.go:51-53 | two generators with different nodes share no id over whole runs, whatever their clocks show |
| SnowflakeCallers.OrderIffNoReuse | pkg/snowflake/snowflake.go:33-50 | in every interleaving the stamps increase in lock order exactly when nobody reads a millisecond another caller has used up and waits on |
| SnowflakeCallers.IdsInLockOrder | pkg/snowflake/snowflake.go:28-67 | the same equivalence for the ids themselves |
| SnowflakeCallers.OrderWithoutExhaustion | pkg/snowflake/snowflake.go:28-67 | a run in which no millisecond exhausts its 4096 values keeps lock order |
| SnowflakeCallers.ExhaustionRepeatsAStamp | pkg/snowflake/snowflake.go:42-45 | with exhaustion there is a run that returns the same stamp twice |
| SnowflakeCallers.AloneIsSerial | pkg/snowflake/snowflake.go:28-67 | one undisturbed caller of the interleaved machine is exactly the serial call |
| RateLimiter.RedisLimiter.CheckRateLimit | internal/pubsub/pubsub.go:248-264 | the command sequence on the stored set does to its own key what the script specification says and touches no other key |
| RateLimiter.RedisLimiter.RemoveRangeByScore | internal/pubsub/pubsub.go:238 | drops exactly the entries with a score in the range; an emptied key is gone |
| RateLimiter.KeptIsRecent | internal/pubsub/pubsub.go:238-239 | what is left after pruning is exactly the admissions of the window, and its size their count |
| RateLimiter.ExactDecision | internal/pubsub/pubsub.go:238-245 | one request is decided as a count over the complete admission history decides it |
| RateLimiter.RunDecidesExactly | internal/pubsub/pubsub.go:230-264 | the same for each request of every run |
| RateLimiter.RunBounded | internal/pubsub/pubsub.go:230-264 | at every instant T at most `limit` admissions lie in (T-window, T], and the set never has more entries |
| RateLimiter.BoundIffWholeMillis | internal/pubsub/pubsub.go:254-258 | all runs keep the bound exactly when the window survives the cut to milliseconds |
| RateLimiter.TruncatedWindowAdmitsTooMany | internal/pubsub/pubsub.go:254-259 | for every other window there is a run that admits one request too many |
| RateLimiter.KeysAreIndependent | internal/pubsub/pubsub.go:248-251 | in a shared store each key goes through exactly the run of its own requests |
| RateLimiter.AdmissionSetsLifetime | internal/pubsub/pubsub.go:254-258 | after an admission the key lives the whole milliseconds of its window, and one at least |
| Tokens.AuthService.Login | internal/service/auth_service.go:123-150 | wrong credentials change nothing; right ones return a pair and sign exactly that pair |
| Tokens.AuthService.Generate | internal/service/auth_service.go:379-409 | a token with its type, fresh id and `exp` cut to whole seconds, and nothing else is signed |
| Tokens.AuthService.ValidateAudience | internal/service/auth_service.go:158-187 | true exactly when the audience is unrestricted or one of the token's audiences is allowed |
| Tokens.AuthService.ValidateToken | internal/service/auth_service.go:212-264 | accepts exactly signed, unexpired tokens of the right issuer, audience, type and user that are not blacklisted, with the error of the first check that fails |
| Tokens.AuthService.RefreshToken | internal/service/auth_service.go:266-338 | a refused token changes nothing; an accepted one signs a new pair and blacklists the old id |
| Tokens.AuthService.Logout | internal/service/auth_service.go:349-372 | blacklists both ids, each with the TTL of its slot, with no other check |
| Tokens.AuthService.InvalidateToken | internal/pubsub/pubsub.go:284-288 | replaces the lapse of one blacklist key |
| Tokens.RevocationOutlivesToken | internal/service/auth_service.go:212-372 | for every run: no consumed token is accepted by any later call at any later time, if and only if each logout's entries lapse no earlier than the tokens of known users they are for |
| Tokens.UpheldIffCovered | internal/service/auth_service.go:349-372 | the same equivalence for both laws, revocation of consumed tokens and rotation of refresh tokens |
| Tokens.ConsumedForGood | internal/service/auth_service.go:328-371 | every logout and every successful refresh consumes what it was given, for good |
| Tokens.AcceptedIff | internal/service/auth_service.go:212-264 | in the runs where revocation holds, a signed token of a known user is accepted exactly until it is consumed or expires |
| Tokens.ValidatesIff | internal/service/auth_service.go:212-264 | field by field, exactly which tokens validate, and to which user |
| Tokens.ExpiredIff | internal/service/auth_service.go:220-225 | a refusal is called expired exactly for a token this service signed, past its time |
| Tokens.ValidatesToItsLogin | internal/service/auth_service.go:253-263 | in every run, whatever the logouts, a token that validates stands for the user of the login it goes back to, through any number of refreshes |
| Tokens.LifeOfAToken | internal/service/auth_service.go:379-409 | where revocation holds, every token issued to a known user validates to that user, as its own type only, until it is consumed or its TTL less a second is over, and is expired from its TTL on |
| Tokens.RunAsIssued | internal/service/auth_service.go:318-326 | in every run the signed tokens are exactly those of accepted logins and refreshes, with subject, type and life as asked |
| Tokens.EntryCoversTokenIff | internal/pubsub/pubsub.go:284-298 | while an entry stands, it rejects its token at all times exactly when it lapses no earlier than `exp` |
| Tokens.AuthService.HandleLogout | internal/handlers/handlers.go:123-148 | the route: a logout without a valid access token changes nothing, any other reaches the service |
| Tokens.RoutedCovers | cmd/server/main.go:218 | a logout that came through the route covers superseded refresh tokens always, and all tokens when refresh tokens live as long as access tokens |
| Tokens.RoutedRevocationIff | internal/handlers/handlers.go:304-321 | through the route, revocation holds in every run if and only if `accessTTL <= refreshTTL` |
| Tokens.SwappedSlotsReviveAToken | internal/service/auth_service.go:349-372 | past the route, a refresh token logged out properly and then again in the access slot is accepted again |
| Tokens.SwappedSlotsForkALogin | internal/service/auth_service.go:349-372 | past the route, a superseded refresh token in the access slot leaves one login with two usable ones |
| Tokens.RotationIff | internal/service/auth_service.go:266-372 | for every run: only the newest refresh token of each login is ever accepted, if and only if no logout cuts short the entry of a superseded one |
| Tokens.OneUsablePerLogin | internal/service/auth_service.go:300-337 | in those runs, of each login's chain of refresh tokens at most one is usable |
| Tokens.UsableAtMostLogins | internal/service/auth_service.go:123-150 | in those runs, usable refresh tokens never outnumber successful logins |
| Tokens.RoutedConservation | cmd/server/main.go:218 | through the route both bounds hold in every run, whatever the TTLs |
| Channels.RoomChannelParsesIff | internal/server/server.go:215-227 | the parser undoes the message channel's name exactly for ids without a colon |
| Channels.EventsChannelParsesIff | internal/pubsub/pubsub.go:205 | the parser undoes the event channel's name exactly for ids without a colon |
| Channels.ChannelsAreApart | internal/service/message_service.go:107 | no channel of one room is a channel of another, nor its message channel its event channel |
| Channels.ParsedIsPrinted | internal/server/server.go:215-227 | another prefix names no room, and any other channel reads back as the room and event it is parsed into |
| HubObjects.Client.TrySend | internal/server/server.go:597-599 | the frame is appended exactly when fewer than 256 are waiting, and never blocks |
| HubObjects.HubServer.Register | internal/server/server.go:518-527 | the client enters `clients` and its user's group, and the gauge goes up by one |
| HubObjects.HubServer.DropClient | internal/server/server.go:545-562 | one client leaves the three indexes, emptied groups go, and the subscriptions taken off are counted |
| HubObjects.HubServer.CleanupClient | internal/server/server.go:540-574 | a registered client is dropped; the gauges go down only when it was not closed before |
| HubObjects.HubServer.SnapshotRoom | internal/server/server.go:577-582 | each client of the room once, in some order |
| HubObjects.HubServer.OfferTo | internal/server/server.go:593-599 | a closed client is skipped, an open one gets the frame or is found full |
| HubObjects.HubServer.EvictClient | internal/server/server.go:600-630 | a full client still registered is dropped and the gauges follow; one already gone is left |
| HubObjects.HubServer.ServeClient | internal/server/server.go:584-631 | one client of a snapshot: gone or closed is skipped, else it gets the frame or is evicted |
| HubObjects.HubServer.BroadcastMessage | internal/server/server.go:576-633 | serves its snapshot client by client, each once, and the hub ends as the fold of those servings |
| HubObjects.HubServer.SubscribeToRoom | internal/server/server.go:635-651 | enters room set and client's own set together; the gauge counts only new pairs; a closed client is refused |
| HubObjects.HubServer.UnsubscribeFromRoom | internal/server/server.go:653-667 | leaves both sets together; an emptied room goes; the gauge counts only removed pairs |
| HubObjects.HubServer.CloseAll | internal/server/server.go:669-686 | the first call closes every registered client, later ones nothing |
| HubObjects.WithoutRooms | internal/server/server.go:551-559 | the loop takes the client out of all its rooms and counts those that were there |
| HubState.OthersUntouched | internal/server/server.go:518-667 | no critical section of one client changes what is recorded about another |
| HubRuns.RunConsistent | internal/server/server.go:513-686 | index agreement, client lifecycle and gauge conservation hold in every reachable state |
| HubRuns.IndexesAgree | internal/server/server.go:518-667 | `users` is `clients` by user with no empty group, `rooms` inverts the open clients' own sets with no empty room, and before CloseAll a closed client is in no index |
| HubRuns.GaugesConserved | internal/server/server.go:527-571 | in every reachable state: subscriptions gauge = (room, client) pairs + those of late cleanups, connections gauge = registered clients - early cleanups + late cleanups; early is before registration, late is of a client CloseAll had closed, and there is none before CloseAll |
| HubRuns.StepsAreLocal | internal/server/server.go:513-686 | every step but CloseAll leaves all that is recorded about other clients as it was |
| HubRuns.BroadcastListsSubscribers | internal/server/server.go:576-582 | in every reachable state a broadcast lists exactly the open clients that have its room among their own, and before CloseAll nobody else |
| HubRuns.RegistrationTakesEffect | internal/server/server.go:518-525 | a registered client is in `clients` and under its user, nobody else moves |
| HubRuns.SubscriptionTakesEffect | internal/server/server.go:635-651 | an open client is then in the room on both sides and in its other rooms as before; a closed or closing one is refused |
| HubRuns.UnsubscriptionTakesEffect | internal/server/server.go:653-667 | the client is out of that room on both sides, and of no other |
| HubRuns.CleanedIsGone | internal/server/server.go:540-564 | after its cleanup a registered client is closed and in no index |
| HubRuns.CloseAllTakesEffect | internal/server/server.go:669-686 | exactly the registered clients are closed, once, and nothing else changes |
| HubRuns.NewAndDrainTakeEffect | internal/server/server.go:712-729 | a new client is open, empty and in no index; a drained one is closing and otherwise unchanged |
| HubRuns.ClientKeepsItsUser | internal/server/server.go:714-718 | over every run a client belongs to the user it was made for |
| HubFanOut.FanOutIsExact | internal/server/server.go:576-633 | in every interleaving an open registered client was sent exactly the settled broadcasts since its registration whose snapshot listed it, in hub order, once each |
| HubFanOut.NoListedGap | internal/server/server.go:584-633 | between broadcasts an open client misses none that listed it |
| HubFanOut.NoSilentGap | internal/server/server.go:576-633 | for every broadcast of every run: an open client has it on its channel, between broadcasts, if and only if it was registered and subscribed to the room when the broadcast was taken |
| HubFanOut.OfferOutcome | internal/server/server.go:593-599 | in every reachable state an offer gives a closed client nothing, finds one with 256 frames waiting full, and appends the broadcast to any other |
| HubFanOut.DirectOutcome | internal/server/server.go:896-899 | a direct frame is dropped exactly when the channel is closing or 256 frames wait |
| HubFanOut.NeverForeignNorRepeated | internal/server/server.go:576-599 | whatever its state, no client gets a broadcast out of order, twice, or that did not list it |
| HubFanOut.ChannelsConserve | internal/server/server.go:720 | what was put on a channel is what was written plus what waits, and at most 256 wait |
| HubFanOut.FullQueueLeadsToEviction | internal/server/server.go:597-630 | in every reachable state where a queue was found full, the Run goroutine can only evict, no other step changes that, and after the eviction the client is in no index |
| HubFanOut.UninterruptedIsARun | internal/server/server.go:584-633 | the broadcast method's fold is one of the interleavings |
| Cluster.GrantsAreEarned | internal/server/server.go:873-880 | every client and room a pod ever subscribed passed IsMember at some step of the run |
| Cluster.DeliveredMessagesAreReal | internal/server/server.go:148-208 | on every pod, each new-message frame on any client's channel names a stored message of that room; when its broadcast was taken the client was in the room by a subscription whose own IsMember check had passed |
| Cluster.DeliveryFollowsPublishOrder | internal/service/message_service.go:94-108 | the new-message frames of a client come in publish order and no message twice |
| ClusterDelivery.HubHasTheTaken | internal/server/server.go:148-208 | in every run the new messages in a pod's hub, processed and waiting, are in log order exactly the published ones it received while its broadcast channel had room |
| ClusterDelivery.TakenMessagesArrive | internal/server/server.go:576-633 | each of those waits or was processed once, and is on a receiving client's channel if and only if it was processed since the client's registration, is settled for it and listed it; no other new message is |
| ClusterDelivery.ListedAreSubscribed | internal/server/server.go:577-582 | on every pod a broadcast listed exactly the clients, open when it was taken, that had its room among their own |
| ClusterDelivery.EventsAreNeverNew | internal/server/server.go:161-180 | nothing on an event channel is taken for a new message, whatever its payload |
| ClusterDelivery.StoredArePublishedOnce | internal/service/message_service.go:94-108 | a stored message is on the Redis log exactly when its call has published it, and then once |
| ClusterDelivery.RowsAreStoredByMembers | internal/service/message_service.go:78-96 | every row was stored for an active member of its room |
| ClusterDelivery.PublishTakesEffect | internal/service/message_service.go:102-107 | a call that has stored its message appends it to the log under its room's channel |
| ClusterDelivery.MembersCanSubscribe | internal/server/server.go:874-879 | the request of an active member leads an open client into the room, anybody else's changes nothing |
| ClusterDelivery.HeadIsTaken | internal/server/server.go:534-535 | an idle hub takes the head of its broadcast channel |
| Admission.CounterIsExact | internal/server/server.go:366-377 | in every interleaving the counter is the requests that added and have not subtracted, is never negative, and no more than the limit are inside |
| Admission.EachExitGivesBackOnce | internal/server/server.go:393-454 | each request's adds and subtractions cancel exactly when it is over |
| Admission.TurnedAwayIffFull | internal/server/server.go:371 | in every run a request is over the limit exactly when that many hold the counter already |
| Admission.HandlerIsARun | internal/server/server.go:363-455 | the handler with nothing else running is a run of these steps, with the same answer and counter |
| Admission.HandleWebSocket | internal/server/server.go:363-455 | admitted exactly below the limit, and the counter is one up only for a connection that was made |
| Reactions.AddTransform | internal/service/message_service.go:272-280 | appends the user unless it is there |
| Reactions.RemoveTransform | internal/service/message_service.go:300-312 | takes the first occurrence out, and an emptied emoji with it |
| Reactions.WithoutKeepsOrder | internal/service/message_service.go:302-304 | the remaining users keep their order |
| Reactions.PutAtIffLastAdds | internal/service/message_service.go:255-313 | a pair is in the meaning of a commit history exactly when its last commit added it |
| Reactions.FoldReflects | internal/repository/message_repo.go:145-183 | the map after any commits holds exactly the history's pairs, in the order they were put, with no repetition and no empty list |
| Reactions.ReactionsRefineASet | internal/repository/message_repo.go:145-183 | the same in every interleaving of checks, commits, deletions and membership changes |
| Reactions.CommitsWereChecked | internal/service/message_service.go:258-272 | every commit belongs to a call whose check saw a live message and a member |
| Reactions.LateCommitChangesDeletedRow | internal/service/message_service.go:263-272 | a check before a deletion lets its commit change the deleted row |
| RowRaces.DeletedIsFrozenIff | internal/repository/message_repo.go:118-190 | from any deleted row and any time on, all interleavings of edits, reaction calls and deletions leave text, reactions, edit time and deletion unchanged if and only if no edit is past its check and every reaction call past its check would change nothing |
| RowRaces.PendingEditThaws | internal/repository/message_repo.go:124-130 | an edit past its check is never harmless to a deleted row, even when it stores the text it found |
| RowRaces.QuietDeletionFreezes | internal/repository/message_repo.go:185-190 | so a deletion with no call past its check freezes the row for good |
| RowRaces.FirstDeleterStays | internal/repository/message_repo.go:187 | in every interleaving the first deleter and the deletion time stay on record |
| RowRaces.ReactionsSurviveEditsIff | internal/repository/message_repo.go:118-132 | with edits in between, the stored reactions are those of the commit history throughout a run if and only if no edit stores reactions changed since it read them |
| RowRaces.UninterruptedCalls | internal/repository/message_repo.go:118-183 | with nothing in between, an edit stores its text and time and keeps the reactions, and a reaction call does what it says; on a deleted row neither does anything |
| Messages.MessageService.SendMessage | internal/service/message_service.go:55-111 | for any cleaning function: a duplicate returns the first id; otherwise the first failing check's error, or one new row with the cleaned text, one dedup entry and one publication |
| Messages.MessageService.CheckDedup | internal/service/message_service.go:113-138 | answers with a live entry whose row exists, and in memory drops an entry it cannot use |
| Messages.MessageService.MarkDedup | internal/service/message_service.go:140-147 | overwrites the key's entry, with the TTL from now |
| Messages.MessageService.EditMessage | internal/service/message_service.go:161-206 | for any cleaning function: errors in the code's order; else only content, now the cleaned text, and edit time change, and one publication |
| Messages.MessageService.DeleteMessage | internal/service/message_service.go:208-249 | errors in the code's order; else only deletion time and deleter change, and one publication |
| Messages.MessageService.AddReaction | internal/service/message_service.go:255-281 | refused for a missing or deleted message or a non-member; else only the reactions change, by one addition |
| Messages.MessageService.RemoveReaction | internal/service/message_service.go:283-313 | the same for one removal |
| Messages.StepOnRow | internal/service/message_service.go:161-301 | what any call may do to a stored row and who may: author, room, parent fixed; content only by its author; deletion only by its author or an active owner, admin or moderator; deleted rows frozen |
| Messages.SendOutcome | internal/service/message_service.go:55-111 | every outcome of a send in every run: the first message if one for the pair is less than five minutes old, else the first failing check's refusal and nothing stored, else one row with the draft's room, author, text and parent, published once |
| Messages.RowsSayTheirDraft | internal/service/message_service.go:86-96 | over every run a row keeps its draft's room, author, parent and time, and its author was an active member of that open room |
| Messages.RowsAreSent | internal/repository/message_repo.go:21-41 | there is no other way to a row |
| Messages.EditOutcome | internal/service/message_service.go:161-206 | accepted exactly from the author, an active member, of a live message with 1 to 4000 bytes; then the row has the new text and edit time, published once |
| Messages.DeleteOutcome | internal/service/message_service.go:208-249 | accepted exactly from an active member who is the author or an owner, admin or moderator of the room; then the row has deleter and time, published once |
| Messages.ReactOutcome | internal/service/message_service.go:255-313 | accepted exactly from an active member on a live message; then only that row's reactions change |
| Messages.StoredReactionsRefineASet | internal/service/message_service.go:272-312 | in every serial run a row's reactions are the set of pairs its accepted calls made, in order |
| Messages.StoredContentOk | internal/service/message_service.go:65-72 | in every serial run stored content is non-empty and at most 4000 bytes |
| Messages.RowsKeepTheirIdentity | internal/repository/message_repo.go:118-190 | over any stretch of a run identity fields never change and a deleted row stays as it is, reactions included |
| Messages.CreationsAreSpaced | internal/service/message_service.go:113-147 | two creations for one user and non-empty client id are at least the TTL apart, on either back end |
| Messages.RetriesReturnTheFirst | internal/service/message_service.go:59-63 | every call in between returns the first message and changes no row, entry or publication |
| Messages.BackEndsAgree | internal/service/message_service.go:113-147 | in every run the in-memory map and the TTL store hold the same live entries over the same rows and creations |
| Messages.BackEndsAnswerAlike | internal/pubsub/pubsub.go:266-278 | so every call is answered the same on both |
| Messages.KeysDiffer | internal/service/message_service.go:114 | the joined key tells (user, client id) pairs apart when user ids have no colon |
| Paging.GetByRoom | internal/repository/message_repo.go:66-116 | only undeleted rows of the room before the cursor, at most `limit`, newest first, each once; none left out that is newer than one returned, nor any while the page is short of the limit |
| Paging.WalksEnd | internal/service/message_service.go:155-159 | feeding the last row's time back ends after at most one page per visible row |
| Paging.WalksAreComplete | internal/repository/message_repo.go:71-86 | with distinct times the pages together are exactly the room's undeleted rows before the cursor, newest first, each once |
| Paging.CompleteIffDistinctTimes | internal/repository/message_repo.go:71-86 | for every page size and walk that is all undeleted rows of the room, exactly when no two of them share their time |
| RoomTables.RoomRepository.CreateRoomWithOwner | internal/repository/room_repo.go:43-81 | inserts room and owner together, or nothing when a key is taken |
| RoomTables.RoomRepository.AddMember | internal/repository/room_repo.go:162-174 | inserts, or on conflict only clears the leaving time; refused for a missing room |
| RoomTables.RoomRepository.JoinRoomTx | internal/repository/room_repo.go:176-207 | the same upsert, and a recount when the stored joining time is less than a second old |
| RoomTables.RoomRepository.LeaveRoomTx | internal/repository/room_repo.go:209-227 | sets the leaving time and recounts |
| RoomTables.UpsertGrowth | internal/repository/room_repo.go:184-192 | a join or addition brings one active member exactly when the record was not active |
| RoomTables.LeftGrowth | internal/repository/room_repo.go:217-219 | a leave takes one away exactly when the record was active |
| Rooms.RoomService.CreateRoom | internal/service/room_service.go:42-76 | a room with count 1 and its owner's record, or a refusal and no change |
| Rooms.RoomService.GetByID | internal/service/room_service.go:78-96 | answers from the cache, else from the table and fills the cache; never caches a miss |
| Rooms.RoomService.Update | internal/service/room_service.go:102-111 | writes the row and drops its cached copy |
| Rooms.RoomService.Delete | internal/service/room_service.go:113-119 | archives the row and drops its cached copy |
| Rooms.RoomService.AddMember | internal/service/room_service.go:121-143 | adds without any check of a ban and drops the cached room |
| Rooms.RoomService.RemoveMember | internal/service/room_service.go:145-154 | removes without a recount and drops the cached room |
| Rooms.RoomService.JoinRoom | internal/service/room_service.go:164-212 | errors in the code's order, no effect for an active member, else join, cache drop, subscription and notice |
| Rooms.RoomService.LeaveRoom | internal/service/room_service.go:214-231 | refused for a non-member, else leave, cache drop, unsubscription and notice |
| Rooms.RunCoherent | internal/service/room_service.go:78-154 | in every run each cached room equals the table's current unarchived row, and each member's room exists |
| Rooms.LookupAnswersAsRepository | internal/service/room_service.go:78-96 | so a lookup answers as the repository would, which is the row exactly while it is there and not archived; it caches what it finds and changes nothing else |
| Rooms.DriftLaw | internal/repository/room_repo.go:176-227 | in every run active members are `member_count` plus the drift: late returns since the last recount and what AddMember, RemoveMember and Update did |
| Rooms.CountNeverExceeds | internal/repository/room_repo.go:194-204 | without those three, the gap is exactly the re-joins made a second or more after the original join since the last recount, so the count never exceeds the active members |
| Rooms.RecountsAreExact | internal/repository/room_repo.go:197-223 | a creation, leave, first join or early return makes the count exact, whatever came before |
| Rooms.LateReturnIsNotCounted | internal/repository/room_repo.go:197-204 | a member who returns two seconds after joining is not counted |
| Rooms.RecordsKeepTheirOrigin | internal/repository/room_repo.go:184-188 | no operation ever changes the role or joining time of a record, or lifts a ban |
| Rooms.RolesAreAsFirstWritten | internal/service/room_service.go:186-190 | in every run a record has the role and time of its first write: owner for the room's creator, the stated role for AddMember, member for a join; there is no other way to a record |
| Rooms.BannedStaysOutIff | internal/service/room_service.go:164-184 | a banned record that has left never becomes active exactly as long as AddMember is not called for it |
| Rooms.JoinTwiceIsOnce | internal/service/room_service.go:164-212 | a repeated join answers the same and changes nothing, cache, notices and tables included |
| Rooms.JoinOutcome | internal/service/room_service.go:164-212 | refused exactly for a missing or archived room or a ban; a newcomer becomes a plain member from now on, a former one is back as before; room fields other than the counter and update time stay |
| Rooms.LeaveOutcome | internal/service/room_service.go:214-231 | refused exactly for a non-member; else the record is marked, the subscription ended and announced |
| Rooms.CreateOutcome | internal/service/room_service.go:42-76 | the draft's fields, default settings, a count of one and its creator as owner |
| Rooms.AddAndRemoveOutcome | internal/service/room_service.go:121-154 | one record and the cached room change, no counter and no subscription |
| Rooms.UpdateTakesEffect | internal/service/room_service.go:102-111 | in every run the next lookup answers the new details, and other rooms answer as before |
| Rooms.ArchivedIsNeverFound | internal/service/room_service.go:113-119 | over every continuation an archived room is found by no lookup and no join |
| Rooms.SubscribersAreMembers | internal/service/room_service.go:145-228 | in every run, every subscriber is an active member if and only if no subscriber was last taken out by RemoveMember, which does not unsubscribe |

## Left out

- Sockets, HTTP, TLS, JSON, handlers, metrics registration, logging, tracing, configuration, health checks, the frontend: I/O and library plumbing; gauges are plain integers that change together with the critical section they follow.
- Panics of sends on closed channels: the closed check and the send of a broadcast are one step, and nothing is said about the recover path of `handleWebSocket`.
- Hub channels: the queues in front of the Run goroutine (register, unregister) are not modelled; their effects come as steps in any order. The broadcast queue of 100 is, in `Cluster`, with messages dropped when it is full and pods missing log entries.
- HubObjects.HubServer.BroadcastMessage: one call without interruption, because a method body is sequential; the interleaved steps are in `HubRuns`.
- Presence fan-out to clients stands among the direct frames of `SendDirect`; presence itself is not modelled.
- RSA signing, bcrypt, UUIDs, the JWT parser: a token is a record, "signed" is membership in the set of tokens issued, and new ids are fresh.
- Tokens.AuthService.InvalidateToken: the entry lapses exactly `ttl` later. The Redis client, which is not part of this model, cuts a TTL to whole milliseconds and takes 0 as no expiry; the configured defaults of 15 minutes and 168 hours are whole.
- Tokens.OneUsablePerLogin: asks for a run that covers superseded refresh tokens; `RotationIff` says these are exactly the runs where only the newest is ever accepted, and routed runs all are.
- Tokens.UsableAtMostLogins: the same hypothesis, for the same reason.
- Tokens.AcceptedIff: for the runs where revocation holds, which `RevocationOutlivesToken` determines exactly.
- A service without a token invalidator, Redis errors (the code fails open) and concurrent refreshes of one token: calls are atomic and Redis answers.
- Changing the node id while ids are made: it is fixed within a run.
- Rounding of nanosecond scores to doubles in Redis and Lua, clock skew between pods, PostgreSQL isolation anomalies and microsecond timestamps: exact integers, one clock, serial transactions. A call that reads the clock twice reads the same time.
- RateLimiter.RunBounded: requests of one key come with timestamps that do not decrease and with members that differ.
- Admission.CounterIsExact: the counter is an unbounded integer, not an int32; recovery from a panic is not a step.
- The sanitiser and the trimming of message text are one arbitrary function of the text; what it removes is not modelled, and one character stands for one byte.
- Interleavings inside one send or one cache fill: these calls check and then act, and each is one step here. Edits, deletions and reaction calls on one row do interleave, in `RowRaces`.
- Message attachments, metadata, threads, read receipts and member settings such as notifications and mutes: they take no part in the properties.
- Messages.RowsKeepTheirIdentity: serial runs; `RowRaces.DeletedIsFrozenIff` is the law for calls that interleave.
- Rooms.CountNeverExceeds: runs without AddMember, RemoveMember and Update, which bypass the recount; `DriftLaw` covers all runs. IncrementMemberCount and DecrementMemberCount have no caller.
- Bans: no code writes `banned_at`, so a ban is a step from outside and is never lifted.
- UserService caching, the user repository, validators, CORS, middleware and e-mail masking: easy members or no clean invariant.
