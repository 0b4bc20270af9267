# Verified model of the masterfabric backend's stateful core

This project models eight parts of a Go backend in Dafny and proves what they keep over whole runs.
`dafny verify dfyconfig.toml` checks everything.

- **Realtime hub** (`Strings`, `Uuids`, `RoomKeys`, `RoomDirectory`, `HubModel`, `HubCalls`, `Hub`,
  `HubChannels`, `EventBridge`, `EventAudience`). The hub keeps clients, room members, each client's own rooms
  and a reverse index. `HubModel` gives each call twice: on a plain registry of clients, and on all four
  structures as the code does it; the second is proved to refine the first, and `HubCalls` tells the first in a
  caller's words. `Hub` is the same code on objects updated in place. `EventBridge` turns typed events into
  broadcasts, and `EventAudience` tells who hears each event.
- **Refresh tokens** (`RefreshTokens`, `RefreshFamilies`, `RefreshInterleaving`). The token table, the
  repository and the use case; runs with each call in one piece; and runs with each statement a step, which
  is how the calls of several processes meet in one database.
- **Generic CRUD handler** (`DynamicSql`, `SqlText`, `SqlTokens`, `SqlCommands`, `TenantTable`,
  `TenantAnswers`, `TenantCommands`, `SqlInKeys`, `Ordering`). Statement building from a body in any key order; the text of a
  statement, and what it reads as; what each call does row by row; isolation of the tenants of one table, for
  bodies of plain keys and for whatever a text asks for.
- **Rate limiter** (`RateLimit`), **migration runner** (`Migrations`), **in-process bus** (`InProcessBus`, and
  `BridgedBus` with the bridge's handlers on it), **Kafka consume loop** (`KafkaConsumer`), **PII masker**
  (`PiiMasking` on values, `PiiMasker` in place) and **permission matching** (`Permissions`).

Loops over Go maps take their keys in an arbitrary order. Failures of the database, the store, a commit or a
handler are inputs. Fresh random ids and tokens are preconditions (`Fresh`, `FreshIn`, `FreshRun`), and
SHA-256 is taken to be injective.

## Where code and expectation differ

The model follows the code. These are the places where the code does less than its comments or its design
suggest; each is proved.

- Tenants: the update handler compares body keys exactly, but the database reads unquoted names its own way, so
  a key such as `Organization_ID` passes the test and moves the record to another tenant. With plain keys isolation
  holds exactly for update bodies that keep the owner (`TenantTable.OthersUntouchedExactly`,
  `TenantTable.OwnStatementExactly`, `TenantTable.CapitalsMoveARecord`).
- Tenants: both write handlers paste keys into the statement as they are, so a key that is no plain name can set
  an owner column by itself or bring a row of its own (`SqlInKeys.LiteralMovesARecord`,
  `SqlInKeys.ExtraRowIsBrought`). Creates as well as updates therefore rely on plain keys, a test on the body
  (`SqlCommands.PlainBody`); for other bodies `TenantCommands.AnyBodyExactly` says when the others keep their rows.
- Kafka: the comment at internal/infrastructure/kafka/consumer.go:111 says at-least-once. A failed record is
  not committed, but the commit of a later one passes over it (`KafkaConsumer.TakenExactly`,
  `KafkaConsumer.LostRecordIsReachable`); from the watermark on every record comes again after a restart
  (`KafkaConsumer.RestartCatchesUp`).
- Session: internal/infrastructure/websocket/session.go:20 builds a second client object whose removal leaves
  members behind, and with them a closed channel (`HubModel.ShadowRemoval`,
  `HubChannels.SessionEndsExactly`, `HubChannels.ShadowRemovalIsReachable`).
- Rotation: the number of rows the revocation changed is not looked at, so two overlapping rotations can both
  issue a token, and a rotation under way outruns a logout everywhere or a replay's revocation
  (`RefreshInterleaving.OverlapExactly`, `RefreshInterleaving.RevocationLastsExactly`).
- Logout: with an old token it does not end the session, and with a failed lookup it reports success
  (`RefreshFamilies.LogoutKillsExactly`, `RefreshTokens.LogoutHonesty`).
- Migrations: the error state of the result set is not looked at, so a read cut short executes a recorded
  file again (`Migrations.RerunExactly`, `Migrations.RerunEnds`, `Migrations.ShortReadRunsAgain`).
- Permissions: matching is not transitive for nested wildcards such as `*:*` or `org:*:*`
  (`Permissions.TransitiveExactly`).
- Rate limiter: 2L requests in one 60-second interval cannot happen; 2L - 1 can (`RateLimit.RateBound`,
  `RateLimit.RateBoundIsTight`).

## Model

| member | source | states |
|---|---|---|
| RoomKeys.RoomKeyRoundTrip | internal/domain/realtime/model/room.go:22-60 | every accepted channel comes back from the printed key with its organization and application, trimmed, or as the default when blank |
| RoomKeys.RoomKeyInjective | internal/domain/realtime/model/room.go:22-31 | two accepted requests give the same key exactly when organization, application and normalised channel agree |
| RoomKeys.ParseRoomText | internal/domain/realtime/model/room.go:34-60 | whatever text follows the channel tag, a printed key parses into the parts it was made of |
| RoomKeys.ValidateAgreesWithBuild | internal/domain/realtime/model/room.go:63-68 | the validator and the builder disagree only on blank names, which the builder replaces by the default |
| Uuids.UuidRoundTrip | internal/domain/realtime/model/room.go:22-60 | identifiers printed in the text form of section 4 of RFC 9562 read back unchanged |
| RoomKeys.ChannelNameIsNormal | internal/domain/realtime/model/room.go:63-68 | a valid channel name is not changed by trimming |
| RoomKeys.DefaultRoom | internal/domain/realtime/model/room.go:22-31 | the default channel is accepted for every organization and application |
| RoomKeys.ChannelNamesAre | internal/domain/realtime/model/room.go:11-16 | a channel name is 1 to 64 digits, Latin letters, hyphens and underscores, told in code points |
| RoomKeys.BadFormatExactly | internal/domain/realtime/model/room.go:34-49 | a key is refused for its format if and only if it does not have the three tags in this order |
| RoomKeys.ParseErrors | internal/domain/realtime/model/room.go:50-60 | of a key in the format, the organization is read before the application, and an identifier that does not read is the error of its own part |
| Strings.TrimSpaceMeans | internal/domain/realtime/model/room.go:22-26 | trimming takes away white space at both ends and nothing else, and leaves none there |
| Strings.SpacesAre | internal/domain/realtime/model/room.go:23-23 | the 25 code points that count as white space |
| Uuids.UuidTextAt | internal/domain/realtime/model/room.go:30-30 | the printed identifier, character by character: lower-case digits, and dashes at four places |
| Uuids.OtherForms | internal/domain/realtime/model/room.go:50-59 | identifiers are also read after urn:uuid:, between braces, and without dashes |
| Uuids.CapitalsReadAlike | internal/domain/realtime/model/room.go:50-59 | capital digits read like small ones |
| RoomDirectory.ConsistentUnique | internal/infrastructure/websocket/hub.go:15-23 | the members and the reverse index are determined by the clients' own rooms: two consistent directories over the same rooms are equal |
| RoomDirectory.JoinKeeps | internal/infrastructure/websocket/hub.go:179-194 | adding a client to a room keeps members, own rooms and index in agreement |
| RoomDirectory.LeaveKeeps | internal/infrastructure/websocket/hub.go:196-215 | taking a client out of a room, and the room out of the index when it empties, keeps the agreement |
| RoomDirectory.DropMemberKeeps | internal/infrastructure/websocket/hub.go:217-253 | one turn of the removal loop, for a client that is already off the clients map |
| HubModel.StepRefines | internal/infrastructure/websocket/hub.go:40-177 | every call keeps members and index equal to a scan of the clients, and does to the clients exactly what the plain view, which has neither structure, says |
| HubModel.EveryRunIsConsistent | internal/infrastructure/websocket/hub.go:26-253 | over every run of calls on a new hub the structures agree with the clients, no stored room is empty, and the clients are what the plain view computes |
| HubModel.IndexIsScan | internal/infrastructure/websocket/hub.go:127-136 | the rooms filed under an organization and channel have together exactly the members a scan of all clients finds, and each client is in one of them only |
| HubModel.BroadcastToOrganizationIsScan | internal/infrastructure/websocket/hub.go:127-155 | the broadcast through the index offers the payload once to each subscribed client of the organization and to nobody else |
| HubModel.BroadcastIsScan | internal/infrastructure/websocket/hub.go:120-155 | a room broadcast offers the payload once to each client whose own set holds the room |
| HubModel.AddToRoomKeeps | internal/infrastructure/websocket/hub.go:179-194 | joining a room changes that client's own set by that room and keeps the hub consistent |
| HubModel.RemoveFromRoomKeeps | internal/infrastructure/websocket/hub.go:196-215 | leaving a room changes that client's own set by that room and keeps the hub consistent |
| HubModel.RemoveClientKeeps | internal/infrastructure/websocket/hub.go:217-253 | removing a registered client with its own room set leaves the hub as if it had never been there |
| HubModel.RegisterKeeps | internal/infrastructure/websocket/hub.go:40-66 | registration with room to spare is consistent and puts the client in its default room |
| HubModel.OwnRoomParts | internal/infrastructure/websocket/hub.go:184-192 | a client's room parses back to its own organization, so it is filed and unfiled under the same index key |
| HubModel.IndexKeyInjective | internal/infrastructure/websocket/hub.go:184-192 | index keys of different organizations or channels differ |
| HubModel.ShadowRemoval | internal/infrastructure/websocket/session.go:19-36 | removing the session's second client object, whose room set is empty, keeps the hub consistent if and only if the registered client had no rooms |
| HubCalls.LastCallDecides | internal/infrastructure/websocket/hub.go:40-100 | over every run of calls on a new hub, a connected client listens on a name if and only if the last of its own calls that concerns the name says so: Register for the events channel, Subscribe, or Unsubscribe |
| HubCalls.SubscriptionIsHeard | internal/infrastructure/websocket/hub.go:69-136 | after Subscribe a broadcast to the room of that name, or to the organization on that name, reaches the client once; after Unsubscribe it does not; every other name is heard as before |
| HubCalls.SubscribeJoins | internal/infrastructure/websocket/hub.go:69-83 | a registered client that asks for an acceptable name, trimmed, or events when blank, gets exactly the room org:organization:app:application:channel:name, and nothing else changes |
| HubCalls.UnsubscribeLeaves | internal/infrastructure/websocket/hub.go:86-100 | the same for leaving: exactly that room is gone |
| HubCalls.BadChannelChangesNothing | internal/infrastructure/websocket/hub.go:69-100 | for an unknown client or another name neither call changes anything |
| HubCalls.BroadcastReaches | internal/infrastructure/websocket/hub.go:120-155 | the clients in the room, and no others, get the payload once if they have room for it |
| HubCalls.OrganizationReaches | internal/infrastructure/websocket/hub.go:127-155 | the clients of the organization that listen on the name in their own application, and no others |
| HubCalls.SendReaches | internal/infrastructure/websocket/hub.go:103-117 | the client of that id and no other |
| HubCalls.RegisterAdmits | internal/infrastructure/websocket/hub.go:40-66 | with room to spare the newcomer is connected, in the events room of its organization and application and no other |
| HubCalls.RegisterRefuses | internal/infrastructure/websocket/hub.go:44-50 | a closed or full hub is as it was |
| HubCalls.NewHubIsEmpty | internal/infrastructure/websocket/hub.go:26-37 | no client, open, and a limit of 1000 when none is given |
| HubCalls.LeavingIsComplete | internal/infrastructure/websocket/hub.go:165-253 | unregistering takes that client only; closing takes all |
| HubCalls.ReceiveTakesOldest | internal/infrastructure/websocket/client.go:27-47 | the write pump takes the oldest payload of its own queue |
| Hub.Hub.constructor | internal/infrastructure/websocket/hub.go:26-37 | a new hub is valid and stands for the empty registry |
| Hub.Hub.Register | internal/infrastructure/websocket/hub.go:40-66 | the hub takes exactly the specified registration step; a closed hub and a full hub add nobody, and the full one closes the channel |
| Hub.Hub.Subscribe | internal/infrastructure/websocket/hub.go:69-83 | the clients change as the plain view says; an unknown client or a bad channel is an error and changes nothing |
| Hub.Hub.Unsubscribe | internal/infrastructure/websocket/hub.go:86-100 | the same for leaving a channel |
| Hub.Hub.SendToClient | internal/infrastructure/websocket/hub.go:103-117 | one offer to the client if it is registered; a full queue drops it |
| Hub.Hub.Broadcast | internal/infrastructure/websocket/hub.go:120-124 | one offer to each subscriber of the room |
| Hub.Hub.BroadcastToOrganization | internal/infrastructure/websocket/hub.go:127-136 | the loop over the indexed rooms, proved to do what the plain scan does |
| Hub.Hub.BroadcastLocked | internal/infrastructure/websocket/hub.go:138-155 | one offer to each member of the room and nothing else |
| Hub.Hub.OfferMembersLocked | internal/infrastructure/websocket/hub.go:138-155 | the loop over a room's members, in any order, offers once to each and touches no other queue |
| Hub.Hub.ConnectionCount | internal/infrastructure/websocket/hub.go:158-162 | the number of registered clients |
| Hub.Hub.Close | internal/infrastructure/websocket/hub.go:165-177 | every client and channel is closed, and all four structures are empty |
| Hub.Hub.AddToRoomLocked | internal/infrastructure/websocket/hub.go:179-194 | in-place join of members, own set and index |
| Hub.Hub.RemoveFromRoomLocked | internal/infrastructure/websocket/hub.go:196-215 | in-place leave, with the empty room dropped from both maps |
| Hub.Hub.RemoveClient | internal/infrastructure/websocket/hub.go:217-253 | for an object Register returned, the client leaves every structure and its channel is closed, and a second call changes nothing; for the session's second object only the clients map and the channel change, and the hub stays valid if and only if the client had no rooms |
| Hub.Client.CloseSend | internal/infrastructure/websocket/client.go:101-108 | the channel is closed at most once |
| Hub.SendChan.TrySend | internal/infrastructure/websocket/hub.go:138-155 | a non-blocking send on an open channel: appended if there is room, dropped otherwise |
| HubChannels.EveryRunIsSafe | internal/infrastructure/websocket/hub.go:40-253 | over every run of the hub's calls with fresh ids, no call sends on a channel that was closed and none closes a channel twice; runs with session ends are the subject of SessionEndsExactly |
| HubChannels.SessionEndsExactly | internal/infrastructure/websocket/session.go:19-36 | over every run of calls and session ends on a new hub: no channel is misused, whatever calls could follow at any moment, if and only if each session end finds its client gone or in no room; and then the hub stays consistent |
| HubChannels.SafeExactlyFrom | internal/infrastructure/websocket/session.go:19-36 | the same from any consistent hub |
| HubChannels.FreshRunRefines | internal/infrastructure/websocket/hub.go:40-66 | every such run is consistent and the client count stays within the limit |
| HubChannels.ClosedStaysEmpty | internal/infrastructure/websocket/hub.go:165-177 | a run that closed the hub somewhere ends without clients |
| HubChannels.SafeStep | internal/infrastructure/websocket/hub.go:40-253 | one call keeps closed channels apart from connected clients |
| HubChannels.EffectsAreReal | internal/infrastructure/websocket/hub.go:40-253 | the effects of a call are what happens: it sends to exactly the clients whose queue gets its payload, or would if it had room, and closes the channels of exactly those who leave or are turned away |
| HubChannels.ShadowRemovalLeavesDeadChannel | internal/infrastructure/websocket/client.go:57-77 | the read pump's removal of the session's second object closes the client's channel, and a broadcast to any of the client's rooms then sends on it |
| HubChannels.ShadowRemovalIsSafeExactly | internal/infrastructure/websocket/client.go:57-60 | after that removal every further run with fresh ids leaves closed channels alone if and only if the client was in no room |
| HubChannels.ShadowRemovalIsReachable | internal/infrastructure/websocket/session.go:19-36 | registering anybody on a new hub and ending the session that way leaves an inconsistent hub |
| EventBridge.FanOut | internal/infrastructure/websocket/event_bridge.go:36-94 | when no other call comes between the two broadcasts, an event that resolves to an organization and application appends to each client one copy per subscribed channel among the default and the topic's, as many as fit, if organization matches and the application is nil or matches; otherwise nothing changes |
| EventBridge.EveryRunFansOut | internal/infrastructure/websocket/event_bridge.go:30-94 | again without other calls between, for each of the three registered handlers, on the hub any run of calls leads to |
| EventBridge.InterleavedFanOut | internal/infrastructure/websocket/event_bridge.go:75-90 | with any hub calls between the broadcasts of a delivery, a client is sent one copy for each broadcast at which it is connected and listens on that channel |
| EventBridge.EveryInterleavingFansOut | internal/infrastructure/websocket/event_bridge.go:36-94 | the same on the hub any run leads to, for the registered handlers: at most one copy per channel |
| EventBridge.PushSends | internal/infrastructure/websocket/event_bridge.go:81-89 | a broadcast sends to exactly the connected clients that listen at that moment |
| EventBridge.FanOutIsConfined | internal/infrastructure/websocket/event_bridge.go:36-94 | a client whose queue changed belongs to the organization the event resolved to, and to its application when it has one |
| EventBridge.PushReaches | internal/infrastructure/websocket/event_bridge.go:66-90 | one push reaches exactly the clients that listen on the channel, once each |
| EventBridge.PushAllReaches | internal/infrastructure/websocket/event_bridge.go:66-90 | a sequence of pushes reaches each client as many times as it listens |
| EventBridge.AtMostOneRoute | internal/infrastructure/websocket/event_bridge.go:102-166 | an event has at most one route |
| EventBridge.HandleEvent | internal/infrastructure/websocket/event_bridge.go:36-94 | the loop over the routes, on a live hub, does what the fan-out theorem is about |
| EventBridge.PushEach | internal/infrastructure/websocket/event_bridge.go:66-90 | the loop over the two channels with its set of seen ones sends on a repeated channel once |
| EventAudience.AppEvents | internal/infrastructure/websocket/event_bridge.go:121-132 | a created or updated application: exactly the clients of that application in that organization that listen on events or the topic, one copy per channel, as message app.created or app.updated for these two identifiers under the handler's topic |
| EventAudience.OrganizationEvents | internal/infrastructure/websocket/event_bridge.go:106-138 | a role, an organization or a workspace with an organization: its clients in all applications, as role.assigned, organization.created or workspace.created with the nil application |
| EventAudience.EndpointEvents | internal/infrastructure/websocket/event_bridge.go:47-55 | the four endpoint events: the clients of the application in the organization the repository names, with the message type of the event |
| EventAudience.UnownedEvents | internal/infrastructure/websocket/event_bridge.go:47-60 | an application whose organization is not found, or no identifier: no queue changes |
| EventAudience.SilentEvents | internal/infrastructure/websocket/event_bridge.go:102-166 | a registered user, an unrecognized event, or a nil organization: no queue changes |
| EventAudience.HandlersAreRegistered | internal/infrastructure/websocket/event_bridge.go:30-34 | exactly three handlers: iam, tenant and api-management, each on the topic of that name |
| RefreshTokens.RefreshTokenRepo.Create | internal/infrastructure/postgres/iam/refresh_token_repository.go:25-42 | a row is added unless its id or digest is taken |
| RefreshTokens.RefreshTokenRepo.GetByTokenHash | internal/infrastructure/postgres/iam/refresh_token_repository.go:44-57 | a returned token is stored and has the digest; none is returned only if no row has it or the database does not answer |
| RefreshTokens.RefreshTokenRepo.Update | internal/infrastructure/postgres/iam/refresh_token_repository.go:59-93 | row by row: a row named by id, user or family that was not revoked gets the time, every other row is as it was, and none is added or removed |
| RefreshTokens.RefreshTokenRepo.ListActiveByUserID | internal/infrastructure/postgres/iam/refresh_token_repository.go:95-116 | every listed token is an active one of the user, none more often than stored, newest first, and nothing newer is left out; a list that ends early lists all |
| RefreshTokens.RefreshTokenRepo.DeleteExpired | internal/infrastructure/postgres/iam/refresh_token_repository.go:118-126 | exactly the expired rows and those revoked over a week ago go, and their number is returned |
| RefreshTokens.RefreshTokenUseCase.GenerateRefreshToken | internal/application/iam/usecase/refresh_token_usecase.go:50-74 | a new token in a new family is stored, or nothing changes and an error is returned |
| RefreshTokens.RefreshTokenUseCase.RotateToken | internal/application/iam/usecase/refresh_token_usecase.go:77-139 | the sequence of repository calls does what the specification of a rotation says, in every failure case |
| RefreshTokens.RefreshTokenUseCase.LogoutToken | internal/application/iam/usecase/refresh_token_usecase.go:142-149 | a stored token is revoked; a missing one and a failed lookup both count as success |
| RefreshTokens.RefreshTokenUseCase.LogoutEverywhere | internal/application/iam/usecase/refresh_token_usecase.go:152-154 | all unrevoked tokens of the user are revoked |
| RefreshTokens.RefreshTokenUseCase.ListSessions | internal/application/iam/usecase/refresh_token_usecase.go:157-174 | one entry per listed active token, newest first; all active tokens unless the read broke off |
| RefreshTokens.ListingIsActiveTokens | internal/infrastructure/postgres/iam/refresh_token_repository.go:95-116 | a complete listing is the user's unrevoked, unexpired tokens, each as often as stored, newest first |
| RefreshTokens.LogoutHonesty | internal/application/iam/usecase/refresh_token_usecase.go:142-149 | a logout that reports success leaves the presented unrevoked token as it was if and only if the lookup failed |
| RefreshTokens.RotateValid | internal/application/iam/usecase/refresh_token_usecase.go:77-139 | a stored token with no revocation time and now not after its expiry: exactly its row is revoked if the update works; the call succeeds if and only if all else works too, with a new token of the same user and family that expires after the duration; otherwise an error |
| RefreshTokens.RotateExpired | internal/application/iam/usecase/refresh_token_usecase.go:91-93 | an unrevoked token with now after its expiry is refused as expired and no row changes |
| RefreshTokens.RotateRevoked | internal/application/iam/usecase/refresh_token_usecase.go:85-89 | a revoked token is refused, and exactly the unrevoked rows of its family are revoked |
| RefreshTokens.RotateUnknown | internal/application/iam/usecase/refresh_token_usecase.go:80-83 | no such token, or a failed lookup: refused and no row changes |
| RefreshTokens.GenerateMakes | internal/application/iam/usecase/refresh_token_usecase.go:50-74 | the new row has the drawn id and digest, the user, the family and an expiry after the duration, or nothing changes |
| RefreshTokens.LogoutRevokes | internal/application/iam/usecase/refresh_token_usecase.go:142-149 | a logout revokes the row of that digest and no other |
| RefreshTokens.LogoutAllRevokes | internal/application/iam/usecase/refresh_token_usecase.go:152-154 | a logout everywhere revokes the user's unrevoked rows and nobody else's |
| RefreshFamilies.RevokedRows | internal/infrastructure/postgres/iam/refresh_token_repository.go:59-93 | after a revoking update every row comes from one before, the same but for a revocation, and no unrevoked row is one the update named |
| RefreshFamilies.EveryRunRotatesInChains | internal/application/iam/usecase/refresh_token_usecase.go:50-139 | with calls in one piece and any statement failing, every reachable table has at most one unrevoked token per family, it is the last one created there, and the k-th successful rotation presents the k-th token of the family and issues the next |
| RefreshFamilies.DeathIsPermanent | internal/application/iam/usecase/refresh_token_usecase.go:85-98 | once a family has no unrevoked row, no later run makes a rotation in it succeed, with sweeps of expired rows anywhere |
| RefreshFamilies.ReplayKills | internal/application/iam/usecase/refresh_token_usecase.go:85-89 | presenting a stored revoked token leaves its family without an unrevoked token and is not accepted |
| RefreshFamilies.LogoutKillsExactly | internal/application/iam/usecase/refresh_token_usecase.go:142-149 | a logout leaves the family without an unrevoked token if and only if no other token of it was unrevoked: logging out with an old token does not end the session |
| RefreshFamilies.OldTokenLogoutIsReachable | internal/application/iam/usecase/refresh_token_usecase.go:142-149 | a concrete run from an empty table: sign in, rotate, log out with the old token, and an unrevoked token is left |
| RefreshFamilies.LogoutAllKills | internal/infrastructure/postgres/iam/refresh_token_repository.go:71-81 | a logout everywhere leaves every family the user started without an unrevoked token |
| RefreshFamilies.StepKeepsDead | internal/application/iam/usecase/refresh_token_usecase.go:50-154 | no call creates or accepts anything in a dead family |
| RefreshFamilies.RotateAccepts | internal/application/iam/usecase/refresh_token_usecase.go:77-139 | an accepted rotation presented the last token of the family, revoked it, and stored the next one with nothing unrevoked beside it |
| RefreshFamilies.StepKeeps | internal/application/iam/usecase/refresh_token_usecase.go:50-154 | the invariant behind the chains, for every call |
| RefreshFamilies.EveryAcceptanceWasGood | internal/application/iam/usecase/refresh_token_usecase.go:77-139 | in every run each call that adds an acceptance is a rotation that presented a stored, unrevoked token not past its expiry, revoked it, and issued one for the same user and family |
| RefreshFamilies.SweepTakes | internal/infrastructure/postgres/iam/refresh_token_repository.go:118-126 | a sweep takes exactly the rows that expired or were revoked more than seven days ago |
| RefreshInterleaving.EveryInterleavingIsOrderly | internal/infrastructure/postgres/iam/refresh_token_repository.go:25-93 | over any interleaving of statements, ids and digests stay unique and all tokens ever created in one family have one user |
| RefreshInterleaving.RunKeepsRows | internal/infrastructure/postgres/iam/refresh_token_repository.go:59-93 | over any interleaving, while a row is stored its revoked_at is set at most once and never changed or cleared, and nothing else in it changes |
| RefreshInterleaving.SeparateRotationsLeaveOneLive | internal/application/iam/usecase/refresh_token_usecase.go:77-139 | if a rotation never passes its checks while another one of the family is under way, no family ever has two unrevoked tokens, whatever else interleaves |
| RefreshInterleaving.OverlapExactly | internal/application/iam/usecase/refresh_token_usecase.go:80-98 | from an orderly state, a lookup opens the way to two unrevoked tokens, without a further lookup, if and only if it passes the checks while another rotation of the family is under way |
| RefreshInterleaving.OverlapSplits | internal/application/iam/usecase/refresh_token_usecase.go:95-129 | two rotations under way in one family can both finish, and leave two unrevoked tokens |
| RefreshInterleaving.TwoLiveIsReachable | internal/application/iam/usecase/refresh_token_usecase.go:77-139 | a concrete run from an empty table that ends with two unrevoked tokens in one family |
| RefreshInterleaving.FamilyDeathExactly | internal/application/iam/usecase/refresh_token_usecase.go:77-139 | for a started family without an unrevoked row: it stays so over every interleaved run if and only if no rotation of it is past its checks and unfinished |
| RefreshInterleaving.RevocationLastsExactly | internal/infrastructure/postgres/iam/refresh_token_repository.go:71-93 | a logout everywhere, or the family revocation after a replay, leaves no unrevoked row of the family, and it stays so over every interleaved run if and only if no rotation of it is under way |
| RefreshInterleaving.RevocationIsOutrun | internal/application/iam/usecase/refresh_token_usecase.go:100-129 | the shortest way: a rotation about to insert issues an unrevoked token after a logout everywhere revoked all the user's rows |
| RefreshInterleaving.OutrunIsReachable | internal/application/iam/usecase/refresh_token_usecase.go:77-139 | a concrete run from an empty table in which that happens |
| RefreshInterleaving.RotateAlone | internal/application/iam/usecase/refresh_token_usecase.go:77-139 | the statements of one rotation, run without a break, do exactly what the rotation in one piece does |
| RefreshInterleaving.EveryIssueWasGood | internal/application/iam/usecase/refresh_token_usecase.go:77-139 | in every interleaved run each token a rotation issues goes back to a lookup of the same call that found a stored, unrevoked token not past its expiry at that time, of the same user and family |
| RefreshInterleaving.SweepTakes | internal/infrastructure/postgres/iam/refresh_token_repository.go:118-126 | the same sweep between the statements of calls |
| RefreshInterleaving.StoppedForGood | internal/application/iam/usecase/refresh_token_usecase.go:77-149 | a call that stops changes no row any more |
| RateLimit.RateBound | internal/gateway/pipeline.go:253-285 | over any run with non-decreasing times, no half-open interval of 60 seconds admits more than 2L - 1 requests |
| RateLimit.RateBoundIsTight | internal/gateway/pipeline.go:253-285 | for every positive limit some run reaches that bound |
| RateLimit.EveryWindowAdmitsLimit | internal/gateway/pipeline.go:257-271 | inside any run, from a request that finds no live counter, exactly the first L arrivals the window covers are admitted |
| RateLimit.WindowAdmitsLimit | internal/gateway/pipeline.go:257-271 | the same for a single window |
| RateLimit.AfterSilence | internal/gateway/pipeline.go:253-285 | told from the times alone: after more than sixty seconds without a request, of the requests within sixty seconds of the next one exactly the first L are admitted |
| RateLimit.EndpointsIndependent | internal/gateway/pipeline.go:253-285 | in any mixed run each application and endpoint is decided as if it were alone |
| RateLimit.EndpointRateBound | internal/gateway/pipeline.go:253-285 | the bound for each endpoint of any mixed run |
| RateLimit.KeyTextInjective | internal/gateway/pipeline.go:253-256 | different applications or endpoints never share a counter |
| RateLimit.Store.CheckRateLimit | internal/gateway/pipeline.go:253-285 | the script on the store: counted and admitted below the limit, refused at it, an error changes nothing |
| RateLimit.Store.EnforceRateLimit | internal/gateway/pipeline.go:139-145 | without a policy, a positive limit and a store nothing is limited; a failing store refuses |
| DynamicSql.BuildInsert | internal/gateway/dynamic_handler.go:397-422 | for every body and key order the placeholders are 1..n for n arguments, the five leading columns are the handler's, and each other column is an unreserved body key, once, beside its own value |
| DynamicSql.BuildUpdate | internal/gateway/dynamic_handler.go:434-460 | the same for the assignments; the last three placeholders name the record, organization and application arguments |
| DynamicSql.InsertMeans | internal/gateway/dynamic_handler.go:401-426 | taken as lists, each key one column name: the built INSERT adds the row the body and the handler's columns describe, whatever the key order, and is refused when a column would be named twice |
| DynamicSql.UpdateMeans | internal/gateway/dynamic_handler.go:441-463 | taken as lists, each key one column name: the built UPDATE changes only the named record of the caller's organization and application, to the body's values, and is refused when a column would be set twice |
| DynamicSql.WellNumberedMeans | internal/gateway/dynamic_handler.go:405-413 | a statement is in order when its placeholders are exactly the numbers of its arguments |
| SqlText.InsertRead | internal/gateway/dynamic_handler.go:416-422 | when every column is a plain name, the INSERT text joined from the lists reads back as exactly one row of these columns and arguments |
| SqlText.UpdateRead | internal/gateway/dynamic_handler.go:453-460 | when every column is a plain name, the UPDATE text reads back as exactly these assignments and the condition on record, organization and application |
| SqlTokens.ReadInsertSound | internal/gateway/dynamic_handler.go:416-422 | a text that reads as an INSERT consists of the words of that command, in their order, and nothing else |
| SqlTokens.ReadUpdateSound | internal/gateway/dynamic_handler.go:453-460 | the same for an UPDATE |
| SqlText.IdentifiersAre | internal/gateway/dynamic_handler.go:409-457 | a plain name is 1 to 63 letters, digits, underscores and dollar signs with a letter or underscore first, told in code points |
| SqlText.LowerIs | internal/gateway/dynamic_handler.go:409-457 | reading in lower case changes the 26 capital letters and nothing else |
| SqlCommands.InsertTextMeans | internal/gateway/dynamic_handler.go:401-426 | for a body of plain keys: printed, read and executed, the INSERT adds the row the body and the handler's columns describe, or is refused when a column would be named twice |
| SqlCommands.UpdateTextMeans | internal/gateway/dynamic_handler.go:441-463 | for a body of plain keys: printed, read and executed, the UPDATE changes only the named record of the caller, to the body's values, or is refused when a column would be set twice |
| TenantCommands.AnyBodyExactly | internal/gateway/dynamic_handler.go:397-463 | for every body, plain or not, whose text reads as a command that is accepted: the other tenants keep their rows if and only if the command that was read brings no row of theirs and rewrites none of theirs, nor any row into theirs, except to what it was |
| TenantCommands.InsertSparesExactly | internal/gateway/dynamic_handler.go:416-426 | an accepted INSERT of any rows leaves the other tenants alone if and only if none of its rows belongs to another tenant |
| TenantCommands.UpdateSparesExactly | internal/gateway/dynamic_handler.go:453-463 | the same for an accepted UPDATE with any assignments and any condition |
| TenantCommands.AssignmentsSpareExactly | internal/gateway/dynamic_handler.go:445-463 | an UPDATE read with the handler's condition and any assignments, literal ones too, that finds its record leaves the others alone if and only if each owner column it sets gets the caller's value |
| TenantCommands.EveryRunKeepsKeys | internal/gateway/dynamic_handler.go:323-494 | over every run of statements whose text reads as a command, whatever it asks for, no two rows ever have one id |
| TenantCommands.ProperIsUnderstood | internal/gateway/dynamic_handler.go:397-472 | bodies of plain keys give such statements |
| TenantCommands.NoReturningNoRows | internal/gateway/dynamic_handler.go:424-428 | a create whose returning clause is commented out answers no row |
| SqlInKeys.LiteralRead | internal/gateway/dynamic_handler.go:445-460 | the text of an update with a key such as "organization_id = 7, name" reads as one assignment more than the handler meant |
| SqlInKeys.LiteralMovesARecord | internal/gateway/dynamic_handler.go:445-463 | a body with such a key names no owner column, and hands the record to the organization in the text |
| SqlInKeys.ClosingRead | internal/gateway/dynamic_handler.go:409-422 | the text of a create with a key that closes the column list, gives two rows and comments out the rest reads as a command of two rows |
| SqlInKeys.ExtraRowIsBrought | internal/gateway/dynamic_handler.go:409-426 | a create with such a key adds a row to the organization named in the text |
| TenantTable.NonInterference | internal/gateway/dynamic_handler.go:323-494 | over any interleaving of statements by many tenants whose bodies have plain keys, whose update bodies keep the owner, and whose ids are on no other tenant's row, each tenant gets exactly the answers, and ends with exactly the rows, of its own statements run alone on its own rows |
| TenantTable.OthersUntouched | internal/gateway/dynamic_handler.go:397-494 | a create or update with plain keys, and a delete, changes, adds or removes no row of another tenant, provided an update's body keeps the owner |
| TenantTable.OthersUntouchedExactly | internal/gateway/dynamic_handler.go:434-472 | an accepted update with plain keys that finds its record leaves every other tenant's rows alone if and only if no unreserved key stands for an owner column with another value than the caller's |
| TenantTable.OwnStatementExactly | internal/gateway/dynamic_handler.go:397-472 | a create or update with plain keys that alone would take effect does the same on the shared table if and only if it keeps the owner and its ids are on no other tenant's row |
| TenantTable.OneKeyMovesARecord | internal/gateway/dynamic_handler.go:445-451 | a plain unreserved key that the database reads as organization_id hands the record to the organization it names |
| TenantTable.CapitalsMoveARecord | internal/gateway/dynamic_handler.go:445-451 | a concrete body, one key in capitals, that does so |
| TenantTable.OwnStatement | internal/gateway/dynamic_handler.go:323-494 | a statement with plain keys that keeps the owner and writes no other tenant's id does to its tenant's rows, and answers, what it would on a table of these rows alone |
| TenantTable.BystanderKeepsRows | internal/gateway/dynamic_handler.go:323-494 | a tenant that is not calling keeps its rows through any run of statements with plain keys that keep the owner |
| TenantTable.NewestSorts | internal/gateway/dynamic_handler.go:341-345 | a listing is the same rows, newest first, rows of one age in table order |
| TenantTable.WindowByIndex | internal/gateway/dynamic_handler.go:341-344 | a page has the records from the offset on, up to the limit, in the listing's order |
| TenantTable.PagesCoverListing | internal/gateway/dynamic_handler.go:323-370 | the pages at offsets 0, L, 2L and so on give the whole listing, nothing twice and nothing left out |
| TenantTable.ListingHolds | internal/gateway/dynamic_handler.go:341-345 | a listing holds exactly the rows of the organization and application, each as often as stored, the newest first |
| TenantAnswers.CreateAddsOne | internal/gateway/dynamic_handler.go:397-431 | a create with plain keys adds one record behind the others, with the handler's five cells, the body's cells and the defaults, cell by cell, or changes nothing |
| TenantAnswers.UpdateTouchesOnly | internal/gateway/dynamic_handler.go:434-472 | an accepted update with plain keys changes the tenant's record of the id, cell by cell, and leaves every other row where and as it was |
| TenantAnswers.DeleteTakesOnly | internal/gateway/dynamic_handler.go:475-494 | a delete takes the tenant's record of the id and nothing else |
| TenantAnswers.GetFindsOnly | internal/gateway/dynamic_handler.go:373-394 | a get answers exactly the tenant's rows of the id |
| TenantTable.UpdateThenGet | internal/gateway/dynamic_handler.go:434-472 | an update with plain keys returns the body's values, the time, and every other cell as it was; the next get returns the same if and only if the body keeps owner and id |
| TenantTable.CreateThenGet | internal/gateway/dynamic_handler.go:373-431 | a record created from plain keys is the one the body describes, and is found by its tenant and by no other |
| TenantTable.DeleteThenNothing | internal/gateway/dynamic_handler.go:475-494 | after a delete the record is not found, and a second delete changes nothing |
| TenantTable.Resolver.HandleList | internal/gateway/dynamic_handler.go:323-370 | the reply has the total, and the records from the offset on in the newest-first listing, as many as the limit says; the limit is 20 unless 1 to 100 was asked for; a negative offset fails |
| TenantTable.Resolver.HandleGet | internal/gateway/dynamic_handler.go:373-394 | the record of that id if the caller owns one, and not found exactly when it owns none |
| TenantTable.Resolver.HandleCreate | internal/gateway/dynamic_handler.go:397-431 | for every body the text of the built statement is run; with plain keys that has the intended effect and reply |
| TenantTable.Resolver.HandleUpdate | internal/gateway/dynamic_handler.go:434-472 | the same for an update |
| TenantTable.Resolver.HandleDelete | internal/gateway/dynamic_handler.go:475-494 | the same for a delete; not found exactly when the caller owns no such record, and then nothing changes |
| Migrations.EveryRunKeepsPrefix | internal/infrastructure/postgres/migrate.go:35-88 | after any runs stopped anywhere, the recorded set is a prefix of the sorted files, and every execution found all earlier files recorded |
| Migrations.ExecutionsAccounted | internal/infrastructure/postgres/migrate.go:62-84 | a file's successful executions are its record, if any, plus the runs that executed it without recording it; each forced run adds at most one |
| Migrations.RunAfterCompleted | internal/infrastructure/postgres/migrate.go:62-84 | a run after a completed one executes nothing, unless forced or its read of the recorded names was cut short |
| Migrations.RerunExactly | internal/infrastructure/postgres/migrate.go:19-88 | a run after a completed one executes nothing if and only if its preparation breaks off, there is no file, its first statement fails or does not come, or it is not forced and its read delivered every name |
| Migrations.RerunEnds | internal/infrastructure/postgres/migrate.go:62-84 | otherwise, without force, the first file the read did not deliver is executed once more, its record is refused, and the run ends in an error |
| Migrations.ShortReadRunsAgain | internal/infrastructure/postgres/migrate.go:35-48 | a concrete run in which a read cut short, which the runner does not notice, executes a recorded file again |
| Migrations.ApplyKeeps | internal/infrastructure/postgres/migrate.go:62-84 | the loop from any position keeps prefix and order, and completes only with everything recorded |
| Migrations.UpSectionOnly | internal/infrastructure/postgres/migrate.go:90-108 | of a file with one section between the lines -- +goose Up and -- +goose Down exactly that section is applied |
| Migrations.UpSections | internal/infrastructure/postgres/migrate.go:90-108 | with further sections behind, their Up sections follow |
| Migrations.RunsWhatIsMissing | internal/infrastructure/postgres/migrate.go:62-84 | when every statement works, exactly the files not read as applied are executed, in order, each once all before it are recorded, and the run completes |
| Migrations.EarlyEndings | internal/infrastructure/postgres/migrate.go:72-84 | a failed execution is an error with nothing changed, a failed record an error with one execution more, and a cut-off run is neither |
| Migrations.BrokenPreparation | internal/infrastructure/postgres/migrate.go:20-60 | a run whose preparation breaks off executes nothing |
| Migrations.Database.RunMigrations | internal/infrastructure/postgres/migrate.go:19-88 | preparation and the loop over the files do what the run specification says, broken off anywhere |
| Migrations.StripGooseDirectives | internal/infrastructure/postgres/migrate.go:90-108 | the loop keeps exactly the lines of Up sections |
| InProcessBus.EveryRun | internal/shared/events/inprocess.go:44-88 | over every interleaving accepted events are the dispatched, then the one in flight, then the buffered, in order; the buffer stays within the capacity the bus was made with; each dispatched event went once to each handler copied for it, all of them subscribed to its topic; a finished dispatcher has dispatched everything accepted |
| InProcessBus.AcceptedFoundRoom | internal/shared/events/inprocess.go:44-52 | what is accepted is what found room in the buffer, in publishing order, each with the handlers subscribed by then |
| InProcessBus.HandlersAreSubscribed | internal/shared/events/inprocess.go:55-60 | after any run a topic's handlers are all those subscribed to it, in order |
| BridgedBus.EveryEventIsBridgedOnce | internal/infrastructure/websocket/event_bridge.go:30-34 | over every interleaving on the bus, before and after the bridge registers: each event taken since is handled exactly once by the handler registered for its topic and by no other of the bridge's, in the order of acceptance; after Close these are all events accepted since or waiting then |
| BridgedBus.CalledOnce | internal/shared/events/inprocess.go:69-88 | in whatever order the handlers of an event run, a bridge handler registered once is called once |
| BridgedBus.RegistrationWires | internal/infrastructure/websocket/event_bridge.go:30-34 | registration gives each of the three topics its own handler of the bridge and changes nothing else of the bus |
| InProcessBus.StepKeeps | internal/shared/events/inprocess.go:44-88 | the invariant behind it, for every step |
| InProcessBus.EventBus.Publish | internal/shared/events/inprocess.go:44-52 | never blocks: appended if there is room, dropped otherwise |
| InProcessBus.EventBus.Subscribe | internal/shared/events/inprocess.go:55-60 | the handler is appended to its topic |
| InProcessBus.EventBus.DispatchOne | internal/shared/events/inprocess.go:69-88 | the oldest event goes to every handler its topic had when it was taken, each once, in any order |
| InProcessBus.EventBus.Close | internal/shared/events/inprocess.go:63-67 | returns with everything accepted dispatched |
| KafkaConsumer.EveryRunHandsOver | internal/infrastructure/kafka/consumer.go:78-118 | over any run with handler errors, failed commits and restarts, every parseable record below the watermark was handed to every handler of the snapshot the run started with |
| KafkaConsumer.TakenExactly | internal/infrastructure/kafka/consumer.go:78-118 | from any state of the invariant and over every run, restarts included: every record below the final watermark was taken by every handler if and only if that held before and no commit passes over a record some handler has not taken so far |
| KafkaConsumer.SuccessBelowWatermark | internal/infrastructure/kafka/consumer.go:98-116 | told from the steps alone: without a commit let through after a failure everything below the watermark was taken; in runs without restart that holds if and only if there is no such commit |
| KafkaConsumer.LostRecordIsReachable | internal/infrastructure/kafka/consumer.go:98-116 | a concrete run whose watermark passes a record the handler never took |
| KafkaConsumer.RestartCatchesUp | internal/infrastructure/kafka/consumer.go:78-118 | from any state, after a restart a run without failures brings every record from the watermark on to every handler and commits them all |
| KafkaConsumer.StepKeeps | internal/infrastructure/kafka/consumer.go:78-118 | the invariant behind it, for every step |
| KafkaConsumer.Consumer.constructor | internal/infrastructure/kafka/consumer.go:47-76 | the handler snapshot is taken once at the start |
| KafkaConsumer.Consumer.ConsumeLoop | internal/infrastructure/kafka/consumer.go:78-118 | the loop is a run of the model |
| KafkaConsumer.Consumer.ConsumeOne | internal/infrastructure/kafka/consumer.go:78-118 | each handler is called once in order, also after an error; the watermark moves to the record exactly when it is garbled or no handler failed, and the commit went through |
| KafkaConsumer.Consumer.CallHandlers | internal/infrastructure/kafka/consumer.go:97-109 | an error is remembered and the remaining handlers still run |
| PiiMasker.MaskMap | internal/infrastructure/gateway/interceptors/pii_masker.go:125-147 | for every tree and key order the in-place recursion ends and leaves the masked tree of the specification |
| PiiMasker.MaskEntry | internal/infrastructure/gateway/interceptors/pii_masker.go:126-146 | one key of the loop changes that entry only, and masks what it held even when it was overwritten |
| PiiMasker.MaskItems | internal/infrastructure/gateway/interceptors/pii_masker.go:136-144 | the items of an array that are objects are masked in place, arrays inside arrays are not entered |
| PiiMasker.MaskParsed | internal/infrastructure/gateway/interceptors/pii_masker.go:112-122 | a parsed object body is masked in place, position by position; a body that did not parse as an object is left as it is |
| PiiMasking.BodyByPosition | internal/infrastructure/gateway/interceptors/pii_masker.go:112-122 | for every body: an object is masked at each first sensitive key and nowhere else, and anything else comes back as it was |
| PiiMasking.BodyFields | internal/infrastructure/gateway/interceptors/pii_masker.go:112-147 | field by field: a sensitive key holds the mask value, an object is masked as a body of its own, an array keeps its length with its objects masked, anything else is as it was |
| PiiMasking.MaskingByPosition | internal/infrastructure/gateway/interceptors/pii_masker.go:125-147 | where no masked key lies on the way, the masked document has a value exactly where the original had one, with the same leaf, keys or length, and each first sensitive key on the way holds the mask value |
| PiiMasking.MaskedKey | internal/infrastructure/gateway/interceptors/pii_masker.go:126-134 | a sensitive key at the end of a clear path holds the mask value, and only if it was there |
| PiiMasking.ClearPath | internal/infrastructure/gateway/interceptors/pii_masker.go:125-147 | along a clear path the masked tree holds what the original holds, masked below |
| PiiMasking.MaskValueTwice | internal/infrastructure/gateway/interceptors/pii_masker.go:125-147 | masking twice is masking once |
| PiiMasking.MaskBodyTwice | internal/infrastructure/gateway/interceptors/pii_masker.go:112-122 | the same for a whole body, parseable or not |
| Permissions.TransitiveExactly | internal/infrastructure/auth/rbac_service.go:94-111 | over all strings, matching through a grant is transitive if and only if the grant is not a wildcard put under a wildcard |
| Permissions.MatchesIsCovers | internal/infrastructure/auth/rbac_service.go:94-111 | the suffix and prefix tests mean what the wildcard forms say, given as existence of a remainder |
| Permissions.NestedIsNot | internal/infrastructure/auth/rbac_service.go:94-111 | every nested grant breaks transitivity |
| Permissions.CoveringKeepsAnswers | internal/infrastructure/auth/rbac_service.go:59-70 | replacing grants by flat ones that cover them takes no permission away |
| Permissions.CoveringKeepsAnyAnswers | internal/infrastructure/auth/rbac_service.go:72-85 | the same for the any-of question |
| Permissions.HasPermission | internal/infrastructure/auth/rbac_service.go:59-70 | the loop answers whether some grant matches, and passes a fetch error on |
| Permissions.HasAnyPermission | internal/infrastructure/auth/rbac_service.go:72-85 | the nested loops answer whether some grant matches some required permission |

## Left out

- EventBridge.FanOut: no other call between the two broadcasts; `EventBridge.InterleavedFanOut` is about any calls between them.
- EventBridge.EveryRunFansOut: the same; `EventBridge.EveryInterleavingFansOut` has any calls between them.
- HubChannels.EveryRunIsSafe: runs of calls alone; `HubChannels.SessionEndsExactly` adds the session's removals.
- WebSocket pumps, upgrades and the HTTP handler that opens connections: input and output; a send channel is a bounded queue with a closed flag.
- GetClientInfo, isSubscribed, logging and metrics: they only read.
- Locks and goroutines inside the hub: every public method holds the mutex, so each is one step.
- Kafka delivery into the bridge: envelopes take the default branch of the type switch, which has no route.
- Kafka rebalancing, several partitions, several topics and fetch errors: one partition's log, position and watermark are modelled.
- A commit or statement that takes effect although its acknowledgement is lost: a failed one has no effect here.
- Publishing or closing after Close on the in-process bus, which stops the program: not a step; a precondition of the methods.
- Handlers that panic and the recovery around them: a handler returns or returns an error.
- HTTP proxying, URL tests, table-name derivation, the record id in a path and the parsing of limit and offset: the values are inputs.
- SQL text: the reader knows plain names of at most 63 letters, digits, `_` and `$` that are no keyword, argument marks, whole numbers standing for literals, several rows, further assignments and conditions, and comments to the end. A text outside that fragment does whatever the schema's `other` says, which may be anything; nothing is promised for it. The table name, and the clause after RETURNING, are not part of the text.
- Constraints across rows other than the primary key, triggers and defaults that depend on the clock or a sequence: a row is checked on its own.
- Lost connections under the CRUD handler, and tables without the five columns it names: a statement is refused only for its content.
- Conversion of JSON values to column types: body values are taken as converted, or refused by the schema's check.
- Hashing, random tokens, signing of access tokens and the user table: fresh values and yes/no inputs.
- Deletion of a user's tokens with the user: only sweeps remove rows.
- The client address and user agent of a token are carried along; how they are read from headers is not modelled.
- JSON encoding and decoding, schema validation and regular expressions: the masker starts from a tree and a sensitive-key test.
- Redis internals, the permission cache and the fetching of grants: one atomic script, and the fetched grants or an error.
- Listing, sorting and splitting the migration files: sorted, distinct names and the lines of a file are inputs.
- The remaining repositories, use cases, handlers, router, telemetry, configuration and seeds: single-branch plumbing.
