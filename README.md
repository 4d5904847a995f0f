# Rainbow Node SDK: bubble directory and session orchestrator in Dafny

This project models two parts of the SDK.

The bubble (room) directory (`lib/services/Bubbles.js`) keeps a local list of rooms.
Each room has an id, a JID, a name, custom data and a sequence of user entries
`(userId, privilege, status)`. Its operations do the following:
- validate their arguments;
- apply the membership rules: a room is closed when nobody is invited or accepted; a user
  may leave only while another accepted moderator remains; removal depends on the contact's status;
- call the REST and XMPP collaborators;
- update the local list by append, replace-by-id, upsert, splice or a full reload.

The session orchestrator (`lib/Core.js`) has these parts:
- an ordered, all-or-nothing module start and an ordered stop;
- sign-in (REST, then XMPP, then the token survey, CONNECTED, information retrieval, READY);
- the transport event handlers (reconnected, reconnecting, disconnected);
- the set of token-survey handlers registered on the event emitter.

Nothing here talks to a network. Each collaborator's answer to a call is a parameter of
type `Reply<T>` (`Ok(value)`, `Err(reason)`, or `NoAnswer` for a call that never returns).
Each operation reports how its promise settles as a `Settled<T, E>`:
- `Resolved`;
- `Rejected`;
- `Pending`, for a promise that never settles, for instance when a `getBubble(...).then(...)`
  with no error handler fails.

The calls made and the events emitted are appended in order to a trace (`log` in
`Bubbles`, `trace` in `Core`). Every ordering property below is stated over that trace.

Layout:
- `remote.dfy`, module `Remote`: `Option`, `Reply`, `Settled`, and `ReplyAt`, which gives
  the answer to the k-th call of a scripted run. It also holds three small sequence facts used by the
  trace proofs.
- `bubble_rooms.dfy`, module `BubbleRooms`: the room datatypes and the pure functions
  over user entries and over the room list.
  - It keeps JavaScript's array behaviour when `findIndex` gives -1. `_bubbles[-1] = x`
    leaves the elements as they are (`ReplaceById`). `splice(-1, 1)` drops the last
    entry (`RemoveById`).
- `bubble_close.dfy`, module `BubbleClose`: `removeContactFromBubble`, `closeBubble` (with
  its serial unsubscribe queue) and `deleteBubble`, as functions of the list and of the
  replies. Lemmas state the ordering guarantees.
- `bubbles_service.dfy`, module `BubblesService`: class `Bubbles`, with the list `rooms`,
  the constant `localUserId` and the trace `log`.
  - Its methods are proved to have exactly the effects above, or state their effect
    directly.
  - The queries are functions reading the object. `GetAll` returns the list itself.
- `core.dfy`, module `CoreSession`: class `Core`, with `state`, `trace`, `botsJids`, the
  registered `listeners` and the number of token surveys armed so far.
  - Every `_tokenSurvey` call registers a fresh pair of handlers. A second sign-in adds a
    second pair without removing the first.
  - The invariant `Valid` says that each registered handler's partner is registered too.

The model follows the code where the code and its own documentation differ:
- `leaveBubble` is documented as a rule for moderators. The code refuses any user, moderator
  or not, when no other accepted moderator remains. `LeaveBubble` does the same.
- `start` without credentials rejects with the plain message "Credentials are missing.
  Check your configuration!", not with an error kind. `MissingCredentials` is that string.
- In CLI mode `signin` resolves with no value. The JSON has been stored by then, but the
  first handler calls `resolve()` with no argument; the later `resolve(json)` has no effect
  on a promise that is already resolved. The state still reaches READY.

## Model

| member | source | states |
|---|---|---|
| BubbleRooms.FirstActive | lib/services/Bubbles.js:152-154 | finds an invited or accepted entry; none exactly when no entry is active |
| BubbleRooms.IsBubbleClosed | lib/services/Bubbles.js:143-163 | a missing room throws BAD_REQUEST; otherwise true exactly when no user entry is invited or accepted |
| BubbleRooms.OtherActiveModerator | lib/services/Bubbles.js:300-306 | finds an accepted moderator other than the local user; none exactly when no entry qualifies |
| BubbleRooms.LastStatusIsLastEntry | lib/services/Bubbles.js:417-423 | the status remove dispatches on is unset exactly when the contact has no entry, and otherwise is the status of the contact's LAST entry |
| BubbleRooms.RoomPresencesExactly | lib/services/Bubbles.js:486-492 | a reloaded room's presences all go to its JID; there is at least one exactly when the local user is accepted there |
| BubbleRooms.RejoinPresencesExactly | lib/services/Bubbles.js:484-493 | after a reload, every room where the local user is accepted gets an initial presence, and no other room does |
| BubbleRooms.Invitations | lib/services/Bubbles.js:662-664 | exactly the local user's entries with status invited |
| BubbleRooms.PendingBubbles | lib/services/Bubbles.js:660-666 | exactly the rooms holding an invitation of the local user; never longer than the list |
| BubbleRooms.PendingBubblesKeepsOrder | lib/services/Bubbles.js:656-668 | the pending rooms of a concatenation are the pending rooms of each part, in list order |
| BubbleRooms.FindIndex | lib/services/Bubbles.js:270 | the first matching position, or -1 exactly when no room matches |
| BubbleRooms.Find | lib/services/Bubbles.js:533-535 | the first matching room, or nothing exactly when no room matches |
| BubbleRooms.ReplaceById | lib/services/Bubbles.js:270-271 | a known id: the first entry with it becomes the snapshot; an unknown id: the list is unchanged; ids stay position by position |
| BubbleRooms.Upsert | lib/services/Bubbles.js:722-728 | replace when known, append when unknown; the length grows by one exactly when the id was unknown; entries with other ids are unchanged |
| BubbleRooms.UpsertThenFind | lib/services/Bubbles.js:722-728 | after an upsert, looking the id up gives the snapshot |
| BubbleRooms.UpsertKeepsIdsUnique | lib/services/Bubbles.js:722-728 | an upsert never creates a second entry with the same id |
| BubbleRooms.RemoveById | lib/services/Bubbles.js:189-191 | removes the first entry with the id; when the id is absent, the last entry goes (splice at -1) |
| BubbleClose.RemoveEffect | lib/services/Bubbles.js:399-466 | missing arguments give BAD_REQUEST; invited cancels the invitation, accepted unsubscribes, anything else resolves with the same room and no call; an answered snapshot replaces the entry |
| BubbleClose.OthersOf | lib/services/Bubbles.js:254-260 | the queued ids are exactly the non-local users' ids; the local user never appears |
| BubbleClose.FirstBlocked | lib/services/Bubbles.js:220-240 | the first position at which the queue ends (past its last id, or an empty id) or whose removal makes a call not answered with a room; every removal before it resolved |
| BubbleClose.DrainFollowsPlan | lib/services/Bubbles.js:220-240 | the drain drains exactly when the queue ends before any removal fails, and then it issued every planned removal; otherwise it issued the removals before the first failing one and that one, and it carries that call's error, or stalls when the call never answered; what it issued is always a prefix of the plan |
| BubbleClose.DrainEndsAtFirstBlocked | lib/services/Bubbles.js:220-240 | how the drain ends: drained exactly when the queue ends before a failure; otherwise the first failing removal's error, or stalled when it never answered |
| BubbleClose.DrainKeepsOtherRooms | lib/services/Bubbles.js:220-240 | when every answered removal returns the closed room, the drain changes no entry whose id is another room's |
| BubbleClose.DrainKeepsIds | lib/services/Bubbles.js:220-240 | draining never adds, drops or reorders an entry of the list |
| BubbleClose.DrainsWhenAllSucceed | lib/services/Bubbles.js:220-240 | when every removal is answered with a room, the queue drains and every planned removal is issued |
| BubbleClose.OthersOfAppend | lib/services/Bubbles.js:254-260 | the queue keeps the users' order: the ids of a concatenation are those of each part in turn, and one entry contributes its id once exactly when it is not the local user's |
| BubbleClose.LocalUserRemovedLast | lib/services/Bubbles.js:254-263 | no planned removal before the last one targets the local user |
| BubbleClose.PlanAvoids | lib/services/Bubbles.js:254-263 | while the local user is not queued before the end, no removal of the local user precedes the final call |
| BubbleClose.CloseEffect | lib/services/Bubbles.js:242-281 | a missing room gives BAD_REQUEST; a closed room resolves unchanged with no call |
| BubbleClose.CloseFollowsPlan | lib/services/Bubbles.js:250-275 | for an open room: after a drained queue, every planned removal then the refetch, whose snapshot is the result and replaces the entry with its id (pending when the fetch fails); otherwise the removals up to the first failing one, no refetch, and that call's error (or pending); the length is kept; a resolved snapshot is what lookup then finds |
| BubbleClose.CloseSettles | lib/services/Bubbles.js:250-279 | an open room's close resolves with the fetched room when the queue drained and the fetch answered, stays pending when the fetch did not, and otherwise rejects with the first failing removal's error (pending when it never answered) |
| BubbleClose.CloseResolvesWhenAllSucceed | lib/services/Bubbles.js:250-275 | when every removal and the refetch are answered, an open room's close issues the whole plan then the fetch and resolves with the fetched room, which replaces the entry |
| BubbleClose.ReplaceThenFind | lib/services/Bubbles.js:268-274 | after replacing a known id, looking it up gives the snapshot |
| BubbleClose.CloseKeepsIds | lib/services/Bubbles.js:242-281 | closing never adds, drops or reorders entries |
| BubbleClose.CloseKeepsOtherRooms | lib/services/Bubbles.js:242-281 | when the removals and the refetch answer with the closed room, closing changes no entry whose id is another room's |
| BubbleClose.DeleteEffect | lib/services/Bubbles.js:175-205 | a failing or stalled close ends the delete before the remote delete; it resolves exactly when close resolved and the remote delete succeeded, and then the entry is spliced out; a failed remote delete rejects with its error and leaves the list as the close left it |
| BubbleClose.DeleteForgetsRoom | lib/services/Bubbles.js:187-194 | with unique ids, a successful delete removes exactly the closed room's entry and keeps ids unique; an unknown id drops the last entry instead |
| BubbleClose.RemoveKeepsIdsUnique | lib/services/Bubbles.js:189-191 | splicing keeps ids unique; a known id is gone afterwards and the list is one shorter |
| BubblesService.ContactStatus | lib/services/Bubbles.js:417-423 | the loop's result is the status of the contact's last entry |
| BubblesService.UnsubscribeQueue | lib/services/Bubbles.js:254-263 | the queue is the other users in entry order, then the local user exactly once, at the end |
| BubblesService.Bubbles.constructor | lib/services/Bubbles.js:39-41 | a started service has an empty list and has made no call |
| BubblesService.Bubbles.CreateBubble | lib/services/Bubbles.js:89-131 | empty name or description: BAD_REQUEST, no call, list unchanged; the history flag defaults to false; the room is appended only once its presence is confirmed |
| BubblesService.Bubbles.RemoveContactFromBubble | lib/services/Bubbles.js:399-466 | has exactly the effect RemoveEffect describes |
| BubblesService.Bubbles.CloseBubble | lib/services/Bubbles.js:217-281 | has exactly the effect CloseEffect describes; an open room resolves with the fetched room when the queue drained and the fetch answered, and otherwise rejects with the first failing removal's error or stays pending |
| BubblesService.Bubbles.UnsubscribeParticipants | lib/services/Bubbles.js:220-240 | has exactly the effect of draining the queue from the given position (DrainFrom); it drains exactly when the queue ends before a removal fails, and otherwise ends with the first failing removal's error, or stalls when it never answered |
| BubblesService.Bubbles.DeleteBubble | lib/services/Bubbles.js:175-205 | has exactly the effect DeleteEffect describes |
| BubblesService.Bubbles.LeaveBubble | lib/services/Bubbles.js:293-332 | missing room: BAD_REQUEST; no other accepted moderator: FORBIDDEN with no call; otherwise the remote leave, then an unavailable presence on success; the list is outside its frame |
| BubblesService.Bubbles.InviteContactToBubble | lib/services/Bubbles.js:348-385 | missing arguments: BAD_REQUEST; after a successful invitation the room is refetched and the snapshot replaces the entry |
| BubblesService.Bubbles.Refetch | lib/services/Bubbles.js:368-376 | a fetched snapshot replaces the entry with its id and resolves; otherwise nothing settles and the list is unchanged |
| BubblesService.Bubbles.AcceptInvitationToJoinBubble | lib/services/Bubbles.js:571-604 | remote accept, then initial presence, then refetch, in that order; failures reject with the list unchanged |
| BubblesService.Bubbles.DeclineInvitationToJoinBubble | lib/services/Bubbles.js:616-646 | remote decline, then refetch, with no presence |
| BubblesService.Bubbles.SetBubbleCustomData | lib/services/Bubbles.js:682-705 | resolves with the same room, whose custom data is the stored value and nothing else differs |
| BubblesService.Bubbles.GetBubbles | lib/services/Bubbles.js:473-503 | the server's list replaces the local one and the rooms where the local user is accepted get their presences; failures leave the list unchanged |
| BubblesService.Bubbles.SendRoomPresences | lib/services/Bubbles.js:486-492 | the inner loop sends exactly the room's presences |
| BubblesService.Bubbles.GetBubbleById | lib/services/Bubbles.js:526-537 | an empty id throws; otherwise the first room with that id, or nothing exactly when the id is unknown |
| BubblesService.Bubbles.GetBubbleByJid | lib/services/Bubbles.js:548-559 | an empty JID throws; otherwise the first room with that JID, or nothing exactly when none has it |
| BubblesService.Bubbles.GetAllPendingBubbles | lib/services/Bubbles.js:656-668 | exactly the stored rooms holding an invitation of the local user |
| BubblesService.Bubbles.OnInvitationReceived | lib/services/Bubbles.js:715-732 | the fetched room is upserted and the event emitted with it; a failed fetch changes nothing |
| BubblesService.Bubbles.OnAffiliationChanged | lib/services/Bubbles.js:742-759 | the fetched room is upserted and the event emitted with it |
| BubblesService.Bubbles.OnOwnAffiliationChanged | lib/services/Bubbles.js:769-791 | upsert, plus an initial presence exactly when the room was new or the new status is accepted, before the event |
| CoreSession.FirstFailure | lib/Core.js:209-238 | the first step of a chain that does not succeed: every earlier step succeeded |
| CoreSession.Attempted | lib/Core.js:278-303 | a chain issues a prefix of its calls; every call but the last issued succeeded; it issues all of them when every step succeeds |
| CoreSession.Outcome | lib/Core.js:234-238 | a chain resolves exactly when every step succeeded; it rejects exactly when the first step that does not succeed fails, with that step's reason, and stays pending exactly when that step never answers |
| CoreSession.FailedChainEndsAtFailure | lib/Core.js:278-303 | a chain that does not resolve stops right after the failing call |
| CoreSession.StartOrderOnlyRestTakesToken | lib/Core.js:212-215 | the REST start receives the CPaaS token; no other step depends on it |
| CoreSession.BotJids | lib/Core.js:73 | no bots give an empty list; otherwise each bot's JID, in order |
| CoreSession.Retrieval | lib/Core.js:61-80 | rosters, bubbles, presence, carbon, bots in order; the first failure among the four aborts the rest with its reason (pending when it never answers); then the bots' failure rejects with its reason; resolves exactly when all succeed; bot JIDs are stored exactly on success |
| CoreSession.Core.constructor | lib/Core.js:186 | no bots known, no survey armed, nothing called |
| CoreSession.Core.Start | lib/Core.js:191-247 | without credentials: the configuration error, no call, no state change; otherwise the eleven starts in order, stopping at the first failure; STARTED only after all succeeded |
| CoreSession.Core.Stop | lib/Core.js:270-305 | the eleven stops in order (REST first, state manager last), stopping at the first failure |
| CoreSession.Core.RetrieveInformation | lib/Core.js:61-80 | has exactly the effect Retrieval describes: the first failing step ends the chain with its reason |
| CoreSession.Core.TokenSurvey | lib/Core.js:82-106 | nothing in CLI mode; otherwise a fresh pair of handlers (two more handlers) and a survey start |
| CoreSession.Core.TokenRenewed | lib/Core.js:91-94 | renewal restarts the survey |
| CoreSession.Core.TokenExpired | lib/Core.js:96-101 | expiry removes both handlers of its survey (two fewer) and then requests a sign-in |
| CoreSession.Core.SigninChannels | lib/Core.js:33-59 | with the flag, XMPP is stopped first; XMPP signs in with the user REST logged in, only after REST succeeded; resolves with the REST JSON, rejects on either failure |
| CoreSession.Core.Signin | lib/Core.js:249-268 | a failed sign-in rejects with no state, listener or survey-count change; after both sign-ins: survey armed, CONNECTED, then READY after retrieval (or at once in CLI mode); failed retrieval stays CONNECTED and rejects |
| CoreSession.Core.Connect | lib/Core.js:256-266 | the survey, CONNECTED, retrieval and READY steps that follow a successful sign-in |
| CoreSession.Core.OnSigninRequired | lib/Core.js:132-134 | a sign-in request starts a forced sign-in, which first stops XMPP |
| CoreSession.Core.OnXmppReconnected | lib/Core.js:136-146 | REST reconnect, CONNECTED, retrieval, READY; any failure in the chain sets FAILED |
| CoreSession.Core.OnXmppReconnectingAttempt | lib/Core.js:148-150 | the state becomes RECONNECTING |
| CoreSession.Core.OnXmppDisconnect | lib/Core.js:152-154 | the state becomes DISCONNECTED |

## Left out

- Logging, the version banner and options parsing (lib/Core.js:111-126 and every logger call). They have no behaviour to verify.
- The collaborators (REST, XMPP, HTTP, CPaaS, Proxy, IM, Presence, Contacts, Admin, FileServer).
  - Their source is not part of this model.
  - Each call is a trace entry and each answer a `Reply` parameter.
  - Their wire formats, retries and payloads beyond what the core reads are not modelled.
- The state manager's internals are not part of this model. `transitTo` is a plain assignment, and `Init` stands for whatever it holds before the orchestrator's first transition.
- Promise timing and the event emitter.
  - Each operation and each event handler runs as one sequential method, given the answers to its calls.
  - Interleavings between operations in flight are not modelled.
  - An emitted event reaches one handler, invoked explicitly. Dispatching to every registered handler is not modelled.
- The reject-then-throw pattern and synchronous throws collapse into a single rejection.
  - This covers `acceptInvitationToJoinBubble`, `declineInvitationToJoinBubble` and `setBubbleCustomData`, which throw before returning a promise.
  - Only the pure queries keep the throw as `Thrown`.
- Privilege and status names: the source compares strings, and the model names "moderator", "invited" and "accepted" as constructors. `OtherPrivilege` and `OtherStatus` stand for every other name; a value of them carrying one of those three names is not a state the source can be in, and the model gives it no meaning.
- JavaScript falsiness: a missing or falsy argument (`null`, `undefined`, `""`) is `None` or the empty string.
- `Bubbles.start`/`stop` listener bookkeeping (lib/services/Bubbles.js:42-44, 55-75), including the undefined `reject` in `stop`. The constructor models `start`'s reset of the list.
- A single orchestrator. In lib/Core.js:22-24 the sign-in, token-survey and retrieval routines are module-level variables, and every construction (lib/Core.js:33, 61, 82) rebinds them to the newest object. So with two orchestrators, `signin` and the reconnection handler of the older one run those routines against the newer one's services. The model gives each `Core` object its own routines and assumes only one `Core` object exists.
- `start`'s try/catch (lib/Core.js:241-245): no step of the model throws synchronously.
- The bot JIDs' use by the event emitter's filter (lib/Core.js:129-131).
- BubblesService.Bubbles.SetBubbleCustomData: does not model aliasing. The source mutates the room object it was given, so a stored entry that is the same object sees the new custom data. The model returns an updated copy and leaves the list untouched.
- BubblesService.Bubbles.CreateBubble: the presence confirmation is an input. The source waits for any bubble-presence event, not one for this room.
- BubblesService.Bubbles.GetAll: the source returns the list object itself, so callers could alias it. The model returns the value, and this function has no row because it carries no contract.
- CoreSession.Core.OnSigninRequired: states only that the forced sign-in begins by stopping XMPP. The rest of its effect is `Signin`'s contract, which it calls and whose result nobody awaits.
- CoreSession.Core.SigninChannels: the `_xmpp.stop()` of a forced sign-in is recorded as issued, but its outcome is ignored because the source does not wait for it.
