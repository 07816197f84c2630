# Messenger backend: verified model

This project models the stateful parts of the messenger backend (the Go server under `backend/`)
in Dafny and proves what they keep over every run: the rate limiter, the WebSocket hub with its
clients, the message table with the scheduler, polls, the prekey pool, link previews, pins, media
moderation, read receipts and reactions.

Verify everything with `dafny verify dfyconfig.toml`.

## How it is built

Each component has its operations twice. The steps are functions on values (tables are maps, sets
or sequences of rows). Beside them stands a class whose methods work in place, with the loops and
early returns of the Go code, and whose `ensures` ties the new contents to the step function and
the result to the input. The theorems are lemmas about whole histories of steps, stated against
definitions that look at the history alone: the last client registered for a user, the choices a
user made on a poll, the rows ever stored for a device.

| file | content |
|---|---|
| `Common.dfy` | optional values, histories |
| `RateLimit.dfy`, `RateLimitProofs.dfy`, `RateLimitExact.dfy` | token buckets; eviction, exact window bound; every reply by the call times |
| `WebSocketHub.dfy`, `HubRuns.dfy`, `HubFanOut.dfy` | the hub in place; every interleaving of hub and clients; group fan-out |
| `Delivery.dfy` | direct and group messages: row, frames, acknowledgement, pushes |
| `Messages.dfy`, `MessageRuns.dfy`, `MessageLife.dfy`, `MessageHistory.dfy` | the message table in place; every interleaving of scheduler, users and sweeps; the life of a message; what the events alone say about a row |
| `Polls.dfy`, `PollRuns.dfy`, `PollRaces.dfy` | votes and tallies; closed form, confluence, conservation; overlapping votes |
| `PreKeys.dfy`, `PreKeyRuns.dfy`, `PreKeyHistory.dfy` | the X3DH key service in place; conservation, order, overlapping fetches, consistency; which keys are stored, told from the requests |
| `LinkPreview.dfy` | the metadata walk and its closed form |
| `Pins.dfy`, `PinRaces.dfy` | conversation keys, pin rows, refinement of a map; overlapping pins |
| `Races.dfy` | what overlapping clear-then-insert requests leave, for polls and pins |
| `Moderation.dfy` | scan, file moves and human reviews, interleaved |
| `ReadReceipts.dfy`, `Reactions.dfy` | exact unread accounting; two reaction counts that agree |

## What one step is

Nothing in the server keeps two requests from running at the same time, except where a lock or a
transaction does. The histories are therefore sequences of the following steps.

| component | one step |
|---|---|
| rate limiter | one call of `Allow`, or one sweep; both hold the lock |
| hub | one operation under the lock, one channel operation; lookup and push of a send are two |
| messages, scheduler | one database statement or one send (creating a message and sending it are one step); every step has its own, possibly older, clock reading |
| prekeys | a bundle fetch is three steps (lookups, find, delete); a registration (one transaction), an upload and a removal are one step each |
| polls | `PollRaces`: one database statement of a vote; `PollRuns`: one whole request |
| pins | `PinRaces`: the delete and the insert of a pin; `Pins`: one whole request |
| moderation, review | one row write or one file operation; a review is three steps (read, file operation, write) |
| read receipts, reactions | one whole request |

Where a step is a whole request, the theorem is about requests that do not overlap; `WholeVote`,
`WholePin`, `WholeEdit`, `WholeModeration` and `WholeReview` say that the finer histories contain them.

## What turned out otherwise

The model follows the code. In these places a natural expectation fails. For each the lemma with
the exact condition is named; where the condition does not show it already, a lemma with a failing
input stands beside it.

- A send can panic: `SendToUser` releases the lock between looking the client up and sending on its
  channel (`backend/internal/websocket/hub.go:91-96`), and the hub may close the channel in between
  (`HubRuns.UnregisteredDuringSend`). It panics exactly when the client that was looked up has
  unregistered as its user's last one by then (`HubRuns.PushPanicsIff`); no other send or close
  meets a closed channel (`HubRuns.NoPanic`).
- A one-time prekey can be handed out twice: finding the oldest and deleting it are two statements, and
  the second does not tell whether the row was still there, although the comment at
  `backend/internal/models/prekey.go:122` says "atomically" (`PreKeyRuns.HandedOutTwice`). Two fetches
  get the same row exactly when no row of the device left the pool between their finds
  (`PreKeyRuns.SameRowIff`); fetches that do not overlap never do (`PreKeyRuns.LaterFetchGetsNewer`).
- A verdict on a medium can change, and a rejected file can stay in approved storage, when two reviews
  overlap (`Moderation.ApprovedThenRejected`; exactly when: `Moderation.VerdictChangesIff`). Even one
  review makes the item impossible to fetch for a moment (`Moderation.MissingDuringReview`,
  `Moderation.FetchableIff`).
- A scheduled message can be both removed by a cancel and delivered: the cancel reads the clock before
  its statement runs (`backend/internal/services/scheduler.go:112`), and a tick may pick the message up
  in between (`MessageRuns.CancelledAndHanded`; exactly when: `MessageRuns.HandedAndRemovedIff`).
- A vote can land on a closed poll, if it loaded the poll before (`PollRaces.VoteAfterClose`; exactly
  when the votes can still change: `PollRaces.ClosedPollCanChangeIff`).
- A user can hold two votes on a single-select poll, and a conversation two pins, when two requests
  overlap (`PollRaces.TwoVotesOnOneBallot`, `PinRaces.TwoPinsOfOneGroup`; exactly when:
  `PollRaces.TwoVotesIff`, `PinRaces.TwoPinsIff`). The unique index on pins does not help: one of its
  columns is always NULL (`backend/internal/models/pinned_message.go:14-16`).
- Evicting idle buckets can be observed when ten idle minutes do not refill a whole bucket
  (`RateLimitProofs.ProbeReplies` is the run that tells; `RateLimitProofs.EvictionUnobservableIff`
  the condition; all presets are fine).
- A scheduled message is not hidden until it is delivered: the history of its conversation lists it
  from the moment it is created, and deleting a message, for everyone or for oneself, does not take
  it off the list either (`MessageLife.ListedBeforeDue`; exactly who sees what when:
  `MessageLife.ListedIff`).
- A scheduled message whose recipient reads the conversation before the due time is never delivered:
  reading marks it as read, and ticks only take messages that are still "sent"
  (`MessageRuns.EarlyReadLosesMessage`, `MessageRuns.CanStillBeHandedIff`).
- A message deleted while a tick is under way is delivered all the same
  (`MessageRuns.DeletedDuringTickIsHanded`, `MessageRuns.CanStillBeHandedIff`).
- A message read before its sender's handler (or the scheduler) has written "delivered" falls back from
  "read" to "delivered" (`MessageLife.ReadThenDelivered`), which is exactly when a status falls
  (`MessageLife.StepLifecycle`, `MessageHistory.ReadIff`).
- The content of a deleted message can change, by an edit that loaded it before the deletion and by no
  other (`MessageLife.EditedAfterDeletion`, `MessageLife.DeletedContentChange`).
- A message to the bot is acknowledged as delivered while its row stays "sent", and the bot's answer is
  stored as delivered whether or not the user gets it (`Delivery.DirectOutcome`, `Delivery.BotOutcome`).
- A client that a newer connection replaced never has its Send channel closed
  (`HubRuns.ClosedIffLeftAsOwner`).
- The unique index on prekeys covers the key id alone, despite its name, so one user's key id can
  refuse another user's registration (`PreKeyRuns.KeyIDsCollideAcrossUsers`). A batch is accepted
  exactly when its keys are well formed and its key ids are distinct and none is in the pool, whoever
  owns it (`PreKeys.WholeBatchIff`, and the contract of `PreKeys.KeyService.RegisterKeys`).
- Two conversations can share a key when ids contain colons (`Pins.KeysCollideWithColons`; exactly
  when: `Pins.KeysAgreeIff`). The ids the server generates have no colons, but `Unpin` and `Get` take
  the other user's id from the query as it comes (`backend/internal/api/handlers/pinned.go:120,164`),
  and `Pin` takes any id that is the other side of the message (lines 67-84 there). A pair of
  colon-free ids shares its key with no other pair, whatever the other ids (`Pins.KeyInjective`).
- An image path relative to the document stays relative, although the comment at
  `backend/internal/services/link_preview.go:74` says it is made absolute; so does one that begins
  with the letters "http" (`LinkPreview.ImageMadeAbsolute`).
- An approved item cannot be fetched between the move of its file and the update of its row, nor
  after a move that failed (`Moderation.FetchableIff`).

## Model

| member | source | states |
|---|---|---|
| RateLimit.RateLimiter.constructor | backend/internal/api/middleware/ratelimit.go:28-40 | a new limiter has no buckets |
| RateLimit.RateLimiter.Allow | backend/internal/api/middleware/ratelimit.go:56-86 | finds or creates the key's bucket, refills it by whole intervals up to the burst, takes a token if there is one; other buckets keep their state |
| RateLimit.RateLimiter.Cleanup | backend/internal/api/middleware/ratelimit.go:42-54 | deletes exactly the buckets last refilled more than ten minutes ago |
| RateLimitProofs.RunInRange | backend/internal/api/middleware/ratelimit.go:56-86 | after any run every stored bucket holds between 0 and burst - 1 tokens (none, when the burst is not positive) and no refill time lies in the future |
| RateLimitProofs.RunSimulates | backend/internal/api/middleware/ratelimit.go:42-86 | an evicting and a never-evicting limiter answer every run alike, from any two tables that differ in idle buckets only |
| RateLimitProofs.EvictionUnobservableIff | backend/internal/api/middleware/ratelimit.go:42-86 | no run with any interleaving of calls and sweeps can tell eviction, if and only if the idle time refills a whole bucket or nothing is ever allowed |
| RateLimitProofs.CountFromBucket | backend/internal/api/middleware/ratelimit.go:69-83 | from a stored bucket on, the calls allowed until a time number at most its tokens plus the refill of the whole intervals in between |
| RateLimitExact.AllowedIff | backend/internal/api/middleware/ratelimit.go:56-86 | the reply to every call, by the call times of its key alone: it is allowed exactly when, counted from each call of the key so far and from this one, fewer calls were allowed than the burst plus rate·⌊gap/interval⌋ over the refills since then; whatever other keys do and (when unobservable) whatever sweeps come between |
| RateLimitProofs.AllowedInWindow | backend/internal/api/middleware/ratelimit.go:56-86 | for any parameters (the interval positive), with r = min(rate, burst) and negative numbers as zero: in any window of length d at most max(burst + r·⌊d/interval⌋, burst - 1 + r·⌈d/interval⌉) calls for a key are allowed, from any state a run can reach and whatever other keys and (when unobservable) sweeps do |
| RateLimitProofs.AllowedFromCreation | backend/internal/api/middleware/ratelimit.go:60-83 | when the window opens with the bucket's creation, at most burst + r·⌊d/interval⌋, also under sweeps that cannot be observed |
| RateLimitProofs.EffectiveRun | backend/internal/api/middleware/ratelimit.go:69-77 | a limiter answers every run like the one whose rate is cut to between zero and the burst |
| RateLimitProofs.AllowedWithEviction | backend/internal/api/middleware/ratelimit.go:42-86 | also when sweeps can be observed: at most one burst more than the window bound, and one for every ten idle minutes that fit into the window |
| RateLimitProofs.WindowBoundAttained | backend/internal/api/middleware/ratelimit.go:56-86 | the window bound is exact: for any parameters and every window length some run reaches it |
| RateLimitProofs.Presets | backend/internal/api/middleware/ratelimit.go:126-139 | all four presets evict unobservably; the most each lets through in a minute |
| WebSocketHub.Hub.NewClient | backend/internal/websocket/client.go:29-37 | a new client has an empty, open channel |
| WebSocketHub.Hub.HandleRegister | backend/internal/websocket/hub.go:37-45 | the user is mapped to the new client; the replaced client's channel is left as it is |
| WebSocketHub.Hub.HandleUnregister | backend/internal/websocket/hub.go:50-57 | removes the mapping and closes the channel only if the client is still the mapped one |
| WebSocketHub.Hub.IsOnline | backend/internal/websocket/hub.go:68-73 | true exactly when the user is mapped |
| WebSocketHub.Hub.WriteOwn | backend/internal/websocket/client.go:255 | a handler's write appends to its own client's queue and changes nothing else |
| WebSocketHub.Hub.Receive | backend/internal/websocket/client.go:74-83 | the write pump takes the oldest frame, or learns that the channel is closed and drained |
| WebSocketHub.Hub.Lookup | backend/internal/websocket/hub.go:88-91 | the first half of a send: the mapped client, if there is one |
| WebSocketHub.Hub.Push | backend/internal/websocket/hub.go:93-100 | the second half, to any client looked up earlier: queued when there is room, dropped when the queue is full, a panic when the channel has been closed |
| WebSocketHub.Hub.SendToUser | backend/internal/websocket/hub.go:88-102 | both halves with no unregistration in between: queued and true when the user is mapped and the queue has room, otherwise dropped and false; `HubRuns` interleaves the halves with everything else |
| WebSocketHub.Hub.SendToGroup | backend/internal/websocket/hub.go:104-120 | one send per membership row except the excluded user's; returns how many were queued |
| WebSocketHub.Hub.GetOfflineGroupMemberIDs | backend/internal/websocket/hub.go:152-169 | the unmapped members other than the excluded user, in row order |
| HubRuns.RunConsistent | backend/internal/websocket/hub.go:34-66 | in every interleaving each mapped client belongs to its user and is not yet past its unregistration, a closed channel's client is past it, and no channel exceeds 256 frames |
| HubRuns.NoPanic | backend/internal/websocket/client.go:705-712 | in every interleaving no handler writes to a closed channel of its own, and no channel is closed twice |
| HubRuns.PushPanicsIff | backend/internal/websocket/hub.go:88-100 | a push to another user panics exactly when the client its lookup found has unregistered as its user's last one by then |
| HubRuns.LookupFindsOpen | backend/internal/websocket/hub.go:89-91 | at the lookup that client had not: what makes the push panic happens after the lock is released |
| HubRuns.UnregisteredDuringSend | backend/internal/websocket/hub.go:50-57 | a run in which the hub closes the channel between a sender's lookup and its push, which panics |
| HubRuns.MappedIsOwner | backend/internal/websocket/hub.go:34-66 | after any run a user is mapped to the last client registered for them if it has not unregistered, and to nothing otherwise |
| HubRuns.StaleUnregister | backend/internal/websocket/hub.go:50-57 | the unregistration of a replaced client changes neither mapping nor channels |
| HubRuns.ClosedIffLeftAsOwner | backend/internal/websocket/hub.go:52-55 | a Send channel is closed exactly when its client unregistered while still the user's last one |
| HubRuns.BufferBounded | backend/internal/websocket/client.go:35 | no channel ever holds more than its capacity |
| HubRuns.ChannelIsFifo | backend/internal/websocket/client.go:65-92 | frames taken by the write pump followed by the buffered ones are the accepted frames, in order |
| HubFanOut.OfflineMembersExact | backend/internal/websocket/hub.go:152-169 | the push list holds exactly the offline other members, each once |
| HubFanOut.FanOutConservation | backend/internal/websocket/hub.go:104-169 | the other members split disjointly into accepted (the count, one copy each), offline (the push list) and online with a full queue, and the three sizes sum to the member count less the sender |
| Delivery.ChatServer.HandleDirectMessage | backend/internal/websocket/client.go:164-276 | refusal, failed save, or row, frame, status update, acknowledgement and push of a direct message |
| Delivery.ChatServer.HandleBotMessage | backend/internal/websocket/client.go:917-955 | the bot's row stays "sent"; the sender gets an echo of the message and an acknowledgement that says "delivered" |
| Delivery.ChatServer.AnswerAsBot | backend/internal/websocket/client.go:979-1012 | later, the bot's answer is stored as delivered and sent to the user; nothing happens when the bot fails or the row cannot be created |
| Delivery.ChatServer.HandleGroupMessage | backend/internal/websocket/client.go:278-386 | refusal, failed save, or row, fan-out, status update, acknowledgement and pushes of a group message |
| Delivery.DirectOutcome | backend/internal/websocket/client.go:164-276 | a direct message is refused exactly when one of the two blocks the other and fails exactly when its row cannot be created; otherwise one row is added with sender, recipient, content and expiry as asked for; it is acknowledged as stored, and as delivered exactly when the recipient's queue took its only copy, and otherwise the recipient gets a push, online or not; off these lines, a message to the bot (lines 917-955) is never refused, acknowledged as delivered and stored as sent |
| Delivery.BotOutcome | backend/internal/websocket/client.go:979-1012 | the bot's answer is stored exactly when the bot answers and the row can be created: from the bot to the user, as delivered; it goes out as at most one copy |
| Delivery.GroupOutcome | backend/internal/websocket/client.go:278-386 | a group message is refused exactly when its sender is not a member and fails exactly when its row cannot be created; otherwise one row is added with sender, group, content and expiry as asked for; delivered is acknowledged and stored exactly when some other member's queue took the frame; one copy each; pushes go to exactly the offline members (against a fixed hub state) |
| Messages.MessageTable.FindDue | backend/internal/services/scheduler.go:56-60 | exactly the messages scheduled for now or earlier, still "sent" and not deleted, each once |
| Messages.MessageTable.ProcessScheduledMessages | backend/internal/services/scheduler.go:52-78 | an uninterrupted tick delivers exactly the due messages, each once, and changes only their schedule and status |
| Messages.MessageTable.CancelScheduledMessage | backend/internal/services/scheduler.go:109-114 | removes the row only for its sender and only when the given clock reading is before the scheduled time; the reading may be older than the statement, which `MessageRuns` takes into account |
| Messages.MessageTable.HandleMessageEdit | backend/internal/websocket/client.go:471-511 | edits exactly the sender's own live message and says why otherwise |
| Messages.MessageTable.HandleMessageDelete | backend/internal/websocket/client.go:532-584 | marks exactly the sender's own message as deleted for everyone; deleting for oneself leaves the message alone and records it once per user |
| Messages.MessageTable.GetHistory | backend/internal/api/handlers/messages.go:26-75 | lists every direct message of the two users as it was, and marks what the other user sent as read |
| Messages.MessageTable.CleanupExpiredMessages | backend/internal/services/message_cleanup.go:54-66 | marks exactly the live messages whose expiry has passed as deleted now; afterwards no live message has expired |
| MessageRuns.HandedAtMostOnce | backend/internal/services/scheduler.go:52-114 | in every interleaving a message is delivered at most once |
| MessageRuns.HandedAndRemovedIff | backend/internal/services/scheduler.go:52-114 | a message is both delivered and removed by a cancel exactly when a cancel removed it while a tick had it queued and not yet cleared, and the tick has come to it since |
| MessageRuns.RacingCancelIsLate | backend/internal/services/scheduler.go:110-113 | such a cancel went by a clock reading older than the tick's, and so older than its own statement |
| MessageRuns.PromptCancelsNeverRace | backend/internal/services/scheduler.go:110-113 | if every cancel's statement runs at the moment of its clock reading, a delivered message is never removed by a cancel, before or after |
| MessageRuns.CancelledAndHanded | backend/internal/services/scheduler.go:110-113 | a run in which a message is removed by a cancel and delivered |
| MessageRuns.NeverHandedEarly | backend/internal/services/scheduler.go:52-78 | no message is delivered before the time it was scheduled for |
| MessageRuns.TickConservation | backend/internal/services/scheduler.go:52-78 | whatever happens during a tick, cancels and deletions included, the messages delivered so far followed by those still queued are exactly what its snapshot found due by its clock reading, each once |
| MessageRuns.UnreachableNeverHanded | backend/internal/api/handlers/messages.go:66-69 | a message read, deleted or cleared before a tick picked it up is never delivered later |
| MessageRuns.CanStillBeHandedIff | backend/internal/services/scheduler.go:52-78 | a message can still be delivered if and only if it is queued, or live, still "sent" and still scheduled |
| MessageRuns.EarlyReadLosesMessage | backend/internal/api/handlers/messages.go:66-69 | a run in which a live scheduled message is lost because its recipient read the conversation early |
| MessageRuns.DeletedDuringTickIsHanded | backend/internal/services/scheduler.go:67-77 | a run in which a message deleted after the snapshot is delivered |
| MessageLife.StepLifecycle | backend/internal/websocket/client.go:445-584 | one statement, field by field: a row goes exactly when its sender cancels it before its time; it becomes read exactly when its recipient acknowledges it or opens the history with its sender, and delivered when it is marked so, even if it has been read; content and edit time change exactly by the write of an edit, deletion exactly by its sender or by a sweep after its expiry, the schedule only by the scheduler; the other fields never change |
| MessageLife.RunLifecycle | backend/internal/websocket/client.go:445-584 | the same between any two moments of any run, with the statements that did it |
| MessageLife.DeletedContentChange | backend/internal/websocket/client.go:471-511 | the content of a deleted message changes only by an edit that its sender began, and that loaded the message, before the deletion |
| MessageLife.EditedAfterDeletion | backend/internal/websocket/client.go:483-511 | a run in which such an edit changes a deleted message |
| MessageLife.StatusOnlyRises | backend/cmd/server/main.go:132-175 | when nothing comes between handing a message over and writing its status, the status only rises in sent, delivered, read |
| MessageLife.ReadThenDelivered | backend/internal/websocket/client.go:244-246 | a run in which a direct message that has been read is marked as delivered |
| MessageLife.ListedIff | backend/internal/api/handlers/messages.go:36-59 | at any moment of any run a conversation's history lists exactly the messages created in it that their sender did not cancel, by the clock before their time and before a tick cleared them; neither schedule, status, deletion nor expiry matters |
| MessageLife.ListedBeforeDue | backend/internal/api/handlers/messages.go:36-59 | before its time a scheduled direct message is not delivered, yet its recipient's history lists it |
| MessageHistory.RowByHistory | backend/internal/websocket/client.go:445-584 | after any run every row is, field by field, what a replay of the events alone says, without the scheduler's queue or the table of edits |
| MessageHistory.EditByHistory | backend/internal/websocket/client.go:471-511 | an edit is under way exactly from its load of a live message by its sender to its write, with the content it was loaded with |
| MessageHistory.ReadIff | backend/internal/api/handlers/messages.go:66-69 | at any moment of any run a message counts as read exactly when its recipient acknowledged it (`client.go:453-455`) or opened the history with its sender, and it was not marked as delivered after that |
| MessageHistory.WholeEdit | backend/internal/websocket/client.go:471-511 | an edit whose load and write run one after the other changes content and edit time of the sender's own live message, or nothing |
| Polls.PollStore.Vote | backend/internal/models/poll.go:187-219 | toggles the user's vote, replacing their others on a single-select poll; refuses unknown polls, closed polls and foreign options |
| Polls.PollStore.Close | backend/internal/api/handlers/poll.go:156-187 | only the creator closes the poll |
| Polls.PollStore.ToPollResponse | backend/internal/models/poll.go:97-153 | total, own votes (each once), and for every option its count, percentage and, unless anonymous, its voters |
| PollRuns.PollByHistory | backend/internal/api/handlers/poll.go:156-187 | after any run of whole requests a poll is as it was created, and closed exactly if its creator has closed it |
| PollRuns.VoteClosedForm | backend/internal/models/poll.go:187-219 | after any run of whole requests on many polls a user holds an option exactly when their last choice on that poll (while it was open and had the option) was made an odd number of times in a row (single) or they chose it an odd number of times (multi) |
| PollRuns.SingleSelectOneVote | backend/internal/models/poll.go:207-210 | on a single-select poll every user has at most one vote, as long as requests do not overlap |
| PollRaces.WholeVote | backend/internal/models/poll.go:187-219 | a vote whose statements run one after the other is one step of `PollRuns` |
| PollRaces.TwoVotesIff | backend/internal/models/poll.go:196-218 | with every statement a step of its own: a user holds two votes on a single-select poll exactly when of two requests one cleared the ballot, the other inserted, the first inserted, and both rows stayed |
| PollRaces.TwoVotesOnOneBallot | backend/internal/models/poll.go:207-218 | a run that leaves two rows of one user on a single-select poll |
| PollRuns.VoteConfluence | backend/internal/models/poll.go:187-219 | two sequences of whole votes with the same votes per user, in any order, leave the same votes |
| PollRuns.ResponseAddsUp | backend/internal/models/poll.go:113-150 | in every reachable state the counts of a response computed from it sum to the poll's total, each percentage times the total is a hundred times the count, and the percentages sum to 100 when there are votes |
| PollRuns.ClosedPollFrozen | backend/internal/models/poll.go:187-224 | once closed, a poll stays closed and its votes never change, as long as requests do not overlap |
| PollRaces.ClosedPollCanChangeIff | backend/internal/models/poll.go:187-224 | with every statement a step of its own: the votes of a closed poll can still change exactly when a vote is under way whose remaining statements have an effect |
| PollRaces.LoadedWhileOpen | backend/internal/api/handlers/poll.go:117-128 | every vote under way loaded its poll while it was open |
| PollRaces.VoteAfterClose | backend/internal/models/poll.go:187-219 | a run in which a vote lands after the close |
| PreKeys.WholeBatchIff | backend/internal/services/keys.go:120-140 | a batch is stored whole exactly when all keys are well formed, all key ids are outside the pool and no two are equal |
| PreKeys.AcceptedCount | backend/internal/services/keys.go:120-140 | otherwise the stored entries are the longest acceptable prefix: the next entry is malformed, mis-sized, or its key id is in the pool or earlier in the batch |
| PreKeys.KeyService.CreateBatch | backend/internal/services/keys.go:120-140 | the loop stores exactly the entries before the first refused one and reports why that one was refused |
| PreKeys.KeyService.RegisterDevice | backend/internal/models/encryption_device.go:67-97 | updates or creates the device; fails exactly when another user's device has the id |
| PreKeys.KeyService.RegisterKeys | backend/internal/services/keys.go:42-110 | commits device, identity key, signed prekey and the whole batch or changes nothing, and succeeds exactly when all keys are well formed, no other user's device has the device id, and every key id of the batch is new and distinct |
| PreKeys.KeyService.UploadPreKeys | backend/internal/services/keys.go:112-141 | without a transaction, a failing upload leaves exactly the entries before the first malformed, mis-sized or duplicate one and says which of these it was |
| PreKeys.KeyService.FindPreKey | backend/internal/models/prekey.go:124-135 | finds the device's oldest prekey, which stays in the pool |
| PreKeys.KeyService.DeletePreKey | backend/internal/models/prekey.go:137-140 | deletes the row, if it is still there, without telling |
| PreKeys.KeyService.GetAndConsumePreKey | backend/internal/models/prekey.go:122-143 | with no other request in between: hands out the device's oldest prekey and removes it, or nothing if there is none |
| PreKeys.KeyService.GetPreKeyBundle | backend/internal/models/prekey.go:189-220 | a bundle of the stored keys and the consumed prekey; a failing fetch consumes nothing |
| PreKeys.KeyService.RemoveDevice | backend/internal/models/encryption_device.go:106-120 | removes the device with all its keys, sender keys included, and no others |
| PreKeyRuns.RunConsistent | backend/internal/models/prekey.go:13-22 | in every reachable state (registrations, uploads and removals running whole, fetches overlapping with everything) public keys are 32 bytes, prekeys belong to registered devices, key ids and device ids are unique, and devices, identity keys and signed prekeys go together |
| PreKeyRuns.BundleIffRegistered | backend/internal/models/prekey.go:189-207 | in every such state a fetch goes on exactly when it asks for a registered device; otherwise nothing changes |
| PreKeyRuns.PoolIsFifo | backend/internal/models/prekey.go:122-143 | over any run, however fetches overlap, the rows of a device that left the pool (deleted by a fetch or removed with the device) followed by those still there are the rows ever stored for it, in order |
| PreKeyRuns.OldestFirst | backend/internal/models/prekey.go:124-128 | no row leaves the pool twice, rows leave it oldest first, and every remaining row is newer than every departed one |
| PreKeyRuns.SameRowIff | backend/internal/models/prekey.go:122-143 | two fetches of a device are handed the same row exactly when no row of the device left the pool between their finds (no fetch's delete took one and the device was not removed); otherwise the later one gets a newer row or none |
| PreKeyRuns.LaterFetchGetsNewer | backend/internal/models/prekey.go:122-143 | a fetch that begins to look after another was answered gets a newer row: without overlap no row is handed out twice, and they go out oldest first |
| PreKeyRuns.FoundIsHeld | backend/internal/models/prekey.go:137-142 | what a fetch hands out at its delete is what it found |
| PreKeyRuns.HandedOutTwice | backend/internal/models/prekey.go:124-142 | a run in which two overlapping fetches are both handed a device's only prekey |
| PreKeyRuns.BundlePreKey | backend/internal/models/prekey.go:203-217 | the prekey a fetch finds is the device's oldest; an exhausted pool yields a bundle without one, as section 3.3 of the X3DH specification allows |
| PreKeyRuns.SenderKeyStands | backend/internal/models/sender_key.go:95-127 | over any run the sender key stored for a group and a device is the last one saved since the device was last removed |
| PreKeyHistory.RegisteredKeysStand | backend/internal/services/keys.go:42-110 | over any run a device's name and platform, identity key (registration id and bytes) and signed prekey (id, bytes and signature) are those of its last accepted registration since it was last removed, and absent if there is none |
| PreKeyHistory.AcceptsIff | backend/internal/services/keys.go:42-110 | in every consistent state a registration is accepted exactly when its two public keys are 32 bytes, its signature decodes, its device id is not another user's, and every entry of its batch is 32 bytes with a key id that is neither stored nor earlier in the batch |
| PreKeyHistory.StoredEntries | backend/internal/services/keys.go:87-140 | over any run the prekeys ever stored for a device hold, in order, the key ids and keys of the accepted registrations' batches and of the uploads' entries before the first that does not fit |
| PreKeyHistory.PoolHoldsEntries | backend/internal/models/prekey.go:122-143 | of these entries the first ones have left the pool, in that order, and the last ones are in it |
| PreKeyRuns.KeyIDsCollideAcrossUsers | backend/internal/models/prekey.go:17 | an acceptable registration is refused because another user's device uses the key id |
| LinkPreview.LinkMetadata.Extract | backend/internal/services/link_preview.go:86-166 | the recursive walk over any document equals a fold over its nodes in document order |
| LinkPreview.LinkMetadata.ExtractMeta | backend/internal/services/link_preview.go:93-144 | the effect of one meta element: the last attribute of a name counts, OpenGraph values overwrite, Twitter and plain descriptions only fill gaps |
| LinkPreview.LinkMetadata.ExtractLink | backend/internal/services/link_preview.go:146-158 | the effect of one link element |
| LinkPreview.FieldClosedForm | backend/internal/services/link_preview.go:113-144 | one field, whatever the nodes and what they offer: overwriting with strong values and filling with fallbacks leaves the last strong value, else the first fallback |
| LinkPreview.PreviewClosedForm | backend/internal/services/link_preview.go:86-166 | for every document each field is the last nonempty OpenGraph value, else the first nonempty fallback, else empty; the favicon is the last icon |
| LinkPreview.ImageMadeAbsolute | backend/internal/services/link_preview.go:74-81 | a nonempty image URL comes out with an http or https scheme and "://" exactly when it had them or began with a slash; "cover.png" and "httpd/cover.png" do not |
| LinkPreview.AttributeValueIsLast | backend/internal/services/link_preview.go:95-104 | the value read for an attribute name is that of the last attribute of that name |
| LinkPreview.OffersIff | backend/internal/services/link_preview.go:88-144 | exactly which nodes offer which text to which field, by tag name and attributes |
| LinkPreview.IconIff | backend/internal/services/link_preview.go:146-158 | a node offers a favicon exactly when it is a link element with that address and the relation "icon" or "shortcut icon" |
| LinkPreview.ImageResolved | backend/internal/services/link_preview.go:74-81 | an image URL with one slash in front gets the page's scheme and host, one with two the scheme, every other stays as it is |
| Pins.KeySymmetric | backend/internal/models/pinned_message.go:32-38 | both users of a conversation get the same key |
| Pins.LessIff | backend/internal/models/pinned_message.go:34 | the order of ids is the lexicographic one: where they first differ the smaller has ended or has the smaller character |
| Pins.KeysAgreeIff | backend/internal/models/pinned_message.go:32-38 | whatever the ids, two pairs share a key exactly when they are the same pair, or one joined text is the other cut at a different colon |
| Pins.KeyInjective | backend/internal/models/pinned_message.go:32-38 | a pair of colon-free ids shares its key with no other pair, colons or not |
| Pins.KeysCollideWithColons | backend/internal/models/pinned_message.go:32-38 | two different pairs of ids with colons that share a key |
| Pins.PinTable.PinMessage | backend/internal/models/pinned_message.go:40-72 | replaces the conversation's pin, or changes nothing when the message does not exist |
| Pins.PinTable.UnpinMessage | backend/internal/models/pinned_message.go:74-83 | removes exactly the conversation's rows |
| Pins.PinTable.GetPinnedMessage | backend/internal/models/pinned_message.go:85-105 | finds a row of the conversation exactly when there is one |
| Pins.PinsRefineBoard | backend/internal/models/pinned_message.go:33-105 | over any run of requests that do not overlap, whatever ids the others carry, the rows behave as a map from conversations (groups, unordered pairs of colon-free ids) to at most one pin: the latest not since undone |
| PinRaces.WholePin | backend/internal/models/pinned_message.go:40-72 | a pin whose two statements run one after the other is one step of `Pins` |
| PinRaces.TwoPinsIff | backend/internal/models/pinned_message.go:53-66 | with delete and insert as steps of their own: a conversation has two pins exactly when of two requests one deleted, the other inserted, the first inserted, and both rows stayed |
| PinRaces.TwoPinsOfOneGroup | backend/internal/models/pinned_message.go:53-66 | a run that leaves two pins in one group |
| Moderation.MediaStore.ProcessModeration | backend/internal/api/handlers/media.go:118-190 | the automatic moderation of one item with nothing in between: approved exactly for videos, audio, documents and images scanned clean, rejected exactly for images scanned explicit, under review otherwise |
| Moderation.StatusByHistory | backend/internal/api/handlers/media.go:118-190 | in every interleaving an item's status is what the events alone say: pending until its scan, then the verdict for its type and its scan, and from the first write of a review on what the last one decided |
| Moderation.WholeModeration | backend/internal/api/handlers/media.go:118-190 | the steps of a moderation one after the other leave what `ProcessModeration` leaves |
| Moderation.WholeReview | backend/internal/api/handlers/admin.go:46-112 | the steps of a review one after the other leave what `ReviewMedia` leaves |
| Moderation.MediaStore.ReviewMedia | backend/internal/api/handlers/admin.go:46-112 | with no other request in between: acts only on items under review; the move fails exactly when an approval's file is not in quarantine or the rename does not work, and then nothing changes |
| Moderation.VerdictChangesIff | backend/internal/api/handlers/admin.go:62-102 | in every interleaving of moderation steps and review steps, a verdict changes exactly when a review decides otherwise that had read "review" before another review of the item wrote, and writes after it |
| Moderation.ApprovedThenRejected | backend/internal/api/handlers/admin.go:62-102 | a run of two overlapping reviews: approved, then rejected with the file left in approved storage |
| Moderation.MissingDuringReview | backend/internal/api/handlers/admin.go:82-95 | a run in which an item under review cannot be fetched between the move of its file and the update of its row |
| Moderation.RowAndFileAgree | backend/internal/api/handlers/media.go:118-190 | in every interleaving of moderation steps and review steps of many items, row and file agree as each stage prescribes, for items whose own reviews do not overlap |
| Moderation.VerdictIsFinal | backend/internal/api/handlers/admin.go:70-102 | approved and rejected are never left once entered, if the item's reviews do not overlap |
| Moderation.FinishedOutcome | backend/internal/api/handlers/media.go:157-190 | after moderation, if the item's reviews do not overlap: an item under review is in quarantine unless a review is about to write, an approved one has a URL and is in approved storage, a rejected one has no path and no file; the file is elsewhere exactly when the file operation failed |
| Moderation.OnlyApprovedStored | backend/internal/api/handlers/media.go:172-183 | if the item's reviews do not overlap, its file is in approved storage only while it is approved or an approving review is about to write that |
| Moderation.MediaStore.GetMedia | backend/internal/api/handlers/media.go:192-217 | others get approved items only, nobody gets rejected ones, and the file is looked for where the row says it is |
| Moderation.FetchableIff | backend/internal/api/handlers/media.go:192-217 | at any moment, if the item's reviews do not overlap, it can be fetched exactly when it is approved, or not rejected and asked for by its uploader, and the row's path is current: it is between neither a move and the row's update nor a review's file operation and its write, and no move has failed |
| ReadReceipts.ReceiptTable.MarkMessagesAsRead | backend/internal/models/read_receipt.go:31-47 | creates the missing receipts of the list, one by one |
| ReadReceipts.ReceiptTable.GetUnreadCount | backend/internal/models/read_receipt.go:89-111 | counts the conversation's undeleted messages from others without a receipt of the user |
| ReadReceipts.UnreadIff | backend/internal/models/read_receipt.go:89-111 | exactly which messages are unread: undeleted, from someone else, without a receipt of the user, in the group or from the other user to this one |
| ReadReceipts.MarkKeepsReceipts | backend/internal/models/read_receipt.go:40-41 | marking keeps one receipt per message and user and every earlier read time |
| ReadReceipts.MarkIdempotent | backend/internal/models/read_receipt.go:31-47 | marking a list again at any later time changes nothing |
| ReadReceipts.MarkUnreadExact | backend/internal/models/read_receipt.go:31-111 | marking any list lowers the unread count of any conversation by the number of distinct listed ids that were unread there, and nobody else's |
| Reactions.ReactionTable.AddReaction | backend/internal/models/reaction.go:28-52 | replaces the user's reaction or creates one, keeping at most one per message |
| Reactions.ReactionTable.RemoveReaction | backend/internal/models/reaction.go:54-57 | removes exactly the user's reaction to the message |
| Reactions.ReactionTable.GroupByEmoji | backend/internal/models/reaction.go:104-108 | the map holds, for every emoji in use, its users in row order |
| Reactions.ReactionTable.GetMessageReactionInfo | backend/internal/models/reaction.go:97-120 | one group per emoji in use, with exactly its users, and the same counts as the grouped query of lines 66-88 |
| Reactions.CountsAddUp | backend/internal/models/reaction.go:66-120 | the groups' counts sum to the number of reactions to the message |
| Reactions.LastActionStands | backend/internal/models/reaction.go:28-57 | after any run a user's only reaction to a message is their last action |
| Reactions.UserInOneGroup | backend/internal/models/reaction.go:97-120 | after any run every reacting user is in exactly one group, that of their last action |

## Left out

- Two clock reads within one locked `Allow` call are one instant, and the 64-bit range of token counts is not modelled.
- What the process does after a panic: the step system lets the run go on with the hub unchanged, which covers a recovered panic; a crash only ends the run.
- A group fan-out is counted against a fixed hub state; its single sends are interleaved in `HubRuns`.
- A handler that waits forever on its full channel after its write pump died: the step system has it as a run without further events, and nothing is claimed about progress.
- Presence broadcasts, typing indicators, pings and socket deadlines: they only send frames, which `HubRuns` already allows at any time.
- In `Messages` and `Delivery` a handler runs whole; `MessageRuns` has its statements as steps of their own. Whether a frame is taken is an input there, not tied to a state of the hub.
- Overlapping registrations, uploads and removals of one device: each runs whole, so a prekey stored by an upload after the removal of its device is not modelled.
- Overlapping requests on read receipts and reactions, and votes cast while a response is computed; the unique indexes on receipts and reactions are the only protection the server has there.
- Database failures other than unique-index conflicts and the inputs that say a write fails.
- Prekeys are created at distinct times; the order of rows with equal creation times is not modelled.
- Base64 and JSON encoding, and HTML parsing: their results are inputs.
- Sender key chain iterations, device activity and the identity-key comparison: single lookups and updates.
- Pages and the `since` filter of a conversation's history: `GetHistory` stands for all pages.
- The default favicon address of a page without an icon: one assignment after the walk.
- Video, audio and document metadata, thumbnails, and the scanning service: foreign calls.
- Percentages are exact reals, without floating-point rounding.
- Ids are compared character by character; Go compares bytes, which orders UTF-8 text the same way.
- Authentication, routing, groups and roles, stars, themes, contacts, blocks, stories, broadcasts and archives: single guards or single upserts.
