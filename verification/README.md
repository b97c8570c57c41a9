# A model of the encrypted collaboration relay and its client protocol

This project models, in Dafny, the parts of the system whose correctness is argued across several
functions, and proves what they promise:

- the relay's **offline queue** (`queue_model`, `queue_properties`, `queue_delivery`, `storage`): two byte budgets
  split by message kind, per-user caps, a count ring, a user cap and largest-holder eviction;
- the **message router and relay handlers** as a state machine (`router_model`,
  `router_properties`, `routing`, `relay_model`, `relay_properties`, `relay_delivery`, `relay`): anchors,
  subscriptions with their authorization epoch, sessions and the queue;
- **capabilities, group membership and anchor rotation** (`capability`, `mls_group`), and the two
  protocols built from them: removing a member (`lockout`) and admitting one (`handshake`);
- the **snapshot codec** (`snapshot`), the **vault index** (`vault_sync`), the client's **handle
  ownership** (`client`), its **text diff** (`text_diff`) and the two **retry machines** (`retry`).

Where the source updates state in place there is a class with the same fields and the same loops.
Each of its methods is proved to carry out a function on values (`OfflineQueue` against
`QueueModel`, `MessageRouter` against `RouterModel`, `RelayServer` against `RelayModel`), and the
properties are lemmas about runs of those functions: what may never happen (`QueueProperties`,
`RelayProperties`) and what must happen (`QueueDelivery`, `RelayDelivery`), written over payloads,
identities, subscriptions and anchors. What the environment decides is an
argument: which channels are full, the order a hash map iterates in, which of several largest
holders is picked, whether a foreign call throws, the clock. The methods return the choices they
made as ghost results, and their contracts say that those choices are legal ones, so every run of
the code is a run of the model.

Each relay handler is one atomic step. Signatures are symbolic: a signature verifies only for the
key and the bytes it was made with. An MLS group is a list of leaves, an epoch and one key per
epoch, different for different epochs (the exporter of section 8.5 of RFC 9420); adds take the
leftmost blank leaf (section 12.1.1 of RFC 9420). In `Lockout` keys of the removal epoch and before
are unrestricted, since the removed member knows them, while later keys sign only what members of
those epochs sign: capabilities naming themselves, registration proofs, and the rotation to the
group's next key.

Five promises turned out to need a condition, and each is stated with it:

- an empty member map stays behind exactly with a subscriber cap of zero (`SubscribeNoEmptyExact`);
- one removal cuts a name off exactly when it holds a single leaf (`RemovalExact`), which only the
  owner's admission gate, and clean commits of others, ensure (`RunUniqueExact`, `UngatedRemovalMisses`);
- the owner is authorized when its Welcome is fanned out as long as its channel takes what it is sent
  (`LiveUserKeepsSubscriptions`, `WelcomeNeverAheadOfAnchor`); a route that finds it full while the
  user cap is reached can evict the owner (`FullChannelLosesOwner`), and with room under the cap it
  evicts nobody (`RoomEvictsNobody`). Whether a full channel costs a subscription depends on the
  byte evictions of the whole route, so this one condition is sufficient and not necessary;
- the vault registry equals the alive paths exactly as long as no peer overwrites an open path with
  a value that is not a boolean (`VaultAgreesExact`, `NonBooleanBreaksAgreement`);
- `process_commit` fails after changing the group when the commit removes its own member
  (`ProcessCommit`).

Check everything with `dafny verify dfyconfig.toml`.

## Model

| member | source | states |
|---|---|---|
| RelayProperties.ContentSafety | crates/collab-relay/src/routing.rs:367-474 | Copy for copy, over every run with authorization on: a user never holds more copies of a content message, sent or queued, than there were moments at which it was routed while its sender and that user were both subscribed and the last accepted Subscribe of each, not given up since, was granted at the epoch the document's anchor had at that moment |
| RelayProperties.RelayFifo | crates/collab-relay/src/routing.rs:367-400 | Over every run, what a user was sent followed by what is queued for it is an in-order part of what was routed to it: nothing is repeated, reordered or invented |
| RelayDelivery.RelayLossless | crates/collab-relay/src/routing.rs:367-400 | Over every run in which whatever was queued found room, what a user was sent followed by what is queued for it is exactly what was routed to it, in order |
| RelayDelivery.ContentReachesEveryAuthorized | crates/collab-relay/src/routing.rs:425-497 | An update from a user whose stored grant is the anchor's current epoch is relayed unchanged, once each, to exactly the other subscribers with that grant (to all others with authorization off), on the wire to whom the channel takes it and through the queue otherwise |
| RelayDelivery.ContentRefused | crates/collab-relay/src/relay.rs:654-676 | From an unidentified connection, for an overlong id, or without such a grant an update changes nothing |
| RelayDelivery.HandshakeReachesAll | crates/collab-relay/src/relay.rs:692-733 | A handshake frame within the bounds is relayed unchanged, once each, to exactly the other subscribers, whatever their grants |
| RelayDelivery.HandshakeRefused | crates/collab-relay/src/relay.rs:700-724 | Outside the bounds a handshake frame changes nothing |
| RelayDelivery.SubscribeOutcome | crates/collab-relay/src/relay.rs:462-550 | A subscribe with a seat is stored for the handshake only without a capability or with authorization off, for content at the anchor's epoch with a capability signed by the anchor's key for this user, document and epoch, and not at all with any other capability |
| RelayDelivery.SubscribeRefused | crates/collab-relay/src/relay.rs:470-498 | From an unidentified connection, for an overlong id or beyond the caps a subscribe changes no subscription |
| RelayDelivery.RegistrationExact | crates/collab-relay/src/relay.rs:577-635 | A registration stores its key exactly when identified, with a 32-byte key, its own proof, and either a higher epoch signed by the stored key or, for a first anchor, room and an epoch within the ceiling; otherwise it changes nothing |
| RelayDelivery.EnqueueAllLosesNothing | crates/collab-relay/src/routing.rs:387-392 | With room for all, every listed user gets the message appended, nobody else anything, and nobody is evicted |
| RelayDelivery.EnqueueAllCollects | crates/collab-relay/src/routing.rs:386-395 | The users collected for pruning are exactly those some enqueue of the route evicted |
| RelayDelivery.TakeoverExact | crates/collab-relay/src/routing.rs:230-275 | A takeover notifies and closes exactly the replaced session and moves nobody else; without permission it changes nothing |
| RelayDelivery.DisconnectSlowCloses | crates/collab-relay/src/routing.rs:506-517 | A batch of slow marks closes exactly the marked connections that were still their user's session |
| RelayDelivery.IdentifyRefused | crates/collab-relay/src/relay.rs:381-407 | An Identify with a bad token or an overlong id changes nothing |
| RelayDelivery.UnsubscribeStep | crates/collab-relay/src/relay.rs:638-651 | An Unsubscribe takes exactly the identified user's subscription to that document and touches nothing else |
| RelayProperties.GrantMeansVerified | crates/collab-relay/src/relay.rs:509-550 | A grant at epoch e goes back to one event of the run in which a capability naming that user and document verified under the anchor then stored at epoch e |
| RelayProperties.RunSubscriptionsAreGrants | crates/collab-relay/src/routing.rs:312-351 | Over every run each stored subscription equals what the user's last accepted Subscribe was granted, and there is none after the user's own Unsubscribe |
| RelayProperties.RotationRevokes | crates/collab-relay/src/routing.rs:425-474 | At every position after the anchor has passed epoch e: content from a connection whose user was last granted e is not routed, and a user last granted e is no recipient of the document's content and gains no copy of any, whatever it held before |
| RelayProperties.StepCopies | crates/collab-relay/src/routing.rs:451-497 | One event adds at most one copy of a message to what a user received, and only by routing it to that user as a recipient |
| RelayProperties.AnchorChain | crates/collab-relay/src/relay.rs:577-635 | In every run a document's anchor epochs strictly increase from a first one at or below the ceiling, the last is the stored one, every one of them, the first included, came with a proof made by its own key, and each later key was signed for this document and epoch by the key it replaced |
| RelayProperties.AnchorEpochMonotone | crates/collab-relay/src/routing.rs:176-191 | A stored anchor is never lost and its epoch never goes back, from any point of a run to its end |
| RelayProperties.HandshakeReachesEverySubscriber | crates/collab-relay/src/routing.rs:355-395 | An accepted handshake message is served to exactly the other subscribers, whatever their grants, each once, on the wire or through the queue |
| RelayProperties.StepSubscription | crates/collab-relay/src/relay.rs:462-651 | One event changes a subscription only by dropping it or by an accepted Subscribe of that very user for that very document; its own Unsubscribe ends it |
| RelayProperties.IdentifyHandsOver | crates/collab-relay/src/relay.rs:372-443 | A successful Identify makes the connection the session, closes the replaced one, and hands over the user's whole queue in order and once; other sessions, queues, subscriptions and anchors stay |
| RelayProperties.TeardownExact | crates/collab-relay/src/relay.rs:265-270 | A teardown forgets the connection's identity, removes no session but its own, and changes nothing else |
| RelayProperties.RunStructure | crates/collab-relay/src/routing.rs:329-351 | With a positive subscriber cap, in every run no document keeps an empty member map |
| RelayProperties.RunWithinCaps | crates/collab-relay/src/routing.rs:176-338 | Under every configuration, in every run the document, subscriber and anchor caps hold |
| RelayProperties.RunQueueSound | crates/collab-relay/src/relay.rs:372-733 | Over every run of the relay the queue's bookkeeping and all its limits hold, and nothing is queued for a user with a live session |
| RelayProperties.LiveUserKeepsSubscriptions | crates/collab-relay/src/routing.rs:380-399 | A live user whose channel takes what it is sent, or who sends, keeps every subscription it does not give up itself, whatever others do |
| RelayProperties.LiveUserKeepsSession | crates/collab-relay/src/routing.rs:480-517 | Such a user keeps its session until it is torn down or taken over |
| MlsGroup.RunUniqueExact | crates/collab-core/src/mls.rs:385-638 | Over every run of adds, gated answers, removals, followed commits and restores, from a created, joined or restored start, identities stay pairwise distinct throughout if and only if every ungated add and every merged commit seats nobody who is already seated |
| MlsGroup.OwnerLeafStays | crates/collab-core/src/mls.rs:444-638 | Over every such run leaf 0 stays the owner's, and a member in leaf 0 is never evicted |
| MlsGroup.RunMembership | plugins/obsidian-ee/src/collab-client.ts:1117-1148 | Over every clean run the members are exactly those who were there or entered (asked the owner while listed, were added, or came with a merged commit) and have not been removed since |
| MlsGroup.OneRemovalSuffices | crates/collab-core/src/mls.rs:458-519 | After any clean run one removal by the owner leaves the removed identity no leaf at all |
| MlsGroup.CopiesAgree | plugins/obsidian-ee/src/collab-client.ts:1187-1201 | A member that starts from the owner's state, as its Welcome gives it, and follows the commits the owner makes and merges in order holds the owner's leaves and epoch exactly until a commit removes its own leaf |
| MlsGroup.OwnCommitIgnored | plugins/obsidian-ee/src/collab-client.ts:1187-1201 | The commit that admitted a member changes nothing once that member has joined |
| Lockout.RemovalLocksOut | crates/collab-core/src/mls.rs:484-519 | After the owner's removal of m at epoch n and the relay's acceptance of the emitted rotation, in every continuation without re-adding m: no capability signed with a key of epoch n or earlier verifies, none verifies for m, m may not publish and is no recipient of content, and the same rotation is refused |
| Lockout.RemovedReceivesNothing | crates/collab-relay/src/routing.rs:451-474 | After the removal and the accepted rotation, in every continuation without re-adding m, the copies of any content of the document that m was sent or has queued never grow |
| Lockout.RemovedPublishesNothing | crates/collab-relay/src/routing.rs:425-435 | After the removal and the accepted rotation, in every such continuation, no content event from a connection identified as m is routed for the document |
| Lockout.RunStaysLocked | crates/collab-relay/src/relay.rs:577-635 | The lock is an invariant of every run: the anchor stays a group key of an epoch after n and m never regains a later grant |
| Lockout.NoCapabilityForRemoved | crates/collab-proto/src/capability.rs:160-193 | No capability naming m verifies under a key of an epoch whose members, m not among them, sign only their own capabilities |
| Lockout.RotationFollowsGroup | crates/collab-proto/src/capability.rs:330-344 | From a group key of an epoch after n the anchor can only move to the group's next key |
| Lockout.RotationAcceptedExact | crates/collab-relay/src/relay.rs:577-635 | A rotation is accepted if and only if the connection is identified, the id is short enough, and the stored anchor is the outgoing key at a lower epoch (or there is none and the first-anchor bounds hold) |
| Lockout.RunGrantsBehindAnchor | crates/collab-relay/src/relay.rs:545-550 | In every run each content grant is at or below the document's current anchor epoch |
| Handshake.WelcomeNeverAheadOfAnchor | plugins/obsidian-ee/src/collab-client.ts:1176-1207 | In every run from bootstrap in which the owner's channel takes what it is sent, when the relay fans out a Welcome for epoch e the anchor is the group's key of exactly e, the owner is subscribed and content-authorized, and the joiner's capability is granted at e |
| Handshake.FullChannelLosesOwner | crates/collab-relay/src/routing.rs:380-399 | The condition is needed: with a full channel and the user cap reached, one route cuts the owner off and evicts it, and its pending Welcome is fanned out while it is unauthorized |
| Handshake.RunCoherent | plugins/obsidian-ee/src/collab-client.ts:451-482 | The owner's session and subscription stay and the frames still on its link always continue the stored anchor and grant in the promised order, whatever other clients do in between |
| Handshake.InviteInOrder | plugins/obsidian-ee/src/collab-client.ts:1176-1207 | One admission's frames take anchor and grant from epoch e to e + 1 in the promised order |
| Handshake.InviteSends | plugins/obsidian-ee/src/collab-client.ts:1176-1207 | An admission sends the registration of the new epoch, the owner's capability, one commit and one Welcome, in this order and as frames of those types |
| Handshake.LinkMoves | plugins/obsidian-ee/src/collab-client.ts:1176-1207 | An admission appends exactly those frames behind everything on the link, and a delivery takes exactly the first frame |
| QueueProperties.QueueRunSafe | crates/collab-relay/src/storage.rs:467-516 | Over any sequence of enqueues and drains: order lists exactly the tracked users once each, no queue is empty, every limit holds, and what was delivered followed by what is queued is an in-order part of what was offered |
| QueueDelivery.QueueRunLossless | crates/collab-relay/src/storage.rs:467-516 | Over any run whose enqueues all found room, what was delivered followed by what is queued is exactly what was offered |
| QueueDelivery.EnqueueLosesNothing | crates/collab-relay/src/storage.rs:467-501 | With room under the byte caps, the budget, the count cap and the user cap, an enqueue appends the message, drops nothing, evicts nobody and reports zeros |
| QueueDelivery.TrimIsMinimal | crates/collab-relay/src/storage.rs:245-255 | The per-user trim drops the oldest messages of the kind one by one, and with one drop less the message would not fit |
| QueueDelivery.EvictionIsMinimal | crates/collab-relay/src/storage.rs:266-276 | Before each aggregate eviction the message did not fit the budget |
| QueueDelivery.RunWithinLimits | crates/collab-relay/src/storage.rs:323-345 | Over any run the payload bytes of updates and of handshakes stay under their own limits, in total and per user, and the count and user caps hold |
| QueueDelivery.HeldIsPayload | crates/collab-relay/src/storage.rs:75-110 | The content counter is the sum of the encrypted payload lengths of updates, the handshake counter that of handshake payloads |
| QueueDelivery.RefusalExact | crates/collab-relay/src/storage.rs:472-480 | Refused is exactly an update or handshake longer than its kind's per-user cap or budget, and a refusal changes nothing |
| QueueDelivery.FloodsStayApart | crates/collab-relay/src/storage.rs:482-484 | The byte phase of an update displaces no handshake, that of a handshake no update, and that of any other message nothing |
| QueueProperties.FairShare | crates/collab-relay/src/storage.rs:266-276 | With n holders of the kind when aggregate eviction starts, a user whose bytes times n are at most the budget minus what is needed loses nothing to it |
| QueueProperties.BytePhaseSheds | crates/collab-relay/src/storage.rs:482-484 | Kind isolation: the byte phase drops only oldest messages of the enqueued kind; every user's other-kind messages stay, in order |
| QueueProperties.EnqueueBounded | crates/collab-relay/src/storage.rs:467-501 | Room is always made: an enqueue keeps aggregate budgets, per-user byte caps, the count cap and the user cap |
| QueueProperties.BytePhaseUserRoom | crates/collab-relay/src/storage.rs:245-255 | The byte phase ends with room for the message under its user's cap |
| QueueProperties.BytePhaseTotal | crates/collab-relay/src/storage.rs:482-484 | The byte phase never adds bytes and loses exactly the messages reported as displaced |
| QueueProperties.EnqueueWellFormed | crates/collab-relay/src/storage.rs:467-501 | An enqueue keeps the insertion order equal to the tracked users, without repeats or empty queues |
| QueueProperties.EnqueueNewest | crates/collab-relay/src/storage.rs:467-501 | An admitted message ends as the newest, behind an in-order part of what its user had |
| QueueProperties.EnqueueOthers | crates/collab-relay/src/storage.rs:467-501 | Every other user keeps an in-order part of its queue |
| QueueProperties.EnqueueEvictsOldest | crates/collab-relay/src/storage.rs:282-293 | An evicted user is the least recently inserted one left by the byte phase, is not the enqueued-for user, and goes only at the user cap |
| QueueProperties.EnqueueSparesUntracked | crates/collab-relay/src/storage.rs:282-293 | A user with nothing queued is never evicted by an enqueue for somebody else |
| QueueProperties.EnqueueWithRoom | crates/collab-relay/src/storage.rs:282-293 | Nobody is evicted while the user cap has room for the user enqueued for |
| QueueProperties.EnqueueConserves | crates/collab-relay/src/storage.rs:467-501 | The number of queued messages changes by exactly 1 - displaced - trimmed - the evicted queue's length |
| QueueProperties.NobodyHoldsNothing | crates/collab-relay/src/storage.rs:217-227 | While bytes of a kind are queued somebody holds some: the no-victim exit is never taken |
| QueueProperties.DrainFacts | crates/collab-relay/src/storage.rs:506-516 | A drain returns the user's whole queue in order, leaves nothing for it and everything for others |
| QueueProperties.DrainBounded | crates/collab-relay/src/storage.rs:506-516 | A drain keeps every limit |
| QueueProperties.TrimUserBudgetFacts | crates/collab-relay/src/storage.rs:245-255 | The per-user trim stops with room under the cap and sheds only that user's oldest messages of the kind (and no more than needed, by TrimIsMinimal) |
| QueueProperties.TrimToCapFacts | crates/collab-relay/src/storage.rs:232-241 | The count ring keeps exactly the newest messages |
| Storage.RemovalAgrees | crates/collab-relay/src/storage.rs:185-202 | Crediting a removed message never underflows and keeps per-user and aggregate counters equal to the payload sums |
| Storage.OfflineQueue.RemoveAt | crates/collab-relay/src/storage.rs:189-202 | Removes exactly that message, reaps an emptied user, keeps all counters in agreement |
| Storage.OfflineQueue.DropOldestOf | crates/collab-relay/src/storage.rs:209-215 | Removes the first message of the kind; false exactly when there is none |
| Storage.OfflineQueue.LargestHolder | crates/collab-relay/src/storage.rs:221-227 | A user no other exceeds in bytes of the kind; none exactly when no such bytes are queued |
| Storage.OfflineQueue.TrimToCap | crates/collab-relay/src/storage.rs:232-241 | The loop equals its specification and reports the exact number dropped |
| Storage.OfflineQueue.TrimUserBudget | crates/collab-relay/src/storage.rs:245-255 | The loop equals its specification and reports the exact number dropped |
| Storage.OfflineQueue.MakeRoom | crates/collab-relay/src/storage.rs:266-276 | Terminates with the space free; every drop was the oldest of the kind of a user then holding the maximum, while over budget |
| Storage.OfflineQueue.EvictIfFull | crates/collab-relay/src/storage.rs:282-293 | Evicts the head of the order at the user cap and credits both aggregates |
| Storage.OfflineQueue.Enqueue | crates/collab-relay/src/storage.rs:467-501 | Counters, order and limits hold afterwards; contents and outcome are the specification's for a legal choice of victims |
| Storage.OfflineQueue.Drain | crates/collab-relay/src/storage.rs:506-516 | Returns and forgets the user's queue, crediting both aggregates |
| RouterProperties.RouteServesEachOnce | crates/collab-relay/src/routing.rs:367-497 | Recipients and only they are served, each exactly once: sent on the live session or handed to the queue |
| RouterProperties.RouteTouchesOnlyRecipients | crates/collab-relay/src/routing.rs:451-497 | For each user: exactly one copy on the channel for a recipient whose channel takes it, at most one in the queue behind an in-order part of it for an offline or slow recipient, nothing for anybody else |
| RouterProperties.RouteSessions | crates/collab-relay/src/routing.rs:380-384 | A route ends exactly the sessions of recipients whose channel was full |
| RouterProperties.LiveUserKept | crates/collab-relay/src/routing.rs:380-399 | A live user whose channel takes what it is sent, or who is the sender, is never evicted by a route and keeps its session and every subscription with its authorization |
| RouterProperties.RoomEvictsNobody | crates/collab-relay/src/routing.rs:387-399 | A route for whose queued recipients the user cap has room evicts nobody |
| RouterProperties.RouteDropsEvicted | crates/collab-relay/src/routing.rs:389-415 | Users evicted during a route keep no subscription, all others keep exactly theirs |
| RouterProperties.RouteNoEmpty | crates/collab-relay/src/routing.rs:409-415 | A route prunes every document that loses its last member |
| RouterProperties.RouteWithinCaps | crates/collab-relay/src/routing.rs:367-415 | A route respects every cap |
| RouterProperties.EnqueueAllKeeps | crates/collab-relay/src/routing.rs:387-392 | Enqueueing for a list of recipients keeps the queue's bookkeeping and limits |
| RouterProperties.DisconnectSlowExact | crates/collab-relay/src/routing.rs:506-517 | A user stays connected, on the same session, if and only if that very session was not marked slow |
| RouterProperties.UnregisterExact | crates/collab-relay/src/routing.rs:286-291 | A stale unregister changes nothing; a current one removes exactly its own session |
| RouterProperties.SubscribeExact | crates/collab-relay/src/routing.rs:312-339 | When a subscribe is accepted, and that it then states one user's authorization for one document and touches nothing else |
| RouterProperties.SubscribeNoEmptyExact | crates/collab-relay/src/routing.rs:329-338 | An empty member map is left behind exactly when the subscriber cap is zero and the document is new and fits |
| RouterProperties.SubscribeWithinCaps | crates/collab-relay/src/routing.rs:327-338 | A subscribe keeps the document and subscriber caps |
| RouterProperties.UnsubscribeExact | crates/collab-relay/src/routing.rs:342-351 | An unsubscribe ends exactly one user's subscription to one document |
| RouterProperties.UnsubscribeKeeps | crates/collab-relay/src/routing.rs:342-351 | An unsubscribe prunes a document left without members |
| Routing.MessageRouter.SetAnchor | crates/collab-relay/src/routing.rs:176-211 | Accepts a strictly higher epoch, or a first anchor within both bounds; otherwise changes nothing |
| Routing.MessageRouter.RegisterClient | crates/collab-relay/src/routing.rs:230-275 | Newer connection wins with takeover, the older is notified and closed; without takeover nothing changes |
| Routing.MessageRouter.UnregisterClient | crates/collab-relay/src/routing.rs:286-291 | Compare-and-remove, against the specification UnregisterExact is proved of |
| Routing.MessageRouter.Subscribe | crates/collab-relay/src/routing.rs:312-339 | The in-place update equals the specification SubscribeExact is proved of |
| Routing.MessageRouter.Unsubscribe | crates/collab-relay/src/routing.rs:342-351 | The in-place update equals the specification UnsubscribeExact is proved of |
| Routing.MessageRouter.Recipients | crates/collab-relay/src/routing.rs:451-474 | Lists exactly the other subscribers, narrowed for gated content to those whose grant is the anchor's current epoch, each once; none means nobody is eligible |
| Routing.MessageRouter.FanOut | crates/collab-relay/src/routing.rs:480-497 | Sends to, and classifies, each subscriber once; the count is the number sent |
| Routing.MessageRouter.DisconnectSlow | crates/collab-relay/src/routing.rs:506-517 | The loop equals the specification DisconnectSlowExact is proved of |
| Routing.MessageRouter.DropSubscriptions | crates/collab-relay/src/routing.rs:409-415 | Removes the users everywhere and drops documents left without members |
| Routing.MessageRouter.EnqueueAll | crates/collab-relay/src/routing.rs:387-392 | Each enqueue is a legal one; collects exactly the evicted users |
| Routing.MessageRouter.RouteMessage | crates/collab-relay/src/routing.rs:367-400 | The whole route is the specified one for a legal choice of order and victims; the result is the number sent directly |
| RelayServer.RelayServer.HandleIdentify | crates/collab-relay/src/relay.rs:372-443 | One Identify step of the machine; replies with the confirmation and the whole queue, or the exact error |
| RelayServer.RelayServer.AuthorizeSubscribe | crates/collab-relay/src/relay.rs:509-550 | Grants the handshake only without a capability, content at the stored anchor epoch with one signed by the stored key for this user, document and epoch, and rejects any other |
| RelayServer.RelayServer.HandleSubscribe | crates/collab-relay/src/relay.rs:462-499 | One Subscribe step; confirms exactly a subscribe with a seat whose capability, if any, proves membership; otherwise the exact error |
| RelayServer.RelayServer.HandleRegisterDocKey | crates/collab-relay/src/relay.rs:577-635 | One registration step; silent exactly when identified, proven by its own key, and signed by the stored key for a rotation; otherwise the exact error |
| RelayServer.RelayServer.HandleUnsubscribe | crates/collab-relay/src/relay.rs:638-651 | One Unsubscribe step and its reply |
| RelayServer.RelayServer.HandleYrsUpdate | crates/collab-relay/src/relay.rs:654-689 | One publish step; silent exactly when the identified sender's stored grant is the anchor's current epoch or authorization is off; otherwise the exact error |
| RelayServer.RelayServer.HandleMlsHandshake | crates/collab-relay/src/relay.rs:692-733 | One handshake step; silent exactly when identified and within both bounds, otherwise the exact error |
| RelayServer.RelayServer.CloseConnection | crates/collab-relay/src/relay.rs:265-270 | One teardown step |
| Capability.SigningBytesInjective | crates/collab-proto/src/capability.rs:95-111 | The signed capability bytes determine user, document, epoch and expiry |
| Capability.RegisterProofBytesInjective | crates/collab-proto/src/capability.rs:204-213 | The registration bytes determine document and epoch |
| Capability.RotationProofBytesInjective | crates/collab-proto/src/capability.rs:277-287 | The rotation bytes determine document, epoch and new key |
| Capability.StatementsDisjoint | crates/collab-proto/src/capability.rs:17-29 | No byte string is two of the three kinds of statement |
| Capability.SigningLayout | crates/collab-proto/src/capability.rs:85-111 | Where label, user, document, epoch and expiry stand in the signed bytes, by offset |
| Capability.RegisterProofLayout | crates/collab-proto/src/capability.rs:195-213 | Where label, document and epoch stand in the registration bytes, by offset |
| Capability.RotationProofLayout | crates/collab-proto/src/capability.rs:268-287 | Where label, document, epoch and new key stand in the rotation bytes, by offset |
| Capability.VerifiedCapabilityMeans | crates/collab-proto/src/capability.rs:160-193 | A verified capability was signed with the anchor's key for exactly its user, document, epoch and expiry, is unexpired, and never passes as a registration or rotation proof |
| Capability.VerifiedRotationMeans | crates/collab-proto/src/capability.rs:330-344 | A verified rotation proof verifies for no other document, epoch, new key or outgoing key, and never as a registration proof |
| Capability.SignVerifyRoundTrip | crates/collab-proto/src/capability.rs:121-193 | Minting then verifying succeeds exactly for the same key, user, document and epoch, until expiry |
| Capability.CapabilityErrorsInOrder | crates/collab-proto/src/capability.rs:160-193 | The first failing check names the error: user, document, epoch, expiry, then the signature |
| Capability.BuildSigningBytes | crates/collab-proto/src/capability.rs:95-111 | The appended buffer is the encoding the injectivity lemmas are about |
| Capability.BuildRegisterProofBytes | crates/collab-proto/src/capability.rs:204-213 | The appended buffer is the encoding the injectivity lemmas are about |
| Capability.BuildRotationProofBytes | crates/collab-proto/src/capability.rs:277-287 | The appended buffer is the encoding the injectivity lemmas are about |
| MlsGroup.AnswerKeyPackage | plugins/obsidian-ee/src/collab-client.ts:1161-1176 | A key package is admitted by the owner only, exactly when listed, readable and not yet a member; a refusal leaves group and epoch alone, an admission keeps identities unique and yields the next rotation |
| MlsGroup.UniqueRemoval | crates/collab-core/src/mls.rs:484-519 | With unique identities one removal leaves the member no leaf and touches nobody else |
| MlsGroup.RemovalExact | crates/collab-core/src/mls.rs:444-475 | After one removal the identity is still seated exactly when it held at least two leaves |
| MlsGroup.UngatedRemovalMisses | crates/collab-core/src/mls.rs:460-468 | Without the gate: two adds of one name, one removal, still in |
| MlsGroup.AddLeafUniqueExact | crates/collab-core/src/mls.rs:385-429 | An add keeps identities unique exactly when the newcomer is not a member, and moves nobody |
| MlsGroup.AddLeafLeftmost | crates/collab-core/src/mls.rs:406-411 | An add takes the leftmost blank leaf, or a new last one, and moves nobody |
| MlsGroup.CommitUniqueExact | crates/collab-core/src/mls.rs:586-638 | Any commit keeps identities unique exactly when it repeats no added name and re-adds nobody still seated |
| MlsGroup.MlsDocumentGroup.Create | crates/collab-core/src/mls.rs:243-293 | The creator is owner, alone in leaf 0, at epoch 0 |
| MlsGroup.MlsDocumentGroup.Adopt | crates/collab-core/src/mls.rs:353-373 | The owner of a restored group is re-derived from leaf 0 |
| MlsGroup.MlsDocumentGroup.Join | crates/collab-core/src/mls.rs:196-232 | Joining is refused exactly for a Welcome that does not seat the joiner and a leaf-0 member |
| MlsGroup.MlsDocumentGroup.AddMember | crates/collab-core/src/mls.rs:385-429 | Advances one epoch, seats the newcomer, and emits the rotation from the outgoing to the new epoch's key; changes nothing on error |
| MlsGroup.MlsDocumentGroup.RemoveMember | crates/collab-core/src/mls.rs:484-519 | Succeeds exactly for the owner naming another current member; blanks that leaf, advances the epoch and emits the rotation |
| MlsGroup.MlsDocumentGroup.ProcessCommit | crates/collab-core/src/mls.rs:586-638 | Merges exactly the well-formed commits of other members whose removals come from the owner and spare leaf 0; leaf 0 stays the owner's; an evicted member gets no rotation |
| MlsGroup.MlsDocumentGroup.MintSubscribeCapability | crates/collab-core/src/mls.rs:681-692 | The minted capability verifies at the current epoch and expires at exactly the saturating sum of now and the lifetime |
| Snapshot.SnapshotRoundTrip | crates/collab-core/src/persistence.rs:176-274 | For every header and map within the limits, in any iteration order, parsing the print gives both back with the cursor at the end, or stops as stale right after the header when the epoch is older than accepted |
| Snapshot.StrictPrefixRejected | crates/collab-core/src/persistence.rs:231-274 | Every strict prefix of a printed snapshot is rejected, except that one with an epoch older than accepted is stale once its whole header is there |
| Snapshot.OnlyPrintsAccepted | crates/collab-core/src/persistence.rs:231-274 | Whatever bytes are accepted as fresh state are a printed header with the version byte in front, checked user id and scheme, and a printed list of at most 100000 entries |
| Snapshot.LastValueWins | crates/collab-core/src/persistence.rs:142-153 | A key that is printed more than once is restored with its last value |
| Snapshot.HeaderConsumed | crates/collab-core/src/persistence.rs:252-265 | The bytes a parsed header consumed are exactly that header's print |
| Snapshot.HeaderFormat | crates/collab-core/src/persistence.rs:187-194 | Where version, group id, user id, scheme, public key and epoch stand, by offset |
| Snapshot.StorageFormat | crates/collab-core/src/persistence.rs:112-131 | Where entry count, key length, key, value length and value stand, by offset |
| Common.LittleEndianAt | crates/collab-core/src/persistence.rs:68-73 | Byte i of a printed word is its i-th least significant byte |
| Snapshot.ParseSnapshotExtends | crates/collab-core/src/persistence.rs:76-156 | A successful parse never depends on bytes after its cursor |
| Snapshot.StorageHere | crates/collab-core/src/persistence.rs:117-156 | A printed map parses back to itself wherever it starts |
| Snapshot.HeaderHere | crates/collab-core/src/persistence.rs:187-195 | A printed header parses back to itself |
| Snapshot.Reader.Take | crates/collab-core/src/persistence.rs:85-90 | In bounds on any bytes; the cursor moves by n or, on failure, not at all |
| Snapshot.Reader.Word | crates/collab-core/src/persistence.rs:92-104 | Reads a little-endian word of the given width or fails |
| Snapshot.Reader.Counted | crates/collab-core/src/persistence.rs:106-109 | Reads a length word and that many bytes or fails |
| Snapshot.Provider.EncodeStorage | crates/collab-core/src/persistence.rs:117-131 | Prints every entry once, in the order the map happened to iterate |
| Snapshot.Provider.DecodeStorage | crates/collab-core/src/persistence.rs:135-156 | Terminates on any bytes; storage changes only if everything parsed, and then to exactly what was printed |
| Snapshot.BuildSnapshot | crates/collab-core/src/persistence.rs:176-215 | The plaintext is the printed header followed by the printed map |
| Snapshot.RestoreSnapshot | crates/collab-core/src/persistence.rs:231-300 | On any plaintext: corrupt or stale leaves storage alone, otherwise header and storage are the parsed ones |
| VaultSync.VaultIndexAgrees | crates/collab-core/src/vault_sync.rs:235-398 | After any mix of local events and remote applies every open path is in scope and not deleted and every in-scope alive path is open; with boolean values only the registry is exactly the in-scope alive paths |
| VaultSync.VaultAgreesExact | crates/collab-core/src/vault_sync.rs:235-398 | Registry and in-scope alive paths agree at every point of a history if and only if no received update overwrites an open path with a non-boolean |
| VaultSync.RemoteApplyExact | crates/collab-core/src/vault_sync.rs:338-398 | A remote apply restores full agreement exactly when no open path was overwritten with a non-boolean |
| VaultSync.NonBooleanBreaksAgreement | crates/collab-core/src/vault_manifest.rs:94-104 | The condition is reachable: a created file whose path a peer later overwrites with a non-boolean stays open although it is not alive |
| VaultSync.ScopeExact | crates/collab-core/src/vault_sync.rs:101-126 | In scope is exactly a listed extension, an allowlist entry equal to the path or followed by a separator in it (or no list), and no exclude pattern as a prefix |
| VaultSync.TrimGlobExact | crates/collab-core/src/vault_sync.rs:119-126 | An exclude pattern is matched without all of its trailing directory suffixes |
| VaultSync.OutOfScopeUntouched | crates/collab-core/src/vault_sync.rs:235-398 | A path with an unlisted extension or an excluded prefix is never open in any history and never marked by a local event |
| VaultSync.MergeIsJoin | crates/collab-core/src/vault_manifest.rs:146-150 | Merging updates is associative and idempotent, and commutative exactly when no stamp carries two values for one path |
| VaultSync.LastWriterWins | crates/collab-core/src/vault_manifest.rs:146-150 | A merge keeps every path with a cell of one side whose stamp the other side does not beat |
| VaultSync.OpenKeeps | crates/collab-core/src/vault_sync.rs:235-252 | Opening a path and marking it alive keeps agreement |
| VaultSync.CloseKeeps | crates/collab-core/src/vault_sync.rs:258-272 | Closing a path and marking it deleted keeps agreement |
| VaultSync.VaultSyncManager.HandleCreated | crates/collab-core/src/vault_sync.rs:235-252 | Opens and marks an in-scope path; never fails; ignores the rest; agreement kept |
| VaultSync.VaultSyncManager.HandleDeleted | crates/collab-core/src/vault_sync.rs:258-272 | Closes and tombstones an in-scope path when deletions sync; agreement kept |
| VaultSync.VaultSyncManager.HandleRenamed | crates/collab-core/src/vault_sync.rs:282-308 | Moves an in-scope path to an in-scope path in manifest and registry; never fails; agreement kept |
| VaultSync.VaultSyncManager.ApplyRemoteManifest | crates/collab-core/src/vault_sync.rs:338-398 | Refuses exactly what is oversized, malformed or opens more than 1024 paths, changing nothing; otherwise returns exactly the newly opened paths without repeats |
| VaultSync.VaultSyncManager.OpenAll | crates/collab-core/src/vault_sync.rs:367-381 | None of the internal creates fails |
| VaultSync.VaultSyncManager.CloseTombstones | crates/collab-core/src/vault_sync.rs:383-396 | Closes exactly the open paths the manifest says are deleted |
| VaultSync.VaultManifest.ListFiles | crates/collab-core/src/vault_manifest.rs:84-90 | Exactly the alive paths, each once |
| VaultSync.VaultManifest.RenameFile | crates/collab-core/src/vault_manifest.rs:76-81 | Tombstones the old path, then writes the new one alive |
| VaultSync.VaultManifest.ApplyUpdate | crates/collab-core/src/vault_manifest.rs:146-150 | Merges a well-formed update, keeps the local clock ahead; otherwise changes nothing |
| VaultSync.DocumentRegistry.Create | crates/collab-core/src/registry.rs:163-186 | Fails exactly for an id already open, in either variant |
| Client.CollabClient.EstablishGroup | plugins/obsidian-ee/src/collab-client.ts:589-651 | Bootstraps exactly the slots with neither group nor pending join, an owner's with a group and a joiner's with a pending join and its deadline; a throw leaves only its own slot empty, and a slot filled before it, in this call or earlier, keeps what it holds |
| Client.CollabClient.BootstrapGroup | plugins/obsidian-ee/src/collab-client.ts:451-499 | Gives an owner's empty slot its group and arms nothing, a joiner's its key package and an armed deadline, or throws leaving at most that slot half done |
| Client.CollabClient.HandleWelcome | plugins/obsidian-ee/src/collab-client.ts:1209-1246 | Only a joiner with a pending join and no group acts; its key package is consumed once even when the join throws; an established group is never replaced |
| Client.CollabClient.JoinTimerFires | plugins/obsidian-ee/src/collab-client.ts:511-565 | An armed deadline always finds an un-answered join, frees its key package once and empties the slot |
| Client.CollabClient.FreeSlot | plugins/obsidian-ee/src/collab-client.ts:1581-1589 | Disarms the deadline and frees each handle the slot holds exactly once |
| Client.CollabClient.Disconnect | plugins/obsidian-ee/src/collab-client.ts:1591-1621 | Releases un-answered joins and their deadlines, keeps every established group |
| Client.CollabClient.Destroy | plugins/obsidian-ee/src/collab-client.ts:1631-1636 | Afterwards every handle ever issued was freed or consumed by a join, once |
| Client.CollabClient.Connect | plugins/obsidian-ee/src/collab-client.ts:700-717 | Refused exactly once destroyed |
| TextDiff.ApplyTextDiff | plugins/obsidian-ee/src/collab-client.ts:1490-1528 | The document ends as the new text by one splice that deletes and inserts as little as any single splice could |
| TextDiff.GreedyIsMinimal | plugins/obsidian-ee/src/collab-client.ts:1500-1517 | A greedy prefix and suffix keep at least as much as any splice |
| Retry.MachinesAgree | plugins/obsidian-ee/src/collab-client.ts:1431-1483 | On every drop/stable sequence both machines give the same delays and the same give-up point |
| Retry.BackoffExact | crates/collab-core/src/connection.rs:145-155 | The first delay is the initial one, each next one the previous times the multiplier, all capped, and there is one exactly while attempts last |
| Retry.TsBackoffExact | plugins/obsidian-ee/src/collab-client.ts:1452-1461 | One second, doubled per attempt, capped, and giving up after the last attempt |
| Retry.RunConnect | crates/collab-cli/src/commands.rs:734-826 | With no stable session from connect number h on, at most h + max_retries + 1 connects; giving up means max_retries + 1 failures in a row |
| Retry.ConnectionStateMachine.AdvanceRetry | crates/collab-core/src/connection.rs:345-352 | Uses one more of the budget; fails exactly when it is exhausted; the next action is the specified delay or giving up |
| Retry.Reconnector.HandleReconnect | plugins/obsidian-ee/src/collab-client.ts:1431-1483 | A stopped client does nothing; otherwise the specified delay, or giving up once the attempts are used |

## Left out

- Tokio, WebSockets, channels, JSON, locks and the accept loop; interleavings inside one handler. `recipients` and `handle_register_doc_key` read the anchor under one lock and act under another, so the chain and gating claims are those of atomic handlers.
- Ed25519, AES-GCM, openmls and Yrs internals. A verification key that is not a curve point is reported as a failed signature rather than as an invalid key. Commits never change a leaf's credential.
- Lockout.RemovalLocksOut: assumes that members of later epochs mint only under their own id and rotate only to the group's next key; it says nothing once the removed member is added again.
- Handshake.WelcomeNeverAheadOfAnchor: assumes one live connection of the owner with an in-order lossless link whose channel takes what the relay sends it (Handshake.FullChannelLosesOwner shows why), that nobody else registers keys for its document, speaks in its name or takes the last room for an anchor before its own, and that its capabilities arrive unexpired.
- RelayProperties.RunStructure: the subscriber cap must be positive, because with a cap of zero the code leaves an empty member map (RouterProperties.SubscribeNoEmptyExact).
- RelayProperties.RelayFifo: rests on atomic handlers; a message sent between a session's registration and the draining of its queue is not part of this model.
- RelayProperties.RotationRevokes: content queued for a user before a rotation is still handed over when that user identifies again, as in the code.
- A connection's own `user_id` variable is an entry of a map by connection. After a second Identify under another id only the last id is torn down, so nothing is claimed about every session belonging to a live connection.
- That a user is subscribed exactly while it is queued: a user evicted and enqueued again within one route ends queued and unsubscribed.
- Machine limits: `usize` overflow of byte sums when a budget exceeds half of it, `u64` epochs at their maximum (the group methods require one epoch to be left), ids of 4 GiB or more, on which the byte builders panic.
- Storage.OfflineQueue.EvictIfFull: the loop is one pass, because the head of the order is always tracked and the first pass returns.
- Snapshot.RestoreSnapshot: the AEAD, the nonce, the key checks and the reassembly of the openmls group are left out; UTF-8 validity and the known signature schemes are parameters. A snapshot older than the accepted epoch stops before its storage is read, as in the code.
- VaultSync.VaultManifest.ApplyUpdate: the CRDT is one stamped cell per path with the later stamp winning; state vectors and incremental encodings are left out. The platform's notion of a file extension is a parameter.
- Client.CollabClient.constructor: a configured manifest document is assumed to differ from the file document. Promises, generations and the outgoing message queue, with the frames `flushMessageQueue` drops when the socket closes during a flush, are left out.
- TextDiff.ApplyTextDiff: the editor's and the document's index units are assumed to be the same.
- Retry.MachinesAgree: delays are exact reals, so floating-point rounding and the overflow panic of very long backoffs are left out, and attempts stay within the `i32` exponent range; an explicit `connect()` after giving up is a new run.
- Length checks on single fields beyond those above, environment parsing, base64, key files, state files, the plugin's user interface, the file watcher, the wasm wrappers and the test helpers: single branches or I/O only.
