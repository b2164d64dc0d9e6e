# Verified model of the messaging backend's state machines and codecs

The backend keeps its documents in MongoDB, caches sessions in Redis and delivers live events through a chat
service that holds the open sockets in memory. This project models the parts whose correctness comes from how
several functions fit together, and proves what they promise over every input and every run.

How things are represented:

- A collection is a `map` (or a `set` of documents) in a repository `class`; each single-document database call is
  one atomic step, and a clock reading is a parameter. Where callers may overlap, a state machine names every
  `await` as a point where others run, and the theorems quantify over all event sequences.
- Every repository method is proved equal to a specification function of the old state; the theorems are about
  those functions and about runs of the machines. The invariant of each machine is stated beside it.
- The chat registry is done twice. `ChatRegistry` is the simple form, a list of open sockets and their spaces;
  `ConnectionRegistry` is the service's two lookup maps, proved to take the same steps when each handler completes
  before the next; `ConnectionRaces` lets the handlers overlap at every `await`, `ConnectionSafety` proves what
  survives, and `ConnectionLosses` says exactly which steps break the rest; `ConnectionLeaves` says exactly when a handled leave keeps
  the leaver out; `ConnectionRaceRuns` has short reachable runs for each harm.
- Redis is an oracle: for each handler it may be down, or fail, for any set of channels.

Where the code does less than its surroundings suggest, the code is modelled, the exact condition is proved, and an
input that fails is given:

- Revoke-all invalidates at most one page of 100 cached sessions (`Sessions.RevokeAllSafeIff`,
  `Sessions.OneTooManyIsServed`), and writing while Redis is down can mislead later readers
  (`Sessions.RevokeWhileDownIff`, `Sessions.CreateWhileDownIff`, `Sessions.RenewWhileDownIff`,
  `Sessions.WritesWhileDownMislead`).
- Two participations of one identity in a call can overlap in time, because the joining time is stamped before the
  two database calls (`Calls.InOrderIffPrompt`, `Calls.OvertakenJoinOverlaps`).
- `setLayout` itself accepts a cycle or an unknown parent; the category service checks first
  (`CategoryForest.SetLayoutForestIff`, `CategoryForest.SetLayoutCanCloseACycle`, `CategoryForest.GuardedLayoutIff`).
- `fromHex` documents that it throws on invalid characters; it accepts some (`Hex.DecodesIff`,
  `Hex.AcceptsSomeInvalidText`).
- A space message created with an empty ciphertext loses its nonce in its history (`SpaceMessageEdits.EditTheorem`,
  `SpaceMessageEdits.EmptyCiphertextIsNotKept`).
- Achievement totals and counters agree only without records of unknown identities (`Achievements.TotalsAgreeIff`,
  `Achievements.UnknownIdentityIsNotCounted`).
- A shortcode cut at 32 characters may end in a joiner and is then not a fixed point (`Shortcode.FixedPointIff`,
  `Shortcode.CutLeavesAHyphen`).
- The audience and exclusion tests treat an empty identity id specially (`ChatRegistry.AdmitsAsMeantIff`).
- A one-time key id that is uploaded again after its claimed copy lapsed can be claimed again
  (`PreKeys.UploadHarmlessIff`, `PreKeys.ReusedIdClaimedTwice`).
- An identity that opens while Redis is down is not re-subscribed when Redis is ready
  (`ChatRegistry.IdentitiesAlwaysCoveredIff`, `ChatRegistry.OutageOpenIsNotRecovered`,
  `ChatRegistry.OutageOpenIsNotAsked`).
- Overlapping chat handlers can lose a live socket, untrack a live space, leave a closed socket in a space, and let a
  socket enter a space its identity has left (`ConnectionLosses`, `ConnectionLeaves`, `ConnectionRaceRuns`).

## Model

| member | source | states |
|---|---|---|
| ChatRegistry.DeliveryTheorem | apps/chat/src/connections.ts:73-208 | in every run a socket open since some moment has been handed exactly its identity's messages and, per space, those from its join through its leave (or from opening if already a member) that the lists admit, each once and in order |
| ChatRegistry.ClosedIsSilent | apps/chat/src/connections.ts:452-500 | a closed socket is never handed anything again, whatever follows |
| ChatRegistry.AdmitsAsMeantIff | apps/chat/src/connections.ts:90-109 | the audience and exclusion test means "in the audience, not excluded" for an identity exactly when its id is not empty; with an empty id it admits exactly the messages without an audience |
| ChatRegistry.InboxAfter | apps/chat/src/connections.ts:174-207 | one message adds itself to a socket's deliveries at most once, exactly when channel, membership (granted before, revoked after) and lists say so |
| ChatRegistry.ListsAfterMessage | apps/chat/src/connections.ts:143-208 | whose socket lists change with a message, in its own fields: the member given in it, or else its identity id; a join adds the space to exactly that identity's open sockets, a leave removes it from exactly those, an event naming nobody changes none |
| ChatRegistry.RunKeepsCovered | apps/chat/src/connections.ts:281-304 | under any Redis failures every space with a local socket stays tracked after every completed handler |
| ChatRegistry.StepStaysExactIff | apps/chat/src/connections.ts:233-389 | the tracked channels stay exactly those needed through a handler if and only if Redis accepted a new identity's subscription and let go of every abandoned channel |
| ChatRegistry.RunStaysExact | apps/chat/src/connections.ts:233-389 | while Redis never fails the tracked channels are exactly the live identities' and live spaces' |
| ChatRegistry.DriftIsLiveSpaces | apps/chat/src/index.ts:315-327 | with exact tracking the reported drift equals the number of live spaces |
| ChatRegistry.OutageOpenIsNotRecovered | apps/chat/src/connections.ts:216-275 | an identity's channel is tracked after a run if and only if it was tracked and never let go of, or an opening of that identity that Redis accepted brought it back |
| ChatRegistry.IdentitiesStayCoveredIff | apps/chat/src/connections.ts:233-250 | a handler keeps the channels of all live identities tracked if and only if it is not an opening that finds its channel untracked and is refused |
| ChatRegistry.IdentitiesAlwaysCoveredIff | apps/chat/src/connections.ts:233-250 | all live identities are tracked after every handler of a run if and only if every opening found its channel tracked or was accepted by Redis |
| ChatRegistry.OutageOpenIsNotAsked | apps/chat/src/connections.ts:45-65 | a first socket opened during an outage is live and its channel is not among the names asked for on ready |
| ChatRegistry.RepeatedCloseIsNothing | apps/chat/src/connections.ts:457-463 | a second close changes nothing |
| ChatChannels.RouteUndoesNaming | apps/chat/src/connections.ts:144-201 | a message published under any prefix for any identity or space id is routed to that very subject |
| ChatChannels.NamesAreDistinct | apps/chat/src/types.ts:95-102 | no two channels share a name, whatever the ids |
| ChatChannels.ReplaceFirstCuts | apps/chat/src/connections.ts:201 | the string replacement cuts out the leftmost occurrence and nothing else, and without one changes nothing |
| ConnectionRegistry.Registry.RegisterConnection | apps/chat/src/connections.ts:400-443 | takes the simple form's open step and keeps both maps exact indexes of the open sockets without empty entries |
| ConnectionRegistry.Registry.ListenToSpaces | apps/chat/src/connections.ts:414-422 | the socket is added to each space's set and each space's channel is tracked |
| ConnectionRegistry.Registry.UnregisterConnection | apps/chat/src/connections.ts:452-500 | takes the close step, keeps the indexes exact, leaves the socket nowhere, and on a repeated close leaves the maps alone |
| ConnectionRegistry.Registry.LeaveSpaces | apps/chat/src/connections.ts:469-477 | the socket leaves every listed space; exactly the emptied spaces' channels are let go, if Redis does |
| ConnectionRegistry.Registry.GrantSpaceMembership | apps/chat/src/connections.ts:310-334 | all sockets of the identity, and no others, join the space and list it once |
| ConnectionRegistry.Registry.RevokeSpaceMembership | apps/chat/src/connections.ts:340-364 | all sockets of the identity leave the space; the space and its channel go when none is left |
| ConnectionRegistry.Registry.DeliverToSockets | apps/chat/src/connections.ts:73-138 | exactly the admitted sockets get the message, once |
| ConnectionRegistry.Registry.HandleMessage | apps/chat/src/connections.ts:143-208 | grant, fan-out, revoke in that order, keeping the indexes exact; with `ListsAfterMessage`, exactly the named member's sockets gain or lose the space |
| ConnectionRegistry.Registry.SubscribeToIdentity | apps/chat/src/connections.ts:233-250 | tracks the channel exactly when Redis is up and accepts |
| ConnectionRegistry.Registry.UnsubscribeFromIdentity | apps/chat/src/connections.ts:255-275 | stops tracking unless Redis is up and fails |
| ConnectionRegistry.Registry.SubscribeToSpace | apps/chat/src/connections.ts:281-304 | tracks the channel whatever Redis answers |
| ConnectionRegistry.Registry.UnsubscribeFromSpace | apps/chat/src/connections.ts:369-389 | stops tracking unless Redis is up and fails |
| ConnectionRegistry.Registry.ResubscribeAllChannels | apps/chat/src/connections.ts:45-65 | asks for exactly the tracked channels, each once, and so for every live space, and for every live identity when those are all tracked |
| ConnectionRegistry.Registry.GetConnectionCount | apps/chat/src/connections.ts:523-529 | the sum over identities is the number of open sockets |
| ConnectionRegistry.Registry.Telemetry | apps/chat/src/index.ts:315-327 | with exact tracking the drift is the number of spaces with a local socket |
| ConnectionRegistry.LookupsAgree | apps/chat/src/connections.ts:13-25 | what is looked up in the maps is exactly the identity's open sockets and the space's listeners |
| ConnectionRaces.JoinAddsToArrays | apps/chat/src/connections.ts:310-334 | a join handled between awaits adds the space once to the array each of the identity's sockets has then, and changes no array a suspended handler holds |
| ConnectionRaces.LeaveFiltersArrays | apps/chat/src/connections.ts:340-364 | a leave gives each of the identity's sockets in the space a new array without the space and leaves the arrays suspended handlers hold |
| ConnectionRaces.EmptiedSpaceIsLetGo | apps/chat/src/connections.ts:360-389 | a leave that empties a space untracks its channel at once when Redis is down and otherwise waits for Redis |
| ConnectionRaces.EmptiedIdentityIsLetGo | apps/chat/src/connections.ts:465-500 | so does a closing with the channel of an identity whose last socket it took |
| ConnectionRaces.AcceptedIsTracked | apps/chat/src/connections.ts:233-250 | when Redis has answered an opening its identity channel is tracked if and only if Redis accepted or it was tracked before |
| ConnectionSafety.SafetyTheorem | apps/chat/src/connections.ts:310-500 | under every interleaving at awaits no space set is empty, sockets sit under their own identity only, and no identity set is empty once no closing is under way |
| ConnectionSafety.StepKeepsNoEmpty | apps/chat/src/connections.ts:340-500 | each segment between awaits keeps space sets non-empty |
| ConnectionSafety.StepKeepsEmptyIsClosing | apps/chat/src/connections.ts:457-481 | an empty identity set always has a suspended closing that holds it |
| ConnectionLosses.RegisteredThroughoutIff | apps/chat/src/connections.ts:465-481 | in every interleaving a socket that does not close stays registered if and only if no closing ended holding an empty set while its identity had a newer non-empty one |
| ConnectionLosses.AlwaysCoveredIff | apps/chat/src/connections.ts:360-389 | all live spaces are tracked at every await of a run if and only if no unsubscribe is answered while its space has listeners again |
| ConnectionLosses.AlwaysHonestIff | apps/chat/src/connections.ts:400-477 | no space ever holds a socket that neither listens nor is leaving if and only if no opening outlives its socket's closing or leaving and no unregistered socket's close is skipped while spaces hold it |
| ConnectionLeaves.LeaveLastsIff | apps/chat/src/connections.ts:340-364 | once a leave is handled no socket of the identity is in the space or enters it before a new membership, in any interleaving, if and only if all its sockets there were registered and no suspended opening still had the space ahead |
| ConnectionLeaves.RunStaysKnown | apps/chat/src/connections.ts:310-500 | the hypotheses of that hold after every run: space sets hold accepted sockets only |
| ConnectionRaceRuns.LiveSocketIsLost | apps/chat/src/connections.ts:457-481 | a suspended closing, a second closing and an opening of one identity can leave a live socket unregistered |
| ConnectionRaceRuns.LiveSpaceIsUntracked | apps/chat/src/connections.ts:369-389 | a closing and a join can leave a space with a listener and no tracked channel |
| ConnectionRaceRuns.ClosedSocketIsLeft | apps/chat/src/connections.ts:411-422 | a close during an opening can leave a closed socket in a space with nothing under way |
| ConnectionRaceRuns.LeaverStillEnters | apps/chat/src/connections.ts:351-422 | a leave handled during an opening does nothing and the socket enters the space afterwards |
| CategoryForest.ForestIffAllReachRoot | apps/api/src/repositories/space-channel-category.repository.ts:150-171 | without dangling parents, no cycle means that every category reaches a root |
| CategoryForest.AncestorIffInChain | apps/api/src/repositories/space-channel-category.repository.ts:150-171 | ancestors are exactly the tail of the chain to the root |
| CategoryForest.ReparentKeepsForest | apps/api/src/repositories/space-channel-category.repository.ts:150-171 | promoting the children of a category to its parent keeps the forest |
| CategoryForest.ChainAfterReparent | apps/api/src/repositories/space-channel-category.repository.ts:150-171 | every chain loses exactly the category whose children moved |
| CategoryForest.RemovalKeepsForest | apps/api/src/repositories/space-channel-category.repository.ts:99-171 | every one of the three removal steps, in either order of the first two, keeps the forest and leaves other spaces untouched |
| CategoryForest.RemovalKeepsAncestry | apps/api/src/repositories/space-channel-category.repository.ts:99-171 | among survivors, ancestor afterwards exactly when before |
| CategoryForest.ChannelChainAfterRemoval | apps/api/src/repositories/space-channel.repository.ts:100-121 | each channel's chain is its old one with the removed category dropped |
| CategoryForest.SetLayoutForestIff | apps/api/src/repositories/space-channel-category.repository.ts:118-147 | any layout, partial or not, yields a forest if and only if the walk up the resulting parents ends from every category of the space |
| CategoryForest.CategoryDepth | apps/api/src/services/space/category-shared.ts:97-115 | a depth up to 5 exactly when the walk up ends within 5, and then its length; none only when the walk never ends |
| CategoryForest.LayoutAllowed | apps/api/src/services/space/category-layout.ts:179-196 | the service's check passes exactly when the walk from every category ends within 5 |
| CategoryForest.GuardedLayoutIff | apps/api/src/services/space/category-layout.ts:179-198 | that check passes if and only if writing the layout leaves a forest no deeper than 5 in the space |
| CategoryForest.SetLayoutCanCloseACycle | apps/api/src/repositories/space-channel-category.repository.ts:118-147 | the repository alone accepts a layout that makes a cycle |
| CategoryForest.SpaceChannelCategoryRepository.ReparentChildren | apps/api/src/repositories/space-channel-category.repository.ts:150-171 | exactly the children in that space move, to the new parent or the root, and the number of documents really changed is returned |
| CategoryForest.SpaceChannelCategoryRepository.DeleteCategory | apps/api/src/repositories/space-channel-category.repository.ts:99-105 | deletes that category of that space only and reports whether it was there |
| CategoryForest.HasLast | apps/api/src/repositories/space-channel-category.repository.ts:118-147 | every id a layout mentions has a last entry, the one both layout writes are decided by |
| CategoryForest.SpaceChannelCategoryRepository.SetLayout | apps/api/src/repositories/space-channel-category.repository.ts:118-147 | the last entry for an id in that space decides its parent and position |
| CategoryForest.SpaceChannelRepository.ReparentChannels | apps/api/src/repositories/space-channel.repository.ts:100-121 | exactly the category's channels in that space move, and the number of documents really changed is returned |
| CategoryForest.SpaceChannelRepository.ClearCategory | apps/api/src/repositories/space-channel.repository.ts:95-97 | exactly the category's channels become uncategorized, and their number changed is returned |
| CategoryForest.SpaceChannelRepository.SetLayout | apps/api/src/repositories/space-channel.repository.ts:124-153 | the last entry for a channel in that space decides its category and position |
| CategoryForest.DeleteSpaceChannelCategory | apps/api/src/services/space/category-crud.ts:562-565 | the service's removal changes nothing or ends in a forest without the category, same ancestry; its children and channels move to its old parent, everything else stays, and each channel's chain loses exactly it |
| MessageEdits.HistoryTheorem | apps/api/src/repositories/message.repository.ts:332-442 | in every interleaving of edits, deletions and removals: history then current payload is everything committed, in order; the cap holds; a matching compare-and-set snapshots the current payload; success without replay exactly when the call wrote |
| MessageEdits.MatchSeesCurrent | apps/api/src/repositories/message.repository.ts:376-412 | when the compare-and-set matches, the document read earlier is still current in history and payload |
| MessageEdits.CommitIsAtomicEdit | apps/api/src/repositories/message.repository.ts:332-442 | the committing step of an interleaved edit is the whole edit done atomically at that instant |
| MessageEdits.EditByFields | apps/api/src/repositories/message.repository.ts:332-442 | field by field: which check refuses an edit, that a repeated edit id is answered without writing, and what a performed edit stores, keeps and adds to the history |
| MessageEdits.ReadAnswersAsAtomic | apps/api/src/repositories/message.repository.ts:350-373 | in any interleaving a call answered after its first read gets the atomic edit's answer at that instant |
| MessageEdits.MissIsAnswered | apps/api/src/repositories/message.repository.ts:414-435 | after a lost race: a replay if the own edit id is the last one, else the cap when three revisions are stored, else not found |
| MessageEdits.UndisturbedIsAtomic | apps/api/src/repositories/message.repository.ts:332-442 | in the machine, a call with nothing between its three database calls is the atomic edit with its answer |
| MessageEdits.OthersByFields | apps/api/src/repositories/message.repository.ts:94-227 | what creation, deletion for everyone or for one identity, and removal leave of each stored message |
| MessageEdits.OneRevisionPerEditId | apps/api/src/repositories/message.repository.ts:353-435 | any number of concurrent calls with one edit id append exactly one revision and all that finish succeed |
| MessageEdits.TombstoneIsFinal | apps/api/src/repositories/message.repository.ts:207-227 | after deletion for everyone no step edits or revives the message |
| MessageEdits.MessageRepository.ApplyMessageEdit | apps/api/src/repositories/message.repository.ts:332-442 | undisturbed, the read, compare-and-set and re-read protocol is the atomic edit with the same answer |
| MessageEdits.MessageRepository.MarkDeletedForEveryone | apps/api/src/repositories/message.repository.ts:207-227 | the message becomes a tombstone without payload and history |
| MessageEdits.MessageRepository.CreateMessage | apps/api/src/repositories/message.repository.ts:94-101 | the stored message has empty history and no deletion marks |
| SpaceMessageEdits.EditTheorem | apps/api/src/repositories/space-message.repository.ts:154-241 | in every interleaving: history length equals the revision count, the history lists every replaced body (if and only if the first body was clean), no half plaintext and half encrypted message, and a call wrote exactly when it reports the update |
| SpaceMessageEdits.CommitIsAtomicEdit | apps/api/src/repositories/space-message.repository.ts:154-220 | the writing step is the atomic edit at that instant |
| SpaceMessageEdits.EditSetsFields | apps/api/src/repositories/space-message.repository.ts:160-212 | what an edit does to every field: the attachments are kept, dropped or replaced by the media ids being absent, empty or not, an encrypted body drops them and treats the encrypted media ids likewise |
| SpaceMessageEdits.UndisturbedIsAtomic | apps/api/src/repositories/space-message.repository.ts:154-220 | in the machine, a call with nothing between its database calls is the atomic edit with its answer |
| SpaceMessageEdits.OthersByFields | apps/api/src/repositories/space-message.repository.ts:222-241 | what creation, soft deletion and removal leave of each stored message |
| SpaceMessageEdits.EmptyCiphertextIsNotKept | apps/api/src/repositories/space-message.repository.ts:160-180 | an empty ciphertext is not kept with its nonce in the history |
| SpaceMessageEdits.SpaceMessageRepository.EditMessage | apps/api/src/repositories/space-message.repository.ts:154-220 | undisturbed, the protocol is the atomic edit, whose fields `EditSetsFields` states; a missing message is not found and a deleted one a conflict, without a write |
| SpaceMessageEdits.SpaceMessageRepository.SoftDelete | apps/api/src/repositories/space-message.repository.ts:222-241 | the body and history go, the document stays |
| MessageWindow.WindowIsGapFree | apps/api/src/repositories/space-message.repository.ts:120-152 | the window is an ascending slice without gaps that holds the target and as many neighbours as the limits allow, also when newer messages arrive between the reads |
| MessageWindow.SpaceMessageRepository.FindAround | apps/api/src/repositories/space-message.repository.ts:120-152 | ascending, without gaps between its ends, with the target if stored and on either side as many stored neighbours as the limit allows, 0 being no limit |
| SpacePins.WalkTheorem | apps/api/src/repositories/space-pin.repository.ts:22-39 | a page walk terminates and lists every pin once, descending, for every page size, also when newer pins arrive |
| SpacePins.WalkDescends | apps/api/src/repositories/space-pin.repository.ts:22-39 | whatever is pinned or unpinned meanwhile, no pin is listed twice |
| SpacePins.WalkMissesNothing | apps/api/src/repositories/space-pin.repository.ts:22-39 | a pin present at every request of a finished walk is listed |
| SpacePins.WalkUnderChanges | apps/api/src/repositories/space-pin.repository.ts:22-39 | under arbitrary changes between requests a finished walk lists, descending, only pins stored when their page was read and all that were stored throughout |
| SpacePins.PageByFields | apps/api/src/repositories/space-pin.repository.ts:22-39 | a page lists by falling pinning time, then falling id, the channel's pins strictly after the cursor, and leaves one out only when full and before it |
| SpacePins.SpacePinRepository.FindByChannel | apps/api/src/repositories/space-pin.repository.ts:22-39 | the page is the first so many pins after the cursor in (pinnedAt, id) order |
| SpacePins.SpacePinRepository.CreatePin | apps/api/src/repositories/space-pin.repository.ts:15-20 | one pin per message and channel |
| SpacePins.SpacePinRepository.RemovePin | apps/api/src/repositories/space-pin.repository.ts:48-57 | removes that pin only |
| Sessions.CacheRefinement | apps/api/src/repositories/session.repository.ts:58-417 | every serial run of the cached store, with any evictions, answers as the database alone would |
| Sessions.StepRefines | apps/api/src/repositories/session.repository.ts:58-417 | each operation refines the plain one and keeps every unexpired entry a mirror of an unrevoked document |
| Sessions.RevokeAllMarks | apps/api/src/repositories/session.repository.ts:251-319 | which stored sessions a revoke-all marks for each of its three owners, the kept session staying exactly as it was, every other document unchanged, and the count is the number newly marked |
| Sessions.CachedFormCopies | apps/api/src/models/session.ts:243-277 | field by field, what the cached form of an account and of an identity session holds |
| Sessions.EvictionLosesOne | apps/api/src/repositories/session.repository.ts:353-417 | a cache eviction, which the runs allow at any moment, loses that one entry and nothing else |
| Sessions.RevokeAllSafeIff | apps/api/src/repositories/session.repository.ts:251-319 | after a revoke-all every reader gets the database's answer, for every cache and page, if and only if at most 100 unrevoked sessions match or none is live |
| Sessions.OneTooManyIsServed | apps/api/src/repositories/base.repository.ts:73-75 | when more than 100 sessions of an identity have been created and cached, a revoke-all leaves some revoked session served, whatever page was read |
| Sessions.RevokeWhileDownIff | apps/api/src/repositories/session.repository.ts:227-238 | a later reader of a session revoked with Redis down gets a wrong answer if and only if its key has not lapsed and its data is not past its expiry |
| Sessions.RevokeAllWhileDownIff | apps/api/src/repositories/session.repository.ts:251-319 | the same for each session of a revoke-all with Redis down |
| Sessions.CreateWhileDownIff | apps/api/src/repositories/session.repository.ts:128-187 | a reader of a session created with Redis down is misled if and only if an older entry of its id still answers and the session is not past its expiry |
| Sessions.RenewWhileDownIff | apps/api/src/repositories/session.repository.ts:193-221 | a reader of a session renewed with Redis down is misled if and only if its old entry still answers and differs from the renewed session |
| Sessions.WritesWhileDownMislead | apps/api/src/repositories/session.repository.ts:353-417 | reachable runs in which a revocation, a renewal and a creation with Redis down each mislead a later reader |
| Sessions.SessionRepository.GetSession | apps/api/src/repositories/session.repository.ts:89-115 | returns a value exactly when the database holds an unrevoked session not expired, and then its cached form |
| Sessions.SessionRepository.FindBySessionId | apps/api/src/repositories/session.repository.ts:58-83 | the full document under the same condition, refreshing the cache |
| Sessions.SessionRepository.CreateSession | apps/api/src/repositories/session.repository.ts:128-187 | the create step of the specification, refused for a taken id |
| Sessions.SessionRepository.UpdateLastActivity | apps/api/src/repositories/session.repository.ts:193-221 | the renewal step of the specification |
| Sessions.SessionRepository.Revoke | apps/api/src/repositories/session.repository.ts:227-238 | the revoke step: cache first, then document |
| Sessions.SessionRepository.RevokeAll | apps/api/src/repositories/session.repository.ts:251-319 | invalidates one page and marks every match, by the owner's filter on the stored fields (`RevokeAllMarks`) |
| Sessions.SessionRepository.DeleteExpired | apps/api/src/repositories/session.repository.ts:338-348 | the cleanup step of the specification |
| Sessions.SessionRepository.SetCache | apps/api/src/repositories/session.repository.ts:377-400 | writes the cached form with the remaining lifetime, or nothing when none is left or Redis is down |
| Sessions.SessionRepository.FindMany | apps/api/src/repositories/base.repository.ts:73-75 | at most 100 of the matches, all of them when there are fewer |
| PreKeys.PoolTheorem | apps/api/src/repositories/pre-key.repository.ts:85-282 | in every interleaving with fresh ids, down to the single documents of bulk calls: no key is returned by two claims, stored = unconsumed + claimed + removed, device by device, and a claim returned none only when none was left |
| PreKeys.ListedForThirtyDays | apps/api/src/repositories/pre-key.repository.ts:247-264 | while its device remains a claimed key is listed as consumed if and only if 30 days have not passed |
| PreKeys.StepByFields | apps/api/src/repositories/pre-key.repository.ts:53-308 | what each event of the machine does to the stored keys, field by field, and that a claim finds nothing exactly when the device has no unclaimed one-time key |
| PreKeys.InsertManyAdds | apps/api/src/repositories/pre-key.repository.ts:85-102 | an upload adds exactly the keys before the first taken id |
| PreKeys.ReusedIdClaimedTwice | apps/api/src/db/mongo.ts:648-652 | such a reuse is reachable: a key id uploaded again after its first copy lapsed is claimed again |
| PreKeys.UploadHarmlessIff | apps/api/src/repositories/pre-key.repository.ts:85-102 | an upload can lead to a second claim of its id if and only if the id was claimed and is no longer stored |
| PreKeys.InsertManyIsStores | apps/api/src/repositories/pre-key.repository.ts:85-102 | an undisturbed bulk insert is the sequence of its single inserts |
| PreKeys.PurgeIsRemovals | apps/api/src/repositories/pre-key.repository.ts:270-282 | an undisturbed purge is the sequence of its single removals, in any order |
| PreKeys.PreKeyRepository.StoreOneTimePreKeys | apps/api/src/repositories/pre-key.repository.ts:85-102 | inserts in order up to the first taken id |
| PreKeys.PreKeyRepository.ClaimOneTimePreKey | apps/api/src/repositories/pre-key.repository.ts:127-153 | none only if the device has none left; otherwise exactly one available key becomes consumed |
| PreKeys.PreKeyRepository.SignedFor | apps/api/src/repositories/pre-key.repository.ts:164-178 | a signed pre-key handed out is an active one of the device that carries a signature; none only if no key of the device is active or some active one lacks a signature |
| PreKeys.SignedAndActiveMeans | apps/api/src/repositories/pre-key.repository.ts:107-118 | what is asked of a signed key that is handed out, on the stored fields: the device's, not expired, with a signature |
| PreKeys.PreKeyRepository.ClaimPreKeysForAllDevices | apps/api/src/repositories/pre-key.repository.ts:159-198 | no key is handed out twice, a device gets no one-time key only when it has none left, and every device whose active signed keys all carry signatures gets a signed key when it has one |
| PreKeys.PreKeyRepository.PurgeUnconsumedOneTimePreKeys | apps/api/src/repositories/pre-key.repository.ts:270-282 | removes the device's unconsumed one-time keys and nothing else |
| PreKeys.PreKeyRepository.DeletePreKeysForDevice | apps/api/src/repositories/pre-key.repository.ts:287-308 | removes exactly the device's keys and reports how many |
| PreKeys.PreKeyRepository.GetConsumedOtpkKeyIds | apps/api/src/repositories/pre-key.repository.ts:247-264 | lists exactly the device's consumed keys not lapsed |
| OtpkDigest.DigestIsCanonical | apps/api/src/repositories/pre-key.repository.ts:222-239 | the hashed text is the same for two pools of plain ids if and only if they hold the same ids |
| OtpkDigest.SortedUnique | apps/api/src/repositories/pre-key.repository.ts:222-239 | a multiset has one sorted sequence |
| OtpkDigest.SortedInOrder | apps/api/src/repositories/pre-key.repository.ts:237 | any two entries of a sorted list are in order |
| OtpkDigest.FirstDifferenceDecides | apps/api/src/repositories/pre-key.repository.ts:237 | that order is by the first character in which two ids differ, a prefix coming first |
| OtpkDigest.JoinInjective | apps/api/src/repositories/pre-key.repository.ts:222-239 | comma-joining plain ids can be undone |
| OtpkDigest.DigestNeedsPlainIds | apps/api/src/repositories/pre-key.repository.ts:222-239 | with a comma in an id, or an empty id, two pools share a text |
| Calls.CallTheorem | apps/api/src/repositories/call.repository.ts:76-206 | in every interleaving: one open participation per identity, its last; ringing exactly while nobody joined; one live call per conversation; status never moves back |
| Calls.PositionalHitsTheOpenEntry | apps/api/src/repositories/call.repository.ts:133-187 | the positional update hits the identity's open entry |
| Calls.InOrderIffPrompt | apps/api/src/repositories/call.repository.ts:96-128 | participations end disjoint and ordered if and only if no join was committed after a leave overtook it |
| Calls.OvertakenJoinOverlaps | apps/api/src/services/call.service.ts:292-294 | such a join is reachable and its participations overlap |
| Calls.StepByFields | apps/api/src/repositories/call.repository.ts:96-205 | in the machine: ending a call and changing media write just their fields, and a join answers with the stored call exactly when it could join |
| Calls.CallRepository.CreateCall | apps/api/src/db/mongo.ts:629-632 | refused exactly when the conversation has a live call |
| Calls.CallRepository.AddParticipant | apps/api/src/repositories/call.repository.ts:96-128 | adds one open participation unless the call ended or one is open, and activates a ringing call |
| Calls.CallRepository.UpdateParticipantLeft | apps/api/src/repositories/call.repository.ts:133-157 | closes the identity's open participation |
| Calls.CallRepository.UpdateParticipantMediaState | apps/api/src/repositories/call.repository.ts:162-187 | changes the open participation's media only |
| Calls.CallRepository.EndCall | apps/api/src/repositories/call.repository.ts:192-205 | ends the call and nothing else |
| Reports.LeaseTheorem | apps/api/src/repositories/report.repository.ts:125-265 | in every run: an id exactly when submitted, submitted at most once and last, and claims without a failure between them more than 15 minutes apart |
| Reports.SubmittedIsFinal | apps/api/src/repositories/report.repository.ts:191-265 | a submitted report stays submitted under the same id |
| Reports.ClaimGrantedIff | apps/api/src/repositories/report.repository.ts:191-219 | a claim is granted if and only if the report is not closed and its submission has not started, has failed, or is held by a claim last updated more than 15 minutes ago |
| Reports.OutcomeTakenIff | apps/api/src/repositories/report.repository.ts:225-265 | an outcome is recorded if and only if the report is being claimed, with what it writes and logs |
| Reports.RunAppends | apps/api/src/repositories/report.repository.ts:111-265 | a run takes claims, outcomes and changes one after the other |
| Reports.ReportRepository.ClaimNcmecSubmission | apps/api/src/repositories/report.repository.ts:191-219 | one caller proceeds, or a stale claim is taken over, on the report's own fields and exactly then |
| Reports.ReportRepository.FinalizeNcmecSubmission | apps/api/src/repositories/report.repository.ts:225-265 | only a report being claimed takes the outcome |
| Reports.ReportRepository.Moderate | apps/api/src/repositories/report.repository.ts:111-182 | moderation never touches the lease's status or id |
| Reports.ReportRepository.CreateReport | apps/api/src/repositories/report.repository.ts:48-66 | a new report is open, with its submission not started and no submission id |
| Achievements.TotalsAgreeIff | apps/api/src/repositories/achievement.repository.ts:21-104 | after any serial run counters equal record counts, stats equal holder counts, and the two totals agree if and only if every record's identity is stored |
| Achievements.UnknownIdentityIsNotCounted | apps/api/src/repositories/achievement.repository.ts:21-45 | one award to an unknown identity makes the totals 1 and 0 |
| Achievements.RunKeepsCounted | apps/api/src/repositories/identity.repository.ts:552-572 | each identity's counter equals its number of records |
| Achievements.StatsTotal | apps/api/src/repositories/achievement.repository.ts:94-104 | the stats sum to the number of records |
| Achievements.AchievementRepository.Award | apps/api/src/repositories/achievement.repository.ts:21-45 | created exactly when not held before, with the counter kept true |
| Achievements.AchievementRepository.Revoke | apps/api/src/repositories/achievement.repository.ts:76-89 | removed exactly when held, with the counter kept true |
| Achievements.AchievementRepository.GetGlobalStats | apps/api/src/repositories/achievement.repository.ts:94-104 | adding up record by record gives each held achievement its number of holders |
| Achievements.AchievementRepository.CountHolders | apps/api/src/repositories/achievement.repository.ts:68-70 | the number of identities holding it |
| DisplayNames.ReportsAreTrueCounts | apps/api/src/repositories/identity.repository.ts:598-622 | over any history the trimmed log holds the last 20 changes and every report is the true count of the last hour, capped at 20 |
| DisplayNames.CountSinceCounts | apps/api/src/repositories/identity.repository.ts:618-621 | the count is the number of log entries at or after the start of the hour |
| DisplayNames.IdentityRepository.RecordDisplayNameChange | apps/api/src/repositories/identity.repository.ts:598-622 | push, trim and recount is the specification's step; an unknown identity counts nothing |
| Base64Url.DecodeUndoesEncode | packages/crypto/src/utils.ts:91-119 | decoding undoes encoding for every byte string |
| Base64Url.EncodingIsUrlSafe | packages/crypto/src/utils.ts:91-119 | only the section 5 alphabet of RFC 4648, length never 1 modulo 4, and re-padding restores exactly what was stripped |
| Base64Url.EncodeUndoesDecodeIff | packages/crypto/src/utils.ts:115-119 | URL-alphabet text decodes unless its length is 1 modulo 4, and encodes back to itself if and only if its unused bits are zero |
| Base64Url.GroupIsOneNumber | packages/crypto/src/utils.ts:42-48 | three bytes and their four sextets are the same 24-bit number, as section 4 of RFC 4648 defines it |
| Base64Url.Vectors | packages/crypto/src/utils.ts:42-96 | the test vectors of section 10 of RFC 4648 |
| Hex.FromHexUndoesToHex | packages/crypto/src/utils.ts:133-165 | decoding undoes encoding for every byte string |
| Hex.ToHexUndoesFromHex | packages/crypto/src/utils.ts:133-165 | valid text encodes back to its lower-case form |
| Hex.DecodesIff | packages/crypto/src/utils.ts:152-165 | exactly which texts decode, malformed pairs included, and otherwise which error: the length, or the position of the first pair not accepted |
| Hex.PairIsParsed | packages/crypto/src/utils.ts:157-161 | what `parseInt` in base 16, modelled character by character, gives for any two characters |
| JavaScriptText.SurrogatesHoldIt | packages/crypto/src/utils.ts:152-165 | the code units the text is indexed by: a character outside the basic plane is a high and a low surrogate and can be read back |
| Hex.DigitsAreTheTable | packages/crypto/src/utils.ts:133-145 | the sixteen digits are those of section 8 of RFC 4648, written in lower case and read in either |
| Hex.AcceptsSomeInvalidText | packages/crypto/src/utils.ts:152-165 | the documented rejection of invalid characters fails for "1g" and "-1" |
| Hex.DecodeHex | packages/crypto/src/utils.ts:152-165 | the loop fills a fresh array with the decoded bytes or reports the error |
| ByteArrays.ConcatBytes | packages/crypto/src/utils.ts:215-224 | the result is the arrays' contents in order |
| ByteArrays.PartsInOrder | packages/crypto/src/utils.ts:215-224 | those contents are the parts, each whole, one after the other |
| ByteArrays.ConstantTimeEqual | packages/crypto/src/utils.ts:244-261 | true exactly for equal contents |
| ByteArrays.ClearBytes | packages/crypto/src/utils.ts:278-280 | every byte becomes zero |
| Shortcode.ResultIsValid | packages/shared/src/custom-emoji-shortcode.ts:21-31 | empty, or 2 to 32 body characters starting with a letter or digit, no double hyphen, and ending in one if shorter than 32 |
| Shortcode.FixedPointIff | packages/shared/src/custom-emoji-shortcode.ts:21-31 | the result is a fixed point if and only if nothing is cut off or the 32nd character is a letter or digit |
| Shortcode.CutLeavesAHyphen | packages/shared/src/custom-emoji-shortcode.ts:21-31 | 31 letters followed by a hyphen and a letter give a result that is not a fixed point |
| Shortcode.TwoWords | packages/shared/src/custom-emoji-shortcode.ts:21-31 | two words of letters and digits with spaces between and an extension, such as "Party Parrot.gif", give the words in small letters joined by one hyphen |
| Shortcode.ExtensionIsDropped | packages/shared/src/custom-emoji-shortcode.ts:22 | the last dot goes with what follows it |
| Shortcode.NoExtensionToDrop | packages/shared/src/custom-emoji-shortcode.ts:22 | without a dot, or with nothing after the last one, every character stays |
| Shortcode.LowerIsByCharacter | packages/shared/src/custom-emoji-shortcode.ts:24 | on ASCII text each capital becomes its small letter and nothing else changes |
| Shortcode.RunBecomesHyphen | packages/shared/src/custom-emoji-shortcode.ts:25 | each run of white space becomes one hyphen and the text around it stays |
| Shortcode.OthersAreDropped | packages/shared/src/custom-emoji-shortcode.ts:26 | exactly the characters no shortcode may hold go |
| Shortcode.RunOfHyphensIsOne | packages/shared/src/custom-emoji-shortcode.ts:27 | each run of hyphens becomes one |
| Shortcode.EndsAreTrimmed | packages/shared/src/custom-emoji-shortcode.ts:28 | hyphens and underscores at both ends go and what they enclose stays |

## Left out

- Presence and last-seen keys, heartbeats, logging and the result of a single `send`: a delivery is a message handed to `send`, whether or not the socket drops it.
- Redis itself: which published messages reach the handler is not modelled; the delivery theorem is about the messages handled.
- Sockets as heap objects: in the serial registry they are handles whose user data and deliveries are maps of the registry; `ConnectionRaces` names the sets and arrays that handlers share by reference.
- ConnectionSafety.Run: messages that change no membership are left out of the interleaved machine, since fan-out has no await and changes none of the structures.
- Sockets accepted twice and `getUserData` throwing on a closed socket.
- Sessions.SessionRepository.DeleteExpired: the database's own expiry sweep removes documents only strictly past their expiry.
- Concurrent runs of the session, achievement and display-name repositories: they are serial here, as their guarantees are.
- The absolute 30-day ceiling of identity sessions, stored but not enforced in these files.
- PreKeys.PreKeyRepository.ClaimPreKeysForAllDevices: runs its devices one after another; concurrent claims are in the machine of `PoolTheorem`.
- Key material, signatures, SHA-256 and every other cryptographic primitive: opaque values, and the digest is stated on the hashed text.
- Calls.CallRepository.EndCall: the status update is modelled as it is called, to end a call; `startedAt` being overwritten by a second joiner and the expiry of old calls are not stated.
- Base64Url.FromBase64: text that is not padded base64 is an error here, since the runtimes' own decoders differ on it.
- Shortcode.ResultIsValid: lower-casing outside ASCII is a parameter that only must leave body characters alone.
- Message fields that no modelled function reads or writes, and timestamps of creation.
- `findByConversation` and `findForIdentity`: cursor and sort order differ, so a page walk is not complete for them.
- One-line setters, `toPublic` copies, routes, services other than the two cited, configuration and seed data.
