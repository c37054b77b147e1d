# Among Us Discord bot: voice reconciliation, in Dafny

This project models the part of the Among Us Discord bot that keeps each
guild member's voice mute and deafen in line with the game. It covers five things:

- the phase-transition delay table;
- the priority heap of pending member patches;
- the reconciliation pass `handleTrackedMembers` and the verification pass `verifyVoiceStateChanges` it runs first;
- the single-event path `voiceStateChange`;
- two secondary pieces: the display-name map built by `createPrivateMapMessage`, and the game-state message holder.

Everything is stated over plain data:

- A voice-state snapshot is a sequence of `(userID, channelID, mute, deaf)` records.
- The user cache is a map from user ID to record.
- The tracked channels are a set.
- The voice rules are an uninterpreted function `(alive, tracked, phase) -> (mute, deaf)`.
- Each pass is a fold that returns the new cache and the patches it dispatches.

Modules:

- `Game`: phases and the per-user record (`alive`, `linked`, `pendingVoiceUpdate`, nickname, player name).
- `Delays`: `MakeDefaultDelays` and `GetDelay`. A pair missing from the table reads as Go's zero value, 0.
- `PatchHeap`: `container/heap` over the inverted `Less`, so the heap is a max-heap. Sift-up and sift-down are modelled as recursive functions, and `PopAll` drains the heap in non-increasing priority order.
- `Dispatch`: the drain loop with its `WaitGroup` barrier, modelled as a sequence of cohorts. A cohort is dispatched as a whole before the next one starts.
- `Permutations`: "no key occurs twice" survives any reordering.
- `Guild`: the verification pass, the proposal loop, the full pass and the single-event path.
- `GuildProperties`:
  - per-user characterisations of both passes against independent reference definitions;
  - a repeated pass makes no update;
  - the two groupings of the proposal condition (see Findings).
- `NameMap`: the display-name map with `#discriminator` suffixes on collisions.
- `StateMessage`: the optional held message and the actions its operations request.

Member lookup is modelled as plain data:

- `checkCacheAndAddUser` is a partial map `MemberDirectory`.
- The two member sources of the name map are two partial maps.
- Discord API calls are returned as values: the patches a pass dispatches, and the message actions.

## Model

| member | source | states |
|---|---|---|
| Delays.MakeDefaultDelays | discord/guild.go:19-39 | The default table has an entry for every origin and destination phase. Every delay is non-negative, and staying in the same phase costs no delay. |
| Delays.DefaultDelayValues | discord/guild.go:19-39 | The nine default delays: lobby to tasks 7, tasks to lobby 1, discussion to lobby 6, discussion to tasks 7, and 0 for the other five pairs. |
| Delays.DefaultDelayPositiveIff | discord/guild.go:19-39 | Under the default table a transition has a positive delay iff it is one of those four pairs. |
| Delays.GetDelay | discord/guild.go:41-43 | A present pair gives its stored delay. A missing origin or destination gives 0 instead of failing. |
| PatchHeap.Swap | discord/guild.go:115 | Exchanges two entries, leaves the others alone, and keeps the multiset of entries. |
| PatchHeap.RootIsMax | discord/guild.go:113-114 | With `Less` inverted, the root of a heap has the highest priority of all entries. |
| PatchHeap.Up | discord/guild.go:184-187 | Sift-up (what `heap.Push` does after the append) restores the heap order and keeps the entries as a multiset. |
| PatchHeap.Down | discord/guild.go:209 | Sift-down (what `heap.Pop` does before removing the last entry) over the first n entries makes them a heap, keeps the multiset, and does not touch the entries after n. |
| PatchHeap.Push | discord/guild.go:116-120 | `heap.Push` keeps the heap order and adds exactly the pushed entry. |
| PatchHeap.Pop | discord/guild.go:122-128 | `heap.Pop` returns an entry of highest priority and leaves a heap of exactly the remaining entries. |
| PatchHeap.PopAll | discord/guild.go:208-209 | Popping until empty yields a permutation of the heap in non-increasing priority order. |
| Dispatch.DrainKeepsOrder | discord/guild.go:208-224 | Taken in order, the cohorts of the drain loop dispatch exactly the popped sequence, with nothing lost, added or reordered. |
| Dispatch.CohortsNonEmpty | discord/guild.go:208-224 | No cohort is empty: the barrier is only waited on between dispatches. |
| Dispatch.DrainTwoTiers | discord/guild.go:208-224 | For a run of positive priorities followed by a run of zeros, the drain gives one cohort per tier. The barrier is armed iff the last patch was positive. |
| Dispatch.PositiveCohortFirst | discord/guild.go:208-224 | For a 0/1 sequence in non-increasing order, there are at most two cohorts, and every positive-priority patch is in an earlier cohort than every priority-0 patch. |
| Guild.Priority | discord/guild.go:172-180 | The priority is 1 iff the mode is AlivePriority and the user is alive, or the mode is DeadPriority and the user is dead. Otherwise it is 0, and NoPriority always gives 0. |
| Guild.Proposal | discord/guild.go:151-187 | A patch is proposed iff the proposal condition holds and no request is pending. The patch carries the guild, the user, the desired mute and deaf, the nickname (empty when nicknames are off) and the priority. |
| Guild.VerifyRecord | discord/guild.go:252-260 | The pending flag is cleared iff it was set and the actual mute and deaf equal the desired ones. The other fields are unchanged. |
| Guild.VerifyStep | discord/guild.go:240-262 | An unresolvable user leaves the cache alone. Otherwise the user's record in the cache becomes its verified record. |
| Guild.Verify | discord/guild.go:234-266 | Over a snapshot: users outside the snapshot keep their cache entry, every record differs from its original at most in the flag, and no flag is ever set. |
| Guild.HandleStep | discord/guild.go:139-190 | Check-and-set for one user: when a patch is proposed, the user is marked pending and the patch is pushed and recorded. Otherwise only the resolved record is cached. |
| Guild.HandleLoop | discord/guild.go:139-199 | The queue is a heap of exactly the pushed patches, and updateMade holds iff one was pushed. No user is pushed twice. Every pushed user is pending now and was idle at the start. No flag is cleared. Users outside the snapshot are untouched. |
| Guild.HandleTrackedMembers | discord/guild.go:131-227 | Reports an update iff something was dispatched. No user is dispatched twice, and every dispatched user is left pending. Every dispatched user was idle after verification. Dispatch is in non-increasing priority, with positive-priority patches in an earlier cohort than priority-0 ones. The pass sleeps for the delay when it is positive and not at all otherwise. Users outside the snapshot are untouched. |
| Guild.VoiceStateChange | discord/guild.go:272-308 | A patch is issued iff the resolved user is linked, not pending, and their mute or deaf differs from the desired. The user is then marked pending, and the patch carries the desired state and nickname. The game-state message is edited iff a patch was issued and a message is held. |
| Guild.EventPatch | discord/guild.go:283-298 | On the single-event path a patch is issued iff the user is linked, has no request pending, and is not already in the desired state. It targets the event's guild and user, with the desired mute and deaf and the nickname. |
| GuildProperties.EventAgreesWithPass | discord/guild.go:283-298 | With nicknames off, the single-event path patches a user iff the pass's link-guarded proposal would, for the same record and voice state. For an event from the pass's guild the two requests are identical. |
| GuildProperties.EventIgnoresNicknameDrift | discord/guild.go:283-298 | With nicknames on the paths differ: a linked user whose voice state has landed but whose nickname differs gets no patch from an event, while the pass proposes a rename. |
| GuildProperties.DecisionIgnoresPending | discord/guild.go:151-164 | The desired state, the settledness test and the proposal condition do not read the pending flag. |
| GuildProperties.VerifyOnlyClears | discord/guild.go:252-260 | A record after verification was resolvable before it, is pending only if it was pending before, and is unchanged for users outside the snapshot. |
| GuildProperties.VerifyPerUser | discord/guild.go:240-262 | With one voice state per user, every snapshot user ends up with exactly the verified form of the record the pass resolved, and unresolvable users stay absent. |
| GuildProperties.AfterProposal | discord/guild.go:166-171 | After the check-and-set a record is pending iff it was pending or a patch was proposed, and nothing else changes. |
| GuildProperties.HandleLoopPerUser | discord/guild.go:139-199 | With one voice state per user, the loop pushes exactly the reference proposals (each computed from the user's record at the start of the loop) in snapshot order. Each user's record is the check-and-set of that record. |
| GuildProperties.PassPerUser | discord/guild.go:131-227 | With one voice state per user, a pass dispatches exactly the reference proposals computed from the verified starting records, as a multiset. Every snapshot user's record is the verified, then check-and-set, form of their starting record. |
| GuildProperties.RecordQuietAfterPass | discord/guild.go:164-190 | With nicknames off, a user whose voice state has not changed since a pass is proposed nothing by the next pass. |
| GuildProperties.RepeatedPassIsQuiet | discord/guild.go:131-266 | With nicknames off, repeating a pass on its own resulting cache with the same snapshot reports no update. |
| GuildProperties.NicknameDriftReproposes | discord/guild.go:156-164 | With nicknames on, a linked user whose cached nickname differs from the player name is proposed again by the next pass even though their voice state has landed. |
| GuildProperties.GroupingsAgreeWhenLinked | discord/guild.go:161-164 | The grouping as written and the link-guarded grouping agree on linked users. For an unlinked user the guarded one never proposes, while the one as written still fires on a deafen or nickname difference. |
| GuildProperties.LinkGuardedPatchesOnlyLinked | discord/guild.go:161-164 | Under the corrected grouping, every patch a pass dispatches is for a user who was linked. |
| GuildProperties.GoPrecedencePatchesUnlinked | discord/guild.go:161-164 | As written, an unlinked member who is server-deafened (`Deaf` set) in a tracked channel is dispatched an undeafen patch. Under the corrected grouping the same pass makes no update. |
| NameMap.FindMember | discord/message_handlers.go:53-64 | The member is found iff either source has it. The state cache's member is returned when it has one; otherwise the remote lookup's member is returned. |
| NameMap.DisplayName | discord/message_handlers.go:69-77 | The nickname when it is non-empty, otherwise the account username. |
| NameMap.Discriminator | discord/message_handlers.go:118-119 | As written, the rewrite finds a discriminator iff the state cache has the member; with the fallback, iff the member is found. Either way it is that member's discriminator. |
| NameMap.Disambiguate | discord/message_handlers.go:108-128 | Succeeds iff every lookup succeeds. Keeps the keys, appends `#` and the discriminator to exactly the entries equal to the name, and leaves all other entries unchanged. |
| NameMap.NameStep | discord/message_handlers.go:49-136 | A voice state in another channel, or one whose member is not found, leaves the map alone. The map only ever gains the resolved member's user ID. |
| NameMap.SavedUserKeepsName | discord/message_handlers.go:79-83 | A user already listed under a non-empty name keeps their entry: a repeated voice state changes nothing. |
| NameMap.FreshNameInsertsOne | discord/message_handlers.go:94-106 | A new user whose name equals no entry adds exactly one entry under that name and leaves every other entry unchanged. |
| NameMap.CollisionSuffixesAll | discord/message_handlers.go:94-128 | A new user whose name equals an entry: every entry equal to the name, the new one included, gets `#discriminator`, and all others are unchanged. The step fails iff one of those lookups does. |
| NameMap.NameStepIdempotent | discord/message_handlers.go:79-136 | Seeing the same voice state twice gives the same map as seeing it once, for any non-empty display name. |
| NameMap.BuildNameMapFacts | discord/message_handlers.go:47-137 | The keys are exactly the user IDs of the in-channel voice states whose member is found. With sources keyed by user ID, every entry starts with its member's display name, and with the fallback lookup the build never fails. |
| NameMap.ThirdNameStaysBare | discord/message_handlers.go:96-104 | Three users all named "A" are listed as "A#1", "A#2" and a bare "A": the collision test compares whole names only. |
| NameMap.DisambiguatePair | discord/message_handlers.go:113-123 | Two entries with the same name, both resolvable, get their own discriminators. |
| NameMap.StateOnlyRewriteFails | discord/message_handlers.go:118-119 | As written, a collision involving a member found only through the remote fallback fails its discriminator lookup. With the fallback, the two members are listed as "A#1" and "A#2". |
| StateMessage.Delete | discord/gameStateMessage.go:77-84 | Leaves the holder empty. It requests deleting the held message iff one was held, and is a no-op on an empty holder. |
| StateMessage.Edit | discord/gameStateMessage.go:86-92 | Requests an edit of the held message iff one is held. |
| StateMessage.AddReaction | discord/gameStateMessage.go:69-75 | Requests adding the reaction to the held message iff one is held. |
| StateMessage.CreateMessage | discord/gameStateMessage.go:94-98 | The holder holds a message iff sending succeeded, and then in the channel it was sent to. |
| StateMessage.CreatePrivateMessage | discord/gameStateMessage.go:18-23 | With a value receiver the caller's holder is unchanged; only the sent message is returned. |
| StateMessage.QueriesNeedMessage | discord/gameStateMessage.go:100-117 | `SameChannel` and `IsReactionTo` are false without a message, and `Edit`, `AddReaction` and `Delete` then request nothing. |
| StateMessage.ReactionIsInSameChannel | discord/gameStateMessage.go:100-117 | A reaction to the held message is in the held message's channel. |
| StateMessage.DeleteClosesGates | discord/gameStateMessage.go:77-84 | After `Delete` no reaction is accepted, no channel matches, and a second `Delete` does nothing. |
| StateMessage.CreateOpensGate | discord/gameStateMessage.go:94-117 | After a successful create, exactly the non-author reactions to the new message are accepted. After a failed one, none are. |
| StateMessage.AuthorReactionIgnored | discord/gameStateMessage.go:109-117 | The message author's own reactions are never treated as reactions to the message. |
| StateMessage.PrivateCreateKeepsGates | discord/gameStateMessage.go:18-39 | The private holder's `CreateMessage` changes neither `Exists` nor `IsReactionTo`. |

## Left out

- Discord session calls (`State.Guild`, `State.Member`, `GuildMember`, `guildMemberUpdate`, message send, edit and delete, reactions) are not modelled as calls. Their results are inputs (the directory, the member maps, the optional sent message), and their effects are returned values.
- Goroutines, `sync.WaitGroup` and the message holders' `RWMutex`: the barrier becomes an order of cohorts, and the locks have no data effect.
- `time.Sleep` (discord/guild.go:203-206): only the delay is recorded, as `sleepSeconds`.
- `heap.Init` on an empty slice is the empty heap and is not modelled separately.
- The voice rules, the user-data cache, channel tracking and the game data are declared in files that are not part of this model. They appear as an uninterpreted function, a map, a set and a phase.
- `game.PhaseNames` is not part of this model. The delay table is keyed by phase directly, assuming the name mapping is one-to-one.
- A failed `State.Guild` in `verifyVoiceStateChanges` (discord/guild.go:235-238) goes on to dereference a nil guild. The model always has a snapshot.
- `checkCacheAndAddUser`'s two sources (guild member list, then remote lookup) are one partial map, `MemberDirectory`.
- The reaction handlers `handleReactionGameStartAdd` and `handleReactionPrivateUserMessage` are embed parsing and message editing; only the `IsReactionTo` and `Exists` gates they use are modelled.
- `handleGameStartMessage` and `handleGameEndMessage` are orchestration only. So are the message creation and reactions after the name map is built (discord/message_handlers.go:139-166). The thin send and edit wrappers, logging and `ToString` are also left out.
- The `PrivateStateMessage` struct in discord/gameStateMessage.go declares only `message` and `lock`, while discord/message_handlers.go also uses `idUsernameMap`, `privateChannelID` and `printedUsers`. Those fields are not modelled.
- Embed contents (`gameStateResponse`, `privateMapResponse`) are not modelled; an edit is recorded only by its target message.
- Guild.HandleTrackedMembers: "no user is dispatched twice" holds within one sequential pass only. The check-and-set at discord/guild.go:141 and 167-171 reads the record with `GetUser` and writes it back with `UpdateUserData`, with no lock held between the two. A concurrent `voiceStateChange` handler, or a second pass, can therefore read the same unset flag and issue its own patch. Concurrency is not modelled.
- GuildProperties.RepeatedPassIsQuiet: a second pass with no intervening voice change is expected to make no update. The code keeps that promise only with nicknames off, because a nickname-only proposal is cleared by verification and proposed again (see `GuildProperties.NicknameDriftReproposes`). The lemma also assumes one voice state per user, as Discord reports them.
- GuildProperties.LinkGuardedPatchesOnlyLinked, GuildProperties.HandleLoopPerUser, GuildProperties.VerifyPerUser and GuildProperties.PassPerUser assume one voice state per user in the snapshot.

## Findings

| source | as written | input that shows it | evidently intended | confidence | as-written member | corrected member |
|---|---|---|---|---|---|---|
| discord/guild.go:164 | `IsLinked() && muteDiff \|\| deafDiff \|\| nickDiff` parses as `(linked && muteDiff) \|\| deafDiff \|\| nickDiff`, so only the mute term is guarded by the link check | an unlinked member who is server-deafened (the `Deaf` flag, not `SelfDeaf`; say one this bot deafened before they were unlinked) in a tracked channel, with rules that undeafen untracked users: the pass dispatches an undeafen patch for them | the comment at discord/guild.go:163 and the guarded form on the single-event path at discord/guild.go:288 both say unlinked users are never touched: `linked && (muteDiff \|\| deafDiff \|\| nickDiff)` | high; not executed | GuildProperties.GoPrecedencePatchesUnlinked | GuildProperties.LinkGuardedPatchesOnlyLinked |
| discord/message_handlers.go:118-119 | the collision rewrite looks up each colliding user with `State.Member` only and dereferences the result without checking the error | two in-channel members both named "A", the second found only through the `GuildMember` fallback at line 58: its own discriminator lookup returns nil and the dereference panics | look the member up with the same fallback as at lines 53-59 | medium; not executed | NameMap.StateOnlyRewriteFails | NameMap.BuildNameMapFacts |

Both halves are in the model. The proposal condition is parameterised by `Guild.Precedence`: `GoPrecedence` is the code as written and `LinkGuarded` is the corrected grouping. The name map is parameterised by `NameMap.DiscriminatorSource`: `StateOnly` is the code as written and `WithFallback` is the correction.
