# Verification of discordgo's stateful core

This project models the parts of discordgo that keep redundant, mutable views of one thing in step, and proves what
each of them keeps over every run. Check it with `dafny verify dfyconfig.toml`.

Most components come in two layers. A value layer states an operation as a function, or a protocol as steps of a state
machine, and holds the theorems about whole runs. An object layer has the classes, arrays and loops of the program,
and every operation is proved to be a step, or a run of steps, of the value layer. A method that requires and ensures
`Valid()` keeps it over every sequence of calls.

**State cache** (`Entities`, `CacheModel`, `CacheContents`, `StateCache`, `StateEvents`). Guilds, channels, threads and
members are objects overwritten in place, held in lists and again in three pointer maps. Over every run the lists and
the maps name the same objects. `CacheContents` says what each step puts into them and that everything else stays, since
an empty cache would agree with itself too. The member index has one exception: a removed guild that comes back without
a member list keeps its old members indexed. The lemma about adding a guild says so as an if-and-only-if, and
`BareReturnLosesIndex` is the run that shows it. Assumptions, stated as preconditions: payloads are fresh objects with
distinct IDs, a channel keeps its guild, kind and parent (`homes` and the constant fields of `Channel`), a sync's
threads belong to its listed parents, channels in payloads carry no messages (the field is not in the JSON) and
threads that are not known yet carry their metadata, and READY guilds carry no threads. `OnNext` shows that events
which meet this can be handled one after another on the objects.

**Messages** (`MessageModel`, methods of `StateCache.State`). The cached messages of a channel are a bounded queue:
what it holds after a run, in which order, with which contents, and when a message leaves it. A channel that leaves
the channel map, or is replaced there by a new object, as a guild payload with channels does, loses its messages.
`OnLogged` ties this to the objects, whatever the events are.

**Permissions** (`Bits`, `Permissions`, `Lookups`). The five loops over 64-bit masks are proved against a rule for each
single bit that does not mention order, so that the in-place role sort behind the colour lookups cannot matter.

**DAVE key controller** (`Dave`). Ratchets, decryptors and the encryptor are objects with an open flag and a pointer to
the ratchet installed in them. libdave's answers are parameters. Handle conservation always holds. That a decryptor
holds the current ratchet of its user is false when an SSRC with a live decryptor is handed to another user;
`MapKeepsExactlyWhen` and, for each SSRC and step, `CurrentAtExactlyWhen` give the exact condition and
`RemapOutlivesRatchet` the run.

**Rate limiter and retries** (`RateLimit`, `Requests`). A clock that never goes back, buckets with a mutex flag, and a
script of server replies. The global stop is not looked at by a bucket that waits for a reset of its own;
`GlobalHonouredExactlyWhen` is the exact condition, `GrantDuringGlobalStop` a bucket that meets it.

**Gateway** (`GatewayModel`, `Gateway`). Sockets and listening channels under every interleaving of the goroutines,
with reading and checking a message, handling it, closing, forgetting and opening as separate steps, and the choice
between identify and resume against the history of messages. `StepKeepsHeldExactlyWhen` says that two kinds of steps
break up session ID, resume URL and sequence: forgetting an invalid session after another connect, and storing the
sequence of a dispatch after its session was forgotten. `SplitInvalidSessionMixesSessions` and
`StaleStoreMixesSessions` are such interleavings. With each event as one step this cannot happen. DataReady has an
exact condition of the same kind, and a run that violates it.

**Event handlers** (`HandlerModel`, `Handlers`). Registration, removal by a loop over the slice it shortens, and
dispatch. A handler is identified by the step that registered it, so the run itself says who must be called.

**Voice packets** (`Rtp`). The sender's counters and framing and the receiver's parser, over an abstract AEAD for which
opening undoes sealing, with the header layout of RFC 3550 sections 5.1 and 5.3.1 and the interface of RFC 5116
section 2.

**Message components** (`Components`). Trees of components to a JSON datatype and back, driven by a table of the
structs' fields. An empty slice under `omitempty` comes back nil; this belongs to the normal form beside the button
style, the menu type and the nil lists of children. What round trips cannot see, the numbers, names and
kinds of things on the wire, has lemmas of its own.

`Wrappers` holds optional values, the difference between a nil and an empty slice, and the deletion loop that several
methods share.

Where code and comments disagree the code is followed. A 401 reply ends with the REST error although the code first
sets another one that is then overwritten. A removal of a member whose guild is known reports no error, because the
error is assigned to a shadowed variable.

## Model

| member | source | states |
|---|---|---|
| CacheModel.AddGuildKeepsIndexed | state.go:89-149 | Adding or updating a guild keeps guildMap and channelMap equal to the lists, for any payload of fresh, distinct channels and threads |
| CacheModel.AddGuildKeepsMembers | state.go:79-113 | Adding a guild keeps memberMap the exact user index of every member list, if and only if it does not bring back a removed guild with a nil member list while old members remain indexed |
| CacheModel.RemoveGuildKeeps | state.go:153-178 | Removing a guild keeps both indexes in agreement with what is still listed |
| CacheModel.AddMemberKeepsIndexed | state.go:309-335 | Adding a member leaves guild and channel lists indexed |
| CacheModel.AddMemberKeepsMembers | state.go:309-335 | After adding a member memberMap is still the exact index: same objects, one entry a user |
| CacheModel.RemoveMemberKeepsIndexed | state.go:349-381 | Removing a member leaves guild and channel lists indexed |
| CacheModel.RemoveMemberKeepsMembers | state.go:349-381 | After removing a member memberMap is still the exact index |
| CacheModel.MemberLookupIsScan | state.go:384-402 | The indexed lookup finds a user exactly when a scan of the guild's list does, and finds the same object |
| CacheModel.AddChannelKeepsIndexed | state.go:482-526 | Adding or updating a channel or thread keeps every listed channel the object its ID maps to |
| CacheModel.AddChannelKeepsMembers | state.go:482-526 | Channel updates do not disturb the member index |
| CacheModel.RemoveChannelKeepsIndexed | state.go:529-580 | Removing a channel from map and list keeps all lists indexed, and once the ID is out of the map no place in any list names it |
| CacheModel.RemoveChannelKeepsMembers | state.go:529-580 | Channel removals do not disturb the member index |
| CacheModel.KeptElements | state.go:591-607 | The threads that survive a sync are exactly the unarchived ones whose parent is not synced, still without duplicates |
| CacheModel.CompactedNext | state.go:591-607 | In each round of the in-place compaction the element read is still the original one, and the round extends the compacted prefix |
| CacheModel.SyncMaps | state.go:583-624 | After a sync the surviving and the synced threads are distinct and each is the object its ID maps to |
| CacheModel.SyncChangesExactly | state.go:591-615 | A thread list sync takes exactly the dropped IDs out of channelMap, maps the synced threads, and changes no other entry |
| CacheModel.SyncKeepsIndexed | state.go:583-624 | A thread list sync keeps both indexes in agreement with the lists |
| CacheModel.EnterIsAdd | state.go:937-944 | Entering a READY guild changes maps and lists as adding the guild would |
| CacheModel.ReadyKeeps | state.go:911-951 | READY replaces the lists and leaves both indexes in agreement with them |
| CacheModel.ClearedKeeps | state.go:921-933 | READY with state tracking off empties the lists and breaks no index |
| CacheModel.ApplyKeeps | state.go:954-1139 | Every kind of step keeps the guild and channel indexes, and keeps the member index exactly when the step is no bare return of a removed guild |
| CacheModel.RunKeepsIndexed | state.go:58-624 | Over every run from an empty state, each listed guild and channel is the very object its ID maps to |
| CacheModel.RunKeepsMembers | state.go:79-402 | Over every run without such a bare return, memberMap is exactly the index of every member list |
| CacheModel.BareReturnLosesIndex | state.go:103-113 | A concrete run of three steps after which a member is indexed but not listed |
| CacheModel.NoChannelListedTwice | state.go:482-624 | Two different places in the lists of an indexed cache never hold channels with one ID |
| CacheModel.NoGuildListedTwice | state.go:136-147 | No guild ID is listed twice |
| CacheModel.ApplyDraws | state.go:89-951 | After any step a channel ID maps to what it mapped to before, to a channel the step brings, or to nothing |
| CacheContents.AddGuildContents | state.go:115-147 | A guild payload: each of channels, threads and members is the payload's list if it carries one, else the list the guild had; a new guild comes last; no other guild's lists change |
| CacheContents.AddGuildMapsChannels | state.go:97-105 | channelMap gains the payload's channels and threads and keeps every other entry |
| CacheContents.AddGuildMapsMembers | state.go:107-113 | memberMap holds exactly the payload's members under its guild if it carries a list, else what it held; other guilds' entries stay |
| CacheContents.RemoveGuildContents | state.go:153-178 | The guild leaves the list and guildMap; channelMap, memberMap and the other guilds stay |
| CacheContents.AddMemberContents | state.go:309-335 | A member that is not indexed is appended and indexed; every other member, list and map stays |
| CacheContents.RemoveMemberContents | state.go:349-381 | Exactly one list element of that user goes, the others keep their order, and only that index entry goes |
| CacheContents.KindsDecideHomes | structs.go:311-319 | Kinds 1 and 3 are private, 10 to 12 are threads, all others are guild channels |
| CacheContents.AddChannelContents | state.go:500-523 | A new channel is appended to the list of its kind and mapped; every other list and entry stays |
| CacheContents.RemoveChannelContents | state.go:529-580 | One element of that ID goes from the list of its kind and its entry from the map; every other list and entry stays |
| CacheContents.SyncContents | state.go:583-615 | The guild ends with the surviving threads and the synced ones behind them; no other list changes |
| CacheContents.ReadyContents | state.go:935-948 | READY leaves the guilds and private channels of its payload, in order and with their lists; guilds not in it keep theirs |
| CacheContents.ReadyKeepsEntries | state.go:935-948 | READY deletes no entry of channelMap or memberMap and changes none but those of its own channels and guilds |
| CacheContents.ClearedContents | state.go:921-933 | Without tracking READY empties the two lists and touches nothing else |
| StateCache.State.constructor | state.go:58-77 | A new state is empty and indexed |
| StateCache.State.CreateMemberMap | state.go:79-85 | The loop builds the user index of the guild's member list |
| StateCache.State.GuildAdd | state.go:89-149 | Overwriting or listing the guild object in place is the model's step. Of a known guild, channels, threads, members, roles and member count are the payload's if it carries them, else the guild's own; a new guild comes last; the lists of every other guild stay |
| StateCache.State.GuildRemove | state.go:153-178 | The deletion loop is the model's step; NotFound exactly for a guild that is not in guildMap |
| StateCache.State.MemberByID | state.go:384-402 | Member() returns the listed object of that user, or nothing when the list has none |
| StateCache.State.MemberAdd | state.go:309-346 | Listing a new member or overwriting a known one in place is the model's step; a known member takes the payload's fields, its join time only if the payload has one |
| StateCache.State.MemberRemove | state.go:349-381 | The deletion from map and slice is the model's step and succeeds exactly for an indexed member |
| StateCache.State.ChannelAdd | state.go:482-526 | Overwriting, or filing under the right list, is the model's step; a known channel takes the payload's fields, and messages, overwrites and thread data only if the payload has them; NotFound exactly for a new channel of an unknown guild |
| StateCache.State.ChannelRemove | state.go:529-580 | The deletion from map and list is the model's step; NotFound exactly for an unknown channel or guild |
| StateCache.CompactThreads | state.go:591-607 | The in-place filter of a thread slice leaves exactly the surviving threads, in order, and drops the other IDs from the map |
| StateCache.State.ThreadListSync | state.go:583-624 | The whole sync is the model's step, and each channel ends with the last membership sent for it |
| StateCache.LastMembershipIsLast | state.go:617-621 | The membership a thread ends with is the last one sent for it |
| StateCache.State.SyncLeaves | state.go:591-615 | What survives a sync are exactly the threads whose Archived flag is false and whose parent is not synced, of a sync that names parents |
| StateCache.State.OnReady | state.go:911-951 | READY is the model's step, with tracking on and off |
| StateEvents.OnInterface | state.go:954-1208 | Each event becomes the step the tracking flags call for, or none; the indexes survive it; known guilds, members and channels take the fields of the payload; a join or leave moves its guild's member count by one and nothing else does; the messages of every channel become what the message model says; the status is the returned error, lost where the code shadows it |
| StateEvents.NoReaction | state.go:954-1208 | An event is ignored exactly if its kind is not tracked, it is an offline presence, or a sync of an unknown guild; message events change no list or map |
| StateEvents.Reaction | state.go:965-1208 | Which operation each kind of event comes to otherwise |
| StateEvents.ReportedErrors | state.go:965-1208 | NotFound is returned exactly for an unknown guild, for a new channel without a place, and for a message that is not cached, and never for an update of a channel or the removal of one |
| StateEvents.OnLogged | state.go:752-1171 | Event by event, what any channel of the state caches is the message model's run of the events so far: distinct, bounded, in order, each message explained by them |
| StateEvents.OnNext | state.go:954-1208 | Events with payloads of their own can be handled one after another: each leaves the state fit for all that still wait |
| StateEvents.MemberJoins | state.go:982-994 | A join counts the member up by one, and no other guild, and caches it only if members are tracked; an unknown guild is an error and changes nothing |
| StateEvents.MemberLeaves | state.go:1006-1024 | A leave counts the member down by one, and no other guild, and forgets it only if members are tracked |
| StateEvents.SeePresence | state.go:1187-1208 | A presence adds a user that is unknown; one that is known takes the name it brings, if any, and no list changes |
| MessageModel.OnlyOldestEvicted | state.go:797-801 | A message not yet cached goes to the end, and only a full queue loses a message, its oldest |
| MessageModel.KnownMergedInPlace | state.go:765-795 | A known message keeps its place, takes over what the update carries, and no other message changes |
| MessageModel.MergeTakesWhatIsSent | state.go:768-791 | Each of the eight fields of a merged message is the update's if it carries one, else the cached one |
| MessageModel.MergesCompose | state.go:768-791 | Two updates in a row merge as their own merge does, and an empty update changes nothing |
| MessageModel.DeleteAllTakesThose | state.go:1166-1171 | A bulk delete takes out exactly the messages it names |
| MessageModel.RunIsBounded | state.go:752-834 | Over every run with a positive limit: distinct IDs, at most that many messages, in order of arrival, forgotten channels included |
| MessageModel.RunDescribes | state.go:752-834 | Over every run each cached message came with the step it says, was not deleted since, and has the body all updates since then merge to |
| MessageModel.StaysUntilCrowdedOut | state.go:797-801 | A message that came in and was not deleted is still there unless as many newer ones came in as the limit allows |
| StateCache.MergeInto | state.go:768-791 | The field-by-field merge takes each field that the update carries and no other |
| StateCache.State.MessageAdd | state.go:752-804 | Scan, merge, append and trim on the channel's slice are the queue's Post, and no other channel's messages change; NotFound exactly for an unknown channel |
| StateCache.State.MessageRemoveByID | state.go:816-834 | The deletion loop is the queue's Delete, for this channel only; it succeeds exactly for a cached message |
| StateCache.State.MessagesRemove | state.go:1166-1171 | The bulk delete loop is the queue's DeleteAll, for this channel only |
| Permissions.MemberPermissions | restapi.go:520-583 | The five loops with their breaks compute the layered calculation |
| Permissions.CalculatedIsRule | restapi.go:520-583 | For a non-owner every bit follows the rule: base roles and administrator, then everyone, pooled role and member overwrites, allow beating deny in each layer |
| Permissions.DecidedByLastWord | restapi.go:520-583 | The same mask read from the far end, with the numbers of the permission bits and overwrite kinds written out: the member's overwrite decides a bit, else the pooled roles, else everyone, else the base; an administrator gets the channel permissions |
| Permissions.BaseIsRule | restapi.go:526-544 | A base bit is set exactly if the everyone role or a held role grants it or administrator implies it |
| Permissions.OverwrittenIsRule | restapi.go:546-576 | After the overwrites a bit is what the three layers make of it, in this order |
| Permissions.AdministratorHasChannel | restapi.go:578-580 | A result with administrator holds every channel permission, the owner's mask included |
| Permissions.CalculatedIgnoresOrder | restapi.go:520-583 | Permuting guild roles, held roles or overwrites with distinct IDs changes no mask |
| Permissions.SortRoles | state.go:1317-1319 | The role sort is a permutation, highest position first |
| Permissions.FirstRoleColour | state.go:1317-1338 | Sorting guild.Roles in place returns a colour of the highest coloured role the member holds and leaves everybody's permissions as they were |
| Lookups.UserChannelPermissions | state.go:1218-1239 | The lookup answers exactly for a known channel, guild and member, with the calculated mask |
| Lookups.UserColor | state.go:1270-1291 | Asking for a colour changes no user's permissions in any channel of the state |
| Dave.InstallKeeps | voice_dave_controller_libdave.go:470-495 | Installing a ratchet re-points every decryptor of its user and keeps all of them, and the encryptor, current |
| Dave.DisconnectKeeps | voice_dave_controller_libdave.go:137-162 | A disconnect removes the user's ratchet and SSRCs, keeps everybody else's, and leaves no decryptor that points at the ratchet it closes |
| Dave.MapKeepsExactlyWhen | voice_dave_controller_libdave.go:391-401 | A speaking update keeps all decryptors current if and only if it does not move an SSRC with a live decryptor to another user |
| Dave.MintKeeps | voice_dave_controller_libdave.go:413-418 | A new decryptor pointed at its user's ratchet is current |
| Dave.RunKeepsCurrent | voice_dave_controller_libdave.go:137-495 | Over every run of installs, disconnects, speaking updates and closes, decryptors and encryptor point at the ratchets of their users, if no live SSRC changes hands |
| Dave.CurrentAtExactlyWhen | voice_dave_controller_libdave.go:137-495 | For every SSRC and every step: its decryptor is current afterwards exactly if the step mends it, or it was current and is not handed to another user |
| Dave.StaleStaysStale | voice_dave_controller_libdave.go:137-495 | A decryptor on the wrong ratchet stays wrong over every run until a step mends it |
| Dave.PointedIsCurrent | voice_dave_controller_libdave.go:323-336 | Over every run the ratchet in the encryptor when it encrypts is the local user's current one, although it is set only once an epoch |
| Dave.RemapOutlivesRatchet | voice_dave_controller_libdave.go:384-401 | A concrete run in which an SSRC reused by a second user decrypts with a ratchet nobody owns any more |
| Dave.RefreshedNext | voice_dave_controller_libdave.go:515-521 | One round of the refresh gives one more user a new ratchet and touches nobody else's |
| Dave.RefreshedCurrentAt | voice_dave_controller_libdave.go:497-522 | A refresh makes current exactly the decryptors of the users it brings a ratchet for, and leaves every other as it was |
| Dave.RefreshedIsRun | voice_dave_controller_libdave.go:497-522 | Every refresh is a run of installs, one for each of those users, so what holds over runs holds over refreshes |
| Dave.FormattedIDParses | voice_dave_controller_libdave.go:502-505 | Formatting a roster number and parsing it back is the identity on 64-bit numbers |
| Dave.ParsedIDFormats | voice_dave_controller_libdave.go:504-504 | Parsing digits without a leading zero and formatting the number gives the same digits, so roster names are user IDs |
| Dave.LeadingZeros | voice_dave_controller_libdave.go:453-455 | A leading zero does not change the number read |
| Dave.RefusedNumbers | voice_dave_controller_libdave.go:453-455 | A channel ID is refused exactly if it is empty, holds a character that is no digit, or does not fit 64 bits |
| Dave.NamesAreIDs | voice_dave_controller_libdave.go:500-506 | The names a roster stands for are exactly the canonical user IDs whose numbers it holds |
| Dave.RenewedExactly | voice_dave_controller_libdave.go:233-246 | A commit renews exactly those libdave answers for: canonical IDs on the roster, users with an SSRC, and the local user if it has no ratchet |
| Dave.Controller.OpenHandlesAreHeld | voice_dave_controller_libdave.go:55-80 | The open ratchets, decryptors, encryptors and sessions ever obtained are exactly the ones the controller holds |
| Dave.Controller.ValidIsSound | voice_dave_controller_libdave.go:137-495 | A controller between two calls meets the premise of the lemmas about runs of key steps |
| Dave.Controller.InstallRatchet | voice_dave_controller_libdave.go:470-495 | The previous ratchet is closed, the new one stored, the user's decryptors re-pointed, and open ratchets stay exactly the stored ones |
| Dave.Controller.Obtain | voice_dave_controller_libdave.go:515-521 | A ratchet obtained is installed at once; nothing obtained is left outside the map |
| Dave.Controller.ClientDisconnected | voice_dave_controller_libdave.go:137-162 | The loop that deletes from the maps it ranges over drops exactly the user's SSRCs, decryptors and ratchet, closed |
| Dave.Controller.EnsureSession | voice_dave_controller_libdave.go:437-468 | Fails exactly without a connection or with an unreadable channel ID when a session is needed; otherwise there is a session at the asked version |
| Dave.Controller.PrepareTransition | voice_dave_controller_libdave.go:82-102 | Every decryptor and the encryptor switch to passthrough exactly for version 0; ratchets and pointers stay |
| Dave.Controller.ClientsConnected | voice_dave_controller_libdave.go:126-135 | The named users become known, empty IDs do not |
| Dave.Controller.RefreshRatchets | voice_dave_controller_libdave.go:497-522 | Exactly the users of the roster or of an SSRC that libdave answers for get a new ratchet, obtained in this call and open, and exactly their decryptors are pointed at it |
| Dave.Controller.EnsureOutbound | voice_dave_controller_libdave.go:524-541 | The local user gets a ratchet exactly if it has none and libdave answers |
| Dave.Controller.HandleMLSCommit | voice_dave_controller_libdave.go:213-246 | When the reply is ready, when it is an error and which, and when the invalid-commit message goes out; a commit that is not refused renews exactly the users stated and their decryptors, any other changes no ratchet |
| Dave.Controller.HandleMLSWelcome | voice_dave_controller_libdave.go:248-275 | The same for a welcome |
| Dave.Controller.EncryptOpus | voice_dave_controller_libdave.go:277-341 | Whenever a frame reaches Encrypt, the encryptor is open and holds the open, current ratchet of the local user; the keys change by installing that ratchet if it was missing and pointing the encryptor; the other outcomes occur exactly as stated |
| Dave.Controller.CurrentIsOpen | voice_dave_controller_libdave.go:343-382 | A current decryptor is open and points at an open ratchet, its user's |
| Dave.Controller.DecryptOpus | voice_dave_controller_libdave.go:343-382 | Whenever a frame reaches Decrypt on a current decryptor, the ratchet used is open and its user's; the keys change by the steps that make a missing decryptor, if any; the error cases occur exactly as stated |
| Dave.Controller.HandleSpeakingUpdate | voice_dave_controller_libdave.go:384-426 | The SSRC gets its user and, if it can, a decryptor; its decryptor is current afterwards exactly if the update mends it, every other current one stays so, and all of them do exactly unless a live SSRC is remapped |
| Dave.Controller.Close | voice_dave_controller_libdave.go:55-80 | No ratchet, decryptor, encryptor or session ever obtained stays open, and the keys take the closing step |
| RateLimit.GrantWaitsForReset | ratelimit.go:73-104 | A grant to an exhausted bucket comes no earlier than its reset time |
| RateLimit.GlobalHonouredExactlyWhen | ratelimit.go:73-87 | Grants respect the global stop if and only if the bucket is not waiting for an earlier reset of its own |
| RateLimit.GrantDuringGlobalStop | ratelimit.go:73-87 | A concrete bucket that lets a call through during a global stop |
| RateLimit.WaitHasCause | ratelimit.go:73-87 | Whoever waits, waits exactly until the bucket's reset, which is exhausted, or until the end of the global stop |
| RateLimit.BudgetHolds | ratelimit.go:95-196 | With r calls left and reset T, at most max(0, r) grants return before T while no release raises the count or moves the reset earlier |
| RateLimit.CustomGrantsAreSpaced | ratelimit.go:126-135 | On a bucket with a one-call custom limit every later grant comes a full period after the release before it, for any period a time.Duration can hold |
| RateLimit.OnlyReactionsAreCustom | ratelimit.go:31-66 | The keys with a custom limit are exactly those that end in the reactions suffix, with one call per 200 ms |
| RateLimit.NanosIsTruncated | ratelimit.go:157-158 | A header time is a whole number of milliseconds, less than one off, rounded toward zero |
| RateLimit.ReactionGrantsAreSpaced | ratelimit.go:35-41 | On any reactions route at least 200 ms pass from a release to the next grant |
| RateLimit.Bucket.Release | ratelimit.go:122-197 | Unlocks on every path. Reset-After moves the bucket's reset, or with Global the global stop alone; Reset and Date together move the reset by their difference and 250 ms; without them both stay; the remaining calls are the header's; each malformed header gives its error and leaves what comes after it |
| RateLimit.Bucket.ReleaseCustom | ratelimit.go:126-135 | The custom-limit branch with its up to three clock readings |
| RateLimit.RateLimiter.GetBucket | ratelimit.go:46-70 | One bucket object per key for ever; a new one is unused and has the first custom limit whose suffix fits |
| RateLimit.RateLimiter.GetWaitTime | ratelimit.go:73-87 | The wait the rules prescribe at the clock readings made |
| RateLimit.RateLimiter.LockBucketObject | ratelimit.go:95-104 | Returns holding the bucket, one call spent, at a time the rules allow |
| Requests.ComplaintIsSettled | ratelimit.go:137-194 | Which header error a release reports depends on the headers alone |
| Requests.BucketAlternates | restapi.go:196-316 | For any server behaviour acquires and releases alternate, nothing is sent without the bucket, and it ends up free |
| Requests.SendsBounded | restapi.go:196-316 | At most one request, one per retry left, and one per 429 reply |
| Requests.EveryAttemptIsSent | restapi.go:235-301 | One request goes out for each attempt of the script, in order, but for one that cannot be built |
| Requests.StatusDecides | restapi.go:266-313 | Status by status: success, another attempt while retries last or after a rate limit that may be retried, or which error |
| Requests.FailureDecides | restapi.go:202-255 | What a request that cannot be built or sent, unusable headers and an unreadable body lead to |
| Requests.OnlyRepliesGo | restapi.go:266-301 | Only a readable reply with usable headers and one of five status codes leads to another attempt |
| Requests.LastAttemptDecides | restapi.go:266-313 | Every attempt that asks for another is followed by one, with the retries counted, and the first that does not decides the outcome |
| Requests.RequestWithLockedBucket | restapi.go:196-316 | The recursive retry on real buckets follows the call log; the clock passes at least every sleep, each grant after a 429 comes its retry_after later than the release, the uses of the bucket alternate and are allowed ones, and it ends unlocked in the state they lead to |
| Requests.RequestRaw | restapi.go:188-193 | From any limiter whose bucket for the route is free: that bucket object is used, no other is touched, it is free again, the waits are kept, and the bound on requests holds |
| Requests.BeforeQuery | restapi.go:189-191 | The default bucket key is the URL up to the first question mark |
| GatewayModel.OpenKeepsSound | wsapi.go:49-215 | Every outcome of Open keeps: only the current socket is open, only the current channel is unclosed, and there is one just when there is the other |
| GatewayModel.CloseKeepsSound | wsapi.go:960-1006 | Close leaves no socket open and every channel closed exactly once |
| GatewayModel.StepKeepsGood | wsapi.go:219-330 | Every step of a listener, heartbeat or reconnect loop keeps that, and pairs goroutines with their own channel |
| GatewayModel.RunKeepsSound | wsapi.go:57-1006 | Under every interleaving of Open, CloseWithCode, listen, heartbeat and reconnect all of that holds |
| GatewayModel.EventsAreCurrent | wsapi.go:253-261 | A goroutine whose channel is not closed belongs to the current socket, so a message that passes the check of listen comes from that socket at that moment; it is handled later |
| GatewayModel.CurrentSocketHasOpenChannel | wsapi.go:200-212 | Goroutines of the current socket have the open channel |
| GatewayModel.StaleStoreAfterClose | wsapi.go:253-670 | A dispatch whose sequence is stored after its session was forgotten passed the check when its channel was open, and the channel was closed since |
| GatewayModel.StepKeepsReadyExactlyWhen | wsapi.go:318-321 | DataReady implies a connection after every step but one: a heartbeat marking it after a close |
| GatewayModel.LateMarkReportsClosedSessionReady | wsapi.go:305-321 | A concrete run that ends closed and marked ready |
| GatewayModel.GreetingFitsExactlyWhen | wsapi.go:68-82 | Open greets with a plain identify or a complete resume if and only if session ID and sequence are unset or all three fields are set |
| GatewayModel.HistoryAgrees | wsapi.go:627-670 | With each event one step, session ID, resume URL and sequence are set and cleared together over every run |
| GatewayModel.OpenGreetsByHistory | wsapi.go:65-163 | Open resumes the latest READY's session at its last sequence, and identifies at the default gateway exactly without one |
| GatewayModel.OpenLeaves | wsapi.go:57-200 | Besides the connection every outcome of Open is described: the cached gateway, the dialled sockets, the packets sent and the session fields |
| GatewayModel.HearIsUndivided | wsapi.go:253-670 | Handling a message as one step is the same as the steps of the listener that reads it when nobody comes in between |
| GatewayModel.HearCloses | wsapi.go:617-643 | A reconnect request and an invalid session leave no open socket and close the current channel |
| GatewayModel.HearKeepsConnection | wsapi.go:655-670 | A dispatch stores its sequence, and like every other message leaves the connection alone |
| GatewayModel.StepKeepsHeldExactlyWhen | wsapi.go:627-670 | Of all steps of all interleavings exactly two kinds break up the three session fields: forgetting an invalid session while another connection is already up, and storing a sequence after the session was forgotten |
| GatewayModel.RunKeepsHeld | wsapi.go:57-1006 | Over every interleaving without such a late forget or stale store the fields are all set or all unset, set while connected, and Open greets properly |
| GatewayModel.SplitInvalidSessionMixesSessions | wsapi.go:627-646 | A concrete interleaving of an invalid session with another Open leaves a sequence without a session, and a greeting of neither form |
| GatewayModel.StaleStoreMixesSessions | wsapi.go:253-670 | A concrete interleaving without a late forget in which a listener stores a sequence after its session was closed, resumed and forgotten |
| Gateway.Session.CloseWithCode | wsapi.go:960-1006 | The method on real sockets and channels is the model's Close, and never closes a channel twice |
| Gateway.Session.Open | wsapi.go:49-215 | The method on real sockets and channels is the model's Open, for every way the handshake fails, a dispatch in the place of the Hello included |
| Gateway.Session.Reconnect | wsapi.go:895-949 | The loop is the model's, and its waits follow the back-off |
| Gateway.Session.OnEvent | wsapi.go:616-646 | Each message is handled as the model says; after a reconnect request or an invalid session no socket that was open before is open, and with reconnecting on and a try that works the session holds a newly dialled open socket |
| Gateway.BackoffDoublesToTenMinutes | wsapi.go:903-946 | Waits double from one second to 512 and stay at 600 from then on |
| Gateway.RetriedKeepsSound | wsapi.go:905-947 | The loop stops early only with a connection, and keeps the socket invariant |
| Gateway.RetriedConnects | wsapi.go:905-947 | Only sockets dialled in the loop are open after it, and if one of its tries works it ends connected |
| Gateway.HandledMoves | wsapi.go:616-643 | Handling a reconnect request or an invalid session never leaves an old socket open, and ends connected exactly when it may and can reconnect |
| HandlerModel.HandlersAreLive | event.go:65-79 | After any run the permanent handlers of a type are exactly those registered and not removed, in order of registration |
| HandlerModel.OnceHandlersArePending | event.go:83-97 | The once-handlers are exactly those registered, not removed and not yet due |
| HandlerModel.EventCallsInOrder | event.go:166-201 | An event calls interface handlers before typed ones, permanent before once, each in order of registration |
| HandlerModel.PermanentFiresOncePerEvent | event.go:166-173 | A permanent handler is called exactly once by each matching event between registration and removal, and not at all otherwise |
| HandlerModel.OnceFiresFirstTimeOnly | event.go:175-184 | A once-handler is called by the first matching event if it was not removed before, and by no other |
| HandlerModel.OnceFiresOnceInARun | event.go:175-184 | No two events of a run call the same once-handler |
| HandlerModel.OnlyRegisteredFire | event.go:166-184 | Nothing else is ever called |
| Handlers.RemoveInPlace | event.go:150-162 | The loop that goes on over the shifted array removes its own instance and no other, and leaves the last element twice |
| Handlers.Registry.AddEventHandler | event.go:65-79 | Appends a new instance to the permanent handlers of its type |
| Handlers.Registry.AddEventHandlerOnce | event.go:83-97 | Appends a new instance to the once-handlers of its type |
| Handlers.Registry.RemoveEventHandlerInstance | event.go:146-163 | Takes the instance, and no other, out of both maps |
| Handlers.Registry.Handle | event.go:166-185 | Calls the permanent handlers, then the once-handlers, and clears the latter |
| Handlers.Registry.HandleEvent | event.go:189-201 | Calls whom the model says, in that order |
| Rtp.ParseInvertsEncode | voice.go:1425-1493 | For any header fields, CSRCs, extension and Opus data, receiving a sealed packet yields them back |
| Rtp.MasksAreFields | voice.go:1427-1443 | The masks on the first byte are its version, extension and CSRC-count fields |
| Rtp.EncodedLayout | voice.go:1438-1464 | The header lengths the receiver works out are those of the packet |
| Rtp.DroppedExactly | voice.go:1425-1493 | A datagram is dropped exactly if it is no RTP version 2, shorter than its header announces, not authentic, or its extension is cut short |
| Rtp.Receive | voice.go:1396-1496 | On any buffer and datagram length no index is out of bounds, and the result depends on the datagram alone, not on older bytes behind it |
| Rtp.ReadNonce | voice.go:1471-1474 | The nonce is the last four bytes and eight zeros |
| Rtp.ResetIsUnreachable | voice.go:1369-1373 | The timestamp sum never equals 2^32 - 1, so the reset branch is dead and timestamps count modulo 2^32 |
| Rtp.PacketsAreNumbered | voice.go:1277-1373 | Packet i of a run carries sequence i mod 2^16 and timestamp 960 i mod 2^32 |
| Rtp.ReceiverReadsNumbers | voice.go:1277-1493 | The far end reads exactly these numbers and the payload from packet i |
| Rtp.DatagramOnTheWire | voice.go:1275-1345 | Byte by byte what is sent: big-endian header fields, the sealed payload, the little-endian nonce counter |
| Rtp.OneMoreFrame | voice.go:1292-1366 | Which frames go out, in which order, under which nonce, and that nothing goes out after a close or a failed write |
| Rtp.NonceCounts | voice.go:1332-1341 | The nonce counts every frame that passed the transform, sent or not |
| Rtp.NoncesAreDistinct | voice.go:1332-1345 | Within 2^32 frames no two packets share a nonce |
| Rtp.Sender.PutHeader | voice.go:1281-1317 | The reused buffer holds the RTP header of the current counters |
| Rtp.Sender.SendFrame | voice.go:1292-1374 | One turn of the loop sends the framed and sealed datagram or drops the frame, and moves the counters accordingly |
| Rtp.Sender.Send | voice.go:1260-1375 | A whole run transmits exactly the modelled datagrams, in order |
| Components.RoundTrip | components.go:43-137 | Every well-typed tree of any depth parses back to its normal form if no component in it is nil, and fails to parse otherwise |
| Components.AttrsRoundTrip | components.go:170-201 | Struct fields survive marshalling with omitempty and the type field beside them |
| Components.LeafRoundTrip | components.go:187-298 | Button style 0 comes back as 1 and menu type 0 as 3; other leaves come back as they are |
| Components.TypesOnTheWire | components.go:139-393 | The number every component is marshalled under, with the style, the accessory and the inner component beside it |
| Components.ChildrenOnTheWire | components.go:106-117 | Children go out in order, a nil list as null |
| Components.FieldsOnTheWire | components.go:97-694 | A struct field is on the wire with its value unless it is optional and holds nothing, 0, false or an empty string or list |
| Components.NumbersDecide | components.go:52-83 | Which struct each type number becomes, with every field taken from under its name or unset |
| Components.KnownNumbers | components.go:52-82 | The numbers 1 to 14 and 17 to 19 are the ones that parse |
| Components.LayoutFields | components.go:97-598 | The fields of rows, sections, containers and labels, and which of them may be left out |
| Components.ThumbnailFields | components.go:395-425 | The fields of text displays and thumbnails |
| Components.ContentFields | components.go:446-520 | The fields of media galleries, files and separators |
| Components.ButtonFields | components.go:170-184 | The fields of buttons |
| Components.SelectFields | components.go:247-277 | The fields of the five kinds of select menus |
| Components.InputFields | components.go:300-313 | The fields of text inputs |
| Components.UploadFields | components.go:640-651 | The fields of file uploads |
| Components.FieldKinds | components.go:97-694 | The JSON kind of each field, by its name |
| Components.SectionRoundTrip | components.go:353-393 | A section comes back with its children and its accessory |
| Components.LabelRoundTrip | components.go:607-637 | A label comes back with its child |
| Components.RowRoundTrip | components.go:106-137 | Rows and containers come back with their children, a nil list as an empty one |
| Components.SecondTripIsStable | components.go:43-637 | A tree that has made the trip once makes it again unchanged |
| Components.UnknownTypeFails | components.go:52-82 | A component with an unknown type anywhere in the document makes the whole parse fail |
| Components.FromJSON | components.go:43-94 | The dispatch on the type number with its loops computes the parse |
| Components.FillChildren | components.go:119-137 | The loop fills the children in order or fails with the first that fails |

## Left out

- StateCache.State.MessageAdd: a negative MaxMessageCount is excluded, because the trimming slice would then be out of range.
- StateCache.State.ThreadListSync: the guild's threads must carry thread metadata, because the loop dereferences it; a thread without it would end in a panic.
- StateEvents.OnInterface: a new message needs a limit that is not negative; events about roles, emojis, stickers, voice states and thread members are not modelled, and a member chunk is a run of MemberAdd; the list of presences itself is not part of the state.
- StateEvents.SeePresence: the user object is a field of its member; that the list of presences shares it is not modelled.
- Requests.RequestRaw: it begins when the route's bucket is free; waiting for another goroutine to give it back is not modelled.
- Gateway.Session.Open: the second message of a handshake that works is a dispatch, and one that is neither Hello nor dispatch in the first place counts as a failed Hello.
- GatewayModel.RunKeepsSound: an Op 7, 9 or 11 that arrives inside Open is excluded, because onEvent would take the lock that Open holds.
- GatewayModel.RunKeepsHeld: an Open is one step against the forget and the store. In the code these take no lock, so they can fall between the reads of an Open in another goroutine, which then resumes with an empty ID or at a sequence that is not its session's; likewise the assignments of one forget, and those of one READY, count as one step.
- GatewayModel.HistoryAgrees: each event is one step and a READY comes first with non-empty fields and a positive sequence; the split at the free lock is the counterexample above.
- Handlers.Registry.RemoveEventHandlerInstance: the slice is copied into an array for the loop and back, so a later append writing into the same backing array is not modelled.
- RateLimit.Bucket.Release: header numbers are exact reals, so rounding of floats and overflow of time.Duration are not modelled.
- Rtp.Receive: padding is not stripped, as in the code; that the packet's Type field keeps pointing into the receive buffer, which the next datagram overwrites, is not modelled.
- Rtp.ParseInvertsEncode: packets without padding; the buffer of 2048 bytes cuts longer datagrams off before the parser sees them.
- Components.RoundTrip: nested structs such as emoji, options and media items are carried as JSON values, number ranges of Go integers and case-insensitive keys are not modelled.
- Dave.RunKeepsCurrent: the local user is fixed, and each method is one step although some release the mutex in between.
- The converse of the index: removed guilds leave entries in channelMap and memberMap, and READY does not clear old maps, so not everything in a map is in a list.
- The removal loop of ThreadMembersUpdate, which shortens the slice it ranges over and compares a thread ID with user IDs.
- PrepareEpoch, the external sender and the proposals of DAVE, which change nothing here beyond what EnsureSession does; the internals of libdave and of the dave package.
- Data races below the locks, handlers that run as goroutines, and the snapshots an event carries of the state before it.
- REST endpoint wrappers, JSON text, zlib, websockets, UDP, AES-GCM, logging, locales and generated handler types.
