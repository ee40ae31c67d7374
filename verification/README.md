# Verified model of the walkie-talk hub, its rate limiter and its quality score

The server keeps voice channels. A hub holds redundant maps (who is in which
room, which sids a room has, what is known of each channel, which clients are
registered) and many goroutines change them under one mutex that a join takes
and drops three times. Beside it are a rate limiter with two implementations
behind a circuit breaker, a ping protocol that feeds a quality score, and a
normaliser for SDP text. This project models these four in Dafny and proves
what they keep.

* **Regions, handlers, interleavings.** `HubModel` gives the effect of each
  lock region as a function on the maps. `HubObject` is the hub as a class
  whose methods change the maps step by step, each proved to compute its
  region or handler. `HubInvariant` proves what each region keeps.
  `Interleaving` is a step system in which the regions of many joins, any
  number of removals, the registration steps, the sweep and `Close` run in
  any order; `HubRuns` holds the theorems about every run of it, and
  `FullRooms` runs that end with a full room. `HubLaws` says field by field
  what each region leaves and what each client is told, without the functions
  that compute it. `Handlers`, `RosterReplication`
  and `InviteSecrecy` take whole handlers one at a time and add what each
  client is sent. `ChannelText`, `MemberLists` and `Snapshot` are the
  cleaners, the member list and the channel list.
* **Rate limiter.** `RateWindow` defines the window over an unbounded log of
  admissions and compares the local list with it; `RedisScript` does the same
  for the sorted set with its expiring key; `CheckRuns` runs concurrent calls
  through breaker, script and fallback; `RateStoreObject` is the store with
  its backing arrays compacted in place.
* **Quality.** `QualityScore` is the arithmetic, over the reals; `Pings` the
  protocol that settles each nonce by a pong or a timer.
* **SDP.** `SdpText` holds the text operations and the msid rewrite, `Sdp`
  the normaliser, `SdpLaws` what it does to a text law by law, `SdpInputs` the
  inputs on which it needs several passes.

Run `dafny verify dfyconfig.toml` to check everything.

## Where the code does not do what one would expect

* The Lua script prunes by its caller's reading, but its key expires by the
  time at which Redis runs it. The script agrees with the local limiter
  exactly while no script runs later after its caller's reading than the time
  to live exceeds the window (`RedisScript.TwoLimitersOneMeaning`): for a
  window of whole seconds that is a delay of at most one window, and without
  any delay it is a window of at least half a second
  (`RedisScript.CoversMeans`). Past it a late script finds the key expired and
  admits what the local limiter refuses (`RedisScript.LateScriptDiffers`). A
  window of 1 s, which the configuration lets through, and any delay above
  1 s, which the read timeout of 5 s lets through, is such a case.
* A key may be admitted up to twice the limit in one window when Redis comes
  and goes. The factor is attained for every limit (`CheckRuns.BoundIsTight`),
  and with Redis the bound itself holds exactly under that same condition on
  the delay (`CheckRuns.TwiceTheLimitIff`); past it there are runs with three
  times the limit (`CheckRuns.ThreeTimesTheLimit`).
* `checkLocal` reads the clock before it takes the lock, so a call can be
  decided on a reading that is behind an earlier one. If it is behind by at
  most `skew`, every interval that is shorter than the window by `skew` holds
  at most `limit` admissions, and for limits of at least 2 no longer interval
  does (`RateWindow.SkewBoundIff`).
* The SDP normaliser is not idempotent on all text, for two reasons. Dropping
  a control character can create an escaped line end that the next pass
  splits. And the msid pattern takes a no-break space for part of a word, so a
  rewritten line can end in white space that the next pass trims. A second
  pass is idle if and only if the output has no backslash before `n` or `r`
  and none of its lines ends in white space (`Sdp.SecondPassIdleIff`). Text
  without control characters other than tab, CR and LF, and without white
  space beyond ASCII, needs one pass; text with only one of these two
  properties needs at most two; all other text at most three. `SdpInputs` has
  an input for each step of this ladder.
* A join refused as ROOM_FULL may still change the channel. When the owner of
  a full channel is not in it and asks for a private one, the owner is refused
  and the channel turns private with a new invite code; the PIN of a refused
  owner replaces the old one; a channel without owner, which a sweep between
  gate and commit leaves behind, gets the refused caller as its owner.
  `Handlers.FullRefusalKeepsIff` says exactly when nothing changes, and
  `FullRooms` shows each change on a reachable state.
* A join that something interrupts is not all-or-nothing. Refused by its
  second capacity check it ends in no room, having left its old one
  (`HubRuns.CommitSeatsIff`); a member that joins its own full room again can
  lose the seat in this way (`FullRooms.SeatIsLost`).
* As long as every ping was lost the report shows a score of 100 and no loss;
  the shown drop rate is the true one exactly when some pong has come in time
  or nothing is settled yet (`Pings.ShownDropIsTrueIff`).

## Model

| member | source | states |
|---|---|---|
| HubRuns.MembershipAgreement | internal/realtime/events.go:66-90 | in every reachable state of the interleaved hub a sid is in a room's set iff its user record names that room, is in at most one room, and every stored room set is non-empty and within the cap |
| HubRuns.NoLeakedChannel | internal/realtime/events.go:58-112 | a memberless channel always has its empty time set or some join to it is between its gate and its commit |
| HubRuns.SweepReachesIdle | internal/realtime/hub.go:364-384 | a memberless channel with no join under way has its empty time, and a sweep removes it iff its reading is at least a TTL past that time: none is beyond the sweep's reach |
| HubRuns.ChannelBookkeeping | internal/realtime/hub.go:330-362 | in every reachable state an occupied room has an entry with no empty time; the stored count is the size of the room; the expiry is the empty time plus the TTL and set exactly with it; private iff there is an invite code; HasPIN iff a PIN hash, on private channels only |
| HubRuns.EmptySpell | internal/realtime/hub.go:345-362 | since the recorded empty time of a channel no state in force had a member of it |
| HubRuns.ExpirySafety | internal/realtime/hub.go:364-384 | the sweep deletes a channel only if no state in force at any moment after now - TTL had a member, up to the sweep itself, although now was read before the lock |
| HubRuns.ExpiryCompleteness | internal/realtime/hub.go:364-384 | after a sweep no memberless channel that is due remains; memberships and every other entry are as before |
| HubRuns.PrivateForLife | internal/realtime/hub.go:386-441 | within one life of an entry, private is for good, with the same owner sid and invite code |
| HubRuns.PinProvenance | internal/realtime/hub.go:429-441 | the stored PIN is exactly the last one that the owner brought with a join in this life of the channel, since it is private: neither a replaced one nor one of an earlier life |
| HubRuns.PrivateGate | internal/realtime/hub.go:443-457 | an outsider passes the gate of a private channel iff the sid is the owner, the secret cleans to the invite code, or the cleaned PIN is non-empty and is the stored one |
| HubRuns.PrivateChannelHistory | internal/realtime/hub.go:386-458 | while a channel once private lives, an outsider gets past the screening iff it is the owner of that earlier state, shows the code of that state, or types the last PIN that this owner brought: a rotated PIN opens it no more |
| HubRuns.ShownCodeOpens | internal/realtime/hub.go:443-456 | typing back the shown invite code, in any spelling whose upper case is the code and with space around it, gets past the gate |
| HubRuns.SendClosedAtMostOnce | internal/realtime/hub.go:75-146 | under every interleaving of registration, removals and Close each Send channel is closed at most once, a client in the map has an open one that nobody is about to close, and clients and quality have the same keys |
| HubRuns.RemovalForgets | internal/realtime/hub.go:129-146 | after both parts of a removal that follows the processed registration and the last handler of a sid, `users`, `rooms`, `clients` and `quality` do not mention the sid for the rest of the run (a channel may still name it as its owner) |
| HubRuns.EveryStateOk | internal/realtime/hub.go:75-146 | the whole invariant (membership, books, program counters, no leak, client places) holds in every reachable state |
| HubRuns.CommitSeatsIff | internal/realtime/events.go:80-112 | in every run the commit of a join seats the sid iff a seat is free; refused, it changes nothing and the sid is in no room, whatever room it came from |
| Interleaving.ConnStepKeeps | internal/realtime/hub.go:75-127 | each registration, removal and close step keeps every registered client in exactly one place: on the way in, in the map, about to be closed, or closed once |
| Interleaving.EntryStepHolds | internal/realtime/hub.go:330-458 | what one step of any kind can do to one channel entry that survives it |
| Interleaving.NoLeakStep | internal/realtime/events.go:58-112 | one step keeps: a memberless channel without empty time has a join under way |
| HubInvariant.LeaveKeeps | internal/realtime/hub.go:558-577 | leaving keeps membership agreement and books, whether the room empties, shrinks, or the sid was in none |
| HubInvariant.GateKeeps | internal/realtime/hub.go:386-458 | the gate keeps them, whatever it answers |
| HubInvariant.ScreenedEntryOk | internal/realtime/hub.go:395-457 | the entry the gate writes is well formed: visibility set, private iff it has a code, owner known, PIN only on private channels |
| HubInvariant.CommitKeeps | internal/realtime/events.go:80-112 | the commit keeps them, and a commit refused as full changes nothing and finds the room occupied, so the empty set it may have made never stays |
| HubInvariant.SweepEntry | internal/realtime/hub.go:364-384 | a sweep removes an entry iff it is memberless and its empty time is at least a TTL old; users, rooms and other entries stay |
| HubInvariant.LeaveEntry | internal/realtime/hub.go:558-577 | leaving keeps every entry's owner, visibility and secrets, and the room that lost its last member gets the time of leaving as its empty time |
| HubInvariant.CommitEntry | internal/realtime/events.go:80-112 | a commit, even a refused one, finds or leaves the room occupied with an entry that is not marked empty, keeps that entry's identity and all other entries |
| Handlers.JoinSwitchesRooms | internal/realtime/events.go:58-112 | an uninterrupted join past the gate is never refused by the second capacity check; it moves exactly this sid, into this room and out of every other, and keeps the invariant |
| Handlers.RefusedJoinChangesNothing | internal/realtime/events.go:58-71 | a join refused at the gate leaves users and rooms unchanged; a PRIVATE_CHANNEL refusal leaves the whole hub unchanged |
| Handlers.FullRefusalKeepsIff | internal/realtime/events.go:60-71 | a ROOM_FULL refusal leaves the hub as it was iff the channel has an owner and the caller is not that owner asking for privacy on a public channel or bringing another PIN to a private one |
| FullRooms.PublicTurnsPrivate | internal/realtime/hub.go:429-441 | for every cap there is a reachable full public channel whose absent owner, asking for a private one, is answered ROOM_FULL while the channel turns private with the new code |
| FullRooms.PinChanges | internal/realtime/hub.go:435-440 | for every cap there is a reachable full private channel where the owner's refused join replaces the stored PIN |
| FullRooms.OwnerlessIsAdopted | internal/realtime/hub.go:422-427 | for every cap there is a reachable full channel without owner (swept while its members were between gate and commit), and the sid refused there owns it afterwards |
| FullRooms.SeatIsLost | internal/realtime/events.go:75-87 | for every cap there is a run in which a member joins its own full room again, another guest takes the seat between two regions of that join, and the member ends in no room |
| Handlers.LeaveMembers | internal/realtime/hub.go:558-577 | leaving takes the sid out of users and of every room's set and touches no other membership |
| RosterReplication.EveryRosterIsTrue | internal/realtime/events.go:50-158 | after any run of whole joins, leaves, renames, disconnects and sweeps, every member's fold of the events it received is exactly the other members of its room with their current names |
| RosterReplication.JoinSends | internal/realtime/events.go:75-125 | what each client is sent by an admitted join: the joiner its room_state, members of the new room peer_joined, members of another old room peer_left, everyone else nothing |
| RosterReplication.JoinReplicates | internal/realtime/events.go:75-125 | an admitted join keeps every client's roster true, in the old room, the new room and elsewhere, also on a re-join |
| RosterReplication.LeaveReplicates | internal/realtime/hub.go:129-146 | a leave and a disconnect keep every client's roster true |
| RosterReplication.RenameReplicates | internal/realtime/events.go:138-158 | a rename keeps every client's roster true |
| RosterReplication.RenameSends | internal/realtime/events.go:138-158 | a rename is told to exactly the other members of the room |
| InviteSecrecy.CodeGoesToOwner | internal/realtime/events.go:98-125 | over every run of whole handlers, an invite code in any client's log was sent to it in answer to its own join, when it owned that private channel and this was the channel's code |
| InviteSecrecy.JoinTells | internal/realtime/events.go:98-125 | a code that a join sends goes to the joiner only, and the joiner owns the channel |
| InviteSecrecy.ReplyGoesToOwner | internal/realtime/events.go:92-112 | under every interleaving, the reply that a commit builds bears a code only if the joiner owns the private channel, and then its code |
| InviteSecrecy.OneReaderPerLife | internal/realtime/events.go:92-112 | under every interleaving, all replies with a code within one life of a channel go to one sid and show one code |
| InviteSecrecy.OwnerIsSentTheCode | internal/realtime/events.go:92-112 | in every run the reply of a commit with a seat carries the channel's code exactly when the channel is private and the joiner's own, and shows count, ownership, privacy and PIN flag as the maps hold them |
| InviteSecrecy.CreatorLearnsTheCode | internal/realtime/hub.go:395-416 | whoever creates a private channel is sent the code of that creation in the reply to the join |
| InviteSecrecy.CreatedHistory | internal/realtime/hub.go:386-458 | while a channel lives whose creating join asked for privacy, an outsider passes exactly as its creator, with the code of the creating step, or with the last PIN that the creator brought |
| InviteSecrecy.SentCodeOpens | internal/realtime/hub.go:443-456 | a code that was sent in a reply, typed by anyone while the channel lives, gets past the gate |
| HubObject.Hub.TouchChannelLocked | internal/realtime/hub.go:330-343 | the in-place update is the specified touch of one entry |
| HubObject.Hub.MarkChannelEmptyLocked | internal/realtime/hub.go:345-362 | the in-place update is the specified marking, keeping an earlier empty time |
| HubObject.Hub.LeaveNoBroadcast | internal/realtime/hub.go:558-577 | the object's new maps are those of the leave region, and the old room and name are returned |
| HubObject.Hub.PrepareChannelJoinLocked | internal/realtime/hub.go:386-458 | the object's new maps and the verdict are those of the screening, which HubLaws.GateCreates, GateMeets and GateRefuses give field by field |
| HubObject.Hub.GateJoin | internal/realtime/events.go:59-73 | first region of a join: the object computes the gate |
| HubObject.Hub.CommitJoin | internal/realtime/events.go:80-112 | third region of a join: the object computes the commit, and the reply reads room, members, count, visibility, privacy, ownership and PIN flag off the new maps, with the invite code exactly for the owner of a private channel |
| HubObject.Hub.JoinRoom | internal/realtime/events.go:50-128 | a join run without interruption leaves exactly the maps and the inboxes of the specified handler |
| HubObject.Hub.LeaveChannel | internal/realtime/events.go:130-136 | a leave leaves exactly the maps and the inboxes of the specified handler |
| HubObject.Hub.UpdateName | internal/realtime/events.go:138-158 | a rename leaves exactly the maps and the inboxes of the specified handler |
| HubObject.Hub.Remove | internal/realtime/hub.go:129-146 | a removal leaves exactly the maps and the inboxes of the specified handler, drops the quality record, and closes the Send channel iff the client was still registered, as the interleaved removal step does |
| HubObject.Hub.BroadcastTo | internal/realtime/hub.go:160-178 | a broadcast reaches exactly the registered members of the room other than the skipped sid, once each |
| HubObject.Hub.SendTo | internal/realtime/hub.go:148-158 | a send reaches its client if registered and nobody else |
| HubObject.Hub.AddClient | internal/realtime/hub.go:114-127 | an open hub starts the client with an empty inbox and a new empty quality record and changes nothing else; a closed one refuses it; both as the interleaved registration step does |
| HubObject.Hub.Close | internal/realtime/hub.go:90-112 | the first call empties every map and closes exactly the registered clients' channels, a later call does nothing, as the interleaved step does |
| HubObject.Hub.CleanupExpiredChannels | internal/realtime/hub.go:364-384 | deleting while walking the entries in any order computes the specified sweep and its list of expired rooms |
| HubObject.Hub.MembersLocked | internal/realtime/hub.go:534-547 | the list holds exactly the room's known sids, each with its name, in ascending order and none twice, whatever order the set is walked in |
| HubLaws.TouchLaw | internal/realtime/hub.go:330-343 | the touched entry counts its members now, is active now and not empty; a new one is public and nobody's; all else stays |
| HubLaws.MarkEmptyLaw | internal/realtime/hub.go:345-362 | the marked entry counts nobody, keeps an earlier empty time and expires a TTL after it; all else stays |
| HubLaws.LeaveLaw | internal/realtime/hub.go:558-577 | leaving takes one sid out of users and its room, drops an emptied room, and sets count, activity, empty time and expiry of that room's entry; all else stays |
| HubLaws.GateCreates | internal/realtime/hub.go:386-416 | the first join to a room creates its channel as asked for: private with the code, and with the PIN if one is given, or public with neither, owned by the caller |
| HubLaws.GateMeets | internal/realtime/hub.go:418-457 | of an existing channel the owner, or whoever finds it ownerless, may turn it private and set its PIN; nobody else changes it |
| HubLaws.GateRefuses | internal/realtime/hub.go:443-456 | PRIVATE_CHANNEL exactly for an outsider who is not the owner and has neither code nor PIN; else ROOM_FULL exactly for a newcomer at the cap |
| HubLaws.GateFrame | internal/realtime/events.go:59-73 | the gate changes no user, no room and no other entry |
| HubLaws.CommitLaw | internal/realtime/events.go:89-91 | with a free seat a commit adds the sid with its name, room and time and changes no other user or room |
| HubLaws.CommitTouches | internal/realtime/events.go:91-92 | it touches the room's entry, and makes a public one without owner if there is none |
| HubLaws.CommitRefused | internal/realtime/events.go:84-88 | without a free seat it changes no user and no entry |
| HubLaws.RenameLaw | internal/realtime/events.go:138-152 | a rename changes one name and nothing else, and an empty one nothing at all |
| HubLaws.RoomStateLaw | internal/realtime/events.go:92-125 | each field of the joiner's room_state is read off the maps; the code is there exactly for the owner of a private channel |
| HubLaws.RefusalTells | internal/realtime/events.go:53-71 | a joiner refused at the gate, and nobody else, is told BAD_CHANNEL, PRIVATE_CHANNEL or ROOM_FULL, as the case is |
| HubLaws.SecondRefusalTells | internal/realtime/events.go:84-88 | a joiner refused by the second capacity check is told ROOM_FULL |
| HubLaws.LeaveTells | internal/realtime/events.go:130-136 | exactly the others of the room are told who left, under the name it had, on a leave and on a removal |
| HubLaws.RenameTells | internal/realtime/events.go:138-158 | exactly the others of the room are told the new name, and nobody of an empty one |
| MemberLists.MemberListAsMap | internal/realtime/hub.go:534-547 | the list shows exactly the known members with their current names |
| MemberLists.MemberListLaw | internal/realtime/hub.go:534-547 | the list goes up by sid and holds exactly the known members under their names |
| MemberLists.SortedSidsUnique | internal/realtime/hub.go:534-539 | any ascending arrangement of the sids is the one listed |
| ChannelText.InviteCodeRoundTrip | internal/realtime/hub.go:476-512 | whatever spelling of a code is typed, as long as its upper case is the code, and with any white space around it, cleans to the code |
| ChannelText.CleanPinIsStable | internal/realtime/hub.go:491-517 | a cleaned PIN is at most twelve digits and cleaning again, as hashing does, changes nothing |
| ChannelText.CleanSecretAlphabet | internal/realtime/hub.go:476-489 | a cleaned secret has at most 64 characters, all capital letters, digits, '-' or '_' |
| ChannelText.CleanChannelSecret | internal/realtime/hub.go:476-489 | the loop computes the cleaner that the round trip is about |
| ChannelText.CleanChannelPin | internal/realtime/hub.go:491-504 | the loop computes the cleaner that the PIN facts are about |
| ChannelText.FirstNonEmptyString | internal/realtime/hub.go:519-526 | the result is the first value that is not blank, or empty if all are |
| HubModel.OfferIsClean | internal/realtime/hub.go:386-408 | whatever the text fields of a request hold, the gate works with a definite visibility and a PIN of at most twelve digits |
| HubModel.RequestLaw | internal/realtime/hub.go:387-408 | which request field the gate reads for visibility, PIN and secret: the first that says something, in this order |
| ChannelText.VisibilityLaw | internal/realtime/hub.go:465-474 | private, locked and secret ask for a private channel, public and open for a public one, in any letter case and with space around; anything else says nothing |
| ChannelText.UpperSpells | internal/realtime/hub.go:477 | which spellings have a given upper case, letter by letter |
| ChannelText.TrimLaw | internal/realtime/hub.go:477 | trimming takes white space off both ends and nothing else |
| ChannelText.SecretKeeps | internal/realtime/hub.go:476-489 | a secret of capitals, digits, '-' and '_' comes out as it is, up to 64 characters |
| ChannelText.SecretDrops | internal/realtime/hub.go:479-483 | any other character that is no small letter makes no difference |
| ChannelText.PinKeeps | internal/realtime/hub.go:491-504 | a PIN of digits comes out as it is, up to twelve |
| ChannelText.PinDrops | internal/realtime/hub.go:494-498 | any other character makes no difference |
| Snapshot.SnapshotIsDeterministic | internal/realtime/hub.go:306-314 | two sorted arrangements of the entries of one state are the same list, so map order never shows |
| Snapshot.CountsMatchMembers | internal/realtime/hub.go:267-316 | in every reachable state each entry's count is the number of members it lists, and these are the room's members under their current names |
| Snapshot.ExpiryIsTheHubs | internal/realtime/hub.go:280-297 | in every reachable state the empty time and the expiry shown are the ones the hub keeps for the channel, they are shown only for empty channels, and an empty channel shown without expiry has a join to it under way |
| Snapshot.BeforeIsOrder | internal/realtime/hub.go:306-314 | the comparison is a total order that ties only on equal names |
| Snapshot.ChannelsSnapshot | internal/realtime/hub.go:267-316 | the list has every channel once, fuller ones first, among them the more recently active, among these by name, and each entry shows count, members, visibility, owner, PIN flag and times as the maps hold them |
| Snapshot.SnapshotLaw | internal/realtime/hub.go:267-316 | the same of every snapshot, however it was made |
| RateWindow.ExactSlidingWindow | internal/store/rate_store.go:100-117 | a call whose reading is not behind an earlier one of its key is admitted iff the whole log of the key's admissions has fewer than limit readings later than now - window |
| RateWindow.RefusalsAreJustified | internal/store/rate_store.go:112-125 | whatever the order of the readings, and even if the key is evicted, the whole log justifies each refusal |
| RateWindow.AdmissionsAreJustified | internal/store/rate_store.go:101-117 | a call whose reading is at most skew behind is admitted only if the whole log has fewer than limit readings in the window shortened by skew |
| RateWindow.AdmissionsWithinLimit | internal/store/rate_store.go:100-117 | if no reading of the key is more than skew behind an earlier one, no interval of length window - skew in any run holds more than limit admissions; in order, no interval of a window's length does |
| RateWindow.SkewBoundIff | internal/store/rate_store.go:101-117 | for limits of at least 2 that bound holds of every run for exactly the lengths up to window - skew |
| RateWindow.ListShowsLog | internal/store/rate_store.go:104-117 | from any cutoff that is not below that of a call so far the pruned list holds exactly the later entries of the whole log, in order |
| RateWindow.KeysBounded | internal/store/rate_store.go:112-126 | after every call of every run at most 50000 keys are stored, whatever the order of the readings |
| RateWindow.EvictionLaw | internal/store/rate_store.go:118-125 | keys are evicted only by an admission beyond 50000 of them, and down to 45000 |
| RateWindow.DecideLaw | internal/store/rate_store.go:104-117 | a call leaves exactly the readings later than now - window, and its own if fewer than limit of these are there |
| RateWindow.LaterMeans | internal/store/rate_store.go:107-111 | pruning leaves each later reading as often as before and no other |
| RedisScript.TwoLimitersOneMeaning | internal/store/rate_store.go:15-28 | the script and the local limiter give the same answer on every call of every run, for every limit and also with readings out of order, if and only if no script runs later after its caller's reading than the time to live exceeds the window |
| RedisScript.LateScriptDiffers | internal/store/rate_store.go:86-91 | past that delay two calls with limit 1 and readings in order are answered differently: the second script finds the key expired |
| RedisScript.CoversMeans | internal/store/rate_store.go:88 | without delay the condition is a window of at least half a second; for windows of whole seconds it is a delay of at most one window |
| RedisScript.PresentShows | internal/store/rate_store.go:26 | an expired key has lost only entries whose readings are at least a time to live before the present script |
| RedisScript.ScriptAdmits | internal/store/rate_store.go:22-27 | with fewer than limit live entries the script keeps them, adds the call's own and renews the expiry |
| RedisScript.ScriptRefuses | internal/store/rate_store.go:22-24 | otherwise it keeps them and the expiry and adds nothing |
| RedisScript.ScriptStep | internal/store/rate_store.go:15-28 | one run of the script, also when it runs again for the same call, goes on showing the whole log from every cutoff that neither it nor the expiry has passed, and decides by the log there |
| RedisScript.LocalStep | internal/store/rate_store.go:100-117 | one local call does the same |
| CheckRuns.AtMostTwiceTheLimit | internal/store/rate_store.go:82-163 | for any interleaving of calls and any pattern of replies, errors before and after the script ran, scripts that run again or after their caller gave up, and breaker openings, at most 2 * limit calls are admitted in any interval of length window - skew, if no script is later after its reading than the time to live exceeds that length |
| CheckRuns.TwiceTheLimitIff | internal/store/rate_store.go:82-163 | with Redis configured, that bound holds of every run if and only if this condition on the delay holds |
| CheckRuns.ThreeTimesTheLimit | internal/store/rate_store.go:82-97 | past it some run admits three times the limit in such an interval: Redis twice, across an expiry, and the fallback once |
| CheckRuns.BoundIsTight | internal/store/rate_store.go:86-97 | the factor 2 is attained for every limit: some run admits limit calls by Redis and limit by the fallback at one instant |
| CheckRuns.DelayBoundsSkew | internal/store/rate_store.go:86-90 | a skew of at least the delay asks nothing of the order of the readings at Redis |
| CheckRuns.BreakerDeadline | internal/store/rate_store.go:129-163 | in every run the breaker has a deadline iff the consecutive failures have reached the threshold |
| CheckRuns.BreakerHistory | internal/store/rate_store.go:139-163 | in every run the counter is the number of failures in a row, pings included, and from the threshold on the deadline is the open time after the last of them |
| CheckRuns.AsksRedisIffClosed | internal/store/rate_store.go:86-137 | a new call asks Redis iff a client exists and no deadline, set by enough failures in a row, lies ahead |
| CheckRuns.StepKeeps | internal/store/rate_store.go:82-163 | every step of every call keeps both stores showing their logs, both logs within the limit, each admission in a log, each reading its call's own, and the breaker's link |
| RateStoreObject.Compact | internal/store/rate_store.go:105-111 | filtering into the front of the same array keeps exactly the later readings, in order |
| RateStoreObject.Append | internal/store/rate_store.go:116 | appending in place or into a grown array adds the reading at the end |
| RateStoreObject.RateStore.Settle | internal/store/rate_store.go:104-117 | only this key's readings change, to what the specification says, although arrays are reused, and no two keys come to share one |
| RateStoreObject.RateStore.CheckLocal | internal/store/rate_store.go:100-127 | answer, table and evicted keys are those of one step of the runs above |
| RateStoreObject.EvictKeys | internal/store/rate_store.go:118-125 | deleting in any order stops at 45000 keys and leaves the readings of the rest |
| RateStoreObject.RateStore.MarkRedisSuccess | internal/store/rate_store.go:139-144 | success clears failures and deadline |
| RateStoreObject.RateStore.MarkRedisFailure | internal/store/rate_store.go:146-163 | a failure counts, moves the deadline iff the threshold is reached, and keeps the breaker's link |
| RateStoreObject.RateStore.Check | internal/store/rate_store.go:82-98 | a limit of 0 or less refuses; Redis is asked exactly with a client and no deadline ahead; the local table changes only when Redis is absent, skipped or failed, and then as one local call with its eviction rule; failures and deadline change as the steps of that call do in the concurrent system |
| QualityScore.ClampsAreRedundant | internal/realtime/hub.go:684-703 | the sum before rounding lies between 0 and 100, so neither clamp ever acts |
| QualityScore.OrderDoesNotMatter | internal/realtime/hub.go:651-705 | the whole report depends on which samples and outcomes there are, not on their order |
| QualityScore.ConstantDelay | internal/realtime/hub.go:651-705 | adding one constant of at least 0 to all samples leaves the jitter as it is and never raises the score |
| QualityScore.DropNeverHelps | internal/realtime/hub.go:674-703 | with samples fixed, turning a success into a drop never raises the score |
| QualityScore.Compute | internal/realtime/hub.go:651-705 | the loops over the sorted copy compute the report that these laws are about; the latency shown is a middle of the samples to one decimal, and without samples the report is 100, 0, 0, 0 |
| QualityScore.MedianLaw | internal/realtime/hub.go:655-661 | the median of any samples lies in their middle |
| QualityScore.MeanLaw | internal/realtime/hub.go:662-666 | the deviations from the mean cancel out |
| QualityScore.JitterOfTwo | internal/realtime/hub.go:667-673 | for two samples the square of the jitter is half the square of their difference |
| QualityScore.DropPctLaw | internal/realtime/hub.go:674-683 | the drop rate is the percentage of failures among the outcomes |
| QualityScore.LatencyTable | internal/realtime/hub.go:684-689 | latency earns 50 up to 100 ms, 25 at 400 ms, nothing from 600 ms on |
| QualityScore.DropTable | internal/realtime/hub.go:690 | drops earn 30 without any, nothing from 50 percent on |
| QualityScore.JitterTable | internal/realtime/hub.go:691-696 | jitter earns 20 up to 20 ms, 10 at 150 ms, nothing from 250 ms on |
| QualityScore.PartsRunStraight | internal/realtime/hub.go:684-696 | between these entries the parts run straight |
| QualityScore.MoreJitterNeverHelps | internal/realtime/hub.go:691-703 | with samples and outcomes fixed, more jitter never raises the score |
| QualityScore.ReportLaw | internal/realtime/hub.go:697-704 | the score is the rounded sum of the three parts, and the numbers behind it are shown to one decimal |
| QualityScore.RoundLaw | internal/realtime/hub.go:697 | rounding goes to the nearest whole number, halves away from zero |
| QualityScore.MedianOf | internal/realtime/hub.go:655-661 | no more than half of the samples lie below the result and no more than half above; it is a sample if their number is odd, and midway between the two middle ones otherwise |
| QualityScore.JitterOf | internal/realtime/hub.go:667-673 | the result is the sample standard deviation: non-negative, its square the summed squared distances over n - 1 |
| Pings.PingConservation | internal/realtime/hub.go:597-649 | every issued ping is pending or was settled exactly once, by pong or timer; samples equal successes; the stored lists are the last five of the full histories; samples are never negative |
| Pings.LateAddsNothing | internal/realtime/hub.go:618-645 | a pong or timer for a nonce already settled or never issued changes no record |
| Pings.TimerNeverRaises | internal/realtime/hub.go:611-624 | in every run a timer leaves the samples alone and never raises the score, also when the list of outcomes drops its oldest one |
| Pings.ShownDropIsTrueIff | internal/realtime/hub.go:651-683 | in every run the drop rate shown is the rate of the kept outcomes iff some pong has come in time or nothing is settled yet |
| Pings.LastOfAppend | internal/realtime/hub.go:707-721 | keeping only the last five entries loses nothing that later appends would show |
| Pings.RoundTripLaw | internal/realtime/hub.go:643 | a sample is the whole milliseconds from ping to pong |
| Pings.PongLaw | internal/realtime/hub.go:640-645 | a pong in time removes its nonce and adds its sample and a success at the end of the last five; any other changes nothing |
| Pings.TimeoutLaw | internal/realtime/hub.go:618-621 | a timer that finds its ping pending removes it and adds a failure at the end of the last five; any other changes nothing |
| Pings.IssueLaw | internal/realtime/hub.go:601-608 | a ping adds its nonce with the clock and changes nothing else |
| Pings.QualityState.SendPing | internal/realtime/hub.go:601-609 | the record gets the new nonce and nothing else changes |
| Pings.QualityState.HandlePong | internal/realtime/hub.go:629-649 | the record changes as the protocol says; the report is on the lists afterwards |
| Pings.QualityState.HandleTimer | internal/realtime/hub.go:611-625 | the record changes as the protocol says; the report is on the lists afterwards |
| Sdp.SdpNormalForm | internal/realtime/screen.go:272-314 | a non-empty output starts with v=0, has only lines x=... with a type letter of section 5 of RFC 8866 and no control character, and ends each line with CRLF |
| SdpLaws.LineEndsDoNotMatter | internal/realtime/screen.go:276-283 | lines ended by LF, CR, CRLF or one of the three escaped forms give the same output: those that are kept, from v=0 on |
| SdpLaws.PlainLineKept | internal/realtime/screen.go:284-296 | a line that is no ssrc line is kept as it is if it is a type letter and '=' and more, and dropped otherwise |
| SdpLaws.KeptInOrder | internal/realtime/screen.go:283-297 | lines are kept or dropped one by one, in order |
| SdpLaws.ControlDropped | internal/realtime/screen.go:284 | a control character in a line, other than tab and line ends, makes no difference |
| SdpLaws.OuterSpaceDropped | internal/realtime/screen.go:284 | white space around a line makes no difference |
| SdpLaws.RewriteCollapses | internal/realtime/screen.go:288-292 | an ssrc line with msid comes out with single spaces and without what follows the second word, whatever its gaps |
| SdpLaws.OthersStay | internal/realtime/screen.go:288 | a line that does not start like an ssrc line is not rewritten |
| SdpLaws.FromVersionLaw | internal/realtime/screen.go:301-313 | the output starts at the first kept line v=0; without one it is empty |
| SdpLaws.PayloadLaw | internal/realtime/screen.go:265-271 | of an object the text under sdp counts, and that under value only if the first gives nothing |
| Sdp.SecondPassIdleIff | internal/realtime/screen.go:272-314 | for every input a second pass changes nothing iff the output has no backslash before n or r and no line of it ends in white space |
| Sdp.SdpIdempotent | internal/realtime/screen.go:272-314 | on text whose only control characters are tab, CR and LF and whose white space is ASCII, normalising is idempotent |
| Sdp.TwoPassesSettle | internal/realtime/screen.go:272-314 | on text with either of these two properties a third pass never changes what the second gave |
| Sdp.ThreePassesSettle | internal/realtime/screen.go:272-314 | a fourth pass never changes what the third gave, for every input |
| Sdp.SecondPass | internal/realtime/screen.go:272-314 | on lines without escapes the second pass trims the end of each line and does nothing else |
| Sdp.PayloadSettles | internal/realtime/screen.go:265-271 | what an object payload gives is settled after two more passes, whichever field is used |
| SdpInputs.ControlCharacterHidesAnEscape | internal/realtime/screen.go:276-284 | an input with ASCII white space only on which the second pass changes the output: a control character between a backslash and an n |
| SdpInputs.NoBreakSpaceStays | internal/realtime/screen.go:284-290 | an input without control characters on which the second pass changes the output: a no-break space at the end of the second msid word |
| SdpInputs.TwoPassesAreNotEnough | internal/realtime/screen.go:276-290 | both at once: an input on which the third pass still changes the output |
| Sdp.CleanSdp | internal/realtime/screen.go:272-314 | the split, the filter loop, the search for v=0 and the join compute the normaliser these facts are about |
| Sdp.GoodLinesAreFixed | internal/realtime/screen.go:281-314 | well-formed lines from v=0 on, without escapes and without white space at their ends, come back as they are |
| Sdp.CleanLineGood | internal/realtime/screen.go:283-296 | every line kept is typed, free of control characters, and either trimmed and not to be rewritten or in the rewritten form; it ends in white space only if the line held some beyond ASCII |
| SdpText.MatchCanonical | internal/realtime/screen.go:288-292 | the msid pattern finds its own groups again in the rewritten line |
| SdpText.RewriteTwice | internal/realtime/screen.go:288-292 | rewriting a line twice is rewriting it once |
| Sdp.CanonicalTrims | internal/realtime/screen.go:284-292 | a rewritten line that is trimmed has nothing left to rewrite, even when its whole second word was white space |
| SdpText.SplitJoin | internal/realtime/screen.go:283-314 | splitting joined lines gives the lines back |

## Left out

- HTTP handlers, CORS, Supabase, Mapbox configuration, readiness and keep-alive: I/O plumbing.
- AI chat, voice messages and chunks, message acknowledgements: single-branch forwarding.
- Screen sharing: its events are not dispatched, so the `screens` map stays empty and stopping a share on removal has no effect; only `cleanSDP` is kept.
- The WebSocket pumps: kept only are that one sid's events are handled in order and that removals of it can come at any time, any number of times.
- Logging, statistics, the `connected`, `channels_state` and `channels_expired` envelopes.
- Records behind pointers (`User`, `ChannelState`): they are values in the hub object's maps, so an update writes the record back; aliasing of one record by two goroutines is not modelled, since all writes are under the lock.
- Room and name arrive cleaned (an empty room gives BAD_CHANNEL, an empty new name is ignored); truncation and the fallback to a sid prefix in `CleanRoom` and `CleanName` are not modelled. JSON coercion of other field types to text is not modelled.
- Randomness: sids and nonces are fresh non-empty values, invite codes are any value of their shape, member ids are fresh.
- SHA-256 is an injective function of the cleaned PIN.
- Clock readings are parameters. The hub's do not go back, and a reading taken before a lock is not later than the lock; the limiters' may be behind as stated. `LastActive` may still go back under interleaving, and nothing is claimed of it.
- Text is a sequence of code points. White space is that of Unicode; upper and lower case reach the letters that can end in ASCII, which are the only ones the cleaners keep or compare. Text that is not valid UTF-8 is not modelled.
- Floating point: scores and Redis timestamps are exact; the square root is known by its law only.
- Full Send queues: a slow consumer appears in the interleaved system as one more removal, and in the replication theorem no queue is full. When broadcasts of different handlers interleave rosters can diverge; no claim is made there.
- A sweep between the regions of a join can make the commit recreate the channel as public and without owner; the model has this, and the private-channel theorems speak of one life of an entry.
- HubObject.Hub.AddClient: `Register` is a step of the interleaved system only; the goroutine that sends the pings is in `Pings`.
- HubRuns.SendClosedAtMostOnce: the register channel is a set with its capacity of 256, taken from in any order.
- RateWindow.ExactSlidingWindow: assumes the key is not evicted and always checked with one limit and window; with eviction `RefusalsAreJustified` is what remains.
- CheckRuns.AtMostTwiceTheLimit: one server process and one key with fixed limit and window, and no local eviction of the key.
- RedisScript.TwoLimitersOneMeaning: Redis measures its expiry by a clock that runs at the rate of the caller's, in units finer than its milliseconds, and a key is gone from the instant of its expiry on.
- Snapshot.ChannelsSnapshot: uses one clock reading for the list and the remaining times, where the code reads the clock again per entry.
- Pings.PingConservation: one client's record over its life; removal of the record, after which pongs and timers do nothing, is not modelled.
