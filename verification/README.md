# Rekindle: verified models of the community server and its clients

The community server keeps every hosted community twice, as vectors in memory and as rows in SQLite, and answers some
twenty kinds of request by changing both. Around it, tasks race for the private routes of the communities and for two
locks; on the client, a jitter buffer, a voice gate, a mixer, a permission check and a message list do their work in
place. This project models these parts and proves what they are relied on for, over all inputs, all runs and all
interleavings. `dafny verify dfyconfig.toml` checks everything.

## How it is built

**The community as a value.** `CommunityModel` holds one community as maps and sets (`Community`) and says for each
request what it does: `Decide` gives the `Effect` and the answer, `Apply` carries the effect out. The permission
calculation behind it is in `Permissions`: a `u64` mask is the set of its one bits, and `Effective` is the meaning of the
calculation, free of any order. `EffectsAreWarranted` says under which checks each effect can come about at all; the
theorems about runs rest on that, not on the bodies of the handlers.

**The tables as a value.** `Database` holds the tables with their keys, CHECKs and cascades as a value, one function per
statement, `Persist` for the statements behind each effect, and `Hosted` for what hosting reads back.

**The running server as a value.** `LiveServer` puts the two together (`Live`). A step is a request, which changes both,
or a restart, which throws the memory away and rebuilds it from the tables, so that whatever they do not hold, or hold
in a form that cannot be read back, is gone. `Run` is any sequence of steps. `InSync` says what memory and tables share
in every reachable state, even when something has been lost.

**What a member sees.** `Requests` says of every request, on the running server, exactly when it is granted, what memory
holds afterwards and which error answers it otherwise, in terms of records, roles and numbers. `HandedKeys` says which
key goes out, from requests and answers alone, and `RoleIdTexts` which texts name which role.

**The server in place.** `Server` is a class with the vectors and the tables as fields and one method per handler.
Each is proved to do to memory (`View`) and to the tables exactly what the effect says, over vectors in any order.
`Hosting` has the loaders; `Dispatch` puts handlers and restarts together and proves that every run of the class,
whatever is asked of it, is a run of `LiveServer`, from an empty database on.

**Theorems about every run.** `RosterIntegrity`, `KeyFreshness`, `RankPreservation`, `Moderation`, `StoreAgreement` and
`RestartTransparency` are about these runs, restarts included, and so, by `Dispatch.HandleAll`, about the class.
`MessagePaging` is about every stored history. `Likeness` has the communities that differ only in expired timeouts.

**Concurrency.** `RouteProtocol` interleaves all tasks that touch a route, one lock section or network call at a time;
`RouteRefresh` says what each of these tasks achieves.
`LockOrder` sees every task as its acquisitions and releases of the two locks, a waiting writer keeping new readers out;
`LockCoverage` ties these to what the requests change.

**Clients.** `JitterBuffer`, `VoiceActivity`, `AudioMixer`, `ClientPermissions` and `HistoryMerge`.

`Common`, `KeyedVec` (a vector of keyed records and the map it stands for) and `Sorting` (a stable sort) are shared.

## What the proofs turned up

Where the code does not do what its documentation, or a first reading, promises. Each entry names the lemma with the
exact condition, and where the condition is not itself an input, the one with an input.

- Masks and timeouts with bit 63, and overwrites for a target type other than "role" or "member", are accepted in memory
  and lost by the tables: `StoreAgreement.EffectStored`. The next restart loses exactly these:
  `RestartTransparency.UnstorableEffectsAreLost`. So a restart can undefine @everyone
  (`RosterIntegrity.EveryoneStaysDefinedIff`) and end a timeout (`Moderation.RestartUnmutesIff`).
- Whoever may manage roles may raise one below its own rank above everybody, and with it itself if it holds that role: the
  new position is never checked. `RankPreservation.MovingARoleKeepsCapIff`; a member without the administrator bit does it
  in `RankPreservation.OvertakingWithoutAdministrator`.
- A creator who leaves stays on record as creator, and so can ask for the new key; nobody else outside can:
  `KeyFreshness.OutsidersHoldOldKeys`, `KeyFreshness.CreatorKeepsTheKey`.
- docs/security.md names "MEK rotation on membership change" against removed members; that holds for departures only, and
  a joiner is handed the current key: `KeyFreshness.GenerationGrowsIff`.
- The comment on the permission calculation has role overwrites allow first and deny after; the code denies first. The
  two agree if and only if no bit is both allowed and denied: `Permissions.DocumentedOrderAgreesIff`,
  `Permissions.DocumentedOrderDiffers`.
- A timed-out member writes in a channel if and only if it has the administrator bit there, which a member overwrite can
  give it: `Moderation.MutedSendsOnlyAsAdmin`, `Moderation.OverwriteUndoesTimeout`. Leaving and joining again removes the
  timeout: `Moderation.MutedStepIff`, `Moderation.RejoiningClearsTimeout`.
- Deleting the Member role does not stop it from being given to joiners: `RosterIntegrity.JoinerHoldsUndefinedRole`.
- A founder with the empty pseudonym leaves a community that has members but no creator: `RosterIntegrity.RosterStep`.
- Banning somebody who is no member answers 403, and the ban stands: `Moderation.RefusedBanStands`.
- Asking for the messages before the oldest one received loses messages when a page ends between two with the same
  timestamp, and only then: `MessagePaging.ReaderGetsEverything`.
- A timeout whose end has more than 64 bits wraps and may be over at once: `Requests.TimeoutMemberDoes`.
- After one lost voice packet, and with everything later arriving in order, the jitter buffer never delivers again, and
  trimming does not help: `JitterBuffer.LossSilencesPlayback`. On a full buffer even the late packet itself can be
  trimmed at once: `JitterBuffer.GapLemma`.
- Custom roles with unlike bits from bit 31 up are combined wrongly by the client, unless one role has them all:
  `ClientPermissions.CombinedIsUnionIff`, `ClientPermissions.UnlikeHighPartsLoseBits`.

## Model

| member | source | states |
|---|---|---|
| Permissions.OrRolePermissions | crates/rekindle-protocol/src/dht/community.rs:480-495 | the loop over role ids gives the union of the masks of @everyone and of every held role that is defined, whatever the order and repeats |
| Permissions.ApplyMatching | crates/rekindle-protocol/src/dht/community.rs:506-514 | scanning the overwrites for one target applies its deny bits, then its allow bits, or nothing if there is none |
| Permissions.RoleOverwrites | crates/rekindle-protocol/src/dht/community.rs:516-532 | the accumulated allow and deny bits are those of the overwrites that name a held role other than @everyone, in any order |
| Permissions.CalculatePermissions | crates/rekindle-protocol/src/dht/community.rs:473-564 | the eight steps over vectors in any order compute the order-free meaning `Effective`: administrator override, overwrites, timeout, hidden channel |
| Permissions.EffectiveBit | crates/rekindle-protocol/src/dht/community.rs:473-564 | for whoever is no administrator: a bit is granted if and only if it and the view bit survive timeout, member overwrite, held roles' overwrites, @everyone's overwrite and roles, in that precedence |
| Permissions.DocumentedOrderAgreesIff | crates/rekindle-protocol/src/dht/community.rs:466-466 | applying the held roles' overwrites in the documented order gives the same mask if and only if no bit is both allowed and denied |
| Permissions.DocumentedOrderDiffers | crates/rekindle-protocol/src/dht/community.rs:516-534 | two roles that allow and deny the same bit: granted by the code, not by the documented order |
| RoleIdTexts.ParsesIff | crates/rekindle-protocol/src/dht/community.rs:520-527 | a text is read as a role id if and only if it is that number in decimal, behind a plus sign and zeros or not, and the number has 32 bits |
| RoleIdTexts.OverwriteNamesItsRole | crates/rekindle-protocol/src/dht/community.rs:520-527 | an overwrite for a role, its id written out, counts for exactly the holders of that role, @everyone excepted |
| RoleIdTexts.HeldRolesBits | crates/rekindle-protocol/src/dht/community.rs:516-532 | the bits held roles allow and deny are those of the overwrites whose text spells a held role |
| CommunityModel.EffectsAreWarranted | crates/rekindle-server/src/rpc.rs:585-2172 | every effect any request can have comes with its checks passed: who may remove, rank, time out, post and rotate, with which generation and which role id |
| CommunityModel.NextRoleId | crates/rekindle-server/src/rpc.rs:1551-1551 | the id of a new role is above every defined one |
| CommunityModel.TopPosition | crates/rekindle-server/src/rpc.rs:67-82 | a rank is held by one of the defined roles among those listed, and none of them is higher; -1 without any |
| CommunityModel.Founding | crates/rekindle-server/src/rpc.rs:624-664 | the first joiner of a new community becomes creator with roles 0 to 4, is told so, and ranks 4 or more |
| Requests.ClearedIs | crates/rekindle-server/src/rpc.rs:44-64 | the creator may do anything, an administrator too, any other member what some role of it or @everyone grants, given the view bit and unless a timeout takes it |
| Requests.MaySendIs | crates/rekindle-protocol/src/dht/community.rs:473-564 | who may write in a channel, bit by bit: timeout, member overwrite, overwrites of held roles, overwrite of @everyone, roles |
| Requests.RankIs | crates/rekindle-server/src/rpc.rs:67-82 | a rank is the greatest position among the held defined roles, -1 without any |
| Requests.JoinDoes | crates/rekindle-server/src/rpc.rs:707-801 | 403 for the banned; a member gets the current key, its roles and a new route; anybody else an entry with roles 0 and 1, or 0 to 4 and the creator's place on an empty roster |
| Requests.SendMessageDoes | crates/rekindle-server/src/rpc.rs:807-900 | the message is appended if and only if its sender may write there (bit 11) and used the current generation; 403 and 409 otherwise |
| Requests.ReadingDoes | crates/rekindle-server/src/rpc.rs:985-1005 | key, history, bans and roles go to whoever may ask, as memory has them, and nothing changes |
| Requests.LeaveDoes | crates/rekindle-server/src/rpc.rs:1011-1077 | a member or the creator leaves: off the roster, next generation, the event's key |
| Requests.KickDoes | crates/rekindle-server/src/rpc.rs:1079-1111 | granted exactly when permission, another target, a lower rank and membership are given; then the target is out and the key new |
| Requests.BanDoes | crates/rekindle-server/src/rpc.rs:1384-1439 | as a kick, with the ban recorded; without a member to remove it stays recorded and the answer is 403 |
| Requests.UnbanDoes | crates/rekindle-server/src/rpc.rs:1441-1477 | whoever may ban lifts a ban, and nothing else changes |
| Requests.RotateMekDoes | crates/rekindle-server/src/rpc.rs:1270-1311 | whoever may manage the community makes the event's key the next generation's |
| Requests.CreateChannelDoes | crates/rekindle-server/src/rpc.rs:1117-1176 | a text or voice channel without overwrites at the end of the order; 403, 400 or 500 otherwise |
| Requests.DeleteChannelDoes | crates/rekindle-server/src/rpc.rs:1178-1216 | the channel goes, for whoever may manage channels |
| Requests.RenameChannelDoes | crates/rekindle-server/src/rpc.rs:1218-1264 | the name changes and nothing else; 404 for an unknown channel |
| Requests.SetOverwriteDoes | crates/rekindle-server/src/rpc.rs:1909-1987 | afterwards the target's overwrite allows and denies what the request says, and all others are as before |
| Requests.DeleteOverwriteDoes | crates/rekindle-server/src/rpc.rs:1989-2035 | afterwards the target has no overwrite, and all others are as before |
| Requests.CreateRoleDoes | crates/rekindle-server/src/rpc.rs:1525-1594 | the role is there under an id above all others, just below the sender's rank but at 1 or above |
| Requests.EditRoleDoes | crates/rekindle-server/src/rpc.rs:1597-1694 | the fields named change and no others, for a role below the sender or an administrator; 404 and 403 otherwise |
| Requests.DeleteRoleDoes | crates/rekindle-server/src/rpc.rs:1696-1759 | the role goes from the definitions and from every member, and nothing else changes |
| Requests.AssignRoleDoes | crates/rekindle-server/src/rpc.rs:1761-1825 | when permission, rank, the role's position and membership allow it the target's roles are the old ones and this one; otherwise nothing changes |
| Requests.UnassignRoleDoes | crates/rekindle-server/src/rpc.rs:1827-1885 | likewise the role is gone from the target's roles; @everyone answers 400 |
| Requests.TimeoutMemberDoes | crates/rekindle-server/src/rpc.rs:2041-2114 | the target's timeout is now plus the duration, less 2^64 if the sum does not fit 64 bits |
| Requests.RemoveTimeoutDoes | crates/rekindle-server/src/rpc.rs:2116-2172 | the target, if a member, has no timeout afterwards |
| Requests.DeniedRoleCannotWrite | crates/rekindle-protocol/src/dht/community.rs:516-532 | an overwrite denying writing to a role keeps its holders from writing, whatever its id |
| Requests.SentIsRead | crates/rekindle-server/src/rpc.rs:807-983 | a message just accepted is the last of the page that any member asks for next |
| Requests.DefaultRolesGrant | crates/rekindle-protocol/src/dht/community.rs:376-458 | which bits each default role grants: a ladder, each with all of the one below |
| Requests.NewMemoryIs | crates/rekindle-server/src/community_host.rs:172-244 | hosting starts with the default roles, the first key under generation 1, and nobody |
| ServerState.HighestIsTop | crates/rekindle-server/src/rpc.rs:67-82 | the fold over a member's role list and the role vector gives the greatest position, whatever the order of either |
| ServerState.NextIdIsFresh | crates/rekindle-server/src/rpc.rs:1551-1551 | one more than the maximum over the role vector is the model's next id, and unused |
| Server.CommunityServer.MemberBasePermissions | crates/rekindle-server/src/rpc.rs:25-40 | community-wide permissions: the calculation without overwrites, and nothing for somebody off the roster |
| Server.CommunityServer.CheckPermission | crates/rekindle-server/src/rpc.rs:44-64 | passes for the creator and for whoever has the bit or the administrator bit |
| Server.CommunityServer.VerifyAndCheck | crates/rekindle-server/src/rpc.rs:171-189 | membership (or being creator) and the permission together |
| Server.CommunityServer.HighestRolePosition | crates/rekindle-server/src/rpc.rs:67-82 | computes the rank of a member, -1 off the roster |
| Server.CommunityServer.CheckHierarchy | crates/rekindle-server/src/rpc.rs:86-107 | the creator outranks everybody; anybody else needs a strictly greater rank, against the creator too |
| Server.CommunityServer.HandleRejoin | crates/rekindle-server/src/rpc.rs:555-608 | a member who joins again gets the current key and its own roles; only its route changes, in memory and row alike |
| Server.CommunityServer.AddNewMember | crates/rekindle-server/src/rpc.rs:610-705 | a new member gets roles 0 and 1, or 0 to 4 and the creator's place on an empty roster; rows and vector alike |
| Server.CommunityServer.HandleJoin | crates/rekindle-server/src/rpc.rs:707-801 | bans are checked first, then a rejoin, then a new entry, with the model's answer |
| Server.CommunityServer.HandleSendMessage | crates/rekindle-server/src/rpc.rs:807-900 | a message is stored exactly when its sender may write there and used the current generation; 403 and 409 otherwise |
| Server.CommunityServer.SelectRows | crates/rekindle-server/src/rpc.rs:926-965 | the loop over the stored messages selects the matching rows, in insertion order |
| Server.CommunityServer.NewestRows | crates/rekindle-server/src/rpc.rs:926-981 | sorting newest first, cutting and turning round gives the newest rows in time order: none left out is newer than one returned |
| Server.CommunityServer.HandleGetMessages | crates/rekindle-server/src/rpc.rs:902-983 | members get at most min(limit, 500) of the channel's rows below the bound, the newest ones, oldest first; others 403 |
| Server.CommunityServer.HandleRequestMek | crates/rekindle-server/src/rpc.rs:985-1005 | the current key and generation, to members and the creator only |
| Server.CommunityServer.RotateKey | crates/rekindle-server/src/mek.rs:34-63 | the next generation in memory and a row for it, unless that generation has one |
| Server.CommunityServer.HandleLeave | crates/rekindle-server/src/rpc.rs:1011-1077 | the member's entry and all its rows go, and the key rotates in the same step |
| Server.CommunityServer.HandleKick | crates/rekindle-server/src/rpc.rs:1079-1111 | permission, not oneself, rank, in that order; then a departure of the target |
| Server.CommunityServer.HandleBan | crates/rekindle-server/src/rpc.rs:1384-1439 | as a kick, with the ban recorded first, and recorded even when the target turns out to be no member |
| Server.CommunityServer.HandleUnban | crates/rekindle-server/src/rpc.rs:1441-1477 | the ban's row goes, nothing else |
| Server.CommunityServer.HandleGetBanList | crates/rekindle-server/src/rpc.rs:1479-1518 | the recorded bans, to whoever may ban |
| Server.CommunityServer.HandleRotateMek | crates/rekindle-server/src/rpc.rs:1270-1311 | a rotation for whoever may manage the community |
| Server.CommunityServer.HandleCreateChannel | crates/rekindle-server/src/rpc.rs:1117-1176 | a text or voice channel at the end of the order; an id already stored answers 500 and changes nothing |
| Server.CommunityServer.HandleDeleteChannel | crates/rekindle-server/src/rpc.rs:1178-1216 | the channel and its overwrites go from memory and tables; its messages stay |
| Server.CommunityServer.HandleRenameChannel | crates/rekindle-server/src/rpc.rs:1218-1264 | the name changes in memory and row, 404 for an unknown channel |
| Server.CommunityServer.HandleSetOverwrite | crates/rekindle-server/src/rpc.rs:1909-1987 | the overwrite for the target is replaced or added in memory; the row is written if its target type passes the CHECK |
| Server.CommunityServer.HandleDeleteOverwrite | crates/rekindle-server/src/rpc.rs:1989-2035 | the target's overwrite goes from memory, and the row with exactly that target type |
| Server.CommunityServer.HandleCreateRole | crates/rekindle-server/src/rpc.rs:1525-1594 | a role under a new id, placed one below the sender's rank but at 1 or above |
| Server.CommunityServer.HandleEditRole | crates/rekindle-server/src/rpc.rs:1597-1694 | the named fields of a lower role change, any role's for an administrator |
| Server.CommunityServer.HandleDeleteRole | crates/rekindle-server/src/rpc.rs:1696-1759 | a lower role other than @everyone goes, from the definitions and from every member |
| Server.CommunityServer.HandleAssignRole | crates/rekindle-server/src/rpc.rs:1761-1825 | a lower role is given to an outranked member, once |
| Server.CommunityServer.HandleUnassignRole | crates/rekindle-server/src/rpc.rs:1827-1885 | a role other than @everyone is taken from an outranked member |
| Server.CommunityServer.HandleGetRoles | crates/rekindle-server/src/rpc.rs:1887-1902 | the role definitions, to members |
| Server.CommunityServer.HandleTimeoutMember | crates/rekindle-server/src/rpc.rs:2041-2114 | an outranked member is timed out until now plus the duration, modulo 2^64, in memory and row |
| Server.CommunityServer.HandleRemoveTimeout | crates/rekindle-server/src/rpc.rs:2116-2172 | the timeout goes from memory and table |
| Hosting.LoadMembers | crates/rekindle-server/src/community_host.rs:17-79 | the three loops rebuild the roster: each member row once, with its role rows and its timeout if that has not run out |
| Hosting.LoadChannels | crates/rekindle-server/src/community_host.rs:82-141 | the two loops rebuild the channels with every overwrite whose masks read back |
| Hosting.LoadRoles | crates/rekindle-server/src/community_host.rs:144-169 | every role whose mask reads back, once |
| Hosting.LatestKey | crates/rekindle-server/src/mek.rs:66-97 | the greatest stored generation, if there is any |
| Hosting.CreateDefaultRoles | crates/rekindle-server/src/community_host.rs:172-244 | the five default roles in memory; in the table only where the id is free |
| Hosting.LoadCommunity | crates/rekindle-server/src/community_host.rs:382-480 | memory becomes what the tables say, with a first key and the default roles made where there were none |
| Hosting.HostCommunity | crates/rekindle-server/src/community_host.rs:352-508 | loading, then the creator registered as first member exactly when none is on record |
| Database.OverwritesIn | crates/rekindle-server/src/community_host.rs:82-141 | of a channel's overwrite rows, exactly the readable ones come back, under the target they were stored for |
| Database.LatestGeneration | crates/rekindle-server/src/mek.rs:66-97 | a stored generation that none exceeds |
| LiveServer.EveryReachableServerIsInSync | crates/rekindle-server/src/rpc.rs:585-2172 | after any requests and restarts memory and tables share creator, bans, keys, messages, the roster with its roles, and the channels' ids, names, kinds and order; timeouts and roles in memory have rows; readable roles are in memory |
| LiveServer.ReloadIs | crates/rekindle-server/src/community_host.rs:382-480 | what memory is after it was rebuilt: all that is shared, the roles and overwrites that read back, timeouts that read back and have not run out |
| LiveServer.RestartIs | crates/rekindle-server/src/community_host.rs:423-480 | members keep their roles over a restart; a creator is registered, with roles 0 to 4, exactly when none is on record; the definitions are those that read back, or the defaults when none does |
| LiveServer.RestartFinds | crates/rekindle-server/src/community_host.rs:17-79 | what is in memory after a restart: creator, bans, keys, messages and members, each with its stored timeout if that is still running and below 2^63; the creator named, if none was |
| LiveServer.RestartFindsRoles | crates/rekindle-server/src/community_host.rs:144-244 | the definitions are the rows without bit 63, or the default ones when there is no such row |
| LiveServer.RestartFindsChannels | crates/rekindle-server/src/community_host.rs:82-141 | the channels are as before, with exactly the overwrite rows whose masks lack bit 63 |
| LiveServer.StepKeepsConsistent | crates/rekindle-server/src/db.rs:66-171 | foreign keys and CHECKs hold after any event |
| Dispatch.HandleRequest | crates/rekindle-server/src/rpc.rs:279-549 | every request, in every state of the class: the model's answer, the model's next community, and its statements on the tables; 500 for a new role whose id has an unreadable row |
| Dispatch.HandleEvent | crates/rekindle-server/src/rpc.rs:279-549 | one event, request or restart, is one step of the model: answer, memory and tables |
| Dispatch.HandleAll | crates/rekindle-server/src/rpc.rs:279-549 | whole runs of the class, whatever is asked: the answers, the memory and the tables are the model's |
| Dispatch.HostAndServe | crates/rekindle-server/src/community_host.rs:352-508 | the same from a database without rows: first hosting, then any requests and restarts; memory and tables end in sync |
| RosterIntegrity.LogStep | crates/rekindle-server/src/rpc.rs:853-875 | every event keeps: the current generation is the greatest stored one, messages carry non-decreasing generations in insertion order, none above it |
| RosterIntegrity.EveryReachableLogFits | crates/rekindle-server/src/mek.rs:34-54 | that holds in every reachable state, and the insert on rotation never meets an existing generation |
| RosterIntegrity.EveryHeldRoleIsKnown | crates/rekindle-server/src/rpc.rs:1724-1759 | in every reachable state every member holds @everyone, and a held role is defined, or one of the default ids 1 to 4, or has a row that cannot be read back |
| RosterIntegrity.EveryoneStaysDefinedIff | crates/rekindle-server/src/community_host.rs:144-169 | no request undefines @everyone; a restart does if and only if its stored mask has bit 63 and some other role's has not |
| RosterIntegrity.JoinerHoldsUndefinedRole | crates/rekindle-server/src/rpc.rs:624-628 | a joiner ends up with an undefined role if and only if role 0 or role 1 is undefined |
| RosterIntegrity.RosterStep | crates/rekindle-server/src/rpc.rs:610-705 | an event keeps the roster fitting (nobody banned is a member, no creator means no roster) if and only if it is not a founding under the empty name; restarts always do |
| RosterIntegrity.EveryReachableRosterFits | crates/rekindle-server/src/rpc.rs:738-765 | it fits after every run without such a founding |
| KeyFreshness.HandedCurrent | crates/rekindle-server/src/rpc.rs:555-583 | a key is handed out only at the current generation, and only to a member or the creator |
| HandedKeys.HandedOutAreTheDrawnKeys | crates/rekindle-server/src/rpc.rs:555-583 | over every run, restarts included: each answer with a key carries the one drawn by the last departure, removal or rotation before it, or the first key, under the number of keys there had been |
| HandedKeys.DrawnKeyIsHandedOut | crates/rekindle-server/src/rpc.rs:985-1005 | from such an event until the next, every key handed out is the one it drew |
| KeyFreshness.GenerationGrowsIff | crates/rekindle-server/src/rpc.rs:1035-1044 | the generation grows, by one, if and only if a member departs or somebody rotates the key; nobody goes off the roster without that, and joining does not do it |
| KeyFreshness.OutsidersHoldOldKeys | crates/rekindle-server/src/rpc.rs:1011-1077 | over whole runs with restarts: who is off the roster was only ever given generations below the current one, if and only if it did not ask for the current one as creator |
| KeyFreshness.LaterMessages | crates/rekindle-server/src/rpc.rs:853-875 | over any run the log only grows, and what is added carries the generation current at the start or a later one |
| KeyFreshness.NothingLaterIsReadable | crates/rekindle-server/src/rpc.rs:853-861 | no message accepted from then on, whatever happens, carries a generation that outsider had been given |
| KeyFreshness.OutsiderKeyRequests | crates/rekindle-server/src/rpc.rs:985-1005 | somebody off the roster is handed the current key if and only if it asks for it as creator |
| KeyFreshness.CreatorKeepsTheKey | crates/rekindle-server/src/rpc.rs:171-189 | a creator who leaves and asks is given the key made for its own departure |
| RankPreservation.LevelStep | crates/rekindle-server/src/rpc.rs:1597-1885 | who is at or above a level, the top rank or higher, after one event of any kind: exactly those there before and not demoted, and those promoted |
| RankPreservation.CapStepIff | crates/rekindle-server/src/rpc.rs:1597-1885 | an event keeps the top rank the top if and only if it promotes nobody above it and moves no joiners' role up to it |
| RankPreservation.MovingARoleKeepsCapIff | crates/rekindle-server/src/rpc.rs:1597-1694 | moving a role breaks the top rank if and only if the edit is granted and the role goes above it while held, or is a joiners' role and goes up to it |
| RankPreservation.OvertakingWithoutAdministrator | crates/rekindle-server/src/rpc.rs:1620-1665 | a member with the default Admin and Moderator roles, not an administrator, moves the latter and itself to any rank |
| RankPreservation.TopRankChangesHands | crates/rekindle-server/src/rpc.rs:1597-1885 | over whole runs that keep the cap: whoever came to the top or left it did so at an event that promotes or demotes exactly it |
| RankPreservation.TopRankIsSafe | crates/rekindle-server/src/rpc.rs:1783-1799 | over whole runs without founding or moving top roles: nobody new reaches the top, and whoever lost it did so at its own departure or at the creator's kick, ban or removal of a role |
| RankPreservation.FoundedCommunityIsCapped | crates/rekindle-server/src/community_host.rs:172-244 | the default roles and a founder meet the premise at rank 4 |
| RestartTransparency.RestartKeepsIff | crates/rekindle-server/src/community_host.rs:352-508 | a restart leaves the community as it was, up to timeouts that have run out, if and only if the tables lose no role, running timeout or overwrite |
| RestartTransparency.UnstorableEffectsAreLost | crates/rekindle-server/src/community_host.rs:17-169 | after an event on memory and tables in agreement, a restart would lose something if and only if the tables could not hold the event's effect |
| RestartTransparency.LostRolesShow | crates/rekindle-server/src/community_host.rs:144-169 | a restart changes the answer to the next member who asks for the roles if and only if roles were lost |
| RestartTransparency.RestartIsInvisible | crates/rekindle-server/src/community_host.rs:352-508 | a restart that loses nothing changes no later answer to anybody, further restarts included |
| RestartTransparency.StorableRunsRestartInvisibly | crates/rekindle-server/src/community_host.rs:352-508 | from a new community on, after any run of effects the tables can hold, a restart at any moment changes no later answer |
| Moderation.MutedSendsOnlyAsAdmin | crates/rekindle-protocol/src/dht/community.rs:473-564 | while a timeout runs its holder may write if and only if it has the administrator bit in that channel |
| Moderation.MutedStepIff | crates/rekindle-server/src/rpc.rs:2041-2172 | a running timeout goes on after an event if and only if no granted request removes its holder or replaces or clears it, and no restart meets one with bit 63 |
| Moderation.RestartUnmutesIff | crates/rekindle-server/src/community_host.rs:17-79 | a restart keeps a timeout if and only if it is still running and its end fits 63 bits |
| Moderation.MutedPostsIff | crates/rekindle-server/src/rpc.rs:807-900 | a timed-out member's message is stored if and only if it has the administrator bit in the channel and used the current generation |
| Moderation.TimeoutSilences | crates/rekindle-server/src/rpc.rs:2041-2114 | over whole runs with restarts, nothing a timed-out member sends before now plus the duration is stored, unless a granted request or a restart lifts the timeout or it writes as administrator; refused attempts change nothing; a sum beyond 64 bits wraps |
| Moderation.OverwriteUndoesTimeout | crates/rekindle-protocol/src/dht/community.rs:473-564 | a member overwrite allowing the administrator bit lets a timed-out member write |
| Moderation.RejoiningClearsTimeout | crates/rekindle-server/src/rpc.rs:667-674 | leaving and joining again ends a timeout |
| Moderation.RefusedBanStands | crates/rekindle-server/src/rpc.rs:1384-1439 | a ban answers 403 and is recorded all the same if and only if it passes every check and its target is no member |
| MessagePaging.PageBackComplete | crates/rekindle-server/src/rpc.rs:902-983 | paging back rebuilds a sorted history if and only if no page boundary splits equal timestamps |
| MessagePaging.PageBackOnlyOnce | crates/rekindle-server/src/rpc.rs:902-983 | no message comes twice, ties or not |
| MessagePaging.CompleteForEverySize | crates/rekindle-server/src/rpc.rs:902-983 | complete for every page size if and only if the timestamps are distinct |
| MessagePaging.MatchingIs | crates/rekindle-server/src/rpc.rs:926-965 | the rows selected are the stored messages of the channel below the bound, each as often as stored |
| MessagePaging.NewestIsNewestPage | crates/rekindle-server/src/rpc.rs:926-981 | the answer to a request: as many rows as allowed, in time order, and no row left out is newer than one of them |
| MessagePaging.AnswerIsCut | crates/rekindle-server/src/rpc.rs:920-975 | the answer to a bounded request is the newest part of the ordered channel cut at the bound |
| MessagePaging.ReaderGetsEverything | crates/rekindle-server/src/rpc.rs:902-983 | a client's loop against the handler ends with the whole channel in order if and only if no boundary splits a tie |
| StoreAgreement.EffectStored | crates/rekindle-server/src/db.rs:66-171 | after an effect memory and tables agree if and only if its masks and times fit and its target type passes the CHECK, or it changed nothing |
| StoreAgreement.PersistLoads | crates/rekindle-server/src/community_host.rs:17-169 | reading back after the statements of an effect gives the effect on what was read before |
| StoreAgreement.StepStored | crates/rekindle-server/src/rpc.rs:585-2172 | one event, request or restart, leaves them in agreement if and only if the tables can hold its effect |
| StoreAgreement.RunStored | crates/rekindle-server/src/rpc.rs:585-2172 | agreement is kept over any run of storable effects, restarts included |
| StoreAgreement.AgreesThroughoutIff | crates/rekindle-server/src/rpc.rs:585-2172 | memory and tables agree after every event of a run if and only if the tables can hold every effect of it |
| StoreAgreement.MemoryAndTablesAgree | crates/rekindle-server/src/community_host.rs:382-480 | from a new community on, after storable effects, the tables read back as memory less expired timeouts |
| RouteProtocol.NoDoubleRelease | crates/rekindle-server/src/community_host.rs:578-617 | in every interleaving no route is released twice, and none that was released is in a slot or about to be installed |
| RouteProtocol.RoutesIdentifyCommunities | crates/rekindle-server/src/rpc.rs:140-149 | in every interleaving a slot's blob belongs to its route, and a route belongs to at most one community |
| RouteProtocol.EveryRouteHasOnePlace | crates/rekindle-server/src/community_host.rs:692-758 | conservation: every route handed out is in exactly one of four places, a slot, a task, the released or those dropped without release, and the four add up to all |
| RouteProtocol.AdvanceKeeps | crates/rekindle-server/src/main.rs:155-236 | every single step of keepalive, route change, retry, hosting and unhosting keeps that accounting |
| RouteRefresh.KeepaliveRenews | crates/rekindle-server/src/community_host.rs:578-617 | a keepalive alone: the old route is released and, with the network up, a new one is in the slot with its blob; with it down the slot keeps the old blob only |
| RouteRefresh.RouteChangeRenews | crates/rekindle-server/src/community_host.rs:692-758 | a route change alone: a new route in the slot, or none and no blob with the network down; the dead one is not released |
| RouteRefresh.RetryRenews | crates/rekindle-server/src/main.rs:155-236 | a retry alone: a new route in the slot, or nothing changed |
| RouteRefresh.GoneCommunityGetsNone | crates/rekindle-server/src/community_host.rs:601-606 | for a community gone by then a route made is lost, and every slot is as before |
| RouteRefresh.HostingFills | crates/rekindle-server/src/community_host.rs:320-480 | hosting alone: the community has a slot, with a new route if the network is up |
| RouteRefresh.UnhostingReleases | crates/rekindle-server/src/community_host.rs:511-531 | unhosting alone: the slot is gone and its route released |
| RouteRefresh.AloneIsReachable | crates/rekindle-server/src/community_host.rs:535-560 | such an undisturbed stretch can follow any state the tasks can reach, and ends with the task finished |
| LockOrder.ServerTasksAreOrderly | crates/rekindle-server/src/rpc.rs:585-2172 | every handler and background task, whichever way each community and each round goes, takes `hosted` with empty hands, `db` at most inside it, and gives both back |
| LockCoverage.ChangesAreLocked | crates/rekindle-server/src/rpc.rs:585-2172 | whatever a request changes of a community in memory, its task takes `hosted` for writing; whatever it changes in the tables, it takes `db` |
| LockOrder.EarlyReturnIsOrderly | crates/rekindle-server/src/rpc.rs:1124-1172 | so does a handler that returns early at any point, dropping its guards in reverse |
| LockOrder.NoDeadlock | crates/rekindle-server/src/rpc.rs:591-606 | in every interleaving of such tasks, while one is unfinished some task can take its next step |
| LockOrder.EveryTaskFinishes | crates/rekindle-server/src/rpc.rs:651-685 | steps use up the work started one for one, so runs end, and end with every task finished |
| LockOrder.LocksExclude | crates/rekindle-server/src/server_state.rs:11-23 | in every interleaving a writer is alone with `hosted`, and one task at most has `db` |
| LockOrder.ServerNeverDeadlocks | crates/rekindle-server/src/community_host.rs:578-672 | all of this for any mix of the server's tasks, started at any time, each a sequence of activities cut short or not |
| LockOrder.ReadingUnderWriteDeadlocks | crates/rekindle-server/src/rpc.rs:1974-1985 | broadcasting before the write lock is dropped would stop the task for good |
| LockOrder.ReadingTwiceDeadlocks | crates/rekindle-server/src/rpc.rs:817-898 | broadcasting under a read lock would deadlock with one waiting writer |
| LockOrder.OppositeOrdersDeadlock | crates/rekindle-server/src/rpc.rs:1447-1473 | so would taking the locks in opposite orders |
| JitterBuffer.Buffer.constructor | crates/rekindle-voice/src/jitter.rs:27-36 | a new buffer is empty and not yet filled |
| JitterBuffer.Buffer.Push | crates/rekindle-voice/src/jitter.rs:39-62 | a late packet is dropped, any other stored, and first packets dropped while there are more than fifty |
| JitterBuffer.Buffer.Pop | crates/rekindle-voice/src/jitter.rs:68-85 | nothing before the fill; then the packet expected, if it is there |
| JitterBuffer.Buffer.CheckInitialFill | crates/rekindle-voice/src/jitter.rs:92-108 | filled by enough packets or enough time since the first |
| JitterBuffer.Buffer.PeekNextAudioData | crates/rekindle-voice/src/jitter.rs:115-121 | the packet after the one expected; after the last number none, although the sum wraps to one that may come |
| JitterBuffer.Buffer.SetTargetDelayMs | crates/rekindle-voice/src/jitter.rs:134-136 | changes the target and nothing else |
| JitterBuffer.Buffer.Reset | crates/rekindle-voice/src/jitter.rs:139-144 | back to a new buffer with the target kept |
| JitterBuffer.ReachableBuffersAreSound | crates/rekindle-voice/src/jitter.rs:39-85 | always at most fifty packets, each under its own number, none before the next to play, which stays a 32-bit number |
| JitterBuffer.PushIs | crates/rekindle-voice/src/jitter.rs:55-61 | a push trims at most one packet, the first |
| JitterBuffer.PushStores | crates/rekindle-voice/src/jitter.rs:39-62 | a late packet is dropped, any other stored under its number, and beyond fifty the smallest number goes |
| JitterBuffer.PopIs | crates/rekindle-voice/src/jitter.rs:80-84 | a playing buffer hands out the packet expected and expects the next number, or has nothing |
| JitterBuffer.PlaybackOrder | crates/rekindle-voice/src/jitter.rs:68-85 | over any run each delivered number is above the one before if and only if that one is not the last number there is |
| JitterBuffer.RisesBetweenWraps | crates/rekindle-voice/src/jitter.rs:68-85 | so between two wraps they rise strictly, however far apart |
| JitterBuffer.EveryNumberIsAccounted | crates/rekindle-voice/src/jitter.rs:55-85 | the number to play next moves on by exactly the packets delivered plus those trimmed, wrapping |
| JitterBuffer.LaterWraps | crates/rekindle-voice/src/jitter.rs:81-83 | moving on by n places is adding n modulo 2^32 |
| JitterBuffer.ConsecutiveUnlessTrimmed | crates/rekindle-voice/src/jitter.rs:68-85 | without trimming the delivered numbers are consecutive from the one expected, wrapping |
| JitterBuffer.DeliveredWerePushed | crates/rekindle-voice/src/jitter.rs:39-85 | every packet delivered was pushed, unchanged |
| JitterBuffer.FirstDelivery | crates/rekindle-voice/src/jitter.rs:68-108 | the first pop that delivers comes with a packet for every 20 ms of the target, at least one, or once the target has passed since the first arrival, and delivers the smallest number buffered |
| JitterBuffer.EmptyUntilArrival | crates/rekindle-voice/src/jitter.rs:43-45 | before the fill the buffer is empty if and only if nothing arrived since the reset |
| JitterBuffer.ClockStartsWithTheFirst | crates/rekindle-voice/src/jitter.rs:42-45 | the clock of the fill starts with the first packet and is not set again |
| JitterBuffer.GapLemma | crates/rekindle-voice/src/jitter.rs:47-61 | exactly which push ends the wait for a missing packet |
| JitterBuffer.WaitsForTheExpected | crates/rekindle-voice/src/jitter.rs:47-84 | until such a push every pop comes back empty, however much is trimmed |
| JitterBuffer.LossSilencesPlayback | crates/rekindle-voice/src/jitter.rs:80-84 | with one packet lost and all later ones in order nothing is delivered again |
| VoiceActivity.VadGate.UpdateVadState | crates/rekindle-voice/src/audio_processing.rs:225-236 | one frame: loud starts the hold, quiet uses it up, then speaking ends |
| VoiceActivity.VadGate.constructor | crates/rekindle-voice/src/audio_processing.rs:63-98 | silent, with as many hold frames as fit into the hold time, none for a frame time of 0 |
| VoiceActivity.VadGate.SetVadThreshold | crates/rekindle-voice/src/audio_processing.rs:283-285 | the threshold, kept between 0 and 1, and nothing else |
| VoiceActivity.VadGate.ProcessCapture | crates/rekindle-voice/src/audio_processing.rs:107-161 | every processed sub-frame lands in its place, the rest of the input follows unchanged, and the gate is fed the mean probability |
| VoiceActivity.MeanOfOne | crates/rekindle-voice/src/audio_processing.rs:107-161 | the mean of one sub-frame is its probability, of none 0 |
| VoiceActivity.MeanOfBoth | crates/rekindle-voice/src/audio_processing.rs:107-161 | in a mean of two stretches each weighs in by its length |
| VoiceActivity.VadGate.Reset | crates/rekindle-voice/src/audio_processing.rs:262-275 | the hold and the speaking state are cleared |
| VoiceActivity.SpeakingIsASlidingWindow | crates/rekindle-voice/src/audio_processing.rs:225-236 | after any frames, threshold changes and resets: speaking if and only if one of the last hold + 1 frames since the reset reached its threshold |
| AudioMixer.Mixer.Mix | crates/rekindle-voice/src/mixer.rs:22-43 | as long as the longest stream, each sample the clamped sum of the streams' samples at their volumes |
| AudioMixer.SumIs | crates/rekindle-voice/src/mixer.rs:30-35 | each stream adds its sample at its participant's volume while it lasts, full volume by default |
| AudioMixer.MixIsNearest | crates/rekindle-voice/src/mixer.rs:38-41 | each output sample is the value between -1 and 1 nearest to the sum |
| AudioMixer.OrderDoesNotMatter | crates/rekindle-voice/src/mixer.rs:30-35 | two mixes of the same streams in different order are equal |
| AudioMixer.Mixer.SetVolume | crates/rekindle-voice/src/mixer.rs:46-49 | the participant plays at a volume between 0 and 2, the nearest such to the one asked for, itself if in range; all others stay |
| AudioMixer.Mixer.RemoveParticipant | crates/rekindle-voice/src/mixer.rs:52-54 | that participant is back at full volume, the others unchanged |
| ClientPermissions.LowBitsOfOr | src/ipc/permissions.ts:112-112 | or-ing two masks through signed 32-bit numbers and keeping 31 bits gives the union of their bits below bit 31 |
| ClientPermissions.HasEveryBit | src/ipc/permissions.ts:68-79 | a check below bit 31 passes if and only if all its bits, or the administrator bit, are there |
| ClientPermissions.HasSingleBit | src/ipc/permissions.ts:68-79 | a check of any single bit, above 31 too, passes if and only if that bit or the administrator bit is there |
| ClientPermissions.SameNumbers | src/ipc/permissions.ts:7-52 | client and server number the permissions that are checked alike |
| ClientPermissions.FindIs | src/ipc/permissions.ts:106-107 | a role is found by its id, the first such one, and only a missing one is not |
| ClientPermissions.CalculateBasePermissions | src/ipc/permissions.ts:98-121 | the loop computes the union of low bits and the greatest high part of the roles found, below 2^53 |
| ClientPermissions.CombinedIsUnionIff | src/ipc/permissions.ts:108-119 | that is the bitwise union if and only if one role has all the bits from bit 31 up that any has |
| ClientPermissions.OneHighPartIsExact | src/ipc/permissions.ts:108-119 | exact when the high parts are 0 or one common value, such as 2^40 |
| ClientPermissions.DefaultRolesAreExact | crates/rekindle-protocol/src/dht/community.rs:376-458 | exact for the masks of any selection of the default roles, in any order and with repeats |
| ClientPermissions.UnlikeHighPartsLoseBits | src/ipc/permissions.ts:115-117 | roles with bits 34 and 35 lose bit 34 |
| ClientPermissions.OrderAndRepeatsDoNotMatter | src/ipc/permissions.ts:98-121 | the result depends only on which masks are held |
| ClientPermissions.ChecksWhatRolesGrant | src/ipc/permissions.ts:68-121 | checking one bit of the result asks whether some held role has it or the administrator bit, below bit 31 always, above when exact |
| ClientPermissions.ClientAgreesWithServer | src/ipc/permissions.ts:88-121 | when exact, and for a list that holds @everyone as every reachable one does, the client computes the server's base permissions |
| ClientPermissions.HostPassesEveryCheck | src/ipc/permissions.ts:104-104 | the host's mask passes every check |
| ClientPermissions.HostMaskIs | src/ipc/permissions.ts:44-53 | the host's mask has the server's permissions below bit 31, all of them and no others |
| ClientPermissions.HighestPosition | src/ipc/permissions.ts:137-149 | the greatest position among the roles found, or -1 |
| HistoryMerge.ChannelStore.MessageReceived | src/handlers/chat-events.handlers.ts:151-172 | a live message is appended to its channel, the user's own are not |
| HistoryMerge.ChannelStore.ChannelHistoryLoaded | src/handlers/chat-events.handlers.ts:173-193 | the channel becomes the merge, other channels stay |
| HistoryMerge.MergeAddsExactlyTheNew | src/handlers/chat-events.handlers.ts:176-190 | every message is kept; an entry is added as often as the page has it, unless a message of the same time and sender is there |
| HistoryMerge.MergeSorts | src/handlers/chat-events.handlers.ts:186-190 | the result is in time order whenever something was added |
| HistoryMerge.MergingTwiceIsMergingOnce | src/handlers/chat-events.handlers.ts:173-193 | merging a page, or part of it, again changes nothing |
| HistoryMerge.MergeMakesNoDuplicates | src/handlers/chat-events.handlers.ts:173-193 | pages and messages without repeats merge without repeats |
| HistoryMerge.MergeKeepsTheOrder | src/handlers/chat-events.handlers.ts:186-190 | messages that were in order keep their order, ties included |

## Left out

Of the server:

- One community at a time. Requests reach it by id or route; that a route names at most one is in `RouteProtocol`.
- Handlers are atomic. `add_new_member` reads, inserts and pushes in separate lock sections, so two concurrent joins of
  one pseudonym are not covered by the roster theorems.
- Broadcasts, DHT publication, IPC, envelopes and all cryptography. Keys are opaque bytes; their length check is not
  modelled.
- RestartTransparency.RestartIsInvisible: one direction only for answers, because a lost overwrite or timeout may change
  no permission; for the community itself the condition is exact (`RestartKeepsIff`).
- UpdateCommunity, the `reason` of a timeout, and error texts (answers carry the code).
- Generations and role ids are unbounded: `i64` and `u32` overflow is not modelled. The sum of time and duration wraps, as
  it does in a release build.
- Database errors other than a violated key, CHECK or foreign key, which the handlers ignore.
- Unhosting in runs of the handlers: it cascades away keys but not messages. It is part of `RouteProtocol`.
- The order of lists in answers, given as maps here, and of roles on loading. Rows with equal timestamps come in
  insertion order, which SQL leaves open.
- Random channel ids and key bytes, and the clock, are inputs. Where a result needs a clock that does not run backwards,
  or one below 2^63, it says so.

Of the route protocol and the locks:

- The loop that releases all routes at shutdown; it takes no route out of its slot.
- Which routes die: a route-change task may start for any community at any time, which covers more than the code does.
- Fairness of the locks. Progress is proved; which waiting task goes first is left open.

Of the clients:

- Floating point: samples, volumes and probabilities are real numbers.
- VoiceActivity.VadGate.ProcessCapture: what echo cancellation and noise suppression make of a sub-frame is an input,
  since both are calls into other libraries. Codecs are left out.
- The number to play next wraps after 2^32 - 1, as in a release build; a debug build stops there.
- Division in `hasPermission` is exact for the powers of two it is proved for; other masks above bit 31 are not
  claimed.
- `canManageRole` and `isAdministrator`, single comparisons, and the direct-message branches of the chat events.
