# spark-app match and presence protocols in Dafny

This project models the logic at the core of spark-app, a location-sharing
app built on Firebase. Two small protocols run over the app's stores:

- **Wave, match and chat.** A user waves at another user. Once both have
  waved, a chat for the pair is opened. There are three variants:
  - the transactional one in `lib/social.ts`;
  - the step-by-step one in `lib/chat.ts`;
  - the button state machine in `components/WaveButton.tsx`, which the map's
    popups use.
- **Presence.** Each client keeps a `presence/{uid}` record in the realtime
  database up to date. Two pieces of code do the writing:
  - the writer effect of `lib/usePresenceWriter.ts`, and its older copy
    `lib/presence.ts`;
  - the map of `components/ActiveUsersMap.tsx`, which also reads every
    record back and shows the users seen in the last 30 seconds.

Around these sit the profile page's save, load and interests field
(`app/profile/page.tsx`), and the sticky local-id fallback of the chats
page (`app/chat/chats/page.tsx`).

The model has one module per source file, plus shared modules:

| module | models |
|---|---|
| `Wrappers` | `Option` |
| `Text` | the default string order, `join`, `split` and `trim` |
| `Firestore` | the document store: `waves`, `chats`, `chat` (as `chatRooms`) and `users` |
| `Rtdb` | the `presence` records, the record updates the code issues, and the server's disconnect action |
| `Throttling` | the watch throttle shared by both presence writers |

Each store is a class holding an immutable value. Every write replaces that
value. Server timestamps and client clocks are parameters.

Code that changes state step by step is modelled as a class. This covers:

- the wave button;
- both presence writers;
- the map view;
- the profile page;
- `localStorage`.

Each of these classes has one method per event or callback. Each method's
contract gives the whole new state.

The transaction body of `sendWaveAndMaybeOpenChat` is one atomic step. The
method that models it is proved equal to the function `Social.WaveTx`, and
the lemmas about that function state what the protocol promises. The
step-by-step `waveAndMaybeOpenChat` is modelled the same way, against
`Chat.WaveAndOpen`.

Where the code does something one might not expect, the model follows the
code:

- The map's liveness filter ignores the stored `state`. Every user updated
  within 30 s is relabelled online (`ActiveUsersMap.OthersIgnoreStoredState`).
- The throttle keeps the *first* sample of a window and drops later ones
  (`Throttling.BurstKeepsFirst`).
- `waveAndMaybeOpenChat` rewrites `matchedAt` on every mutual call, not
  only the first (`Chat.MatchedAtOnlyWhenMutual`).
- The map's fallback timer reads the position captured when its effect
  ran at mount, which is null. A watch fix before the timer therefore
  does not prevent a reseed (`ActiveUsersMap.WatchFixDoesNotStopReseed`).
- Without geolocation the map's effect returns before it registers its
  cleanup, so leaving the map keeps the viewer's `presence` record
  (`ActiveUsersMap.NoGeolocationKeepsRecord`).
- The profile page's `save` is refused by Firestore when the form has no
  age or no gender, because the payload then holds `undefined`
  (`Profile.SaveWithoutAgeRefused`).
- A written watch fix does not cancel the writer's fallback timer. Only
  the one-shot request does (`PresenceWriter.FallbackAfterWatchFix`).
- Wave ids are `current_other`. Ids containing `_` can collide: `"x"` and
  `"x_x"` both give `"x_x_x"`. The two directions are distinct only for
  ids without `_` (`WaveButton.WaveIdsDistinct`).

## Model

| member | source | states |
|---|---|---|
| Text.LessEqTotal | lib/social.ts:8 | any two ids are ordered one way or the other by the default sort order |
| Text.LessEqAntisymmetric | lib/social.ts:8 | two ids ordered both ways are equal |
| Text.Sort2 | lib/social.ts:8 | sorting two ids gives the pair itself or the pair swapped, in ascending order |
| Text.Sort2Symmetric | lib/social.ts:8 | sorting `[a, b]` and `[b, a]` gives the same list |
| Text.Split | app/profile/page.tsx:88 | `split(",")` yields at least one piece, and no piece contains the separator |
| Text.SplitNoSeparator | app/profile/page.tsx:88 | a string without the separator splits into itself alone |
| Text.SplitAppend | app/profile/page.tsx:88 | the pieces of `a + "," + b` are the pieces of `a` followed by those of `b` |
| Text.Trim | app/profile/page.tsx:88 | `trim()` leaves no white space at either end, keeps an already-trimmed string, and removes only white space: the input is the result with nothing but white space before and after it |
| Text.TrimStartRemovesSpace | app/profile/page.tsx:88 | what the leading trim removes is a run of white space in front of the result |
| Text.TrimEndRemovesSpace | app/profile/page.tsx:88 | what the trailing trim removes is a run of white space behind the result |
| Text.TrimLeadingSpace | app/profile/page.tsx:87-88 | a space in front of a string makes no difference once trimmed |
| Text.DecimalString | lib/usePresenceWriter.ts:95 | an error code is rendered as a non-empty run of decimal digits that denotes the code, with no leading zero |
| Firestore.ArrayUnion | lib/chat.ts:36 | `arrayUnion(x)` holds `x` and every earlier element, keeps the earlier array as its prefix, and adds nothing else |
| Social.PairKey | lib/social.ts:7-9 | the key is the smaller id, `"__"`, then the larger id |
| Social.PairKeySymmetric | lib/social.ts:7-9 | `pairKey(a, b) == pairKey(b, a)` |
| Social.Dedup | lib/social.ts:37 | `[...new Set(xs)]` has no duplicates, has the same members, and leaves a duplicate-free array unchanged |
| Social.FirstIndex | lib/social.ts:37 | the index returned holds `x` and no earlier index does |
| Social.FirstIndexPrefix | lib/social.ts:37 | appending to an array does not move the first occurrence of an element already in it |
| Social.DedupKeepsFirstOrder | lib/social.ts:37 | `[...new Set(xs)]` lists the distinct elements in the order of their first occurrences in `xs` |
| Social.SendWaveAndMaybeOpenChat | lib/social.ts:13-58 | the transaction body's new store and result are those of one atomic step `WaveTx` |
| Social.FirstWaveCreatesDoc | lib/social.ts:27-34 | with no wave doc, the doc is created with `a=from`, `b=to`, `wavedBy=[from]`; the result is `WAVED`; chats are untouched |
| Social.WavedByGrows | lib/social.ts:37-39 | on an existing doc, the new `wavedBy` is duplicate-free and holds exactly the earlier members and `from` |
| Social.ReWaveKeepsWavedBy | lib/social.ts:37-39 | a repeated wave by a member leaves `wavedBy` unchanged |
| Social.ChatReadyIffMutual | lib/social.ts:42-57 | on an existing doc, the result is `CHAT_READY` with `chatId == pairKey` exactly when the new `wavedBy` holds both users, i.e. when `to` had already waved |
| Social.ChatCreatedWhenAbsent | lib/social.ts:44-50 | a created chat has the sorted pair as participants, `createdAt == lastMessageAt == now` and a null `lastMessage` |
| Social.ExistingChatKept | lib/social.ts:51-53 | an existing chat is never recreated: only `lastMessageAt` changes, and only on `CHAT_READY` |
| Social.WavedLeavesChats | lib/social.ts:34-57 | a `WAVED` result leaves the chats as they were |
| Social.OnlyPairDocsChange | lib/social.ts:18-20 | documents of other pairs and other collections are unchanged |
| Social.OneSidedWaveIdempotent | lib/social.ts:22-58 | waving twice from one side gives `WAVED` twice, a single waver and no chat |
| Social.AnswerWave | lib/social.ts:37-55 | a wave on an existing doc that already lists the recipient returns `CHAT_READY`, creates the chat only when it is absent, keeps an existing chat's `createdAt`, and adds no other chat |
| Social.WaveListsWaver | lib/social.ts:36-39 | after a wave on an existing doc, the stored wavers are exactly the earlier ones and the waver |
| Social.MutualWaveSequence | lib/social.ts:22-58 | `wave(a,b)`, `wave(b,a)`, `wave(a,b)` give `WAVED`, `CHAT_READY`, `CHAT_READY` at the pair key, with exactly one new chat whose `createdAt` the third wave keeps |
| Social.ConcurrentMutualWave | lib/social.ts:22-58 | both commit orders of two crossing waves give one `WAVED` and one `CHAT_READY`, and exactly one chat with the sorted participants |
| Social.AsWrittenMutualWaveFails | lib/social.ts:39-43 | as written, a wave that completes the match writes before it reads and is refused, so no committed run returns `CHAT_READY` |
| Social.CorrectedBodyCommits | lib/social.ts:23-53 | with both reads first, the body always does its reads before its writes |
| Chat.TwoPartyKey | lib/chat.ts:12-14 | `twoPartyKey` equals `pairKey` for all inputs |
| Chat.TwoPartyKeySymmetric | lib/chat.ts:12-14 | `twoPartyKey(a, b) == twoPartyKey(b, a)` |
| Chat.EnsureChatForPair | lib/chat.ts:16-28 | returns `twoPartyKey(a, b)`, and the store changes only by creating the chat when absent |
| Chat.MergeWaver | lib/chat.ts:34-38 | the merge-write sets the wave doc to `wavers ∪ {a}` with `updatedAt`, and creates the doc if needed |
| Chat.ReadWavers | lib/chat.ts:40-41 | the wavers read back are the doc's array, or none |
| Chat.WaveAndMaybeOpenChat | lib/chat.ts:30-50 | the three store steps give the store and result of `WaveAndOpen` |
| Chat.EnsureChatCreatesOnlyIfAbsent | lib/chat.ts:19-26 | a chat is created only if absent, with `participants=[a, b]` in call order; an existing chat and the store are untouched |
| Chat.MergeKeepsWavers | lib/chat.ts:34-38 | after the merge, `wavers` holds `a` and every earlier member, gains no duplicate, and the other fields are kept |
| Chat.ChatIdIffMutual | lib/chat.ts:41-49 | the result is the pair key exactly when the wavers hold both users, and `null` otherwise |
| Chat.MatchedAtOnlyWhenMutual | lib/chat.ts:44-47 | `matchedAt` is written on every mutual call and only then; otherwise chats are untouched |
| Chat.SequentialMutualWave | lib/chat.ts:30-50 | run back to back, `wave(a,b)`, `wave(b,a)`, `wave(a,b)` give `null`, the key, the key, and one chat in the second caller's order |
| WaveButton.WaveIdsDistinct | components/WaveButton.tsx:27-28 | for ids without `_`, the two directions have distinct wave ids |
| WaveButton.ReverseWaveId | components/WaveButton.tsx:27-28 | the reverse wave id is the wave id with the users swapped |
| WaveButton.ChatDocId | components/WaveButton.tsx:29 | the chat room id is the smaller id, `"_"`, then the larger |
| WaveButton.ChatDocIdSymmetric | components/WaveButton.tsx:29 | both users' buttons use the same chat room id |
| WaveButton.ActiveBranch | components/WaveButton.tsx:88-122 | exactly one of the four display guards holds in every state |
| WaveButton.Button.constructor | components/WaveButton.tsx:21-23 | a new button has not waved, sees no reply and has no chat |
| WaveButton.Button.OnReverseWaveSnapshot | components/WaveButton.tsx:36-43 | `otherWaved` is true iff the reverse wave doc exists and is addressed to the current user |
| WaveButton.Button.OnChatSnapshot | components/WaveButton.tsx:45-49 | `chatId` becomes the room id once the room exists, and is never cleared |
| WaveButton.Button.SendWave | components/WaveButton.tsx:58-68 | a no-op once waved or with a chat; otherwise writes `{from, to}` at the wave id and sets `hasWaved` |
| WaveButton.Button.StartChat | components/WaveButton.tsx:71-83 | creates `{users: [current, other]}` only if the room is absent, then routes to the room |
| WaveButton.MutualWaveScenario | components/WaveButton.tsx:20-122 | two buttons that both wave show "Chat now"; after one starts the chat, both show "Open Chat" on the same room |
| Rtdb.Seed | lib/usePresenceWriter.ts:20-25 | the seed `set` replaces the record with exactly `uid`, `online`, `updatedAt` and `agent`; every other field is absent |
| Rtdb.WithNote | lib/usePresenceWriter.ts:94-97 | a note update changes only `note` and `updatedAt` |
| Rtdb.WithPerm | lib/usePresenceWriter.ts:69-72 | the permission update changes only `perm` and `updatedAt` |
| Rtdb.Fallback | lib/usePresenceWriter.ts:45-54 | the fallback writes the sentinel coordinates, `acc 9999`, `note 'fallback'`, online and `updatedAt`, and keeps every other field |
| Rtdb.OneShotFix | lib/usePresenceWriter.ts:82-89 | the one-shot fix writes the position, `acc` or 0, the given note, online and `updatedAt`, and keeps every other field |
| Rtdb.WatchFix | lib/usePresenceWriter.ts:115-124 | a watch write sets the position, `acc` or 0, `hdg`/`spd` or null, clears `note`, online and `updatedAt`, and keeps every other field |
| Rtdb.WentOffline | lib/usePresenceWriter.ts:143-147 | the offline write sets `offline` and `lastSeen`, stamps `updatedAt` only when asked, and keeps every other field |
| Rtdb.Database.Disconnect | lib/usePresenceWriter.ts:28-34 | a lost connection applies the registered offline action once, and otherwise changes nothing |
| Throttling.AcceptedSnoc | lib/usePresenceWriter.ts:110-112 | one more sample is written iff `t - last >= throttleMs`, and then `last := t`; a dropped sample leaves `last` as is |
| Throttling.LastIsLastAccepted | lib/usePresenceWriter.ts:110-112 | `last` is the time of the last written sample |
| Throttling.AcceptedSpaced | lib/usePresenceWriter.ts:110-112 | written samples are at least `throttleMs` apart |
| Throttling.AcceptedFromSamples | lib/usePresenceWriter.ts:110-112 | only delivered samples are written, and no more than were delivered |
| Throttling.AllDropped | lib/usePresenceWriter.ts:110-112 | samples all too close to `last` are all dropped |
| Throttling.BurstKeepsFirst | lib/usePresenceWriter.ts:110-112 | in a burst within one window, only the first sample is written |
| PresenceWriter.MountRecord | lib/usePresenceWriter.ts:15-62 | after mounting, the record is the seed with the insecure-origin or no-geolocation note |
| PresenceWriter.Writer.Mount | lib/usePresenceWriter.ts:13-108 | a null or empty uid writes and registers nothing; otherwise the record is seeded, the offline action with `updatedAt` registered, and the 2 s fallback armed |
| PresenceWriter.Writer.FallbackFires | lib/usePresenceWriter.ts:45-54 | while pending and due, the fallback writes the sentinel record once |
| PresenceWriter.Writer.OneShotSuccess | lib/usePresenceWriter.ts:78-90 | the one-shot fix cancels the fallback and writes the position, keeping the insecure note |
| PresenceWriter.Writer.OneShotError | lib/usePresenceWriter.ts:91-98 | a one-shot error cancels the fallback and changes only `note` and `updatedAt` |
| PresenceWriter.Writer.WatchSample | lib/usePresenceWriter.ts:108-125 | a watch sample is written iff the throttle accepts it; a dropped sample leaves the record and `last` unchanged |
| PresenceWriter.Writer.WatchError | lib/usePresenceWriter.ts:126-132 | a watch error changes only `note` and `updatedAt` |
| PresenceWriter.Writer.PermissionState | lib/usePresenceWriter.ts:65-75 | the permission answer writes `perm` once |
| PresenceWriter.Writer.Unmount | lib/usePresenceWriter.ts:140-148 | teardown cancels the fallback, stops the watch and writes `offline`; without geolocation it only clears the timer |
| PresenceWriter.WatchWritesSpaced | lib/usePresenceWriter.ts:107-112 | the writer's watch writes are at least `throttleMs` apart |
| PresenceWriter.DisconnectSafety | lib/usePresenceWriter.ts:28-34 | after a mount, a lost connection alone leaves the record `offline` with `lastSeen` and `updatedAt` |
| PresenceWriter.FallbackAfterWatchFix | lib/usePresenceWriter.ts:45-54 | a written watch fix does not stop the fallback from replacing it with the sentinel |
| LegacyPresenceWriter.Writer.Mount | lib/presence.ts:14-98 | as the newer writer, with a 4 s fallback and an offline action without `updatedAt` |
| LegacyPresenceWriter.Writer.FallbackFires | lib/presence.ts:43-52 | while pending and due, the fallback writes the sentinel record once |
| LegacyPresenceWriter.Writer.OneShotSuccess | lib/presence.ts:73-85 | the one-shot fix cancels the fallback and keeps the insecure note |
| LegacyPresenceWriter.Writer.OneShotError | lib/presence.ts:86-92 | a one-shot error changes only `note` and `updatedAt` and keeps the fallback pending |
| LegacyPresenceWriter.Writer.WatchSample | lib/presence.ts:97-115 | the same throttle rule: written iff `t - last >= throttleMs`, then `last := t` |
| LegacyPresenceWriter.Writer.WatchError | lib/presence.ts:116-121 | a watch error changes only `note` and `updatedAt` |
| LegacyPresenceWriter.Writer.PermissionState | lib/presence.ts:63-70 | the permission answer writes `perm` once |
| LegacyPresenceWriter.Writer.Unmount | lib/presence.ts:125-129 | teardown writes `offline` and `lastSeen` without `updatedAt`; without geolocation it only clears the timer |
| LegacyPresenceWriter.WatchWritesSpaced | lib/presence.ts:97-102 | the watch writes are at least `throttleMs` apart |
| LegacyPresenceWriter.FallbackAfterOneShotError | lib/presence.ts:86-92 | after a one-shot error the sentinel record is still written when the timer fires |
| LegacyPresenceWriter.LegacyDisconnectKeepsUpdatedAt | lib/presence.ts:29-31 | the disconnect action sets `offline` and `lastSeen` but leaves `updatedAt` |
| ActiveUsersMap.ToLive | components/ActiveUsersMap.tsx:79-87 | a listed user takes its uid from the key and its other fields from the record |
| ActiveUsersMap.ParseSnapshot | components/ActiveUsersMap.tsx:73-91 | a null snapshot gives an empty list; otherwise the list of the entries with coordinates, in key order |
| ActiveUsersMap.LiveEntriesExactly | components/ActiveUsersMap.tsx:76-89 | the parsed list holds exactly the entries with both `lat` and `lng`, so seed rows are skipped |
| ActiveUsersMap.LiveEntriesAppend | components/ActiveUsersMap.tsx:77-89 | the parse keeps key order |
| ActiveUsersMap.Classify | components/ActiveUsersMap.tsx:197-204 | the label is `offline` iff `now - (updatedAt or 0) > 30000`, and nothing else changes |
| ActiveUsersMap.ExcludeViewerMembers | components/ActiveUsersMap.tsx:196 | the first filter keeps exactly the users other than the viewer |
| ActiveUsersMap.ClassifyAllMembers | components/ActiveUsersMap.tsx:197-204 | the map stage relabels every user |
| ActiveUsersMap.KeepOnlineMembers | components/ActiveUsersMap.tsx:205 | the last filter keeps exactly the users labelled online |
| ActiveUsersMap.OthersExactly | components/ActiveUsersMap.tsx:193-206 | a marker is shown exactly for the non-viewer users updated within 30 s (missing `updatedAt` as 0), relabelled online |
| ActiveUsersMap.OthersExcludeViewerAllOnline | components/ActiveUsersMap.tsx:196-205 | no marker is the viewer's own, and every marker is labelled online |
| ActiveUsersMap.StalenessBoundary | components/ActiveUsersMap.tsx:198-205 | 30000 ms old is shown, 30001 ms is dropped, and a missing `updatedAt` counts as 0 |
| ActiveUsersMap.ExcludeViewerAppend | components/ActiveUsersMap.tsx:196 | the viewer filter keeps input order |
| ActiveUsersMap.ClassifyAllAppend | components/ActiveUsersMap.tsx:197-204 | relabelling keeps input order |
| ActiveUsersMap.KeepOnlineAppend | components/ActiveUsersMap.tsx:205 | the online filter keeps input order |
| ActiveUsersMap.OthersAppend | components/ActiveUsersMap.tsx:195-205 | the markers keep the input order |
| ActiveUsersMap.OthersIgnoreStoredState | components/ActiveUsersMap.tsx:202 | lists that differ only in stored `state` give the same markers |
| ActiveUsersMap.Center | components/ActiveUsersMap.tsx:188-191 | the centre is `myPos` when known and the constant default otherwise |
| ActiveUsersMap.PresencePayload | components/ActiveUsersMap.tsx:96-104 | `writePresence` sets the position, `acc` or 0, `updatedAt`, `online` and the writer's uid, and keeps the other fields |
| ActiveUsersMap.MapView.Mount | components/ActiveUsersMap.tsx:62-171 | on mount nothing is known; with geolocation the watch and the fallback timer start and the cleanup is registered, without it nothing starts and no cleanup is registered |
| ActiveUsersMap.MapView.OnSnapshot | components/ActiveUsersMap.tsx:73-92 | a snapshot replaces the user list with its parse |
| ActiveUsersMap.MapView.WritePresence | components/ActiveUsersMap.tsx:96-104 | the update goes to `presence/{uid}`, with `online` and the viewer's uid |
| ActiveUsersMap.MapView.OnSeedFix | components/ActiveUsersMap.tsx:106-116 | a seed fix sets the position, writes it, and marks the view seeded |
| ActiveUsersMap.MapView.OnFix | components/ActiveUsersMap.tsx:152-160 | a watch or nudge fix sets the position and writes it |
| ActiveUsersMap.MapView.FallbackFires | components/ActiveUsersMap.tsx:169-171 | the fallback reseeds iff it is pending and the view is not seeded; the position it tests is the null captured at mount |
| ActiveUsersMap.MapView.Unmount | components/ActiveUsersMap.tsx:144-185 | with a registered cleanup, the timer and the watch stop and `presence/{uid}` is removed; without one, nothing changes |
| ActiveUsersMap.NoGeolocationKeepsRecord | components/ActiveUsersMap.tsx:144-148 | mounting without geolocation and unmounting leaves every `presence` record as it was |
| ActiveUsersMap.GeolocationUnmountRemovesRecord | components/ActiveUsersMap.tsx:178-185 | mounting with geolocation and unmounting removes the viewer's record and nothing else |
| ActiveUsersMap.WatchFixDoesNotStopReseed | components/ActiveUsersMap.tsx:169-171 | a watch fix before the timer does not stop the reseed |
| ActiveUsersMap.SeedStopsReseed | components/ActiveUsersMap.tsx:106-171 | once the seed has succeeded, the fallback never reseeds |
| Profile.LoadDefault | app/profile/page.tsx:26-27 | without a profile doc, the form takes the account's name and photo, or `""` |
| Profile.SavePayload | app/profile/page.tsx:36-46 | `displayName`/`bio`/`photoURL` default to `""` and `interests` to `[]`; a falsy age or gender is undefined; `createdAt` is kept or `now`; `updatedAt` is `now` |
| Profile.Truthy | app/profile/page.tsx:41-42 | `v \|\| undefined` is defined exactly when `v` is defined and not its type's falsy value, and is then `v` |
| Profile.SavePayloadWritable | app/profile/page.tsx:36-47 | Firestore accepts the payload exactly when the form has a non-zero age and a non-empty gender |
| Profile.MergeField | app/profile/page.tsx:47 | a field the merge write defines takes the written value, otherwise the stored one |
| Profile.Merge | app/profile/page.tsx:47 | a merge write replaces each of the nine fields it defines and keeps each one it leaves undefined |
| Profile.MergeNothing | app/profile/page.tsx:47 | a merge write that defines no field leaves the stored profile unchanged |
| Profile.MergeIdempotent | app/profile/page.tsx:47 | repeating the same merge write changes nothing more |
| Profile.MergeSavedPayload | app/profile/page.tsx:36-47 | a payload defining every field replaces the stored profile |
| Profile.TrimAll | app/profile/page.tsx:88 | every piece is trimmed, in order |
| Profile.NonEmpty | app/profile/page.tsx:88 | exactly the non-empty pieces are kept |
| Profile.ParseInterests | app/profile/page.tsx:88 | the parsed interests are non-empty, trimmed and comma-free |
| Profile.TrimAllAppend | app/profile/page.tsx:88 | trimming keeps order |
| Profile.NonEmptyAppend | app/profile/page.tsx:88 | filtering keeps order |
| Profile.ParseAppend | app/profile/page.tsx:88 | the interests of `a + "," + b` are those of `a` followed by those of `b` |
| Profile.ParseLeadingSpace | app/profile/page.tsx:88 | a leading space does not change the parse |
| Profile.ParseSingle | app/profile/page.tsx:88 | a single clean interest parses to itself |
| Profile.InterestsRoundTrip | app/profile/page.tsx:87-88 | parsing the `", "`-joined text of non-empty, trimmed, comma-free interests gives them back |
| Profile.ReparseStable | app/profile/page.tsx:87-88 | re-parsing the shown text leaves the interests unchanged |
| Profile.ProfilePage.constructor | app/profile/page.tsx:16-18 | the page starts with an empty form, not saving |
| Profile.ProfilePage.Load | app/profile/page.tsx:21-30 | signed out, nothing happens; otherwise the form is the stored profile or the account defaults |
| Profile.ProfilePage.EditInterests | app/profile/page.tsx:88 | editing the field stores the parsed interests in the form |
| Profile.ProfilePage.EditAge | app/profile/page.tsx:73-78 | the age input sets `age` and changes nothing else in the form |
| Profile.ProfilePage.EditGender | app/profile/page.tsx:79-83 | the gender input sets `gender` and changes nothing else in the form |
| Profile.ProfilePage.Save | app/profile/page.tsx:32-50 | signed out, nothing happens; an accepted payload is merged into `users/{uid}` and `loading` ends false; a refused one stores nothing and leaves `loading` set |
| Profile.ProfilePage.SaveKeepingCreatedAt | app/profile/page.tsx:32-50 | the same save, also keeping the written `createdAt` in the form when the write is accepted |
| Profile.SecondSaveMovesCreatedAt | app/profile/page.tsx:44 | as written, a new user who fills in an age and a gender and saves twice gets the second save's time as `createdAt` |
| Profile.SaveWithoutAgeRefused | app/profile/page.tsx:41-47 | a new user saving without an age stores nothing |
| Profile.CreatedAtStable | app/profile/page.tsx:44 | with the corrected save, on the same input, `createdAt` stays at the first save's time |
| ChatsPage.FreshId | app/chat/chats/page.tsx:50 | a fresh id is the UUID when non-empty, else `"local-"` plus the suffix, never empty |
| ChatsPage.EnsureLocalUid | app/chat/chats/page.tsx:47-54 | a stored `debugUid` is returned unchanged; otherwise a fresh id is stored under it and returned |
| ChatsPage.GetUidWithStickyFallback | app/chat/chats/page.tsx:37-46 | with `authFallback == "1"`, no sign-in and the local id; on success, the credential uid and storage unchanged; on failure, `authFallback` set and the local id |
| ChatsPage.EnsureLocalUidTwice | app/chat/chats/page.tsx:47-54 | a second call returns the same id |
| ChatsPage.FallbackIsSticky | app/chat/chats/page.tsx:37-46 | after one failed sign-in, later calls skip sign-in and return the same local id |

## Left out

- Firebase SDK internals are not modelled:
  - transaction retries and conflict handling;
  - how `serverTimestamp` resolves;
  - how snapshots are delivered;
  - the server's enforcement of `onDisconnect`.

  A transaction body is one atomic step. A server timestamp is a clock
  parameter. A disconnect is an explicit `Rtdb.Database.Disconnect` call.
- Failed writes, swallowed by `.catch(() => {})`, are not modelled: every
  write is modelled as applied.
- Concurrency and interleavings are not modelled:
  - the steps of `waveAndMaybeOpenChat` are modelled run back to back;
  - the map and the presence writer both write `presence/{uid}`, and their
    interleavings are not modelled;
  - other clients' writes are not modelled.
- The geolocation API, permission queries, `isSecureContext` and
  `navigator.userAgent` are event inputs and parameters:
  - their options and timeouts are not modelled;
  - callbacks may arrive at any time;
  - a rejected permission query is an event that never arrives.
- `Math.random`, `crypto.randomUUID` and the sign-in call are parameters.
- Coordinates are opaque reals. No float arithmetic or `Number(...)`
  conversion is modelled. NaN is not modelled.
- `Text.LessEq` compares strings by code point. JavaScript's default sort
  compares UTF-16 code units, which differ only for characters outside
  the Basic Multilingual Plane.
- The following UI parts are not modelled:
  - `Recenter` (components/ActiveUsersMap.tsx:31-60);
  - all JSX, markers and popups;
  - the `msg` and `follow` state;
  - the `Math.round`/`toFixed`/`slice` display strings;
  - the display name, photo URL and bio inputs;
  - `alert`;
  - router navigation, which is modelled only as the returned route.
- The chats page's `onAuthStateChanged` listener (app/chat/chats/page.tsx:15-22)
  and its rendering are not modelled. Only the uid helpers are.
- ActiveUsersMap.ParseSnapshot: a `lat` or `lng` that is present but is
  not a number cannot be expressed in the record type. Such a field is
  modelled as absent.
- Profile.ProfilePage.Save: Firestore's refusal of a payload holding
  `undefined` is modelled as a write that changes nothing. The rejected
  promise and the error it carries are not modelled.
- Profile.SavePayload: the two `Date.now()` calls of `save` are modelled
  as one instant.
- The Writer constructors (`PresenceWriter.Writer.Mount`,
  `LegacyPresenceWriter.Writer.Mount`): an effect re-run on a change of
  `uid` or `throttleMs` is modelled as `Unmount` followed by a new
  `Mount`.
- ActiveUsersMap.MapView: the location effect re-running on a change of
  `uid` is not modelled. The view's `uid` is fixed, so the effect runs
  once, at mount, and the position its fallback tests is always the null
  it saw then.
- app/page.tsx, app/main/page.tsx, lib/firebase.ts,
  components/PresenceWrapper.tsx, lib/map-icons.ts, app/auth-test/page.tsx
  and lib/types.ts are not part of this model. They are auth glue, SDK
  set-up, configuration and type declarations.

## Findings

| source | as written | input that shows it | evidently intended | confidence | as-written member | corrected member |
|---|---|---|---|---|---|---|
| lib/social.ts:39-43 | on an existing wave document the transaction updates it (line 39) and then reads the chat document (line 43); a Firestore transaction refuses a read after a write, so the run that completes the match fails | `b` has waved at `a` (wave doc `wavedBy=[b]`), then `a` calls `sendWaveAndMaybeOpenChat({fromUid: a, toUid: b})` | read the chat document before the first write, so the mutual wave commits and returns `CHAT_READY` | not executed; high | Social.AsWrittenMutualWaveFails | Social.CorrectedBodyCommits |
| app/profile/page.tsx:44 | `createdAt` comes from the form, which a save never updates, so on a user with no profile each save on the page writes its own time as `createdAt` | new user: load, enter a non-zero age and a non-empty gender, save at `t1`, save at `t2` → stored `createdAt == t2` | `createdAt` stays at the first save's time | not executed; medium | Profile.SecondSaveMovesCreatedAt | Profile.CreatedAtStable |
