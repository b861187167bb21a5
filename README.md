# Room engine of a drawing-telephone party-game server

This project models, in Dafny, the room engine of a socket server for a
"telephone" party game. Players join a room under a four-character code. Each
player writes a topic. The topics seed one chain per player. In every round
each player adds either a drawing (even rounds) or a guess (odd rounds) to the
chain that the rotation rule assigns them. After `N - 1` rounds the host walks
everyone through the finished chains.

The engine is a sequential state machine. Every socket handler runs to
completion and only changes in-memory records. The model therefore has:

- `rotation.dfy` (module `Rotation`): the chain-relay rule `getChainForPlayer`,
  written with JavaScript's truncating `%` and proved equal to the
  mathematical residue `(p - 1 - r) mod N`. It is a permutation of the seats
  in every round. During the `N - 1` rounds a seat never gets its own chain and
  never gets the same chain twice.
- `types.dfy` (module `Types`): players, chain entries, chains, phases, the
  outbound messages, `broadcast`, `onlineCount`, `findIndex` and `trim`.
  A sent message is an `Emit(connection, message)` appended to the room's
  outbox. Delivery is not modelled.
- `engine.dfy` (module `Engine`): the room as a value (`Snapshot`). It holds
  the functions that say what `autoSubmitForInactive`, `buildChains`,
  `startRound`, `handleSubmission`, `submitTopic` and `restoreState` leave
  behind, and the lemmas about the round barrier. That includes the round
  ledger: with distinct sessions, when the `N`-th submission is accepted,
  every chain is exactly one entry longer than the round found it.
- `lifecycle.dfy` (module `Lifecycle`): the same for `startGame`, the reveal
  sequencer, `newGame`, `backToLobby`, `leaveRoom`, `kickPlayer`,
  `disconnect`, `reconnectSession` and `joinRoom`.
- `room.dfy` (module `Rooms`): class `Room`, with one field per field of the
  server's room record plus the outbox. Its methods do what the handlers do,
  step by step, with the server's loops. Each is proved to leave exactly the
  state that the matching function above describes.
- `server.dfy` (module `Registry`): class `Server`, with the `rooms` and
  `sessions` registries as maps. Its handlers find the caller's room with
  `findBySocket` or `findByHost` and delegate to the room. It also deletes a
  room left empty and keeps the session registry up to date.

Behaviour of the code that the model reproduces as written:

- A second topic from the same seat overwrites the first (server.js:241).
- `kickPlayer` does not check that the caller is the host (server.js:343-348).
  Any member of the room can kick an offline player.
- `disconnect` only marks the seat offline and broadcasts (server.js:378-392).
  No timer ever removes a disconnected seat, in the lobby or in a game.
- `startGame` and `newGame` do not check the phase (server.js:229-236, 301-305).
- `leaveRoom` removes the seat even during a game (server.js:325). So the
  number of chains can exceed the number of seats. The room invariant is only
  `|players| <= |chains|` while a game is running.
- `joinRoom` does not check that a display name is non-empty after trimming.
  The room-full check applies only in the lobby (server.js:222-223).
- `joinRoom` in the lobby rejects a taken name but not a taken session id
  (server.js:222-225), and the session id is whatever the client sends
  (server.js:190, 198).
- A mid-game `joinRoom` replaces the seat's `sessionId` (server.js:209). It
  leaves `roundSubmissions` and `hostSessionId` keyed by the old session.
  `RejoinRepromptsSubmitted` shows the effect: a seat that had already
  submitted is prompted again, and its new session is not counted as
  submitted. `RejoinDropsHost` shows that a rejoining host leaves the room
  with no host.

## Model

| member | source | states |
|---|---|---|
| Rotation.JsRem | server.js:39 | JavaScript's `%` for a positive divisor: the remainder lies strictly between `-n` and `n` and has the sign of the dividend |
| Rotation.ChainFor | server.js:39 | the `+N)%N` repair always yields a chain index in `[0, N)` |
| Rotation.ChainForIsMod | server.js:39 | for every seat and round, the double-remainder formula equals the Euclidean residue `(p - 1 - r) mod N` |
| Rotation.ChainForInjective | server.js:39 | within one round, two seats of `[0, N)` with the same chain are the same seat |
| Rotation.ChainForOnto | server.js:39 | within one round, every chain `c` is worked on by seat `SeatFor(N, c, r)`, so the assignment is a permutation of the seats |
| Rotation.SeatForExactly | server.js:39 | seat `p` works on chain `c` in round `r` if and only if `p` is `SeatFor(N, c, r)` |
| Rotation.NeverOwnChain | server.js:39 | in rounds `0 <= r < N - 1` (`totalRounds`, set at line 80) no seat is assigned its own chain |
| Rotation.NeverSameChainTwice | server.js:39 | in rounds `0 <= r < N - 1` a seat is never assigned the same chain in two different rounds |
| Rotation.VisitsEveryOtherChain | server.js:39 | over rounds `0 .. N-2` every seat is assigned every chain except its own, in round `(p - 1 - c) mod N` |
| Types.Broadcast | server.js:34-36 | every connected seat gets exactly its per-recipient payload, each message goes to some connected seat, and there is at most one message per seat |
| Types.BroadcastAppend | server.js:34-36 | `broadcast` follows roster order: broadcasting to a joined roster is broadcasting to the first part and then to the second, and one seat gets exactly one message when it has a connection and none otherwise |
| Types.OnlineCount | server.js:37 | the count is at most the roster size; it equals the roster size exactly when all seats are online, and is 0 exactly when none is |
| Types.FindIndex | server.js:112 | `findIndex`: returns -1 exactly when no seat matches; otherwise the first matching seat |
| Types.AppendEntry | server.js:115 | pushing onto `chains[c].entries` adds the entry at the end of chain `c` and leaves every other chain and chain `c`'s seed unchanged |
| Types.Views | server.js:50-52 | the status payload lists every seat, in order, with its name, online flag, kicked flag and session |
| Types.Trim | server.js:241 | `trim()` returns a contiguous slice of the input; everything cut from either end is white space, and the result neither starts nor ends with white space |
| Types.Filter | server.js:310 | `filter` keeps exactly the elements that pass the test and never lengthens the list |
| Types.FilterAppend | server.js:310 | `filter` keeps order: the filter of a joined list is the join of the filtered parts, and one element stays exactly when it passes |
| Types.FilterFirst | server.js:354-357 | the filtered list is empty exactly when `findIndex` finds no passing element; otherwise its first element is the first passing element of the original |
| Engine.AutoSubmitContent | server.js:42-46 | the auto-submitted content is empty exactly on drawing (even) rounds, and on guess (odd) rounds it is the marker `(時間切れ)` |
| Engine.AutoFillFrom | server.js:57-71 | auto-submission only appends to chains, keeping seeds and earlier entries, and only adds to the round's submissions |
| Engine.AutoFillSubmits | server.js:57-71 | afterwards the submissions are the earlier ones plus the session of every kicked-or-offline seat, and no other session |
| Engine.AutoFillAppends | server.js:57-71 | with distinct sessions, each inactive, unsubmitted seat adds exactly one placeholder (its kind and content set by the round's parity) to its assigned chain; every chain assigned to no such seat is unchanged |
| Engine.AutoFillExtends | server.js:57-71 | with distinct sessions, each inactive, unsubmitted seat from position `i` on adds exactly its placeholder to the end of its assigned chain |
| Engine.AutoFillKeeps | server.js:57-71 | a chain that no inactive, unsubmitted seat from position `i` on is assigned stays as it was |
| Engine.LedgerAfterFill | server.js:57-71 | after the round-start auto-submission, a chain is one entry longer exactly when the seat assigned to it this round has submitted |
| Engine.FillOneChain | server.js:57-71 | with distinct sessions, chain `c` gains one entry exactly when the seat the rotation hands it to this round was auto-submitted |
| Engine.Record | server.js:110-120 | accepting a submission keeps the roster and round and adds exactly the submitter's session to the submissions |
| Engine.SeedChains | server.js:73-78 | `buildChains` gives one chain per seat: chain `i` is seeded by seat `i`, and its only entry is that seat's topic |
| Engine.TopicCount | server.js:243 | the topic count is at most `N`, and equals `N` exactly when every seat index has a topic |
| Engine.PromptsSound | server.js:99-105 | every `yourTurn` that `startRound` sends goes to a connected, unkicked, unsubmitted seat and shows the last entry of that seat's chain |
| Engine.PromptsComplete | server.js:99-105 | every connected, unkicked, unsubmitted seat gets its `yourTurn` |
| Engine.PromptsNone | server.js:99-105 | when no seat is awaited, no `yourTurn` is sent |
| Engine.StartRoundOutcome | server.js:84-108 | `startRound` terminates; it keeps the roster and only grows chains; if the round stays open, every inactive seat has submitted and fewer than `N` have; once the round index moved, the phase is `reveal` exactly when `currentRound >= totalRounds` |
| Engine.AdvanceOutcome | server.js:121-128 | completing a round increments `currentRound`, and the phase becomes `reveal` exactly when `currentRound >= totalRounds` |
| Engine.StartRoundOpen | server.js:84-108 | when auto-submission leaves fewer than `N` submissions, `startRound` stays in the round with the filled chains and submissions |
| Engine.StartRoundClosed | server.js:89-96 | when auto-submission alone reaches `N` submissions, `startRound` moves the round index on without waiting |
| Engine.StartRoundLedger | server.js:84-98 | `startRound` opens the round's ledger on the chains it found; if auto-submission completes the round, every chain got exactly one entry first |
| Engine.AllSubmitted | server.js:88-91 | when every seat is kicked or offline, auto-submission records every seat, and with distinct sessions that makes `N` submissions |
| Engine.AllInactiveNoPrompt | server.js:84-108 | when every seat is kicked or offline, `startRound` sends no `yourTurn`; with distinct sessions every remaining round closes by itself and the game ends in `reveal` |
| Engine.AllInactiveAdvance | server.js:91-96 | the same for the round barrier: no prompt is sent, and with distinct sessions the room reaches `reveal` |
| Engine.SubmitOutcome | server.js:110-129 | an unknown or already-submitted session changes nothing; otherwise exactly one entry `{type, content, playerName}` goes to the submitter's assigned chain and the session is recorded; below `N` submissions no other chain changes; at `N` the round index moves on and the phase is `reveal` exactly when `currentRound >= totalRounds` |
| Engine.SubmitTwiceIgnored | server.js:113 | a second submission from the same session in the same round leaves the state unchanged |
| Engine.PromptStable | server.js:114-115 | another seat's submission never changes the prompt owed to a seat, because it goes to a different chain |
| Engine.LedgerRecord | server.js:110-116 | an accepted submission keeps the round's ledger: the submitter's chain gains its one entry and no other chain changes |
| Engine.FullRoundAllSeats | server.js:121 | with distinct sessions, `N` recorded submissions mean every seat has submitted |
| Engine.LedgerFull | server.js:121 | once the ledger holds `N` submissions, every chain is exactly one entry longer than at the round's start, with its earlier entries unchanged |
| Engine.SubmitLedger | server.js:110-129 | a submission keeps the ledger while the round stays open; the one that closes the round leaves every chain exactly one entry longer, earlier entries intact, before the round index moves on |
| Engine.RestoreEmits | server.js:131-156 | a seat with no connection gets nothing; outside the lobby a returning seat gets one or two messages, all addressed to its own connection; in `topics` it gets two messages (written, then the progress out of `N`) exactly when it has a topic, and is asked for one exactly when it has none; in `playing` it gets one message, a `yourTurn` exactly when its session has not submitted; in `reveal` it gets the chains |
| Engine.RestoreRepeatsPrompt | server.js:141-149 | during play, a returning seat that still owes its entry gets exactly the `yourTurn` that `startRound` sends that seat |
| Engine.RestoreAfterSubmitWaits | server.js:142-143 | during play, a returning seat that has submitted gets exactly one message, the wait state with the current submission count and the number of seats |
| Engine.RestoreRepeatsTopicProgress | server.js:134-137 | while topics are still being collected, a returning seat that has written its topic gets the same two messages the room sent when it was written (server.js:241-244), with a count below `N` |
| Engine.RestoreRepeatsReveal | server.js:152-155 | after the last round, a returning seat gets exactly the `allRevealed` message the reveal broadcast sent it (server.js:123-126) |
| Engine.PromptSameGame | server.js:145-148 | the prompt a seat is owed depends only on the roster size, the round and the chains, so changing a seat's connection does not change it |
| Engine.BeginPlayOutcome | server.js:73-82 | entering play seeds chain `c` with seat `c`'s topic, one chain per seat, sets `totalRounds = N - 1`, and runs the first round |
| Engine.TopicOutcome | server.js:238-246 | recording a topic overwrites the seat's earlier one; while a seat lacks a topic the room stays in `topics` and the chains are unchanged; once all seats have one, play starts with `N` chains and `totalRounds = N - 1` |
| Engine.ScheduleBegin | server.js:73-82 | with at least two seats and distinct sessions, play starts on schedule (every chain holds its topic), and whenever it goes straight to the reveal every chain holds `N` entries |
| Engine.ScheduleStartRound | server.js:84-98 | with distinct sessions, a round that starts with `1 + currentRound` entries per chain is left on schedule, or at the reveal with `1 + totalRounds` entries in every chain, through every round auto-submission alone completes |
| Engine.ScheduleAdvance | server.js:121-128 | closing a round in which every chain got its entry starts the next round on schedule, or reaches the reveal with `1 + totalRounds` entries in every chain |
| Engine.ScheduleSubmit | server.js:110-129 | with distinct sessions, every submission keeps the game on schedule, and the one that closes the last round leaves `1 + totalRounds` entries in every chain |
| Engine.ScheduleRecord | server.js:114-116 | an accepted submission puts the entry on exactly the chain whose seat owed it, so the per-chain count stays on schedule |
| Lifecycle.StartGameOutcome | server.js:229-236 | fewer than three players changes nothing; otherwise topics are cleared, the phase is `topics` whatever it was, and every connected seat is asked for a topic with its own host flag |
| Lifecycle.RestoreRepeatsEnterTopic | server.js:138 | a returning seat without a topic is asked for one with exactly the message, host flag included, that `startGame` and `newGame` sent it (server.js:235, 304) |
| Lifecycle.RevealKeeps | server.js:260-299 | the reveal handlers change nothing outside `reveal` and never change the chains, roster, round or submissions; `startReveal` sets the cursor to chain 0 step 0; `nextRevealStep` does nothing when the chain index is out of range and otherwise increments the step by one on the same chain; `nextChain` increments the chain index and resets the step to 0 exactly when a chain remains |
| Lifecycle.RevealStepShows | server.js:270-284 | within a chain, `nextRevealStep` increments the step and shows that entry to every connected seat, flagged last exactly at the chain's final entry |
| Lifecycle.ChainCompleteShows | server.js:274-276 | past the last entry, `nextRevealStep` sends the whole chain with `hasMoreChains` exactly when a later chain exists |
| Lifecycle.RevealWalk | server.js:270-284 | `k` presses of "next step" advance the step by exactly `k`, stay on the chain and change nothing else |
| Lifecycle.NewGameOutcome | server.js:301-305 | `newGame` from any phase clears topics, chains, round, submissions and cursor, enters `topics`, keeps roster and host, and asks every connected seat for a topic |
| Lifecycle.Unkicked | server.js:310 | the filtered roster holds exactly the unkicked seats |
| Lifecycle.UnkickedKeepsOrder | server.js:310 | dropping kicked seats keeps the others in roster order: it distributes over joined rosters and keeps one seat exactly when it is not kicked |
| Lifecycle.BackToLobbyOutcome | server.js:307-314 | `backToLobby` keeps exactly the unkicked seats in their order (`Unkicked`, so `UnkickedKeepsOrder` applies), clears the game and returns to the lobby with the same host session; the room invariant holds and messages are only added |
| Lifecycle.Remove | server.js:325 | `splice(j, 1)` removes seat `j` and keeps the others in order |
| Lifecycle.LeaveOutcome | server.js:317-340 | leaving removes exactly the leaver's seat in any phase; with distinct sessions the leaver's session is gone; a departing host is replaced by the new `players[0]`, otherwise the host is unchanged; the chains and submissions are kept |
| Lifecycle.LeftOutcome | server.js:325-335 | the departure before its broadcast, with the same guarantees as `LeaveOutcome` |
| Lifecycle.Without | server.js:354 | the filtered roster holds exactly the seats of other sessions |
| Lifecycle.WithoutKeepsOrder | server.js:354 | removing a session's seats keeps the others in roster order: it distributes over joined rosters and keeps one seat exactly when it belongs to another session |
| Lifecycle.KickLobbyOutcome | server.js:343-358 | a missing or online target changes nothing; in the lobby an accepted kick leaves exactly `Without(players, sid)`, in the old order; the roster is empty exactly when no seat of another session existed, and otherwise its first seat is the first such seat of the old roster; a kicked host is replaced by that seat, otherwise the host is unchanged; a room with a host keeps one |
| Lifecycle.KickFromLobbyOutcome | server.js:352-358 | the lobby kick before its broadcast, with the same guarantees |
| Lifecycle.KickFillOutcome | server.js:363-372 | during topics the kicked seat gets a topic; during play its session has submitted unless the round moved on |
| Lifecycle.KickGameOutcome | server.js:359-374 | in a game an accepted kick flags the target `kicked` at its index and changes no other seat; in `topics` a seat without a topic gets `'(退室)'` and other topics are kept; in `playing` an unsubmitted target adds exactly its placeholder to its assigned chain: while the round stays open that is the only change to the chains and its session joins the submissions, and when it was the last entry awaited every chain keeps that content, the round index moves on and the phase is `reveal` exactly when `currentRound >= totalRounds`; a submitted target or the `reveal` phase leaves the chains unchanged |
| Lifecycle.KickedInGameOutcome | server.js:359-373 | the in-game kick before its status broadcast, with the same guarantees as `KickGameOutcome` |
| Lifecycle.KickFillTopics | server.js:364-369 | while topics are collected, the kicked seat gets `'(退室)'` if it had no topic, and otherwise nothing changes |
| Lifecycle.KickFillPlay | server.js:370-371 | during play, an unsubmitted kicked seat gets the round's auto-submission on its assigned chain, closing the round when it was the last one awaited; a submitted seat changes no chain |
| Lifecycle.KickSchedule | server.js:359-374 | with distinct sessions, a kick during play keeps the game on schedule, or reaches the reveal with `1 + totalRounds` entries in every chain |
| Lifecycle.KickedOnSchedule | server.js:361 | flagging a seat kicked moves no session, so the schedule is kept |
| Lifecycle.KickFillSchedule | server.js:370-371 | with distinct sessions, the kicked seat's auto-submission keeps the schedule |
| Lifecycle.DisconnectOutcome | server.js:378-392 | a disconnect takes exactly one seat offline without a connection, lowers the online count by one if the seat was online, and leaves phase, chains, topics, submissions and host unchanged |
| Lifecycle.DisconnectOnSchedule | server.js:378-392 | a disconnect in mid-game keeps the game on schedule: the seat keeps its session and no chain changes |
| Lifecycle.SeatOnSchedule | server.js:179-181 | replacing a seat by one with the same session (new connection, online flag or kick flag) keeps the schedule |
| Lifecycle.ReconnectOutcome | server.js:174-187 | a reconnect brings exactly the found seat back online on the new connection under the same session, and changes nothing of the game |
| Lifecycle.ReconnectCount | server.js:179-184 | a reconnect raises the online count by one for a seat that was offline |
| Lifecycle.ReconnectOnSchedule | server.js:174-187 | a reconnect in mid-game keeps the game on schedule |
| Lifecycle.ReconnectRestoresPrompt | server.js:174-187 | during play, a reconnecting seat that owes its entry gets, as its last message, the prompt `startRound` sent it |
| Lifecycle.ReconnectRestoresWait | server.js:174-187 | during play, a reconnecting seat that has submitted gets, as its last message, the wait state with the round's progress |
| Lifecycle.JoinLobbyOutcome | server.js:222-226 | a lobby join appends exactly the newcomer, online, and only when the answer is `Joined`; the room never exceeds eight seats and names stay distinct |
| Lifecycle.RejoinOutcome | server.js:202-219 | a mid-game rejoin puts the seat online under the new session and connection and changes nothing else, including the submissions and the host session |
| Lifecycle.RejoinRepromptsSubmitted | server.js:207-219 | a seat that had submitted and rejoins is prompted again for the same round, and its new session is not counted as submitted |
| Lifecycle.RejoinDropsHost | server.js:209 | with distinct sessions, a host that rejoins under a new session leaves no seat holding the host session |
| Lifecycle.SubmitEntryOutcome | server.js:248-258 | with distinct sessions: a caller with no seat, or a seat that already submitted, changes nothing; otherwise the drawing or guess goes to the end of the chain the seat is assigned this round; while the round stays open no other chain changes, and when it closes the round every chain keeps that content, the round index moves on and the phase is `reveal` exactly when `currentRound >= totalRounds` |
| Lifecycle.SubmitBySeat | server.js:248-258 | the same guarantees once the caller's seat `i` is found, for the session of that seat (server.js:110-129) |
| Rooms.Room.constructor | server.js:191-192 | a new room holds only the creator, online, as host, in the lobby with no topics, chains or submissions |
| Rooms.Room.BroadcastLobby | server.js:158-166 | sends `roomState` to every connected seat, with its own host flag, and changes nothing else |
| Rooms.Room.BroadcastStatus | server.js:49-54 | sends `playersStatus` to every connected seat and changes nothing else |
| Rooms.Room.AutoSubmitForInactive | server.js:57-71 | the loop over the roster leaves exactly the chains and submissions of `AutoFillFrom` |
| Rooms.Room.BuildChains | server.js:73-82 | the loop leaves the seeded chains, `currentRound = 0`, `totalRounds = N - 1` and no submissions |
| Rooms.Room.StartRound | server.js:84-108 | leaves exactly the state of `StartRoundSpec`; recursion is bounded by `totalRounds - currentRound` |
| Rooms.Room.SendPrompts | server.js:99-105 | the prompt loop appends exactly `Prompts` and changes nothing else |
| Rooms.Room.Advance | server.js:121-128 | leaves exactly the state of the round barrier `AdvanceSpec` |
| Rooms.Room.HandleSubmission | server.js:110-129 | leaves exactly the state of `SubmitSpec` |
| Rooms.Room.RecordEntry | server.js:114-120 | leaves exactly the state of `Record` |
| Rooms.Room.StartGame | server.js:232-235 | answers success exactly when the roster has at least three seats, and leaves the state of `StartGameSpec` |
| Rooms.Room.FinishTopic | server.js:241-245 | leaves exactly the state of `Engine.FinishTopic` and keeps the room invariant |
| Rooms.Room.BeginPlay | server.js:245 | leaves exactly the state of `Engine.BeginPlay` |
| Rooms.Room.SubmitTopic | server.js:238-246 | leaves exactly the state of `SubmitTopicSpec` and keeps the room invariant |
| Rooms.Room.SubmitEntry | server.js:248-258 | leaves exactly the state of `SubmitEntrySpec` and keeps the room invariant |
| Rooms.Room.StartReveal | server.js:260-268 | leaves exactly the state of `StartRevealSpec` |
| Rooms.Room.NextRevealStep | server.js:270-284 | leaves exactly the state of `NextRevealStepSpec` |
| Rooms.Room.NextChain | server.js:286-299 | leaves exactly the state of `NextChainSpec` |
| Rooms.Room.NewGame | server.js:301-305 | leaves exactly the state of `NewGameSpec` |
| Rooms.Room.BackToLobby | server.js:307-314 | leaves exactly the state of `BackToLobbySpec` |
| Rooms.Room.Restore | server.js:131-156 | appends exactly `RestoreEmits` and changes nothing else |
| Rooms.Room.Reconnect | server.js:179-186 | leaves exactly the state of `ReconnectSpec` |
| Rooms.Room.MarkOnline | server.js:179-185 | leaves exactly the state of `Reconnected` |
| Rooms.Room.Rejoin | server.js:202-219 | leaves exactly the state of `Lifecycle.Rejoin` |
| Rooms.Room.Join | server.js:197-227 | answers `JoinReplyFor` and leaves exactly the state of `JoinSpec` |
| Rooms.Room.Leave | server.js:317-340 | leaves exactly the state of `LeaveSpec` |
| Rooms.Room.Disconnect | server.js:378-392 | leaves exactly the state of `DisconnectSpec` |
| Rooms.Room.Kick | server.js:343-376 | answers `KickReplyFor` and leaves exactly the state of `KickSpec` |
| Rooms.Room.KickFromLobby | server.js:352-358 | leaves exactly the state of `Lifecycle.KickFromLobby` |
| Rooms.Room.KickInGame | server.js:359-374 | leaves exactly the state of `Lifecycle.KickInGame` |
| Registry.UpperChar | server.js:199 | the ASCII part of upper-casing: each lower-case ASCII letter maps to its own capital (32 code points lower) and every other character is left unchanged |
| Registry.Upper | server.js:199 | upper-casing keeps the length and works character by character |
| Registry.UpperOnCodes | server.js:199 | every code `genCode` can produce is its own upper case, upper-casing is idempotent, only a four-character input can upper-case to a code, and a code typed with any of its letters in lower case upper-cases to exactly that code, so it finds its room |
| Registry.Server.FindFrom | server.js:168-169 | a lookup returns only a registered room that matches |
| Registry.Server.FindFromFirst | server.js:168-169 | a lookup returns the first matching room in registry order, and returns nothing exactly when no room matches |
| Registry.Server.FindFromFound | server.js:168-169 | a returned room is the first match at or after the starting position |
| Registry.Server.FindFromNone | server.js:168-169 | nothing is returned exactly when no room at or after the starting position matches |
| Registry.Server.FindBySocket | server.js:169 | `findBySocket` returns a room with a seat on the connection, and returns nothing exactly when no room has one |
| Registry.Server.FindByHost | server.js:168 | `findByHost` returns a room whose first seat on the connection holds the host session, and returns nothing exactly when there is none |
| Registry.Server.constructor | server.js:26-27 | both registries start empty |
| Registry.Server.CreateRoom | server.js:189-195 | files a fresh room under an unused 4-character code from the 32-symbol alphabet, records the creator's session, and sends the lobby state |
| Registry.Server.ReconnectSession | server.js:174-187 | succeeds exactly when the session, its room and its seat all exist; it then reconnects that seat, and no other room changes |
| Registry.Server.ReconnectSeat | server.js:179-186 | reconnects one seat of one room, and no other room changes |
| Registry.Server.StartGame | server.js:229-236 | answers "no room" when the caller hosts none, else the room's answer; only that room changes |
| Registry.Server.SubmitTopic | server.js:238-246 | applies `SubmitTopicSpec` to the caller's room only |
| Registry.Server.SubmitEntry | server.js:248-258 | applies `SubmitEntrySpec` to the caller's room, trimming a guess and not a drawing |
| Registry.Server.EntryIn | server.js:249-257 | applies `SubmitEntrySpec` to one room and changes no other room |
| Registry.Server.StartReveal | server.js:260-268 | applies `StartRevealSpec` to the room the caller hosts, and to nothing when the caller is not a host |
| Registry.Server.NextRevealStep | server.js:270-284 | applies `NextRevealStepSpec` to the room the caller hosts, and to nothing when the caller is not a host |
| Registry.Server.NextChain | server.js:286-299 | applies `NextChainSpec` to the room the caller hosts, and to nothing when the caller is not a host |
| Registry.Server.NewGame | server.js:301-305 | applies `NewGameSpec` to the room the caller hosts |
| Registry.Server.BackToLobby | server.js:307-314 | applies `BackToLobbySpec` to the room the caller hosts |
| Registry.Server.JoinRoom | server.js:197-227 | looks up the upper-cased code and answers "not found" exactly when it is missing; otherwise applies `JoinSpec`; a fresh join adds the session, and a rejoin moves the session entry from the old session to the new one |
| Registry.Server.JoinIn | server.js:202-226 | the join on a found room, with the session registry updated as `JoinSessions` says |
| Registry.Server.JoinSeat | server.js:202-226 | the room's answer and new state for a join, with no other room changed |
| Registry.Server.DropRoom | server.js:331 | removes exactly that code from the registry, and `order` becomes the old creation order without that code (`WithoutCode`), every other code kept in its place |
| Registry.Server.LeaveRoom | server.js:317-340 | fails exactly when the caller is in no room; otherwise removes the seat, forgets its session, and deletes the room if it is left empty, dropping its code from `order` (`WithoutCode`) and otherwise leaving `order` unchanged |
| Registry.Server.LeaveSeat | server.js:320-326 | removes one seat and forgets its session |
| Registry.Server.LeaveAt | server.js:320-339 | the departure from one found room: removes the seat, forgets the session, deletes the room exactly when it is left empty (and then `order` becomes `WithoutCode(old order, code)`, else `order` is unchanged), and changes no other room |
| Registry.Server.KickPlayer | server.js:343-376 | answers "no room" when the caller is in none; otherwise applies `KickSpec`; an accepted kick forgets the target's session and deletes a room left empty, dropping its code from `order` (`WithoutCode`); otherwise `order` is unchanged |
| Registry.Server.KickIn | server.js:344-375 | the kick on a found room, forgetting the target's session when accepted |
| Registry.Server.KickAt | server.js:344-375 | the kick on one found room: answers `KickReplyFor`, applies `KickSpec`, deletes the room exactly when an accepted kick empties it (and then `order` becomes `WithoutCode(old order, code)`, else `order` is unchanged), and changes no other room |
| Registry.Server.Disconnect | server.js:378-392 | the loop over the rooms takes offline the first seat on the connection in the first room that has one, and changes no other room |
| Registry.Server.DisconnectSeat | server.js:381-389 | takes one seat of one room offline as `DisconnectSpec` says, and changes no other room |
| Registry.WithoutCode | server.js:331 | the code list without the deleted code: exactly the other codes remain |
| Registry.WithoutCodeKeepsOrder | server.js:331 | deleting a code keeps the remaining codes in creation order: it distributes over joined lists and keeps one code exactly when it differs |

## Left out

- The HTTP/HTTPS bootstrap, static file serving, the HTML lookup, certificates, port and address listing, and console logging (server.js:1-24, 395-431). They are I/O around the engine.
- socket.io delivery, `socket.join`/`socket.leave` and the reply callbacks. Outbound messages are an appended outbox of `(connection, message)`. Replies are method results.
- Registry.Server.CreateRoom: `genCode` draws the code with `Math.random` and retries on collision. The model takes the drawn code as a parameter. It requires the code to be 4 characters of the 32-symbol alphabet and not already in use. The retry loop is not modelled.
- Registry.Server.FindFrom: rooms are visited in creation order. JavaScript's `Object.values` visits integer-like keys (for example a code such as `2345`) first, in ascending order. That ordering is not modelled. It matters only when one connection has seats in two rooms.
- Registry.Upper: only ASCII letters are upper-cased. JavaScript's `toUpperCase` also maps some non-ASCII characters onto ASCII letters (for example U+017F onto `S`). Such inputs are not modelled.
- Registry.UpperChar: maps one character to one character and only touches `a`-`z`. JavaScript's `toUpperCase` also upper-cases non-ASCII letters (`é` to `É`) and can lengthen a string (`ß` to `SS`); neither is modelled.
- Payload validation is left out. A client sending a non-string topic or guess would make the server's `trim()` throw, which the model does not represent. Drawings are opaque strings.
- Distinct sessions are a premise, not a proved invariant. A lobby join checks names but not session ids (server.js:222-225), and a mid-game rejoin installs whatever session id the client sends (server.js:209). These members take distinct session ids across the roster as a premise, either in their `requires` or in the `ensures` clauses that depend on it: `AutoFillAppends`, `AutoFillExtends`, `FillOneChain`, `LedgerAfterFill`, `SessionSetSize`, `FullRoundAllSeats`, `LedgerFull`, `LedgerRecord`, `StartRoundLedger`, `SubmitLedger`, `AllSubmitted`, `AllInactiveNoPrompt`, `AllInactiveAdvance`, `ScheduleBegin`, `ScheduleStartRound`, `ScheduleAdvance`, `ScheduleSubmit`, `ScheduleRecord`, `KickSchedule`, `KickFillSchedule`, `LeaveOutcome`, `RejoinDropsHost`, `SubmitEntryOutcome` and `SubmitBySeat`.
- The game-length guarantee (every chain holds `N` entries at the reveal) is proved step by step: play starts on schedule (`ScheduleBegin`), and submissions, kicks, disconnects and reconnects keep the schedule (`ScheduleSubmit`, `KickSchedule`, `DisconnectOnSchedule`, `ReconnectOnSchedule`). Two handlers break it, and the model proves nothing across them. A mid-game `leaveRoom` shrinks the roster, which changes every seat's chain (server.js:325). A mid-game rejoin replaces a session that `roundSubmissions` may already hold (server.js:209).
- Session ids that name a property every JavaScript object inherits are not modelled. `roundSubmissions` and `sessions` are plain objects (server.js:26-27, 58, 101, 113, 142, 175, 370). For a session id such as `constructor` or `toString`, `roundSubmissions[sessionId]` is truthy before any submission, while `Object.keys` does not count the id. Such a seat is treated as already submitted and never prompted, and its round can stall. The model treats submissions and sessions as a set and a map of strings, where every id starts out absent.
- Types.Broadcast: its own contract gives only membership and a bound on the length. Roster order and exactly one message per connected seat are stated by `BroadcastAppend`.
- Lifecycle.Unkicked: its own contract gives membership. That the order of the seats is kept is stated by `UnkickedKeepsOrder`.
- Lifecycle.Without: its own contract gives membership. That the order of the seats is kept is stated by `WithoutKeepsOrder`, and which seat comes first by `FilterFirst`.
- Registry.WithoutCode: its own contract gives membership. That creation order is kept is stated by `WithoutCodeKeepsOrder`.
- Engine.RestoreEmits: its own contract gives the number, addressee and kind of each message per phase. That the messages repeat exactly what the room sent earlier is stated by `RestoreRepeatsPrompt`, `RestoreRepeatsTopicProgress`, `RestoreRepeatsReveal` and `RestoreRepeatsEnterTopic`. The wait state is not a repeat: it carries the submission count as it stands at reconnection (server.js:143), while `handleSubmission` sent the count at the time of the seat's own submission (server.js:119). `RestoreAfterSubmitWaits` and `ReconnectRestoresWait` state the message with the current count.
