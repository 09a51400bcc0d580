# Derakht game server: the room state machine

Derakht is a multiplayer storytelling game. Players join a room, take turns
writing one sentence each, and an AI writes a sentence between rounds and
turns the result into a final story. This project models the server side of
the game in `server/index.js`:

- the process-wide `games` registry: a JavaScript `Map` from a four-letter
  room code to a room;
- the socket handlers that act on it: `createGame`, `joinGame`,
  `selectTheme`, `startGame`, `submitSentence`, `typing`, `stopTyping`,
  `typing:end`, `toggleFeature`, `updateGameFeatures` and `disconnect`;
- the constants `ROUNDS`, `MIN_PLAYERS` and `MAX_PLAYERS`.

Layout:

- `types.dfy` (module `Types`) holds the data model. `RoomState` is the
  `gameState` object, `Turn` is `currentTurn` (the empty string, `'ai'`, or a
  connection id), and `Inv` is the room invariant. A registered room has 1 to
  8 players and is in round 0 to 4, its turn holder is a roster member, the
  AI or nobody, and only its roster head can be the host.
- `transitions.dfy` (module `Transitions`) holds one function per atomic
  phase of a handler, on `RoomState` values. An `async` handler is split at
  every `await` and timer, because another event can run in between:
  - `startGame` is `Begin`, then `ReceiveOpening`;
  - `submitSentence` is `Submit`, then `EndRoundTransition`, then
    `ReceiveAiSentence`, or `Submit`, then `FinishStory` or `FallbackStory`.

  The lemmas there state what each phase keeps and what a sequence of
  phases produces.
- `room.dfy` (module `Rooms`) holds the `Room` class. It is the mutable
  `game` object that the registry stores. The later phases of a handler also
  hold a reference to it after the room is deleted or its code is reused.
  Each method performs the handler's assignments in order and is proved
  equal to its `Transitions` function.
- `registry.dfy` (module `Registry`) holds the `Games` class.
  - Its fields are the registry map (`games`) and its insertion order
    (`order`), which the case-insensitive lookup of `joinGame` walks.
  - Its ghost `Snapshots` field holds each registered room's state. `Valid()`
    ties the fields together and keeps `Inv` for every registered room.
  - Each handler is a method whose contract gives the new snapshots as a
    function of the old ones: `JoinRooms` for joins and `AfterDisconnect` for
    disconnects.
  - A captured-room phase updates a room's snapshot only if that room is
    still registered (`Reshow`).
  - `disconnect` is two loops over the insertion order, as in the source.
- `roster.dfy` and `text.dfy` model `findIndex` and `splice` on the roster,
  ASCII `toUpperCase`, and `join("\n")` with its inverse.

The model follows the code, including these behaviours:

- `startGame` never checks `MIN_PLAYERS`, so one player can start alone.
- `startGame` and `selectTheme` do not check the round. A finished or
  running game can be restarted, or its theme changed.
- `startGame` checks `players.length > MAX_PLAYERS`. Every join already keeps
  rosters at 8 or fewer, so the check can never fire (`StartCheck`).
- The finishing phases leave `currentTurn` as it was.
- A later phase that reads `players[0].id` on a room whose last player left
  meanwhile throws. In the `startGame` timer nothing catches it. In
  `submitSentence` the outer catch clears `typingPlayer`, and the turn stays
  with the AI. The model returns this as a `crashed` or `threw` flag, and
  `LoneHostLeavesBeforeOpening` and `LastPlayerLeavesDuringBanner` show that
  both can happen.
- The last player of a round keeps `currentTurn` while the round banner is
  shown and while the final story is being made. So a second submission of
  theirs is accepted. Before the last round it raises the round a second
  time; in the last round it starts the final story a second time
  (`SecondSubmitByLastPlayer`).

## Model

| member | source | states |
|---|---|---|
| Text.Upper | server/index.js:115-117 | ASCII upper-casing (the model of `toUpperCase`) keeps the length, leaves no lower-case ASCII letter, and changes each character only by upper-casing it |
| Text.UpperFixesUpperCase | server/index.js:83-85 | a string with no lower-case letter, such as a generated code, is its own upper-case form |
| Text.JoinLines | server/index.js:254 | `join("\n")` of an empty log is the empty string, and the joined text starts with the first sentence |
| Text.SplitJoinLines | server/index.js:254 | splitting `sentences.join("\n")` at newlines gives back the sentence log, when no sentence holds a newline |
| Roster.FindIndex | server/index.js:196 | `findIndex` returns -1 exactly when no player has the id; otherwise it returns the first position holding the id |
| Roster.RemoveAt | server/index.js:275 | `splice(i, 1)` shortens the roster by one and removes exactly the entry at `i`, as multisets |
| Roster.RemoveAtShape | server/index.js:275 | `splice(i, 1)` keeps the players before `i`, shifts those after it one place left, and shortens the roster by one |
| Roster.RemoveAtKeepsOthers | server/index.js:275 | after `splice(i, 1)`, every other connection id is still in the roster |
| Roster.RemoveAtKeepsHostAtHead | server/index.js:275 | removing a player keeps every non-head entry a non-host |
| Roster.AppendKeepsMembers | server/index.js:131-140 | `push` keeps every connection id already in the roster |
| Roster.FindIndexSameIds | server/index.js:185-196 | crediting a sentence does not move any id, so `findIndex` gives the same position before and after |
| Transitions.NewRoom | server/index.js:87-106 | a new room has one player, its host, with no sentences; round 0, an empty turn, no sentences, no flags set, `aiSentenceIndices = [0]`; it satisfies the room invariant |
| Transitions.AddPlayer | server/index.js:131-140 | a join appends exactly one non-host player with default features at the end and changes nothing else |
| Transitions.AddPlayerKeepsInv | server/index.js:126-140 | a join into a room below 8 players keeps the room invariant |
| Transitions.SetTheme | server/index.js:301 | only the theme changes |
| Transitions.ToggleFeature | server/index.js:326-329 | the named flag is set; every other flag keeps its value; no other field changes |
| Transitions.SetFeatures | server/index.js:348 | the room's feature object is replaced, and nothing else changes |
| Transitions.SetTyping | server/index.js:309 | the caller becomes the typing player, and nothing else changes |
| Transitions.ClearTypingOf | server/index.js:315-317 | compare-and-clear: the indicator is cleared if it shows the caller, and otherwise the room is unchanged |
| Transitions.StartCheck | server/index.js:149-154 | without a non-empty theme nothing happens; the cap check fires only above 8 players, so it never fires on a room that keeps the invariant |
| Transitions.Begin | server/index.js:156-158 | round 1, banner on, the AI holds the turn; the invariant is kept |
| Transitions.ReceiveOpening | server/index.js:164-167 | banner off and the opening line as the only sentence; the roster head gets the turn, or the phase throws exactly when the roster is empty |
| Transitions.StartSequence | server/index.js:147-167 | a themed room that starts with no event in between is in round 1, with the opening line and the roster head holding the turn |
| Transitions.LoneHostLeavesBeforeOpening | server/index.js:164-167 | a host who starts alone and leaves before the opening line empties the room, and the timer then throws |
| Transitions.CreditAuthor | server/index.js:185-191 | the author's entry gets the new sentence's index appended, and every other entry is unchanged |
| Transitions.Record | server/index.js:183-193 | typing cleared; the sentence appended at the old length; the author's entry credited with that index and every other entry unchanged; no other field changes |
| Transitions.Submit | server/index.js:172-262 | out of turn: no change. Otherwise: typing cleared, sentence appended at the old length and credited to the author, every other entry unchanged; the next player gets the turn in the same round, or the last player opens the next round (banner on), or in round 4 starts the final story (processing on); no other field changes |
| Transitions.CreditAuthorKeepsMembers | server/index.js:185-191 | crediting keeps every connection id in the roster |
| Transitions.SubmitKeepsInv | server/index.js:172-262 | every submission keeps the room invariant: the turn goes only to a member, and the round stays at 4 or below |
| Transitions.SubmitRoundStep | server/index.js:199-203 | a submission leaves the round as it is or raises it by one, never past 4 |
| Transitions.EndRoundTransition | server/index.js:211-213 | banner off, the AI holds the turn, typing cleared |
| Transitions.RoundHandOver | server/index.js:199-224 | the last player's sentence, the banner, then the AI's sentence: round + 1, both sentences logged in order, the AI's index recorded, the roster head holds the turn |
| Transitions.SecondSubmitByLastPlayer | server/index.js:172-229 | a second submission by the last player of a round is accepted while the banner or the final story is pending: both sentences are logged, and the round goes up by two before the last round, or the final story is started with the round at `ROUNDS` |
| Transitions.ReceiveAiSentence | server/index.js:217-223 | the AI sentence is appended and its index recorded; the roster head gets the turn, or on an empty roster the outer catch only clears typing |
| Transitions.LastPlayerLeavesDuringBanner | server/index.js:199-268 | when the only player ends a round and leaves during the banner, the room is deleted and the AI phase throws into the outer catch |
| Transitions.FinishStory | server/index.js:242-246 | story, image and audio are stored and shown, and processing ends |
| Transitions.FallbackStory | server/index.js:253-255 | the story is the newline-joined log, which splits back into the sentences when none holds a newline; processing ends and the story is shown; nothing else changes |
| Transitions.Leave | server/index.js:273-284 | the leaver's first entry is spliced out; if they held the turn and others remain, the new head gets it; otherwise the turn is unchanged; a room they are not in is unchanged |
| Transitions.LeaveKeepsInv | server/index.js:273-284 | a room that survives a departure keeps the room invariant |
| Transitions.LeaveEmptiesExactly | server/index.js:275-278 | a room is emptied exactly when its last player leaves |
| Rooms.Room.constructor | server/index.js:87-106 | the `gameState` object of `createGame` |
| Rooms.Room.AddPlayer | server/index.js:131-140 | performs `Transitions.AddPlayer` on the object |
| Rooms.Room.SetTheme | server/index.js:301 | performs `Transitions.SetTheme` |
| Rooms.Room.SetTyping | server/index.js:309 | performs `Transitions.SetTyping` |
| Rooms.Room.ClearTypingOf | server/index.js:315-317 | performs `Transitions.ClearTypingOf` |
| Rooms.Room.ToggleFeature | server/index.js:326-329 | performs `Transitions.ToggleFeature` |
| Rooms.Room.SetFeatures | server/index.js:348 | performs `Transitions.SetFeatures` |
| Rooms.Room.Begin | server/index.js:156-158 | performs `Transitions.Begin` |
| Rooms.Room.ReceiveOpening | server/index.js:164-167 | performs `Transitions.ReceiveOpening`, including the throw on an empty roster |
| Rooms.Room.Record | server/index.js:183-193 | typing cleared, sentence appended and credited to the turn holder |
| Rooms.Room.Submit | server/index.js:177-262 | performs `Transitions.Submit` and returns what it leaves pending |
| Rooms.Room.EndRoundTransition | server/index.js:211-213 | performs `Transitions.EndRoundTransition` |
| Rooms.Room.ReceiveAiSentence | server/index.js:217-223 | performs `Transitions.ReceiveAiSentence`, including the throw on an empty roster |
| Rooms.Room.FinishStory | server/index.js:242-246 | performs `Transitions.FinishStory` |
| Rooms.Room.FallbackStory | server/index.js:253-255 | performs `Transitions.FallbackStory` |
| Rooms.Room.Leave | server/index.js:273-284 | performs `Transitions.Leave`, and reports whether the room must be deleted |
| Registry.FindKey | server/index.js:116-118 | a key the lookup finds equals the query up to case |
| Registry.FindKeyFirstMatch | server/index.js:115-118 | the lookup finds the first key, in insertion order, that equals the code up to case; it finds nothing exactly when no key does |
| Registry.FindKeyOfCodes | server/index.js:115-118 | when every key is a generated code, the lookup finds exactly the upper-cased query, if it is registered |
| Registry.Delete | server/index.js:278 | `games.delete` removes exactly the key from the insertion order, keeps the other keys in their order, and keeps the keys distinct; an absent key changes nothing |
| Registry.JoinError | server/index.js:122-127 | the callback carries an error exactly when the join is refused |
| Registry.JoinRooms | server/index.js:114-145 | "Game not found" exactly when no key matches up to case; "Game is full" at 8 players or more; both leave every room unchanged; otherwise one player is added to the room found and no other room changes |
| Registry.JoinKeepsInv | server/index.js:126-140 | a join keeps every room's invariant, so no roster exceeds 8 |
| Registry.LeaveAll | server/index.js:272-286 | a room stays registered exactly when it survives the leaver's removal, and each kept room is that removal |
| Registry.ClearAll | server/index.js:289-294 | the typing pass keeps the set of rooms and applies compare-and-clear with the leaver to each |
| Registry.AfterDisconnect | server/index.js:271-295 | a room is kept exactly when it survives; each kept room is the leaver's removal from it followed by compare-and-clear with the leaver; no kept room shows the leaver as typing; a kept room whose indicator did not show the leaver is exactly that removal |
| Registry.DisconnectKeepsInv | server/index.js:271-295 | a disconnect keeps every remaining room's invariant |
| Registry.Games.constructor | server/index.js:76 | the empty registry |
| Registry.Games.CreateGame | server/index.js:82-112 | a fresh room is stored under the code, replacing any room there; the code joins the insertion order only if it is new |
| Registry.Games.Register | server/index.js:108 | `games.set` keeps the registry invariant |
| Registry.Games.JoinGame | server/index.js:114-145 | the registry's snapshots and the result are those `JoinRooms` gives |
| Registry.Games.SelectTheme | server/index.js:297-303 | exact-code lookup; unknown code: no change; otherwise only that room's theme changes |
| Registry.Games.Typing | server/index.js:305-311 | exact-code lookup; only that room's typing player changes |
| Registry.Games.StopTyping | server/index.js:313-319 | compare-and-clear on the room with that exact code; `typing:end` (server/index.js:335-343) has the same effect |
| Registry.Games.ToggleFeature | server/index.js:321-333 | exact-code lookup; only the named flag of that room changes |
| Registry.Games.UpdateGameFeatures | server/index.js:345-351 | exact-code lookup; that room's feature object is replaced |
| Registry.Games.StartGame | server/index.js:147-159 | unknown code or no theme: nothing happens; more than 8 players: the error; otherwise the room begins and is handed to the pending phase |
| Registry.Games.OpeningArrives | server/index.js:164-169 | the captured room takes the opening phase; a throw happens only on a room that is no longer registered |
| Registry.Games.SubmitSentence | server/index.js:172-206 | unknown code: no change; otherwise the room with that exact code takes `Transitions.Submit`, and no other room changes |
| Registry.Games.RoundBannerEnds | server/index.js:208-214 | the captured room takes the end of the banner |
| Registry.Games.AiSentenceArrives | server/index.js:217-224 | the captured room takes the AI sentence; a throw happens only on a room that is no longer registered |
| Registry.Games.StoryArrives | server/index.js:233-249 | the captured room stores and shows the final story |
| Registry.Games.StoryFails | server/index.js:250-257 | the captured room shows the joined log as the story |
| Registry.Games.Remove | server/index.js:278 | `games.delete` keeps the registry invariant and removes exactly that code |
| Registry.Games.LeaveRoom | server/index.js:273-285 | one room of the first `disconnect` pass: the room is kept with the leaver removed, or deleted when emptied; either way the room object holds the leaver's removal |
| Registry.Games.ClearRoom | server/index.js:290-293 | one room of the second `disconnect` pass |
| Registry.Games.LeaveEverywhere | server/index.js:272-286 | the first pass over all rooms yields `LeaveAll`; every room object registered before holds the leaver's removal from its old state (`LeftBy`), and none of the deleted ones is still registered |
| Registry.Games.ClearEverywhere | server/index.js:289-294 | the second pass over all rooms yields `ClearAll` |
| Registry.Games.Disconnect | server/index.js:271-295 | the snapshots become `AfterDisconnect`; every remaining code keeps its room object; every deleted room object holds the leaver's removal from its old state |

## Left out

- Sockets, `socket.join`, every `emit` and the callbacks are left out. The callback's error string is modelled as `JoinError`, and the start error as `StartRefused`.
- Timers and `await` are left out. Each phase is a separate method, and any other handler may run between two phases.
- The OpenAI generators (server/openai.js) are left out. Their outputs (opening line, continuation, final story, image, audio) are parameters. The generators catch their own errors and never throw. The opening and continuation generators fall back to fixed strings; `generateFinalStory` falls back to the newline-joined sentence log. So the final-story pipeline can fail (`StoryFails`) only in the image and audio generators.
- server/openai.js does not define `generateStoryImage` or `generateStoryAudio`, which the handler imports. Their results are parameters here.
- Random room-code generation is left out. The code is a parameter and must have the generated shape: four letters A to Z.
- `cleanupAudioFiles`, the HTTP routes, CORS and CSP are left out. They are file system and transport plumbing.
- `toUpperCase` is modelled for ASCII letters only.
- A thrown `players[0].id` is modelled as a returned flag. The handler's later statements are not run. What an uncaught throw does to the process is not modelled.
- Connection ids are assumed never to be the empty string or `'ai'`, since those values mark "no turn" and the AI in `currentTurn`.
- A room's properties are one record-valued field of `Room`. So the order of assignments within a phase is not observable, and nothing runs in the middle of a phase.
- Registry.Games.Disconnect: states which codes remain in `order` and that they stay distinct (through `Valid`), but not that they keep their relative order. Each single deletion does state it (`Registry.Delete`).
