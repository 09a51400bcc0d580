/** The per-room state machine as functions on snapshots. Each asynchronous
    handler of the server is split at its suspension points (the awaited
    generator calls and the 2000 ms timers) into atomic phases, and each phase
    is one function here; another event may run between two phases. */
module Transitions {
  import opened Types
  import opened Roster
  import opened Text

  /** The room has not been started: no round, no turn, no story yet. */
  predicate Unstarted(s: RoomState) {
    && s.round == 0
    && s.currentTurn == NoTurn
    && s.sentences == []
    && !s.showRoundTransition && !s.isProcessing && !s.showFinalStory
  }

  /** The room `createGame` builds for its caller. */
  function NewRoom(hostId: string, hostName: string): (s: RoomState)
    ensures Inv(s) && Unstarted(s)
    ensures |s.players| == 1 && s.players[0].id == hostId && s.players[0].isHost
    ensures s.players[0].sentenceIndices == []
    ensures s.aiSentenceIndices == [0]
  {
    RoomState(
      [Player(hostId, hostName, true, [], DefaultFeatures)],
      NoTurn, [], 0, false, false, "", false, [0],
      None, None, map[], None, None)
  }

  // ---------------------------------------------------------------- joinGame

  /** `game.players.push(...)`: the joining connection becomes the last player,
      as a non-host with no sentences. */
  function AddPlayer(s: RoomState, id: string, name: string): (r: RoomState)
    ensures |r.players| == |s.players| + 1
    ensures r.players[..|s.players|] == s.players
    ensures r.players[|s.players|] == Player(id, name, false, [], DefaultFeatures)
    ensures r.(players := s.players) == s
  {
    s.(players := s.players + [Player(id, name, false, [], DefaultFeatures)])
  }

  /** A join into a room below the player cap keeps the room invariant. */
  lemma AddPlayerKeepsInv(s: RoomState, id: string, name: string)
    requires Inv(s) && |s.players| < MAX_PLAYERS
    ensures Inv(AddPlayer(s, id, name))
  {
    var r := AddPlayer(s, id, name);
    assert r.players == s.players + [Player(id, name, false, [], DefaultFeatures)];
    if s.currentTurn.PlayerTurn? {
      AppendKeepsMembers(s.players, Player(id, name, false, [], DefaultFeatures), s.currentTurn.id);
    }
  }

  // -------------------------------------------------- selectTheme, features

  function SetTheme(s: RoomState, theme: string): (r: RoomState)
    ensures r.theme == Some(theme) && r.(theme := s.theme) == s
    ensures Inv(s) ==> Inv(r)
  {
    s.(theme := Some(theme))
  }

  /** `features = { ...features, [feature]: enabled }`: only the named flag
      changes. */
  function ToggleFeature(s: RoomState, feature: string, enabled: bool): (r: RoomState)
    ensures feature in r.features && r.features[feature] == enabled
    ensures forall f :: f in s.features && f != feature ==> f in r.features && r.features[f] == s.features[f]
    ensures r.features.Keys == s.features.Keys + {feature}
    ensures r.(features := s.features) == s
    ensures Inv(s) ==> Inv(r)
  {
    s.(features := s.features[feature := enabled])
  }

  /** `updateGameFeatures` replaces the whole feature object. */
  function SetFeatures(s: RoomState, features: map<string, bool>): (r: RoomState)
    ensures r.features == features && r.(features := s.features) == s
    ensures Inv(s) ==> Inv(r)
  {
    s.(features := features)
  }

  // ------------------------------------------------------------------ typing

  function SetTyping(s: RoomState, id: string): (r: RoomState)
    ensures r.typingPlayer == Some(id) && r.(typingPlayer := s.typingPlayer) == s
    ensures Inv(s) ==> Inv(r)
  {
    s.(typingPlayer := Some(id))
  }

  /** Compare-and-clear of the typing indicator (`stopTyping`, `typing:end`,
      and the second pass of `disconnect`). */
  function ClearTypingOf(s: RoomState, id: string): (r: RoomState)
    ensures r.typingPlayer != Some(id)
    ensures s.typingPlayer != Some(id) ==> r == s
    ensures s.typingPlayer == Some(id) ==> r == s.(typingPlayer := None)
    ensures Inv(s) ==> Inv(r)
  {
    if s.typingPlayer == Some(id) then s.(typingPlayer := None) else s
  }

  // --------------------------------------------------------------- startGame

  predicate HasTheme(s: RoomState) {
    s.theme.Some? && s.theme.value != ""
  }

  datatype StartGate = NoTheme | TooManyPlayers | Begins

  /** The checks `startGame` makes before it starts: a theme (a non-empty
      string) must be set, and the roster must not exceed the cap. There is no
      check of the minimum number of players nor of the round. */
  function StartCheck(s: RoomState): (g: StartGate)
    ensures g == NoTheme <==> !HasTheme(s)
    ensures g == TooManyPlayers <==> HasTheme(s) && |s.players| > MAX_PLAYERS
    ensures Inv(s) ==> g != TooManyPlayers
  {
    if !HasTheme(s) then NoTheme
    else if |s.players| > MAX_PLAYERS then TooManyPlayers
    else Begins
  }

  /** First phase of `startGame`: round 1, the transition banner, the AI holds
      the turn while the opening line is generated. */
  function Begin(s: RoomState): (r: RoomState)
    ensures r.round == 1 && r.showRoundTransition && r.currentTurn == AiTurn
    ensures r.(round := s.round, showRoundTransition := s.showRoundTransition, currentTurn := s.currentTurn) == s
    ensures Inv(s) ==> Inv(r)
  {
    s.(round := 1, showRoundTransition := true, currentTurn := AiTurn)
  }

  datatype OpeningStep = OpeningStep(state: RoomState, crashed: bool)

  /** Second phase of `startGame`, once the opening line has arrived and the
      2000 ms timer has fired: the banner is cleared, the log restarts with the
      opening line and the roster head gets the turn. On a room whose roster
      is empty the read of `players[0].id` throws inside the timer, after the
      first two assignments; nothing catches it. */
  function ReceiveOpening(s: RoomState, opening: string): (r: OpeningStep)
    ensures r.crashed <==> |s.players| == 0
    ensures !r.state.showRoundTransition && r.state.sentences == [opening]
    ensures !r.crashed ==> r.state.currentTurn == PlayerTurn(s.players[0].id)
    ensures r.crashed ==> r.state.currentTurn == s.currentTurn
    ensures r.state.(showRoundTransition := s.showRoundTransition, sentences := s.sentences, currentTurn := s.currentTurn) == s
    ensures Inv(s) ==> Inv(r.state)
  {
    var t := s.(showRoundTransition := false, sentences := [opening]);
    if |s.players| == 0 then OpeningStep(t, true)
    else OpeningStep(t.(currentTurn := PlayerTurn(s.players[0].id)), false)
  }

  /** `startGame` on a registered room with a theme, the opening line
      arriving with no other event in between: round 1 starts with the
      opening line as the only sentence and the host holding the turn. */
  lemma StartSequence(s: RoomState, opening: string)
    requires Inv(s) && HasTheme(s)
    ensures StartCheck(s) == Begins
    ensures var r := ReceiveOpening(Begin(s), opening);
      && !r.crashed
      && r.state.round == 1 && r.state.sentences == [opening]
      && r.state.currentTurn == PlayerTurn(s.players[0].id)
      && !r.state.showRoundTransition
      && Inv(r.state)
  {
  }

  /** The uncaught throw of the `startGame` timer is reachable: a host who
      starts alone and leaves while the opening line is generated empties
      the room (so `disconnect` deletes it), and the timer then reads the
      head of the captured room's empty roster. */
  lemma LoneHostLeavesBeforeOpening(hostId: string, hostName: string, theme: string, opening: string)
    requires theme != ""
    ensures var s := SetTheme(NewRoom(hostId, hostName), theme);
      && StartCheck(s) == Begins
      && !Survives(Begin(s), hostId)
      && ReceiveOpening(Leave(Begin(s), hostId), opening).crashed
  {
    var s := Begin(SetTheme(NewRoom(hostId, hostName), theme));
    assert s.players[0].id == hostId;
  }

  // ---------------------------------------------------------- submitSentence

  /** What a submission leaves pending. */
  datatype Continuation =
    | Ignored               // not the caller's turn: nothing happened
    | NextPlayer            // the turn moved on within the round
    | AwaitRoundTransition  // last player of a round before the last one
    | AwaitFinalStory       // last player of the last round

  datatype SubmitStep = SubmitStep(state: RoomState, next: Continuation)

  /** The submitter's entry gets the index the new sentence will occupy. */
  function CreditAuthor(players: seq<Player>, i: int, index: nat): (r: seq<Player>)
    requires -1 <= i < |players|
    ensures |r| == |players|
    ensures forall j :: 0 <= j < |r| && j != i ==> r[j] == players[j]
    ensures i >= 0 ==> r[i] == players[i].(sentenceIndices := players[i].sentenceIndices + [index])
  {
    if i == -1 then players
    else players[i := players[i].(sentenceIndices := players[i].sentenceIndices + [index])]
  }

  /** What every accepted submission does before the turn moves: the typing
      indicator is cleared and the sentence is appended and credited. */
  function Record(s: RoomState, id: string, text: string): (r: RoomState)
    ensures r.typingPlayer == None && r.sentences == s.sentences + [text]
    ensures r.sentences[|s.sentences|] == text
    ensures |r.players| == |s.players|
    ensures var i := FindIndex(s.players, id);
      && (i >= 0 ==> r.players[i].sentenceIndices == s.players[i].sentenceIndices + [|s.sentences|])
      && (forall j :: 0 <= j < |s.players| && j != i ==> r.players[j] == s.players[j])
    ensures r.(players := s.players, sentences := s.sentences, typingPlayer := s.typingPlayer) == s
  {
    s.(typingPlayer := None,
       players := CreditAuthor(s.players, FindIndex(s.players, id), |s.sentences|),
       sentences := s.sentences + [text])
  }

  /** Immediate phase of `submitSentence`. A caller that does not hold the
      turn changes nothing. Otherwise the typing indicator is cleared, the
      sentence is appended and credited to its author, and the turn moves to
      the next player; the last player of a round instead either opens the
      next round (banner on, round + 1) or, in the last round, starts the
      final-story pipeline. */
  function Submit(s: RoomState, id: string, text: string): (r: SubmitStep)
    ensures s.currentTurn != PlayerTurn(id) <==> r.next == Ignored
    ensures r.next == Ignored ==> r.state == s
    ensures r.next != Ignored ==>
      && r.state.sentences == s.sentences + [text]
      && r.state.typingPlayer == None
      && |r.state.players| == |s.players|
      && r.state.aiSentenceIndices == s.aiSentenceIndices
    ensures r.next != Ignored ==>
      var i := FindIndex(s.players, id);
      && (i >= 0 ==> r.state.players[i].sentenceIndices == s.players[i].sentenceIndices + [|s.sentences|])
      && (forall j :: 0 <= j < |s.players| && j != i ==> r.state.players[j] == s.players[j])
    ensures r.next == NextPlayer ==>
      var i := FindIndex(s.players, id);
      && i + 1 < |s.players|
      && r.state.currentTurn == PlayerTurn(s.players[i + 1].id)
      && r.state.round == s.round
    ensures r.next == AwaitRoundTransition ==>
      && FindIndex(s.players, id) == |s.players| - 1
      && s.round < ROUNDS && r.state.round == s.round + 1
      && r.state.showRoundTransition
      && r.state.currentTurn == s.currentTurn
    ensures r.next == AwaitFinalStory ==>
      && FindIndex(s.players, id) == |s.players| - 1
      && s.round >= ROUNDS && r.state.round == s.round
      && r.state.isProcessing
      && r.state.currentTurn == s.currentTurn
    ensures r.next != Ignored ==>
      r.state.players == CreditAuthor(s.players, FindIndex(s.players, id), |s.sentences|)
    ensures r.next != AwaitFinalStory ==> r.state.isProcessing == s.isProcessing
    ensures r.next != AwaitRoundTransition ==> r.state.showRoundTransition == s.showRoundTransition
    ensures r.state.(players := s.players, sentences := s.sentences, typingPlayer := s.typingPlayer,
                     currentTurn := s.currentTurn, round := s.round,
                     showRoundTransition := s.showRoundTransition, isProcessing := s.isProcessing) == s
  {
    if s.currentTurn != PlayerTurn(id) then SubmitStep(s, Ignored)
    else
      var i := FindIndex(s.players, id);
      var t := Record(s, id, text);
      if i == |s.players| - 1 then
        if s.round < ROUNDS then
          SubmitStep(t.(round := s.round + 1, showRoundTransition := true), AwaitRoundTransition)
        else
          SubmitStep(t.(isProcessing := true), AwaitFinalStory)
      else
        SubmitStep(t.(currentTurn := PlayerTurn(s.players[i + 1].id)), NextPlayer)
  }

  /** Crediting a sentence changes no connection id. */
  lemma CreditAuthorKeepsMembers(players: seq<Player>, i: int, index: nat, id: string)
    requires -1 <= i < |players|
    requires InRoster(players, id)
    ensures InRoster(CreditAuthor(players, i, index), id)
  {
    var j :| 0 <= j < |players| && players[j].id == id;
    assert CreditAuthor(players, i, index)[j].id == id;
  }

  /** Every submission keeps the room invariant: the turn passes only to a
      roster member, and the round never passes ROUNDS. */
  lemma SubmitKeepsInv(s: RoomState, id: string, text: string)
    requires Inv(s)
    ensures Inv(Submit(s, id, text).state)
  {
    var r := Submit(s, id, text);
    if r.next != Ignored {
      var i := FindIndex(s.players, id);
      var ps := CreditAuthor(s.players, i, |s.sentences|);
      assert r.state.players == ps;
      match r.state.currentTurn {
        case PlayerTurn(holder) =>
          if r.next == NextPlayer {
            assert ps[i + 1].id == holder;
          } else {
            CreditAuthorKeepsMembers(s.players, i, |s.sentences|, holder);
          }
        case _ =>
      }
    }
  }

  /** The round moves by at most one per submission, and only up to ROUNDS. */
  lemma SubmitRoundStep(s: RoomState, id: string, text: string)
    requires s.round <= ROUNDS
    ensures var r := Submit(s, id, text).state;
      r.round == s.round || (r.round == s.round + 1 && r.round <= ROUNDS)
  {
  }

  /** A whole round hand-over, with no other event in between: the last
      player's sentence, the banner, then the AI's sentence. The round goes
      up by one, both sentences are logged in order, the AI's index is
      recorded and the turn comes back to the roster head. */
  lemma RoundHandOver(s: RoomState, id: string, text: string, ai: string)
    requires Inv(s) && s.currentTurn == PlayerTurn(id)
    requires FindIndex(s.players, id) == |s.players| - 1 && s.round < ROUNDS
    ensures var r := ReceiveAiSentence(EndRoundTransition(Submit(s, id, text).state), ai);
      && !r.threw
      && r.state.round == s.round + 1
      && r.state.sentences == s.sentences + [text, ai]
      && r.state.aiSentenceIndices == s.aiSentenceIndices + [|s.sentences| + 1]
      && r.state.currentTurn == PlayerTurn(s.players[0].id)
      && !r.state.showRoundTransition && r.state.typingPlayer == None
      && Inv(r.state)
  {
    var t := Submit(s, id, text);
    SubmitKeepsInv(s, id, text);
    assert t.next == AwaitRoundTransition;
    assert t.state.sentences + [ai] == s.sentences + [text, ai];
    FindIndexSameIds(s.players, t.state.players, s.players[0].id);
  }

  /** The last player of a round keeps the turn while the banner is shown
      and while the final story is being made, so a second submission of
      theirs is accepted: it logs a second sentence and raises the round a
      second time, or, once the last round is reached, starts the final
      story (again). */
  lemma SecondSubmitByLastPlayer(s: RoomState, id: string, a: string, b: string)
    requires Inv(s) && s.currentTurn == PlayerTurn(id)
    requires FindIndex(s.players, id) == |s.players| - 1
    ensures var t := Submit(s, id, a);
      var u := Submit(t.state, id, b);
      && t.next != NextPlayer && u.next != Ignored
      && u.state.sentences == s.sentences + [a, b]
      && (s.round + 1 < ROUNDS ==> u.next == AwaitRoundTransition && u.state.round == s.round + 2)
      && (s.round + 1 >= ROUNDS ==> u.next == AwaitFinalStory && u.state.round == ROUNDS)
  {
  }

  /** Phase after the 2000 ms round banner: the banner goes away and the AI
      holds the turn. */
  function EndRoundTransition(s: RoomState): (r: RoomState)
    ensures !r.showRoundTransition && r.currentTurn == AiTurn && r.typingPlayer == None
    ensures r.(showRoundTransition := s.showRoundTransition, currentTurn := s.currentTurn, typingPlayer := s.typingPlayer) == s
    ensures Inv(s) ==> Inv(r)
  {
    s.(showRoundTransition := false, currentTurn := AiTurn, typingPlayer := None)
  }

  datatype AiStep = AiStep(state: RoomState, threw: bool)

  /** Phase after the continuation arrives: the AI sentence is appended and
      its index recorded, then the roster head gets the turn. On an empty
      roster the read of `players[0].id` throws; the handler's outer catch
      only clears the typing indicator, so the turn stays with the AI. */
  function ReceiveAiSentence(s: RoomState, text: string): (r: AiStep)
    ensures r.state.sentences == s.sentences + [text]
    ensures r.state.aiSentenceIndices == s.aiSentenceIndices + [|s.sentences|]
    ensures r.state.sentences[r.state.aiSentenceIndices[|r.state.aiSentenceIndices| - 1]] == text
    ensures r.state.typingPlayer == None
    ensures r.threw <==> |s.players| == 0
    ensures !r.threw ==> r.state.currentTurn == PlayerTurn(s.players[0].id)
    ensures r.threw ==> r.state.currentTurn == s.currentTurn
    ensures r.state.(sentences := s.sentences, aiSentenceIndices := s.aiSentenceIndices,
                     typingPlayer := s.typingPlayer, currentTurn := s.currentTurn) == s
    ensures Inv(s) ==> Inv(r.state)
  {
    var t := s.(sentences := s.sentences + [text],
                aiSentenceIndices := s.aiSentenceIndices + [|s.sentences|],
                typingPlayer := None);
    if |s.players| == 0 then AiStep(t, true)
    else AiStep(t.(currentTurn := PlayerTurn(s.players[0].id)), false)
  }

  /** The outer catch of `submitSentence` is reachable: when the only player
      ends a round and leaves during the banner, the room is deleted, and on
      the captured room the AI sentence is logged, the read of the roster
      head throws, and the turn stays with the AI. */
  lemma LastPlayerLeavesDuringBanner(s: RoomState, id: string, text: string, ai: string)
    requires Inv(s) && |s.players| == 1 && s.currentTurn == PlayerTurn(id) && s.round < ROUNDS
    ensures var t := Submit(s, id, text).state;
      && !Survives(t, id)
      && var r := ReceiveAiSentence(EndRoundTransition(Leave(t, id)), ai);
         && r.threw && r.state.currentTurn == AiTurn && r.state.typingPlayer == None
         && r.state.sentences == s.sentences + [text, ai]
  {
    var t := Submit(s, id, text).state;
    assert s.players[0].id == id;
    assert t.players[0].id == id;
    assert t.sentences + [ai] == s.sentences + [text, ai];
  }

  /** The game has reached its displayable end. */
  predicate StoryShown(s: RoomState) {
    !s.isProcessing && s.showFinalStory
  }

  /** Final phase when generation succeeds: the story and its media are
      stored and shown. The turn pointer is left as it was. */
  function FinishStory(s: RoomState, story: string, image: Option<string>, audio: Option<string>): (r: RoomState)
    ensures StoryShown(r)
    ensures r.finalStory == story && r.storyImage == image && r.storyAudio == audio
    ensures r.(finalStory := s.finalStory, storyImage := s.storyImage, storyAudio := s.storyAudio,
               isProcessing := s.isProcessing, showFinalStory := s.showFinalStory) == s
    ensures Inv(s) ==> Inv(r)
  {
    s.(finalStory := story, storyImage := image, storyAudio := audio,
       isProcessing := false, showFinalStory := true)
  }

  /** Final phase when generation fails: the story is the sentence log, one
      sentence per line. */
  function FallbackStory(s: RoomState): (r: RoomState)
    ensures StoryShown(r)
    ensures r.finalStory == JoinLines(s.sentences)
    ensures |s.sentences| > 0 && (forall k :: 0 <= k < |s.sentences| ==> NoNewline(s.sentences[k]))
      ==> SplitLines(r.finalStory) == s.sentences
    ensures r.(finalStory := s.finalStory, isProcessing := s.isProcessing, showFinalStory := s.showFinalStory) == s
    ensures Inv(s) ==> Inv(r)
  {
    var r := s.(isProcessing := false, finalStory := JoinLines(s.sentences), showFinalStory := true);
    if |s.sentences| > 0 && (forall k :: 0 <= k < |s.sentences| ==> NoNewline(s.sentences[k])) then
      SplitJoinLines(s.sentences);
      r
    else
      r
  }

  // -------------------------------------------------------------- disconnect

  /** First pass of `disconnect` on one room: the first entry of the leaving
      connection is spliced out; if others remain and the leaver held the
      turn, the turn goes to the new roster head. */
  function Leave(s: RoomState, id: string): (r: RoomState)
    ensures !InRoster(s.players, id) ==> r == s
    ensures InRoster(s.players, id) ==> |r.players| == |s.players| - 1
    ensures InRoster(s.players, id) ==> r.players == RemoveAt(s.players, FindIndex(s.players, id))
    ensures |r.players| > 0 && s.currentTurn == PlayerTurn(id) && InRoster(s.players, id)
      ==> r.currentTurn == PlayerTurn(r.players[0].id)
    ensures s.currentTurn != PlayerTurn(id) || |r.players| == 0 || !InRoster(s.players, id)
      ==> r.currentTurn == s.currentTurn
    ensures r.(players := s.players, currentTurn := s.currentTurn) == s
  {
    var i := FindIndex(s.players, id);
    if i == -1 then s
    else
      var ps := RemoveAt(s.players, i);
      if |ps| > 0 && s.currentTurn == PlayerTurn(id) then
        s.(players := ps, currentTurn := PlayerTurn(ps[0].id))
      else
        s.(players := ps)
  }

  /** The room stays registered after the leaver's removal. */
  predicate Survives(s: RoomState, id: string) {
    !InRoster(s.players, id) || |s.players| > 1
  }

  /** A room that survives a departure keeps the room invariant: the turn is
      repaired when its holder leaves, and any other holder is still there. */
  lemma LeaveKeepsInv(s: RoomState, id: string)
    requires Inv(s) && Survives(s, id)
    ensures Inv(Leave(s, id))
  {
    if InRoster(s.players, id) {
      var i := FindIndex(s.players, id);
      var r := Leave(s, id);
      RemoveAtShape(s.players, i);
      RemoveAtKeepsHostAtHead(s.players, i);
      match r.currentTurn {
        case PlayerTurn(holder) =>
          if s.currentTurn == PlayerTurn(id) {
            assert r.players[0].id == holder;
          } else {
            RemoveAtKeepsOthers(s.players, i, holder);
          }
        case _ =>
      }
    }
  }

  /** A room is deleted exactly when its last player leaves. */
  lemma LeaveEmptiesExactly(s: RoomState, id: string)
    requires |s.players| > 0
    ensures |Leave(s, id).players| == 0 <==> !Survives(s, id)
  {
  }
}
