/** A room as the mutable object the server keeps in its registry. The
    asynchronous phases of `startGame` and `submitSentence` hold a reference
    to this object across their suspension points, so they keep writing to it
    even after it has been removed from the registry or its code has been
    reused. The object's contents are the `gameState` record; each method
    writes the record's fields in the order the handler does and is proved
    against the phase function of `Transitions` that it carries out. */
module Rooms {
  import opened Types
  import opened Roster
  import Transitions
  import Text

  class Room {
    /** The `game` object's properties. */
    var state: RoomState

    /** The `gameState` object of `createGame`, with its creator as host. */
    constructor (hostId: string, hostName: string)
      ensures state == Transitions.NewRoom(hostId, hostName)
    {
      state := RoomState(
        [Player(hostId, hostName, true, [], DefaultFeatures)],
        NoTurn, [], 0, false, false, "", false, [0],
        None, None, map[], None, None);
    }

    method AddPlayer(id: string, name: string)
      modifies this
      ensures state == Transitions.AddPlayer(old(state), id, name)
    {
      state := state.(players := state.players + [Player(id, name, false, [], DefaultFeatures)]);
    }

    method SetTheme(theme: string)
      modifies this
      ensures state == Transitions.SetTheme(old(state), theme)
    {
      state := state.(theme := Some(theme));
    }

    method SetTyping(id: string)
      modifies this
      ensures state == Transitions.SetTyping(old(state), id)
    {
      state := state.(typingPlayer := Some(id));
    }

    method ClearTypingOf(id: string)
      modifies this
      ensures state == Transitions.ClearTypingOf(old(state), id)
    {
      if state.typingPlayer == Some(id) {
        state := state.(typingPlayer := None);
      }
    }

    method ToggleFeature(feature: string, enabled: bool)
      modifies this
      ensures state == Transitions.ToggleFeature(old(state), feature, enabled)
    {
      state := state.(features := state.features[feature := enabled]);
    }

    method SetFeatures(features: map<string, bool>)
      modifies this
      ensures state == Transitions.SetFeatures(old(state), features)
    {
      state := state.(features := features);
    }

    method Begin()
      modifies this
      ensures state == Transitions.Begin(old(state))
    {
      state := state.(round := 1);
      state := state.(showRoundTransition := true);
      state := state.(currentTurn := AiTurn);
    }

    method ReceiveOpening(opening: string) returns (crashed: bool)
      modifies this
      ensures state == Transitions.ReceiveOpening(old(state), opening).state
      ensures crashed == Transitions.ReceiveOpening(old(state), opening).crashed
    {
      state := state.(showRoundTransition := false);
      state := state.(sentences := [opening]);
      if |state.players| == 0 {
        // `game.players[0].id` throws inside the timer callback
        return true;
      }
      state := state.(currentTurn := PlayerTurn(state.players[0].id));
      crashed := false;
    }

    /** The part of `submitSentence` that every accepted submission runs. */
    method Record(id: string, text: string)
      requires state.currentTurn == PlayerTurn(id)
      modifies this
      ensures state == Transitions.Record(old(state), id, text)
    {
      state := state.(typingPlayer := None);
      var author := FindIndex(state.players, state.currentTurn.id);
      state := state.(players := Transitions.CreditAuthor(state.players, author, |state.sentences|));
      state := state.(sentences := state.sentences + [text]);
    }

    method Submit(id: string, text: string) returns (next: Transitions.Continuation)
      modifies this
      ensures state == Transitions.Submit(old(state), id, text).state
      ensures next == Transitions.Submit(old(state), id, text).next
    {
      if state.currentTurn != PlayerTurn(id) {
        return Transitions.Ignored;
      }
      Record(id, text);
      FindIndexSameIds(old(state.players), state.players, id);
      var i := FindIndex(state.players, id);
      if i == |state.players| - 1 {
        if state.round < ROUNDS {
          state := state.(round := state.round + 1);
          state := state.(showRoundTransition := true);
          state := state.(typingPlayer := None);
          next := Transitions.AwaitRoundTransition;
        } else {
          state := state.(isProcessing := true);
          state := state.(typingPlayer := None);
          next := Transitions.AwaitFinalStory;
        }
      } else {
        state := state.(currentTurn := PlayerTurn(state.players[i + 1].id));
        next := Transitions.NextPlayer;
      }
    }

    method EndRoundTransition()
      modifies this
      ensures state == Transitions.EndRoundTransition(old(state))
    {
      state := state.(showRoundTransition := false);
      state := state.(currentTurn := AiTurn);
      state := state.(typingPlayer := None);
    }

    method ReceiveAiSentence(text: string) returns (threw: bool)
      modifies this
      ensures state == Transitions.ReceiveAiSentence(old(state), text).state
      ensures threw == Transitions.ReceiveAiSentence(old(state), text).threw
    {
      state := state.(sentences := state.sentences + [text]);
      state := state.(aiSentenceIndices := state.aiSentenceIndices + [|state.sentences| - 1]);
      if |state.players| == 0 {
        // `game.players[0].id` throws; the handler's outer catch runs
        state := state.(typingPlayer := None);
        return true;
      }
      state := state.(currentTurn := PlayerTurn(state.players[0].id));
      state := state.(typingPlayer := None);
      threw := false;
    }

    method FinishStory(story: string, image: Option<string>, audio: Option<string>)
      modifies this
      ensures state == Transitions.FinishStory(old(state), story, image, audio)
    {
      state := state.(finalStory := story);
      state := state.(storyImage := image);
      state := state.(storyAudio := audio);
      state := state.(isProcessing := false);
      state := state.(showFinalStory := true);
    }

    method FallbackStory()
      modifies this
      ensures state == Transitions.FallbackStory(old(state))
    {
      state := state.(isProcessing := false);
      state := state.(finalStory := Text.JoinLines(state.sentences));
      state := state.(showFinalStory := true);
    }

    /** The first pass of `disconnect` on this room; `emptied` says the room
        must be deleted. */
    method Leave(id: string) returns (emptied: bool)
      modifies this
      ensures state == Transitions.Leave(old(state), id)
      ensures emptied <==> !Transitions.Survives(old(state), id)
    {
      var i := FindIndex(state.players, id);
      emptied := false;
      if i != -1 {
        state := state.(players := RemoveAt(state.players, i));
        if |state.players| == 0 {
          emptied := true;
        } else if state.currentTurn == PlayerTurn(id) {
          state := state.(currentTurn := PlayerTurn(state.players[0].id));
        }
      }
    }
  }
}
