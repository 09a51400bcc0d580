/** The data model of one game room: the value that the server broadcasts as
    `gameState`, its players, the turn pointer and the game constants. */
module Types {

  datatype Option<T> = None | Some(value: T)

  /** Number of rounds in a game. */
  const ROUNDS: nat := 4
  /** Declared by the server but never consulted by any handler. */
  const MIN_PLAYERS: nat := 2
  /** Largest roster a room accepts. */
  const MAX_PLAYERS: nat := 8

  /** The room's `currentTurn`: the empty string before the game starts, the
      marker 'ai' while the AI writes, otherwise the connection id of a player. */
  datatype Turn = NoTurn | AiTurn | PlayerTurn(id: string)

  /** Per-player feature flags; every player is created with both off. */
  datatype Features = Features(tts: bool, images: bool)

  const DefaultFeatures: Features := Features(false, false)

  datatype Player = Player(
    id: string,                 // the connection id
    name: string,
    isHost: bool,
    sentenceIndices: seq<nat>,  // indices in `sentences` this player wrote
    features: Features)

  /** A snapshot of a room. `theme`, `typingPlayer`, `storyImage` and
      `storyAudio` are absent (or null) until set, hence `Option`; the room-level
      `features` object is absent at creation and behaves as the empty map. */
  datatype RoomState = RoomState(
    players: seq<Player>,
    currentTurn: Turn,
    sentences: seq<string>,
    round: nat,
    showRoundTransition: bool,
    isProcessing: bool,
    finalStory: string,
    showFinalStory: bool,
    aiSentenceIndices: seq<nat>,
    theme: Option<string>,
    typingPlayer: Option<string>,
    features: map<string, bool>,
    storyImage: Option<string>,
    storyAudio: Option<string>)

  /** Some player in the roster has connection id `id`. */
  predicate InRoster(players: seq<Player>, id: string) {
    exists i :: 0 <= i < |players| && players[i].id == id
  }

  /** The turn pointer is empty, the AI marker, or a player of the roster. */
  predicate TurnHeldByMember(s: RoomState) {
    match s.currentTurn
    case PlayerTurn(id) => InRoster(s.players, id)
    case _ => true
  }

  /** Only the roster head can be the host: the creator is added first and
      every later player joins as a non-host. */
  predicate HostOnlyAtHead(players: seq<Player>) {
    forall i :: 0 < i < |players| ==> !players[i].isHost
  }

  /** What holds of every room that is registered under a code. */
  predicate Inv(s: RoomState) {
    && 0 < |s.players| <= MAX_PLAYERS
    && s.round <= ROUNDS
    && TurnHeldByMember(s)
    && HostOnlyAtHead(s.players)
  }
}
