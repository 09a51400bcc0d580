/** The process-wide room registry (`games`, a JavaScript `Map` from room
    code to room) and the socket handlers that go through it. The handler
    phases that run after a suspension point act on the room object they
    captured, whether or not it is still registered. */
module Registry {
  import opened Types
  import opened Text
  import opened Roster
  import Transitions
  import opened Rooms

  /** No key occurs twice in the Map's insertion order. */
  predicate Distinct(order: seq<string>) {
    forall i, j :: 0 <= i < j < |order| ==> order[i] != order[j]
  }

  /** `Array.from(games.keys()).find(key => key.toUpperCase() === code.toUpperCase())`. */
  function FindKey(order: seq<string>, code: string): (r: Option<string>)
    ensures r.Some? ==> Upper(r.value) == Upper(code)
  {
    if |order| == 0 then None
    else if Upper(order[0]) == Upper(code) then Some(order[0])
    else FindKey(order[1..], code)
  }

  /** The lookup finds the first key, in insertion order, equal to `code` up
      to case, and finds nothing when no key is. */
  lemma {:induction false} FindKeyFirstMatch(order: seq<string>, code: string)
    ensures FindKey(order, code).None? <==> forall j :: 0 <= j < |order| ==> Upper(order[j]) != Upper(code)
    ensures FindKey(order, code).Some? ==>
      exists j :: 0 <= j < |order| && order[j] == FindKey(order, code).value
        && Upper(order[j]) == Upper(code)
        && forall l :: 0 <= l < j ==> Upper(order[l]) != Upper(code)
  {
    if |order| > 0 && Upper(order[0]) != Upper(code) {
      FindKeyFirstMatch(order[1..], code);
      assert forall j :: 0 < j < |order| ==> order[j] == order[1..][j - 1];
      var r := FindKey(order[1..], code);
      if r.Some? {
        var j :| 0 <= j < |order[1..]| && order[1..][j] == r.value
                  && Upper(order[1..][j]) == Upper(code)
                  && forall l :: 0 <= l < j ==> Upper(order[1..][l]) != Upper(code);
        assert order[j + 1] == r.value;
      }
    }
  }

  /** When every key is a generated code (upper case), the case-insensitive
      lookup finds exactly the key equal to the upper-cased query. */
  lemma {:induction false} FindKeyOfCodes(order: seq<string>, code: string)
    requires forall j :: 0 <= j < |order| ==> IsCode(order[j])
    ensures FindKey(order, code) == if Upper(code) in order then Some(Upper(code)) else None
  {
    if |order| > 0 {
      UpperFixesUpperCase(order[0]);
      FindKeyOfCodes(order[1..], code);
      assert Upper(code) in order <==> Upper(code) == order[0] || Upper(code) in order[1..];
    }
  }

  /** `games.delete(key)` on the insertion order. */
  function Delete(order: seq<string>, key: string): (r: seq<string>)
    ensures forall x :: x in r <==> x in order && x != key
    ensures Distinct(order) ==> Distinct(r)
    ensures key !in order ==> r == order
    ensures Distinct(order) ==> forall i :: 0 <= i < |order| && order[i] == key ==> r == order[..i] + order[i + 1..]
  {
    if |order| == 0 then []
    else if order[0] == key then Delete(order[1..], key)
    else
      var rest := Delete(order[1..], key);
      assert Distinct(order) ==> order[0] !in order[1..];
      [order[0]] + rest
  }

  datatype JoinResult = Joined | GameNotFound | GameIsFull

  /** The `error` string of the callback. */
  function JoinError(r: JoinResult): (e: string)
    ensures e == "" <==> r == Joined
  {
    match r
    case Joined => ""
    case GameNotFound => "Game not found"
    case GameIsFull => "Game is full"
  }

  datatype JoinOutcome = JoinOutcome(rooms: map<string, RoomState>, result: JoinResult)

  /** `joinGame` on the registry's snapshots: the room is found up to case
      (a found key that is empty counts as not found, as in the handler's
      truthiness test); a full room refuses; otherwise one player is added
      to the room found, and nothing else changes. */
  function JoinRooms(order: seq<string>, rooms: map<string, RoomState>, code: string,
                     id: string, name: string): (r: JoinOutcome)
    ensures r.result != Joined ==> r.rooms == rooms
    ensures r.result == GameNotFound <==>
      var k := FindKey(order, code); k.None? || k.value == "" || k.value !in rooms
    ensures r.result == Joined ==>
      var k := FindKey(order, code).value;
      && k in rooms && |rooms[k].players| < MAX_PLAYERS
      && r.rooms == rooms[k := Transitions.AddPlayer(rooms[k], id, name)]
    ensures r.result == GameIsFull ==>
      var k := FindKey(order, code).value;
      k in rooms && |rooms[k].players| >= MAX_PLAYERS
  {
    var k := FindKey(order, code);
    if k.None? || k.value == "" || k.value !in rooms then JoinOutcome(rooms, GameNotFound)
    else if |rooms[k.value].players| >= MAX_PLAYERS then JoinOutcome(rooms, GameIsFull)
    else JoinOutcome(rooms[k.value := Transitions.AddPlayer(rooms[k.value], id, name)], Joined)
  }

  /** Every room of a registry satisfies the room invariant. */
  predicate AllInv(rooms: map<string, RoomState>) {
    forall k :: k in rooms ==> Inv(rooms[k])
  }

  /** A join keeps every room's invariant; in particular no roster grows past
      MAX_PLAYERS. */
  lemma JoinKeepsInv(order: seq<string>, rooms: map<string, RoomState>, code: string,
                     id: string, name: string)
    requires AllInv(rooms)
    ensures AllInv(JoinRooms(order, rooms, code, id, name).rooms)
  {
    var r := JoinRooms(order, rooms, code, id, name);
    if r.result == Joined {
      var k := FindKey(order, code).value;
      Transitions.AddPlayerKeepsInv(rooms[k], id, name);
    }
  }

  // -------------------------------------------------------------- disconnect

  /** The first pass of `disconnect` (`games.forEach`) over every room: the
      leaver's entry is removed, and a room left empty is deleted. */
  function LeaveAll(rooms: map<string, RoomState>, id: string): (r: map<string, RoomState>)
    ensures forall k :: k in r <==> k in rooms && Transitions.Survives(rooms[k], id)
    ensures forall k :: k in r ==> r[k] == Transitions.Leave(rooms[k], id)
  {
    map k | k in rooms && Transitions.Survives(rooms[k], id) :: Transitions.Leave(rooms[k], id)
  }

  /** The second pass of `disconnect` over the remaining rooms: compare-and-clear
      of the typing indicator. */
  function ClearAll(rooms: map<string, RoomState>, id: string): (r: map<string, RoomState>)
    ensures r.Keys == rooms.Keys
    ensures forall k :: k in r ==> r[k] == Transitions.ClearTypingOf(rooms[k], id)
  {
    map k | k in rooms :: Transitions.ClearTypingOf(rooms[k], id)
  }

  /** Both passes of `disconnect`: a room is kept exactly when it survives
      the leaver's removal, and no kept room shows the leaver as typing. */
  function AfterDisconnect(rooms: map<string, RoomState>, id: string): (r: map<string, RoomState>)
    ensures forall k :: k in r <==> k in rooms && Transitions.Survives(rooms[k], id)
    ensures forall k :: k in r ==> r[k] == Transitions.ClearTypingOf(Transitions.Leave(rooms[k], id), id)
    ensures forall k :: k in r ==> r[k].typingPlayer != Some(id)
    ensures forall k :: (k in r && Transitions.Leave(rooms[k], id).typingPlayer != Some(id))
                          ==> r[k] == Transitions.Leave(rooms[k], id)
  {
    ClearAll(LeaveAll(rooms, id), id)
  }

  /** A disconnect keeps every surviving room's invariant: each is non-empty
      and its turn holder is still a member (or the AI, or nobody). */
  lemma DisconnectKeepsInv(rooms: map<string, RoomState>, id: string)
    requires AllInv(rooms)
    ensures AllInv(AfterDisconnect(rooms, id))
  {
    forall k | k in AfterDisconnect(rooms, id)
      ensures Inv(AfterDisconnect(rooms, id)[k])
    {
      Transitions.LeaveKeepsInv(rooms[k], id);
    }
  }

  /** The first pass after the rooms of `done` have been visited. */
  ghost function LeavePass(rooms: map<string, RoomState>, id: string, done: set<string>): map<string, RoomState>
  {
    map k | k in rooms && (k !in done || Transitions.Survives(rooms[k], id))
      :: if k in done then Transitions.Leave(rooms[k], id) else rooms[k]
  }

  lemma LeavePassStep(rooms: map<string, RoomState>, id: string, done: set<string>, k: string)
    requires k in rooms && k !in done
    ensures Transitions.Survives(rooms[k], id) ==>
      LeavePass(rooms, id, done + {k}) == LeavePass(rooms, id, done)[k := Transitions.Leave(rooms[k], id)]
    ensures !Transitions.Survives(rooms[k], id) ==>
      LeavePass(rooms, id, done + {k}) == LeavePass(rooms, id, done) - {k}
  {
  }

  /** The second pass after the rooms of `done` have been visited. */
  ghost function ClearPass(rooms: map<string, RoomState>, id: string, done: set<string>): map<string, RoomState>
  {
    map k | k in rooms :: if k in done then Transitions.ClearTypingOf(rooms[k], id) else rooms[k]
  }

  lemma ClearPassStep(rooms: map<string, RoomState>, id: string, done: set<string>, k: string)
    requires k in rooms && k !in done
    ensures ClearPass(rooms, id, done + {k})
            == ClearPass(rooms, id, done)[k := Transitions.ClearTypingOf(rooms[k], id)]
  {
  }

  // ------------------------------------------------------ registry invariant

  /** The insertion order lists exactly the registered codes, once each. */
  predicate OrderLists(order: seq<string>, keys: set<string>) {
    && Distinct(order)
    && (forall i :: 0 <= i < |order| ==> order[i] in keys)
    && (forall k :: k in keys ==> k in order)
  }

  /** No room object is registered under two codes. */
  predicate Injective(games: map<string, Room>) {
    forall a, b :: a in games && b in games && a != b ==> games[a] != games[b]
  }

  /** What holds of the registry's values: the insertion order lists the
      codes, every code has the generated shape, each room object is
      registered once, every code has a snapshot and every snapshot satisfies
      the room invariant. */
  ghost predicate Coherent(order: seq<string>, games: map<string, Room>, snaps: map<string, RoomState>) {
    && OrderLists(order, games.Keys)
    && (forall k :: k in games ==> IsCode(k))
    && Injective(games)
    && (forall k :: k in games <==> k in snaps)
    && AllInv(snaps)
  }

  /** `games.set(code, room)` with a room object not yet registered. */
  lemma CoherentPut(order: seq<string>, games: map<string, Room>, snaps: map<string, RoomState>,
                    code: string, room: Room, s: RoomState,
                    order': seq<string>, games': map<string, Room>, snaps': map<string, RoomState>)
    requires Coherent(order, games, snaps) && IsCode(code) && Inv(s)
    requires room !in games.Values
    requires order' == (if code in games then order else order + [code])
    requires games' == games[code := room] && snaps' == snaps[code := s]
    ensures Coherent(order', games', snaps')
  {
    if code !in games {
      assert code !in order;
      assert forall i :: 0 <= i < |order| ==> order'[i] == order[i];
    }
    assert Injective(games') by {
      forall a, b | a in games' && b in games' && a != b
        ensures games'[a] != games'[b]
      {
        if a != code && b != code {
          assert games'[a] == games[a] && games'[b] == games[b];
        }
      }
    }
  }

  /** `games.delete(code)`. */
  lemma CoherentDelete(order: seq<string>, games: map<string, Room>, snaps: map<string, RoomState>,
                       code: string,
                       order': seq<string>, games': map<string, Room>, snaps': map<string, RoomState>)
    requires Coherent(order, games, snaps)
    requires order' == Delete(order, code) && games' == games - {code} && snaps' == snaps - {code}
    ensures Coherent(order', games', snaps')
  {
    forall i | 0 <= i < |order'|
      ensures order'[i] in games'
    {
      assert order'[i] in order';
    }
  }

  /** A room's snapshot is replaced by one that keeps the room invariant. */
  lemma CoherentSet(order: seq<string>, games: map<string, Room>, snaps: map<string, RoomState>,
                    code: string, s: RoomState)
    requires Coherent(order, games, snaps) && code in snaps && Inv(s)
    ensures Coherent(order, games, snaps[code := s])
  {
  }

  /** The snapshot of `room`, wherever it is registered, replaced by `s`. */
  ghost function Reshow(games: map<string, Room>, snaps: map<string, RoomState>,
                        room: Room, s: RoomState): map<string, RoomState>
  {
    map k | k in snaps :: if k in games && games[k] == room then s else snaps[k]
  }

  /** A room registered under `code` is registered under no other code. */
  lemma ReshowAt(games: map<string, Room>, snaps: map<string, RoomState>, code: string, s: RoomState)
    requires Injective(games) && code in games && code in snaps
    ensures Reshow(games, snaps, games[code], s) == snaps[code := s]
  {
  }

  /** Every registered room object holds its recorded snapshot. */
  ghost predicate Shows(games: map<string, Room>, snaps: map<string, RoomState>)
    reads games.Values
  {
    forall k :: k in games && k in snaps ==> games[k].state == snaps[k]
  }

  /** Every room of `rooms` holds its snapshot with the player `id` taken
      out, as `disconnect` leaves the rooms it deletes. */
  ghost predicate LeftBy(rooms: map<string, Room>, snaps: map<string, RoomState>, id: string)
    reads rooms.Values
  {
    forall k :: k in rooms && k in snaps ==> rooms[k].state == Transitions.Leave(snaps[k], id)
  }

  /** Registering a room under `code` with its own state as the snapshot
      keeps every registered room showing its snapshot. */
  lemma ShowsPut(games: map<string, Room>, snaps: map<string, RoomState>, code: string, room: Room)
    requires Shows(games, snaps)
    ensures Shows(games[code := room], snaps[code := room.state])
  {
  }

  /** Once every other registered room still shows its snapshot, the
      registry shows the new state of the room under `code`. */
  lemma ShowsSet(games: map<string, Room>, snaps: map<string, RoomState>, code: string)
    requires code in games
    requires forall k :: k in games && k in snaps && k != code ==> games[k].state == snaps[k]
    ensures Shows(games, snaps[code := games[code].state])
  {
  }

  /** An unregistered room leaves the snapshots as they are. */
  lemma ReshowAbsent(games: map<string, Room>, snaps: map<string, RoomState>, room: Room, s: RoomState)
    requires room !in games.Values
    ensures Reshow(games, snaps, room, s) == snaps
  {
  }

  /** The keys of a sequence, as a set. */
  ghost function Elems(keys: seq<string>): set<string> {
    set k | k in keys
  }

  lemma ElemsStep(keys: seq<string>, i: nat)
    requires i < |keys|
    ensures Elems(keys[..i + 1]) == Elems(keys[..i]) + {keys[i]}
    ensures Distinct(keys) ==> keys[i] !in Elems(keys[..i])
  {
    assert keys[..i + 1] == keys[..i] + [keys[i]];
  }

  lemma LeavePassAll(rooms: map<string, RoomState>, id: string)
    ensures LeavePass(rooms, id, rooms.Keys) == LeaveAll(rooms, id)
  {
  }

  lemma ClearPassAll(rooms: map<string, RoomState>, id: string)
    ensures ClearPass(rooms, id, rooms.Keys) == ClearAll(rooms, id)
  {
  }

  /** What a started handler leaves pending, with the room object it captured. */
  datatype StartOutcome =
    | StartIgnored                 // no such room, or no theme chosen
    | StartRefused(error: string)  // the `gameError` broadcast
    | OpeningPending(room: Room)   // awaits the opening line and the timer

  class Games {
    /** The keys of `games` in insertion order. */
    var order: seq<string>
    var games: map<string, Room>
    /** The snapshot of every registered room. */
    ghost var Snapshots: map<string, RoomState>

    ghost predicate Valid()
      reads this, games.Values
    {
      && Coherent(order, games, Snapshots)
      && Shows(games, Snapshots)
    }

    constructor ()
      ensures Valid() && games == map[] && order == [] && Snapshots == map[]
    {
      order := [];
      games := map[];
      Snapshots := map[];
    }

    /** `createGame` with the generated code: a fresh room with its creator
        as host is stored under the code, replacing any room already there. */
    method CreateGame(code: string, hostId: string, hostName: string) returns (room: Room)
      requires Valid() && IsCode(code)
      modifies this
      ensures Valid()
      ensures fresh(room) && games == old(games)[code := room]
      ensures order == if code in old(games) then old(order) else old(order) + [code]
      ensures Snapshots == old(Snapshots)[code := Transitions.NewRoom(hostId, hostName)]
    {
      room := new Room(hostId, hostName);
      Register(code, room);
    }

    /** `games.set(code, room)`. */
    method Register(code: string, room: Room)
      requires Valid() && IsCode(code) && room !in games.Values && Inv(room.state)
      modifies this
      ensures Valid() && games == old(games)[code := room]
      ensures order == if code in old(games) then old(order) else old(order) + [code]
      ensures Snapshots == old(Snapshots)[code := room.state]
    {
      ghost var o, g, s := order, games, Snapshots;
      order, games, Snapshots :=
        (if code in games then order else order + [code]), games[code := room], Snapshots[code := room.state];
      CoherentPut(o, g, s, code, room, room.state, order, games, Snapshots);
      ShowsPut(g, s, code, room);
    }

    /** `joinGame`. */
    method JoinGame(code: string, id: string, name: string) returns (result: JoinResult)
      requires Valid()
      modifies this, games.Values
      ensures Valid() && games == old(games) && order == old(order)
      ensures JoinOutcome(Snapshots, result) == JoinRooms(order, old(Snapshots), code, id, name)
    {
      var key := FindKey(order, code);
      if key.None? || key.value == "" || key.value !in games {
        return GameNotFound;
      }
      var room := games[key.value];
      if |room.state.players| >= MAX_PLAYERS {
        return GameIsFull;
      }
      Transitions.AddPlayerKeepsInv(room.state, id, name);
      room.AddPlayer(id, name);
      Resync(key.value);
      result := Joined;
    }

    /** Brings the snapshot under `code` up to date after a method of its
        room ran. */
    ghost method Resync(code: string)
      requires Coherent(order, games, Snapshots) && code in games
      requires forall k :: k in games && k != code ==> games[k].state == Snapshots[k]
      requires Inv(games[code].state)
      modifies this
      ensures Valid() && games == old(games) && order == old(order)
      ensures Snapshots == old(Snapshots)[code := games[code].state]
    {
      CoherentSet(order, games, Snapshots, code, games[code].state);
      ShowsSet(games, Snapshots, code);
      Snapshots := Snapshots[code := games[code].state];
    }

    /** Brings the snapshot of `room`, if it is still registered, up to date
        after one of its methods ran. */
    ghost method ResyncCaptured(room: Room)
      requires Coherent(order, games, Snapshots)
      requires forall k :: k in games && games[k] != room ==> games[k].state == Snapshots[k]
      requires room in games.Values ==> Inv(room.state)
      modifies this
      ensures Valid() && games == old(games) && order == old(order)
      ensures Snapshots == Reshow(games, old(Snapshots), room, room.state)
    {
      if room in games.Values {
        var k :| k in games && games[k] == room;
        ReshowAt(games, Snapshots, k, room.state);
        Resync(k);
      } else {
        ReshowAbsent(games, Snapshots, room, room.state);
      }
    }

    /** A registered room satisfies the room invariant. */
    lemma RegisteredInv(room: Room)
      requires Valid()
      ensures room in games.Values ==> Inv(room.state)
    {
      if room in games.Values {
        var k :| k in games && games[k] == room;
        assert Inv(Snapshots[k]);
      }
    }

    /** `selectTheme`: the theme of the room registered under exactly `code`
        is set; an unknown code changes nothing. */
    method SelectTheme(code: string, theme: string)
      requires Valid()
      modifies this, games.Values
      ensures Valid() && games == old(games) && order == old(order)
      ensures Snapshots == if code in old(Snapshots)
        then old(Snapshots)[code := Transitions.SetTheme(old(Snapshots)[code], theme)]
        else old(Snapshots)
    {
      if code in games {
        games[code].SetTheme(theme);
        Resync(code);
      }
    }

    /** `typing`: the caller becomes the room's typing player. */
    method Typing(code: string, id: string)
      requires Valid()
      modifies this, games.Values
      ensures Valid() && games == old(games) && order == old(order)
      ensures Snapshots == if code in old(Snapshots)
        then old(Snapshots)[code := Transitions.SetTyping(old(Snapshots)[code], id)]
        else old(Snapshots)
    {
      if code in games {
        games[code].SetTyping(id);
        Resync(code);
      }
    }

    /** `stopTyping` and `typing:end`: the indicator is cleared only when it
        shows the caller. */
    method StopTyping(code: string, id: string)
      requires Valid()
      modifies this, games.Values
      ensures Valid() && games == old(games) && order == old(order)
      ensures Snapshots == if code in old(Snapshots)
        then old(Snapshots)[code := Transitions.ClearTypingOf(old(Snapshots)[code], id)]
        else old(Snapshots)
    {
      if code in games {
        games[code].ClearTypingOf(id);
        Resync(code);
      }
    }

    /** `toggleFeature`: one room-level feature flag is set. */
    method ToggleFeature(code: string, feature: string, enabled: bool)
      requires Valid()
      modifies this, games.Values
      ensures Valid() && games == old(games) && order == old(order)
      ensures Snapshots == if code in old(Snapshots)
        then old(Snapshots)[code := Transitions.ToggleFeature(old(Snapshots)[code], feature, enabled)]
        else old(Snapshots)
    {
      if code in games {
        games[code].ToggleFeature(feature, enabled);
        Resync(code);
      }
    }

    /** `updateGameFeatures`: the room-level feature object is replaced. */
    method UpdateGameFeatures(code: string, features: map<string, bool>)
      requires Valid()
      modifies this, games.Values
      ensures Valid() && games == old(games) && order == old(order)
      ensures Snapshots == if code in old(Snapshots)
        then old(Snapshots)[code := Transitions.SetFeatures(old(Snapshots)[code], features)]
        else old(Snapshots)
    {
      if code in games {
        games[code].SetFeatures(features);
        Resync(code);
      }
    }

    /** `startGame` up to its first suspension point. The room is looked up
        by the exact code; without a theme nothing happens; the player cap
        is checked; then the first phase runs and the handler awaits the
        opening line. */
    method StartGame(code: string) returns (outcome: StartOutcome)
      requires Valid()
      modifies this, games.Values
      ensures Valid() && games == old(games) && order == old(order)
      ensures code !in old(Snapshots) ==> outcome == StartIgnored && Snapshots == old(Snapshots)
      ensures code in old(Snapshots) ==>
        match Transitions.StartCheck(old(Snapshots)[code])
        case NoTheme => outcome == StartIgnored && Snapshots == old(Snapshots)
        case TooManyPlayers =>
          outcome == StartRefused("Maximum 8 players allowed") && Snapshots == old(Snapshots)
        case Begins =>
          && outcome == OpeningPending(games[code])
          && Snapshots == old(Snapshots)[code := Transitions.Begin(old(Snapshots)[code])]
    {
      if code !in games {
        return StartIgnored;
      }
      var room := games[code];
      if room.state.theme.None? || room.state.theme.value == "" {
        return StartIgnored;
      }
      if |room.state.players| > MAX_PLAYERS {
        return StartRefused("Maximum 8 players allowed");
      }
      room.Begin();
      Resync(code);
      outcome := OpeningPending(room);
    }

    /** The timer callback of `startGame`, on the room it captured. It never
        throws on a registered room: only a room deleted in the meantime (its
        last player left) has an empty roster. */
    method OpeningArrives(room: Room, opening: string) returns (crashed: bool)
      requires Valid()
      modifies this, room
      ensures Valid() && games == old(games) && order == old(order)
      ensures room.state == Transitions.ReceiveOpening(old(room.state), opening).state
      ensures crashed == Transitions.ReceiveOpening(old(room.state), opening).crashed
      ensures Snapshots == Reshow(games, old(Snapshots), room, room.state)
      ensures crashed ==> room !in games.Values
    {
      RegisteredInv(room);
      crashed := room.ReceiveOpening(opening);
      ResyncCaptured(room);
    }

    /** `submitSentence` up to its first suspension point, on the room
        registered under exactly `code`. */
    method SubmitSentence(code: string, id: string, text: string)
      returns (next: Transitions.Continuation, room: Room?)
      requires Valid()
      modifies this, games.Values
      ensures Valid() && games == old(games) && order == old(order)
      ensures code !in old(Snapshots) ==>
        next == Transitions.Ignored && room == null && Snapshots == old(Snapshots)
      ensures code in old(Snapshots) ==>
        && room == games[code]
        && next == Transitions.Submit(old(Snapshots)[code], id, text).next
        && Snapshots == old(Snapshots)[code := Transitions.Submit(old(Snapshots)[code], id, text).state]
    {
      if code !in games {
        return Transitions.Ignored, null;
      }
      room := games[code];
      Transitions.SubmitKeepsInv(room.state, id, text);
      next := room.Submit(id, text);
      Resync(code);
    }

    /** After the 2000 ms round banner, on the captured room. */
    method RoundBannerEnds(room: Room)
      requires Valid()
      modifies this, room
      ensures Valid() && games == old(games) && order == old(order)
      ensures room.state == Transitions.EndRoundTransition(old(room.state))
      ensures Snapshots == Reshow(games, old(Snapshots), room, room.state)
    {
      RegisteredInv(room);
      room.EndRoundTransition();
      ResyncCaptured(room);
    }

    /** Once the AI continuation arrives, on the captured room. The read of
        the roster head throws only on a room deleted in the meantime. */
    method AiSentenceArrives(room: Room, text: string) returns (threw: bool)
      requires Valid()
      modifies this, room
      ensures Valid() && games == old(games) && order == old(order)
      ensures room.state == Transitions.ReceiveAiSentence(old(room.state), text).state
      ensures threw == Transitions.ReceiveAiSentence(old(room.state), text).threw
      ensures Snapshots == Reshow(games, old(Snapshots), room, room.state)
      ensures threw ==> room !in games.Values
    {
      RegisteredInv(room);
      threw := room.ReceiveAiSentence(text);
      ResyncCaptured(room);
    }

    /** Once the final story and its media arrive, on the captured room. */
    method StoryArrives(room: Room, story: string, image: Option<string>, audio: Option<string>)
      requires Valid()
      modifies this, room
      ensures Valid() && games == old(games) && order == old(order)
      ensures room.state == Transitions.FinishStory(old(room.state), story, image, audio)
      ensures Snapshots == Reshow(games, old(Snapshots), room, room.state)
    {
      RegisteredInv(room);
      room.FinishStory(story, image, audio);
      ResyncCaptured(room);
    }

    /** When the final-story pipeline throws, on the captured room. */
    method StoryFails(room: Room)
      requires Valid()
      modifies this, room
      ensures Valid() && games == old(games) && order == old(order)
      ensures room.state == Transitions.FallbackStory(old(room.state))
      ensures Snapshots == Reshow(games, old(Snapshots), room, room.state)
    {
      RegisteredInv(room);
      room.FallbackStory();
      ResyncCaptured(room);
    }

    /** `games.delete(code)`. */
    method Remove(code: string)
      requires Coherent(order, games, Snapshots) && code in games
      requires forall k :: k in games && k != code ==> games[k].state == Snapshots[k]
      modifies this
      ensures Valid()
      ensures games == old(games) - {code} && Snapshots == old(Snapshots) - {code}
      ensures order == Delete(old(order), code)
    {
      ghost var o, g, s := order, games, Snapshots;
      order, games, Snapshots := Delete(order, code), games - {code}, Snapshots - {code};
      CoherentDelete(o, g, s, code, order, games, Snapshots);
    }

    /** One step of the first pass of `disconnect`: the leaver is removed
        from the room under `code`, which is deleted once empty. */
    method LeaveRoom(code: string, id: string)
      requires Valid() && code in games
      modifies this, games[code]
      ensures Valid()
      ensures Transitions.Survives(old(Snapshots)[code], id) ==>
        && games == old(games) && order == old(order)
        && Snapshots == old(Snapshots)[code := Transitions.Leave(old(Snapshots)[code], id)]
      ensures !Transitions.Survives(old(Snapshots)[code], id) ==>
        && games == old(games) - {code} && order == Delete(old(order), code)
        && Snapshots == old(Snapshots) - {code}
      ensures old(games)[code].state == Transitions.Leave(old(Snapshots)[code], id)
    {
      var room := games[code];
      var emptied := room.Leave(id);
      if emptied {
        Remove(code);
      } else {
        Transitions.LeaveKeepsInv(old(room.state), id);
        Resync(code);
      }
    }

    /** One step of the second pass of `disconnect`. */
    method ClearRoom(code: string, id: string)
      requires Valid() && code in games
      modifies this, games[code]
      ensures Valid() && games == old(games) && order == old(order)
      ensures Snapshots == old(Snapshots)[code := Transitions.ClearTypingOf(old(Snapshots)[code], id)]
    {
      games[code].ClearTypingOf(id);
      Resync(code);
    }

    /** What holds after the first `i` codes of `keys`, a snapshot of the
        insertion order of `g0`, have been visited by the first pass of
        `disconnect`, `s0` being the snapshots before the pass: every visited
        room holds its snapshot from `s0` with the leaver taken out, whether
        or not it is still registered. */
    ghost predicate Leaving(keys: seq<string>, i: nat, id: string, g0: map<string, Room>, s0: map<string, RoomState>)
      reads this, games.Values, g0.Values
    {
      && i <= |keys|
      && Valid()
      && OrderLists(keys, g0.Keys)
      && Injective(g0)
      && g0.Keys == s0.Keys
      && (forall k :: k in games ==> k in g0 && games[k] == g0[k])
      && Snapshots == LeavePass(s0, id, Elems(keys[..i]))
      && (forall k :: k in Elems(keys[..i]) && k in g0 && k in s0 ==> g0[k].state == Transitions.Leave(s0[k], id))
    }

    /** `Leaving` from its conjuncts, outside any method's heap context. */
    lemma FoldLeaving(keys: seq<string>, i: nat, id: string, g0: map<string, Room>, s0: map<string, RoomState>)
      requires i <= |keys| && Valid()
      requires OrderLists(keys, g0.Keys) && Injective(g0) && g0.Keys == s0.Keys
      requires forall k :: k in games ==> k in g0 && games[k] == g0[k]
      requires Snapshots == LeavePass(s0, id, Elems(keys[..i]))
      requires forall k :: k in Elems(keys[..i]) && k in g0 && k in s0 ==> g0[k].state == Transitions.Leave(s0[k], id)
      ensures Leaving(keys, i, id, g0, s0)
    {
    }

    /** The conjuncts of `Leaving`, outside any method's heap context. */
    lemma UnfoldLeaving(keys: seq<string>, i: nat, id: string, g0: map<string, Room>, s0: map<string, RoomState>)
      requires Leaving(keys, i, id, g0, s0)
      ensures i <= |keys| && Valid()
      ensures OrderLists(keys, g0.Keys) && Injective(g0) && g0.Keys == s0.Keys
      ensures forall k :: k in games ==> k in g0 && games[k] == g0[k]
      ensures Snapshots == LeavePass(s0, id, Elems(keys[..i]))
      ensures forall k :: k in Elems(keys[..i]) && k in g0 && k in s0 ==> g0[k].state == Transitions.Leave(s0[k], id)
    {
    }

    /** The first pass of `disconnect`, on the room under `keys[i]`: it
        carries `Leaving` from `i` to `i + 1`. */
    method LeaveStep(keys: seq<string>, i: nat, id: string, ghost g0: map<string, Room>, ghost s0: map<string, RoomState>)
      requires i < |keys| && Valid()
      requires OrderLists(keys, g0.Keys) && Injective(g0) && g0.Keys == s0.Keys
      requires forall k :: k in games ==> k in g0 && games[k] == g0[k]
      requires Snapshots == LeavePass(s0, id, Elems(keys[..i]))
      requires forall k :: k in Elems(keys[..i]) && k in g0 && k in s0 ==> g0[k].state == Transitions.Leave(s0[k], id)
      modifies this, games.Values
      ensures Leaving(keys, i + 1, id, g0, s0)
    {
      var k := keys[i];
      ElemsStep(keys, i);
      LeavePassStep(s0, id, Elems(keys[..i]), k);
      LeaveRoom(k, id);
      FoldLeaving(keys, i + 1, id, g0, s0);
    }

    /** The first pass of `disconnect` (`games.forEach`, in insertion
        order): the leaver is removed from every room and rooms left empty
        are deleted. */
    method LeaveEverywhere(id: string)
      requires Valid()
      modifies this, games.Values
      ensures Valid()
      ensures Snapshots == LeaveAll(old(Snapshots), id)
      ensures forall k :: k in games ==> k in old(games) && games[k] == old(games)[k]
      ensures LeftBy(old(games), old(Snapshots), id)
      ensures forall k :: k in old(games) && k !in games ==> old(games)[k] !in games.Values
    {
      var keys := order;
      var i := 0;
      assert keys[..0] == [] && Elems(keys[..0]) == {};
      while i < |keys|
        invariant Leaving(keys, i, id, old(games), old(Snapshots))
      {
        UnfoldLeaving(keys, i, id, old(games), old(Snapshots));
        LeaveStep(keys, i, id, old(games), old(Snapshots));
        i := i + 1;
      }
      UnfoldLeaving(keys, i, id, old(games), old(Snapshots));
      assert keys[..i] == keys;
      assert Elems(keys) == old(Snapshots).Keys;
      LeavePassAll(old(Snapshots), id);
    }

    /** The second pass of `disconnect`: no room keeps the leaver as its
        typing player. The rooms `gone` that the first pass deleted are
        untouched, so they keep what `LeftBy` says of them. */
    method ClearEverywhere(id: string, ghost gone: map<string, Room>, ghost snaps: map<string, RoomState>)
      requires Valid()
      requires forall k :: k in gone ==> gone[k] !in games.Values
      requires LeftBy(gone, snaps, id)
      modifies this, games.Values
      ensures Valid() && games == old(games) && order == old(order)
      ensures Snapshots == ClearAll(old(Snapshots), id)
      ensures LeftBy(gone, snaps, id)
    {
      var i := 0;
      while i < |order|
        invariant 0 <= i <= |order|
        invariant Valid() && games == old(games) && order == old(order)
        invariant Snapshots == ClearPass(old(Snapshots), id, Elems(order[..i]))
        invariant LeftBy(gone, snaps, id)
      {
        var k := order[i];
        ElemsStep(order, i);
        ClearPassStep(old(Snapshots), id, Elems(order[..i]), k);
        ClearRoom(k, id);
        i := i + 1;
      }
      assert order[..i] == order;
      assert Elems(order) == old(Snapshots).Keys;
      ClearPassAll(old(Snapshots), id);
    }

    /** `disconnect`: the leaver is removed from every room, rooms left empty
        are deleted, then no remaining room shows the leaver as typing. */
    method Disconnect(id: string)
      requires Valid()
      modifies this, games.Values
      ensures Valid()
      ensures Snapshots == AfterDisconnect(old(Snapshots), id)
      ensures forall k :: k in games ==> k in old(games) && games[k] == old(games)[k]
      ensures forall k :: k in old(games) && k !in games ==>
        old(games)[k].state == Transitions.Leave(old(Snapshots)[k], id)
    {
      LeaveEverywhere(id);
      ghost var gone := old(games) - games.Keys;
      ClearEverywhere(id, gone, old(Snapshots));
    }
  }
}
