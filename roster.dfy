/** Operations on a room's ordered player list: `findIndex` by connection id
    and `splice(i, 1)`. */
module Roster {
  import opened Types

  /** `players.findIndex(p => p.id === id)`: the first position holding `id`,
      or -1 when there is none. */
  function FindIndex(players: seq<Player>, id: string): (r: int)
    ensures -1 <= r < |players|
    ensures r == -1 <==> !InRoster(players, id)
    ensures r >= 0 ==> players[r].id == id
    ensures r >= 0 ==> forall j :: 0 <= j < r ==> players[j].id != id
  {
    if |players| == 0 then -1
    else if players[0].id == id then 0
    else
      var k := FindIndex(players[1..], id);
      if k == -1 then
        assert forall i :: 0 < i < |players| ==> players[i] == players[1..][i - 1];
        -1
      else
        k + 1
  }

  /** `players.splice(i, 1)`. */
  function RemoveAt(players: seq<Player>, i: nat): (r: seq<Player>)
    requires i < |players|
    ensures |r| == |players| - 1
    ensures multiset(r) + multiset{players[i]} == multiset(players)
  {
    assert players == players[..i] + [players[i]] + players[i + 1..];
    players[..i] + players[i + 1..]
  }

  /** Removing position `i` keeps every other player, in order, and shifts the
      tail one place left. */
  lemma RemoveAtShape(players: seq<Player>, i: nat)
    requires i < |players|
    ensures |RemoveAt(players, i)| == |players| - 1
    ensures forall j :: 0 <= j < i ==> RemoveAt(players, i)[j] == players[j]
    ensures forall j :: i <= j < |players| - 1 ==> RemoveAt(players, i)[j] == players[j + 1]
  {
  }

  /** A connection id held by a player other than the removed one is still in
      the roster after the removal. */
  lemma RemoveAtKeepsOthers(players: seq<Player>, i: nat, id: string)
    requires i < |players|
    requires InRoster(players, id) && players[i].id != id
    ensures InRoster(RemoveAt(players, i), id)
  {
    var j :| 0 <= j < |players| && players[j].id == id;
    RemoveAtShape(players, i);
    if j < i {
      assert RemoveAt(players, i)[j].id == id;
    } else {
      assert j > i;
      assert RemoveAt(players, i)[j - 1].id == id;
    }
  }

  /** Removing any player keeps the host, if any, at the head of the roster. */
  lemma RemoveAtKeepsHostAtHead(players: seq<Player>, i: nat)
    requires i < |players|
    requires HostOnlyAtHead(players)
    ensures HostOnlyAtHead(RemoveAt(players, i))
  {
    RemoveAtShape(players, i);
  }

  /** Appending a player keeps every connection id of the roster. */
  lemma AppendKeepsMembers(players: seq<Player>, p: Player, id: string)
    requires InRoster(players, id)
    ensures InRoster(players + [p], id)
  {
    var j :| 0 <= j < |players| && players[j].id == id;
    assert (players + [p])[j].id == id;
  }

  /** `findIndex` by connection id depends on the ids alone. */
  lemma {:induction false} FindIndexSameIds(a: seq<Player>, b: seq<Player>, id: string)
    requires |a| == |b|
    requires forall j :: 0 <= j < |a| ==> a[j].id == b[j].id
    ensures FindIndex(a, id) == FindIndex(b, id)
  {
    if |a| > 0 && a[0].id != id {
      FindIndexSameIds(a[1..], b[1..], id);
    }
  }
}
