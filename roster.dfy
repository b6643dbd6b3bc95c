/** The player-management dialog: an editable copy of the roster and a name input. */
module Roster {
  import opened Seqs
  import opened Text
  import opened PubGolfContext

  predicate HasId(players: seq<Player>, id: int) {
    exists i :: 0 <= i < |players| && players[i].id == id
  }

  function NotPlayer(id: int): Player -> bool {
    (p: Player) => p.id != id
  }

  /** The list after `removePlayer(id)`. */
  function WithoutPlayer(players: seq<Player>, id: int): seq<Player> {
    Filter(players, NotPlayer(id))
  }

  /**
   * After `removePlayer(id)` no player with that id is left, every other
   * player is, and in the same order; a second removal changes nothing, and
   * removing an absent id is a no-op.
   */
  lemma WithoutPlayerEffect(players: seq<Player>, id: int)
    ensures var r := WithoutPlayer(players, id);
      && !HasId(r, id)
      && (forall i :: 0 <= i < |players| && players[i].id != id ==> players[i] in r)
      && IsSubsequence(r, players)
      && (forall p :: multiset(r)[p] == if p.id != id then multiset(players)[p] else 0)
      && WithoutPlayer(r, id) == r
    ensures !HasId(players, id) ==> WithoutPlayer(players, id) == players
  {
    forall p ensures multiset(WithoutPlayer(players, id))[p] == if p.id != id then multiset(players)[p] else 0 {
      FilterCount(players, NotPlayer(id), p);
    }
    FilterIsSubsequence(players, NotPlayer(id));
    FilterIdempotent(players, NotPlayer(id));
    if !HasId(players, id) {
      FilterAllKept(players, NotPlayer(id));
    }
  }

  class PlayerModal {
    var playerList: seq<Player>
    var newPlayerName: string

    /** The dialog starts from the roster it is given and an empty input. */
    constructor (players: seq<Player>)
      ensures playerList == players && newPlayerName == ""
    {
      playerList := players;
      newPlayerName := "";
    }

    /**
     * `addPlayer`: a blank (empty or white-space) name changes nothing;
     * otherwise the trimmed name is appended as a player with the fresh id
     * and the input is cleared.
     */
    method AddPlayer(id: int)
      modifies this
      ensures Trim(old(newPlayerName)) == "" ==>
        playerList == old(playerList) && newPlayerName == old(newPlayerName)
      ensures Trim(old(newPlayerName)) != "" ==>
        && playerList == old(playerList) + [Player(id, Trim(old(newPlayerName)))]
        && newPlayerName == ""
    {
      var name := Trim(newPlayerName);
      if name != "" {
        playerList := playerList + [Player(id, name)];
        newPlayerName := "";
      }
    }

    method RemovePlayer(id: int)
      modifies this
      ensures playerList == WithoutPlayer(old(playerList), id)
      ensures newPlayerName == old(newPlayerName)
    {
      playerList := Filter(playerList, NotPlayer(id));
    }

    /** `handleSave`: the list handed to `onSave` is the edited list, as it is. */
    method HandleSave() returns (saved: seq<Player>)
      ensures saved == playerList
    {
      saved := playerList;
    }
  }

  /** An added player's name is the input without its surrounding white space, never blank. */
  lemma AddedNameIsTrimmed(input: string)
    requires Trim(input) != ""
    ensures !IsWhitespace(Trim(input)[0]) && !IsWhitespace(Trim(input)[|Trim(input)| - 1])
    ensures Includes(input, Trim(input))
    ensures Trim(Trim(input)) == Trim(input)
  {
    TrimIdempotent(input);
  }

  /** A name made only of white space is blank, so `addPlayer` ignores it. */
  lemma BlankNameIgnored(input: string)
    requires AllWhitespace(input)
    ensures Trim(input) == ""
  {
  }
}
