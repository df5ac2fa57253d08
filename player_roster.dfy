/** The roster editor of `src/components/PlayerRoster.tsx`: suggestions from
    the saved-player pool, adding players one by one or all at once,
    removing and editing them. Loading and syncing the pool are left out:
    the pool is a field the editor is given, and the roster handed back
    through `onSetPlayers` is the `players` field. */
module PlayerRoster {
  import opened Common
  import opened Seqs
  import opened Text
  import opened SportsTypes

  /** An entry of the saved-player pool. */
  datatype SavedPlayer = SavedPlayer(id: string, number: string, name: string)

  /** `players.some(p => p.number === sp.number && p.name === sp.name)`; a
      roster player without a number never matches. */
  predicate InRoster(players: seq<Player>, sp: SavedPlayer)
  {
    exists p :: p in players && p.number == Some(sp.number) && p.name == sp.name
  }

  /** The saved player as a roster entry with the given id. */
  function FromSaved(sp: SavedPlayer, id: string): (p: Player)
    ensures InRoster([p], sp)
  {
    var p := Player(id, sp.name, Some(sp.number));
    assert p in [p];
    p
  }

  /** The predicate of the suggestion filter, for a lower-cased name query
      and a number query, both already trimmed. */
  function Suggestable(players: seq<Player>, query: string, numQuery: string): SavedPlayer -> bool
  {
    (sp: SavedPlayer) =>
      if InRoster(players, sp) then false
      else
        var nameMatch := if query != [] then Includes(ToLower(sp.name), query) else true;
        var numMatch := if numQuery != [] then Includes(sp.number, numQuery) else true;
        nameMatch && numMatch
  }

  /** An empty query is contained in every string. */
  lemma EmptyIncluded()
    ensures forall s: string :: Includes(s, [])
  {
    forall s: string
      ensures Includes(s, [])
    {
      assert [] <= s;
    }
  }

  /** What a suggestion must satisfy: not in the roster, its lower-cased
      name contains the trimmed, lower-cased name query and its number
      contains the trimmed number query. */
  predicate Matches(players: seq<Player>, newName: string, newNumber: string, sp: SavedPlayer)
  {
    && !InRoster(players, sp)
    && Includes(ToLower(sp.name), ToLower(Trim(newName)))
    && Includes(sp.number, Trim(newNumber))
  }

  /** `suggestions`: at most five saved players, in pool order, that match
      the queries; none while both queries are blank. With fewer than five,
      every matching saved player is suggested. */
  function Suggestions(players: seq<Player>, saved: seq<SavedPlayer>, newName: string, newNumber: string)
    : (r: seq<SavedPlayer>)
    ensures |r| <= 5
    ensures IsBlank(newName) && IsBlank(newNumber) ==> r == []
    ensures forall i :: 0 <= i < |r| ==> r[i] in saved && Matches(players, newName, newNumber, r[i])
    ensures |r| < 5 && !(IsBlank(newName) && IsBlank(newNumber)) ==>
              forall i :: 0 <= i < |saved| && Matches(players, newName, newNumber, saved[i]) ==> saved[i] in r
  {
    var query := ToLower(Trim(newName));
    var numQuery := Trim(newNumber);
    if query == [] && numQuery == [] then []
    else
      var all := Filter(saved, Suggestable(players, query, numQuery));
      var r := Take(all, 5);
      FilterKeeps(saved, Suggestable(players, query, numQuery));
      assert forall i :: 0 <= i < |r| ==> r[i] == all[i];
      EmptyIncluded();
      r
  }

  /** Suggestions keep the pool's order. */
  lemma SuggestionsInPoolOrder(players: seq<Player>, saved: seq<SavedPlayer>, newName: string, newNumber: string)
    ensures IsSubsequence(Suggestions(players, saved, newName, newNumber), saved)
  {
    var query := ToLower(Trim(newName));
    var numQuery := Trim(newNumber);
    if query != [] || numQuery != [] {
      var all := Filter(saved, Suggestable(players, query, numQuery));
      FilterIsSubsequence(saved, Suggestable(players, query, numQuery));
      PrefixIsSubsequence(all, saved, 5);
    } else {
      EmptyIsSubsequence(saved);
    }
  }

  /** `Matches` as a filter predicate. */
  function Matching(players: seq<Player>, newName: string, newNumber: string): SavedPlayer -> bool
  {
    (sp: SavedPlayer) => Matches(players, newName, newNumber, sp)
  }

  /** Once a query is typed, the suggestions are the first five matching
      saved players: as many as there are matches, up to five, and the
      matches of any stretch of the pool's head that holds at most five of
      them come first, in pool order. */
  lemma SuggestionsAreFirstMatches(players: seq<Player>, saved: seq<SavedPlayer>, newName: string, newNumber: string,
                                   c: nat)
    requires c <= |saved|
    ensures var r := Suggestions(players, saved, newName, newNumber);
            var m := Filter(saved, Matching(players, newName, newNumber));
            !(IsBlank(newName) && IsBlank(newNumber)) ==> |r| == if |m| <= 5 then |m| else 5
    ensures var r := Suggestions(players, saved, newName, newNumber);
            var head := Filter(saved[..c], Matching(players, newName, newNumber));
            !(IsBlank(newName) && IsBlank(newNumber)) && |head| <= 5 ==> head <= r
  {
    var query := ToLower(Trim(newName));
    var numQuery := Trim(newNumber);
    if query != [] || numQuery != [] {
      var f := Suggestable(players, query, numQuery);
      var g := Matching(players, newName, newNumber);
      EmptyIncluded();
      FilterSame(saved, f, g);
      FilterPrefix(saved, c, g);
    }
  }

  /** Picking a suggestion takes it out of the suggestions, whatever is
      typed next. */
  lemma SelectedIsNoLongerSuggested(players: seq<Player>, saved: seq<SavedPlayer>, sp: SavedPlayer, id: string,
                                    newName: string, newNumber: string)
    ensures sp !in Suggestions(players + [FromSaved(sp, id)], saved, newName, newNumber)
  {
    var p := FromSaved(sp, id);
    assert p in players + [p];
    assert !Matches(players + [p], newName, newNumber, sp);
  }

  function NotInRoster(players: seq<Player>): SavedPlayer -> bool
  {
    (sp: SavedPlayer) => !InRoster(players, sp)
  }

  /** The saved players `addAllSaved` would add, in pool order: exactly
      those not already in the roster. */
  function Available(players: seq<Player>, saved: seq<SavedPlayer>): (r: seq<SavedPlayer>)
    ensures |r| <= |saved|
    ensures forall i :: 0 <= i < |r| ==> r[i] in saved && !InRoster(players, r[i])
    ensures forall i :: 0 <= i < |saved| && !InRoster(players, saved[i]) ==> saved[i] in r
  {
    FilterKeeps(saved, NotInRoster(players));
    Filter(saved, NotInRoster(players))
  }

  /** `availableSavedCount`. */
  function AvailableCount(players: seq<Player>, saved: seq<SavedPlayer>): (n: nat)
    ensures n <= |saved|
    ensures n == 0 <==> forall i :: 0 <= i < |saved| ==> InRoster(players, saved[i])
  {
    var r := Available(players, saved);
    assert r != [] ==> r[0] in saved;
    |r|
  }

  /** The new roster entries of `addAllSaved`, the k-th with id `newId(k)`. */
  function AddedPlayers(toAdd: seq<SavedPlayer>, newId: nat -> string): (r: seq<Player>)
    ensures |r| == |toAdd|
    ensures forall k :: 0 <= k < |toAdd| ==> r[k] == FromSaved(toAdd[k], newId(k))
  {
    seq(|toAdd|, k requires 0 <= k < |toAdd| => FromSaved(toAdd[k], newId(k)))
  }

  /** After `addAllSaved`, every saved player is in the roster, so nothing
      is left to add and the button count drops to zero. */
  lemma AddAllSavedExhaustsPool(players: seq<Player>, saved: seq<SavedPlayer>, newId: nat -> string)
    ensures AvailableCount(players + AddedPlayers(Available(players, saved), newId), saved) == 0
  {
    var toAdd := Available(players, saved);
    var added := AddedPlayers(toAdd, newId);
    var after := players + added;
    forall i | 0 <= i < |saved|
      ensures InRoster(after, saved[i])
    {
      var sp := saved[i];
      if InRoster(players, sp) {
        var p :| p in players && p.number == Some(sp.number) && p.name == sp.name;
        assert p in after;
      } else {
        assert sp in toAdd;
        var k :| 0 <= k < |toAdd| && toAdd[k] == sp;
        assert after[|players| + k] == added[k];
        assert added[k] in after;
      }
    }
  }

  /** `players.filter(p => p.id !== id)`. */
  function IdIsNot(id: string): Player -> bool
  {
    (p: Player) => p.id != id
  }

  /** The roster after `addAllSaved`: the old roster followed by one new
      entry per available saved player; the same roster when there are none. */
  function WithAllSaved(players: seq<Player>, saved: seq<SavedPlayer>, newId: nat -> string): (r: seq<Player>)
    ensures players <= r
  {
    var toAdd := Available(players, saved);
    if toAdd == [] then players else players + AddedPlayers(toAdd, newId)
  }

  /** `addAllSaved` adds as many players as `availableSavedCount` said,
      nothing when it said zero, and afterwards none is available. */
  lemma WithAllSavedFillsRoster(players: seq<Player>, saved: seq<SavedPlayer>, newId: nat -> string)
    ensures |WithAllSaved(players, saved, newId)| == |players| + AvailableCount(players, saved)
    ensures AvailableCount(players, saved) == 0 ==> WithAllSaved(players, saved, newId) == players
    ensures AvailableCount(WithAllSaved(players, saved, newId), saved) == 0
  {
    AddAllSavedExhaustsPool(players, saved, newId);
  }

  /** `removePlayer`: no player with the id is left and every other player
      stays. */
  function Without(players: seq<Player>, id: string): (r: seq<Player>)
    ensures forall i :: 0 <= i < |r| ==> r[i].id != id && r[i] in players
    ensures forall i :: 0 <= i < |players| && players[i].id != id ==> players[i] in r
  {
    FilterKeeps(players, IdIsNot(id));
    Filter(players, IdIsNot(id))
  }

  /** Removal keeps the remaining players in roster order. */
  lemma WithoutKeepsOrder(players: seq<Player>, id: string)
    ensures IsSubsequence(Without(players, id), players)
  {
    FilterIsSubsequence(players, IdIsNot(id));
  }

  /** The roster after `saveEdit` for player `id`: same length and ids;
      the player with the id takes the new number and name, every other
      entry is untouched. */
  function Edited(players: seq<Player>, id: string, number: string, name: string): (r: seq<Player>)
    ensures |r| == |players|
    ensures forall i :: 0 <= i < |r| ==> r[i].id == players[i].id
    ensures forall i :: 0 <= i < |r| && players[i].id != id ==> r[i] == players[i]
    ensures forall i :: 0 <= i < |r| && players[i].id == id ==> r[i].number == Some(number) && r[i].name == name
  {
    seq(|players|, i requires 0 <= i < |players| =>
      if players[i].id == id then players[i].(number := Some(number), name := name) else players[i])
  }

  /** Editing a player changes nothing once that player is removed. */
  lemma {:induction false} EditThenRemove(players: seq<Player>, id: string, number: string, name: string)
    ensures Without(Edited(players, id, number, name), id) == Without(players, id)
  {
    if players != [] {
      var e := Edited(players, id, number, name);
      EditThenRemove(players[1..], id, number, name);
      assert e[1..] == Edited(players[1..], id, number, name);
    }
  }

  /** The editor's state: the roster, the add form, the edit form and the
      saved-player pool. */
  class Roster {
    var players: seq<Player>
    var savedPlayers: seq<SavedPlayer>
    var newNumber: string
    var newName: string
    var showSuggestions: bool
    var editingId: Option<string>
    var editNumber: string
    var editName: string

    constructor (players: seq<Player>, savedPlayers: seq<SavedPlayer>)
      ensures this.players == players && this.savedPlayers == savedPlayers
      ensures newNumber == "" && newName == "" && !showSuggestions
      ensures editingId == None && editNumber == "" && editName == ""
    {
      this.players := players;
      this.savedPlayers := savedPlayers;
      newNumber := "";
      newName := "";
      showSuggestions := false;
      editingId := None;
      editNumber := "";
      editName := "";
    }

    function CurrentSuggestions(): seq<SavedPlayer>
      reads this
    {
      Suggestions(players, savedPlayers, newName, newNumber)
    }

    function AvailableSavedCount(): nat
      reads this
    {
      AvailableCount(players, savedPlayers)
    }

    /** `addPlayer`: nothing happens while the number is blank; otherwise
        one player with the trimmed number and name is appended and the
        form is cleared. */
    method AddPlayer(id: string)
      modifies this
      ensures Trim(old(newNumber)) == [] ==> unchanged(this)
      ensures Trim(old(newNumber)) != [] ==>
                && players == old(players) + [Player(id, Trim(old(newName)), Some(Trim(old(newNumber))))]
                && newNumber == "" && newName == "" && !showSuggestions
                && savedPlayers == old(savedPlayers) && editingId == old(editingId)
                && editNumber == old(editNumber) && editName == old(editName)
    {
      if Trim(newNumber) == [] {
        return;
      }
      players := players + [Player(id, Trim(newName), Some(Trim(newNumber)))];
      newNumber := "";
      newName := "";
      showSuggestions := false;
    }

    /** `selectSuggestion`: the saved player is appended and the form
        cleared. */
    method SelectSuggestion(sp: SavedPlayer, id: string)
      modifies this
      ensures players == old(players) + [FromSaved(sp, id)]
      ensures newNumber == "" && newName == "" && !showSuggestions
      ensures savedPlayers == old(savedPlayers) && editingId == old(editingId)
      ensures editNumber == old(editNumber) && editName == old(editName)
    {
      players := players + [FromSaved(sp, id)];
      newNumber := "";
      newName := "";
      showSuggestions := false;
    }

    /** `addAllSaved`: only the roster changes, to `WithAllSaved`. */
    method AddAllSaved(newId: nat -> string)
      modifies this
      ensures players == WithAllSaved(old(players), old(savedPlayers), newId)
      ensures savedPlayers == old(savedPlayers) && newNumber == old(newNumber) && newName == old(newName)
      ensures showSuggestions == old(showSuggestions) && editingId == old(editingId)
      ensures editNumber == old(editNumber) && editName == old(editName)
    {
      var toAdd := Available(players, savedPlayers);
      if |toAdd| == 0 {
        return;
      }
      players := players + AddedPlayers(toAdd, newId);
    }

    /** `removePlayer`. */
    method RemovePlayer(id: string)
      modifies this
      ensures players == Without(old(players), id)
      ensures savedPlayers == old(savedPlayers) && newNumber == old(newNumber) && newName == old(newName)
      ensures showSuggestions == old(showSuggestions) && editingId == old(editingId)
      ensures editNumber == old(editNumber) && editName == old(editName)
    {
      players := Without(players, id);
    }

    /** `startEdit`: the edit form is loaded with the player's values. */
    method StartEdit(p: Player)
      modifies this
      ensures editingId == Some(p.id) && editNumber == p.number.GetOr("") && editName == p.name
      ensures players == old(players) && savedPlayers == old(savedPlayers)
      ensures newNumber == old(newNumber) && newName == old(newName) && showSuggestions == old(showSuggestions)
    {
      editingId := Some(p.id);
      editNumber := p.number.GetOr("");
      editName := p.name;
    }

    /** `saveEdit`: without an edited player (no id, or the empty id, which
        JavaScript reads as false) or with a blank number nothing
        happens; otherwise only the edited player's number and name change
        and the edit form closes. */
    method SaveEdit()
      modifies this
      ensures old(editingId) in {None, Some("")} || IsBlank(old(editNumber)) ==> unchanged(this)
      ensures old(editingId) !in {None, Some("")} && !IsBlank(old(editNumber)) ==>
                && players == Edited(old(players), old(editingId).value, Trim(old(editNumber)), Trim(old(editName)))
                && editingId == None
                && editNumber == old(editNumber) && editName == old(editName)
                && savedPlayers == old(savedPlayers) && newNumber == old(newNumber) && newName == old(newName)
                && showSuggestions == old(showSuggestions)
    {
      if editingId.None? || editingId.value == "" || Trim(editNumber) == [] {
        return;
      }
      players := Edited(players, editingId.value, Trim(editNumber), Trim(editName));
      editingId := None;
    }
  }
}
