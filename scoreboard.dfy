/**
 * The main scoreboard screen (src/components/Scoreboard/index.tsx): which
 * player's detail sheet and score sheet are open, by player id, and the
 * reset and end-of-game confirmation dialogs. The end-of-game dialog does
 * not open once the end-of-game bonus has been applied.
 */
module Scoreboard {
  import opened Types
  import opened Wrappers
  import App

  /** No player before position i has the id. */
  predicate FirstWithId(players: seq<Player>, i: nat, id: int)
    requires i <= |players|
  {
    forall j :: 0 <= j < i ==> players[j].id != id
  }

  /** `players.find(p => p.id === id) ?? null`: the first player with that id. */
  function Find(players: seq<Player>, id: int): (r: Option<Player>)
    ensures r.None? <==> forall i :: 0 <= i < |players| ==> players[i].id != id
    ensures r.Some? ==> r.value.id == id
    ensures r.Some? ==> exists i :: 0 <= i < |players| && players[i] == r.value && FirstWithId(players, i, id)
  {
    if players == [] then None
    else if players[0].id == id then Some(players[0])
    else
      var r := Find(players[1..], id);
      assert forall i :: 1 <= i < |players| ==> players[i] == players[1..][i - 1];
      r
  }

  /** The player an open sheet shows: none while no id is set (an unset id
      and the id 0 are both falsy), otherwise the player with that id, if
      any. */
  function SheetPlayer(players: seq<Player>, id: Option<int>): (r: Option<Player>)
    ensures r.Some? <==> id.Some? && id.value != 0 && exists i :: 0 <= i < |players| && players[i].id == id.value
    ensures r.Some? ==> r.value in players && r.value.id == id.value
  {
    if id.None? || id.value == 0 then None else Find(players, id.value)
  }

  /** In a roster without repeated ids the sheet shows the one player with
      the id. */
  lemma SheetPlayerIsUnique(players: seq<Player>, k: nat)
    requires App.ValidRoster(players) && k < |players| && players[k].id != 0
    ensures SheetPlayer(players, Some(players[k].id)) == Some(players[k])
  {
    var r := SheetPlayer(players, Some(players[k].id));
    var i :| 0 <= i < |players| && players[i] == r.value && FirstWithId(players, i, players[k].id);
    assert i == k;
  }

  /** In a fresh roster of `count` players an id opens a sheet exactly when
      it lies between 1 and `count`. */
  lemma NewRosterSheets(count: nat, id: int)
    requires count <= |Palette|
    ensures SheetPlayer(App.NewRoster(count), Some(id)).Some? <==> 1 <= id <= count
  {
    var ps := App.NewRoster(count);
    if 1 <= id <= count {
      assert ps[id - 1].id == id;
    }
  }

  /** An open sheet follows the ledger: after points are added to the player
      it shows, it shows that player with the points added. */
  lemma SheetFollowsLedger(players: seq<Player>, id: int, points: int, t: ScoreType, recordId: string, now: int)
    requires App.ValidRoster(players) && SheetPlayer(players, Some(id)).Some?
    ensures SheetPlayer(App.AddScoreTo(players, id, points, t, recordId, now), Some(id)) ==
      Some(App.AddToPlayer(SheetPlayer(players, Some(id)).value, points, t, recordId, now))
  {
    var p := SheetPlayer(players, Some(id)).value;
    var k :| 0 <= k < |players| && players[k] == p && FirstWithId(players, k, id);
    var after := App.AddScoreTo(players, id, points, t, recordId, now);
    assert after[k] == App.AddToPlayer(p, points, t, recordId, now);
    SheetPlayerIsUnique(after, k);
  }

  /** The screen's state: the ids behind the two sheets and whether each
      confirmation dialog is open. */
  class ScoreboardScreen {
    var selectedPlayerId: Option<int>
    var inputPlayerId: Option<int>
    var showResetConfirm: bool
    var showEndgameConfirm: bool

    constructor ()
      ensures selectedPlayerId == None && inputPlayerId == None
      ensures !showResetConfirm && !showEndgameConfirm
    {
      selectedPlayerId := None;
      inputPlayerId := None;
      showResetConfirm := false;
      showEndgameConfirm := false;
    }

    /** The player whose detail sheet is open. */
    function SelectedPlayer(players: seq<Player>): (r: Option<Player>)
      reads this
      ensures r.Some? <==>
        (selectedPlayerId.Some? && selectedPlayerId.value != 0 &&
         exists i :: 0 <= i < |players| && players[i].id == selectedPlayerId.value)
      ensures r.Some? ==> r.value in players && Some(r.value.id) == selectedPlayerId
    {
      SheetPlayer(players, selectedPlayerId)
    }

    /** The player whose score sheet is open. */
    function InputPlayer(players: seq<Player>): (r: Option<Player>)
      reads this
      ensures r.Some? <==>
        (inputPlayerId.Some? && inputPlayerId.value != 0 &&
         exists i :: 0 <= i < |players| && players[i].id == inputPlayerId.value)
      ensures r.Some? ==> r.value in players && Some(r.value.id) == inputPlayerId
    {
      SheetPlayer(players, inputPlayerId)
    }

    /** A player's row was tapped: open the detail sheet. */
    method SelectPlayer(id: int)
      modifies this
      ensures selectedPlayerId == Some(id)
      ensures inputPlayerId == old(inputPlayerId)
      ensures showResetConfirm == old(showResetConfirm) && showEndgameConfirm == old(showEndgameConfirm)
    {
      selectedPlayerId := Some(id);
    }

    /** A player's score button was tapped: open the score sheet. */
    method InputScore(id: int)
      modifies this
      ensures inputPlayerId == Some(id)
      ensures selectedPlayerId == old(selectedPlayerId)
      ensures showResetConfirm == old(showResetConfirm) && showEndgameConfirm == old(showEndgameConfirm)
    {
      inputPlayerId := Some(id);
    }

    /** Closing the detail sheet clears its id. */
    method ClosePlayerDetail()
      modifies this
      ensures selectedPlayerId == None
      ensures inputPlayerId == old(inputPlayerId)
      ensures showResetConfirm == old(showResetConfirm) && showEndgameConfirm == old(showEndgameConfirm)
    {
      selectedPlayerId := None;
    }

    /** Closing the score sheet clears its id. */
    method CloseScoreInput()
      modifies this
      ensures inputPlayerId == None
      ensures selectedPlayerId == old(selectedPlayerId)
      ensures showResetConfirm == old(showResetConfirm) && showEndgameConfirm == old(showEndgameConfirm)
    {
      inputPlayerId := None;
    }

    /** The reset button opens the reset dialog. */
    method ResetClick()
      modifies this
      ensures showResetConfirm
      ensures showEndgameConfirm == old(showEndgameConfirm)
      ensures selectedPlayerId == old(selectedPlayerId) && inputPlayerId == old(inputPlayerId)
    {
      showResetConfirm := true;
    }

    /** Confirming the reset closes the dialog and asks for the reset (the
      result). */
    method ConfirmReset() returns (reset: bool)
      modifies this
      ensures reset && !showResetConfirm
      ensures showEndgameConfirm == old(showEndgameConfirm)
      ensures selectedPlayerId == old(selectedPlayerId) && inputPlayerId == old(inputPlayerId)
    {
      showResetConfirm := false;
      reset := true;
    }

    /** Cancelling only closes the reset dialog. */
    method CancelReset()
      modifies this
      ensures !showResetConfirm
      ensures showEndgameConfirm == old(showEndgameConfirm)
      ensures selectedPlayerId == old(selectedPlayerId) && inputPlayerId == old(inputPlayerId)
    {
      showResetConfirm := false;
    }

    /** The end-of-game button opens its dialog unless the bonus has already
      been applied, in which case nothing changes. */
    method EndgameClick(endgameApplied: bool)
      modifies this
      ensures showEndgameConfirm == (old(showEndgameConfirm) || !endgameApplied)
      ensures showResetConfirm == old(showResetConfirm)
      ensures selectedPlayerId == old(selectedPlayerId) && inputPlayerId == old(inputPlayerId)
    {
      if endgameApplied {
        return;
      }
      showEndgameConfirm := true;
    }

    /** Confirming the end of game closes the dialog and asks once for the
      end-of-game bonus (the result counts the requests). */
    method ConfirmEndgame() returns (applyRequests: nat)
      modifies this
      ensures applyRequests == 1 && !showEndgameConfirm
      ensures showResetConfirm == old(showResetConfirm)
      ensures selectedPlayerId == old(selectedPlayerId) && inputPlayerId == old(inputPlayerId)
    {
      showEndgameConfirm := false;
      applyRequests := 1;
    }

    /** Cancelling only closes the end-of-game dialog. */
    method CancelEndgame()
      modifies this
      ensures !showEndgameConfirm
      ensures showResetConfirm == old(showResetConfirm)
      ensures selectedPlayerId == old(selectedPlayerId) && inputPlayerId == old(inputPlayerId)
    {
      showEndgameConfirm := false;
    }
  }
}
