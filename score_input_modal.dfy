/**
 * The score input sheet (src/components/ScoreInputModal.tsx): two tabs, one
 * listing the score categories and one the bonus categories; choosing a
 * category in either clears the choice in the other, and confirming points
 * sends the ledger command for the chosen category and closes the sheet.
 */
module ScoreInputModal {
  import opened Types
  import opened Wrappers

  datatype Tab = ScoreTab | BonusTab

  function Count(present: bool): nat {
    if present then 1 else 0
  }

  /** The commands `handleConfirmScore` sends for `points` to player
      `playerId`: one for each chosen category and no other; every command
      carries the player and the points. */
  function Dispatch(playerId: int, points: int, scoreType: Option<ScoreType>, bonusType: Option<BonusType>): (cmds: seq<Command>)
    ensures |cmds| == Count(scoreType.Some?) + Count(bonusType.Some?)
    ensures scoreType.Some? ==> AddScore(playerId, points, scoreType.value) in cmds
    ensures bonusType.Some? ==> AddBonus(playerId, points, bonusType.value) in cmds
    ensures forall c :: c in cmds ==>
      c.playerId == playerId && c.points == points &&
      (c.AddScore? ==> scoreType == Some(c.scoreType)) &&
      (c.AddBonus? ==> bonusType == Some(c.bonusType))
  {
    if scoreType == None && bonusType == None then []
    else
      (if scoreType.Some? then [AddScore(playerId, points, scoreType.value)] else []) +
      (if bonusType.Some? then [AddBonus(playerId, points, bonusType.value)] else [])
  }

  /** At most one category is chosen. */
  predicate Exclusive(scoreType: Option<ScoreType>, bonusType: Option<BonusType>) {
    scoreType.None? || bonusType.None?
  }

  /** With at most one category chosen, a confirm sends at most one command,
      and exactly one, for that category, when one is chosen. */
  lemma {:induction false} ExclusiveSendsAtMostOne(playerId: int, points: int, scoreType: Option<ScoreType>, bonusType: Option<BonusType>)
    requires Exclusive(scoreType, bonusType)
    ensures var cmds := Dispatch(playerId, points, scoreType, bonusType);
      |cmds| <= 1 &&
      (scoreType.Some? ==> cmds == [AddScore(playerId, points, scoreType.value)]) &&
      (bonusType.Some? ==> cmds == [AddBonus(playerId, points, bonusType.value)]) &&
      (scoreType.None? && bonusType.None? ==> cmds == [])
  {
    var cmds := Dispatch(playerId, points, scoreType, bonusType);
    if scoreType.Some? {
      assert AddScore(playerId, points, scoreType.value) in cmds;
    } else if bonusType.Some? {
      assert AddBonus(playerId, points, bonusType.value) in cmds;
    }
  }

  /** The sheet's state for one player: the tab shown and the chosen
      categories. */
  class ScoreSheet {
    const playerId: int
    var selectorTab: Tab
    var selectedScoreType: Option<ScoreType>
    var selectedBonusType: Option<BonusType>

    ghost predicate Valid()
      reads this
    {
      Exclusive(selectedScoreType, selectedBonusType)
    }

    /** The sheet opens on the score tab with nothing chosen. */
    constructor (playerId: int)
      ensures this.playerId == playerId && selectorTab == ScoreTab
      ensures selectedScoreType == None && selectedBonusType == None
      ensures Valid()
    {
      this.playerId := playerId;
      selectorTab := ScoreTab;
      selectedScoreType := None;
      selectedBonusType := None;
    }

    /** Switching tabs keeps the chosen categories. */
    method SelectTab(tab: Tab)
      requires Valid()
      modifies this
      ensures selectorTab == tab
      ensures selectedScoreType == old(selectedScoreType) && selectedBonusType == old(selectedBonusType)
      ensures Valid()
    {
      selectorTab := tab;
    }

    /** Choosing a score category clears the bonus category. */
    method SelectScoreType(t: ScoreType)
      modifies this
      ensures selectedScoreType == Some(t) && selectedBonusType == None
      ensures selectorTab == old(selectorTab)
      ensures Valid()
    {
      selectedScoreType := Some(t);
      selectedBonusType := None;
    }

    /** Choosing a bonus category clears the score category. */
    method SelectBonusType(b: BonusType)
      modifies this
      ensures selectedBonusType == Some(b) && selectedScoreType == None
      ensures selectorTab == old(selectorTab)
      ensures Valid()
    {
      selectedBonusType := Some(b);
      selectedScoreType := None;
    }

    /** The entry panel's confirm button is disabled exactly when no
      category is chosen. */
    predicate ConfirmDisabled()
      reads this
      ensures ConfirmDisabled() <==>
        forall points :: Dispatch(playerId, points, selectedScoreType, selectedBonusType) == []
    {
      assert Dispatch(playerId, 0, selectedScoreType, selectedBonusType) == [] ==>
        selectedScoreType == None && selectedBonusType == None;
      selectedScoreType == None && selectedBonusType == None
    }

    /** Points confirmed in the entry panel: with no category chosen nothing
      happens; otherwise the commands for the chosen category are sent (one,
      as only one can be chosen) and the sheet asks to be closed. */
    method ConfirmScore(points: int) returns (cmds: seq<Command>, close: bool)
      requires Valid()
      ensures cmds == Dispatch(playerId, points, selectedScoreType, selectedBonusType)
      ensures close <==> !ConfirmDisabled()
      ensures |cmds| <= 1 && (close <==> |cmds| == 1)
    {
      ExclusiveSendsAtMostOne(playerId, points, selectedScoreType, selectedBonusType);
      cmds := [];
      close := false;
      if selectedScoreType == None && selectedBonusType == None {
        return;
      }
      if selectedScoreType != None {
        cmds := cmds + [AddScore(playerId, points, selectedScoreType.value)];
      }
      if selectedBonusType != None {
        cmds := cmds + [AddBonus(playerId, points, selectedBonusType.value)];
      }
      close := true;
    }
  }
}
