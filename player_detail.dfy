/**
 * The earlier player detail sheet (src/components/PlayerDetail.tsx): an
 * overview with a button that opens the score entry view, where a score
 * category is chosen and points confirmed; only score categories exist
 * here.
 */
module PlayerDetail {
  import opened Types
  import opened Wrappers
  import ScoreInputModal

  /** The command a confirm sends: an add-score command for the chosen
      category, or nothing when none is chosen. */
  function ScoreCommand(playerId: int, points: int, scoreType: Option<ScoreType>): (cmd: Option<Command>)
    ensures cmd.Some? <==> scoreType.Some?
    ensures cmd.Some? ==> cmd.value == AddScore(playerId, points, scoreType.value)
  {
    match scoreType
    case None => None
    case Some(t) => Some(AddScore(playerId, points, t))
  }

  /** This sheet sends what the later sheet sends when no bonus category is
      chosen there. */
  lemma AgreesWithScoreSheet(playerId: int, points: int, scoreType: Option<ScoreType>)
    ensures ScoreInputModal.Dispatch(playerId, points, scoreType, None) ==
      match ScoreCommand(playerId, points, scoreType)
      case None => []
      case Some(c) => [c]
  {
    ScoreInputModal.ExclusiveSendsAtMostOne(playerId, points, scoreType, None);
  }

  class DetailSheet {
    const playerId: int
    var selectedScoreType: Option<ScoreType>
    var showInput: bool

    /** The sheet opens on the overview with nothing chosen. */
    constructor (playerId: int)
      ensures this.playerId == playerId && selectedScoreType == None && !showInput
    {
      this.playerId := playerId;
      selectedScoreType := None;
      showInput := false;
    }

    /** The "enter score" button opens the entry view. */
    method ShowInput()
      modifies this
      ensures showInput && selectedScoreType == old(selectedScoreType)
    {
      showInput := true;
    }

    /** Choosing a category only records it. */
    method SelectScoreType(t: ScoreType)
      modifies this
      ensures selectedScoreType == Some(t) && showInput == old(showInput)
    {
      selectedScoreType := Some(t);
    }

    /** The entry panel's confirm button is disabled while no category is
      chosen. */
    predicate ConfirmDisabled()
      reads this
      ensures ConfirmDisabled() <==> forall points :: ScoreCommand(playerId, points, selectedScoreType).None?
    {
      assert ScoreCommand(playerId, 0, selectedScoreType).None? ==> selectedScoreType == None;
      selectedScoreType == None
    }

    /** Points confirmed: with no category chosen nothing happens; otherwise
      one add-score command is sent, and the sheet returns to the overview
      with the choice cleared. */
    method ConfirmScore(points: int) returns (cmd: Option<Command>)
      modifies this
      ensures cmd == ScoreCommand(playerId, points, old(selectedScoreType))
      ensures cmd.None? <==> old(ConfirmDisabled())
      ensures cmd.None? ==> selectedScoreType == old(selectedScoreType) && showInput == old(showInput)
      ensures cmd.Some? ==> selectedScoreType == None && !showInput
    {
      if selectedScoreType == None {
        return None;
      }
      cmd := Some(AddScore(playerId, points, selectedScoreType.value));
      showInput := false;
      selectedScoreType := None;
    }

    /** "Back" leaves the entry view and clears the choice, sending nothing. */
    method Back()
      modifies this
      ensures !showInput && selectedScoreType == None
    {
      showInput := false;
      selectedScoreType := None;
    }
  }
}
