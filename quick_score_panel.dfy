/**
 * The earlier score entry panel (src/components/PlayerDetail/ScoreInputPanel.tsx):
 * fixed quick buttons pass their value on directly, and a text buffer is
 * confirmed, by Enter or by the button, under the same non-zero rule as the
 * newer panel.
 */
module QuickScorePanel {
  import opened Wrappers
  import JsNumbers
  import ScoreInputPanel

  /** The quick buttons, in display order. */
  const QuickValues: seq<int> := [1, 2, 3, 5, 10, -1, -2, -5]

  /** The panel's state: the text buffer. */
  class QuickEntry {
    var customScore: string

    constructor ()
      ensures customScore == ""
    {
      customScore := "";
    }

    /** Typing replaces the buffer. */
    method Change(text: string)
      modifies this
      ensures customScore == text
    {
      customScore := text;
    }

    /** The quick button at position k passes its own value on, whatever
      the buffer holds, and leaves the buffer alone. */
    method QuickScore(k: nat) returns (points: int)
      requires k < |QuickValues|
      ensures points == QuickValues[k] && points != 0
    {
      points := QuickValues[k];
    }

    /** Confirm the buffer: a non-zero number is passed on and the buffer
      cleared; anything else is ignored and the buffer kept. */
    method CustomScore() returns (points: Option<int>)
      modifies this
      ensures points == ScoreInputPanel.ConfirmedPoints(old(customScore))
      ensures customScore == if points.Some? then "" else old(customScore)
    {
      var parsed := JsNumbers.ParseInt(customScore);
      if parsed.Some? && parsed.value != 0 {
        points := Some(parsed.value);
        customScore := "";
      } else {
        points := None;
      }
    }

    /** A key in the box: Enter confirms as the button does. */
    method KeyDown(key: string) returns (points: Option<int>)
      modifies this
      ensures key == "Enter" ==> points == ScoreInputPanel.ConfirmedPoints(old(customScore))
      ensures key == "Enter" ==> customScore == if points.Some? then "" else old(customScore)
      ensures key != "Enter" ==> points.None? && customScore == old(customScore)
    {
      points := None;
      if key == "Enter" {
        points := CustomScore();
      }
    }
  }
}
