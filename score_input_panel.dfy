/**
 * The score entry panel (src/components/PlayerDetail/components/ScoreInputPanel.tsx):
 * a text buffer that the quick buttons adjust (never below zero) and that
 * confirm turns into a non-zero number of points, clearing the buffer.
 * Enter in the box confirms; the confirm button does so unless disabled.
 */
module ScoreInputPanel {
  import opened Wrappers
  import opened JsNumbers

  /** The quick adjustment buttons, in display order. */
  const QuickDeltas: seq<int> := [1, 3, 5, 10, -1, -3, -5, -10]

  /** The buffer read as a number, an unreadable buffer counting as 0. */
  function BufferValue(buffer: string): (v: int)
    ensures ParseInt(buffer).None? ==> v == 0
    ensures ParseInt(buffer).Some? ==> v == ParseInt(buffer).value
    ensures forall n :: buffer == IntToString(n) ==> v == n
  {
    match ParseInt(buffer)
    case Some(v) => v
    case None => 0
  }

  /** The buffer after a quick adjustment by `delta`: "0" when the sum would
      be negative, otherwise the sum in decimal. It is the canonical numeral,
      with no sign and no leading zero, of max(0, value + delta), and reads
      back as that number. */
  function AdjustedText(buffer: string, delta: int): (r: string)
    ensures var next := BufferValue(buffer) + delta;
      ParseInt(r) == Some(if next < 0 then 0 else next)
    ensures var next := BufferValue(buffer) + delta;
      Canonical(r) && DigitsValue(r, 10) == (if next < 0 then 0 else next)
    ensures BufferValue(buffer) + delta < 0 ==> r == "0"
  {
    var next := BufferValue(buffer) + delta;
    if next < 0 then
      assert IntToString(0) == [DigitChar(0)] == "0";
      "0"
    else IntToString(next)
  }

  /** The points a confirm passes on: the parsed buffer when it is a number
      other than 0, nothing otherwise. */
  function ConfirmedPoints(buffer: string): (r: Option<int>)
    ensures r.Some? <==> ParseInt(buffer).Some? && ParseInt(buffer).value != 0
    ensures r.Some? ==> Some(r.value) == ParseInt(buffer)
  {
    match ParseInt(buffer)
    case Some(p) => if p != 0 then Some(p) else None
    case None => None
  }

  /** A buffer reached by quick adjustments never confirms a negative
      number: it confirms its positive value, or nothing when it is 0. */
  lemma AdjustedNeverNegative(buffer: string, delta: int)
    ensures var next := BufferValue(buffer) + delta;
      ConfirmedPoints(AdjustedText(buffer, delta)) == if next > 0 then Some(next) else None
  {
  }

  /** A typed number, negative ones included, reaches confirm unchanged. */
  lemma TypedNumberConfirms(n: int)
    ensures ConfirmedPoints(IntToString(n)) == if n != 0 then Some(n) else None
  {
  }

  /** Adjusting by a delta and then by its opposite returns to the
      starting value when neither step is cut off at 0. */
  lemma AdjustUndo(buffer: string, delta: int)
    requires BufferValue(buffer) >= 0 && BufferValue(buffer) + delta >= 0
    ensures BufferValue(AdjustedText(AdjustedText(buffer, delta), -delta)) == BufferValue(buffer)
  {
  }

  /** The panel's state: the text buffer, and whether its owner disabled the
      confirm button. The owner recomputes the flag on every render, while
      the buffer persists across renders. */
  class ScoreEntry {
    var customScore: string
    var confirmDisabled: bool

    constructor (confirmDisabled: bool)
      ensures customScore == "" && this.confirmDisabled == confirmDisabled
    {
      customScore := "";
      this.confirmDisabled := confirmDisabled;
    }

    /** A new `confirmDisabled` prop from the owner (for instance after a
      category is chosen) replaces the flag and keeps the buffer. */
    method ReceiveDisabled(disabled: bool)
      modifies this
      ensures confirmDisabled == disabled && customScore == old(customScore)
    {
      confirmDisabled := disabled;
    }

    /** Typing replaces the buffer. */
    method Change(text: string)
      modifies this
      ensures customScore == text && confirmDisabled == old(confirmDisabled)
    {
      customScore := text;
    }

    /** A quick button: read the buffer (0 if unreadable), add `delta`, and
      write back the sum, or "0" if it is negative. */
    method AdjustScore(delta: int)
      modifies this
      ensures customScore == AdjustedText(old(customScore), delta)
      ensures confirmDisabled == old(confirmDisabled)
    {
      var base := ParseInt(customScore);
      var current := if base.None? then 0 else base.value;
      var next := current + delta;
      if next < 0 {
        customScore := "0";
        return;
      }
      customScore := IntToString(next);
    }

    /** The quick button at position k. */
    method ClickQuick(k: nat)
      requires k < |QuickDeltas|
      modifies this
      ensures customScore == AdjustedText(old(customScore), QuickDeltas[k])
      ensures confirmDisabled == old(confirmDisabled)
    {
      AdjustScore(QuickDeltas[k]);
    }

    /** Confirm: pass the points on and clear the buffer when it holds a
      non-zero number; otherwise pass nothing and keep the buffer. */
    method Confirm() returns (points: Option<int>)
      modifies this
      ensures points == ConfirmedPoints(old(customScore))
      ensures customScore == if points.Some? then "" else old(customScore)
      ensures confirmDisabled == old(confirmDisabled)
    {
      var parsed := ParseInt(customScore);
      if parsed.Some? && parsed.value != 0 {
        points := Some(parsed.value);
        customScore := "";
      } else {
        points := None;
      }
    }

    /** A key in the box: Enter confirms, whether or not the button is
      disabled; other keys do nothing. */
    method KeyDown(key: string) returns (points: Option<int>)
      modifies this
      ensures key == "Enter" ==> points == ConfirmedPoints(old(customScore))
      ensures key == "Enter" ==> customScore == if points.Some? then "" else old(customScore)
      ensures key != "Enter" ==> points.None? && customScore == old(customScore)
      ensures confirmDisabled == old(confirmDisabled)
    {
      points := None;
      if key == "Enter" {
        points := Confirm();
      }
    }

    /** The confirm button: a disabled button does nothing. */
    method ClickConfirm() returns (points: Option<int>)
      modifies this
      ensures confirmDisabled ==> points.None? && customScore == old(customScore)
      ensures !confirmDisabled ==> points == ConfirmedPoints(old(customScore))
      ensures !confirmDisabled ==> customScore == if points.Some? then "" else old(customScore)
      ensures confirmDisabled == old(confirmDisabled)
    {
      if confirmDisabled {
        points := None;
      } else {
        points := Confirm();
      }
    }
  }
}
