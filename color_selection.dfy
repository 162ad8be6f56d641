/**
 * The colour picker (src/components/ColorSelection.tsx): clicking a colour
 * deselects it if it is selected and otherwise selects it while fewer than
 * `playerCount` colours are chosen; the game can start once exactly
 * `playerCount` colours are chosen, and they are handed on in the order
 * they were picked.
 */
module ColorSelection {
  import opened Types
  import opened Wrappers

  /** The colours offered, in the order of the colour table. */
  const AvailableColors: seq<PlayerColor> := Palette

  predicate NoDuplicates(s: seq<PlayerColor>) {
    forall i, j :: 0 <= i < j < |s| ==> s[i] != s[j]
  }

  /** `selected.filter(c => c !== color)`. */
  function Without(s: seq<PlayerColor>, color: PlayerColor): (r: seq<PlayerColor>)
    ensures color !in r
    ensures forall c :: c in r <==> c in s && c != color
  {
    if s == [] then []
    else (if s[0] == color then [] else [s[0]]) + Without(s[1..], color)
  }

  /** The grid offers every colour, each once. */
  lemma EveryColorOfferedOnce(c: PlayerColor)
    ensures c in AvailableColors && NoDuplicates(AvailableColors)
  {
  }

  /** `handleColorSelect`: the clicked colour ends up chosen exactly when it
      was not chosen and there was room for it; every other colour keeps
      its state, and an added colour goes last. */
  function Toggle(selected: seq<PlayerColor>, color: PlayerColor, playerCount: nat): (r: seq<PlayerColor>)
    ensures color in r <==> color !in selected && |selected| < playerCount
    ensures forall c :: c != color ==> (c in r <==> c in selected)
    ensures color in r ==> r == selected + [color]
  {
    if color in selected then Without(selected, color)
    else if |selected| < playerCount then selected + [color]
    else selected
  }

  /** The picker's invariant: no colour twice, never more than `playerCount`. */
  predicate ValidSelection(selected: seq<PlayerColor>, playerCount: nat) {
    NoDuplicates(selected) && |selected| <= playerCount
  }

  /** Removing a colour that occurs once at position k leaves the others in
      their order. */
  lemma {:induction false} WithoutRemovesOne(s: seq<PlayerColor>, k: nat)
    requires NoDuplicates(s) && k < |s|
    ensures Without(s, s[k]) == s[..k] + s[k + 1..]
  {
    if k == 0 {
      WithoutAbsent(s[1..], s[0]);
    } else {
      WithoutRemovesOne(s[1..], k - 1);
      assert s[1..][k - 1] == s[k];
      assert s[..k] == [s[0]] + s[1..][..k - 1];
      assert s[k + 1..] == s[1..][k..];
    }
  }

  /** Removing a colour that does not occur changes nothing. */
  lemma {:induction false} WithoutAbsent(s: seq<PlayerColor>, color: PlayerColor)
    requires color !in s
    ensures Without(s, color) == s
  {
    if s != [] {
      WithoutAbsent(s[1..], color);
      assert s == [s[0]] + s[1..];
    }
  }

  /** Removing a colour keeps the rest free of duplicates. */
  lemma {:induction false} WithoutKeepsDistinct(s: seq<PlayerColor>, color: PlayerColor)
    requires NoDuplicates(s)
    ensures NoDuplicates(Without(s, color)) && |Without(s, color)| <= |s|
  {
    if s != [] {
      WithoutKeepsDistinct(s[1..], color);
      var rest := Without(s[1..], color);
      assert s[0] !in s[1..];
      assert s[0] !in rest;
    }
  }

  /** Every click keeps the invariant. */
  lemma ToggleKeepsValid(selected: seq<PlayerColor>, color: PlayerColor, playerCount: nat)
    requires ValidSelection(selected, playerCount)
    ensures ValidSelection(Toggle(selected, color, playerCount), playerCount)
  {
    if color in selected {
      WithoutKeepsDistinct(selected, color);
    }
  }

  /** Clicking a selected colour removes exactly that colour and keeps the
      others in their order. */
  lemma ToggleDeselects(selected: seq<PlayerColor>, k: nat, playerCount: nat)
    requires NoDuplicates(selected) && k < |selected|
    ensures Toggle(selected, selected[k], playerCount) == selected[..k] + selected[k + 1..]
  {
    WithoutRemovesOne(selected, k);
  }

  /** Below capacity, clicking an unselected colour twice restores the
      selection; at capacity the click does nothing. */
  lemma ToggleTwiceRestores(selected: seq<PlayerColor>, color: PlayerColor, playerCount: nat)
    requires NoDuplicates(selected) && color !in selected
    ensures |selected| < playerCount ==> Toggle(Toggle(selected, color, playerCount), color, playerCount) == selected
    ensures |selected| >= playerCount ==> Toggle(selected, color, playerCount) == selected
  {
    if |selected| < playerCount {
      var s := selected + [color];
      assert color in s;
      assert forall i, j :: 0 <= i < j < |s| ==> s[i] != s[j];
      WithoutRemovesOne(s, |selected|);
      assert s[..|selected|] == selected;
    }
  }

  /** No more than the five colours can be chosen without repeating one. */
  lemma AtMostFiveColors(s: seq<PlayerColor>)
    requires NoDuplicates(s)
    ensures |s| <= 5
  {
    var elems := set i | 0 <= i < |s| :: s[i];
    DistinctCard(s);
    assert |elems| == |s|;
    assert elems <= {Red, Blue, Green, Yellow, Black} by {
      forall c | c in elems ensures c in {Red, Blue, Green, Yellow, Black} {
        match c
        case Red => case Blue => case Green => case Yellow => case Black =>
      }
    }
    var all: set<PlayerColor> := {Red, Blue, Green, Yellow, Black};
    assert |all| == 5;
    assert |elems| <= |all| by {
      assert all == elems + (all - elems);
      assert |all| == |elems| + |all - elems|;
    }
  }

  lemma {:induction false} DistinctCard(s: seq<PlayerColor>)
    requires NoDuplicates(s)
    ensures |set i | 0 <= i < |s| :: s[i]| == |s|
  {
    if s != [] {
      var init := s[..|s| - 1];
      DistinctCard(init);
      var a := set i | 0 <= i < |init| :: init[i];
      var b := set i | 0 <= i < |s| :: s[i];
      assert b == a + {s[|s| - 1]};
      assert s[|s| - 1] !in a;
    }
  }

  /** With more than five players the start button never becomes enabled:
      a valid selection can never reach the required count. */
  lemma MoreThanFivePlayersNeverComplete(selected: seq<PlayerColor>, playerCount: nat)
    requires ValidSelection(selected, playerCount) && playerCount > 5
    ensures |selected| != playerCount
  {
    AtMostFiveColors(selected);
  }

  class ColorPicker {
    const playerCount: nat
    var selectedColors: seq<PlayerColor>

    ghost predicate Valid()
      reads this
    {
      ValidSelection(selectedColors, playerCount)
    }

    constructor (playerCount: nat)
      ensures this.playerCount == playerCount && selectedColors == []
      ensures Valid()
    {
      this.playerCount := playerCount;
      selectedColors := [];
    }

    /** A click on colour `color`. */
    method SelectColor(color: PlayerColor)
      requires Valid()
      modifies this
      ensures selectedColors == Toggle(old(selectedColors), color, playerCount)
      ensures Valid()
    {
      ToggleKeepsValid(selectedColors, color, playerCount);
      if color in selectedColors {
        selectedColors := Without(selectedColors, color);
      } else if |selectedColors| < playerCount {
        selectedColors := selectedColors + [color];
      }
    }

    /** `isComplete`: the start button is enabled. Once it is, a click on
      a colour not yet chosen is ignored; before, such a click adds it. */
    predicate IsComplete()
      reads this
      ensures Valid() && IsComplete() ==>
        forall c :: c !in selectedColors ==> Toggle(selectedColors, c, playerCount) == selectedColors
      ensures Valid() && !IsComplete() ==>
        forall c :: c !in selectedColors ==> Toggle(selectedColors, c, playerCount) == selectedColors + [c]
    {
      |selectedColors| == playerCount
    }

    /** A click on the start button: the chosen colours in picking order
      when the button is enabled, nothing when it is disabled. */
    method Start() returns (colors: Option<seq<PlayerColor>>)
      ensures colors.Some? <==> |selectedColors| == playerCount
      ensures colors.Some? ==> colors.value == selectedColors
    {
      if IsComplete() {
        colors := Some(selectedColors);
      } else {
        colors := None;
      }
    }
  }
}
