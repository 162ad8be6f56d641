/**
 * The player header's rename editor (src/components/PlayerDetail/PlayerHeader.tsx):
 * clicking the name opens an edit box; Enter or leaving the box saves, which
 * passes the trimmed text on only when it is not blank and differs from the
 * current name, and otherwise restores the box to the current name; Escape
 * restores the box and closes it without saving.
 */
module PlayerHeader {
  import opened Wrappers
  import opened JsText

  /** The save rule: the trimmed text, when it is neither empty nor the
      current name. It is accepted exactly when the text is not all
      whitespace and its trimmed form is new, and what is passed on is that
      trimmed form, which neither starts nor ends with whitespace. */
  function AcceptedName(editName: string, playerName: string): (r: Option<string>)
    ensures r.Some? <==> !AllWhitespace(editName) && Trim(editName) != playerName
    ensures r.Some? ==> r.value == Trim(editName) && r.value != playerName
    ensures r.Some? ==> |r.value| > 0 && !IsWhitespace(r.value[0]) && !IsWhitespace(r.value[|r.value| - 1])
  {
    var trimmed := Trim(editName);
    TrimmedForm(editName, trimmed);
    if trimmed != "" && trimmed != playerName then Some(trimmed) else None
  }

  /** What the save rule relies on about the trimmed text `r` of `s`. */
  lemma TrimmedForm(s: string, r: string)
    requires r == Trim(s)
    ensures r == [] <==> AllWhitespace(s)
    ensures r != [] ==> !IsWhitespace(r[0]) && !IsWhitespace(r[|r| - 1])
  {
    TrimEmptyIffBlank(s);
  }

  /** Saving an already accepted name again with the same text changes
      nothing: the accepted name is itself its own trimmed form. */
  lemma AcceptedNameIsStable(editName: string, playerName: string)
    requires AcceptedName(editName, playerName).Some?
    ensures AcceptedName(AcceptedName(editName, playerName).value, playerName) == AcceptedName(editName, playerName)
  {
    TrimIdempotent(editName);
  }

  /** Saving the current name, padded with any whitespace, never passes a
      name on. */
  lemma PaddedCurrentNameIsRejected(pre: string, playerName: string, post: string)
    requires AllWhitespace(pre) && AllWhitespace(post)
    requires playerName == Trim(playerName)
    ensures AcceptedName(pre + playerName + post, playerName).None?
  {
    TrimSurrounded(pre, playerName, post);
  }

  /** Trimming text surrounded by whitespace gives the trimmed text back. */
  lemma TrimSurrounded(pre: string, core: string, post: string)
    requires AllWhitespace(pre) && AllWhitespace(post)
    ensures Trim(pre + core + post) == Trim(core)
  {
    var whole := pre + core + post;
    assert whole == pre + (core + post);
    TrimStartSkips(pre, core + post);
    assert TrimStart(whole) == TrimStart(core + post);
    TrimStartOfSuffixed(core, post);
  }

  lemma {:induction false} TrimStartSkips(pre: string, rest: string)
    requires AllWhitespace(pre)
    ensures TrimStart(pre + rest) == TrimStart(rest)
  {
    if pre != [] {
      assert IsWhitespace(pre[0]) && (pre + rest)[0] == pre[0];
      assert (pre + rest)[1..] == pre[1..] + rest;
      TrimStartSkips(pre[1..], rest);
    } else {
      assert pre + rest == rest;
    }
  }

  lemma {:induction false} TrimEndSkips(s: string, post: string)
    requires AllWhitespace(post)
    ensures TrimEnd(s + post) == TrimEnd(s)
    decreases |post|
  {
    if post != [] {
      var init := post[..|post| - 1];
      assert IsWhitespace(post[|post| - 1]) && (s + post)[|s + post| - 1] == post[|post| - 1];
      assert (s + post)[..|s + post| - 1] == s + init;
      TrimEndSkips(s, init);
    } else {
      assert s + post == s;
    }
  }

  /** Trimming the front of `core + post`, where `post` is whitespace, and
      then the end gives the same as trimming `core` on both sides. */
  lemma {:induction false} TrimStartOfSuffixed(core: string, post: string)
    requires AllWhitespace(post)
    ensures TrimEnd(TrimStart(core + post)) == TrimEnd(TrimStart(core))
  {
    if core == [] {
      assert core + post == post;
      TrimStartOfBlank(post);
    } else if IsWhitespace(core[0]) {
      assert (core + post)[1..] == core[1..] + post;
      TrimStartOfSuffixed(core[1..], post);
    } else {
      assert TrimStart(core + post) == core + post;
      assert TrimStart(core) == core;
      TrimEndSkips(core, post);
    }
  }

  /** The editor's state: the name shown, whether the edit box is open and
      the text in it. */
  class NameEditor {
    var playerName: string
    var isEditing: bool
    var editName: string

    /** The box starts closed, holding the current name. */
    constructor (playerName: string)
      ensures this.playerName == playerName && !isEditing && editName == playerName
    {
      this.playerName := playerName;
      isEditing := false;
      editName := playerName;
    }

    /** A click on the name opens the box. */
    method StartEditing()
      modifies this
      ensures isEditing && editName == old(editName) && playerName == old(playerName)
    {
      isEditing := true;
    }

    /** Typing replaces the text in the box. */
    method Change(text: string)
      modifies this
      ensures editName == text && isEditing == old(isEditing) && playerName == old(playerName)
    {
      editName := text;
    }

    /** The owner renamed the player; the box's text is left as it is. */
    method ReceiveName(name: string)
      modifies this
      ensures playerName == name && isEditing == old(isEditing) && editName == old(editName)
    {
      playerName := name;
    }

    /** Save: the accepted name is passed on (the result); a rejected text
      is replaced by the current name. The box closes either way. */
    method SaveName() returns (renamed: Option<string>)
      modifies this
      ensures renamed == AcceptedName(old(editName), old(playerName))
      ensures renamed.Some? ==> editName == old(editName)
      ensures renamed.None? ==> editName == old(playerName)
      ensures !isEditing && playerName == old(playerName)
    {
      renamed := AcceptedName(editName, playerName);
      if renamed.None? {
        editName := playerName;
      }
      isEditing := false;
    }

    /** Leaving the box saves, by the same rule as Enter. */
    method Blur() returns (renamed: Option<string>)
      modifies this
      ensures renamed == AcceptedName(old(editName), old(playerName))
      ensures renamed.None? ==> editName == old(playerName)
      ensures renamed.Some? ==> editName == old(editName)
      ensures !isEditing && playerName == old(playerName)
    {
      renamed := SaveName();
    }

    /** A key in the box: Enter saves, Escape restores the current name and
      closes the box without passing anything on, other keys do nothing. */
    method KeyDown(key: string) returns (renamed: Option<string>)
      modifies this
      ensures key == "Enter" ==> renamed == AcceptedName(old(editName), old(playerName)) && !isEditing
      ensures key == "Enter" ==> editName == (if renamed.Some? then old(editName) else old(playerName))
      ensures key == "Escape" ==> renamed.None? && editName == old(playerName) && !isEditing
      ensures key != "Enter" && key != "Escape" ==>
        renamed.None? && editName == old(editName) && isEditing == old(isEditing)
      ensures playerName == old(playerName)
    {
      renamed := None;
      if key == "Enter" {
        renamed := SaveName();
      }
      if key == "Escape" {
        editName := playerName;
        isEditing := false;
      }
    }
  }
}
