/** The "update name" button of the profile: its label, and the check the name field makes
    before the new name is sent. */
module UpdateNameButton {
  import opened Results
  import opened Strings

  const EmptyName := "Your name can't be empty!"
  const ShortName := "Your name must be 3 characters or longer!"
  const LongName := "Your name must not exceed 32 characters!"

  /** The label: the update text when the session's user has a name, the create text
      otherwise, each falling back to its default when the caller gives none. */
  function ButtonLabel(sessionName: Option<string>, create: Option<string>, update: Option<string>): (text: string)
    ensures sessionName.Some? && sessionName.value != [] ==> text == (if update.Some? then update.value else "Update name")
    ensures sessionName.None? || sessionName.value == [] ==> text == (if create.Some? then create.value else "Set name")
  {
    if sessionName.Some? && sessionName.value != [] then
      (if update.Some? then update.value else "Update name")
    else if create.Some? then create.value
    else "Set name"
  }

  /** The name field's check, on the trimmed name: empty, shorter than 3, 32 or longer (so 32
      itself is refused), or accepted. */
  function NameError(v: string): (e: Option<string>)
    ensures e == Some(EmptyName) <==> AllWhitespace(v)
    ensures e == Some(ShortName) <==> 1 <= |Trim(v)| < 3
    ensures e == Some(LongName) <==> |Trim(v)| >= 32
    ensures e.None? <==> 3 <= |Trim(v)| < 32
  {
    TrimEmptyIffAllWhitespace(v);
    var name := Trim(v);
    if |name| == 0 then Some(EmptyName)
    else if |name| < 3 then Some(ShortName)
    else if |name| >= 32 then Some(LongName)
    else None
  }

  /** Whitespace around the name never changes the verdict. */
  lemma NameErrorIgnoresPadding(w1: string, v: string, w2: string)
    requires AllWhitespace(w1) && AllWhitespace(w2)
    ensures NameError(w1 + v + w2) == NameError(v)
  {
    TrimIgnoresPadding(w1, v, w2);
  }

  /** The bounds: 3 and 31 visible characters pass, 2 and 32 do not. */
  lemma NameLengthBounds(v: string)
    requires v != [] && !IsWhitespace(v[0]) && !IsWhitespace(v[|v| - 1])
    ensures |v| == 2 ==> NameError(v) == Some(ShortName)
    ensures |v| == 3 || |v| == 31 ==> NameError(v).None?
    ensures |v| == 32 ==> NameError(v) == Some(LongName)
  {
    assert Trim(v) == v by {
      assert TrimStart(v) == v;
      assert TrimEnd(v) == v;
    }
  }
}
