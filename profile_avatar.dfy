/** The avatar of the signed-in user: the profile picture if the session has one, else the
    initials of the user's name, else a blank avatar. */
module ProfileAvatar {
  import opened Strings
  import opened Results

  /** `a.split("")[0]?.toUpperCase()`: the first character upper-cased, nothing for an empty
      piece (`undefined`, which `join` writes as the empty text). */
  function FirstUpper(piece: string): (r: string)
    ensures |r| == if piece == [] then 0 else 1
    ensures piece != [] ==> r[0] == ToUpper(piece[0])
  {
    if piece == [] then [] else [ToUpper(piece[0])]
  }

  /** The upper-cased first characters of the pieces, one after another. */
  function ConcatFirsts(pieces: seq<string>): string
  {
    if pieces == [] then [] else FirstUpper(pieces[0]) + ConcatFirsts(pieces[1..])
  }

  /** The initials: `session?.user.name?.split(" ").map(...).join("")`; no name gives
      `undefined`. */
  function Initials(name: Option<string>): (r: Option<string>)
    ensures r.None? <==> name.None?
  {
    if name.None? then None else Some(ConcatFirsts(Split(name.value)))
  }

  /** An independent description of the initials: the upper-cased characters that are not
      spaces and start the text (when `atStart`) or follow a space. */
  function WordStarts(s: string, atStart: bool): string
  {
    if s == [] then []
    else if s[0] == ' ' then WordStarts(s[1..], true)
    else (if atStart then [ToUpper(s[0])] else []) + WordStarts(s[1..], false)
  }

  /** The pieces' first letters are exactly the word starts of the name; after its first
      piece they are the word starts that follow a space. */
  lemma {:induction false} InitialsAreWordStarts(s: string)
    ensures ConcatFirsts(Split(s)) == WordStarts(s, true)
    ensures ConcatFirsts(Split(s)[1..]) == WordStarts(s, false)
  {
    if s != [] {
      InitialsAreWordStarts(s[1..]);
      var rest := Split(s[1..]);
      if s[0] == ' ' {
        assert Split(s)[1..] == rest;
      } else {
        assert Split(s)[1..] == rest[1..];
      }
    }
  }

  /** The initials are empty, so no lettered avatar is shown, exactly when the name is made
      of spaces only (the empty name included). */
  lemma {:induction false} InitialsEmptyIffSpaces(s: string)
    ensures WordStarts(s, true) == [] <==> forall i :: 0 <= i < |s| ==> s[i] == ' '
  {
    if s != [] {
      InitialsEmptyIffSpaces(s[1..]);
      if s[0] == ' ' {
        assert forall i :: 1 <= i < |s| ==> s[i] == s[1..][i - 1];
      }
    }
  }

  /** The initials of a name are empty exactly when it holds spaces only. */
  lemma InitialsOfSession(session: Option<User>)
    ensures session.Some? && session.value.name.Some? ==>
      (Initials(session.value.name).value == [] <==>
       forall i :: 0 <= i < |session.value.name.value| ==> session.value.name.value[i] == ' ')
  {
    if session.Some? && session.value.name.Some? {
      InitialsAreWordStarts(session.value.name.value);
      InitialsEmptyIffSpaces(session.value.name.value);
    }
  }

  /** A two-word name gives the upper-cased first letters of both words. */
  lemma TwoWordName()
    ensures Initials(Some("jo li")) == Some("JL")
  {
    var name := "jo li";
    InitialsAreWordStarts(name);
    assert name[1..] == "o li" && name[2..] == " li" && name[3..] == "li" && name[4..] == "i";
    assert WordStarts("i", false) == [];
    assert WordStarts("li", true) == "L";
    assert WordStarts(name, true) == "JL";
  }

  /** The signed-in user's name and picture, as the session carries them. */
  datatype User = User(name: Option<string>, image: Option<string>)

  /** What is shown: the picture with its alternative text, the initials, or a blank avatar. */
  datatype Avatar = Picture(src: string, alt: string) | Lettered(initials: string) | Plain

  /** The choice of the component: a picture when the session's image is a non-empty text,
      else the initials when they are a non-empty text, else nothing. */
  function AvatarChoice(session: Option<User>): (a: Avatar)
    ensures a.Picture? <==> session.Some? && session.value.image.Some? && session.value.image.value != []
    ensures a.Picture? ==> (a.src == session.value.image.value
      && a.alt == (if session.value.name.Some? then session.value.name.value else "A user") + "'s profile picture")
    ensures a.Lettered? ==> session.Some? && Initials(session.value.name) == Some(a.initials) && a.initials != []
    ensures a.Plain? <==> (!a.Picture? &&
      (session.None? || session.value.name.None? || forall i :: 0 <= i < |session.value.name.value| ==> session.value.name.value[i] == ' '))
  {
    if session.Some? && session.value.image.Some? && session.value.image.value != [] then
      var u := session.value;
      Picture(u.image.value, (if u.name.Some? then u.name.value else "A user") + "'s profile picture")
    else
      var initials := if session.Some? then Initials(session.value.name) else None;
      InitialsOfSession(session);
      if initials.Some? && initials.value != [] then Lettered(initials.value) else Plain
  }
}
