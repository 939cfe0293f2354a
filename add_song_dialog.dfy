/** The dialog that adds a song to a group of a year. */
module AddSongDialog {
  import opened Strings
  import opened Results
  import SongsRouter

  const EmptyField := "This can't be empty."

  /** `baseValidation`: a value that is empty after trimming is refused. */
  function BaseValidation(v: string): (e: Option<string>)
    ensures e.None? <==> !AllWhitespace(v)
    ensures e.Some? ==> e.value == EmptyField
  {
    TrimEmptyIffAllWhitespace(v);
    if Blank(v) then Some(EmptyField) else None
  }

  datatype FormValues = FormValues(country: string, artist: string, title: string, youtube: string)

  const InitialValues := FormValues("", "", "", "")

  /** The same check on all four fields. */
  predicate FormValid(v: FormValues)
  {
    && BaseValidation(v.artist).None? && BaseValidation(v.title).None?
    && BaseValidation(v.country).None? && BaseValidation(v.youtube).None?
  }

  /** What `mutation.mutate` sends: the year and group id of the dialog and the form's values. */
  datatype AddRequest = AddRequest(year: int, itemId: string, country: string, title: string,
                                   artist: string, youtube: string)

  /** Submitting the dialog: the form calls `onSubmit` only when its checks pass, and the
      guard `!form.isValid` negates a function object, so it never stops a request. */
  function OnSubmit(year: int, itemId: string, values: FormValues): (req: Option<AddRequest>)
    ensures req.Some? <==> FormValid(values)
    ensures req.Some? ==> req.value == AddRequest(year, itemId, values.country, values.title, values.artist, values.youtube)
  {
    if !FormValid(values) then None
    else Some(AddRequest(year, itemId, values.country, values.title, values.artist, values.youtube))
  }

  /** The empty form sends nothing. */
  lemma InitialValuesRefused(year: int, itemId: string)
    ensures OnSubmit(year, itemId, InitialValues).None?
  {
    assert BaseValidation(InitialValues.artist).Some?;
  }

  /** A request the dialog sends passes the add-song procedure's rules for the country, the
      title and the artist: none of the three is reported.  The year, the group id and whether
      the link is a URL are not checked by the dialog. */
  lemma SentRequestHasTexts(year: int, itemId: string, values: FormValues, youtubeIsUrl: bool, f: SongsRouter.Field)
    requires OnSubmit(year, itemId, values).Some?
    requires f in {SongsRouter.CountryField, SongsRouter.Title, SongsRouter.Artist}
    ensures var req := OnSubmit(year, itemId, values).value;
      var input := SongsRouter.SongInput(req.year, req.itemId, req.country, req.title, req.artist, req.youtube, youtubeIsUrl);
      f !in SongsRouter.AddToYearItemIssues(input)
  {
    var req := OnSubmit(year, itemId, values).value;
    // the empty text is whitespace only, so the form's checks refuse it
    assert AllWhitespace([]);
    SongsRouter.AddToYearItemReports(
      SongsRouter.SongInput(req.year, req.itemId, req.country, req.title, req.artist, req.youtube, youtubeIsUrl), f);
  }
}
