/** The form of the admin countries page that adds one country. */
module AdminCountriesPage {
  import opened Strings
  import opened Results

  const CantBeEmpty := "Can't be empty"

  datatype CountryForm = CountryForm(abbreviation: string, fullname: string)

  const InitialValues := CountryForm("", "")

  /** The abbreviation field's check. */
  function AbbreviationError(v: string): (e: Option<string>)
    ensures e.None? <==> !AllWhitespace(v)
    ensures e.Some? ==> e.value == CantBeEmpty
  {
    TrimEmptyIffAllWhitespace(v);
    if Blank(v) then Some(CantBeEmpty) else None
  }

  /** The full name field's check. */
  function FullnameError(v: string): (e: Option<string>)
    ensures e.None? <==> !AllWhitespace(v)
    ensures e.Some? ==> e.value == CantBeEmpty
  {
    TrimEmptyIffAllWhitespace(v);
    if Blank(v) then Some(CantBeEmpty) else None
  }

  /** Submitting the form: the form calls the handler only when both checks pass, and the
      handler sends the values unchanged. */
  function OnSubmit(form: CountryForm): (req: Option<CountryForm>)
    ensures req.Some? <==> !AllWhitespace(form.abbreviation) && !AllWhitespace(form.fullname)
    ensures req.Some? ==> req.value == form
  {
    if AbbreviationError(form.abbreviation).Some? || FullnameError(form.fullname).Some? then None
    else Some(form)
  }

  /** The form as it opens fails both checks and sends nothing. */
  lemma InitialValuesRefused()
    ensures AbbreviationError(InitialValues.abbreviation) == Some(CantBeEmpty)
    ensures FullnameError(InitialValues.fullname) == Some(CantBeEmpty)
    ensures OnSubmit(InitialValues).None?
  {
  }

  /** The page sends full names of one or two characters, which the create procedure's input
      schema (at least three characters) then refuses. */
  lemma ShortNameSent()
    ensures OnSubmit(CountryForm("nl", "NL")) == Some(CountryForm("nl", "NL"))
    ensures |CountryForm("nl", "NL").fullname| < 3
  {
    assert !IsWhitespace('n') && !IsWhitespace('N');
    assert CountryForm("nl", "NL").abbreviation[0] == 'n';
    assert CountryForm("nl", "NL").fullname[0] == 'N';
  }
}
