/** The form of the admin year page that adds a contest year. */
module AdminYearPage {
  import opened Results

  const EmptyYear := "Can't be empty."
  const EarlyYear := "Minimum of 1950"

  /** The year field's check.  The field holds a number or nothing; nothing and 0 are falsy
      and count as empty, any other year before 1950 (negative ones too) is too early. */
  function YearError(v: Option<int>): (e: Option<string>)
    ensures e.None? <==> v.Some? && v.value >= 1950
    ensures e == Some(EmptyYear) <==> v.None? || v.value == 0
    ensures e == Some(EarlyYear) <==> v.Some? && v.value != 0 && v.value < 1950
  {
    if v.Some? && v.value != 0 then (if v.value >= 1950 then None else Some(EarlyYear))
    else Some(EmptyYear)
  }

  /** Submitting the form: the form runs the check first and calls the handler only when it
      passes; the handler then returns early on a falsy year, and its second test,
      `!form.isValid`, negates a function object and so never holds.  The result is the year
      the create request carries, if one is sent. */
  function SubmitYear(v: Option<int>): Option<int>
  {
    if YearError(v).Some? then None
    else if v.None? || v.value == 0 then None
    else Some(v.value)
  }

  /** A request is sent exactly when the check passes, and it carries the field's year, which
      the input schema of the year procedure (1950 or later) accepts. */
  lemma SubmitYearSendsValid(v: Option<int>)
    ensures SubmitYear(v).Some? <==> YearError(v).None?
    ensures SubmitYear(v).Some? ==> SubmitYear(v) == v && SubmitYear(v).value >= 1950
    ensures v.None? || v.value == 0 ==> SubmitYear(v).None?
  {
  }
}
