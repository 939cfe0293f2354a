/** The year procedure `create`: it adds a contest year unless that year is stored already. */
module YearRouter {
  import opened Results

  const YearExists := "That year already exists."

  /** The table of contest years. */
  class YearTable {
    var years: seq<int>

    constructor (years: seq<int>)
      ensures this.years == years
    {
      this.years := years;
    }

    /** `create`: a year before 1950 is refused by the input schema; a year already stored
        gives CONFLICT and changes nothing; any other year is added, and only it. */
    method Create(year: int) returns (r: Result<int>)
      modifies this`years
      ensures year < 1950 ==> r == Failure(InvalidInput(["year"])) && years == old(years)
      ensures year >= 1950 && year in old(years) ==> r == Failure(Conflict(YearExists)) && years == old(years)
      ensures year >= 1950 && year !in old(years) ==> r == Success(year) && years == old(years) + [year]
      ensures WellFormedYears(old(years)) ==> WellFormedYears(years)
    {
      if year < 1950 {
        return Failure(InvalidInput(["year"]));
      }
      if year in years {
        return Failure(Conflict(YearExists));
      }
      years := years + [year];
      return Success(year);
    }

    /** Creating the same year twice: the second call always fails, and the table holds the
        year afterwards exactly when it is 1950 or later, so `create` is not idempotent. */
    method CreateTwice(year: int) returns (first: Result<int>, second: Result<int>)
      modifies this`years
      ensures second.Failure?
      ensures year >= 1950 ==> second == Failure(Conflict(YearExists)) && year in years
      ensures first.Success? <==> year >= 1950 && year !in old(years)
    {
      first := Create(year);
      second := Create(year);
    }
  }

  /** Every stored year is 1950 or later and is stored once, as a table filled only by
      `create` has it. */
  predicate WellFormedYears(years: seq<int>)
  {
    && (forall i :: 0 <= i < |years| ==> years[i] >= 1950)
    && (forall i, j :: 0 <= i < j < |years| ==> years[i] != years[j])
  }
}
