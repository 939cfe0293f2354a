/** The country procedures: `create`, which adds one country, and `createFromCSV`, which turns
    the rows of a parsed CSV text into countries and adds them all at once. */
module CountryRouter {
  import opened Results
  import opened Schema
  import opened Strings
  import Seqs

  /** One parsed CSV record: the value of each column, keyed by the header's column names. */
  type Row = map<string, string>

  /** `{ id: v[idCol], fullname: v[fullnameCol] }`: a column the record lacks gives nothing. */
  datatype MappedRow = MappedRow(id: Option<string>, fullname: Option<string>)

  /** The input of `createFromCSV`; an absent option takes its default. */
  datatype CsvInput = CsvInput(csvText: string, delimiter: Option<string>,
                               idColName: Option<string>, fullnameColName: Option<string>)

  function Delimiter(input: CsvInput): string
  {
    if input.delimiter.Some? then input.delimiter.value else ","
  }

  function IdCol(input: CsvInput): string
  {
    if input.idColName.Some? then input.idColName.value else "id"
  }

  function FullnameCol(input: CsvInput): string
  {
    if input.fullnameColName.Some? then input.fullnameColName.value else "fullname"
  }

  /** The option defaults: a comma, the column "id" and the column "fullname". */
  lemma CsvDefaults(text: string)
    ensures Delimiter(CsvInput(text, None, None, None)) == ","
    ensures IdCol(CsvInput(text, None, None, None)) == "id"
    ensures FullnameCol(CsvInput(text, None, None, None)) == "fullname"
  {
  }

  function Column(row: Row, name: string): (v: Option<string>)
    ensures v.Some? <==> name in row
    ensures v.Some? ==> v.value == row[name]
  {
    if name in row then Some(row[name]) else None
  }

  /** `data.map(...)`: each record's two chosen columns. */
  function MapRows(rows: seq<Row>, idCol: string, fullnameCol: string): (mapped: seq<MappedRow>)
    ensures |mapped| == |rows|
    ensures forall i :: 0 <= i < |rows| ==> mapped[i] == MappedRow(Column(rows[i], idCol), Column(rows[i], fullnameCol))
  {
    if rows == [] then []
    else [MappedRow(Column(rows[0], idCol), Column(rows[0], fullnameCol))] + MapRows(rows[1..], idCol, fullnameCol)
  }

  /** `v.id?.trim().length && v.fullname?.trim().length`: both values present and not blank. */
  predicate Complete(m: MappedRow)
  {
    m.id.Some? && |Trim(m.id.value)| > 0 && m.fullname.Some? && |Trim(m.fullname.value)| > 0
  }

  /** `.filter(...)`: the complete rows, in their order. */
  function Kept(mapped: seq<MappedRow>): seq<MappedRow>
  {
    Seqs.Filter(mapped, Complete)
  }

  /** A row survives exactly when it has both values and neither is empty or whitespace only. */
  lemma KeptIff(mapped: seq<MappedRow>, m: MappedRow)
    ensures m in Kept(mapped) <==>
      && m in mapped
      && m.id.Some? && !AllWhitespace(m.id.value)
      && m.fullname.Some? && !AllWhitespace(m.fullname.value)
  {
    if m.id.Some? {
      TrimEmptyIffAllWhitespace(m.id.value);
    }
    if m.fullname.Some? {
      TrimEmptyIffAllWhitespace(m.fullname.value);
    }
    if m in mapped && Complete(m) {
      var i :| 0 <= i < |mapped| && mapped[i] == m;
    }
  }

  /** The surviving rows keep the order of the records, and their values are the records' own,
      not trimmed. */
  lemma KeptKeepsOrder(rows: seq<Row>, idCol: string, fullnameCol: string)
    ensures Seqs.IsSubsequence(Kept(MapRows(rows, idCol, fullnameCol)), MapRows(rows, idCol, fullnameCol))
    ensures forall m :: m in Kept(MapRows(rows, idCol, fullnameCol)) ==>
      exists i :: 0 <= i < |rows| && idCol in rows[i] && fullnameCol in rows[i]
        && m.id == Some(rows[i][idCol]) && m.fullname == Some(rows[i][fullnameCol])
  {
    Seqs.FilterIsSubsequence(MapRows(rows, idCol, fullnameCol), Complete);
  }

  /** `schema.parse(mapped)`: every row must carry both values as strings. */
  function Verified(mapped: seq<MappedRow>): (r: Result<seq<Country>>)
    ensures r.Failure? <==> exists i :: 0 <= i < |mapped| && (mapped[i].id.None? || mapped[i].fullname.None?)
    ensures r.Success? ==> |r.value| == |mapped| && forall i :: 0 <= i < |mapped| ==>
      r.value[i] == Country(mapped[i].id.value, mapped[i].fullname.value)
  {
    if mapped == [] then Success([])
    else
      var rest := Verified(mapped[1..]);
      if mapped[0].id.None? || mapped[0].fullname.None? then Failure(InvalidInput(["id", "fullname"]))
      else if rest.Failure? then
        var i :| 0 <= i < |mapped[1..]| && (mapped[1..][i].id.None? || mapped[1..][i].fullname.None?);
        assert mapped[i + 1] == mapped[1..][i];
        rest
      else Success([Country(mapped[0].id.value, mapped[0].fullname.value)] + rest.value)
  }

  /** The filtered rows always pass the schema, and every country it yields has an id and a
      name that are not blank. */
  lemma KeptRowsVerify(mapped: seq<MappedRow>)
    ensures Verified(Kept(mapped)).Success?
    ensures forall c :: c in Verified(Kept(mapped)).value ==> |Trim(c.id)| > 0 && |Trim(c.fullname)| > 0
  {
    var kept := Kept(mapped);
    var r := Verified(kept);
    forall c | c in r.value ensures |Trim(c.id)| > 0 && |Trim(c.fullname)| > 0 {
      var i :| 0 <= i < |r.value| && r.value[i] == c;
      assert Complete(kept[i]);
    }
  }

  /** The store accepts `createMany` of these rows: their ids differ from each other and from
      every stored country's id. */
  predicate Insertable(stored: seq<Country>, added: seq<Country>)
  {
    && (forall i, j :: 0 <= i < j < |added| ==> added[i].id != added[j].id)
    && (forall i, c :: 0 <= i < |added| && c in stored ==> added[i].id != c.id)
  }

  /** The country table. */
  class CountryTable {
    var countries: seq<Country>

    constructor (countries: seq<Country>)
      ensures this.countries == countries
    {
      this.countries := countries;
    }

    /** `create`: a full name shorter than 3 characters is refused by the input schema; the
        abbreviation, which may be any string, becomes the country's id, and an id already
        taken makes the store refuse the row. */
    method Create(abbreviation: string, fullname: string) returns (r: Result<Country>)
      modifies this`countries
      ensures |fullname| < 3 ==> r == Failure(InvalidInput(["fullname"])) && countries == old(countries)
      ensures |fullname| >= 3 && (exists c :: c in old(countries) && c.id == abbreviation) ==>
                r == Failure(UniqueViolation) && countries == old(countries)
      ensures |fullname| >= 3 && (forall c :: c in old(countries) ==> c.id != abbreviation) ==>
                r == Success(Country(abbreviation, fullname)) && countries == old(countries) + [r.value]
    {
      if |fullname| < 3 {
        return Failure(InvalidInput(["fullname"]));
      }
      if exists c :: c in countries && c.id == abbreviation {
        return Failure(UniqueViolation);
      }
      var country := Country(abbreviation, fullname);
      countries := countries + [country];
      return Success(country);
    }

    /** `createFromCSV`: an empty delimiter is refused by the input schema.  Otherwise
        `parse` stands for the CSV parser, applied to the text with the chosen delimiter; the
        complete rows become countries, added by one `createMany` that the store applies
        whole or not at all, and the procedure returns the complete rows. */
    method CreateFromCsv(input: CsvInput, parse: (string, string) -> seq<Row>) returns (r: Result<seq<MappedRow>>)
      modifies this`countries
      ensures Delimiter(input) == [] ==> r == Failure(InvalidInput(["delimiter"])) && countries == old(countries)
      ensures Delimiter(input) != [] ==>
        var mapped := Kept(MapRows(parse(input.csvText, Delimiter(input)), IdCol(input), FullnameCol(input)));
        var added := Verified(mapped).value;
        if Insertable(old(countries), added)
        then r == Success(mapped) && countries == old(countries) + added
        else r == Failure(UniqueViolation) && countries == old(countries)
    {
      if Delimiter(input) == [] {
        return Failure(InvalidInput(["delimiter"]));
      }
      var data := parse(input.csvText, Delimiter(input));
      var mapped := Kept(MapRows(data, IdCol(input), FullnameCol(input)));
      KeptRowsVerify(MapRows(data, IdCol(input), FullnameCol(input)));
      var verified := Verified(mapped);
      if !Insertable(countries, verified.value) {
        return Failure(UniqueViolation);
      }
      countries := countries + verified.value;
      return Success(mapped);
    }
  }
}
