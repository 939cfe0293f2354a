/** The group procedures: `totalPoints`, which tallies every user's top ten of a group into
    points per country, and `setSongs`, which replaces the songs of a group. */
module GroupRouter {
  import opened Results
  import opened Schema
  import opened Scoring
  import Seqs

  // ---------------------------------------------------------------------------------------
  // The `countries` Map of `totalPoints`: keyed by country id, iterated in insertion order.

  /** One entry of the map: a country and the points it has gathered so far. */
  datatype Entry = Entry(countryId: Id, points: int)

  function KeySet(m: seq<Entry>): set<Id>
  {
    if m == [] then {} else {m[0].countryId} + KeySet(m[1..])
  }

  predicate DistinctKeys(m: seq<Entry>)
  {
    m == [] || (m[0].countryId !in KeySet(m[1..]) && DistinctKeys(m[1..]))
  }

  predicate AllPositive(m: seq<Entry>)
  {
    forall i :: 0 <= i < |m| ==> m[i].points > 0
  }

  /** The points stored under a country, if it has an entry. */
  function Get(m: seq<Entry>, key: Id): Option<int>
  {
    if m == [] then None
    else if m[0].countryId == key then Some(m[0].points)
    else Get(m[1..], key)
  }

  /** A key has a value exactly when the map holds it, and the value is its entry's. */
  lemma {:induction false} GetFinds(m: seq<Entry>, key: Id)
    ensures Get(m, key).Some? <==> key in KeySet(m)
    ensures Get(m, key).Some? ==> exists i :: 0 <= i < |m| && m[i] == Entry(key, Get(m, key).value)
  {
    if m != [] && m[0].countryId != key {
      GetFinds(m[1..], key);
      if Get(m, key).Some? {
        var i :| 0 <= i < |m[1..]| && m[1..][i] == Entry(key, Get(m, key).value);
        assert m[i + 1] == m[1..][i];
      }
    }
  }

  /** `countries.set(key, points)`: an existing key keeps its place, a new one goes last. */
  function Set(m: seq<Entry>, key: Id, points: int): seq<Entry>
  {
    if m == [] then [Entry(key, points)]
    else if m[0].countryId == key then [Entry(key, points)] + m[1..]
    else [m[0]] + Set(m[1..], key, points)
  }

  /** After `set` the map holds the key, with the new points, and no key it did not hold. */
  lemma {:induction false} SetStores(m: seq<Entry>, key: Id, points: int)
    ensures KeySet(Set(m, key, points)) == KeySet(m) + {key}
    ensures Get(Set(m, key, points), key) == Some(points)
  {
    if m != [] {
      assert m[1..] == ([Entry(key, points)] + m[1..])[1..];
      if m[0].countryId != key {
        SetStores(m[1..], key, points);
        assert Set(m, key, points)[1..] == Set(m[1..], key, points);
      }
    }
  }

  /** The points of a key, 0 when it is absent (the `?? { points: 0 }` default). */
  function Lookup(m: seq<Entry>, key: Id): int
  {
    var current := Get(m, key);
    if current.Some? then current.value else 0
  }

  function SumEntries(m: seq<Entry>): int
  {
    if m == [] then 0 else m[0].points + SumEntries(m[1..])
  }

  lemma {:induction false} SetLeavesOthers(m: seq<Entry>, key: Id, points: int, other: Id)
    requires other != key
    ensures Get(Set(m, key, points), other) == Get(m, other)
  {
    if m != [] && m[0].countryId != key {
      SetLeavesOthers(m[1..], key, points, other);
    }
  }

  lemma {:induction false} SetKeepsDistinct(m: seq<Entry>, key: Id, points: int)
    requires DistinctKeys(m)
    ensures DistinctKeys(Set(m, key, points))
    ensures SumEntries(Set(m, key, points)) == SumEntries(m) - Lookup(m, key) + points
  {
    if m != [] {
      if m[0].countryId != key {
        SetKeepsDistinct(m[1..], key, points);
        SetStores(m[1..], key, points);
        assert Set(m, key, points)[1..] == Set(m[1..], key, points);
      } else {
        assert Set(m, key, points)[1..] == m[1..];
      }
    }
  }

  lemma {:induction false} SetKeepsPositive(m: seq<Entry>, key: Id, points: int)
    requires AllPositive(m) && points > 0
    ensures AllPositive(Set(m, key, points))
  {
    if m != [] && m[0].countryId != key {
      SetKeepsPositive(m[1..], key, points);
    }
  }

  lemma {:induction false} DistinctAt(m: seq<Entry>, k: int)
    requires DistinctKeys(m) && 0 <= k < |m|
    ensures Get(m, m[k].countryId) == Some(m[k].points)
    ensures forall j :: 0 <= j < |m| && j != k ==> m[j].countryId != m[k].countryId
  {
    if k > 0 {
      DistinctAt(m[1..], k - 1);
      GetFinds(m[1..], m[k].countryId);
    }
    forall j | 0 < j < |m| ensures m[j].countryId in KeySet(m[1..]) {
      KeyAt(m[1..], j - 1);
    }
  }

  lemma {:induction false} KeyAt(m: seq<Entry>, k: int)
    requires 0 <= k < |m|
    ensures m[k].countryId in KeySet(m)
  {
    if k > 0 {
      KeyAt(m[1..], k - 1);
    }
  }

  // ---------------------------------------------------------------------------------------
  // What `totalPoints` counts.

  /** `group.rankings`: the rankings stored for the group, in store order. */
  function GroupRankings(rankings: seq<UserRanking>, groupId: Id): (rs: seq<UserRanking>)
    ensures forall i :: 0 <= i < |rs| ==> rs[i] in rankings && rs[i].groupId == groupId
    ensures forall i :: 0 <= i < |rankings| && rankings[i].groupId == groupId ==> rankings[i] in rs
  {
    Seqs.Filter(rankings, (r: UserRanking) => r.groupId == groupId)
  }

  /** `rankedSongs: { orderBy: { rank: "asc" }, take: 10 }`: the ten best-placed rows of one
      ranking (all of them when there are fewer). */
  function Counted(ranking: UserRanking): seq<RankedSong>
  {
    Seqs.Take(Seqs.SortBy(ranking.rankedSongs, RankOf), 10)
  }

  /** The counted rows are the ranking's ten best-placed rows (all of them when there are
      fewer), in rank order: no row left out has a better rank than a counted one. */
  lemma CountedIsTopTen(ranking: UserRanking)
    ensures var rows := Counted(ranking);
      && |rows| == (if |ranking.rankedSongs| < 10 then |ranking.rankedSongs| else 10)
      && multiset(rows) <= multiset(ranking.rankedSongs)
      && (forall i, j :: 0 <= i < j < |rows| ==> rows[i].rank <= rows[j].rank)
      && (forall x, y :: x in multiset(ranking.rankedSongs) - multiset(rows) && y in rows ==> y.rank <= x.rank)
  {
    var ordered := Seqs.SortBy(ranking.rankedSongs, RankOf);
    Seqs.SortByIsSorted(ranking.rankedSongs, RankOf);
    Seqs.TakeOfSorted(ordered, 10, RankOf);
  }

  /** The counted rows of all the given rankings, one ranking after another. */
  function Votes(rankings: seq<UserRanking>): seq<RankedSong>
  {
    if rankings == [] then []
    else Votes(rankings[..|rankings| - 1]) + Counted(rankings[|rankings| - 1])
  }

  /** One step of the inner loop: a row worth nothing is skipped, otherwise its points are
      added to its song's country. */
  function AddVote(m: seq<Entry>, row: RankedSong): seq<Entry>
  {
    var points := RankToPoints(row.rank);
    if points == 0 then m
    else Set(m, row.song.countryId, Lookup(m, row.song.countryId) + points)
  }

  /** The `countries` Map after the loops have seen `votes`. */
  function Tally(votes: seq<RankedSong>): seq<Entry>
  {
    if votes == [] then [] else AddVote(Tally(votes[..|votes| - 1]), votes[|votes| - 1])
  }

  /** The points a country is owed: `rankToPoints` summed over the counted rows of its songs. */
  function PointsFor(votes: seq<RankedSong>, countryId: Id): int
  {
    if votes == [] then 0
    else
      var last := votes[|votes| - 1];
      PointsFor(votes[..|votes| - 1], countryId)
        + (if last.song.countryId == countryId then RankToPoints(last.rank) else 0)
  }

  /** All points handed out: `rankToPoints` summed over every counted row. */
  function TotalOf(votes: seq<RankedSong>): int
  {
    if votes == [] then 0 else TotalOf(votes[..|votes| - 1]) + RankToPoints(votes[|votes| - 1].rank)
  }

  lemma TallyStep(votes: seq<RankedSong>, row: RankedSong)
    ensures Tally(votes + [row]) == AddVote(Tally(votes), row)
  {
    assert (votes + [row])[..|votes|] == votes;
  }

  lemma VotesStep(rankings: seq<UserRanking>, i: int)
    requires 0 <= i < |rankings|
    ensures Votes(rankings[..i + 1]) == Votes(rankings[..i]) + Counted(rankings[i])
  {
    assert rankings[..i + 1][..i] == rankings[..i];
  }

  lemma PrefixStep(done: seq<RankedSong>, rows: seq<RankedSong>, j: int)
    requires 0 <= j < |rows|
    ensures done + rows[..j + 1] == (done + rows[..j]) + [rows[j]]
  {
    assert rows[..j + 1] == rows[..j] + [rows[j]];
  }

  /** One pass of the inner loop of `totalPoints`: a row worth nothing leaves the map as it
      is, any other row sets its country's entry to the points it had (0 when absent) plus the
      row's points; either way the map becomes the map with the row's vote added. */
  lemma VoteStep(m: seq<Entry>, row: RankedSong, total: int, m': seq<Entry>)
    requires RankToPoints(row.rank) == 0 ==> m' == m
    requires RankToPoints(row.rank) != 0 ==>
      total == Lookup(m, row.song.countryId) + RankToPoints(row.rank)
      && m' == Set(m, row.song.countryId, total)
    ensures m' == AddVote(m, row)
  {
    var points := RankToPoints(row.rank);
    if points != 0 {
      var c := row.song.countryId;
      assert AddVote(m, row) == Set(m, c, Lookup(m, c) + points);
      assert Set(m, c, Lookup(m, c) + points) == Set(m, c, total);
    }
  }

  /** The inner loop's invariant carries over one row. */
  lemma CountStep(done: seq<RankedSong>, rows: seq<RankedSong>, j: int, m': seq<Entry>)
    requires 0 <= j < |rows| && m' == AddVote(Tally(done + rows[..j]), rows[j])
    ensures m' == Tally(done + rows[..j + 1])
  {
    PrefixStep(done, rows, j);
    TallyStep(done + rows[..j], rows[j]);
  }

  /** The map never holds a country twice nor a country without points, and it holds every
      point handed out. */
  lemma {:induction false} TallyShape(votes: seq<RankedSong>)
    ensures DistinctKeys(Tally(votes)) && AllPositive(Tally(votes))
    ensures SumEntries(Tally(votes)) == TotalOf(votes)
  {
    if votes != [] {
      var before := votes[..|votes| - 1];
      var last := votes[|votes| - 1];
      TallyShape(before);
      var m := Tally(before);
      if RankToPoints(last.rank) != 0 {
        var c := last.song.countryId;
        GetFinds(m, c);
        SetKeepsDistinct(m, c, Lookup(m, c) + RankToPoints(last.rank));
        SetKeepsPositive(m, c, Lookup(m, c) + RankToPoints(last.rank));
      }
    }
  }

  /** One vote adds the row's points to its song's country and leaves every other country's
      points alone. */
  lemma AddVoteLookup(m: seq<Entry>, row: RankedSong, countryId: Id)
    ensures Lookup(AddVote(m, row), countryId) ==
      Lookup(m, countryId) + (if row.song.countryId == countryId then RankToPoints(row.rank) else 0)
  {
    var points := RankToPoints(row.rank);
    var c := row.song.countryId;
    if points != 0 {
      var m' := Set(m, c, Lookup(m, c) + points);
      assert AddVote(m, row) == m';
      if c != countryId {
        SetLeavesOthers(m, c, Lookup(m, c) + points, countryId);
      } else {
        SetStores(m, c, Lookup(m, c) + points);
      }
    }
  }

  /** In a map without zero entries a country has points exactly when it has an entry. */
  lemma PositiveLookup(m: seq<Entry>, countryId: Id)
    requires AllPositive(m)
    ensures countryId in KeySet(m) <==> Lookup(m, countryId) > 0
  {
    GetFinds(m, countryId);
    if countryId in KeySet(m) {
      var i :| 0 <= i < |m| && m[i] == Entry(countryId, Get(m, countryId).value);
    }
  }

  /** A country's entry in the map holds exactly the points it is owed, and it has an entry
      exactly when it is owed some. */
  lemma {:induction false} TallyCountry(votes: seq<RankedSong>, countryId: Id)
    ensures Lookup(Tally(votes), countryId) == PointsFor(votes, countryId)
    ensures countryId in KeySet(Tally(votes)) <==> PointsFor(votes, countryId) > 0
  {
    if votes != [] {
      var before := votes[..|votes| - 1];
      TallyCountry(before, countryId);
      AddVoteLookup(Tally(before), votes[|votes| - 1], countryId);
    }
    TallyShape(votes);
    PositiveLookup(Tally(votes), countryId);
  }

  // ---------------------------------------------------------------------------------------
  // The result rows.

  /** One row of the result: a country, its points and one song of the group from it. */
  datatype PointsRow = PointsRow(countryId: Id, points: int, song: Option<Song>)

  /** The song shown beside a country: the group's first song from that country, if any. */
  function FirstSongOf(items: seq<Song>, countryId: Id): (r: Option<Song>)
    ensures r.Some? ==> r.value in items && r.value.countryId == countryId
    ensures r.Some? ==> exists i :: 0 <= i < |items| && items[i] == r.value
                          && forall j :: 0 <= j < i ==> items[j].countryId != countryId
    ensures r.None? <==> forall i :: 0 <= i < |items| ==> items[i].countryId != countryId
  {
    if items == [] then None
    else if items[0].countryId == countryId then Some(items[0])
    else
      var r := FirstSongOf(items[1..], countryId);
      assert r.Some? ==> exists i :: 0 <= i < |items| && items[i] == r.value
                          && forall j :: 0 <= j < i ==> items[j].countryId != countryId by {
        if r.Some? {
          var i :| 0 <= i < |items[1..]| && items[1..][i] == r.value
                   && forall j :: 0 <= j < i ==> items[1..][j].countryId != countryId;
          assert items[i + 1] == r.value;
        }
      }
      r
  }

  /** `Array.from(countries).map(...)`: each entry with the group's first song from it. */
  function ToRows(m: seq<Entry>, items: seq<Song>): (rows: seq<PointsRow>)
    ensures |rows| == |m|
    ensures forall k :: 0 <= k < |m| ==> rows[k] == PointsRow(m[k].countryId, m[k].points, FirstSongOf(items, m[k].countryId))
  {
    if m == [] then []
    else [PointsRow(m[0].countryId, m[0].points, FirstSongOf(items, m[0].countryId))] + ToRows(m[1..], items)
  }

  function SumRows(rows: seq<PointsRow>): int
  {
    if rows == [] then 0 else rows[0].points + SumRows(rows[1..])
  }

  lemma {:induction false} ToRowsSum(m: seq<Entry>, items: seq<Song>)
    ensures SumRows(ToRows(m, items)) == SumEntries(m)
  {
    if m != [] {
      ToRowsSum(m[1..], items);
    }
  }

  /** The comparator `(a, b) => b.points - a.points` as a sort key. */
  function DescendingPoints(row: PointsRow): int { -row.points }

  predicate DistinctCountries(rows: seq<PointsRow>)
  {
    forall i, j :: 0 <= i < j < |rows| ==> rows[i].countryId != rows[j].countryId
  }

  /** A row whose country the other rows lack can go in front of them, and only such a row. */
  lemma ConsRows(y: PointsRow, rows: seq<PointsRow>)
    ensures DistinctCountries([y] + rows) <==>
      DistinctCountries(rows) && forall i :: 0 <= i < |rows| ==> rows[i].countryId != y.countryId
    ensures SumRows([y] + rows) == y.points + SumRows(rows)
  {
    var r := [y] + rows;
    assert r[1..] == rows;
    if DistinctCountries(rows) && forall i :: 0 <= i < |rows| ==> rows[i].countryId != y.countryId {
      forall i, j | 0 <= i < j < |r| ensures r[i].countryId != r[j].countryId {
        assert r[j] == rows[j - 1];
        if i > 0 {
          assert r[i] == rows[i - 1];
        }
      }
    }
    if DistinctCountries(r) {
      forall i, j | 0 <= i < j < |rows| ensures rows[i].countryId != rows[j].countryId {
        assert r[i + 1] == rows[i] && r[j + 1] == rows[j];
      }
      forall i | 0 <= i < |rows| ensures rows[i].countryId != y.countryId {
        assert r[0] == y && r[i + 1] == rows[i];
        assert r[0].countryId != r[i + 1].countryId;
      }
    }
  }

  lemma {:induction false} InsertKeepsRows(x: PointsRow, rows: seq<PointsRow>)
    requires DistinctCountries(rows)
    requires forall i :: 0 <= i < |rows| ==> rows[i].countryId != x.countryId
    ensures DistinctCountries(Seqs.InsertBy(x, rows, DescendingPoints))
    ensures SumRows(Seqs.InsertBy(x, rows, DescendingPoints)) == x.points + SumRows(rows)
  {
    if rows == [] || DescendingPoints(x) <= DescendingPoints(rows[0]) {
      ConsRows(x, rows);
    } else {
      var rest := rows[1..];
      assert rows == [rows[0]] + rest;
      ConsRows(rows[0], rest);
      InsertKeepsRows(x, rest);
      var tail := Seqs.InsertBy(x, rest, DescendingPoints);
      assert Seqs.InsertBy(x, rows, DescendingPoints) == [rows[0]] + tail;
      forall j | 0 <= j < |tail| ensures tail[j].countryId != rows[0].countryId {
        assert tail[j] in multiset(rest) + multiset{x};
        if tail[j] != x {
          var m :| 0 <= m < |rest| && rest[m] == tail[j];
        }
      }
      ConsRows(rows[0], tail);
    }
  }

  /** Sorting keeps the countries distinct and the points total. */
  lemma {:induction false} SortKeepsRows(rows: seq<PointsRow>)
    requires DistinctCountries(rows)
    ensures DistinctCountries(Seqs.SortBy(rows, DescendingPoints))
    ensures SumRows(Seqs.SortBy(rows, DescendingPoints)) == SumRows(rows)
  {
    if rows != [] {
      assert rows == [rows[0]] + rows[1..];
      ConsRows(rows[0], rows[1..]);
      SortKeepsRows(rows[1..]);
      var sorted := Seqs.SortBy(rows[1..], DescendingPoints);
      forall i | 0 <= i < |sorted| ensures sorted[i].countryId != rows[0].countryId {
        assert sorted[i] in multiset(rows[1..]);
        var m :| 0 <= m < |rows[1..]| && rows[1..][m] == sorted[i];
      }
      InsertKeepsRows(rows[0], sorted);
    }
  }

  /** A row of the result is right: its country is owed points, the row holds exactly them,
      and its song is the group's first song from that country. */
  ghost predicate RowOwed(row: PointsRow, votes: seq<RankedSong>, items: seq<Song>)
  {
    && row.points > 0
    && row.points == PointsFor(votes, row.countryId)
    && row.song == FirstSongOf(items, row.countryId)
  }

  /** What the result of `totalPoints` means for the counted rows `votes` of a group whose
      songs are `items`: one row per country that received points, each with exactly the
      points it is owed and the group's first song from it, most points first, and together
      holding every point handed out. */
  ghost predicate IsPointsTable(rows: seq<PointsRow>, votes: seq<RankedSong>, items: seq<Song>)
  {
    && DistinctCountries(rows)
    && (forall i, j :: 0 <= i < j < |rows| ==> rows[i].points >= rows[j].points)
    && (forall i :: 0 <= i < |rows| ==> RowOwed(rows[i], votes, items))
    && Covers(rows, votes)
    && SumRows(rows) == TotalOf(votes)
  }

  /** Every country owed points has a row. */
  ghost predicate Covers(rows: seq<PointsRow>, votes: seq<RankedSong>)
  {
    forall c :: PointsFor(votes, c) > 0 ==> exists i :: 0 <= i < |rows| && rows[i].countryId == c
  }

  /** Before sorting, the mapped entries are right row by row and name each country once. */
  lemma MappedRowsOwed(votes: seq<RankedSong>, items: seq<Song>)
    ensures var mapped := ToRows(Tally(votes), items);
      && DistinctCountries(mapped)
      && forall k :: 0 <= k < |mapped| ==> RowOwed(mapped[k], votes, items)
  {
    var countries := Tally(votes);
    var mapped := ToRows(countries, items);
    TallyShape(votes);
    forall k | 0 <= k < |mapped| ensures RowOwed(mapped[k], votes, items) {
      DistinctAt(countries, k);
      TallyCountry(votes, countries[k].countryId);
    }
    forall i, j | 0 <= i < j < |mapped| ensures mapped[i].countryId != mapped[j].countryId {
      DistinctAt(countries, j);
    }
  }

  /** Before sorting, every country owed points has a row. */
  lemma MappedRowsCover(votes: seq<RankedSong>, items: seq<Song>)
    ensures Covers(ToRows(Tally(votes), items), votes)
  {
    var countries := Tally(votes);
    var mapped := ToRows(countries, items);
    forall c | PointsFor(votes, c) > 0
      ensures exists k :: 0 <= k < |mapped| && mapped[k].countryId == c
    {
      TallyCountry(votes, c);
      GetFinds(countries, c);
      var k :| 0 <= k < |countries| && countries[k] == Entry(c, Get(countries, c).value);
      assert mapped[k].countryId == c;
    }
  }

  /** Sorting moves rows without changing them, so right rows stay right. */
  lemma SortedRowsOwed(mapped: seq<PointsRow>, votes: seq<RankedSong>, items: seq<Song>)
    requires forall k :: 0 <= k < |mapped| ==> RowOwed(mapped[k], votes, items)
    ensures var sorted := Seqs.SortBy(mapped, DescendingPoints);
      forall i :: 0 <= i < |sorted| ==> RowOwed(sorted[i], votes, items)
  {
    var sorted := Seqs.SortBy(mapped, DescendingPoints);
    forall i | 0 <= i < |sorted| ensures RowOwed(sorted[i], votes, items) {
      assert sorted[i] in multiset(mapped);
      var k :| 0 <= k < |mapped| && mapped[k] == sorted[i];
    }
  }

  /** Sorting loses no row, so every country owed points keeps its row. */
  lemma SortedRowsCover(mapped: seq<PointsRow>, votes: seq<RankedSong>)
    requires Covers(mapped, votes)
    ensures Covers(Seqs.SortBy(mapped, DescendingPoints), votes)
  {
    var sorted := Seqs.SortBy(mapped, DescendingPoints);
    forall c | PointsFor(votes, c) > 0 ensures exists i :: 0 <= i < |sorted| && sorted[i].countryId == c {
      var k :| 0 <= k < |mapped| && mapped[k].countryId == c;
      assert mapped[k] in multiset(sorted);
    }
  }

  /** Mapping the tallied map to rows and sorting them gives the points table. */
  lemma TallyGivesPointsTable(votes: seq<RankedSong>, items: seq<Song>)
    ensures IsPointsTable(Seqs.SortBy(ToRows(Tally(votes), items), DescendingPoints), votes, items)
  {
    var mapped := ToRows(Tally(votes), items);
    MappedRowsOwed(votes, items);
    MappedRowsCover(votes, items);
    TallyShape(votes);
    ToRowsSum(Tally(votes), items);
    SortKeepsRows(mapped);
    Seqs.SortByIsSorted(mapped, DescendingPoints);
    SortedRowsOwed(mapped, votes, items);
    SortedRowsCover(mapped, votes);
  }

  /** The nested loops of `totalPoints`: every counted row of every ranking, in order, adds
      its points to its song's country unless it is worth nothing. */
  method TallyRankings(mine: seq<UserRanking>) returns (countries: seq<Entry>)
    ensures countries == Tally(Votes(mine))
    ensures DistinctKeys(countries) && AllPositive(countries)
  {
    countries := [];
    for i := 0 to |mine|
      invariant countries == Tally(Votes(mine[..i]))
    {
      var ranked := Counted(mine[i]);
      ghost var done := Votes(mine[..i]);
      assert done + ranked[..0] == done;
      for j := 0 to |ranked|
        invariant countries == Tally(done + ranked[..j])
      {
        ghost var before := countries;
        var points := RankToPoints(ranked[j].rank);
        if points == 0 {
          VoteStep(before, ranked[j], 0, countries);
          CountStep(done, ranked, j, countries);
          continue;
        }
        var countryId := ranked[j].song.countryId;
        var currentPoints := Lookup(countries, countryId);
        var total := currentPoints + points;
        countries := Set(countries, countryId, total);
        VoteStep(before, ranked[j], total, countries);
        CountStep(done, ranked, j, countries);
      }
      VotesStep(mine, i);
      assert ranked[..|ranked|] == ranked;
    }
    assert mine[..|mine|] == mine;
    TallyShape(Votes(mine));
  }

  /** `totalPoints`: NOT_FOUND when no group has this year and id, otherwise the points table
      of the counted rows of the group's rankings. */
  method TotalPoints(groups: seq<EurovisionGroup>, rankings: seq<UserRanking>, year: int, id: Id)
    returns (r: Result<seq<PointsRow>>)
    ensures FindGroup(groups, year, id).None? <==> r == Failure(NotFound)
    ensures FindGroup(groups, year, id).Some? <==> r.Success?
    ensures r.Success? ==>
      IsPointsTable(r.value, Votes(GroupRankings(rankings, id)), FindGroup(groups, year, id).value.items)
  {
    var found := FindGroup(groups, year, id);
    if found.None? {
      return Failure(NotFound);
    }
    var group := found.value;
    var mine := GroupRankings(rankings, group.id);

    var countries := TallyRankings(mine);

    var mapped := ToRows(countries, group.items);
    r := Success(Seqs.SortBy(mapped, DescendingPoints));
    TallyGivesPointsTable(Votes(mine), group.items);
  }

  // ---------------------------------------------------------------------------------------
  // `setSongs`.

  /** The group and song tables `setSongs` writes and reads. */
  class GroupTable {
    var groups: seq<EurovisionGroup>
    var songs: seq<Song>

    constructor (groups: seq<EurovisionGroup>, songs: seq<Song>)
      ensures this.groups == groups && this.songs == songs
    {
      this.groups := groups;
      this.songs := songs;
    }

    /** `update({ where: { id: groupId }, data: { items: { set: songIds } } })`: the group's
        songs become exactly the stored songs with the given ids; every other group, and the
        group's id, year, name and type, stay as they were.  A missing group, or an id naming
        no stored song, makes the store refuse the update and nothing changes. */
    method SetSongs(songIds: seq<Id>, groupId: Id) returns (r: Result<EurovisionGroup>)
      modifies this`groups
      ensures r.Failure? ==> groups == old(groups) && r.error == RecordNotFound
      ensures r.Failure? <==>
        || (forall g :: g in old(groups) ==> g.id != groupId)
        || (exists s :: s in songIds && forall song :: song in songs ==> song.id != s)
      ensures r.Success? ==>
        exists k :: 0 <= k < |old(groups)| && old(groups)[k].id == groupId
          && (forall j :: 0 <= j < k ==> old(groups)[j].id != groupId)
          && groups == old(groups)[k := r.value]
          && r.value == old(groups)[k].(items := r.value.items)
          && (forall s :: s in r.value.items <==> s in songs && s.id in songIds)
    {
      var k := IndexOfGroup(groups, groupId);
      if k.None? {
        return Failure(RecordNotFound);
      }
      var missing := MissingSong(songs, songIds);
      if missing.Some? {
        return Failure(RecordNotFound);
      }
      var items := Seqs.Filter(songs, (s: Song) => s.id in songIds);
      var updated := groups[k.value].(items := items);
      groups := groups[k.value := updated];
      r := Success(updated);
    }
  }

  /** Where the store finds the group with this id: the first row with it. */
  function IndexOfGroup(groups: seq<EurovisionGroup>, id: Id): (k: Option<nat>)
    ensures k.Some? ==> k.value < |groups| && groups[k.value].id == id
                        && forall j :: 0 <= j < k.value ==> groups[j].id != id
    ensures k.None? <==> forall g :: g in groups ==> g.id != id
  {
    if groups == [] then None
    else if groups[0].id == id then Some(0)
    else
      var k := IndexOfGroup(groups[1..], id);
      if k.None? then None else Some(k.value + 1)
  }

  /** An id in `ids` that names no stored song, if there is one. */
  function MissingSong(songs: seq<Song>, ids: seq<Id>): (r: Option<Id>)
    ensures r.Some? ==> r.value in ids && forall s :: s in songs ==> s.id != r.value
    ensures r.None? ==> forall i :: i in ids ==> exists s :: s in songs && s.id == i
  {
    if ids == [] then None
    else if forall s :: s in songs ==> s.id != ids[0] then Some(ids[0])
    else
      var r := MissingSong(songs, ids[1..]);
      assert forall i :: i in ids ==> i == ids[0] || i in ids[1..];
      r
  }
}
