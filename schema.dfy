/** The stored records the ranking procedures read and write, as values, and the `findFirst`
    lookups over them.  A table is a sequence of rows in the order the store returns them. */
module Schema {
  import opened Results
  import Seqs

  type Id = string

  /** A song entry, joined with its country's id. */
  datatype Song = Song(id: Id, countryId: Id, title: string, artist: string)

  datatype GroupType = GrandFinal | Semi1 | Semi2 | NationalFinal | Group | AllSongs

  /** A named set of songs of one year (a final, a semi-final, ...). */
  datatype EurovisionGroup = EurovisionGroup(id: Id, yearId: int, name: string, kind: GroupType, items: seq<Song>)

  /** One row of a user's ranking, with the song it ranks joined in. */
  datatype RankedSong = RankedSong(id: Id, song: Song, rank: int)

  /** One user's ranking of one group. */
  datatype UserRanking = UserRanking(id: Id, userId: Id, groupId: Id, rankedSongs: seq<RankedSong>)

  datatype Country = Country(id: Id, fullname: string)

  /** `findFirst({ where: { yearId: year, id } })` on the group table. */
  function FindGroup(groups: seq<EurovisionGroup>, year: int, id: Id): (r: Option<EurovisionGroup>)
    ensures r.Some? ==> r.value in groups && r.value.yearId == year && r.value.id == id
    ensures r.None? <==> forall g :: g in groups ==> !(g.yearId == year && g.id == id)
  {
    if groups == [] then None
    else if groups[0].yearId == year && groups[0].id == id then Some(groups[0])
    else FindGroup(groups[1..], year, id)
  }

  function RankOf(row: RankedSong): int { row.rank }

  /** A ranking as `include: { rankedSongs: { orderBy: { rank: "asc" } } }` returns it.  Rows
      with equal ranks keep their stored order. */
  function OrderedByRank(r: UserRanking): (o: UserRanking)
    ensures o.id == r.id && o.userId == r.userId && o.groupId == r.groupId
    ensures multiset(o.rankedSongs) == multiset(r.rankedSongs)
    ensures forall i, j :: 0 <= i < j < |o.rankedSongs| ==> o.rankedSongs[i].rank <= o.rankedSongs[j].rank
  {
    var rows := Seqs.SortBy(r.rankedSongs, RankOf);
    Seqs.SortByIsSorted(r.rankedSongs, RankOf);
    r.(rankedSongs := rows)
  }

  /** `userRanking.findFirst({ where, include: { rankedSongs: { orderBy: { rank: "asc" } } } })`:
      the first stored ranking `where` accepts, its rows in rank order. */
  function FindRanking(rankings: seq<UserRanking>, where: UserRanking -> bool): (r: Option<UserRanking>)
    ensures r.None? <==> forall k :: 0 <= k < |rankings| ==> !where(rankings[k])
    ensures r.Some? ==> exists k :: 0 <= k < |rankings| && where(rankings[k]) && r.value == OrderedByRank(rankings[k])
                          && forall j :: 0 <= j < k ==> !where(rankings[j])
  {
    var k := Seqs.FirstIndex(rankings, where);
    if k == |rankings| then None else Some(OrderedByRank(rankings[k]))
  }

  /** `rows.find(p)`: the first row `p` accepts. */
  function FindRow(rows: seq<RankedSong>, p: RankedSong -> bool): (r: Option<RankedSong>)
    ensures r.None? <==> forall k :: 0 <= k < |rows| ==> !p(rows[k])
    ensures r.Some? ==> exists k :: 0 <= k < |rows| && p(rows[k]) && r.value == rows[k]
                          && forall j :: 0 <= j < k ==> !p(rows[j])
  {
    var k := Seqs.FirstIndex(rows, p);
    if k == |rows| then None else Some(rows[k])
  }
}
