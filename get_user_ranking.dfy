/** `getUserRanking`: a group of one year together with one user's ranking of it, and the
    group's songs that ranking does not place yet. */
module RankingQuery {
  import opened Results
  import opened Schema
  import Seqs

  /** What `getUserRanking` returns: the group's id, name, type and year, the user's ranking
      (rows in rank order) if there is one, and the group's unranked songs. */
  datatype RankingData = RankingData(
    id: Id, name: string, kind: GroupType, year: int,
    myRanking: Option<UserRanking>, unrankedSongs: seq<Song>)

  /** The ranking of `userId` for the group `groupId`, if the user has one. */
  function FindUserRanking(rankings: seq<UserRanking>, userId: Id, groupId: Id): (r: Option<UserRanking>)
    ensures r.Some? ==> r.value.userId == userId && r.value.groupId == groupId
    ensures r.Some? ==> exists k :: 0 <= k < |rankings| && rankings[k].userId == userId
                          && rankings[k].groupId == groupId && r.value == OrderedByRank(rankings[k])
    ensures r.None? <==> forall x :: x in rankings ==> !(x.userId == userId && x.groupId == groupId)
  {
    var r := FindRanking(rankings, (x: UserRanking) => x.userId == userId && x.groupId == groupId);
    assert r.None? <==> forall k :: 0 <= k < |rankings| ==> !(rankings[k].userId == userId && rankings[k].groupId == groupId);
    r
  }

  /** The ranking has a row whose song is `songId`: `rankedSongs.find((b) => a.id == b.song.id)`
      finds something. */
  predicate Ranks(ranking: UserRanking, songId: Id)
  {
    FindRow(ranking.rankedSongs, (b: RankedSong) => songId == b.song.id).Some?
  }

  /** The group's songs that the user's ranking does not place, in the group's order; all of
      them when the user has no ranking. */
  function Unranked(items: seq<Song>, myRanking: Option<UserRanking>): seq<Song>
  {
    Seqs.Filter(items, (a: Song) => !(myRanking.Some? && Ranks(myRanking.value, a.id)))
  }

  /** `getUserRanking`: GROUP_404 when no group has this year and id; otherwise the group's
      own id, name, type and year, the user's ranking of exactly this group, and the group's
      songs that no row of that ranking places. */
  function GetUserRanking(groups: seq<EurovisionGroup>, rankings: seq<UserRanking>,
                          userId: Id, year: int, groupId: Id): (r: Result<RankingData>)
    ensures r.Failure? <==> forall g :: g in groups ==> !(g.yearId == year && g.id == groupId)
    ensures r.Failure? ==> r.error == Group404
    ensures r.Success? ==>
      exists g :: g in groups && g.yearId == year && g.id == groupId
        && r.value.id == g.id && r.value.name == g.name && r.value.kind == g.kind && r.value.year == g.yearId
        && (forall s :: s in r.value.unrankedSongs ==> s in g.items)
    ensures r.Success? ==> r.value.year == year && r.value.id == groupId
    ensures r.Success? && r.value.myRanking.Some? ==>
      r.value.myRanking.value.userId == userId && r.value.myRanking.value.groupId == groupId
    ensures r.Success? ==>
      (r.value.myRanking.None? <==> forall x :: x in rankings ==> !(x.userId == userId && x.groupId == groupId))
    ensures r.Success? ==>
      && r.value.myRanking == FindUserRanking(rankings, userId, groupId)
      && r.value.unrankedSongs == Unranked(FindGroup(groups, year, groupId).value.items, r.value.myRanking)
  {
    var group := FindGroup(groups, year, groupId);
    if group.None? then Failure(Group404)
    else
      var g := group.value;
      var myRanking := FindUserRanking(rankings, userId, g.id);
      Success(RankingData(g.id, g.name, g.kind, g.yearId, myRanking, Unranked(g.items, myRanking)))
  }

  /** A song of the group is unranked exactly when the user has no ranking or no row of it
      places that song. */
  lemma UnrankedIff(items: seq<Song>, myRanking: Option<UserRanking>, s: Song)
    ensures s in Unranked(items, myRanking) <==>
      s in items && (myRanking.None? || forall b :: b in myRanking.value.rankedSongs ==> b.song.id != s.id)
  {
    if myRanking.Some? {
      var rows := myRanking.value.rankedSongs;
      var found := FindRow(rows, (b: RankedSong) => s.id == b.song.id);
      if found.Some? {
        var k :| 0 <= k < |rows| && s.id == rows[k].song.id && found.value == rows[k];
        assert rows[k] in rows;
      } else {
        forall b | b in rows ensures b.song.id != s.id {
          var k :| 0 <= k < |rows| && rows[k] == b;
        }
      }
    }
    var keep := (a: Song) => !(myRanking.Some? && Ranks(myRanking.value, a.id));
    if s in items && keep(s) {
      var i :| 0 <= i < |items| && items[i] == s;
    }
  }

  /** The unranked songs are the group's songs with some left out, in the group's order. */
  lemma UnrankedIsSubsequence(items: seq<Song>, myRanking: Option<UserRanking>)
    ensures Seqs.IsSubsequence(Unranked(items, myRanking), items)
  {
    Seqs.FilterIsSubsequence(items, (a: Song) => !(myRanking.Some? && Ranks(myRanking.value, a.id)));
  }

  /** Without a ranking every song of the group is unranked. */
  lemma {:induction false} NoRankingAllUnranked(items: seq<Song>)
    ensures Unranked(items, None) == items
  {
    if items != [] {
      NoRankingAllUnranked(items[1..]);
      assert items == [items[0]] + items[1..];
    }
  }

  /** No song id is both placed by a row of the ranking and among the unranked songs, and
      every song of the group is one or the other. */
  lemma RankedAndUnrankedSplitItems(items: seq<Song>, ranking: UserRanking)
    ensures forall s, b :: s in Unranked(items, Some(ranking)) && b in ranking.rankedSongs ==> b.song.id != s.id
    ensures forall s :: s in items ==>
      s in Unranked(items, Some(ranking)) || exists b :: b in ranking.rankedSongs && b.song.id == s.id
  {
    forall s | s in Unranked(items, Some(ranking)) || s in items
      ensures s in Unranked(items, Some(ranking)) <==>
        s in items && forall b :: b in ranking.rankedSongs ==> b.song.id != s.id
    {
      UnrankedIff(items, Some(ranking), s);
    }
  }
}
