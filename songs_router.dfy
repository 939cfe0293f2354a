/** The song procedures: `getForRankedYearGroup` (a second copy of `getUserRanking` that
    differs from it in two places), `saveRanking`, which creates or updates a user's ranking of
    a group, and the input rules of `addToYearItem`. */
module SongsRouter {
  import opened Results
  import opened Schema
  import opened RankingQuery
  import Seqs

  // ---------------------------------------------------------------------------------------
  // `getForRankedYearGroup`, as written.

  /** The unranked filter of `getForRankedYearGroup`: `find((b) => a.id == b.id)` compares the
      group song's id with the id of the ranking's row, not with the id of the row's song. */
  function UnrankedByRowId(items: seq<Song>, myRanking: Option<UserRanking>): seq<Song>
  {
    Seqs.Filter(items, (a: Song) =>
      !(myRanking.Some? && FindRow(myRanking.value.rankedSongs, (b: RankedSong) => a.id == b.id).Some?))
  }

  /** `getForRankedYearGroup`: NOT_FOUND when no group has this year and id; otherwise the
      group's id, name, type and year, the first ranking of the user in ANY group, and the
      group's songs whose id is no row id of that ranking. */
  function GetForRankedYearGroup(groups: seq<EurovisionGroup>, rankings: seq<UserRanking>,
                                 userId: Id, year: int, id: Id): (r: Result<RankingData>)
    ensures r.Failure? <==> forall g :: g in groups ==> !(g.yearId == year && g.id == id)
    ensures r.Failure? ==> r.error == NotFound
    ensures r.Success? ==> r.value.year == year && r.value.id == id
    ensures r.Success? && r.value.myRanking.Some? ==> r.value.myRanking.value.userId == userId
    ensures r.Success? ==> (r.value.myRanking.None? <==> forall x :: x in rankings ==> x.userId != userId)
    ensures r.Success? ==>
      && r.value.myRanking == FindRanking(rankings, (x: UserRanking) => x.userId == userId)
      && r.value.unrankedSongs == UnrankedByRowId(FindGroup(groups, year, id).value.items, r.value.myRanking)
  {
    var group := FindGroup(groups, year, id);
    if group.None? then Failure(NotFound)
    else
      var g := group.value;
      var myRanking := FindRanking(rankings, (x: UserRanking) => x.userId == userId);
      assert myRanking.None? <==> forall k :: 0 <= k < |rankings| ==> rankings[k].userId != userId;
      Success(RankingData(g.id, g.name, g.kind, g.yearId, myRanking, UnrankedByRowId(g.items, myRanking)))
  }

  /** As written, a song is left out of the unranked songs exactly when some row of the
      ranking has the song's id as its own row id. */
  lemma UnrankedByRowIdIff(items: seq<Song>, myRanking: Option<UserRanking>, s: Song)
    ensures s in UnrankedByRowId(items, myRanking) <==>
      s in items && (myRanking.None? || forall b :: b in myRanking.value.rankedSongs ==> b.id != s.id)
  {
    if myRanking.Some? {
      var rows := myRanking.value.rankedSongs;
      var found := FindRow(rows, (b: RankedSong) => s.id == b.id);
      if found.Some? {
        var k :| 0 <= k < |rows| && s.id == rows[k].id && found.value == rows[k];
        assert rows[k] in rows;
      } else {
        forall b | b in rows ensures b.id != s.id {
          var k :| 0 <= k < |rows| && rows[k] == b;
        }
      }
    }
    if s in items {
      var i :| 0 <= i < |items| && items[i] == s;
    }
  }

  const SongA := Song("song-a", "se", "Song A", "Artist A")
  const SongB := Song("song-b", "no", "Song B", "Artist B")
  const Semi := EurovisionGroup("semi", 2023, "Semi-final 1", Semi1, [SongB])
  const Final := EurovisionGroup("final", 2023, "Grand Final", GrandFinal, [SongA])
  const SemiRanking := UserRanking("ranking-semi", "user", "semi", [RankedSong("row-b", SongB, 1)])
  const FinalRanking := UserRanking("ranking-final", "user", "final", [RankedSong("row-a", SongA, 1)])

  /** A ranking with at most one row is already in rank order. */
  lemma OneRowOrdered(r: UserRanking)
    requires |r.rankedSongs| <= 1
    ensures OrderedByRank(r) == r
  {
    if r.rankedSongs != [] {
      assert r.rankedSongs[1..] == [];
    }
  }

  /** A song the user has ranked is still listed as unranked, because the ids of ranking rows
      are never song ids; the corrected filter leaves it out. */
  lemma RankedSongListedAsUnranked()
    ensures GetForRankedYearGroup([Final], [FinalRanking], "user", 2023, "final").value.unrankedSongs == [SongA]
    ensures GetUserRanking([Final], [FinalRanking], "user", 2023, "final").value.unrankedSongs == []
  {
    OneRowOrdered(FinalRanking);
    var ranking := Some(FinalRanking);
    assert FindGroup([Final], 2023, "final") == Some(Final);
    var asWritten := FindRanking([FinalRanking], (x: UserRanking) => x.userId == "user");
    assert asWritten.Some? && asWritten.value == OrderedByRank([FinalRanking][0]);
    assert FindUserRanking([FinalRanking], "user", "final") == ranking by {
      assert [FinalRanking][0] in [FinalRanking];
    }
    assert "row-a"[0] != SongA.id[0];
    UnrankedByRowIdIff([SongA], ranking, SongA);
    UnrankedIff([SongA], ranking, SongA);
    var listed := UnrankedByRowId([SongA], ranking);
    assert |listed| == 1 && listed[0] == SongA;
    assert listed == [SongA];
    var left := Unranked([SongA], ranking);
    assert |left| <= 1 && SongA !in left;
  }

  /** A user who ranked a semi-final before the final gets the semi-final's ranking back when
      asking for the final; the corrected lookup returns the final's. */
  lemma OtherGroupsRankingReturned()
    ensures GetForRankedYearGroup([Semi, Final], [SemiRanking, FinalRanking], "user", 2023, "final")
              .value.myRanking == Some(OrderedByRank(SemiRanking))
    ensures GetUserRanking([Semi, Final], [SemiRanking, FinalRanking], "user", 2023, "final")
              .value.myRanking == Some(OrderedByRank(FinalRanking))
  {
    assert "semi"[0] != "final"[0];
    assert FindGroup([Semi, Final], 2023, "final") == Some(Final);
    var rankings := [SemiRanking, FinalRanking];
    var mine := FindUserRanking(rankings, "user", "final");
    assert mine.Some? by {
      assert rankings[1] in rankings;
    }
    var k :| 0 <= k < |rankings| && rankings[k].userId == "user" && rankings[k].groupId == "final"
             && mine.value == OrderedByRank(rankings[k]);
    assert k == 1;
  }

  // ---------------------------------------------------------------------------------------
  // `saveRanking`.

  /** One submitted item: a song id and the rank the user gave it. */
  datatype RankItem = RankItem(id: Id, rank: int)

  /** What `saveRanking` returns: the rows the update batch wrote, one per item in item order,
      or the ranking it created. */
  datatype Saved = Updated(rows: seq<RankedSong>) | Created(ranking: UserRanking)

  /** The input schema's rank rule, `z.number().min(1)` on every item. */
  predicate RanksValid(items: seq<RankItem>)
  {
    forall i :: 0 <= i < |items| ==> items[i].rank >= 1
  }

  /** Where `rankedSongs.find((a) => a.songId == i.id)` finds its row: the first row of the
      song.  The update then addresses the row by its id, which identifies it in the table. */
  function RowOfSong(rows: seq<RankedSong>, songId: Id): (k: Option<nat>)
    ensures k.Some? ==> k.value < |rows| && rows[k.value].song.id == songId
                        && forall j :: 0 <= j < k.value ==> rows[j].song.id != songId
    ensures k.None? <==> forall j :: 0 <= j < |rows| ==> rows[j].song.id != songId
  {
    if rows == [] then None
    else if rows[0].song.id == songId then Some(0)
    else
      var k := RowOfSong(rows[1..], songId);
      if k.None? then None else Some(k.value + 1)
  }

  /** Every item of the batch finds a row of its song. */
  predicate AllMatched(rows: seq<RankedSong>, items: seq<RankItem>)
  {
    forall i :: 0 <= i < |items| ==> RowOfSong(rows, items[i].id).Some?
  }

  /** One update of the batch: the row of the song, if it has one, takes the new rank. */
  function SetRank(rows: seq<RankedSong>, songId: Id, rank: int): seq<RankedSong>
  {
    var k := RowOfSong(rows, songId);
    if k.None? then rows else rows[k.value := rows[k.value].(rank := rank)]
  }

  /** The rows of a ranking after the batch has applied the items in order. */
  function Rerank(rows: seq<RankedSong>, items: seq<RankItem>): (r: seq<RankedSong>)
    ensures |r| == |rows|
    ensures forall k :: 0 <= k < |rows| ==> r[k].id == rows[k].id && r[k].song == rows[k].song
  {
    if items == [] then rows
    else
      var last := items[|items| - 1];
      SetRank(Rerank(rows, items[..|items| - 1]), last.id, last.rank)
  }

  /** The rank the last item for this song asks for. */
  function LastRankFor(items: seq<RankItem>, songId: Id): (r: Option<int>)
    ensures r.Some? ==> exists i :: 0 <= i < |items| && items[i] == RankItem(songId, r.value)
                          && forall j :: i < j < |items| ==> items[j].id != songId
    ensures r.None? <==> forall i :: 0 <= i < |items| ==> items[i].id != songId
  {
    if items == [] then None
    else if items[|items| - 1].id == songId then Some(items[|items| - 1].rank)
    else
      var prefix := items[..|items| - 1];
      var r := LastRankFor(prefix, songId);
      LastRankForExtends(prefix, items, songId, r);
      r
  }

  /** The ensures of `LastRankFor` carry over from all items but the last to all of them
      when the last names another song. */
  lemma LastRankForExtends(prefix: seq<RankItem>, items: seq<RankItem>, songId: Id, r: Option<int>)
    requires items != [] && prefix == items[..|items| - 1] && items[|items| - 1].id != songId
    requires r.Some? ==> exists i :: 0 <= i < |prefix| && prefix[i] == RankItem(songId, r.value)
                           && forall j :: i < j < |prefix| ==> prefix[j].id != songId
    requires r.None? <==> forall i :: 0 <= i < |prefix| ==> prefix[i].id != songId
    ensures r.Some? ==> exists i :: 0 <= i < |items| && items[i] == RankItem(songId, r.value)
                          && forall j :: i < j < |items| ==> items[j].id != songId
    ensures r.None? <==> forall i :: 0 <= i < |items| ==> items[i].id != songId
  {
    var last := |items| - 1;
    if r.Some? {
      var i :| 0 <= i < |prefix| && prefix[i] == RankItem(songId, r.value)
               && forall j :: i < j < |prefix| ==> prefix[j].id != songId;
      assert items[i] == prefix[i];
      forall j | i < j < |items| ensures items[j].id != songId {
        if j < last {
          assert items[j] == prefix[j];
        }
      }
    } else {
      forall i | 0 <= i < |items| ensures items[i].id != songId {
        if i < last {
          assert items[i] == prefix[i];
        }
      }
    }
    if forall i :: 0 <= i < |items| ==> items[i].id != songId {
      forall i | 0 <= i < |prefix| ensures prefix[i].id != songId {
        assert items[i] == prefix[i];
      }
    }
  }

  /** One update of the batch, as the loop of `saveRanking` performs it, takes the rows from
      the first `i` items applied to the first `i + 1`. */
  lemma RerankStep(before: seq<RankedSong>, items: seq<RankItem>, i: int, rows: seq<RankedSong>, k: nat, updated: RankedSong)
    requires 0 <= i < |items| && rows == Rerank(before, items[..i])
    requires RowOfSong(rows, items[i].id) == Some(k) && updated == rows[k].(rank := items[i].rank)
    ensures rows[k := updated] == Rerank(before, items[..i + 1])
  {
    assert items[..i + 1][..i] == items[..i];
  }

  /** Two row lists with the same songs in the same places find the same row for a song. */
  lemma {:induction false} SameSongsSameRow(a: seq<RankedSong>, b: seq<RankedSong>, songId: Id)
    requires |a| == |b| && forall k :: 0 <= k < |a| ==> a[k].song == b[k].song
    ensures RowOfSong(a, songId) == RowOfSong(b, songId)
  {
    if a != [] && a[0].song.id != songId {
      SameSongsSameRow(a[1..], b[1..], songId);
    }
  }

  /** After the batch, the first row of each song the items name holds the rank of the last
      item naming it; every other row keeps its rank.  Later items for the same song win. */
  lemma {:induction false} RerankRank(rows: seq<RankedSong>, items: seq<RankItem>, k: int)
    requires 0 <= k < |rows|
    ensures Rerank(rows, items)[k].rank ==
      var c := rows[k].song.id;
      if RowOfSong(rows, c) == Some(k) && LastRankFor(items, c).Some? then LastRankFor(items, c).value
      else rows[k].rank
  {
    if items != [] {
      var prefix := items[..|items| - 1];
      var last := items[|items| - 1];
      RerankRank(rows, prefix, k);
      SameSongsSameRow(Rerank(rows, prefix), rows, last.id);
    }
  }

  /** Sending the same batch twice stores the same ranks as sending it once. */
  lemma RerankIdempotent(rows: seq<RankedSong>, items: seq<RankItem>)
    ensures Rerank(Rerank(rows, items), items) == Rerank(rows, items)
  {
    var once := Rerank(rows, items);
    var twice := Rerank(once, items);
    forall k | 0 <= k < |rows| ensures twice[k] == once[k] {
      RerankRank(rows, items, k);
      RerankRank(once, items, k);
      SameSongsSameRow(once, rows, rows[k].song.id);
    }
  }

  /** The update batch only ever changes ranks: no row is added, removed or moved, so a
      submitted song the ranking has no row for can never get one this way. */
  lemma UpdateNeverInserts(rows: seq<RankedSong>, items: seq<RankItem>, songId: Id)
    requires forall k :: 0 <= k < |rows| ==> rows[k].song.id != songId
    ensures forall k :: 0 <= k < |Rerank(rows, items)| ==> Rerank(rows, items)[k].song.id != songId
  {
  }

  /** A ranking that places song A, resubmitted with A and a new song B, is not updated:
      B has no row, so the batch is refused as a whole. */
  lemma NewSongRefused()
    ensures !AllMatched([RankedSong("row-a", SongA, 1)], [RankItem(SongA.id, 2), RankItem(SongB.id, 1)])
  {
    var rows := [RankedSong("row-a", SongA, 1)];
    var items := [RankItem(SongA.id, 2), RankItem(SongB.id, 1)];
    assert rows[0].song.id[5] != items[1].id[5];
    assert RowOfSong(rows, items[1].id).None?;
  }

  /** The first song with this id, if there is one. */
  function SongById(songs: seq<Song>, id: Id): (r: Option<Song>)
    ensures r.Some? ==> r.value in songs && r.value.id == id
    ensures r.None? <==> forall s :: s in songs ==> s.id != id
  {
    if songs == [] then None
    else if songs[0].id == id then Some(songs[0])
    else SongById(songs[1..], id)
  }

  /** `createMany({ data: items.map((a) => ({ rank: a.rank, songId: a.id })) })`: one new row
      per item, in item order, with the store's fresh ids; a song id naming no song makes the
      store refuse the rows. */
  function CreatedRows(songs: seq<Song>, items: seq<RankItem>, rowId: nat -> Id): (r: Result<seq<RankedSong>>)
    ensures r.Failure? <==> exists i :: 0 <= i < |items| && SongById(songs, items[i].id).None?
    ensures r.Failure? ==> r.error == ForeignKeyViolation
    ensures r.Success? ==> |r.value| == |items| && forall i :: 0 <= i < |items| ==>
      r.value[i] == RankedSong(rowId(i), SongById(songs, items[i].id).value, items[i].rank)
  {
    if items == [] then Success([])
    else
      var last := |items| - 1;
      var prefix := CreatedRows(songs, items[..last], rowId);
      var song := SongById(songs, items[last].id);
      if prefix.Failure? then
        var i :| 0 <= i < |items[..last]| && SongById(songs, items[..last][i].id).None?;
        assert items[i] == items[..last][i];
        Failure(ForeignKeyViolation)
      else if song.None? then Failure(ForeignKeyViolation)
      else
        assert forall i :: 0 <= i < last ==> items[..last][i] == items[i];
        Success(prefix.value + [RankedSong(rowId(last), song.value, items[last].rank)])
  }

  /** No two items name the same song, as a list sent by the ranking page never does. */
  predicate DistinctSongs(items: seq<RankItem>)
  {
    forall i, j :: 0 <= i < j < |items| ==> items[i].id != items[j].id
  }

  /** Saving a ranking a second time with the same items stores the ranks the first save
      created, when no song is named twice: every created row is its song's first row and
      its item is the last one naming that song. */
  lemma CreateThenResend(songs: seq<Song>, items: seq<RankItem>, rowId: nat -> Id)
    requires CreatedRows(songs, items, rowId).Success? && DistinctSongs(items)
    ensures Rerank(CreatedRows(songs, items, rowId).value, items) == CreatedRows(songs, items, rowId).value
  {
    var rows := CreatedRows(songs, items, rowId).value;
    var again := Rerank(rows, items);
    forall k | 0 <= k < |rows| ensures again[k] == rows[k] {
      var c := items[k].id;
      assert rows[k].song.id == c;
      RerankRank(rows, items, k);
      var row := RowOfSong(rows, c);
      assert row.Some?;
      assert rows[row.value].song.id == items[row.value].id;
      assert row == Some(k);
      var last := LastRankFor(items, c);
      assert last.Some?;
      var i :| 0 <= i < |items| && items[i] == RankItem(c, last.value)
               && forall j :: i < j < |items| ==> items[j].id != c;
      assert i == k;
    }
  }

  /** With a song named twice the two saves differ: the first creates one row per item,
      ranked 1 and 2, and sending the same items again gives both rows rank 2, because
      every update of a song goes to its first row. */
  lemma DuplicateSongResendChangesRanks(rowId: nat -> Id)
    ensures var items := [RankItem(SongA.id, 1), RankItem(SongA.id, 2)];
      var created := CreatedRows([SongA], items, rowId);
      && created.Success?
      && created.value == [RankedSong(rowId(0), SongA, 1), RankedSong(rowId(1), SongA, 2)]
      && Rerank(created.value, items) == [RankedSong(rowId(0), SongA, 2), RankedSong(rowId(1), SongA, 2)]
  {
    var items := [RankItem(SongA.id, 1), RankItem(SongA.id, 2)];
    assert SongById([SongA], SongA.id) == Some(SongA);
    var rows := [RankedSong(rowId(0), SongA, 1), RankedSong(rowId(1), SongA, 2)];
    assert CreatedRows([SongA], items, rowId).value == rows;
    assert items[..1] == [items[0]];
    assert RowOfSong(rows, SongA.id) == Some(0);
    var once := SetRank(rows, SongA.id, 1);
    assert Rerank(rows, items[..1]) == once;
    assert RowOfSong(once, SongA.id) == Some(0);
  }

  /** Where `group.rankings[0]` is stored: the first ranking of this user for this group. */
  function FirstRankingOf(rankings: seq<UserRanking>, userId: Id, groupId: Id): (k: Option<nat>)
    ensures k.Some? ==> k.value < |rankings| && rankings[k.value].userId == userId && rankings[k.value].groupId == groupId
                        && forall j :: 0 <= j < k.value ==> !(rankings[j].userId == userId && rankings[j].groupId == groupId)
    ensures k.None? <==> forall x :: x in rankings ==> !(x.userId == userId && x.groupId == groupId)
  {
    if rankings == [] then None
    else if rankings[0].userId == userId && rankings[0].groupId == groupId then Some(0)
    else
      var k := FirstRankingOf(rankings[1..], userId, groupId);
      if k.None? then None else Some(k.value + 1)
  }

  /** The update batch of `saveRanking` on the rows of the user's ranking: each item in turn
      sets the rank of the first row of its song, and the batch yields the rows it wrote.  An
      item whose song has no row makes the batch fail as a whole (`matched` is false). */
  method UpdateBatch(before: seq<RankedSong>, items: seq<RankItem>)
    returns (matched: bool, rows: seq<RankedSong>, written: seq<RankedSong>)
    ensures matched <==> AllMatched(before, items)
    ensures matched ==> rows == Rerank(before, items)
    ensures matched ==> |written| == |items| && forall i :: 0 <= i < |items| ==>
      written[i].song.id == items[i].id && written[i].rank == items[i].rank
  {
    rows := before;
    written := [];
    for i := 0 to |items|
      invariant rows == Rerank(before, items[..i])
      invariant forall j :: 0 <= j < i ==> RowOfSong(before, items[j].id).Some?
      invariant |written| == i
      invariant forall j :: 0 <= j < i ==> written[j].song.id == items[j].id && written[j].rank == items[j].rank
    {
      SameSongsSameRow(rows, before, items[i].id);
      var row := RowOfSong(rows, items[i].id);
      if row.None? {
        assert !AllMatched(before, items) by {
          assert RowOfSong(before, items[i].id).None?;
        }
        return false, rows, written;
      }
      var updated := rows[row.value].(rank := items[i].rank);
      RerankStep(before, items, i, rows, row.value, updated);
      rows := rows[row.value := updated];
      ghost var writtenBefore := written;
      written := written + [updated];
      forall j | 0 <= j < i + 1
        ensures written[j].song.id == items[j].id && written[j].rank == items[j].rank
        ensures RowOfSong(before, items[j].id).Some?
      {
        if j < i {
          assert written[j] == writtenBefore[j];
        }
      }
    }
    assert items[..|items|] == items;
    matched := true;
  }

  /** The tables `saveRanking` reads and writes. */
  class RankingTable {
    var songs: seq<Song>
    var groups: seq<EurovisionGroup>
    var rankings: seq<UserRanking>

    constructor (songs: seq<Song>, groups: seq<EurovisionGroup>, rankings: seq<UserRanking>)
      ensures this.songs == songs && this.groups == groups && this.rankings == rankings
    {
      this.songs := songs;
      this.groups := groups;
      this.rankings := rankings;
    }

    /** `saveRanking`.  A rank below 1 is refused by the input schema, and a missing group
        (looked up by id alone; the year is not used) with NOT_FOUND.  If the user already has
        a ranking of the group, the items are applied to it as one batch of rank updates, each
        to the row of its song; an item whose song has no row refuses the whole batch.
        Otherwise a new ranking is created with one row per item; `newRankingId` and `rowId`
        stand for the ids the store generates. */
    method SaveRanking(userId: Id, year: int, id: Id, items: seq<RankItem>, newRankingId: Id, rowId: nat -> Id)
      returns (r: Result<Saved>)
      modifies this`rankings
      ensures r.Failure? ==> rankings == old(rankings)
      ensures !RanksValid(items) ==> r == Failure(InvalidInput(["items"]))
      ensures RanksValid(items) && (forall g :: g in groups ==> g.id != id) ==> r == Failure(NotFound)
      ensures r.Success? ==> RanksValid(items) && exists g :: g in groups && g.id == id
      ensures r.Success? ==> (r.value.Updated? <==> FirstRankingOf(old(rankings), userId, id).Some?)
      ensures FirstRankingOf(old(rankings), userId, id).Some? && r.Failure? && r.error == RecordNotFound ==>
                !AllMatched(old(rankings)[FirstRankingOf(old(rankings), userId, id).value].rankedSongs, items)
      ensures r.Success? && r.value.Updated? ==>
                var k := FirstRankingOf(old(rankings), userId, id).value;
                var before := old(rankings)[k].rankedSongs;
                && AllMatched(before, items)
                && rankings == old(rankings)[k := old(rankings)[k].(rankedSongs := Rerank(before, items))]
                && |r.value.rows| == |items|
                && forall i :: 0 <= i < |items| ==> r.value.rows[i].song.id == items[i].id && r.value.rows[i].rank == items[i].rank
      ensures r.Success? && r.value.Created? ==>
                && CreatedRows(songs, items, rowId).Success?
                && r.value.ranking == UserRanking(newRankingId, userId, id, CreatedRows(songs, items, rowId).value)
                && rankings == old(rankings) + [r.value.ranking]
      ensures FirstRankingOf(old(rankings), userId, id).None? && r.Failure? && r.error == ForeignKeyViolation ==>
                CreatedRows(songs, items, rowId).Failure?
      ensures r.Failure? ==> r.error in {InvalidInput(["items"]), NotFound, RecordNotFound, ForeignKeyViolation}
      ensures r == Failure(InvalidInput(["items"])) <==> !RanksValid(items)
      ensures r == Failure(NotFound) <==> RanksValid(items) && forall g :: g in groups ==> g.id != id
      ensures r == Failure(RecordNotFound) <==>
                && RanksValid(items) && (exists g :: g in groups && g.id == id)
                && FirstRankingOf(old(rankings), userId, id).Some?
                && !AllMatched(old(rankings)[FirstRankingOf(old(rankings), userId, id).value].rankedSongs, items)
      ensures r == Failure(ForeignKeyViolation) <==>
                && RanksValid(items) && (exists g :: g in groups && g.id == id)
                && FirstRankingOf(old(rankings), userId, id).None?
                && CreatedRows(songs, items, rowId).Failure?
    {
      if !RanksValid(items) {
        return Failure(InvalidInput(["items"]));
      }
      if forall g :: g in groups ==> g.id != id {
        return Failure(NotFound);
      }
      var existing := FirstRankingOf(rankings, userId, id);
      if existing.Some? {
        // update: the items' rank updates run in order as one transaction
        var k := existing.value;
        var matched, rows, written := UpdateBatch(rankings[k].rankedSongs, items);
        if !matched {
          return Failure(RecordNotFound);
        }
        rankings := rankings[k := rankings[k].(rankedSongs := rows)];
        return Success(Updated(written));
      }
      // create: a new ranking of this group by this user, with one row per item
      var created := CreatedRows(songs, items, rowId);
      if created.Failure? {
        return Failure(created.error);
      }
      var ranking := UserRanking(newRankingId, userId, id, created.value);
      rankings := rankings + [ranking];
      return Success(Created(ranking));
    }
  }

  // ---------------------------------------------------------------------------------------
  // `addToYearItem`.

  /** The input of `addToYearItem`; whether `youtube` parses as a URL is decided outside the
      model and passed in as `youtubeIsUrl`. */
  datatype SongInput = SongInput(year: int, itemId: string, country: string, title: string,
                                 artist: string, youtube: string, youtubeIsUrl: bool)

  /** The fields of `addToYearItem`'s input, in the schema's order. */
  datatype Field = Year | ItemId | CountryField | Title | Artist | Youtube

  /** The message the schema reports for a rejected field: its own texts, and the validator
      library's defaults for the year and the group id, which have none. */
  function Message(f: Field): string
  {
    match f
    case Year => "Number must be greater than or equal to 1950"
    case ItemId => "String must contain at least 1 character(s)"
    case CountryField => "Country can't be empty!"
    case Title => "Title can't be empty!"
    case Artist => "Artist can't be empty!"
    case Youtube => "YouTube URL Must be an actual url!"
  }

  /** The schema's rule for each field: the year at least 1950, the texts at least one
      character long (spaces count), the link a URL. */
  predicate Rejects(input: SongInput, f: Field)
  {
    match f
    case Year => input.year < 1950
    case ItemId => input.itemId == []
    case CountryField => input.country == []
    case Title => input.title == []
    case Artist => input.artist == []
    case Youtube => !input.youtubeIsUrl
  }

  /** One field's rule: the field if the rule rejects the input, else nothing. */
  function Check(input: SongInput, f: Field): (fields: seq<Field>)
    ensures forall g :: g in fields <==> g == f && Rejects(input, f)
    ensures |fields| <= 1
  {
    if Rejects(input, f) then [f] else []
  }

  /** The fields the input schema of `addToYearItem` rejects, in field order; each is reported
      with its `Message`. */
  function AddToYearItemIssues(input: SongInput): seq<Field>
  {
    Check(input, Year) + Check(input, ItemId) + Check(input, CountryField)
      + Check(input, Title) + Check(input, Artist) + Check(input, Youtube)
  }

  /** The messages the schema's error carries for the reported fields, in the same order. */
  function IssueMessages(fields: seq<Field>): (messages: seq<string>)
    ensures |messages| == |fields|
    ensures forall i :: 0 <= i < |fields| ==> messages[i] == Message(fields[i])
  {
    if fields == [] then [] else [Message(fields[0])] + IssueMessages(fields[1..])
  }

  /** No two fields share a message, so each message of the error names its field. */
  lemma MessageNamesField(f: Field, g: Field)
    ensures Message(f) == Message(g) <==> f == g
  {
    if f != g {
      MessageStartsWithInitial(f);
      MessageStartsWithInitial(g);
    }
  }

  lemma MessageStartsWithInitial(f: Field)
    ensures |Message(f)| > 0 && Message(f)[0] == Initial(f)
  {
    match f
    case Year =>
      assert Message(f) == "Number must be greater than or equal to 1950";
    case ItemId =>
      assert Message(f) == "String must contain at least 1 character(s)";
    case CountryField =>
      assert Message(f) == "Country can't be empty!";
    case Title =>
      assert Message(f) == "Title can't be empty!";
    case Artist =>
      assert Message(f) == "Artist can't be empty!";
    case Youtube =>
      assert Message(f) == "YouTube URL Must be an actual url!";
  }

  /** The first letter of a field's message. */
  function Initial(f: Field): char
  {
    match f
    case Year => 'N'
    case ItemId => 'S'
    case CountryField => 'C'
    case Title => 'T'
    case Artist => 'A'
    case Youtube => 'Y'
  }

  /** Every field is checked: a field is reported exactly when its rule rejects the input. */
  lemma AddToYearItemReports(input: SongInput, f: Field)
    ensures f in AddToYearItemIssues(input) <==> Rejects(input, f)
  {
  }

  /** The input is accepted exactly when the year is 1950 or later, the group id, country,
      title and artist are non-empty and the link is a URL; a string of spaces is non-empty. */
  lemma AddToYearItemAccepts(input: SongInput)
    ensures AddToYearItemIssues(input) == [] <==>
      && input.year >= 1950 && input.itemId != [] && input.country != [] && input.title != []
      && input.artist != [] && input.youtubeIsUrl
  {
  }
}
