/** The ranking page of one group: which list of songs it shows, and how dropping a dragged
    song moves it in that list, keeps the new order locally and sends it as the user's
    ranking. */
module RankingView {
  import opened Results
  import opened Schema
  import opened RankingQuery
  import SongsRouter

  /** The `items` memo: the locally kept order if there is one (an empty list counts), else
      the songs of the user's ranking in rank order if it has rows, else the group's unranked
      songs; nothing while the query has no data. */
  function DisplayedSongs(data: Option<RankingData>, localSongs: Option<seq<Song>>): (r: Option<seq<Song>>)
    ensures localSongs.Some? ==> r == localSongs
    ensures r.None? <==> localSongs.None? && data.None?
    ensures localSongs.None? && data.Some? && data.value.myRanking.Some? && data.value.myRanking.value.rankedSongs != [] ==>
      var rows := data.value.myRanking.value.rankedSongs;
      |r.value| == |rows| && forall i :: 0 <= i < |rows| ==> r.value[i] == rows[i].song
    ensures localSongs.None? && data.Some? && (data.value.myRanking.None? || data.value.myRanking.value.rankedSongs == []) ==>
      r == Some(data.value.unrankedSongs)
  {
    if localSongs.Some? then localSongs
    else if data.Some? && data.value.myRanking.Some? && |data.value.myRanking.value.rankedSongs| > 0 then
      Some(SongsOf(data.value.myRanking.value.rankedSongs))
    else if data.Some? then Some(data.value.unrankedSongs)
    else None
  }

  /** The songs a ranking places, one per row, in row order. */
  function SongsOf(rows: seq<RankedSong>): (songs: seq<Song>)
    ensures |songs| == |rows| && forall i :: 0 <= i < |rows| ==> songs[i] == rows[i].song
  {
    if rows == [] then [] else [rows[0].song] + SongsOf(rows[1..])
  }

  // ---------------------------------------------------------------------------------------
  // `Array.prototype.splice`, for one removed or one inserted element.

  /** Where `splice(start, ...)` acts on a list of length `len`: a negative start counts from
      the end (and stops at 0), a start past the end means the end. */
  function SpliceStart(start: int, len: nat): (k: nat)
    ensures k <= len
    ensures 0 <= start <= len ==> k == start
    ensures start > len ==> k == len
    ensures start < 0 ==> k == if len + start < 0 then 0 else len + start
  {
    if start < 0 then (if len + start < 0 then 0 else len + start)
    else if start < len then start else len
  }

  /** `s.splice(k, 1)` on the list: it loses its element at `k`. */
  function RemoveAt<T>(s: seq<T>, k: nat): (r: seq<T>)
    requires k < |s|
    ensures |r| == |s| - 1
    ensures forall i :: 0 <= i < k ==> r[i] == s[i]
    ensures forall i :: k <= i < |r| ==> r[i] == s[i + 1]
  {
    s[..k] + s[k + 1..]
  }

  /** `s.splice(k, 0, x)` on the list: `x` comes in at `k`. */
  function InsertAt<T>(s: seq<T>, k: nat, x: T): (r: seq<T>)
    requires k <= |s|
    ensures |r| == |s| + 1 && r[k] == x
    ensures forall i :: 0 <= i < k ==> r[i] == s[i]
    ensures forall i :: k < i < |r| ==> r[i] == s[i - 1]
  {
    s[..k] + [x] + s[k..]
  }

  /** The element at `from` taken out and put back in at `to` of the shortened list. */
  function Moved<T>(s: seq<T>, from: nat, to: nat): seq<T>
    requires from < |s| && to < |s|
  {
    InsertAt(RemoveAt(s, from), to, s[from])
  }

  /** A move keeps every element: the same length and the same elements as often as before. */
  lemma MovedIsPermutation<T>(s: seq<T>, from: nat, to: nat)
    requires from < |s| && to < |s|
    ensures |Moved(s, from, to)| == |s|
    ensures multiset(Moved(s, from, to)) == multiset(s)
  {
    var rest := RemoveAt(s, from);
    assert s == s[..from] + [s[from]] + s[from + 1..];
    assert multiset(s) == multiset(s[..from]) + multiset{s[from]} + multiset(s[from + 1..]);
    assert multiset(rest) == multiset(s[..from]) + multiset(s[from + 1..]);
    assert rest == rest[..to] + rest[to..];
    assert multiset(rest) == multiset(rest[..to]) + multiset(rest[to..]);
    var moved := Moved(s, from, to);
    assert moved == rest[..to] + [s[from]] + rest[to..];
    assert multiset(moved) == multiset(rest[..to]) + multiset{s[from]} + multiset(rest[to..]);
    assert multiset(moved) == multiset(rest) + multiset{s[from]};
  }

  /** The moved element lands at `to`, and taking it out again leaves the other elements in
      their old relative order. */
  lemma MovedPlacesElement<T>(s: seq<T>, from: nat, to: nat)
    requires from < |s| && to < |s|
    ensures Moved(s, from, to)[to] == s[from]
    ensures RemoveAt(Moved(s, from, to), to) == RemoveAt(s, from)
  {
  }

  // ---------------------------------------------------------------------------------------
  // The page.

  /** The request `update.mutate` sends. */
  datatype SaveRequest = SaveRequest(year: int, id: Id, items: seq<SongsRouter.RankItem>)

  /** The items sent for a list of songs: each song's id, ranked by its place in the list,
      counting from 1. */
  function RankedItems(songs: seq<Song>): (items: seq<SongsRouter.RankItem>)
    ensures |items| == |songs|
    ensures forall i :: 0 <= i < |songs| ==> items[i] == SongsRouter.RankItem(songs[i].id, i + 1)
  {
    if songs == [] then []
    else RankedItems(songs[..|songs| - 1]) + [SongsRouter.RankItem(songs[|songs| - 1].id, |songs|)]
  }

  /** The submitted ranks are 1, 2, ..., n in list order, so no two are equal and every one
      passes the rank check of `saveRanking`; the submitted song ids are the listed songs'
      ids in list order, so every listed song is submitted exactly as often as it is listed,
      and a list without repeated songs is sent without repeated song ids. */
  lemma RankedItemsAreContiguous(songs: seq<Song>)
    ensures forall i, j :: 0 <= i < j < |songs| ==> RankedItems(songs)[i].rank < RankedItems(songs)[j].rank
    ensures forall i :: 0 <= i < |songs| ==> 1 <= RankedItems(songs)[i].rank <= |songs|
    ensures forall i :: 0 <= i < |songs| ==> RankedItems(songs)[i].id == songs[i].id
    ensures (forall i, j :: 0 <= i < j < |songs| ==> songs[i].id != songs[j].id) ==>
              SongsRouter.DistinctSongs(RankedItems(songs))
    ensures SongsRouter.RanksValid(RankedItems(songs))
  {
  }

  /** The state of the ranking page of one group. */
  class RankingPage {
    const year: int
    const groupId: Id
    var data: Option<RankingData>
    var localSongs: Option<seq<Song>>

    constructor (year: int, groupId: Id, data: Option<RankingData>)
      ensures this.year == year && this.groupId == groupId && this.data == data && localSongs.None?
    {
      this.year := year;
      this.groupId := groupId;
      this.data := data;
      localSongs := None;
    }

    /** `onDragEnd`.  A drop without a destination, on its own place, before the data has
        arrived, or from a place past the end of the list changes nothing and sends nothing.
        Otherwise the dragged song is moved within the displayed list, the result is kept as
        the local order, and unless the group id is empty it is sent as the user's ranking
        with ranks 1 to n. */
    method OnDragEnd(source: int, destination: Option<int>) returns (request: Option<SaveRequest>)
      modifies this`localSongs
      ensures var items := DisplayedSongs(data, old(localSongs));
        if destination.None? || source == destination.value || items.None? || data.None?
           || SpliceStart(source, |items.value|) == |items.value|
        then request.None? && localSongs == old(localSongs)
        else
          var from := SpliceStart(source, |items.value|);
          var to := SpliceStart(destination.value, |items.value| - 1);
          && localSongs == Some(Moved(items.value, from, to))
          && request == if groupId == [] then None
                        else Some(SaveRequest(year, groupId, RankedItems(Moved(items.value, from, to))))
    {
      if destination.None? || source == destination.value {
        return None;
      }
      var items := DisplayedSongs(data, localSongs);
      if items.None? || data.None? {
        return None;
      }
      var newItems := items.value;
      var from := SpliceStart(source, |newItems|);
      if from == |newItems| {
        // nothing was removed
        return None;
      }
      var removed := newItems[from];
      newItems := RemoveAt(newItems, from);
      newItems := InsertAt(newItems, SpliceStart(destination.value, |newItems|), removed);
      localSongs := Some(newItems);
      if groupId == [] {
        return None;
      }
      request := Some(SaveRequest(year, groupId, RankedItems(newItems)));
    }
  }
}
