/** `FavoriteMusicManager`: the signed-in user's favorite-song list, a
    catalog search, and the add and remove handlers. */
module FavoriteMusic {
  import opened Results
  import opened Seqs
  import JsText

  /** A catalog track as the search proxy returns it. */
  datatype Track = Track(id: string, name: string, artistNames: seq<string>)

  /** A `favorite_songs` row as the component keeps it. */
  datatype FavoriteSong = FavoriteSong(id: int, songName: string, artistName: string)

  /** The row the component asks the store to insert. */
  datatype NewSongRow = NewSongRow(
    userId: string, songId: string, songName: string, artistName: string, sortOrder: int)

  /** An equality filter of a store query: `.eq(column, value)`. */
  datatype EqFilter = EqId(id: int) | EqUserId(userId: string)

  datatype State = State(
    favoriteSongs: seq<FavoriteSong>,
    searchQuery: string,
    searchResults: Option<seq<Track>>,
    isSearching: bool)

  const Initial: State := State([], "", None, false)

  const DuplicateMessage: string := "既に追加されています。"

  const ArtistSeparator: string := ", "

  /** Some favorite already carries this song name (the artist is not
      compared). */
  predicate HasSongNamed(songs: seq<FavoriteSong>, name: string)
  {
    exists i :: 0 <= i < |songs| && songs[i].songName == name
  }

  /** The effect of the mount-time load: the rows in `sort_order`, or the old
      list when the store fails. */
  function LoadFavorites(s: State, rows: Outcome<seq<FavoriteSong>>): (r: State)
    ensures rows.Ok? ==> r == s.(favoriteSongs := rows.value)
    ensures rows.Err? ==> r == s
  {
    match rows
    case Ok(data) => s.(favoriteSongs := data)
    case Err(_) => s
  }

  /** `handleSearch`: a blank query does nothing; otherwise the proxy is
      invoked with the query and its answer replaces the results. */
  function Search(s: State, answer: Outcome<seq<Track>>): (r: (State, Option<string>))
    ensures JsText.IsBlank(s.searchQuery) <==> r.1 == None
    ensures r.1.Some? ==> r.1.value == s.searchQuery
    ensures JsText.IsBlank(s.searchQuery) ==> r.0 == s
    ensures !JsText.IsBlank(s.searchQuery) ==>
              r.0 == s.(searchResults := (if answer.Ok? then Some(answer.value) else s.searchResults),
                        isSearching := false)
  {
    JsText.TrimEmptyIffBlank(s.searchQuery);
    if JsText.Trim(s.searchQuery) == "" then (s, None)
    else
      var results := match answer
        case Ok(data) => Some(data)
        case Err(_) => s.searchResults;
      (s.(searchResults := results, isSearching := false), Some(s.searchQuery))
  }

  /** The row built for a track: the artist names joined with ", " in their
      order, and the position after the current last one. */
  function NewRow(songs: seq<FavoriteSong>, userId: string, track: Track): NewSongRow
  {
    NewSongRow(userId, track.id, track.name, Join(track.artistNames, ArtistSeparator), |songs| + 1)
  }

  /** What `addFavoriteSong` did: the new list, the insert it issued (if
      any), and the notice it raised (if any). */
  datatype AddResult = AddResult(songs: seq<FavoriteSong>, insert: Option<NewSongRow>, notice: Option<string>)

  /** `addFavoriteSong(track)` given the store's answer to the insert. */
  function AddFavoriteSong(songs: seq<FavoriteSong>, userId: string, track: Track,
                           answer: Outcome<FavoriteSong>): (r: AddResult)
    // A song name already in the list: no insert, no change, a notice.
    ensures HasSongNamed(songs, track.name) <==> r.insert == None
    ensures HasSongNamed(songs, track.name) ==>
              r.songs == songs && r.notice == Some(DuplicateMessage)
    // Otherwise the row sent to the store describes the track and goes last.
    ensures r.insert.Some? ==>
              && r.insert.value.userId == userId
              && r.insert.value.songId == track.id
              && r.insert.value.songName == track.name
              && r.insert.value.artistName == Join(track.artistNames, ArtistSeparator)
              && r.insert.value.sortOrder == |songs| + 1 >= 1
              && r.notice == None
    // The stored row is appended on success; a failure changes nothing.
    ensures r.insert.Some? && answer.Ok? ==> r.songs == songs + [answer.value]
    ensures r.insert.Some? && answer.Err? ==> r.songs == songs
  {
    if HasSongNamed(songs, track.name) then
      AddResult(songs, None, Some(DuplicateMessage))
    else
      var row := NewRow(songs, userId, track);
      match answer
      case Ok(stored) => AddResult(songs + [stored], Some(row), None)
      case Err(_) => AddResult(songs, Some(row), None)
  }

  /** What `removeFavoriteSong` did: the new list and the delete's filters. */
  datatype RemoveResult = RemoveResult(songs: seq<FavoriteSong>, deleteFilters: seq<EqFilter>)

  function WithoutId(songs: seq<FavoriteSong>, songId: int): seq<FavoriteSong>
  {
    Filter(songs, (x: FavoriteSong) => x.id != songId)
  }

  /** `removeFavoriteSong(songId)` given the store's answer to the delete.
      The delete is filtered by the row id alone. */
  function RemoveFavoriteSong(songs: seq<FavoriteSong>, songId: int, answer: Outcome<Unit>): (r: RemoveResult)
    ensures r.deleteFilters == [EqId(songId)]
    ensures answer.Err? ==> r.songs == songs
    ensures answer.Ok? ==>
              && (forall i :: 0 <= i < |r.songs| ==> r.songs[i].id != songId)
              && (forall i :: 0 <= i < |songs| && songs[i].id != songId ==> songs[i] in r.songs)
              && (forall i :: 0 <= i < |r.songs| ==> r.songs[i] in songs)
  {
    match answer
    case Ok(_) =>
      FilterMembers(songs, (x: FavoriteSong) => x.id != songId);
      RemoveResult(WithoutId(songs, songId), [EqId(songId)])
    case Err(_) => RemoveResult(songs, [EqId(songId)])
  }

  // ---------------------------------------------------------------------
  // Properties across calls.

  /** The artist field lists the names in order: one more artist appends
      the separator and that name. */
  lemma ArtistNamesInOrder(songs: seq<FavoriteSong>, userId: string, id: string, name: string,
                           artists: seq<string>, last: string)
    requires artists != []
    ensures NewRow(songs, userId, Track(id, name, artists + [last])).artistName
            == NewRow(songs, userId, Track(id, name, artists)).artistName + ", " + last
  {
    JoinSnoc(artists, last, ArtistSeparator);
  }

  /** Only the song name decides a duplicate: the same name by another
      artist is refused, and then nothing is sent to the store. */
  lemma DuplicateIgnoresArtist(songs: seq<FavoriteSong>, userId: string, track: Track,
                               answer: Outcome<FavoriteSong>, k: nat)
    requires k < |songs| && songs[k].songName == track.name
    ensures AddFavoriteSong(songs, userId, track, answer) == AddResult(songs, None, Some(DuplicateMessage))
  {
  }

  /** A successful add grows the list by one and keeps the old entries as
      its prefix. */
  lemma AddKeepsPrefix(songs: seq<FavoriteSong>, userId: string, track: Track, stored: FavoriteSong)
    requires !HasSongNamed(songs, track.name)
    ensures var r := AddFavoriteSong(songs, userId, track, Ok(stored)).songs;
            |r| == |songs| + 1 && r[..|songs|] == songs && r[|songs|] == stored
  {
  }

  /** Removing a song whose id occurs once cuts exactly that entry out,
      leaving the others in order; removing it again changes nothing. */
  lemma RemoveCutsOut(songs: seq<FavoriteSong>, k: nat)
    requires k < |songs|
    requires forall i :: 0 <= i < |songs| && i != k ==> songs[i].id != songs[k].id
    ensures RemoveFavoriteSong(songs, songs[k].id, Ok(Unit)).songs == songs[..k] + songs[k + 1..]
  {
    FilterDropsOne(songs, k, (x: FavoriteSong) => x.id != songs[k].id);
  }

  lemma RemoveTwiceIsRemoveOnce(songs: seq<FavoriteSong>, songId: int)
    ensures var once := RemoveFavoriteSong(songs, songId, Ok(Unit)).songs;
            RemoveFavoriteSong(once, songId, Ok(Unit)).songs == once
  {
    FilterIdempotent(songs, (x: FavoriteSong) => x.id != songId);
  }
}
