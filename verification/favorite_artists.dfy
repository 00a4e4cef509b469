/** `FavoriteArtistManager`: the user's favorite artists, an artist search,
    and the add and delete handlers. */
module FavoriteArtists {
  import opened Results
  import opened Seqs
  import JsText

  /** A catalog artist as the search proxy returns it; `images` are URLs. */
  datatype CatalogArtist = CatalogArtist(id: string, name: string, images: seq<string>)

  /** A `favorite_artists` row. */
  datatype FavoriteArtist = FavoriteArtist(id: int, artistId: string, artistName: string, artistImageUrl: Option<string>)

  /** The row the component asks the store to insert. */
  datatype NewArtistRow = NewArtistRow(userId: string, artistId: string, artistName: string, artistImageUrl: Option<string>)

  /** The proxy request: the query, with the type set to `artist`. */
  datatype SearchRequest = SearchRequest(query: string, kind: string)

  datatype State = State(artists: seq<FavoriteArtist>, searchQuery: string, searchResults: seq<CatalogArtist>)

  const Initial: State := State([], "", [])

  /** The mount-time load: the user's rows, or the old list on failure. */
  function LoadArtists(s: State, rows: Outcome<seq<FavoriteArtist>>): (r: State)
    ensures rows.Ok? ==> r.artists == rows.value
    ensures rows.Err? ==> r == s
    ensures r.searchQuery == s.searchQuery && r.searchResults == s.searchResults
  {
    match rows
    case Ok(data) => s.(artists := data)
    case Err(_) => s
  }

  /** `handleSearch`: a blank query does nothing; otherwise the results
      become the proxy's artist items, or stay as they were when it fails. */
  function Search(s: State, answer: Outcome<seq<CatalogArtist>>): (r: (State, Option<SearchRequest>))
    ensures JsText.IsBlank(s.searchQuery) <==> r.1 == None
    ensures r.1.Some? ==> r.1.value == SearchRequest(s.searchQuery, "artist")
    ensures JsText.IsBlank(s.searchQuery) || answer.Err? ==> r.0 == s
    ensures !JsText.IsBlank(s.searchQuery) && answer.Ok? ==> r.0 == s.(searchResults := answer.value)
  {
    JsText.TrimEmptyIffBlank(s.searchQuery);
    if JsText.Trim(s.searchQuery) == "" then (s, None)
    else
      var request := Some(SearchRequest(s.searchQuery, "artist"));
      match answer
      case Ok(items) => (s.(searchResults := items), request)
      case Err(_) => (s, request)
  }

  /** `artist.images[0]?.url`: the first image, if there is one. */
  function FirstImage(images: seq<string>): (u: Option<string>)
    ensures u.Some? <==> images != []
    ensures u.Some? ==> u.value == images[0]
  {
    if images == [] then None else Some(images[0])
  }

  /** `addArtist(artist)` given the store's answer to the insert: the new
      state, the row sent, and the alert raised (if any). The insert is
      always issued, with no duplicate check. */
  function AddArtist(s: State, userId: string, artist: CatalogArtist,
                     answer: Outcome<FavoriteArtist>): (r: (State, NewArtistRow, Option<string>))
    ensures r.1 == NewArtistRow(userId, artist.id, artist.name, FirstImage(artist.images))
    ensures answer.Ok? ==> r.0 == State(s.artists + [answer.value], "", []) && r.2 == None
    ensures answer.Err? ==> r.0 == s && r.2 == Some(answer.message)
  {
    var row := NewArtistRow(userId, artist.id, artist.name, FirstImage(artist.images));
    match answer
    case Ok(stored) => (State(s.artists + [stored], "", []), row, None)
    case Err(m) => (s, row, Some(m))
  }

  /** `deleteArtist(id)`: the delete's answer is not looked at, and every
      entry with that id leaves the list. */
  function DeleteArtist(s: State, id: int): (r: State)
    ensures forall i :: 0 <= i < |r.artists| ==> r.artists[i].id != id && r.artists[i] in s.artists
    ensures forall i :: 0 <= i < |s.artists| && s.artists[i].id != id ==> s.artists[i] in r.artists
    ensures r.searchQuery == s.searchQuery && r.searchResults == s.searchResults
  {
    var keep := (a: FavoriteArtist) => a.id != id;
    FilterMembers(s.artists, keep);
    s.(artists := Filter(s.artists, keep))
  }

  // ---------------------------------------------------------------------
  // Properties across calls.

  /** Adding the same catalog artist twice, both inserts succeeding, leaves
      two entries: nothing stops the repeat. */
  lemma AddTwiceKeepsBoth(s: State, userId: string, artist: CatalogArtist, first: FavoriteArtist, second: FavoriteArtist)
    ensures var s1 := AddArtist(s, userId, artist, Ok(first));
            var s2 := AddArtist(s1.0, userId, artist, Ok(second));
            && s1.1 == s2.1
            && s2.0.artists == s.artists + [first, second]
  {
  }

  /** Deleting keeps the surviving entries in their order: deleting from a
      concatenation deletes from each part. */
  lemma DeleteKeepsOrder(s: State, more: seq<FavoriteArtist>, id: int)
    ensures DeleteArtist(s.(artists := s.artists + more), id).artists
            == DeleteArtist(s, id).artists + DeleteArtist(s.(artists := more), id).artists
  {
    FilterConcat(s.artists, more, (a: FavoriteArtist) => a.id != id);
  }
}
