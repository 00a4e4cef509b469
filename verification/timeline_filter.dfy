/** `TimelineFilter`: a menu that reports the chosen timeline filter to its
    parent. */
module TimelineFilter {
  import opened Results

  /** `FilterType` of `types.ts`. */
  datatype FilterType = All | Follows | Favorites | Artist

  function TypeName(t: FilterType): (name: string)
    ensures name in {"ALL", "FOLLOWS", "FAVORITES", "ARTIST"}
  {
    match t
    case All => "ALL"
    case Follows => "FOLLOWS"
    case Favorites => "FAVORITES"
    case Artist => "ARTIST"
  }

  /** A favorite artist as the menu loads it. */
  datatype MenuArtist = MenuArtist(artistName: string, artistId: string)

  /** One entry of the menu. */
  datatype MenuItem = AllItem | FollowsItem | FavoritesItem | ArtistItem(artist: MenuArtist)

  /** One call of `onFilterChange(type, artistId)`. */
  datatype Emission = Emission(kind: FilterType, artistId: Option<string>)

  datatype State = State(isOpen: bool, favoriteArtists: seq<MenuArtist>)

  const Initial: State := State(false, [])

  /** The mount-time load of the user's favorite artists; a failure keeps
      the old entries. */
  function LoadArtists(s: State, rows: Outcome<seq<MenuArtist>>): (r: State)
    ensures rows.Ok? ==> r.favoriteArtists == rows.value
    ensures rows.Err? ==> r == s
    ensures r.isOpen == s.isOpen
  {
    match rows
    case Ok(data) => s.(favoriteArtists := data)
    case Err(_) => s
  }

  /** The menu button. */
  function ToggleMenu(s: State): (r: State)
    ensures r.isOpen != s.isOpen && r.favoriteArtists == s.favoriteArtists
  {
    s.(isOpen := !s.isOpen)
  }

  /** The entries of the open menu: the three fixed filters, then one per
      favorite artist in load order. */
  function Menu(s: State): (items: seq<MenuItem>)
    ensures |items| == 3 + |s.favoriteArtists|
    ensures items[..3] == [AllItem, FollowsItem, FavoritesItem]
    ensures forall i :: 0 <= i < |s.favoriteArtists| ==> items[3 + i] == ArtistItem(s.favoriteArtists[i])
  {
    [AllItem, FollowsItem, FavoritesItem] + seq(|s.favoriteArtists|, i requires 0 <= i < |s.favoriteArtists| => ArtistItem(s.favoriteArtists[i]))
  }

  /** The arguments a click on an entry passes to `handleSelect`. */
  function EmissionOf(item: MenuItem): (e: Emission)
    ensures e.artistId.Some? <==> e.kind == Artist
    ensures item.ArtistItem? <==> e.kind == Artist
    ensures item.ArtistItem? ==> e.artistId == Some(item.artist.artistId)
  {
    match item
    case AllItem => Emission(All, None)
    case FollowsItem => Emission(Follows, None)
    case FavoritesItem => Emission(Favorites, None)
    case ArtistItem(a) => Emission(Artist, Some(a.artistId))
  }

  /** `handleSelect`: one call of `onFilterChange`, then the menu closes. */
  function Select(s: State, item: MenuItem): (r: (State, seq<Emission>))
    ensures r.0 == s.(isOpen := false)
    ensures |r.1| == 1 && r.1[0] == EmissionOf(item)
  {
    (s.(isOpen := false), [EmissionOf(item)])
  }

  /** Every entry of the menu emits a filter tied to its position: the
      fixed entries in order, then the artists' ids. */
  lemma MenuEmissions(s: State)
    ensures var items := Menu(s);
            && EmissionOf(items[0]) == Emission(All, None)
            && EmissionOf(items[1]) == Emission(Follows, None)
            && EmissionOf(items[2]) == Emission(Favorites, None)
            && forall i :: 3 <= i < |items| ==>
                 EmissionOf(items[i]) == Emission(Artist, Some(s.favoriteArtists[i - 3].artistId))
  {
    var items := Menu(s);
    assert items[..3][0] == items[0] && items[..3][1] == items[1] && items[..3][2] == items[2];
  }
}
