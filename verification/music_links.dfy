/** The `music-link-generator` edge function: one request in, one response
    out. The JSON body is given already parsed (or as the parse failure). */
module MusicLinkGenerator {
  import opened Results
  import UriComponent

  /** The request body as the handler destructures it. A field is `None`
      when it is missing or `null`. `Unreadable` is a body on which
      `req.json()` or the destructuring throws, with the thrown message. */
  datatype Body =
    | Fields(songName: Option<string>, artistName: Option<string>)
    | Unreadable(reason: string)

  /** `verb` is the HTTP method. */
  datatype Request = Request(verb: string, body: Body)

  datatype Links = Links(spotify: string, youtubeMusic: string, appleMusic: string)

  datatype ResponseBody =
    | Text(text: string)           // the preflight's plain `ok`
    | LinksJson(links: Links)      // `JSON.stringify(links)`
    | ErrorJson(error: string)     // `JSON.stringify({ error })`

  datatype Response = Response(status: int, headers: seq<(string, string)>, body: ResponseBody)

  const CorsHeaders: seq<(string, string)> := [
    ("Access-control-allow-origin", "*"),
    ("Access-control-allow-headers", "authorization, x-client-info, apikey, content-type")
  ]

  const JsonHeaders: seq<(string, string)> := CorsHeaders + [("Content-Type", "application/json")]

  const MissingFieldsMessage: string := "Song name and artist name are required."

  const SpotifySearch: string := "https://open.spotify.com/search/"
  const YouTubeMusicSearch: string := "https://music.youtube.com/search?q="
  const AppleMusicSearch: string := "https://music.apple.com/search?term="

  /** A JavaScript string value is truthy when it is present and not empty;
      whitespace counts as content. */
  predicate Truthy(field: Option<string>)
  {
    field.Some? && field.value != ""
  }

  /** The three provider links around one encoded query. */
  function BuildLinks(songName: string, artistName: string): Links
  {
    var q := UriComponent.Encode(songName + " " + artistName);
    Links(SpotifySearch + q, YouTubeMusicSearch + q, AppleMusicSearch + q)
  }

  /** The request handler. */
  function Handle(req: Request): (r: Response)
    // Preflight: 200 `ok` with the CORS headers, whatever the body.
    ensures req.verb == "OPTIONS" ==> r == Response(200, CorsHeaders, Text("ok"))
    // Everything else answers JSON with the CORS headers.
    ensures req.verb != "OPTIONS" ==> r.headers == JsonHeaders
    // Success exactly when both fields are non-empty strings.
    ensures req.verb != "OPTIONS" ==>
              (r.status == 200 <==> req.body.Fields? && Truthy(req.body.songName) && Truthy(req.body.artistName))
    ensures r.status == 200 || r.status == 500
    ensures r.status == 500 <==> r.body.ErrorJson?
    ensures req.verb != "OPTIONS" && req.body.Fields? && r.status == 500 ==>
              r.body.error == MissingFieldsMessage
    ensures r.body.LinksJson? ==>
              r.body.links == BuildLinks(req.body.songName.value, req.body.artistName.value)
    // A successful response carries the links; an unreadable body's error is the thrown message.
    ensures req.verb != "OPTIONS" && r.status == 200 ==>
              r.body == LinksJson(BuildLinks(req.body.songName.value, req.body.artistName.value))
    ensures req.verb != "OPTIONS" && req.body.Unreadable? ==> r.body == ErrorJson(req.body.reason)
  {
    if req.verb == "OPTIONS" then
      Response(200, CorsHeaders, Text("ok"))
    else
      match req.body
      case Unreadable(reason) => Response(500, JsonHeaders, ErrorJson(reason))
      case Fields(song, artist) =>
        if !Truthy(song) || !Truthy(artist) then
          Response(500, JsonHeaders, ErrorJson(MissingFieldsMessage))
        else
          Response(200, JsonHeaders, LinksJson(BuildLinks(song.value, artist.value)))
  }

  /** The query shared by the links is the encoded song name, `%20` for the
      separating space, then the encoded artist name; it holds no space and
      decodes back to `song + " " + artist`. */
  lemma QueryShape(songName: string, artistName: string)
    ensures var q := UriComponent.Encode(songName + " " + artistName);
            && q == UriComponent.Encode(songName) + "%20" + UriComponent.Encode(artistName)
            && ' ' !in q
            && UriComponent.Decode(q) == Some(songName + " " + artistName)
  {
    var q := UriComponent.Encode(songName + " " + artistName);
    UriComponent.EncodeConcat(songName + " ", artistName);
    UriComponent.EncodeConcat(songName, " ");
    UriComponent.EncodeSpace();
    UriComponent.EncodeAlphabet(songName + " " + artistName);
    UriComponent.DecodeEncode(songName + " " + artistName);
  }

  /** Each successful response carries three links that share the query and
      differ only in their provider prefix. */
  lemma LinksShareQuery(req: Request)
    requires req.verb != "OPTIONS" && req.body.Fields?
    requires Truthy(req.body.songName) && Truthy(req.body.artistName)
    ensures var l := Handle(req).body.links;
            && |l.spotify| - |SpotifySearch| == |l.youtubeMusic| - |YouTubeMusicSearch|
            && l.spotify[..|SpotifySearch|] == SpotifySearch
            && l.youtubeMusic[..|YouTubeMusicSearch|] == YouTubeMusicSearch
            && l.appleMusic[..|AppleMusicSearch|] == AppleMusicSearch
            && l.spotify[|SpotifySearch|..] == l.youtubeMusic[|YouTubeMusicSearch|..]
                                             == l.appleMusic[|AppleMusicSearch|..]
                                             == UriComponent.Encode(req.body.songName.value + " " + req.body.artistName.value)
  {
  }

  /** Whitespace-only names are accepted: the check is truthiness, not trim. */
  lemma WhitespaceNamesAccepted()
    ensures Handle(Request("POST", Fields(Some(" "), Some(" ")))).status == 200
    ensures Handle(Request("POST", Fields(Some(""), Some("Artist")))).status == 500
  {
  }
}
