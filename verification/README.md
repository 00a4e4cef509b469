# Music SNS client: a Dafny model of its state handlers

The Music SNS web client is a thin React front end over a hosted database.
Almost every handler awaits one remote call and then updates component state.
This project models those handlers as pure state-transition functions and proves what they promise.
Each remote call's answer is an input parameter: `Ok(value)` or `Err(message)`, from the `Results` module.

What is modelled, one module per component:

- `FavoriteMusic`: the favorite-song list (`FavoriteMusicManager.tsx`).
  - Append after a duplicate check on the song name alone.
  - The new row's sort position is the list length plus one.
  - Delete filters by row id.
  - A blank search query sends nothing.
- `FavoriteArtists`: the favorite-artist list (`FavoriteArtistManager.tsx`).
  - Append with no duplicate check, which clears the search.
  - The image URL is the first image's.
  - Delete is applied locally whatever the store answers.
- `FollowButton`: the two-flag follow toggle and its label.
- `MusicLinkGenerator`: the `music-link-generator` edge function.
  - A request goes in and a response comes out: status, headers and body.
  - The body holds three provider links built around one `encodeURIComponent` query.
- `UriComponent`: ECMAScript `encodeURIComponent` over Unicode scalar values.
  - Section 19.2.6 of ECMA-262 defines the function.
  - UTF-8 follows section 3 of RFC 3629.
  - Percent-encoding follows section 2.1 of RFC 3986.
  - Its partner is a `decodeURIComponent` model; decoding inverts encoding for every string.
- `PostStore`: the in-memory post store of `api/posts.ts`.
  - `createPost` gives the new post id `length + 1` and puts it in front.
  - `fetchPosts` sorts the module's own array newest first, stably, as `Array.prototype.sort` does.
  - From the seed store, any sequence of calls keeps the ids exactly 1..length.
- `TimelinePage` (`pages/Timeline.tsx`) and `PostForm`: load, submit, and the trim check.
- `AddEvent`: the required-field check (no trim), parameter mapping and outcomes of `AddEventPage.tsx`.
- `FollowList`: the path-based choice between followers and following, and the result handling.
- `TimelineFilter`: the menu toggle, the entries, and what each entry emits.
- `HomePage`: the profile fetch with its 406 tolerance, the post fetch, and prepending a created post with the fallback name.
- `ImageUpload`: `Avatar.tsx` and `HeaderImageUploader.tsx`.
  - The missing-file error.
  - The extension is the text after the last dot.
  - The storage path sits in the user's folder.
  - The calls are ordered, and the image changes only after both calls succeed.

Shared pieces:

- `Seqs`: `Array.prototype.filter`, `join`, and `String.prototype.split` with a one-character separator.
- `JsText`: `String.prototype.trim` with the ECMAScript WhiteSpace and LineTerminator sets, and `includes`.

Facts about the code that the model keeps as they are:

- A new favorite's `sort_order` is `length + 1`. It is 1-based, and deletes leave gaps in it.
- The duplicate check on favorite songs compares the song name only; the artists are ignored.
- The song delete is filtered by the row id only.
- A failed post fetch on the home page keeps the posts already shown.
- The home page renders `PostForm` with an `onPostCreated` prop (HomePage.tsx:153), but `PostForm` reads only `onSubmit` (PostForm.tsx:4, 13). As written, `handlePostCreated` is never called from the form. A submit there calls an undefined `onSubmit`. `HomePage.HandlePostCreated` models the handler on its own.

## Model

| member | source | states |
|---|---|---|
| Seqs.Filter | src/components/FavoriteArtistManager.tsx:77 | the filtered list is no longer than the input and every element of it passes the predicate |
| Seqs.FilterMembers | src/components/FavoriteArtistManager.tsx:77 | every element of the filtered list comes from the input, and every input element that passes is in it |
| Seqs.FilterConcat | src/components/FavoriteMusicManager.tsx:98 | filtering a concatenation filters each part, so survivors keep their relative order |
| Seqs.FilterAllKept | src/components/FavoriteMusicManager.tsx:98 | a list whose every element passes comes back unchanged |
| Seqs.FilterIdempotent | src/components/FavoriteMusicManager.tsx:98 | filtering twice with the same predicate equals filtering once |
| Seqs.FilterDropsOne | src/components/FavoriteMusicManager.tsx:98 | when only the element at index k fails, the result is the list with exactly that element cut out |
| Seqs.JoinSnoc | src/components/FavoriteMusicManager.tsx:83 | joining one more part appends the separator and that part |
| Seqs.JoinLength | src/components/FavoriteMusicManager.tsx:83 | the joined length is the parts' total length plus one separator per gap |
| Seqs.Split | src/components/Avatar.tsx:40 | splitting always yields at least one segment |
| Seqs.SplitJoin | src/components/Avatar.tsx:40 | joining the segments back with the separator gives the input |
| Seqs.SplitSingle | src/components/Avatar.tsx:40 | there is one segment exactly when the separator does not occur |
| Seqs.SplitSegmentsFree | src/components/Avatar.tsx:40 | no segment contains the separator |
| Seqs.LastSplitIsTail | src/components/Avatar.tsx:40 | the last segment (`pop()`) is the suffix after the last separator: separator-free, preceded by a separator unless it is the whole input |
| JsText.TrimStart | src/components/PostForm.tsx:12 | the result is a suffix of the input that does not start with whitespace, and the part removed is all whitespace |
| JsText.TrimEnd | src/components/PostForm.tsx:12 | the result is a prefix of the input that does not end with whitespace, and the part removed is all whitespace |
| JsText.TrimEmptyIffBlank | src/components/PostForm.tsx:12 | `trim()` gives the empty string exactly when every character is whitespace, in both directions |
| JsText.TrimIsInnerSlice | src/components/PostForm.tsx:12 | the trimmed text is a slice of the input with only whitespace cut away on either side |
| JsText.TrimEdges | src/components/PostForm.tsx:12 | a non-empty trimmed text neither starts nor ends with whitespace |
| UriComponent.Encode | supabase/functions/music-link-generator/index.ts:20 | each input character becomes between 1 and 12 output characters |
| UriComponent.EncodeAlphabet | supabase/functions/music-link-generator/index.ts:20 | the encoding holds only unreserved characters and `%`, so never a space |
| UriComponent.EncodeConcat | supabase/functions/music-link-generator/index.ts:20 | encoding distributes over concatenation |
| UriComponent.EncodeSpace | supabase/functions/music-link-generator/index.ts:20 | a space is encoded as `%20` |
| UriComponent.Utf8RoundTrip | supabase/functions/music-link-generator/index.ts:20 | UTF-8 decoding inverts UTF-8 encoding for every scalar value, and the lead byte announces the sequence length |
| UriComponent.DecodeEncode | supabase/functions/music-link-generator/index.ts:20 | `decodeURIComponent(encodeURIComponent(s)) == s` for every string |
| MusicLinkGenerator.Handle | supabase/functions/music-link-generator/index.ts:8-39 | OPTIONS answers `ok` with the CORS headers and ignores the body; otherwise JSON headers with CORS; status 200 exactly when both names are non-empty strings, and then the body is the three links built from the names; otherwise 500 with the missing-fields message, or with the thrown message for an unreadable body |
| MusicLinkGenerator.QueryShape | supabase/functions/music-link-generator/index.ts:20 | the query is the encoded song, `%20`, then the encoded artist; it holds no space and decodes back to `song + " " + artist` |
| MusicLinkGenerator.LinksShareQuery | supabase/functions/music-link-generator/index.ts:16-31 | for every non-preflight request with two non-empty names, the response's three links start with their fixed provider prefixes and end in the same encoded query |
| MusicLinkGenerator.WhitespaceNamesAccepted | supabase/functions/music-link-generator/index.ts:16-18 | whitespace-only names pass the check, and an empty name is refused |
| FavoriteMusic.LoadFavorites | src/components/FavoriteMusicManager.tsx:32-47 | a successful load replaces the list and leaves the query, results and searching flag as they were; a failure changes nothing |
| FavoriteMusic.Search | src/components/FavoriteMusicManager.tsx:52-69 | a proxy call is sent exactly when the query is not blank, with the query; a blank query changes nothing; otherwise the results become the answer (kept on error), searching ends, and the query and the list are untouched |
| FavoriteMusic.AddFavoriteSong | src/components/FavoriteMusicManager.tsx:72-92 | no insert happens exactly when a favorite has the song name, and then the list is unchanged and the notice is raised; otherwise the row carries the user, track, joined artists and position `length + 1 >= 1`; success appends the stored row, and failure leaves the list |
| FavoriteMusic.RemoveFavoriteSong | src/components/FavoriteMusicManager.tsx:94-102 | the delete is filtered by id alone; on error the list is unchanged; on success no entry has the id, every other entry stays, and nothing new appears |
| FavoriteMusic.ArtistNamesInOrder | src/components/FavoriteMusicManager.tsx:83 | one more artist appends `, ` and that name to the row's artist field |
| FavoriteMusic.DuplicateIgnoresArtist | src/components/FavoriteMusicManager.tsx:73-76 | a track with a listed song name is refused whatever its artists and the store's answer |
| FavoriteMusic.AddKeepsPrefix | src/components/FavoriteMusicManager.tsx:86-88 | a successful add grows the list by one, keeps the old list as its prefix and puts the stored row last |
| FavoriteMusic.RemoveCutsOut | src/components/FavoriteMusicManager.tsx:98 | removing a unique id cuts out exactly that entry and keeps the others in order |
| FavoriteMusic.RemoveTwiceIsRemoveOnce | src/components/FavoriteMusicManager.tsx:98 | removing the same id again changes nothing |
| FavoriteArtists.LoadArtists | src/components/FavoriteArtistManager.tsx:33-43 | a successful load replaces the list; a failure changes nothing |
| FavoriteArtists.Search | src/components/FavoriteArtistManager.tsx:45-52 | a request with type `artist` is sent exactly when the query is not blank; a blank query or a failure changes nothing; success replaces the results |
| FavoriteArtists.FirstImage | src/components/FavoriteArtistManager.tsx:59 | the image URL is present exactly when there is an image, and then it is the first one |
| FavoriteArtists.AddArtist | src/components/FavoriteArtistManager.tsx:54-73 | the inserted row carries the user, the artist and its first image; success appends the stored row and clears query and results, with no alert; failure changes nothing and alerts the store's error message |
| FavoriteArtists.DeleteArtist | src/components/FavoriteArtistManager.tsx:75-78 | no entry with the id remains, every other entry stays, nothing new appears, and the search is untouched, with no store answer consulted |
| FavoriteArtists.AddTwiceKeepsBoth | src/components/FavoriteArtistManager.tsx:54-73 | adding the same catalog artist twice sends the same row twice and keeps both stored rows |
| FavoriteArtists.DeleteKeepsOrder | src/components/FavoriteArtistManager.tsx:77 | deleting from a concatenation deletes from each part, so the survivors keep their order |
| FollowButton.CheckStatus | src/components/FollowButton.tsx:16-32 | following exactly when the select matched a row; an error keeps the flag; loading ends |
| FollowButton.Toggle | src/components/FollowButton.tsx:38-70 | while following the edge is deleted, otherwise inserted; success flips the flag with no alert; failure keeps the flag and raises the unfollow or follow failure alert matching the write; loading ends in every branch |
| FollowButton.ToggleStarted | src/components/FollowButton.tsx:39 | while the write is in flight the button is loading and the flag is kept |
| FollowButton.Label | src/components/FollowButton.tsx:74 | each of the three labels is shown exactly in its own state |
| FollowButton.ToggleTwice | src/components/FollowButton.tsx:38-70 | two successful toggles restore the flag, one deleting and the other inserting the same edge |
| FollowButton.LabelWhileToggling | src/components/FollowButton.tsx:38-74 | during a toggle the button reads as loading |
| PostStore.NewestFirstPairwise | src/api/posts.ts:23 | in a newest-first list every earlier post is at least as new as every later one |
| PostStore.Insert | src/api/posts.ts:23 | inserting into a newest-first list keeps it newest first and adds one post, at the front or behind the old head |
| PostStore.InsertPermutes | src/api/posts.ts:23 | inserting adds exactly that post to the multiset of posts |
| PostStore.SortNewestFirst | src/api/posts.ts:23 | the sorted list is newest first and as long as the input |
| PostStore.SortPermutes | src/api/posts.ts:23 | sorting is a permutation |
| PostStore.InsertStable | src/api/posts.ts:23 | for every time stamp, inserting keeps the order of the posts with that stamp and puts the new one first |
| PostStore.SortStable | src/api/posts.ts:23 | sorting keeps the input order among posts with equal time stamps |
| PostStore.FetchPosts | src/api/posts.ts:20-24 | the returned array is the store itself, newest first, a permutation of the old store, with equal time stamps in their old order |
| PostStore.CreatePost | src/api/posts.ts:27-39 | the new post has id `length + 1`, author `You`, the content and the time, and the store becomes that post followed by the old store |
| PostStore.InsertIds | src/api/posts.ts:23 | inserting adds exactly the post's id to the multiset of ids |
| PostStore.SortIds | src/api/posts.ts:23 | sorting keeps the multiset of ids |
| PostStore.ApplyKeepsIds | src/api/posts.ts:20-39 | a create or a fetch keeps the ids equal to 1..length |
| PostStore.RunFromValid | src/api/posts.ts:20-39 | any sequence of creates and fetches keeps the ids equal to 1..length |
| PostStore.RunKeepsIds | src/api/posts.ts:4-39 | from the two seed posts, every reachable store has ids exactly 1..length |
| PostStore.IdsMeaning | src/api/posts.ts:31 | ids equal to 1..length means every id is in range, no two posts share one, and every number in range is used |
| PostStore.CreateAfterFetch | src/api/posts.ts:23-37 | after a fetch, a new post is prepended to the sorted store |
| TimelinePage.LoadPosts | src/pages/Timeline.tsx:13-22 | success shows the fetched list, failure keeps the old one, and loading ends either way |
| TimelinePage.HandlePostSubmit | src/pages/Timeline.tsx:27-35 | success puts the new post in front of the unchanged others; failure changes nothing |
| TimelinePage.FailedFirstLoadIsEmpty | src/pages/Timeline.tsx:8-22 | a failed first load leaves the page empty and not loading |
| TimelinePage.PageMirrorsStore | src/pages/Timeline.tsx:29-31 | when the page shows the store, a submission keeps the page equal to the store |
| TimelinePage.FirstLoadShowsSortedStore | src/pages/Timeline.tsx:15-16 | the first load shows the store's own, now sorted, array newest first |
| TimelinePage.SubmitForm | src/components/PostForm.tsx:10-15 | blank text changes nothing; otherwise the new post, with id `length + 1`, heads both store and page, the page keeps its loading flag, and the textarea is cleared |
| PostForm.HandleSubmit | src/components/PostForm.tsx:10-15 | blank text is not sent and stays; other text is sent once, untrimmed, and the textarea is cleared |
| PostForm.SubmitTwiceSendsOnce | src/components/PostForm.tsx:12-14 | two submits without typing send the text at most once |
| PostForm.SendsUntrimmed | src/components/PostForm.tsx:13 | the text is sent with its surrounding spaces |
| PostForm.KeepsBlank | src/components/PostForm.tsx:12 | spaces and a line break are not sent and stay in the textarea |
| AddEvent.HandleSubmit | src/pages/AddEventPage.tsx:19-46 | a missing date, artist or venue raises the notice and calls nothing; otherwise the five fields go verbatim to the procedure, loading ends, and only success notifies and navigates to the user's profile |
| AddEvent.CallOnlyWithRequired | src/pages/AddEventPage.tsx:21-35 | the procedure is called exactly when date, artist and venue are all non-empty, so it never receives an empty required field |
| AddEvent.WhitespacePasses | src/pages/AddEventPage.tsx:21 | whitespace-only artist and venue pass the check, with empty optional fields |
| FollowList.Selection | src/pages/FollowListPage.tsx:24-26 | a path containing `/followers` selects `get_followers` and its title; any other path selects `get_following` |
| FollowList.FetchUsers | src/pages/FollowListPage.tsx:20-37 | without a user id nothing happens; otherwise the selected procedure is called with the id, the title is set, loading ends, an error keeps the users, and success sets them (empty for `null`) |
| FollowList.FollowersAnywhere | src/pages/FollowListPage.tsx:24-26 | any path with `/followers` anywhere in it selects `get_followers` and the followers title |
| FollowList.TitleMatchesProcedure | src/pages/FollowListPage.tsx:24-36 | the procedure called is `get_followers` exactly when the title shown is the followers title |
| FollowList.NoUserStaysLoading | src/pages/FollowListPage.tsx:16-21 | without a user id the page stays loading |
| FollowList.PathExamples | src/pages/FollowListPage.tsx:24 | the followers path selects `get_followers` and the following path does not |
| TimelineFilter.TypeName | src/types.ts:51 | every filter type is one of the four names |
| TimelineFilter.LoadArtists | src/components/TimelineFilter.tsx:20-34 | a successful load replaces the artists; a failure changes nothing |
| TimelineFilter.ToggleMenu | src/components/TimelineFilter.tsx:43 | the button flips the open flag and nothing else |
| TimelineFilter.Menu | src/components/TimelineFilter.tsx:50-58 | the menu holds the three fixed entries, then one entry per artist in order |
| TimelineFilter.EmissionOf | src/components/TimelineFilter.tsx:50-56 | an artist id is passed exactly for artist entries, and it is that artist's id |
| TimelineFilter.Select | src/components/TimelineFilter.tsx:36-39 | a selection emits exactly once and closes the menu |
| TimelineFilter.MenuEmissions | src/components/TimelineFilter.tsx:50-56 | the entries emit `ALL`, `FOLLOWS`, `FAVORITES`, then `ARTIST` with each artist's id in order |
| HomePage.GetProfile | src/pages/HomePage.tsx:25-41 | an error is fatal exactly when its status is not 406; a fatal error or no row changes nothing; otherwise the row sets name and birthday |
| HomePage.FetchPosts | src/pages/HomePage.tsx:44-56 | success replaces the posts; an error keeps them |
| HomePage.LoadAll | src/pages/HomePage.tsx:59-67 | after the first load, loading is over; name and birthday are what the profile step left; the posts are the fetched ones, or the old ones on error |
| HomePage.DisplayName | src/pages/HomePage.tsx:99 | the username when it is non-empty, else `あなた` |
| HomePage.HandlePostCreated | src/pages/HomePage.tsx:94-103 | exactly one post goes in front, with the display name as its author, and nothing else changes |
| HomePage.CreatedPostKeepsFields | src/pages/HomePage.tsx:96-101 | the prepended post keeps every field of the created one except the author, which has a non-empty name |
| HomePage.ProfileErrorStillLoadsPosts | src/pages/HomePage.tsx:59-67 | a fatal profile error does not keep the posts from loading |
| ImageUpload.ExtensionIsTextAfterLastDot | src/components/Avatar.tsx:40 | the extension is the dot-free suffix after the last dot, or the whole name when there is no dot |
| ImageUpload.ExtensionAfterLastDot | src/components/HeaderImageUploader.tsx:39 | whatever precedes the last dot, the extension is what follows it |
| ImageUpload.ExtensionOfPhotoPng | src/components/Avatar.tsx:40 | `photo.png` has extension `png` |
| ImageUpload.ExtensionWithoutDot | src/components/Avatar.tsx:40 | a name without a dot is its own extension |
| ImageUpload.ExtensionAfterTrailingDot | src/components/Avatar.tsx:40 | a name ending in a dot has the empty extension |
| ImageUpload.PathsInUserFolder | src/components/HeaderImageUploader.tsx:42 | both paths start with the user's folder, and a header path never equals the avatar path for the same token and extension |
| ImageUpload.HandleUpload | src/components/Avatar.tsx:31-67 | no file fails with the message and calls nothing; otherwise the first file is uploaded to the path, an upload error stops before the profile update, the image changes exactly when both calls succeed, and uploading ends; the header uploader (HeaderImageUploader.tsx:30-65) takes the same steps under `headers/` and the `header_url` column |

## Left out

- Remote calls (database, procedure calls, storage, edge-function invocation): each is a parameter holding its answer. The Supabase client is not modelled.
- The `spotify-search` edge function, authentication, session handling, profile forms, routing and rendering: outside the handlers modelled here.
- Console logging (`console.error` and `console.warn`, e.g. FollowButton.tsx:25, FavoriteArtistManager.tsx:39 and :50, FollowListPage.tsx:32, TimelineFilter.tsx:28, Timeline.tsx:18 and :33) is not modelled: it does not change any state.
- The `setTimeout` delays in `api/posts.ts`: they only defer the result.
- The `Math.random()` file-name stem is an opaque `token` parameter.
- Times are integers rather than parsed ISO date strings.
- Alerts raised inside a `catch` behind an `instanceof Error` test are not modelled. They appear at FavoriteMusicManager.tsx:42-44, 65, 90, 100; AddEventPage.tsx:42; HomePage.tsx:39, 54; Avatar.tsx:63; HeaderImageUploader.tsx:61. Whether a thrown store error is an `Error` instance is outside the model. The failure itself is still modelled. The fixed and unguarded alerts are part of the handlers' results: FollowButton.tsx:50 and :64, FavoriteArtistManager.tsx:67, FavoriteMusicManager.tsx:74, AddEventPage.tsx:22 and :39.
- The `isLoading`, `isSearching` and `uploading` flags are modelled only where they end a handler. The values set at the start of a call are not modelled, except `FollowButton.ToggleStarted`.
- The disabled-button gating of the follow button is not modelled.
- Lone UTF-16 surrogates cannot be Dafny characters, so the `URIError` that `encodeURIComponent` throws on them is out of reach.
- JSON field values that are not strings are not modelled, and neither is `JSON.stringify`'s text.
- The default content type of the preflight response is not modelled.
- The profile update in `HomePage.tsx` (`updateProfile`) is form plumbing and is not modelled.
- Concurrency between handlers (interleaved awaits, stale responses) is not modelled: each handler runs to completion on the state it started from.
- UriComponent.Encode: its contract gives length bounds only; the alphabet is stated by `UriComponent.EncodeAlphabet` and the inverse by `UriComponent.DecodeEncode`.
