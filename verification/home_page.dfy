/** `HomePage`: the signed-in user's profile fields and the timeline of
    posts with their authors, likes and comments. */
module HomePage {
  import opened Results

  /** The author fields joined onto a post or comment. */
  datatype Author = Author(username: string, avatarUrl: Option<string>)

  datatype Comment = Comment(id: int, createdAt: int, content: string, userId: string, postId: int, profiles: Option<Author>)

  /** A post as `types.ts` describes it; `likes` holds the liking users' ids. */
  datatype Post = Post(
    id: int, createdAt: int, content: string, userId: string, profiles: Option<Author>,
    songId: Option<string>, songName: Option<string>, artistName: Option<string>, albumArtUrl: Option<string>,
    likes: seq<string>, comments: seq<Comment>)

  /** The `profiles` row fields the page reads. */
  datatype ProfileRow = ProfileRow(username: Option<string>, birthday: Option<string>)

  /** The store's answer to the profile select: the row (if any), whether it
      reported an error, and the HTTP status. */
  datatype ProfileAnswer = ProfileAnswer(data: Option<ProfileRow>, failed: bool, status: int)

  datatype State = State(loading: bool, username: Option<string>, birthday: Option<string>, posts: seq<Post>)

  const Initial: State := State(true, None, None, [])

  /** Shown as the author of a just-created post when the page has no
      username. */
  const FallbackUsername: string := "あなた"

  /** The "no rows" status of a single-row select, which is not an error
      for this page. */
  const NoRowStatus: int := 406

  /** `getProfile`: an error is fatal unless its status is 406; otherwise
      a returned row sets both fields. */
  function GetProfile(s: State, answer: ProfileAnswer): (r: (State, bool))
    ensures r.1 <==> answer.failed && answer.status != NoRowStatus
    ensures r.1 || answer.data.None? ==> r.0 == s
    ensures !r.1 && answer.data.Some? ==>
              r.0 == s.(username := answer.data.value.username, birthday := answer.data.value.birthday)
  {
    if answer.failed && answer.status != NoRowStatus then (s, true)
    else match answer.data
      case Some(row) => (s.(username := row.username, birthday := row.birthday), false)
      case None => (s, false)
  }

  /** `fetchPosts`: the joined posts, newest first as the store orders
      them; on error the current posts stay. */
  function FetchPosts(s: State, answer: Outcome<seq<Post>>): (r: State)
    ensures answer.Ok? ==> r == s.(posts := answer.value)
    ensures answer.Err? ==> r == s
  {
    match answer
    case Ok(data) => s.(posts := data)
    case Err(_) => s
  }

  /** The first load: the profile, then the posts (a fatal profile error is
      caught inside `getProfile`, so the posts are fetched regardless), then
      loading is over. */
  function LoadAll(s: State, profile: ProfileAnswer, posts: Outcome<seq<Post>>): (r: State)
    ensures !r.loading
    ensures posts.Ok? ==> r.posts == posts.value
    ensures posts.Err? ==> r.posts == s.posts
    // The profile step's effect on the name and birthday survives the post fetch.
    ensures var (afterProfile, _) := GetProfile(s.(loading := true), profile);
            r.username == afterProfile.username && r.birthday == afterProfile.birthday
  {
    var (afterProfile, _) := GetProfile(s.(loading := true), profile);
    FetchPosts(afterProfile, posts).(loading := false)
  }

  /** The author name a just-created post is shown with. */
  function DisplayName(username: Option<string>): (name: string)
    ensures username.Some? && username.value != "" ==> name == username.value
    ensures username.None? || username.value == "" ==> name == FallbackUsername
  {
    match username
    case Some(u) => if u != "" then u else FallbackUsername
    case None => FallbackUsername
  }

  /** `handlePostCreated(newPost)`: the post, with its author set to the
      page's username, goes in front; nothing else moves. */
  function HandlePostCreated(s: State, newPost: Post): (r: State)
    ensures |r.posts| == |s.posts| + 1 && r.posts[1..] == s.posts
    ensures r.posts[0] == newPost.(profiles := Some(Author(DisplayName(s.username), None)))
    ensures r.loading == s.loading && r.username == s.username && r.birthday == s.birthday
  {
    var withAuthor := newPost.(profiles := Some(Author(DisplayName(s.username), None)));
    s.(posts := [withAuthor] + s.posts)
  }

  /** The prepended post differs from the created one in its author field
      only. */
  lemma CreatedPostKeepsFields(s: State, newPost: Post)
    ensures var p := HandlePostCreated(s, newPost).posts[0];
            && p.id == newPost.id && p.createdAt == newPost.createdAt
            && p.content == newPost.content && p.userId == newPost.userId
            && p.songId == newPost.songId && p.songName == newPost.songName
            && p.artistName == newPost.artistName && p.albumArtUrl == newPost.albumArtUrl
            && p.likes == newPost.likes && p.comments == newPost.comments
            && p.profiles.Some? && p.profiles.value.username != ""
  {
  }

  /** A fatal profile error does not keep the posts from loading. */
  lemma ProfileErrorStillLoadsPosts(s: State, status: int, posts: seq<Post>)
    requires status != NoRowStatus
    ensures LoadAll(s, ProfileAnswer(None, true, status), Ok(posts)) == s.(loading := false, posts := posts)
  {
  }
}
