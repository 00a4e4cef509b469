/** `pages/Timeline.tsx`: the page over the in-memory post store. */
module TimelinePage {
  import opened Results
  import PostStore
  import PostForm
  import JsText

  type Post = PostStore.Post

  datatype State = State(posts: seq<Post>, loading: bool)

  /** Before the first load: no posts, loading. */
  const Initial: State := State([], true)

  /** `loadPosts` given what `fetchPosts` produced: the fetched list on
      success, the old list on failure, and loading over either way. */
  function LoadPosts(s: State, fetched: Outcome<seq<Post>>): (r: State)
    ensures fetched.Ok? ==> r.posts == fetched.value
    ensures fetched.Err? ==> r.posts == s.posts
    ensures !r.loading
  {
    match fetched
    case Ok(data) => State(data, false)
    case Err(_) => s.(loading := false)
  }

  /** `handlePostSubmit` given what `createPost` produced: the new post in
      front of the others on success, nothing changed on failure. */
  function HandlePostSubmit(s: State, created: Outcome<Post>): (r: State)
    ensures created.Ok? ==> r.posts == [created.value] + s.posts
    ensures created.Err? ==> r == s
    ensures r.loading == s.loading
  {
    match created
    case Ok(post) => s.(posts := [post] + s.posts)
    case Err(_) => s
  }

  /** A failed first load leaves the page empty. */
  lemma FailedFirstLoadIsEmpty(message: string)
    ensures LoadPosts(Initial, Err(message)) == State([], false)
  {
  }

  /** After a successful load, each successful submission keeps the page
      equal to the store: both put the same post in front. */
  lemma PageMirrorsStore(page: State, store: seq<Post>, content: string, now: int)
    requires page.posts == store
    ensures var (store', post) := PostStore.CreatePost(store, content, now);
            HandlePostSubmit(page, Ok(post)).posts == store'
  {
  }

  /** The first load shows the store sorted newest first, and so does the
      store itself afterwards. */
  lemma FirstLoadShowsSortedStore(store: seq<Post>)
    ensures var (store', fetched) := PostStore.FetchPosts(store);
            && LoadPosts(Initial, Ok(fetched)).posts == store'
            && PostStore.NewestFirst(LoadPosts(Initial, Ok(fetched)).posts)
  {
  }

  /** The page, the module-level store and the page's textarea together. */
  datatype Screen = Screen(page: State, store: seq<Post>, textarea: string)

  /** Submitting the form on this page: the form hands non-blank text to
      `handlePostSubmit`, which calls `createPost` (which cannot fail) at
      time `now`. */
  function SubmitForm(w: Screen, now: int): (r: Screen)
    ensures JsText.IsBlank(w.textarea) ==> r == w
    ensures !JsText.IsBlank(w.textarea) ==>
              var post := PostStore.Post(|w.store| + 1, PostStore.NewPostAuthor, w.textarea, now);
              && r.textarea == ""
              && r.store == [post] + w.store
              && r.page.posts == [post] + w.page.posts
              && r.page.loading == w.page.loading
  {
    var form := PostForm.HandleSubmit(w.textarea);
    if form.sent == [] then w.(textarea := form.content)
    else
      var (store', post) := PostStore.CreatePost(w.store, form.sent[0], now);
      Screen(HandlePostSubmit(w.page, Ok(post)), store', form.content)
  }
}
