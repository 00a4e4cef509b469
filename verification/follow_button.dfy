/** `FollowButton`: whether the signed-in user follows the profile on
    screen, as two flags. */
module FollowButton {
  import opened Results

  datatype State = State(isFollowing: bool, isLoading: bool)

  /** Before the first check: not following, loading. */
  const Initial: State := State(false, true)

  /** A `followers` edge. */
  datatype Edge = Edge(followerId: string, followingId: string)

  /** The write a toggle sends: delete the edge, or insert it. */
  datatype Write = DeleteEdge(edge: Edge) | InsertEdge(edge: Edge)

  const LoadingLabel: string := "読み込み中..."
  const FollowingLabel: string := "フォロー中"
  const FollowLabel: string := "フォローする"

  /** The alerts a failed write raises. */
  const UnfollowFailedMessage: string := "アンフォローに失敗しました。"
  const FollowFailedMessage: string := "フォローに失敗しました。"

  /** `checkFollowStatus` given the store's answer to the select: following
      exactly when a row matched; on error the flag is kept. */
  function CheckStatus(s: State, rows: Outcome<seq<Edge>>): (r: State)
    ensures rows.Ok? ==> (r.isFollowing <==> |rows.value| > 0)
    ensures rows.Err? ==> r.isFollowing == s.isFollowing
    ensures !r.isLoading
  {
    match rows
    case Err(_) => s.(isLoading := false)
    case Ok(data) => State(|data| > 0, false)
  }

  /** `toggleFollow` given the store's answer to the write it sends: the
      new state, the write, and the alert raised (if any). */
  function Toggle(s: State, me: string, target: string, answer: Outcome<Unit>): (r: (State, Write, Option<string>))
    ensures s.isFollowing ==> r.1 == DeleteEdge(Edge(me, target))
    ensures !s.isFollowing ==> r.1 == InsertEdge(Edge(me, target))
    ensures answer.Ok? ==> r.0.isFollowing == !s.isFollowing && r.2 == None
    ensures answer.Err? ==> r.0.isFollowing == s.isFollowing
    ensures answer.Err? ==> r.2 == Some(if s.isFollowing then UnfollowFailedMessage else FollowFailedMessage)
    ensures !r.0.isLoading
  {
    var edge := Edge(me, target);
    match answer
    case Ok(_) =>
      if s.isFollowing then (State(false, false), DeleteEdge(edge), None)
      else (State(true, false), InsertEdge(edge), None)
    case Err(_) =>
      if s.isFollowing then (State(true, false), DeleteEdge(edge), Some(UnfollowFailedMessage))
      else (State(false, false), InsertEdge(edge), Some(FollowFailedMessage))
  }

  /** The state while the toggle's write is in flight. */
  function ToggleStarted(s: State): (r: State)
    ensures r.isLoading && r.isFollowing == s.isFollowing
  {
    s.(isLoading := true)
  }

  /** The button's text. */
  function Label(s: State): (l: string)
    ensures l == LoadingLabel <==> s.isLoading
    ensures l == FollowingLabel <==> !s.isLoading && s.isFollowing
    ensures l == FollowLabel <==> !s.isLoading && !s.isFollowing
  {
    if s.isLoading then LoadingLabel
    else if s.isFollowing then FollowingLabel
    else FollowLabel
  }

  /** Two successful toggles bring the flag back, having first deleted and
      then re-inserted the edge (or the other way round). */
  lemma ToggleTwice(s: State, me: string, target: string)
    ensures var (s1, w1, _) := Toggle(s, me, target, Ok(Unit));
            var (s2, w2, _) := Toggle(s1, me, target, Ok(Unit));
            && s2 == s.(isLoading := false)
            && w1.edge == w2.edge
            && w1.DeleteEdge? == w2.InsertEdge?
  {
  }

  /** While a toggle is in flight the button reads as loading. */
  lemma LabelWhileToggling(s: State)
    ensures Label(ToggleStarted(s)) == LoadingLabel
  {
  }
}
