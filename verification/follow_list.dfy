/** `FollowListPage`: the followers or the followed users of one profile,
    chosen by the path. */
module FollowList {
  import opened Results
  import JsText

  datatype FollowUser = FollowUser(id: string, username: string, avatarUrl: Option<string>)

  datatype State = State(users: seq<FollowUser>, isLoading: bool, pageTitle: string)

  const Initial: State := State([], true, "")

  /** The procedure call: its name and `p_user_id`. */
  datatype Call = Call(procedure: string, userId: string)

  const FollowersSegment: string := "/followers"
  const FollowersTitle: string := "フォロワー"
  const FollowingTitle: string := "フォロー中"

  /** The procedure and title a path selects. */
  function Selection(pathname: string): (r: (string, string))
    ensures JsText.Includes(pathname, FollowersSegment) ==> r == ("get_followers", FollowersTitle)
    ensures !JsText.Includes(pathname, FollowersSegment) ==> r == ("get_following", FollowingTitle)
  {
    if JsText.Includes(pathname, FollowersSegment) then ("get_followers", FollowersTitle)
    else ("get_following", FollowingTitle)
  }

  /** `fetchUsers` given the route's user id, the path, and the procedure's
      answer (`Ok(None)` is a `null` result). An absent or empty user id
      stops it before anything changes. */
  function FetchUsers(s: State, userId: Option<string>, pathname: string,
                      answer: Outcome<Option<seq<FollowUser>>>): (r: (State, Option<Call>))
    ensures userId.None? || userId == Some("") ==> r == (s, None)
    ensures userId.Some? && userId.value != "" ==>
              && r.1 == Some(Call(Selection(pathname).0, userId.value))
              && r.0.pageTitle == Selection(pathname).1
              && !r.0.isLoading
              && (answer.Err? ==> r.0.users == s.users)
              && (answer.Ok? ==> r.0.users == answer.value.GetOr([]))
  {
    if userId.None? || userId.value == "" then (s, None)
    else
      var (procedure, title) := Selection(pathname);
      var users := match answer
        case Err(_) => s.users
        case Ok(data) => data.GetOr([]);
      (State(users, false, title), Some(Call(procedure, userId.value)))
  }

  /** Any path with `/followers` somewhere in it selects the followers. */
  lemma FollowersAnywhere(p: string, q: string)
    ensures Selection(p + FollowersSegment + q) == ("get_followers", FollowersTitle)
  {
    var path := p + FollowersSegment + q;
    assert path[|p|..|p| + |FollowersSegment|] == FollowersSegment;
    assert JsText.OccursAt(path, FollowersSegment, |p|);
  }

  /** The procedure called and the title shown always agree. */
  lemma TitleMatchesProcedure(s: State, userId: Option<string>, pathname: string,
                              answer: Outcome<Option<seq<FollowUser>>>)
    ensures var r := FetchUsers(s, userId, pathname, answer);
            r.1.Some? ==> (r.1.value.procedure == "get_followers" <==> r.0.pageTitle == FollowersTitle)
    ensures Selection(pathname).0 == "get_followers" <==> Selection(pathname).1 == FollowersTitle
  {
    assert FollowersTitle != FollowingTitle by { assert FollowersTitle[3] != FollowingTitle[3]; }
  }

  /** Without a user id the page stays in its loading state. */
  lemma NoUserStaysLoading(pathname: string, answer: Outcome<Option<seq<FollowUser>>>)
    ensures FetchUsers(Initial, None, pathname, answer).0.isLoading
  {
  }

  /** The followers path selects `get_followers`; the following path, which
      does not contain `/followers`, selects `get_following`. */
  lemma PathExamples()
    ensures Selection("/profile/u1/followers").0 == "get_followers"
    ensures Selection("/profile/u1/following").0 == "get_following"
  {
    assert JsText.OccursAt("/profile/u1/followers", FollowersSegment, 11);
    var path := "/profile/u1/following";
    forall i | 0 <= i <= |path| - |FollowersSegment|
      ensures !JsText.OccursAt(path, FollowersSegment, i)
    {
      assert path[i..i + 10][9] == path[i + 9] != 's';
    }
  }
}
