/** `api/posts.ts`: an in-memory stand-in for the post backend. The module
    keeps one array; `fetchPosts` sorts it in place, newest first, and
    returns it; `createPost` prepends a new post. Timestamps are
    milliseconds since the epoch, supplied by the caller in place of the
    clock. */
module PostStore {
  import opened Seqs

  datatype Post = Post(id: int, author: string, content: string, createdAt: int)

  const NewPostAuthor: string := "You"

  /** The two seed posts; both take their time from the clock at load. */
  function InitialStore(t1: int, t2: int): seq<Post>
  {
    [Post(1, "Taro", "Reactの学習を始めました！", t1),
     Post(2, "Jiro", "Viteは本当に速いですね。", t2)]
  }

  /** Non-increasing creation time from front to back, stated on
      neighbours; `NewestFirstPairwise` gives it for every pair. */
  predicate NewestFirst(s: seq<Post>)
  {
    |s| <= 1 || (s[0].createdAt >= s[1].createdAt && NewestFirst(s[1..]))
  }

  lemma {:induction false} NewestFirstPairwise(s: seq<Post>)
    requires NewestFirst(s)
    ensures forall i, j :: 0 <= i < j < |s| ==> s[i].createdAt >= s[j].createdAt
  {
    if |s| > 1 {
      NewestFirstPairwise(s[1..]);
      forall i, j | 0 <= i < j < |s| ensures s[i].createdAt >= s[j].createdAt {
        if i > 0 {
          assert s[i] == s[1..][i - 1] && s[j] == s[1..][j - 1];
        } else if j > 1 {
          assert s[1] == s[1..][0] && s[j] == s[1..][j - 1];
        }
      }
    }
  }

  /** The posts created at time `t`, in their order in `s`. */
  function CreatedAt(s: seq<Post>, t: int): seq<Post>
  {
    Filter(s, (p: Post) => p.createdAt == t)
  }

  /** Places `p` into a newest-first sequence before the first post that is
      not newer than it. */
  function Insert(p: Post, sorted: seq<Post>): (r: seq<Post>)
    requires NewestFirst(sorted)
    ensures NewestFirst(r)
    ensures |r| == |sorted| + 1
    ensures r[0] == p || (sorted != [] && r[0] == sorted[0])
  {
    if sorted == [] || sorted[0].createdAt <= p.createdAt then
      ConsNewestFirst(p, sorted);
      [p] + sorted
    else
      var rest := Insert(p, sorted[1..]);
      ConsNewestFirst(sorted[0], rest);
      [sorted[0]] + rest
  }

  /** A post no older than the head of a newest-first sequence can go in
      front of it. */
  lemma ConsNewestFirst(h: Post, s: seq<Post>)
    requires NewestFirst(s)
    requires s != [] ==> s[0].createdAt <= h.createdAt
    ensures NewestFirst([h] + s)
  {
    assert ([h] + s)[1..] == s;
  }

  lemma {:induction false} InsertPermutes(p: Post, sorted: seq<Post>)
    requires NewestFirst(sorted)
    ensures multiset(Insert(p, sorted)) == multiset(sorted) + multiset{p}
  {
    if sorted != [] && sorted[0].createdAt > p.createdAt {
      InsertPermutes(p, sorted[1..]);
      assert sorted == [sorted[0]] + sorted[1..];
    }
  }

  /** Insertion sort, newest first; equal times keep their input order, as
      the stable `Array.prototype.sort` does with the comparator
      `b.createdAt - a.createdAt`. */
  function SortNewestFirst(s: seq<Post>): (r: seq<Post>)
    ensures NewestFirst(r)
    ensures |r| == |s|
  {
    if s == [] then []
    else Insert(s[0], SortNewestFirst(s[1..]))
  }

  lemma {:induction false} SortPermutes(s: seq<Post>)
    ensures multiset(SortNewestFirst(s)) == multiset(s)
  {
    if s != [] {
      SortPermutes(s[1..]);
      InsertPermutes(s[0], SortNewestFirst(s[1..]));
      assert s == [s[0]] + s[1..];
    }
  }

  /** Inserting keeps, for every time stamp, the order of the posts with
      that time stamp, with `p` ahead of the ones already there. */
  lemma {:induction false} InsertStable(p: Post, sorted: seq<Post>, t: int)
    requires NewestFirst(sorted)
    ensures CreatedAt(Insert(p, sorted), t)
            == if p.createdAt == t then [p] + CreatedAt(sorted, t) else CreatedAt(sorted, t)
  {
    var keep := (q: Post) => q.createdAt == t;
    if sorted == [] || sorted[0].createdAt <= p.createdAt {
      assert ([p] + sorted)[1..] == sorted;
    } else {
      var r := [sorted[0]] + Insert(p, sorted[1..]);
      assert r[1..] == Insert(p, sorted[1..]);
      InsertStable(p, sorted[1..], t);
    }
  }

  lemma {:induction false} SortStable(s: seq<Post>, t: int)
    ensures CreatedAt(SortNewestFirst(s), t) == CreatedAt(s, t)
  {
    if s != [] {
      SortStable(s[1..], t);
      InsertStable(s[0], SortNewestFirst(s[1..]), t);
    }
  }

  /** `fetchPosts()`: the store after the call and the array returned,
      which are the same array. */
  function FetchPosts(store: seq<Post>): (r: (seq<Post>, seq<Post>))
    ensures r.0 == r.1
    ensures NewestFirst(r.1)
    ensures multiset(r.1) == multiset(store)
    ensures forall t :: CreatedAt(r.1, t) == CreatedAt(store, t)
  {
    var sorted := SortNewestFirst(store);
    SortPermutes(store);
    assert forall t :: CreatedAt(sorted, t) == CreatedAt(store, t) by {
      forall t { SortStable(store, t); }
    }
    (sorted, sorted)
  }

  /** `createPost(content)` at time `now`: the store after the call and the
      post returned. */
  function CreatePost(store: seq<Post>, content: string, now: int): (r: (seq<Post>, Post))
    ensures r.1 == Post(|store| + 1, NewPostAuthor, content, now)
    ensures r.0 == [r.1] + store
  {
    var post := Post(|store| + 1, NewPostAuthor, content, now);
    ([post] + store, post)
  }

  // ---------------------------------------------------------------------
  // Identifiers.

  function Ids(s: seq<Post>): seq<int>
  {
    if s == [] then [] else [s[0].id] + Ids(s[1..])
  }

  lemma {:induction false} IdsAt(s: seq<Post>)
    ensures |Ids(s)| == |s|
    ensures forall i :: 0 <= i < |s| ==> Ids(s)[i] == s[i].id
  {
    if s != [] {
      IdsAt(s[1..]);
    }
  }

  lemma IdsCons(h: Post, t: seq<Post>)
    ensures multiset(Ids([h] + t)) == multiset{h.id} + multiset(Ids(t))
  {
    assert ([h] + t)[1..] == t;
  }

  /** The numbers 1 to n, each once. */
  function OneTo(n: nat): multiset<int>
  {
    if n == 0 then multiset{} else OneTo(n - 1) + multiset{n}
  }

  /** The ids of the store are exactly 1 to its length, each once. */
  predicate IdsAreOneToN(s: seq<Post>)
  {
    multiset(Ids(s)) == OneTo(|s|)
  }

  lemma {:induction false} OneToCounts(n: nat, x: int)
    ensures OneTo(n)[x] == if 1 <= x <= n then 1 else 0
  {
    if n > 0 {
      OneToCounts(n - 1, x);
    }
  }

  lemma {:induction false} InsertIds(p: Post, sorted: seq<Post>)
    requires NewestFirst(sorted)
    ensures multiset(Ids(Insert(p, sorted))) == multiset(Ids(sorted)) + multiset{p.id}
    decreases |sorted|, 1
  {
    if sorted == [] || sorted[0].createdAt <= p.createdAt {
      assert Insert(p, sorted) == [p] + sorted;
      IdsCons(p, sorted);
    } else {
      InsertIdsBehind(p, sorted);
    }
  }

  lemma {:induction false} InsertIdsBehind(p: Post, sorted: seq<Post>)
    requires NewestFirst(sorted)
    requires sorted != [] && sorted[0].createdAt > p.createdAt
    ensures multiset(Ids(Insert(p, sorted))) == multiset(Ids(sorted)) + multiset{p.id}
    decreases |sorted|, 0
  {
    var tail := sorted[1..];
    InsertIds(p, tail);
    InsertBehindHead(p, sorted);
    IdsBehindHead(sorted[0], tail, Insert(p, tail), p.id);
    assert [sorted[0]] + tail == sorted;
  }

  /** A post older than the head goes somewhere behind it. */
  lemma InsertBehindHead(p: Post, sorted: seq<Post>)
    requires NewestFirst(sorted)
    requires sorted != [] && sorted[0].createdAt > p.createdAt
    ensures Insert(p, sorted) == [sorted[0]] + Insert(p, sorted[1..])
  {
  }

  /** One id added behind the head: the step of `InsertIds`. */
  lemma IdsBehindHead(h: Post, tail: seq<Post>, rest: seq<Post>, id: int)
    requires multiset(Ids(rest)) == multiset(Ids(tail)) + multiset{id}
    ensures multiset(Ids([h] + rest)) == multiset(Ids([h] + tail)) + multiset{id}
  {
    IdsCons(h, rest);
    IdsCons(h, tail);
  }

  lemma {:induction false} SortIds(s: seq<Post>)
    decreases |s|
    ensures multiset(Ids(SortNewestFirst(s))) == multiset(Ids(s))
  {
    if s != [] {
      SortIds(s[1..]);
      InsertIds(s[0], SortNewestFirst(s[1..]));
    }
  }

  /** The calls that change the store. */
  datatype StoreCall = Create(content: string, now: int) | Fetch

  function Apply(store: seq<Post>, call: StoreCall): seq<Post>
  {
    match call
    case Create(content, now) => CreatePost(store, content, now).0
    case Fetch => FetchPosts(store).0
  }

  function Run(store: seq<Post>, calls: seq<StoreCall>): seq<Post>
    decreases |calls|
  {
    if calls == [] then store else Run(Apply(store, calls[0]), calls[1..])
  }

  /** Each call keeps the ids equal to 1..length. */
  lemma ApplyKeepsIds(store: seq<Post>, call: StoreCall)
    requires IdsAreOneToN(store)
    ensures IdsAreOneToN(Apply(store, call))
  {
    match call
    case Create(content, now) =>
      IdsCons(CreatePost(store, content, now).1, store);
    case Fetch =>
      SortIds(store);
  }

  /** From the seed store, any sequence of calls keeps the ids equal to
      1..length. */
  lemma {:induction false} RunKeepsIds(t1: int, t2: int, calls: seq<StoreCall>)
    ensures IdsAreOneToN(Run(InitialStore(t1, t2), calls))
  {
    var seed := InitialStore(t1, t2);
    IdsCons(seed[0], seed[1..]);
    IdsCons(seed[1], []);
    assert seed[1..] == [seed[1]] + [];
    assert [seed[0]] + seed[1..] == seed;
    RunFromValid(InitialStore(t1, t2), calls);
  }

  lemma {:induction false} RunFromValid(store: seq<Post>, calls: seq<StoreCall>)
    requires IdsAreOneToN(store)
    ensures IdsAreOneToN(Run(store, calls))
    decreases |calls|
  {
    if calls != [] {
      ApplyKeepsIds(store, calls[0]);
      RunFromValid(Apply(store, calls[0]), calls[1..]);
    }
  }

  /** What the invariant means: every id lies in 1..length, no two posts
      share an id, and every number in 1..length is some post's id. */
  lemma IdsMeaning(s: seq<Post>)
    requires IdsAreOneToN(s)
    ensures forall i :: 0 <= i < |s| ==> 1 <= s[i].id <= |s|
    ensures forall i, j :: 0 <= i < j < |s| ==> s[i].id != s[j].id
    ensures forall x :: 1 <= x <= |s| ==> x in Ids(s)
  {
    var ids := Ids(s);
    IdsAt(s);
    forall i | 0 <= i < |s| ensures 1 <= s[i].id <= |s| {
      assert ids[i] in multiset(ids);
      OneToCounts(|s|, ids[i]);
    }
    forall i, j | 0 <= i < j < |s| ensures s[i].id != s[j].id {
      if ids[i] == ids[j] {
        TwiceCounted(ids, i, j);
        OneToCounts(|s|, ids[i]);
      }
    }
    forall x | 1 <= x <= |s| ensures x in ids {
      OneToCounts(|s|, x);
      assert x in multiset(ids);
    }
  }

  lemma TwiceCounted(q: seq<int>, i: nat, j: nat)
    requires i < j < |q| && q[i] == q[j]
    ensures multiset(q)[q[i]] >= 2
  {
    assert q == q[..j] + [q[j]] + q[j + 1..];
    assert q[i] in q[..j];
  }

  /** Because `fetchPosts` sorts the module's own array, a later
      `createPost` puts the new post in front of the sorted posts. */
  lemma CreateAfterFetch(store: seq<Post>, content: string, now: int)
    ensures var sorted := FetchPosts(store).0;
            CreatePost(sorted, content, now).0 == [Post(|store| + 1, NewPostAuthor, content, now)] + SortNewestFirst(store)
  {
    assert |SortNewestFirst(store)| == |store| by {
      assert |multiset(SortNewestFirst(store))| == |multiset(store)|;
    }
  }
}
