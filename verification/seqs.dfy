/** Sequence operations of the JavaScript runtime that the client relies on:
    `Array.prototype.filter`, `Array.prototype.join` and
    `String.prototype.split` with a one-character separator. */
module Seqs {

  /** `s.filter(keep)`: the elements that pass, in their original order. */
  function Filter<T>(s: seq<T>, keep: T -> bool): (r: seq<T>)
    ensures |r| <= |s|
    ensures forall i :: 0 <= i < |r| ==> keep(r[i])
  {
    if s == [] then []
    else if keep(s[0]) then [s[0]] + Filter(s[1..], keep)
    else Filter(s[1..], keep)
  }

  /** Every element of the result comes from `s`, and every element of `s`
      that passes is in the result. */
  lemma {:induction false} FilterMembers<T>(s: seq<T>, keep: T -> bool)
    ensures forall i :: 0 <= i < |Filter(s, keep)| ==> Filter(s, keep)[i] in s
    ensures forall i :: 0 <= i < |s| && keep(s[i]) ==> s[i] in Filter(s, keep)
  {
    if s != [] {
      FilterMembers(s[1..], keep);
      var r, t := Filter(s, keep), Filter(s[1..], keep);
      forall i | 0 <= i < |r| ensures r[i] in s {
        if keep(s[0]) && i > 0 {
          assert r[i] == t[i - 1];
        }
      }
      forall i | 0 <= i < |s| && keep(s[i]) ensures s[i] in r {
        if i > 0 {
          assert s[i] == s[1..][i - 1];
        }
      }
    }
  }

  /** Filtering a concatenation filters each part in place, so the survivors
      keep their relative order. */
  lemma {:induction false} FilterConcat<T>(a: seq<T>, b: seq<T>, keep: T -> bool)
    ensures Filter(a + b, keep) == Filter(a, keep) + Filter(b, keep)
  {
    if a == [] {
      assert a + b == b;
    } else {
      assert (a + b)[1..] == a[1..] + b;
      FilterConcat(a[1..], b, keep);
    }
  }

  /** A sequence whose every element passes is returned unchanged. */
  lemma {:induction false} FilterAllKept<T>(s: seq<T>, keep: T -> bool)
    requires forall i :: 0 <= i < |s| ==> keep(s[i])
    ensures Filter(s, keep) == s
  {
    if s != [] {
      FilterAllKept(s[1..], keep);
    }
  }

  /** Filtering twice with the same predicate is filtering once. */
  lemma FilterIdempotent<T>(s: seq<T>, keep: T -> bool)
    ensures Filter(Filter(s, keep), keep) == Filter(s, keep)
  {
    FilterAllKept(Filter(s, keep), keep);
  }

  /** When exactly the element at index k fails, the result is the sequence
      with that one element cut out and everything else in place. */
  lemma FilterDropsOne<T>(s: seq<T>, k: nat, keep: T -> bool)
    requires k < |s|
    requires !keep(s[k])
    requires forall i :: 0 <= i < |s| && i != k ==> keep(s[i])
    ensures Filter(s, keep) == s[..k] + s[k + 1..]
  {
    var pre, post := s[..k], s[k + 1..];
    AroundIndex(s, k);
    FilterKeepsPrefix(s, k, keep);
    FilterKeepsSuffix(s, k + 1, keep);
    calc {
      Filter(s, keep);
      Filter(pre + ([s[k]] + post), keep);
      { FilterConcat(pre, [s[k]] + post, keep); }
      Filter(pre, keep) + Filter([s[k]] + post, keep);
      { FilterSkipsHead(s[k], post, keep); }
      pre + post;
    }
  }

  /** A sequence is what comes before index k, the element there, and what
      comes after it. */
  lemma AroundIndex<T>(s: seq<T>, k: nat)
    requires k < |s|
    ensures s == s[..k] + ([s[k]] + s[k + 1..])
  {
  }

  lemma FilterSkipsHead<T>(x: T, s: seq<T>, keep: T -> bool)
    requires !keep(x)
    ensures Filter([x] + s, keep) == Filter(s, keep)
  {
    assert ([x] + s)[1..] == s;
  }

  /** A prefix whose every element passes is returned unchanged. */
  lemma FilterKeepsPrefix<T>(s: seq<T>, k: nat, keep: T -> bool)
    requires k <= |s|
    requires forall i :: 0 <= i < k ==> keep(s[i])
    ensures Filter(s[..k], keep) == s[..k]
  {
    var t := s[..k];
    forall i | 0 <= i < |t| ensures keep(t[i]) {
      assert t[i] == s[i];
    }
    FilterAllKept(t, keep);
  }

  /** A suffix whose every element passes is returned unchanged. */
  lemma FilterKeepsSuffix<T>(s: seq<T>, k: nat, keep: T -> bool)
    requires k <= |s|
    requires forall i :: k <= i < |s| ==> keep(s[i])
    ensures Filter(s[k..], keep) == s[k..]
  {
    var t := s[k..];
    forall i | 0 <= i < |t| ensures keep(t[i]) {
      assert t[i] == s[k + i];
    }
    FilterAllKept(t, keep);
  }

  /** `parts.join(sep)`: the parts in order with `sep` between neighbours. */
  function Join<T>(parts: seq<seq<T>>, sep: seq<T>): seq<T>
  {
    if parts == [] then []
    else if |parts| == 1 then parts[0]
    else parts[0] + sep + Join(parts[1..], sep)
  }

  /** Joining one more part appends the separator and that part at the end. */
  lemma {:induction false} JoinSnoc<T>(parts: seq<seq<T>>, last: seq<T>, sep: seq<T>)
    requires parts != []
    ensures Join(parts + [last], sep) == Join(parts, sep) + sep + last
  {
    if |parts| == 1 {
      assert parts + [last] == [parts[0], last];
    } else {
      assert (parts + [last])[1..] == parts[1..] + [last];
      JoinSnoc(parts[1..], last, sep);
    }
  }

  /** The joined length is the parts' lengths plus one separator per gap. */
  function TotalLength<T>(parts: seq<seq<T>>): nat
  {
    if parts == [] then 0 else |parts[0]| + TotalLength(parts[1..])
  }

  lemma {:induction false} JoinLength<T>(parts: seq<seq<T>>, sep: seq<T>)
    requires parts != []
    ensures |Join(parts, sep)| == TotalLength(parts) + (|parts| - 1) * |sep|
  {
    if |parts| > 1 {
      JoinLength(parts[1..], sep);
    }
  }

  /** `s.split(d)` for a one-character separator: always at least one
      segment. */
  function Split<T(==)>(s: seq<T>, d: T): (r: seq<seq<T>>)
    ensures |r| >= 1
  {
    if s == [] then [[]]
    else
      var rest := Split(s[1..], d);
      if s[0] == d then [[]] + rest
      else [[s[0]] + rest[0]] + rest[1..]
  }

  /** Splitting and joining back with the same separator gives the input. */
  lemma {:induction false} SplitJoin<T>(s: seq<T>, d: T)
    ensures Join(Split(s, d), [d]) == s
  {
    if s != [] {
      SplitJoin(s[1..], d);
      var rest := Split(s[1..], d);
      if s[0] != d {
        if |rest| == 1 {
          assert Split(s, d) == [[s[0]] + rest[0]];
        } else {
          assert Split(s, d)[1..] == rest[1..];
          assert Join(Split(s, d), [d]) == [s[0]] + (rest[0] + [d] + Join(rest[1..], [d]));
        }
      } else {
        assert Split(s, d)[1..] == rest;
      }
    }
  }

  function Last<T>(s: seq<T>): T
    requires s != []
  {
    s[|s| - 1]
  }

  /** `s.split(d)` has a single segment exactly when `d` does not occur. */
  lemma {:induction false} SplitSingle<T>(s: seq<T>, d: T)
    ensures |Split(s, d)| == 1 <==> d !in s
  {
    if s != [] {
      SplitSingle(s[1..], d);
      assert s == [s[0]] + s[1..];
    }
  }

  /** No segment of a split holds the separator. */
  lemma {:induction false} SplitSegmentsFree<T>(s: seq<T>, d: T)
    ensures forall i :: 0 <= i < |Split(s, d)| ==> d !in Split(s, d)[i]
  {
    if s != [] {
      SplitSegmentsFree(s[1..], d);
    }
  }

  lemma LastSplitStep<T>(s: seq<T>, d: T)
    requires s != []
    ensures var rest := Split(s[1..], d);
            Last(Split(s, d)) == if s[0] != d && |rest| == 1 then [s[0]] + rest[0] else Last(rest)
  {
    var rest := Split(s[1..], d);
    if s[0] == d {
      assert Split(s, d) == [[]] + rest;
    } else {
      assert Split(s, d) == [[s[0]] + rest[0]] + rest[1..];
    }
  }

  /** `e` is the tail of `s` after its last `d`: the whole of `s` when there
      is no `d`, empty when `s` ends in one. */
  predicate TailAfterLast<T(==)>(s: seq<T>, d: T, e: seq<T>)
  {
    && |e| <= |s| && e == s[|s| - |e|..]
    && d !in e
    && (|e| == |s| || s[|s| - |e| - 1] == d)
  }

  /** The last segment of `s.split(d)` is the tail of `s` after its last `d`. */
  lemma {:induction false} LastSplitIsTail<T>(s: seq<T>, d: T)
    ensures TailAfterLast(s, d, Last(Split(s, d)))
  {
    if s != [] {
      LastSplitIsTail(s[1..], d);
      if s[0] != d && |Split(s[1..], d)| == 1 {
        LastSplitWhole(s, d);
      } else {
        LastSplitBehindHead(s, d);
      }
    }
  }

  /** No separator after a non-separator head: the one segment is all of `s`. */
  lemma LastSplitWhole<T>(s: seq<T>, d: T)
    requires s != [] && s[0] != d && |Split(s[1..], d)| == 1
    ensures Last(Split(s, d)) == s && TailAfterLast(s, d, s)
  {
    var t := s[1..];
    LastSplitStep(s, d);
    SplitJoin(t, d);
    SplitSingle(t, d);
    assert [s[0]] + t == s;
    assert s[0..] == s;
  }

  /** Otherwise the last segment is that of the tail, which is a suffix of
      `s` too. */
  lemma LastSplitBehindHead<T>(s: seq<T>, d: T)
    requires s != []
    requires s[0] == d || |Split(s[1..], d)| != 1
    requires TailAfterLast(s[1..], d, Last(Split(s[1..], d)))
    ensures TailAfterLast(s, d, Last(Split(s, d)))
  {
    var t := s[1..];
    var e := Last(Split(t, d));
    LastSplitStep(s, d);
    if s[0] != d {
      assert |e| < |t| by {
        if |e| == |t| {
          assert e == t;
          SplitSingle(t, d);
        }
      }
    }
    TailAfterLastCons(s, d, e);
  }

  /** A tail after the last `d` of `s[1..]` is one of `s` as well, unless it
      is all of `s[1..]` and `s` starts with something else. */
  lemma TailAfterLastCons<T>(s: seq<T>, d: T, e: seq<T>)
    requires s != [] && TailAfterLast(s[1..], d, e)
    requires s[0] == d || |e| < |s| - 1
    ensures TailAfterLast(s, d, e)
  {
    var t := s[1..];
    assert t[|t| - |e|..] == s[|s| - |e|..];
    if |e| < |t| {
      assert s[|s| - |e| - 1] == t[|t| - |e| - 1];
    }
  }
}
