/** Newest-first ordering of requests, shared by `getAllRequests` on the
    server and the home page's `sortedRequests`: both sort with the
    comparator `b.createdAt - a.createdAt`, and JavaScript's sort is stable. */
module Recency {
  import opened Schema

  /** Non-increasing creation time from front to back. */
  predicate NewestFirst(s: seq<Request>) {
    forall i, j :: 0 <= i < j < |s| ==> s[i].createdAt >= s[j].createdAt
  }

  /** Inserts `x` into a newest-first list ahead of every request that is
      not newer than it, so `x` keeps its place before equal time stamps. */
  function Insert(x: Request, s: seq<Request>): (r: seq<Request>)
    ensures multiset(r) == multiset(s) + multiset{x}
    ensures |r| == |s| + 1
  {
    if |s| == 0 || x.createdAt >= s[0].createdAt then [x] + s
    else
      assert s == [s[0]] + s[1..];
      [s[0]] + Insert(x, s[1..])
  }

  /** Inserting into a newest-first list keeps it newest-first. */
  lemma {:induction false} InsertNewestFirst(x: Request, s: seq<Request>)
    requires NewestFirst(s)
    ensures NewestFirst(Insert(x, s))
  {
    if |s| > 0 && x.createdAt < s[0].createdAt {
      var rest := Insert(x, s[1..]);
      InsertNewestFirst(x, s[1..]);
      var r := [s[0]] + rest;
      forall i | 0 < i < |r|
        ensures r[i].createdAt <= s[0].createdAt
      {
        assert r[i] == rest[i - 1];
        assert r[i] in multiset(rest);
        assert r[i] == x || r[i] in multiset(s[1..]);
      }
    }
  }

  /** A stable sort into newest-first order. */
  function SortNewestFirst(s: seq<Request>): (r: seq<Request>)
    ensures NewestFirst(r)
    ensures multiset(r) == multiset(s)
    ensures |r| == |s|
  {
    if |s| == 0 then []
    else
      assert s == [s[0]] + s[1..];
      var rest := SortNewestFirst(s[1..]);
      InsertNewestFirst(s[0], rest);
      Insert(s[0], rest)
  }
}
