/**
 The three root resolvers of the GraphQL endpoint, as a step function over
 the record store.  Requests are served one at a time, each to completion,
 so a run of requests is a left-to-right fold of `Step`.
 */
module Api {
  import opened Wrappers
  import opened PostStore

  /** The `PostInput` argument of the mutation; `id` is nullable. */
  datatype PostInput = PostInput(id: Option<int>, car: string, manufacturer: string)

  /** The operations of the schema: `post(id)`, `posts`, `submitPost(input)`. */
  datatype Request =
    | PostQuery(id: int)
    | PostsQuery
    | SubmitPost(input: PostInput)

  /** What each operation answers. */
  datatype Response =
    | OnePost(post: Option<Post>)
    | AllPosts(posts: seq<Post>)
    | Submitted(submitted: Post)

  /** True for the two queries, which do not touch the store. */
  predicate IsRead(req: Request)
  {
    !req.SubmitPost?
  }

  /**
   Serves one request against the store, returning the next store and the
   answer.  Queries leave the store alone and answer from it; a mutation
   writes its post at the input id when that id is in range and at the end
   otherwise, answers with the post tagged with that position, and changes
   no other position.
   */
  function Step(s: Store, req: Request): (res: (Store, Response))
    ensures IsRead(req) ==> res.0 == s
    ensures req.PostQuery? ==>
              && res.1.OnePost?
              && (res.1.post.Some? <==> 0 <= req.id < |s|)
              && (res.1.post.Some? ==> res.1.post.value.id == req.id && Untag(res.1.post.value) == s[req.id])
    ensures req.PostsQuery? ==>
              && res.1.AllPosts?
              && |res.1.posts| == |s|
              && (forall i :: 0 <= i < |s| ==> res.1.posts[i].id == i && Untag(res.1.posts[i]) == s[i])
    ensures req.SubmitPost? ==>
              && res.1.Submitted?
              && var p := res.1.submitted;
              && p.id == Target(s, req.input.id)
              && Untag(p) == Record(req.input.car, req.input.manufacturer)
              && |res.0| == (if p.id < |s| then |s| else |s| + 1)
              && 0 <= p.id < |res.0|
              && res.0[p.id] == Untag(p)
              && (forall j :: 0 <= j < |s| && j != p.id ==> res.0[j] == s[j])
  {
    match req
    case PostQuery(id) => (s, OnePost(Get(s, id)))
    case PostsQuery => (s, AllPosts(List(s)))
    case SubmitPost(input) =>
      var (s', p) := Upsert(s, input.id, input.car, input.manufacturer);
      (s', Submitted(p))
  }

  /** Serves a sequence of requests in order, returning the final store and one answer per request. */
  function Run(s: Store, reqs: seq<Request>): (res: (Store, seq<Response>))
    ensures |res.1| == |reqs|
    decreases |reqs|
  {
    if reqs == [] then (s, [])
    else
      var (s1, r) := Step(s, reqs[0]);
      var (s2, rs) := Run(s1, reqs[1..]);
      (s2, [r] + rs)
  }

  /**
   A run made only of queries leaves the store as it was and answers every
   query exactly as if it were served alone; in particular the same query
   asked twice gets the same answer.
   */
  lemma {:induction false} ReadsKeepStore(s: Store, reqs: seq<Request>)
    requires forall i :: 0 <= i < |reqs| ==> IsRead(reqs[i])
    ensures Run(s, reqs).0 == s
    ensures forall i :: 0 <= i < |reqs| ==> Run(s, reqs).1[i] == Step(s, reqs[i]).1
    ensures forall i, j :: 0 <= i < |reqs| && 0 <= j < |reqs| && reqs[i] == reqs[j] ==>
              Run(s, reqs).1[i] == Run(s, reqs).1[j]
    decreases |reqs|
  {
    if reqs != [] {
      ReadsKeepStore(s, reqs[1..]);
      var rs := Run(s, reqs).1;
      forall i | 0 < i < |reqs|
        ensures rs[i] == Step(s, reqs[i]).1
      {
        assert reqs[1..][i - 1] == reqs[i];
      }
    }
  }

  /** Serving `a` and then `b` is serving `a + b`: the second part starts from the store the first part left. */
  lemma {:induction false} RunAppend(s: Store, a: seq<Request>, b: seq<Request>)
    ensures var (s1, rs1) := Run(s, a);
            var (s2, rs2) := Run(s1, b);
            Run(s, a + b) == (s2, rs1 + rs2)
    decreases |a|
  {
    if a == [] {
      assert a + b == b;
      var rs2 := Run(s, b).1;
      assert [] + rs2 == rs2;
    } else {
      assert (a + b)[0] == a[0];
      assert (a + b)[1..] == a[1..] + b;
      var (s0, r) := Step(s, a[0]);
      RunAppend(s0, a[1..], b);
      var (s1, rs1) := Run(s0, a[1..]);
      var rs2 := Run(s1, b).1;
      assert [r] + (rs1 + rs2) == ([r] + rs1) + rs2;
    }
  }

  /** The answer to request `i` is that request served against the store the first `i` requests left. */
  lemma RunIndex(s: Store, reqs: seq<Request>, i: int)
    requires 0 <= i < |reqs|
    ensures Run(s, reqs).1[i] == Step(Run(s, reqs[..i]).0, reqs[i]).1
  {
    assert reqs == reqs[..i] + reqs[i..];
    RunAppend(s, reqs[..i], reqs[i..]);
    assert reqs[i..][0] == reqs[i];
  }

  /**
   Inside any run, possibly containing mutations, a query repeated with only
   queries in between gets the same answer both times.
   */
  lemma RepeatedReadsAgree(s: Store, reqs: seq<Request>, i: int, j: int)
    requires 0 <= i <= j < |reqs|
    requires reqs[i] == reqs[j]
    requires forall k :: i <= k <= j ==> IsRead(reqs[k])
    ensures Run(s, reqs).1[i] == Run(s, reqs).1[j]
  {
    var t := Run(s, reqs[..i]).0;
    RunIndex(s, reqs, i);
    RunIndex(s, reqs, j);
    assert reqs[..j] == reqs[..i] + reqs[i..j];
    RunAppend(s, reqs[..i], reqs[i..j]);
    forall k | 0 <= k < |reqs[i..j]|
      ensures IsRead(reqs[i..j][k])
    {
      assert reqs[i..j][k] == reqs[i + k];
    }
    ReadsKeepStore(t, reqs[i..j]);
  }

  /** Submitting a post and then querying the id it was given returns that same post. */
  lemma SubmitThenQuery(s: Store, input: PostInput)
    ensures var (s1, r1) := Step(s, SubmitPost(input));
            Step(s1, PostQuery(r1.submitted.id)).1 == OnePost(Some(r1.submitted))
  {
  }

  /** From the seed store, a mutation with a null id lands at position 3 and the listing grows to four posts. */
  lemma SeedSubmitAppends(car: string, manufacturer: string)
    ensures var (s1, r1) := Step(Seed(), SubmitPost(PostInput(None, car, manufacturer)));
            && r1 == Submitted(Post(3, car, manufacturer))
            && |List(s1)| == 4
            && List(s1)[..3] == List(Seed())
  {
  }
}
