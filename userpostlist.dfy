/** One author's posts on their profile (src/components/UserPostList.tsx):
    the list (null until fetched), newest first from the query, with live
    inserts prepended and live deletes filtered out. */
module UserPostList {
  import opened Common
  import opened Entities

  /** `r` is `xs` with some elements left out, the rest in their order. */
  predicate IsSubsequence<T(==)>(r: seq<T>, xs: seq<T>)
    decreases |xs|
  {
    if r == [] then true
    else if xs == [] then false
    else (r[0] == xs[0] && IsSubsequence(r[1..], xs[1..])) || IsSubsequence(r, xs[1..])
  }

  /** Filtering by a key keeps the survivors in their order. */
  lemma {:induction false} WithoutIsSubsequence(xs: seq<Post>, k: nat)
    ensures IsSubsequence(Without(xs, PostId, k), xs)
    decreases |xs|
  {
    if xs != [] {
      WithoutIsSubsequence(xs[1..], k);
      var rest := Without(xs[1..], PostId, k);
      if PostId(xs[0]) != k {
        var r := [xs[0]] + rest;
        assert r[0] == xs[0] && r[1..] == rest;
      } else {
        assert Without(xs, PostId, k) == rest;
      }
    }
  }

  /** `[p, ...(prev ?? [])]`: in front, with no check for a listed id. */
  function PrependPost(posts: Option<seq<Post>>, p: Post): (r: Option<seq<Post>>)
    ensures r.Some? && |r.value| == |posts.GetOr([])| + 1
    ensures r.value[0] == p && r.value[1..] == posts.GetOr([])
  {
    Some([p] + posts.GetOr([]))
  }

  /** `prev ? prev.filter(p => p.id !== id) : prev`. */
  function DropPost(posts: Option<seq<Post>>, id: nat): (r: Option<seq<Post>>)
    ensures r.None? <==> posts.None?
    ensures r.Some? ==> !HasKey(r.value, PostId, id) && IsSubsequence(r.value, posts.value)
    ensures r.Some? ==> forall p :: p in r.value <==> p in posts.value && p.id != id
  {
    if posts.None? then None
    else
      WithoutIsSubsequence(posts.value, id);
      Some(Without(posts.value, PostId, id))
  }

  /** What the list shows. */
  datatype ListView = LoadingView | EmptyView | PostsView(posts: seq<Post>)

  /** `Loading posts…` while loading, `No posts yet.` for a null or empty
      list, the posts otherwise. */
  function Render(loading: bool, posts: Option<seq<Post>>): (v: ListView)
    ensures v.LoadingView? <==> loading
    ensures v.PostsView? <==> !loading && posts.Some? && posts.value != []
    ensures v.PostsView? ==> v.posts == posts.value
  {
    if loading then LoadingView
    else if posts.None? || posts.value == [] then EmptyView
    else PostsView(posts.value)
  }

  /** The component's state, one field per `useState`. Each event is a
      method whose `modifies` clause names exactly the fields it may change
      and whose `ensures` give their new values; every other field keeps its
      value. */
  class Posts {
    const userId: string
    var posts: Option<seq<Post>>
    var loading: bool

    constructor (userId: string)
      ensures this.userId == userId
      ensures posts.None? && loading
    {
      this.userId := userId;
      posts, loading := None, true;
    }

    /** fetchPosts with the query's outcome: an error gives an empty list, a
        success its rows (empty when the data is null); loading ends false. */
    method Fetched(failed: bool, data: Option<seq<Post>>)
      modifies this`posts, this`loading
      ensures posts == Some(if failed then [] else data.GetOr([])) && !loading
    {
      loading := true;
      if failed {
        posts := Some([]);
      } else {
        posts := Some(data.GetOr([]));
      }
      loading := false;
    }

    /** A live insert of one of this author's posts. */
    method LiveInserted(p: Post)
      modifies this`posts
      ensures posts == PrependPost(old(posts), p)
    {
      posts := PrependPost(posts, p);
    }

    /** A live delete of one of this author's posts. */
    method LiveDeleted(id: nat)
      modifies this`posts
      ensures posts == DropPost(old(posts), id)
    {
      posts := DropPost(posts, id);
    }
  }
}
