/**
  The post feed (frontend/src/components/Feed.js): it loads page 1 afresh on every refresh and
  on Retry, appends the next page on Load More, and merges the updates its post cards report.
  The lemmas at the end follow the feed along the server's pages (module Views).
 */
module Feed {
  import opened Common
  import opened ClientData
  import Views

  const LoadError: string := "Failed to load posts. Please try again."

  /** The posts after a page arrives: replaced by the page in reset mode, extended by it in
      append mode. */
  function Loaded<T>(prev: seq<T>, results: seq<T>, reset: bool): (r: seq<T>)
    ensures reset ==> r == results
    ensures !reset ==> |r| == |prev| + |results| && r[..|prev|] == prev && r[|prev|..] == results
  {
    if reset then results else prev + results
  }

  class FeedView {
    var posts: seq<PostJson>
    var loading: bool
    var error: string
    var hasMore: bool
    var currentPage: int

    constructor()
      ensures posts == [] && !loading && error == "" && hasMore && currentPage == 1
    {
      posts := [];
      loading := false;
      error := "";
      hasMore := true;
      currentPage := 1;
    }

    /** Whether the feed shows the error card with its Retry button instead of the posts. */
    predicate ShowsError()
      reads this
    {
      error != ""
    }

    /** `loadPosts` before the `await`: loading, no error, and the page is requested. */
    method BeginLoad(page: int) returns (call: Request)
      modifies this`loading, this`error
      ensures loading && error == "" && call == GetPosts(page)
    {
      loading := true;
      error := "";
      call := GetPosts(page);
    }

    /** `loadPosts` after the `await`. On success the posts are replaced or extended, `hasMore`
        follows the `next` link and the page becomes current; on failure only the error is
        set. Loading is over either way. */
    method FinishLoad(page: int, reset: bool, outcome: Outcome<PageJson>)
      modifies this`posts, this`hasMore, this`currentPage, this`error, this`loading
      ensures !loading
      ensures outcome.Ok? ==>
        && posts == Loaded(old(posts), outcome.value.results, reset)
        && (hasMore <==> HasNextLink(outcome.value))
        && currentPage == page && error == old(error)
      ensures outcome.Failed? ==>
        && posts == old(posts) && hasMore == old(hasMore) && currentPage == old(currentPage)
        && error == LoadError
    {
      match outcome {
        case Ok(data) =>
          posts := Loaded(posts, data.results, reset);
          hasMore := HasNextLink(data);
          currentPage := page;
        case Failed =>
          error := LoadError;
      }
      loading := false;
    }

    /** A whole `loadPosts(page, reset)`. */
    method LoadPosts(page: int, reset: bool, outcome: Outcome<PageJson>) returns (call: Request)
      modifies this`posts, this`hasMore, this`currentPage, this`error, this`loading
      ensures call == GetPosts(page) && !loading
      ensures outcome.Ok? ==>
        && posts == Loaded(old(posts), outcome.value.results, reset)
        && (hasMore <==> HasNextLink(outcome.value))
        && currentPage == page && error == ""
      ensures outcome.Failed? ==>
        && posts == old(posts) && hasMore == old(hasMore) && currentPage == old(currentPage)
        && error == LoadError
    {
      call := BeginLoad(page);
      FinishLoad(page, reset, outcome);
    }

    /** A change of the refresh trigger (and the mount) and the Retry button: page 1, reset. */
    method Reload(outcome: Outcome<PageJson>) returns (call: Request)
      modifies this`posts, this`hasMore, this`currentPage, this`error, this`loading
      ensures call == GetPosts(1) && !loading
      ensures outcome.Ok? ==>
        && posts == outcome.value.results && (hasMore <==> HasNextLink(outcome.value))
        && currentPage == 1 && error == ""
      ensures outcome.Failed? ==>
        && posts == old(posts) && hasMore == old(hasMore) && currentPage == old(currentPage)
        && error == LoadError
    {
      call := LoadPosts(1, true, outcome);
    }

    /** Load More: only when nothing is loading and there is more, the next page is appended. */
    method HandleLoadMore(outcome: Outcome<PageJson>) returns (call: Option<Request>)
      modifies this`posts, this`hasMore, this`currentPage, this`error, this`loading
      ensures (old(loading) || !old(hasMore)) ==> call.None? && unchanged(this)
      ensures (!old(loading) && old(hasMore)) ==>
        && call == Some(GetPosts(old(currentPage) + 1)) && !loading
        && (outcome.Ok? ==>
             && posts == old(posts) + outcome.value.results
             && (hasMore <==> HasNextLink(outcome.value))
             && currentPage == old(currentPage) + 1 && error == "")
        && (outcome.Failed? ==>
             && posts == old(posts) && hasMore && currentPage == old(currentPage)
             && error == LoadError)
    {
      if loading || !hasMore {
        return None;
      }
      var request := LoadPosts(currentPage + 1, false, outcome);
      call := Some(request);
    }

    /** `handlePostUpdate`: the card's fields are merged into the post with that id. */
    method HandlePostUpdate(updatedPost: PostPatch)
      modifies this`posts
      ensures posts == MergePostById(old(posts), updatedPost)
    {
      posts := MergePostById(posts, updatedPost);
    }
  }

  /** What the feed holds after page 1 (reset) and then Load More up to page `k`, when the
      server serves `items` in pages of `size`. */
  function Walk<T>(items: seq<T>, k: nat, size: nat): seq<T>
    requires size > 0 && k >= 1 && Views.PageOf(items, k, size).Some?
  {
    var page := Views.PageOf(items, k, size).value;
    if k == 1 then Loaded([], page.results, true)
    else Loaded(Walk(items, k - 1, size), page.results, false)
  }

  /** While a page says there is a next one, that next page exists: Load More never asks for
      a page the server answers with a 404. */
  lemma NextPageExists<T>(items: seq<T>, k: nat, size: nat)
    requires size > 0 && k >= 1 && Views.PageOf(items, k, size).Some?
    requires Views.PageOf(items, k, size).value.hasNext
    ensures Views.PageOf(items, k + 1, size).Some?
  {
  }

  /** After `k` pages the feed holds exactly the first items the server has, in its order,
      each once. */
  lemma {:induction false} WalkIsPrefix<T>(items: seq<T>, k: nat, size: nat)
    requires size > 0 && k >= 1 && Views.PageOf(items, k, size).Some?
    ensures
      var page := Views.PageOf(items, k, size).value;
      Walk(items, k, size) == items[..Views.PageStart(k, size) + |page.results|]
  {
    var page := Views.PageOf(items, k, size).value;
    var start := Views.PageStart(k, size);
    if k > 1 {
      var prev := Views.PageOf(items, k - 1, size).value;
      WalkIsPrefix(items, k - 1, size);
      assert Views.PageStart(k - 1, size) + |prev.results| == start;
      assert items[..start + |page.results|] == items[..start] + items[start..start + |page.results|];
    }
  }

  /** Once the feed reaches a page without a `next` link, it holds every item the server
      has, in order, each once. */
  lemma WalkReachesAll<T>(items: seq<T>, k: nat, size: nat)
    requires size > 0 && k >= 1 && Views.PageOf(items, k, size).Some?
    requires !Views.PageOf(items, k, size).value.hasNext
    ensures Walk(items, k, size) == items
  {
    WalkIsPrefix(items, k, size);
  }
}
