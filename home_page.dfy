/** The state of the feed page component (`HomePage` in `pages/index.tsx`) and
    the handlers that update it: loading and ordering the feed, creating a
    post, the guarded optimistic like toggle, and the bookmark toggle. The
    React state setters become field updates; browser storage becomes two
    fields; what the network returns is passed in. */
module FeedPage {
  import opened Common
  import opened FeedLogic

  /** `postsWithCounts.sort((a, b) => b.created_at - a.created_at)`: sorts the
      array in place, newest first. */
  method SortByRecency(a: array<PostWithCount>)
    modifies a
    ensures NewestFirst(a[..])
    ensures multiset(a[..]) == old(multiset(a[..]))
  {
    var i := 0;
    while i < a.Length
      invariant 0 <= i <= a.Length
      invariant forall k, l :: 0 <= k < l < i ==> a[k].createdAt >= a[l].createdAt
      invariant multiset(a[..]) == old(multiset(a[..]))
    {
      InsertNewest(a, i);
      i := i + 1;
    }
  }

  /** One insertion step: moves `a[i]` left past every older post, so that the
      first `i + 1` posts are newest first. */
  method InsertNewest(a: array<PostWithCount>, i: int)
    requires 0 <= i < a.Length
    requires forall k, l :: 0 <= k < l < i ==> a[k].createdAt >= a[l].createdAt
    modifies a
    ensures forall k, l :: 0 <= k < l <= i ==> a[k].createdAt >= a[l].createdAt
    ensures multiset(a[..]) == old(multiset(a[..]))
  {
    var j := i;
    while j > 0 && a[j - 1].createdAt < a[j].createdAt
      invariant 0 <= j <= i
      invariant forall k, l :: 0 <= k < l <= i && k != j && l != j ==> a[k].createdAt >= a[l].createdAt
      invariant forall l :: j < l <= i ==> a[j].createdAt > a[l].createdAt
      invariant multiset(a[..]) == old(multiset(a[..]))
    {
      SwapAdjacent(a, j);
      j := j - 1;
    }
  }

  /** Exchanges `a[j - 1]` and `a[j]`. */
  method SwapAdjacent(a: array<PostWithCount>, j: int)
    requires 0 < j < a.Length
    modifies a
    ensures a[j - 1] == old(a[j]) && a[j] == old(a[j - 1])
    ensures forall k :: 0 <= k < a.Length && k != j - 1 && k != j ==> a[k] == old(a[k])
    ensures multiset(a[..]) == old(multiset(a[..]))
  {
    a[j - 1], a[j] := a[j], a[j - 1];
  }

  /** The title and body typed into the post form. */
  datatype Draft = Draft(title: string, content: string)

  /** The body of the create-post request. */
  datatype CreatePostRequest = CreatePostRequest(title: string, content: string, userId: string)

  /** A like-toggle request: the path it is posted to and its body. */
  datatype LikeCall = LikeCall(path: string, postId: string, userId: string)

  /** The only path the page posts like toggles to. */
  const LikePath := "/posts/like"

  class HomePage {
    var posts: seq<PostWithCount>
    var loading: bool
    var sessionId: string
    var newPost: Draft
    var bookmarkedIds: seq<string>
    var processingLikes: set<string>
    /** Browser storage under "sessionId". */
    var storedSession: Option<string>
    /** Browser storage under "bookmarkedPosts", decoded. */
    var storedBookmarks: Option<seq<string>>

    /** The initial state and the mount effect: reuse a stored (non-empty)
        session token or store `freshSession`, and load the stored bookmarks. */
    constructor (storedSession: Option<string>, freshSession: string, storedBookmarks: Option<seq<string>>)
      ensures posts == [] && loading && newPost == Draft("", "") && processingLikes == {}
      ensures storedSession.Some? && storedSession.value != "" ==>
        sessionId == storedSession.value && this.storedSession == storedSession
      ensures !(storedSession.Some? && storedSession.value != "") ==>
        sessionId == freshSession && this.storedSession == Some(freshSession)
      ensures bookmarkedIds == OrEmpty(storedBookmarks) && this.storedBookmarks == storedBookmarks
    {
      posts, loading, newPost, processingLikes := [], true, Draft("", ""), {};
      if storedSession.Some? && storedSession.value != "" {
        sessionId := storedSession.value;
        this.storedSession := storedSession;
      } else {
        sessionId := freshSession;
        this.storedSession := Some(freshSession);
      }
      bookmarkedIds := OrEmpty(storedBookmarks);
      this.storedBookmarks := storedBookmarks;
    }

    /** `fetchPosts`: attach the counts, sort newest first, then put the
        bookmarked posts first. `fetched` is `None` when the request fails;
        `counts` holds each post's comment-count answer. */
    method LoadFeed(fetched: Option<seq<Post>>, counts: seq<Option<int>>)
      requires fetched.Some? ==> |counts| == |fetched.value|
      modifies this`posts, this`loading
      ensures sessionId == "" ==> posts == old(posts) && loading == old(loading)
      ensures sessionId != "" ==> !loading
      ensures fetched.None? ==> posts == old(posts)
      ensures sessionId != "" && fetched.Some? ==>
        && multiset(posts) == multiset(AttachCounts(fetched.value, counts))
        && (forall p :: p in posts ==> CountMatchesLikes(p))
        && (forall i, j :: 0 <= i < j < |posts| && posts[j].id in bookmarkedIds ==> posts[i].id in bookmarkedIds)
        && exists sorted ::
             && multiset(sorted) == multiset(AttachCounts(fetched.value, counts))
             && NewestFirst(sorted)
             && posts == Select(sorted, bookmarkedIds, true) + Select(sorted, bookmarkedIds, false)
             && NewestFirst(Select(sorted, bookmarkedIds, true))
             && NewestFirst(Select(sorted, bookmarkedIds, false))
    {
      if sessionId == "" {
        return;
      }
      if fetched.None? {
        loading := false;
        return;
      }
      var withCounts := AttachCounts(fetched.value, counts);
      var a := new PostWithCount[|withCounts|](i requires 0 <= i < |withCounts| => withCounts[i]);
      assert a[..] == withCounts;
      SortByRecency(a);
      var sorted := a[..];
      SelectKeepsRecency(sorted, bookmarkedIds, true);
      SelectKeepsRecency(sorted, bookmarkedIds, false);
      posts := BookmarkedFirst(sorted, bookmarkedIds);
      forall p | p in posts ensures CountMatchesLikes(p) {
        assert p in multiset(withCounts);
      }
      loading := false;
    }

    /** `handleCreatePost`: refuse a blank field without sending anything;
        otherwise send the request and, when the server answers with the
        created post, put it first with zero counts and clear the form. */
    method HandleCreatePost(created: Option<Post>) returns (sent: Option<CreatePostRequest>)
      modifies this`posts, this`newPost
      ensures IsBlank(old(newPost).title) || IsBlank(old(newPost).content) ==>
        sent.None? && posts == old(posts) && newPost == old(newPost)
      ensures !IsBlank(old(newPost).title) && !IsBlank(old(newPost).content) ==>
        sent == Some(CreatePostRequest(old(newPost).title, old(newPost).content, AuthorId(sessionId)))
      ensures sent.Some? && created.Some? ==>
        posts == [WithCounts(created.value, 0, 0)] + old(posts) && newPost == Draft("", "")
      ensures created.None? ==> posts == old(posts) && newPost == old(newPost)
    {
      if IsBlank(newPost.title) || IsBlank(newPost.content) {
        return None;
      }
      sent := Some(CreatePostRequest(newPost.title, newPost.content, AuthorId(sessionId)));
      if created.Some? {
        posts := [WithCounts(created.value, 0, 0)] + posts;
        newPost := Draft("", "");
      }
    }

    /** The synchronous part of `handleLike`: drop the click when a toggle of
        the same post is in flight, otherwise mark the post as in flight. */
    method BeginLike(postId: string) returns (started: bool)
      modifies this`processingLikes
      ensures started <==> postId !in old(processingLikes)
      ensures processingLikes == old(processingLikes) + {postId}
    {
      if postId in processingLikes {
        return false;
      }
      processingLikes := processingLikes + {postId};
      started := true;
    }

    /** The rest of `handleLike`, after the guard: find the post, send the
        toggle, apply the optimistic update unless the request threw, and
        always clear the in-flight mark. */
    method SettleLike(postId: string, networkError: bool) returns (sent: Option<LikeCall>)
      modifies this`posts, this`processingLikes
      ensures processingLikes == old(processingLikes) - {postId}
      ensures Find(old(posts), postId).None? ==> sent.None? && posts == old(posts)
      ensures Find(old(posts), postId).Some? ==>
        var me := AuthorId(sessionId);
        && sent == Some(LikeCall(LikePath, postId, me))
        && posts == if networkError then old(posts)
                    else ToggleLike(old(posts), postId, me, Includes(Find(old(posts), postId).value.likes, me))
    {
      var post := Find(posts, postId);
      if post.None? {
        processingLikes := processingLikes - {postId};
        return None;
      }
      var me := AuthorId(sessionId);
      var wasLiked := Includes(post.value.likes, me);
      sent := Some(LikeCall(LikePath, postId, me));
      if !networkError {
        posts := ToggleLike(posts, postId, me, wasLiked);
      }
      processingLikes := processingLikes - {postId};
    }

    /** `handleLike`, run to completion. A click on a post already in flight
        changes nothing; any other click leaves the post out of flight. */
    method HandleLike(postId: string, networkError: bool) returns (sent: Option<LikeCall>)
      modifies this`posts, this`processingLikes
      ensures postId in old(processingLikes) ==>
        sent.None? && posts == old(posts) && processingLikes == old(processingLikes)
      ensures postId !in old(processingLikes) ==> processingLikes == old(processingLikes) && postId !in processingLikes
      ensures postId !in old(processingLikes) && Find(old(posts), postId).None? ==> sent.None? && posts == old(posts)
      ensures postId !in old(processingLikes) && Find(old(posts), postId).Some? ==>
        var me := AuthorId(sessionId);
        && sent == Some(LikeCall(LikePath, postId, me))
        && posts == if networkError then old(posts)
                    else ToggleLike(old(posts), postId, me, Includes(Find(old(posts), postId).value.likes, me))
    {
      var started := BeginLike(postId);
      if !started {
        return None;
      }
      sent := SettleLike(postId, networkError);
    }

    /** `toggleBookmark`: flip the post's membership and store the new list. */
    method ToggleBookmark(postId: string)
      modifies this`bookmarkedIds, this`storedBookmarks
      ensures bookmarkedIds == WithBookmarkToggled(old(bookmarkedIds), postId)
      ensures postId in bookmarkedIds <==> postId !in old(bookmarkedIds)
      ensures storedBookmarks == Some(bookmarkedIds)
    {
      bookmarkedIds := WithBookmarkToggled(bookmarkedIds, postId);
      storedBookmarks := Some(bookmarkedIds);
    }
  }

  /** Two clicks on the same post while the first toggle is in flight: the
      second is dropped, so the post is toggled exactly once. */
  method OverlappingLikeClicks(page: HomePage, postId: string) returns (first: bool, second: bool)
    requires postId !in page.processingLikes
    modifies page`posts, page`processingLikes
    ensures first && !second
    ensures page.processingLikes == old(page.processingLikes)
    ensures Find(old(page.posts), postId).Some? ==>
      var me := AuthorId(page.sessionId);
      page.posts == ToggleLike(old(page.posts), postId, me, Includes(Find(old(page.posts), postId).value.likes, me))
  {
    first := page.BeginLike(postId);
    second := page.BeginLike(postId);
    var _ := page.SettleLike(postId, false);
  }
}
