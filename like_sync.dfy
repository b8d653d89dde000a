/** How the page's optimistic like toggle lines up with what the server
    stores. The page decides between "like" and "unlike" from its own copy
    of the likes list, but it always posts to `/posts/like`, which the
    server serves with `LikePost` (`$addToSet`); `UnlikePost` is never
    reached from the feed page. A post the page creates has no `likes`
    field, so the server stores `null` there and refuses every like of it,
    while the page shows the post as liked. */
module LikeSync {
  import opened Common
  import opened FeedLogic
  import ObjectIds
  import UserIds
  import Models
  import PostHandlers

  /** A like on a post the user had not liked, when the server holds a
      list: the page's new list is the server's new list. */
  lemma LikeAgrees(p: PostWithCount, me: string)
    requires p.likes.Some? && !Includes(p.likes, me)
    ensures Toggled(p, me, false).likes == Some(PostHandlers.AddToSet(p.likes.value, me))
  {
  }

  /** An unlike: the page drops the user, while the server, asked to like
      again, keeps the list as it was, so the two disagree until the feed is
      reloaded. */
  lemma UnlikeDiverges(p: PostWithCount, me: string)
    requires Includes(p.likes, me)
    ensures me !in Toggled(p, me, true).likes.value
    ensures PostHandlers.AddToSet(p.likes.value, me) == p.likes.value
    ensures me in PostHandlers.AddToSet(p.likes.value, me)
    ensures Toggled(p, me, true).likes != Some(PostHandlers.AddToSet(p.likes.value, me))
  {
  }

  /** Had the page posted unlikes to `/posts/unlike`, as its unused `action`
      value suggests, the server's list would equal the page's whenever the
      server holds a list. */
  lemma ActionRoutedAgrees(p: PostWithCount, me: string)
    requires p.likes.Some?
    ensures var wasLiked := Includes(p.likes, me);
      var server := if wasLiked then RemoveAll(p.likes.value, me)
                    else PostHandlers.AddToSet(p.likes.value, me);
      Toggled(p, me, wasLiked).likes == Some(server)
  {
  }

  /** On a post whose likes are `null`, the page's toggle is a like that
      leaves the user as the only liker. */
  lemma NullLikesShownLiked(p: PostWithCount, me: string)
    requires p.likes.None?
    ensures !Includes(p.likes, me)
    ensures Toggled(p, me, false).likes == Some([me]) && Toggled(p, me, false).likeCount == p.likeCount + 1
  {
    assert OrEmpty(p.likes) + [me] == [me];
  }

  /** The page creates a post (title, content and `${sessionId}@itshivam.in`,
      no likes) and then likes it: the post is stored with `null` likes, and
      the like is answered with the server's write error and changes nothing. */
  method PageCreatedPostCannotBeLiked(store: PostHandlers.PostCollection, sessionId: string, title: string,
                                      content: string, picks: seq<int>, newId: ObjectIds.ObjectId, now: int,
                                      nonArrayError: string)
    returns (created: Models.Response<Models.Post>, liked: Models.Response<string>)
    requires store.Valid() && UserIds.ValidPicks(picks) && newId !in store.docs
    requires |sessionId| == UserIds.LocalLength && forall c :: c in sessionId ==> UserIds.IsLowerAlnum(c)
    modifies store
    ensures created.Ok? && created.body.id == newId && created.body.likes.None?
    ensures newId in store.docs && store.docs[newId] == created.body
    ensures store.docs == old(store.docs)[newId := created.body]
    ensures liked == Models.Error(Models.StatusInternalServerError, "Failed to like post: " + nonArrayError)
  {
    UserIds.SessionUserIdValidIff(sessionId);
    var author := AuthorId(sessionId);
    var request := Models.Post(ObjectIds.Zero, author, title, content, 0, None);
    created := store.CreatePost(Models.Parsed(request), picks, newId, now, None);
    ObjectIds.FromHexCanonical(newId);
    liked := store.LikePost(Models.Parsed(PostHandlers.LikeRequest(newId, author)), None, nonArrayError);
  }
}
