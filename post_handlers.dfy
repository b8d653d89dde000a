/** The post handlers of the server over the posts collection: creating and
    listing posts, adding and removing likes, and reading one post with its
    like count. The collection is a map from identifier to stored post that
    the handlers update in place. What the database driver reports (an
    error text or nothing) is an input, so every 500 path is reachable;
    the clock and the identifier generator are inputs too. */
module PostHandlers {
  import opened Common
  import opened ObjectIds
  import opened UserIds
  import opened Models

  /** The `likes` field after MongoDB's `$addToSet`: the user is appended
      unless already present. */
  function AddToSet(likes: seq<string>, userId: string): (r: seq<string>)
    ensures userId in r
    ensures forall u :: u in r <==> u in likes || u == userId
    ensures userId in likes ==> r == likes
    ensures |likes| <= |r| <= |likes| + 1 && r[..|likes|] == likes
    ensures NoDuplicates(likes) ==> NoDuplicates(r)
  {
    if userId in likes then likes
    else
      AppendFreshNoDuplicatesIf(likes, userId);
      likes + [userId]
  }

  lemma AppendFreshNoDuplicatesIf(likes: seq<string>, userId: string)
    requires userId !in likes
    ensures NoDuplicates(likes) ==> NoDuplicates(likes + [userId])
  {
    if NoDuplicates(likes) {
      AppendFreshNoDuplicates(likes, userId);
    }
  }

  /** Adding a like twice is the same as adding it once, and adds no duplicate. */
  lemma AddToSetIdempotent(likes: seq<string>, userId: string)
    ensures AddToSet(AddToSet(likes, userId), userId) == AddToSet(likes, userId)
    ensures multiset(AddToSet(likes, userId))[userId] == if userId in likes then multiset(likes)[userId] else 1
  {
  }

  /** Decoded body of a like or unlike request. */
  datatype LikeRequest = LikeRequest(postId: string, userId: string)

  /** Body of the "all posts" response. */
  datatype AllPosts = AllPosts(posts: seq<Post>, totalPosts: int)

  /** Body of the "one post" response. */
  datatype PostWithLikes = PostWithLikes(post: Post, likeCount: int)

  /** The post with `id`, its likes replaced. */
  function WithLikes(docs: map<ObjectId, Post>, id: ObjectId, likes: seq<string>): map<ObjectId, Post>
    requires id in docs
  {
    docs[id := docs[id].(likes := Some(likes))]
  }

  class PostCollection {
    var docs: map<ObjectId, Post>

    /** Every post is stored under its own identifier. */
    ghost predicate Valid()
      reads this
    {
      forall id :: id in docs ==> docs[id].id == id
    }

    constructor ()
      ensures Valid() && docs == map[]
    {
      docs := map[];
    }

    /** `CreatePost`. An empty author is replaced by a generated one, a
        non-empty author must match the pattern; then the post gets the new
        identifier and the current time and is inserted. */
    method CreatePost(body: Body<Post>, picks: seq<int>, newId: ObjectId, now: int, insertError: Option<string>)
      returns (resp: Response<Post>)
      requires Valid()
      requires ValidPicks(picks)
      requires newId !in docs
      modifies this
      ensures Valid()
      ensures body.Unparsable? ==> resp == Error(StatusBadRequest, body.error)
      ensures body.Parsed? && body.value.userId != "" && !IsValidUserId(body.value.userId) ==>
        resp == Error(StatusBadRequest, "Invalid userid format")
      ensures body.Parsed? && (body.value.userId == "" || IsValidUserId(body.value.userId)) && insertError.Some? ==>
        resp == Error(StatusInternalServerError, insertError.value)
      ensures resp.Error? ==> docs == old(docs)
      ensures resp.Ok? <==>
        body.Parsed? && (body.value.userId == "" || IsValidUserId(body.value.userId)) && insertError.None?
      ensures resp.Ok? ==>
        var req, p := body.value, resp.body;
        && p.id == newId && p.createdAt == now
        && p.title == req.title && p.content == req.content && p.likes == req.likes
        && IsValidUserId(p.userId)
        && (req.userId != "" ==> p.userId == req.userId)
        && (req.userId == "" ==> p.userId == GeneratedUserId(picks))
        && docs == old(docs)[newId := p]
        && |docs| == |old(docs)| + 1
    {
      match body
      case Unparsable(e) =>
        return Error(StatusBadRequest, e);
      case Parsed(post) =>
        var userId := post.userId;
        if userId == "" {
          userId := GenerateUserId(picks);
        } else if !IsValidUserId(userId) {
          return Error(StatusBadRequest, "Invalid userid format");
        }
        var stored := post.(userId := userId, id := newId, createdAt := now);
        if insertError.Some? {
          return Error(StatusInternalServerError, insertError.value);
        }
        docs := docs[newId := stored];
        resp := Ok(stored);
    }

    /** `GetAllPosts`: every stored post, once each, and their number. */
    method GetAllPosts(findError: Option<string>, decodeError: Option<string>) returns (resp: Response<AllPosts>)
      requires Valid()
      ensures findError.Some? ==> resp == Error(StatusInternalServerError, "Error fetching posts: " + findError.value)
      ensures findError.None? && decodeError.Some? ==>
        resp == Error(StatusInternalServerError, "Error decoding posts: " + decodeError.value)
      ensures findError.None? && decodeError.None? ==> resp.Ok?
      ensures resp.Ok? ==>
        var all := resp.body;
        && all.totalPosts == |all.posts| == |docs|
        && NoDuplicates(all.posts)
        && (forall p :: p in all.posts ==> p.id in docs && docs[p.id] == p)
        && (forall id :: id in docs ==> docs[id] in all.posts)
    {
      if findError.Some? {
        return Error(StatusInternalServerError, "Error fetching posts: " + findError.value);
      }
      if decodeError.Some? {
        return Error(StatusInternalServerError, "Error decoding posts: " + decodeError.value);
      }
      var pending := docs.Keys;
      var posts: seq<Post> := [];
      while pending != {}
        invariant pending <= docs.Keys
        invariant |posts| + |pending| == |docs|
        invariant NoDuplicates(posts)
        invariant forall p :: p in posts ==> p.id in docs && docs[p.id] == p && p.id !in pending
        invariant forall id :: id in docs && id !in pending ==> docs[id] in posts
        decreases |pending|
      {
        var id :| id in pending;
        AppendFreshNoDuplicates(posts, docs[id]);
        posts := posts + [docs[id]];
        pending := pending - {id};
      }
      resp := Ok(AllPosts(posts, |posts|));
    }

    /** `LikePost`: add the user to the post's likes unless already there.
        MongoDB refuses `$addToSet` on a `likes` field that holds `null`;
        the driver then reports a write error, whose text is `nonArrayError`. */
    method LikePost(body: Body<LikeRequest>, updateError: Option<string>, nonArrayError: string) returns (resp: Response<string>)
      requires Valid()
      modifies this
      ensures Valid()
      ensures body.Unparsable? ==> resp == Error(StatusBadRequest, "Invalid request body: " + body.error)
      ensures body.Parsed? && FromHex(body.value.postId).None? ==> resp == Error(StatusBadRequest, "Invalid PostID")
      ensures body.Parsed? && FromHex(body.value.postId).Some? && updateError.Some? ==>
        resp == Error(StatusInternalServerError, "Failed to like post: " + updateError.value)
      ensures body.Parsed? && FromHex(body.value.postId).Some? && updateError.None?
              && FromHex(body.value.postId).value !in old(docs) ==>
        resp == Error(StatusNotFound, "Post not found")
      ensures body.Parsed? && FromHex(body.value.postId).Some? && updateError.None?
              && FromHex(body.value.postId).value in old(docs)
              && old(docs)[FromHex(body.value.postId).value].likes.None? ==>
        resp == Error(StatusInternalServerError, "Failed to like post: " + nonArrayError)
      ensures resp.Error? ==> docs == old(docs)
      ensures resp.Ok? <==>
        && body.Parsed? && FromHex(body.value.postId).Some? && updateError.None?
        && FromHex(body.value.postId).value in old(docs)
        && old(docs)[FromHex(body.value.postId).value].likes.Some?
      ensures resp.Ok? ==>
        var req := body.value;
        var id := FromHex(req.postId).value;
        && resp.body == "Post liked successfully"
        && docs == WithLikes(old(docs), id, AddToSet(old(docs)[id].likes.value, req.userId))
        && req.userId in docs[id].likes.value
    {
      match body
      case Unparsable(e) =>
        return Error(StatusBadRequest, "Invalid request body: " + e);
      case Parsed(req) =>
        var postId := FromHex(req.postId);
        if postId.None? {
          return Error(StatusBadRequest, "Invalid PostID");
        }
        var id := postId.value;
        if updateError.Some? {
          return Error(StatusInternalServerError, "Failed to like post: " + updateError.value);
        }
        if id !in docs {
          return Error(StatusNotFound, "Post not found");
        }
        if docs[id].likes.None? {
          return Error(StatusInternalServerError, "Failed to like post: " + nonArrayError);
        }
        docs := WithLikes(docs, id, AddToSet(docs[id].likes.value, req.userId));
        resp := Ok("Post liked successfully");
    }

    /** `UnlikePost`: remove every occurrence of the user from the post's
        likes. MongoDB refuses `$pull` on a `likes` field that holds `null`;
        the driver then reports a write error, whose text is `nonArrayError`. */
    method UnlikePost(body: Body<LikeRequest>, updateError: Option<string>, nonArrayError: string) returns (resp: Response<string>)
      requires Valid()
      modifies this
      ensures Valid()
      ensures body.Unparsable? ==> resp == Error(StatusBadRequest, "Invalid request body: " + body.error)
      ensures body.Parsed? && FromHex(body.value.postId).None? ==> resp == Error(StatusBadRequest, "Invalid PostID")
      ensures body.Parsed? && FromHex(body.value.postId).Some? && updateError.Some? ==>
        resp == Error(StatusInternalServerError, "Failed to unlike post: " + updateError.value)
      ensures body.Parsed? && FromHex(body.value.postId).Some? && updateError.None?
              && FromHex(body.value.postId).value !in old(docs) ==>
        resp == Error(StatusNotFound, "Post not found")
      ensures body.Parsed? && FromHex(body.value.postId).Some? && updateError.None?
              && FromHex(body.value.postId).value in old(docs)
              && old(docs)[FromHex(body.value.postId).value].likes.None? ==>
        resp == Error(StatusInternalServerError, "Failed to unlike post: " + nonArrayError)
      ensures resp.Error? ==> docs == old(docs)
      ensures resp.Ok? <==>
        && body.Parsed? && FromHex(body.value.postId).Some? && updateError.None?
        && FromHex(body.value.postId).value in old(docs)
        && old(docs)[FromHex(body.value.postId).value].likes.Some?
      ensures resp.Ok? ==>
        var req := body.value;
        var id := FromHex(req.postId).value;
        && resp.body == "Post unliked successfully"
        && docs == WithLikes(old(docs), id, RemoveAll(old(docs)[id].likes.value, req.userId))
        && req.userId !in docs[id].likes.value
    {
      match body
      case Unparsable(e) =>
        return Error(StatusBadRequest, "Invalid request body: " + e);
      case Parsed(req) =>
        var postId := FromHex(req.postId);
        if postId.None? {
          return Error(StatusBadRequest, "Invalid PostID");
        }
        var id := postId.value;
        if updateError.Some? {
          return Error(StatusInternalServerError, "Failed to unlike post: " + updateError.value);
        }
        if id !in docs {
          return Error(StatusNotFound, "Post not found");
        }
        if docs[id].likes.None? {
          return Error(StatusInternalServerError, "Failed to unlike post: " + nonArrayError);
        }
        docs := WithLikes(docs, id, RemoveAll(docs[id].likes.value, req.userId));
        resp := Ok("Post unliked successfully");
    }

    /** `GetPostWithLikes`: one post and the length of its likes list (`len`
        of a `nil` slice is zero). */
    method GetPostWithLikes(postIdParam: string, findError: Option<string>) returns (resp: Response<PostWithLikes>)
      requires Valid()
      ensures postIdParam == "" ==> resp == Error(StatusBadRequest, "postID query parameter required")
      ensures postIdParam != "" && FromHex(postIdParam).None? ==> resp == Error(StatusBadRequest, "Invalid postID")
      ensures FromHex(postIdParam).Some? && findError.Some? ==>
        resp == Error(StatusInternalServerError, "Error fetching post: " + findError.value)
      ensures FromHex(postIdParam).Some? && findError.None? && FromHex(postIdParam).value !in docs ==>
        resp == Error(StatusNotFound, "Post not found")
      ensures resp.Ok? <==> FromHex(postIdParam).Some? && findError.None? && FromHex(postIdParam).value in docs
      ensures resp.Ok? ==>
        && resp.body.post == docs[FromHex(postIdParam).value]
        && resp.body.post.id == FromHex(postIdParam).value
        && resp.body.likeCount == |OrEmpty(resp.body.post.likes)|
    {
      if postIdParam == "" {
        return Error(StatusBadRequest, "postID query parameter required");
      }
      var postId := FromHex(postIdParam);
      if postId.None? {
        return Error(StatusBadRequest, "Invalid postID");
      }
      if findError.Some? {
        return Error(StatusInternalServerError, "Error fetching post: " + findError.value);
      }
      if postId.value !in docs {
        return Error(StatusNotFound, "Post not found");
      }
      var post := docs[postId.value];
      resp := Ok(PostWithLikes(post, |OrEmpty(post.likes)|));
    }
  }
}
