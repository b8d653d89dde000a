/** The comment handlers of the server over the comments collection, held as
    the sequence of stored comments in insertion order. The collection handle
    may be uninitialised (the Go global is `nil` until
    `InitCommentCollection` runs). */
module CommentHandlers {
  import opened Common
  import opened ObjectIds
  import opened Models

  /** Body of the "comments of a post" response. */
  datatype CommentList = CommentList(postId: string, comments: seq<Comment>, commentCount: int)

  /** The comments stored for `postId`, in store order (the `post_id` filter). */
  function CommentsOf(store: seq<Comment>, postId: ObjectId): (r: seq<Comment>)
    ensures forall c :: c in r <==> c in store && c.postId == postId
    ensures |r| <= |store|
  {
    if store == [] then []
    else if store[0].postId == postId then [store[0]] + CommentsOf(store[1..], postId)
    else CommentsOf(store[1..], postId)
  }

  /** The filter keeps the order of the store. */
  lemma {:induction false} CommentsOfIsSubsequence(store: seq<Comment>, postId: ObjectId)
    ensures SubsequenceOf(CommentsOf(store, postId), store)
  {
    if store != [] {
      CommentsOfIsSubsequence(store[1..], postId);
      if store[0].postId != postId {
        SubsequenceOfSkip(CommentsOf(store[1..], postId), store[0], store[1..]);
        assert [store[0]] + store[1..] == store;
      } else {
        var r := CommentsOf(store, postId);
        assert r[0] == store[0] && r[1..] == CommentsOf(store[1..], postId);
      }
    }
  }

  /** A comment added for one post shows up in that post's list, at the end,
      and in no other post's list. */
  lemma {:induction false} CommentsOfAppend(store: seq<Comment>, c: Comment, postId: ObjectId)
    ensures CommentsOf(store + [c], postId) ==
      if c.postId == postId then CommentsOf(store, postId) + [c] else CommentsOf(store, postId)
  {
    if store == [] {
      assert [c][1..] == [];
    } else {
      assert (store + [c])[0] == store[0] && (store + [c])[1..] == store[1..] + [c];
      CommentsOfAppend(store[1..], c, postId);
    }
  }

  class CommentCollection {
    var initialized: bool
    var comments: seq<Comment>

    /** Before `InitCommentCollection`: no handle, nothing stored. */
    constructor ()
      ensures !initialized && comments == []
    {
      initialized, comments := false, [];
    }

    /** `InitCommentCollection`: the handle now points at the stored comments. */
    method Init()
      modifies this
      ensures initialized && comments == old(comments)
    {
      initialized := true;
    }

    /** `CreateComment`: rejects a missing handle, an undecodable body and a
        zero post identifier; otherwise stamps the comment and appends it. */
    method CreateComment(body: Body<Comment>, newId: ObjectId, now: int, insertError: Option<string>)
      returns (resp: Response<Comment>)
      requires forall c :: c in comments ==> c.id != newId
      modifies this
      ensures initialized == old(initialized)
      ensures !initialized ==> resp == Error(StatusInternalServerError, "Database not initialized")
      ensures initialized && body.Unparsable? ==> resp == Error(StatusBadRequest, "Invalid input: " + body.error)
      ensures initialized && body.Parsed? && IsZero(body.value.postId) ==>
        resp == Error(StatusBadRequest, "PostID is required")
      ensures initialized && body.Parsed? && !IsZero(body.value.postId) && insertError.Some? ==>
        resp == Error(StatusInternalServerError, "Failed to save comment: " + insertError.value)
      ensures resp.Error? ==> comments == old(comments)
      ensures resp.Ok? <==> initialized && body.Parsed? && !IsZero(body.value.postId) && insertError.None?
      ensures resp.Ok? ==>
        var req, c := body.value, resp.body;
        && c == req.(id := newId, createdAt := now)
        && c.postId == req.postId && c.content == req.content && c.userId == req.userId
        && comments == old(comments) + [c]
    {
      if !initialized {
        return Error(StatusInternalServerError, "Database not initialized");
      }
      match body
      case Unparsable(e) =>
        return Error(StatusBadRequest, "Invalid input: " + e);
      case Parsed(comment) =>
        if IsZero(comment.postId) {
          return Error(StatusBadRequest, "PostID is required");
        }
        var stored := comment.(id := newId, createdAt := now);
        if insertError.Some? {
          return Error(StatusInternalServerError, "Failed to save comment: " + insertError.value);
        }
        comments := comments + [stored];
        resp := Ok(stored);
    }

    /** `GetCommentsByPostID`: the comments of one post, read through a cursor
        into a list, with their number and the query string echoed back. */
    method GetCommentsByPostID(postIdParam: string, findError: Option<string>, decodeError: Option<string>)
      returns (resp: Response<CommentList>)
      requires initialized
      ensures postIdParam == "" ==> resp == Error(StatusBadRequest, "postID query parameter is required")
      ensures postIdParam != "" && FromHex(postIdParam).None? ==> resp == Error(StatusBadRequest, "Invalid postID")
      ensures FromHex(postIdParam).Some? && findError.Some? ==>
        resp == Error(StatusInternalServerError, "Error fetching comments: " + findError.value)
      ensures FromHex(postIdParam).Some? && findError.None? && decodeError.Some? ==>
        resp == Error(StatusInternalServerError, "Error decoding comments: " + decodeError.value)
      ensures resp.Ok? <==> FromHex(postIdParam).Some? && findError.None? && decodeError.None?
      ensures resp.Ok? ==>
        var id, list := FromHex(postIdParam).value, resp.body;
        && list.postId == postIdParam
        && list.comments == CommentsOf(comments, id)
        && list.commentCount == |list.comments|
    {
      if postIdParam == "" {
        return Error(StatusBadRequest, "postID query parameter is required");
      }
      var postId := FromHex(postIdParam);
      if postId.None? {
        return Error(StatusBadRequest, "Invalid postID");
      }
      if findError.Some? {
        return Error(StatusInternalServerError, "Error fetching comments: " + findError.value);
      }
      if decodeError.Some? {
        return Error(StatusInternalServerError, "Error decoding comments: " + decodeError.value);
      }
      var found: seq<Comment> := [];
      var i := 0;
      while i < |comments|
        invariant 0 <= i <= |comments|
        invariant found == CommentsOf(comments[..i], postId.value)
      {
        CommentsOfAppend(comments[..i], comments[i], postId.value);
        assert comments[..i + 1] == comments[..i] + [comments[i]];
        if comments[i].postId == postId.value {
          found := found + [comments[i]];
        }
        i := i + 1;
      }
      assert comments[..i] == comments;
      resp := Ok(CommentList(postIdParam, found, |found|));
    }
  }
}
