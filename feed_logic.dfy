/** The list transformations of the feed page (`pages/index.tsx`): deriving
    the counts of each fetched post, ordering the feed bookmarked-first, the
    optimistic like toggle, the bookmark toggle, and the blank-field check of
    the post form. All are pure; the page state that uses them is in
    `HomePage`. */
module FeedLogic {
  import opened Common
  import UserIds

  /** A post as the server sends it; `likes` may be `null`. */
  datatype Post = Post(
    id: string,
    userId: string,
    title: string,
    content: string,
    createdAt: int,
    likes: Option<seq<string>>)

  /** A post with the counts the page shows beside it. */
  datatype PostWithCount = PostWithCount(
    id: string,
    userId: string,
    title: string,
    content: string,
    createdAt: int,
    likes: Option<seq<string>>,
    likeCount: int,
    commentCount: int)

  /** The author identifier the page writes with: `${sessionId}@itshivam.in`. */
  function AuthorId(sessionId: string): (r: string)
    ensures |r| == |sessionId| + |UserIds.Domain|
    ensures r[..|sessionId|] == sessionId && r[|sessionId|..] == UserIds.Domain
  {
    sessionId + UserIds.Domain
  }

  /** `post.likes ? post.likes.length : 0` */
  function LikeCount(likes: Option<seq<string>>): nat {
    |OrEmpty(likes)|
  }

  /** `data.comment_count || 0`: a missing (or failed) count reads as zero. */
  function CommentCountOrZero(reported: Option<int>): int {
    match reported
    case None => 0
    case Some(n) => n
  }

  function WithCounts(p: Post, likeCount: int, commentCount: int): PostWithCount {
    PostWithCount(p.id, p.userId, p.title, p.content, p.createdAt, p.likes, likeCount, commentCount)
  }

  /** The displayed like count agrees with the likes list. */
  predicate CountMatchesLikes(p: PostWithCount) {
    p.likeCount == LikeCount(p.likes)
  }

  /** The fetched posts with their counts attached, position by position. */
  function AttachCounts(posts: seq<Post>, counts: seq<Option<int>>): (r: seq<PostWithCount>)
    requires |counts| == |posts|
    ensures |r| == |posts|
    ensures forall i :: 0 <= i < |r| ==> CountMatchesLikes(r[i])
    ensures forall i :: 0 <= i < |r| ==>
      r[i] == WithCounts(posts[i], LikeCount(posts[i].likes), CommentCountOrZero(counts[i]))
  {
    seq(|posts|, i requires 0 <= i < |posts| =>
      WithCounts(posts[i], LikeCount(posts[i].likes), CommentCountOrZero(counts[i])))
  }

  // ---------------------------------------------------------------------------
  // Feed order

  /** Non-increasing creation time. */
  ghost predicate NewestFirst(s: seq<PostWithCount>) {
    forall i, j :: 0 <= i < j < |s| ==> s[i].createdAt >= s[j].createdAt
  }

  /** The posts that are (or are not) bookmarked, in their original order. */
  function Select(s: seq<PostWithCount>, bookmarkedIds: seq<string>, bookmarked: bool): (r: seq<PostWithCount>)
    ensures forall p :: p in r <==> p in s && (p.id in bookmarkedIds) == bookmarked
    ensures forall i :: 0 <= i < |r| ==> (r[i].id in bookmarkedIds) == bookmarked
  {
    if s == [] then []
    else if (s[0].id in bookmarkedIds) == bookmarked then [s[0]] + Select(s[1..], bookmarkedIds, bookmarked)
    else Select(s[1..], bookmarkedIds, bookmarked)
  }

  /** The filter keeps the input's order. */
  lemma {:induction false} SelectIsSubsequence(s: seq<PostWithCount>, bookmarkedIds: seq<string>, bookmarked: bool)
    ensures SubsequenceOf(Select(s, bookmarkedIds, bookmarked), s)
  {
    if s != [] {
      SelectIsSubsequence(s[1..], bookmarkedIds, bookmarked);
      if (s[0].id in bookmarkedIds) != bookmarked {
        SubsequenceOfSkip(Select(s[1..], bookmarkedIds, bookmarked), s[0], s[1..]);
        assert [s[0]] + s[1..] == s;
      } else {
        var r := Select(s, bookmarkedIds, bookmarked);
        assert r[0] == s[0] && r[1..] == Select(s[1..], bookmarkedIds, bookmarked);
      }
    }
  }

  /** The two parts together are a rearrangement of the input. */
  lemma {:induction false} SelectSplits(s: seq<PostWithCount>, bookmarkedIds: seq<string>)
    ensures multiset(Select(s, bookmarkedIds, true)) + multiset(Select(s, bookmarkedIds, false)) == multiset(s)
  {
    if s != [] {
      SelectSplits(s[1..], bookmarkedIds);
      assert s == [s[0]] + s[1..];
    }
  }

  /** Joining an all-bookmarked part and a part without bookmarks puts every
      bookmarked post first. */
  lemma BookmarkedPartFirst(a: seq<PostWithCount>, b: seq<PostWithCount>, bookmarkedIds: seq<string>)
    requires forall k :: 0 <= k < |a| ==> a[k].id in bookmarkedIds
    requires forall k :: 0 <= k < |b| ==> b[k].id !in bookmarkedIds
    ensures forall i, j :: 0 <= i < j < |a + b| && (a + b)[j].id in bookmarkedIds ==> (a + b)[i].id in bookmarkedIds
  {
    assert forall k :: 0 <= k < |a| ==> (a + b)[k] == a[k];
    assert forall k :: |a| <= k < |a + b| ==> (a + b)[k] == b[k - |a|];
  }

  /** `[...bookmarkedPosts, ...otherPosts]`: a rearrangement of the feed in
      which every bookmarked post comes before every other post. */
  function BookmarkedFirst(s: seq<PostWithCount>, bookmarkedIds: seq<string>): (r: seq<PostWithCount>)
    ensures multiset(r) == multiset(s) && |r| == |s|
    ensures forall i, j :: 0 <= i < j < |r| && r[j].id in bookmarkedIds ==> r[i].id in bookmarkedIds
  {
    var a, b := Select(s, bookmarkedIds, true), Select(s, bookmarkedIds, false);
    SelectSplits(s, bookmarkedIds);
    assert |multiset(a + b)| == |multiset(s)|;
    BookmarkedPartFirst(a, b, bookmarkedIds);
    a + b
  }

  /** Selecting keeps newest-first posts newest-first, so within the bookmarked
      part and within the rest the newest posts come first. */
  lemma {:induction false} SelectKeepsRecency(s: seq<PostWithCount>, bookmarkedIds: seq<string>, bookmarked: bool)
    requires NewestFirst(s)
    ensures NewestFirst(Select(s, bookmarkedIds, bookmarked))
  {
    if s != [] {
      assert NewestFirst(s[1..]) by {
        forall i, j | 0 <= i < j < |s[1..]| ensures s[1..][i].createdAt >= s[1..][j].createdAt {
          assert s[1..][i] == s[i + 1] && s[1..][j] == s[j + 1];
        }
      }
      SelectKeepsRecency(s[1..], bookmarkedIds, bookmarked);
      var rest := Select(s[1..], bookmarkedIds, bookmarked);
      if (s[0].id in bookmarkedIds) == bookmarked {
        forall k | 0 <= k < |rest| ensures s[0].createdAt >= rest[k].createdAt {
          assert rest[k] in s[1..];
          var m :| 0 <= m < |s[1..]| && s[1..][m] == rest[k];
          assert s[1..][m] == s[m + 1];
        }
        var r := [s[0]] + rest;
        forall i, j | 0 <= i < j < |r| ensures r[i].createdAt >= r[j].createdAt {
          assert r[j] == rest[j - 1];
          if i > 0 {
            assert r[i] == rest[i - 1];
          }
        }
      }
    }
  }

  // ---------------------------------------------------------------------------
  // Like toggle

  /** `post.likes?.includes(userId)`, with `null` read as not liked. */
  predicate Includes(likes: Option<seq<string>>, userId: string) {
    likes.Some? && userId in likes.value
  }

  /** `posts.find(p => p.id === postId)`: the first post with that identifier. */
  function Find(posts: seq<PostWithCount>, postId: string): (r: Option<PostWithCount>)
    ensures r.None? <==> forall i :: 0 <= i < |posts| ==> posts[i].id != postId
    ensures r.Some? ==> exists i :: 0 <= i < |posts| && posts[i] == r.value && r.value.id == postId
                                    && forall j :: 0 <= j < i ==> posts[j].id != postId
  {
    if posts == [] then None
    else if posts[0].id == postId then Some(posts[0])
    else
      var r := Find(posts[1..], postId);
      assert forall j :: 1 <= j < |posts| ==> posts[j] == posts[1..][j - 1];
      r
  }

  /** One post after the optimistic update: unliking drops every occurrence
      of the user and decrements the count; liking appends the user and
      increments it. */
  function Toggled(p: PostWithCount, userId: string, wasLiked: bool): (q: PostWithCount)
    ensures q.(likes := p.likes, likeCount := p.likeCount) == p
    ensures q.likes.Some?
    ensures wasLiked ==> q.likes.value == RemoveAll(OrEmpty(p.likes), userId)
    ensures wasLiked ==> userId !in q.likes.value && SubsequenceOf(q.likes.value, OrEmpty(p.likes))
    ensures !wasLiked ==> q.likes.value == OrEmpty(p.likes) + [userId]
    ensures q.likeCount == if wasLiked then p.likeCount - 1 else p.likeCount + 1
  {
    if wasLiked then
      RemoveAllIsSubsequence(OrEmpty(p.likes), userId);
      p.(likes := Some(RemoveAll(OrEmpty(p.likes), userId)), likeCount := p.likeCount - 1)
    else
      p.(likes := Some(OrEmpty(p.likes) + [userId]), likeCount := p.likeCount + 1)
  }

  /** The `setPosts(prev => prev.map(...))` of `handleLike`: every post with the
      identifier is rewritten, every other post is left as it was. */
  function ToggleLike(posts: seq<PostWithCount>, postId: string, userId: string, wasLiked: bool): (r: seq<PostWithCount>)
    ensures |r| == |posts|
    ensures forall i :: 0 <= i < |posts| && posts[i].id != postId ==> r[i] == posts[i]
    ensures forall i :: 0 <= i < |posts| && posts[i].id == postId ==> r[i] == Toggled(posts[i], userId, wasLiked)
  {
    seq(|posts|, i requires 0 <= i < |posts| =>
      if posts[i].id == postId then Toggled(posts[i], userId, wasLiked) else posts[i])
  }

  /** When the count agreed with a duplicate-free likes list, it still agrees
      after the toggle, and the list stays duplicate-free. */
  lemma ToggleKeepsCountMatching(p: PostWithCount, userId: string)
    requires CountMatchesLikes(p) && NoDuplicates(OrEmpty(p.likes))
    ensures var q := Toggled(p, userId, Includes(p.likes, userId));
      CountMatchesLikes(q) && NoDuplicates(OrEmpty(q.likes))
      && (Includes(q.likes, userId) <==> !Includes(p.likes, userId))
  {
    var l := OrEmpty(p.likes);
    if Includes(p.likes, userId) {
      RemoveAllLength(l, userId);
      NoDuplicatesOccursOnce(l, userId);
      RemoveAllNoDuplicates(l, userId);
    } else {
      AppendFreshNoDuplicates(l, userId);
    }
  }

  /** Liking and then unliking restores the list (a `null` list comes back
      empty) and the count. */
  lemma LikeThenUnlikeRestores(p: PostWithCount, userId: string)
    requires !Includes(p.likes, userId)
    ensures var q := Toggled(p, userId, false);
      && Includes(q.likes, userId)
      && var r := Toggled(q, userId, true);
      && r.likes == Some(OrEmpty(p.likes))
      && r.likeCount == p.likeCount
  {
    var l := OrEmpty(p.likes);
    RemoveAllAppend(l, userId);
    RemoveAllAbsent(l, userId);
  }

  /** Unliking and then liking restores the count and who liked the post,
      but moves the user to the end of the list. */
  lemma UnlikeThenLikeRestoresMembers(p: PostWithCount, userId: string)
    requires Includes(p.likes, userId)
    ensures var r := Toggled(Toggled(p, userId, true), userId, false);
      && r.likeCount == p.likeCount
      && (forall u :: u in r.likes.value <==> u in OrEmpty(p.likes))
      && r.likes.value[|r.likes.value| - 1] == userId
  {
  }

  /** The list is not restored in general: `["a", "b"]` liked by `"a"`
      becomes `["b", "a"]` after an unlike and a like. */
  lemma UnlikeThenLikeReorders()
    ensures var p := PostWithCount("p1", "u", "t", "c", 0, Some(["a", "b"]), 2, 0);
      Toggled(Toggled(p, "a", true), "a", false).likes == Some(["b", "a"])
  {
    var l: seq<string> := ["a", "b"];
    assert l[1..] == ["b"] && l[1..][1..] == [];
    assert RemoveAll(l[1..][1..], "a") == [];
    assert RemoveAll(l[1..], "a") == ["b"];
    assert RemoveAll(l, "a") == ["b"];
    assert ["b"] + ["a"] == ["b", "a"];
  }

  // ---------------------------------------------------------------------------
  // Bookmarks

  /** `toggleBookmark`: drop the identifier if present, otherwise append it. */
  function WithBookmarkToggled(ids: seq<string>, postId: string): (r: seq<string>)
    ensures postId in r <==> postId !in ids
    ensures postId !in ids ==> r == ids + [postId]
    ensures forall x :: x != postId ==> (x in r <==> x in ids)
    ensures RemoveAll(r, postId) == RemoveAll(ids, postId)
  {
    if postId in ids then
      RemoveAllIdempotent(ids, postId);
      RemoveAll(ids, postId)
    else
      RemoveAllAppend(ids, postId);
      ids + [postId]
  }

  /** Bookmarking a post that was not bookmarked and removing it again gives
      back the original list. */
  lemma ToggleBookmarkTwice(ids: seq<string>, postId: string)
    requires postId !in ids
    ensures WithBookmarkToggled(WithBookmarkToggled(ids, postId), postId) == ids
  {
    RemoveAllAppend(ids, postId);
    RemoveAllAbsent(ids, postId);
  }

  // ---------------------------------------------------------------------------
  // Post form

  /** The characters `String.prototype.trim` removes: white space and line terminators. */
  predicate IsJsWhitespace(c: char) {
    c == '\t' || c == '\n' || c == '\U{000B}' || c == '\U{000C}' || c == '\r' || c == ' '
    || c == '\U{00A0}' || c == '\U{1680}' || ('\U{2000}' <= c <= '\U{200A}')
    || c == '\U{2028}' || c == '\U{2029}' || c == '\U{202F}' || c == '\U{205F}'
    || c == '\U{3000}' || c == '\U{FEFF}'
  }

  /** Drops the leading white space. */
  function TrimStart(s: string): (r: string)
    ensures |r| <= |s| && r == s[|s| - |r|..]
    ensures forall i :: 0 <= i < |s| - |r| ==> IsJsWhitespace(s[i])
    ensures r != [] ==> !IsJsWhitespace(r[0])
  {
    if s != [] && IsJsWhitespace(s[0]) then
      var r := TrimStart(s[1..]);
      assert forall i :: 1 <= i < |s| ==> s[i] == s[1..][i - 1];
      r
    else s
  }

  /** Drops the trailing white space. */
  function TrimEnd(s: string): (r: string)
    ensures |r| <= |s| && r == s[..|r|]
    ensures forall i :: |r| <= i < |s| ==> IsJsWhitespace(s[i])
    ensures r != [] ==> !IsJsWhitespace(r[|r| - 1])
  {
    if s != [] && IsJsWhitespace(s[|s| - 1]) then
      var r := TrimEnd(s[..|s| - 1]);
      assert forall i :: 0 <= i < |s| - 1 ==> s[i] == s[..|s| - 1][i];
      r
    else s
  }

  /** `r` is `s[k..k + |r|]` and everything of `s` around it is white space. */
  ghost predicate IsWhitespaceAround(s: string, k: int, r: string) {
    && 0 <= k <= |s| - |r| && r == s[k..k + |r|]
    && (forall i :: 0 <= i < k ==> IsJsWhitespace(s[i]))
    && (forall i :: k + |r| <= i < |s| ==> IsJsWhitespace(s[i]))
  }

  /** `s.trim()`: the part of `s` between its leading and its trailing white
      space, which neither starts nor ends with white space. */
  function Trim(s: string): (r: string)
    ensures exists k :: IsWhitespaceAround(s, k, r)
    ensures r != [] ==> !IsJsWhitespace(r[0]) && !IsJsWhitespace(r[|r| - 1])
  {
    var t := TrimStart(s);
    var r := TrimEnd(t);
    var k := |s| - |t|;
    assert r == s[k..k + |r|];
    assert forall i :: k + |r| <= i < |s| ==> s[i] == t[i - k];
    assert IsWhitespaceAround(s, k, r);
    r
  }

  /** `!s.trim()`: the trimmed string is empty exactly when every character is white space. */
  lemma BlankIff(s: string)
    ensures Trim(s) == [] <==> forall i :: 0 <= i < |s| ==> IsJsWhitespace(s[i])
  {
    var t := TrimStart(s);
    if Trim(s) == [] {
      assert forall i :: |s| - |t| <= i < |s| ==> s[i] == t[i - (|s| - |t|)];
    }
  }

  /** A form field the page refuses to submit. */
  predicate IsBlank(s: string) {
    Trim(s) == []
  }
}
