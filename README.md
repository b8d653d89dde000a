# Post and comment service — a Dafny model

The service is a small social feed. It has two parts:

- A Go HTTP back end over MongoDB with two collections, posts and comments. It creates and lists posts, adds and removes likes, returns one post with its like count, creates comments and lists the comments of a post.
- A Next.js feed page (`HomePage`). It loads every post with its like and comment counts and orders the feed newest first, with bookmarked posts on top. It submits new posts, toggles likes optimistically behind a per-post in-flight guard, and keeps bookmarks in browser storage.

The model has these modules:

- `Common`: `Option` and `RemoveAll`, the "drop every occurrence" operation behind MongoDB's `$pull` and JavaScript's `filter(u => u !== x)`. It also holds the lemmas about `RemoveAll`: length, counts, order kept, idempotence.
- `ObjectIds`: MongoDB object identifiers. An identifier is held as its canonical spelling, 24 lower-case hexadecimal digits, so two identifiers are equal exactly when their bytes are. `FromHex` accepts exactly 24 hexadecimal digits of either case and keeps each digit's value.
- `UserIds`: user identifiers. The back end's anchored pattern is a sequence of character-class atoms, proved equal to "seven lower-case letters or digits, then `@itshivam.in`". The generator is a method that fills a seven-character buffer from the 36-character alphabet. It is proved to produce exactly the identifiers the pattern accepts.
- `Models`: stored posts and comments, decoded request bodies and handler responses (`Ok`, or `Error` with status and text). A post's `likes` is optional: a body without `likes` decodes to a `nil` slice, which the driver stores as `null`.
- `PostHandlers`: `PostCollection`, the posts collection as a map from identifier to post, with the handlers as methods that update it in place. Driver failures, the clock, the new identifier and the random draws are inputs, so every error path is reachable.
- `CommentHandlers`: `CommentCollection`, the comments collection as a sequence in insertion order, plus a flag for whether the collection handle has been initialised.
- `FeedLogic`: the page's pure list transformations. These are count attachment, the bookmarked-first split, the like toggle of one post and of the feed, the bookmark toggle, and JavaScript's `trim`.
- `FeedPage`: the page state as the class `HomePage`, whose fields are the React state and the two browser-storage entries. Its handlers are methods. It also has the in-place insertion sort that orders the feed newest first.
- `LikeSync`: how the page's optimistic like list compares with what the server stores, including calls of the server handlers, one after the other, on a post created the way the page creates it.

Three points where the code does not do what its comments or its page suggest; the model follows the code:

- `models/post.go:7` and `models/comment.go:10` describe a user identifier as "6-8 hex characters" plus the domain. The pattern at `post_controller.go:23` requires exactly seven characters from `[a-z0-9]`, and the generator draws from that alphabet. The model follows the pattern.
- The feed page computes an `action` of "like" or "unlike" (`index.tsx:164`) but never uses it. It always posts to `/posts/like`, which `routes.go:15` serves with `LikePost`. So an "unlike" on the page only removes the user from the page's copy; the server keeps the like (`LikeSync.UnlikeDiverges`). `LikeSync.ActionRoutedAgrees` shows that routing by `action` would keep the two in step whenever the server holds a list.
- The page creates posts without `likes` (`index.tsx:124-128`). The Go decoder leaves `Likes` as a `nil` slice (`models/post.go:11`), and `InsertOne` (`post_controller.go:60`) stores it as `null`. MongoDB refuses `$addToSet` and `$pull` on a `null` field, so `LikePost` answers 500 for every like of such a post. The page ignores the status and shows the post as liked. `LikeSync.PageCreatedPostCannotBeLiked` calls the two handlers in sequence to show this. This rests on the documented behaviour of the driver and of MongoDB; the handlers take the driver's error text as an input.

## Model

| member | source | states |
|---|---|---|
| Common.RemoveAll | backend/controllers/likes.go:93-96 | `$pull` result: the user is absent afterwards, and every other element is kept; never longer than the input |
| Common.RemoveAllLength | backend/controllers/likes.go:94-96 | removing a user shortens the list by exactly that user's number of occurrences |
| Common.RemoveAllCounts | backend/controllers/likes.go:94-96 | every other user keeps its number of occurrences |
| Common.RemoveAllIsSubsequence | backend/controllers/likes.go:94-96 | the remaining likes keep their relative order |
| Common.RemoveAllIdempotent | backend/controllers/likes.go:94-96 | pulling a user twice is the same as pulling once |
| Common.RemoveAllAbsent | backend/controllers/likes.go:94-96 | pulling a user who is not in the list changes nothing |
| Common.RemoveAllAppend | frontend/src/pages/index.tsx:178-180 | removing a user after appending that user gives the same list as removing from the original |
| Common.RemoveAllNoDuplicates | backend/controllers/likes.go:94-96 | a duplicate-free likes list stays duplicate-free after a pull |
| Common.NoDuplicatesOccursOnce | backend/controllers/likes.go:45-47 | in a duplicate-free list a present user occurs exactly once |
| ObjectIds.FromHex | backend/controllers/likes.go:38-42 | parsing succeeds exactly for 24 hex digits of either case; each digit of the identifier has the value of the input's digit at that position |
| ObjectIds.FromHexCanonical | backend/controllers/likes.go:38 | an identifier's own spelling parses back to that identifier |
| ObjectIds.FromHexSameIff | backend/controllers/likes.go:38 | two accepted spellings give the same identifier exactly when their digits have the same values, that is, when they agree ignoring case |
| ObjectIds.IsZero | backend/controllers/comment_controller.go:47 | the zero identifier (twelve zero bytes); identifiers are canonical, so this compares bytes |
| UserIds.IsValidUserId | backend/controllers/post_controller.go:36-38 | the pattern `^[a-z0-9]{7}@itshivam\.in$` as anchored atoms applied to the whole string; its meaning is stated by `UserIds.ValidUserIdIff` |
| UserIds.MatchesIff | backend/controllers/post_controller.go:36-38 | an anchored atom pattern matches exactly when the lengths agree and each character matches its atom |
| UserIds.ValidUserIdIff | backend/controllers/post_controller.go:23 | an identifier is valid exactly when it is 19 characters, the first seven are lower-case letters or digits, and the rest is `@itshivam.in` |
| UserIds.GenerateUserId | backend/controllers/post_controller.go:27-34 | the loop fills seven characters from the alphabet using the draws; the result is the generated identifier and passes validation |
| UserIds.LetterBytesIsAlphabet | backend/controllers/post_controller.go:25 | the alphabet constant is the 26 lower-case letters followed by the 10 digits |
| UserIds.LetterIndex | backend/controllers/post_controller.go:25 | every lower-case letter or digit has a position in the alphabet |
| UserIds.GeneratedIsValid | backend/controllers/post_controller.go:27-38 | every generated identifier passes validation |
| UserIds.ValidIsGenerated | backend/controllers/post_controller.go:23-34 | every identifier that passes validation can be generated by some draws |
| UserIds.SessionUserIdValidIff | frontend/src/pages/index.tsx:127 | the page's `${sessionId}@itshivam.in` is accepted exactly when the session token is seven lower-case letters or digits |
| PostHandlers.AddToSet | backend/controllers/likes.go:45-47 | `$addToSet` result: the user is present; the members are the old ones plus the user; an existing like leaves the list unchanged; otherwise the user is appended at the end; a duplicate-free list stays duplicate-free |
| PostHandlers.AddToSetIdempotent | backend/controllers/likes.go:46 | liking twice equals liking once, and the user occurs once when it was not there before |
| PostHandlers.PostCollection.constructor | backend/controllers/post_controller.go:19-21 | the posts collection after `InitPostCollection`: empty, and every post stored under its own identifier |
| PostHandlers.PostCollection.CreatePost | backend/controllers/post_controller.go:40-68 | 400 with the decoder text; 400 "Invalid userid format" for a non-empty invalid author; 500 with the driver text; otherwise the stored post has the new id, the time, a valid author (generated when empty), and it is added to the collection; errors leave the collection unchanged |
| PostHandlers.PostCollection.GetAllPosts | backend/controllers/post_controller.go:70-94 | the two 500 texts; otherwise every stored post exactly once, and `total_posts` equals the number of posts |
| PostHandlers.PostCollection.LikePost | backend/controllers/likes.go:25-62 | 400 body, 400 "Invalid PostID", 500 driver error, 404, and 500 when the stored `likes` is `null`, each leaving the store unchanged; succeeds exactly for a valid request on a stored post with a likes list; then only that post's likes change, to the `$addToSet` result, and the user is among them |
| PostHandlers.PostCollection.UnlikePost | backend/controllers/likes.go:74-111 | the same error chain; succeeds exactly for a valid request on a stored post with a likes list; then only that post's likes change, to the `$pull` result, and the user is no longer among them |
| PostHandlers.PostCollection.GetPostWithLikes | backend/controllers/likes.go:124-160 | 400 missing, 400 invalid, 500, 404; succeeds exactly for a stored post, returning it with `like_count` equal to its number of likes (0 for `null`) |
| CommentHandlers.CommentsOf | backend/controllers/comment_controller.go:89-91 | the comments of a post are exactly the stored comments with that `post_id` |
| CommentHandlers.CommentsOfIsSubsequence | backend/controllers/comment_controller.go:89-91 | the filter keeps the store's order |
| CommentHandlers.CommentsOfAppend | backend/controllers/comment_controller.go:55-91 | a new comment appears at the end of its own post's list and in no other post's list |
| CommentHandlers.CommentCollection.constructor | backend/controllers/comment_controller.go:16 | the `commentCollection` global before initialisation: no handle and nothing stored |
| CommentHandlers.CommentCollection.Init | backend/controllers/comment_controller.go:18-20 | initialising sets the handle and keeps the stored comments |
| CommentHandlers.CommentCollection.CreateComment | backend/controllers/comment_controller.go:34-63 | 500 "Database not initialized"; 400 invalid input; 400 "PostID is required" for the zero id; 500 save failure; otherwise the request gets the new id and the time and is appended; errors store nothing |
| CommentHandlers.CommentCollection.GetCommentsByPostID | backend/controllers/comment_controller.go:76-116 | 400 missing, 400 invalid, the two 500 texts; otherwise the cursor loop returns that post's comments in store order, their number, and the query string echoed back |
| FeedLogic.AuthorId | frontend/src/pages/index.tsx:127 | `${sessionId}@itshivam.in`: the session token followed by the domain |
| FeedLogic.LikeCount | frontend/src/pages/index.tsx:74 | the length of the likes list, 0 when it is `null` |
| FeedLogic.CommentCountOrZero | frontend/src/pages/index.tsx:107-110 | the reported comment count, 0 when it is missing or the request failed |
| FeedLogic.AttachCounts | frontend/src/pages/index.tsx:72-78 | position by position, each post gets like count = length of likes (0 when null) and comment count = reported count or 0 |
| FeedLogic.Select | frontend/src/pages/index.tsx:84-89 | `filter` by bookmark status: exactly the posts with that status |
| FeedLogic.SelectIsSubsequence | frontend/src/pages/index.tsx:84-89 | the filtered posts keep the input's order |
| FeedLogic.SelectSplits | frontend/src/pages/index.tsx:84-89 | the bookmarked and other parts together are a rearrangement of the input |
| FeedLogic.BookmarkedPartFirst | frontend/src/pages/index.tsx:90 | joining the bookmarked part and the rest puts every bookmarked post first |
| FeedLogic.BookmarkedFirst | frontend/src/pages/index.tsx:84-90 | the ordered feed is a permutation of the sorted posts in which every bookmarked post comes before every other post |
| FeedLogic.SelectKeepsRecency | frontend/src/pages/index.tsx:81-89 | after the newest-first sort, each part stays newest first |
| FeedLogic.Includes | frontend/src/pages/index.tsx:163 | the user is in the likes list; a `null` list holds nobody |
| FeedLogic.Find | frontend/src/pages/index.tsx:160-161 | `find`: none exactly when no post has the id; otherwise the first post with the id |
| FeedLogic.Toggled | frontend/src/pages/index.tsx:177-185 | unlike gives the list with every occurrence of the user removed (`RemoveAll`, whose lemmas say the others keep their counts and order), count minus one; like appends the user to the list (null read as empty), count plus one; all other fields kept |
| FeedLogic.ToggleLike | frontend/src/pages/index.tsx:175-189 | the feed keeps its length; posts with the id are toggled and every other post is unchanged |
| FeedLogic.ToggleKeepsCountMatching | frontend/src/pages/index.tsx:163-185 | when the count matched a duplicate-free list, the toggle keeps it matching and duplicate-free, and flips whether the user likes the post |
| FeedLogic.LikeThenUnlikeRestores | frontend/src/pages/index.tsx:178-184 | like then unlike restores the list (null becomes empty) and the count |
| FeedLogic.UnlikeThenLikeRestoresMembers | frontend/src/pages/index.tsx:178-184 | unlike then like restores the count and the set of likers, with the user moved last |
| FeedLogic.UnlikeThenLikeReorders | frontend/src/pages/index.tsx:178-180 | the order is not restored: `["a","b"]` becomes `["b","a"]` |
| FeedLogic.WithBookmarkToggled | frontend/src/pages/index.tsx:213-221 | the post's bookmark flips: a new bookmark is appended at the end, a removed one drops every occurrence; other posts keep their status; nothing else in the list changes |
| FeedLogic.ToggleBookmarkTwice | frontend/src/pages/index.tsx:213-221 | bookmarking then unbookmarking gives back the original list |
| FeedLogic.TrimStart | frontend/src/pages/index.tsx:115 | a suffix of the input; everything removed is white space, and the result does not start with white space |
| FeedLogic.TrimEnd | frontend/src/pages/index.tsx:115 | a prefix of the input; everything removed is white space, and the result does not end with white space |
| FeedLogic.Trim | frontend/src/pages/index.tsx:115 | `trim`: a slice of the input with only white space around it, neither starting nor ending with white space |
| FeedLogic.IsBlank | frontend/src/pages/index.tsx:115 | the field the form refuses: its trimmed text is empty; its meaning is stated by `FeedLogic.BlankIff` |
| FeedLogic.BlankIff | frontend/src/pages/index.tsx:115 | a field is refused exactly when every character is JavaScript white space |
| FeedPage.SortByRecency | frontend/src/pages/index.tsx:81 | sorts the array in place newest first; the result is a permutation of the input |
| FeedPage.InsertNewest | frontend/src/pages/index.tsx:81 | one insertion step extends the newest-first prefix by one element, as a permutation |
| FeedPage.SwapAdjacent | frontend/src/pages/index.tsx:81 | exchanges two neighbours and nothing else |
| FeedPage.HomePage.constructor | frontend/src/pages/index.tsx:41-62 | initial state; a stored non-empty session is reused, otherwise the fresh one is stored and used; stored bookmarks are loaded |
| FeedPage.HomePage.LoadFeed | frontend/src/pages/index.tsx:64-99 | nothing without a session; a failed fetch keeps the posts; otherwise the feed is a permutation of the fetched posts with counts, all counts match, bookmarked come first, and each part is newest first; loading ends |
| FeedPage.HomePage.HandleCreatePost | frontend/src/pages/index.tsx:114-148 | a blank field sends nothing; otherwise sends title, content and `${sessionId}@itshivam.in`; a created post is put first with zero counts and the form is cleared |
| FeedPage.HomePage.BeginLike | frontend/src/pages/index.tsx:150-157 | starts exactly when the post is not in flight; the post is then in flight |
| FeedPage.HomePage.SettleLike | frontend/src/pages/index.tsx:159-201 | no post: nothing sent; otherwise posts to `/posts/like` and applies the toggle unless the request threw; the in-flight mark is always cleared |
| FeedPage.HomePage.HandleLike | frontend/src/pages/index.tsx:150-202 | a click on a post in flight changes nothing; a click on a post not in the feed sends nothing and keeps the posts; any other click toggles the found post once unless the request threw; every click not dropped ends with the post out of flight |
| FeedPage.HomePage.ToggleBookmark | frontend/src/pages/index.tsx:212-225 | the bookmark list becomes the toggled list and is written to storage |
| FeedPage.OverlappingLikeClicks | frontend/src/pages/index.tsx:150-157 | a second click while the first is in flight is dropped, so the post is toggled exactly once |
| LikeSync.LikeAgrees | frontend/src/pages/index.tsx:166-180 | for a new like on a post whose likes list is not `null`, the page's list equals the server's `$addToSet` list |
| LikeSync.UnlikeDiverges | frontend/src/pages/index.tsx:163-180 | for an unlike, the page drops the user while the server, asked to like, keeps the user, so the lists differ |
| LikeSync.ActionRoutedAgrees | frontend/src/pages/index.tsx:164 | for a post whose likes list is not `null`, routing by the computed action would make the page's list equal the server's in both cases |
| LikeSync.NullLikesShownLiked | frontend/src/pages/index.tsx:178-184 | on a post with `null` likes the page shows the user as the only liker and adds one to the count |
| LikeSync.PageCreatedPostCannotBeLiked | backend/controllers/post_controller.go:40-68 | a post created with the page's request body is stored with `null` likes, and the following like is answered with 500 and the driver's error, leaving the store as it was |

## Left out

- Network, JSON encoding and HTTP plumbing: a handler receives its decoded body (or the decoder's error text) and the driver's outcome as inputs, and returns status and text or a body. Driver error texts are opaque inputs.
- `primitive.NewObjectID`, `time.Now`, `rand.Seed` and `rand.Intn` are inputs (`newId`, `now`, `picks`); the model assumes a new identifier is not already in use.
- MongoDB's refusal of `$addToSet`/`$pull` on a `null` likes field is modelled; its error text is an input. Other non-array values cannot reach the store through these handlers, because the decoder only produces a list or `nil`.
- `int64` width of `created_at` and of the counts is not modelled; the values are unbounded integers.
- A `nil` posts collection (a call before `InitPostCollection`) would panic in Go; the model starts from a created collection.
- CommentHandlers.CommentCollection.GetCommentsByPostID: requires an initialised collection, because the Go code dereferences the handle without a check and would panic; `main.go` always initialises it first.
- GetAllPosts returns the stored posts in an unspecified order (the map's key order); the database's natural order is not modelled.
- React's asynchronous effect scheduling, stale closures and `Promise.all` concurrency are not modelled: each handler runs to completion on the current state, except that `handleLike` is split at its guard (`BeginLike`/`SettleLike`) to show the in-flight check. The load effect re-running when bookmarks change is not modelled as a trigger.
- FeedPage.SortByRecency: the order of posts with equal creation time is not specified (JavaScript's sort is stable; the insertion sort is too, but that is not proved).
- FeedPage.HomePage.LoadFeed: a response whose `posts` is `null` (the server's encoding of an empty list) makes `data.posts.map` throw; this and every other failure of the load is the `None` input.
- `generateSessionId` (`Math.random().toString(36)`) is not modelled; `UserIds.SessionUserIdValidIff` states which session tokens the server accepts, and a token shorter than seven characters is refused.
- Toasts, clipboard sharing (`handleShare`), date formatting, JSX rendering and the post detail page are presentation and are left out; JSON parsing of stored bookmarks is reduced to an optional decoded list.
