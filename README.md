# playtoIntern feed: like, comment and paging state

This project models the like, comment and paging state of the playtoIntern community feed on
both sides of the wire, and proves properties of that model.

The client is the React feed. It has six parts:

- The post card toggles likes optimistically and rolls back on failure.
- The comment item likes without optimism and writes replies up to depth 3.
- The comment section keeps its own comment list.
- The feed pages through posts with reset and append modes.
- The leaderboard panel keeps a snapshot and refreshes it.
- The new-post form validates before it submits.

The server is the Django backend. It has five parts:

- The like table, with one like per user and object.
- Like and unlike as add-if-absent and remove-if-present, each with its status code.
- Karma over a 24-hour window: 5 per post like, 1 per comment like.
- The leaderboard: aggregate, rank, truncate to five, skip missing users.
- The serializers that build the comment tree by parent id, plus the admin previews.

Each React component is a `class` whose fields are its `useState` variables. Each async
handler is split at its `await`:

- `Begin…` is the guard and the updates before the call.
- `Finish…` is the success or failure branch. It receives the values the closure captured and
  the call's outcome, `Outcome<T> = Ok(value) | Failed`.
- A composite method (`HandleLike`, `LoadPosts`, `HandleSubmit`, …) runs both halves and states
  the end-to-end promise.

Remote calls are values of `ClientData.Request`. A callback the parent may omit is a boolean
`const`; what the callback receives is returned as an `Option`.

On the server, tables are sequences of rows, and the view methods of `Views.FeedDb` change
them step by step. Each view method is tied to a pure function of the old tables (`LikeEffect`,
`UnlikeEffect`), and the properties are proved about those functions. `LikeSync` joins the two
sides. When the card shows what the server holds, the toggle succeeds, the server's count is
the optimistic one, and both sides agree again. When the card is stale, the server refuses and
the card rolls back.

The post card receives an `onKarmaChange` callback (frontend/src/components/PostCard.js:5) but
never calls it, so a like sends no karma-change signal and the model has none. The post form
displays `length/1000` (frontend/src/components/PostForm.js:100) but enforces no limit, so the
model has no length cap.

## Model

| member | source | states |
|---|---|---|
| PostCard.ToggleTwiceRestores | frontend/src/components/PostCard.js:28-31 | the optimistic step is its own inverse: applying it twice gives back the flag and the count |
| PostCard.Card.constructor | frontend/src/components/PostCard.js:6-11 | a missing like_count, is_liked, comment_count or comments starts as 0, false, 0 or [], and comments start hidden with no toggle in flight |
| PostCard.Card.BeginLike | frontend/src/components/PostCard.js:24-33 | with a toggle in flight: no call and no state change; otherwise the snapshot is the old flag and count, the state is the optimistic toggle of it, and isLiking is set |
| PostCard.Card.FinishLike | frontend/src/components/PostCard.js:42-59 | success: the server's count replaces the optimistic one, the flag is kept, and onUpdate receives id, count and !wasLiked; failure: both fields are restored to the snapshot and onUpdate is not called; isLiking is false either way |
| PostCard.Card.HandleLike | frontend/src/components/PostCard.js:24-60 | a whole toggle: a no-op in flight; otherwise one call chosen by the old flag, then either the flipped flag with the server's count, or the exact pre-toggle state on failure |
| PostCard.Card.HandleCommentCreated | frontend/src/components/PostCard.js:62-71 | the comment is appended after the earlier ones, the count rises by exactly 1, and onUpdate receives the new count |
| PostCard.Card.ToggleComments | frontend/src/components/PostCard.js:199 | the comments button inverts the visibility of the comment section |
| PostCard.PostAvatarIndex | frontend/src/components/PostCard.js:73-84 | the avatar colour index is within the six gradients, and no colour exists for an empty username |
| ClientData.AvatarByFirstCharacter | frontend/src/components/PostCard.js:82-83 | the avatar colour depends on the first character only |
| ClientData.EveryAvatarColourUsed | frontend/src/components/PostCard.js:82-83 | every colour of the palette is reached by some one-character name |
| ClientData.FirstCodeUnit | frontend/src/components/CommentItem.js:83 | charCodeAt(0) is the character itself inside the Basic Multilingual Plane and a high surrogate outside it, always below 0x10000 |
| ClientData.Utf16Length | frontend/src/components/PostForm.js:94 | a string's JavaScript length is between its number of characters and twice that |
| ClientData.MergeCommentById | frontend/src/components/CommentSection.js:34-40 | the list keeps its length; entries with the id are merged with the patch and every other entry is unchanged |
| ClientData.MergeIdempotent | frontend/src/components/CommentSection.js:34-40 | applying the same comment update twice equals applying it once |
| ClientData.MergePostById | frontend/src/components/Feed.js:45-51 | the feed keeps its length; the post with the patch's id is merged and every other post is unchanged |
| ClientData.MergePostIdempotent | frontend/src/components/Feed.js:45-51 | applying the same post update twice equals applying it once |
| ClientData.TopLevel | frontend/src/components/CommentSection.js:56 | the filter yields no more entries than the list, all of them with a falsy parent |
| ClientData.TopLevelMembers | frontend/src/components/CommentSection.js:56 | an entry is rendered at the top level exactly when it is in the list and its parent is null or 0 |
| ClientData.TopLevelConcat | frontend/src/components/CommentSection.js:56 | the filter keeps the list's order: filtering a concatenation concatenates the filtered parts |
| ClientData.TopLevelMergeCommutes | frontend/src/components/CommentSection.js:34-56 | a like update never moves a comment into or out of the top level: merging then filtering equals filtering then merging |
| ClientData.AttachReply | frontend/src/components/CommentSection.js:42-54 | the list keeps its length; entries with the parent id get the reply appended to their replies (absent meaning empty), and the others are unchanged |
| ClientData.TopLevelAttachCommutes | frontend/src/components/CommentSection.js:42-56 | attaching a reply never changes which comments are top-level |
| CommentItem.FormatDateBuckets | frontend/src/components/CommentItem.js:20-33 | each label covers one range of elapsed milliseconds (under 1 minute, under 1 hour, under 1 day, under 7 days, later), and its number is the elapsed time floored to whole minutes, hours or days |
| CommentItem.AgeText | frontend/src/components/CommentItem.js:20-33 | `formatDate` as a function of the elapsed milliseconds: "just now" under a minute, then the floored number of minutes, hours or days with "m ago", "h ago" or "d ago", and no relative label from 7 days on |
| CommentItem.AgeLabel | frontend/src/components/CommentItem.js:28-32 | the first bucket reads "just now"; the minute, hour and day buckets read the decimal count followed by "m ago", "h ago" or "d ago"; only the calendar-date bucket has no relative label |
| CommentItem.CommentAvatarIndex | frontend/src/components/CommentItem.js:75-85 | the avatar colour index is within the five gradients, and no colour exists for an empty username |
| CommentItem.Item.constructor | frontend/src/components/CommentItem.js:12-16 | the reply form starts hidden and empty, nothing is in flight, and replies start shown |
| CommentItem.Item.BeginLike | frontend/src/components/CommentItem.js:35-45 | in flight: no call; otherwise isLiking is set and the call is chosen by the comment's flag, and the comment itself is not touched |
| CommentItem.Item.FinishLike | frontend/src/components/CommentItem.js:47-55 | success: onUpdate receives the comment's id, the server's count and the negated flag; failure: onUpdate is not called; isLiking is cleared either way |
| CommentItem.Item.HandleLike | frontend/src/components/CommentItem.js:35-56 | a whole comment like: a no-op in flight; otherwise one call, and an update only when the server answered |
| CommentItem.Item.EditReply | frontend/src/components/CommentItem.js:243 | typing replaces the reply draft |
| CommentItem.Item.ToggleReplyForm | frontend/src/components/CommentItem.js:176-178 | the Reply button inverts the form below depth 3; at depth 3 and deeper there is no button and the form stays as it was |
| CommentItem.Item.CancelReply | frontend/src/components/CommentItem.js:261-264 | Cancel hides the form and discards the draft |
| CommentItem.Item.ToggleReplies | frontend/src/components/CommentItem.js:201 | the replies button inverts the visibility of the replies |
| CommentItem.Item.ReplySubmitDisabled | frontend/src/components/CommentItem.js:279 | the reply button is disabled exactly while submitting or while the draft is all whitespace |
| CommentItem.Item.BeginReply | frontend/src/components/CommentItem.js:58-64 | a draft that is blank after trimming sends nothing and changes nothing; otherwise the reply to this comment is sent with the draft as typed |
| CommentItem.Item.FinishReply | frontend/src/components/CommentItem.js:64-72 | success: onReplyCreated receives the comment's id and the reply, the draft is cleared and the form hidden; failure: draft and form are kept; not submitting either way |
| CommentItem.ReplyAffordance | frontend/src/components/CommentItem.js:176 | in a chain of items, each rendered one level below the one before starting from 0, the item at position k has depth k and offers Reply exactly when k is at most 2 |
| CommentSection.Section.constructor | frontend/src/components/CommentSection.js:5-8 | the box starts empty, nothing is submitting, and the local list is the prop |
| CommentSection.Section.SyncProps | frontend/src/components/CommentSection.js:11-13 | a new comments prop replaces the local list wholesale |
| CommentSection.Section.EditComment | frontend/src/components/CommentSection.js:85 | typing replaces the comment draft |
| CommentSection.Section.BeginSubmit | frontend/src/components/CommentSection.js:15-21 | a blank comment sends nothing and changes nothing; otherwise a top-level comment with the text as typed is sent and the section is submitting |
| CommentSection.Section.FinishSubmit | frontend/src/components/CommentSection.js:21-31 | success: the created comment goes after all earlier ones, the box is cleared, and onCommentCreated receives it once; failure: list and box unchanged; not submitting either way |
| CommentSection.Section.HandleCommentUpdate | frontend/src/components/CommentSection.js:34-40 | the local list becomes the by-id merge of the update into its own entries |
| CommentSection.Section.HandleReplyCreated | frontend/src/components/CommentSection.js:42-54 | the local list becomes the list with the reply attached to its own entries with the parent's id |
| CommentSection.UpdateOfNestedIsNoOp | frontend/src/components/CommentSection.js:34-40 | an update for an id that no entry of the list itself has, such as a nested reply's, leaves the list unchanged |
| CommentSection.ReplyToNestedIsNoOp | frontend/src/components/CommentSection.js:44-52 | a reply to a parent that is no entry of the list itself leaves the list unchanged |
| CommentSection.ReplyAppended | frontend/src/components/CommentSection.js:42-54 | the parent's replies become its old replies (or []) followed by the new reply, and nothing else in that entry changes |
| CommentSection.LikeUpdateShown | frontend/src/components/CommentSection.js:34-56 | after a like update for a top-level comment, the rendered list has the same length and shows that comment with the server's count and the flipped flag |
| CommentSection.CreatedCommentShownLast | frontend/src/components/CommentSection.js:22-56 | a newly created (top-level) comment is rendered after all the top-level comments before it |
| Feed.Loaded | frontend/src/components/Feed.js:19-23 | reset mode replaces the posts with the page; append mode keeps the old posts as a prefix followed by the page's posts |
| Feed.FeedView.constructor | frontend/src/components/Feed.js:6-10 | no posts, not loading, no error, hasMore true and page 1 |
| Feed.FeedView.BeginLoad | frontend/src/components/Feed.js:12-17 | loading is set and the error cleared before the page is requested |
| Feed.FeedView.FinishLoad | frontend/src/components/Feed.js:19-32 | success: posts replaced or extended, hasMore exactly when next is a non-empty link, and the page becomes current; failure: posts, hasMore and page unchanged and the error set; loading false either way |
| Feed.FeedView.LoadPosts | frontend/src/components/Feed.js:12-33 | a whole loadPosts(page, reset): one request for that page and the success or failure outcome above, with no error left on success |
| Feed.FeedView.Reload | frontend/src/components/Feed.js:35-37 | a refresh trigger and the Retry button (line 58) both load page 1 in reset mode |
| Feed.FeedView.HandleLoadMore | frontend/src/components/Feed.js:39-43 | nothing happens while loading or without more pages; otherwise page currentPage + 1 is appended, or the error is set and the rest kept |
| Feed.FeedView.HandlePostUpdate | frontend/src/components/Feed.js:45-51 | the posts become the by-id merge of the card's update |
| Feed.NextPageExists | frontend/src/components/Feed.js:39-43 | while a page has a next link, the page Load More asks for exists on the server |
| Feed.WalkIsPrefix | frontend/src/components/Feed.js:19-26 | after page 1 and k - 1 Load Mores, the feed holds exactly the server's first posts in order, each once |
| Feed.WalkReachesAll | frontend/src/components/Feed.js:19-43 | once a page has no next link, the feed holds every post of the list, in order, each once |
| LeaderboardView.RankLabelReadsBack | frontend/src/components/Leaderboard.js:60 | a numbered label is '#' followed by digits that read back as index + 1 |
| LeaderboardView.RankStylesDistinct | frontend/src/components/Leaderboard.js:49-56 | the first three ranks have three different styles, none of them the default, and every later rank shares one style |
| LeaderboardView.RankEmojiDistinct | frontend/src/components/Leaderboard.js:58-61 | two ranks get the same label exactly when they are the same rank |
| LeaderboardView.Panel.constructor | frontend/src/components/Leaderboard.js:5-8 | an empty snapshot, not loading, no error, no update time and no timer |
| LeaderboardView.Panel.BeginLoad | frontend/src/components/Leaderboard.js:10-15 | loading is set and the error cleared before the leaderboard is requested |
| LeaderboardView.Panel.FinishLoad | frontend/src/components/Leaderboard.js:14-23 | success: the snapshot and its time are the response's; failure: both are kept and the error set; loading false either way |
| LeaderboardView.Panel.Load | frontend/src/components/Leaderboard.js:10-24 | a whole loadLeaderboard: one request and the outcome above, with no error left on success |
| LeaderboardView.Panel.Mount | frontend/src/components/Leaderboard.js:26-30 | mounting loads once and installs the interval |
| LeaderboardView.Panel.Tick | frontend/src/components/Leaderboard.js:30 | each interval tick reloads while the interval is installed, and does nothing after it is cleared |
| LeaderboardView.Panel.Unmount | frontend/src/components/Leaderboard.js:31 | unmounting clears the interval |
| LeaderboardView.Panel.RefreshTriggerChanged | frontend/src/components/Leaderboard.js:35-39 | a trigger change reloads exactly when the trigger is positive and changes nothing otherwise |
| PostForm.WordEstimate | frontend/src/components/PostForm.js:101-103 | the word estimate is shown exactly for a non-empty text, and it is the least n with length at most 20n (the ceiling of length / 20) |
| PostForm.Form.Words | frontend/src/components/PostForm.js:100-103 | the counter's word estimate is shown exactly while the content is non-empty; it is the ceiling of the content's UTF-16 length over 20, so 20 times it covers at least the number of characters |
| PostForm.Form.constructor | frontend/src/components/PostForm.js:5-7 | empty content, not submitting, no error |
| PostForm.Form.Edit | frontend/src/components/PostForm.js:71 | typing replaces the content |
| PostForm.Form.SubmitDisabled | frontend/src/components/PostForm.js:110 | the button is disabled exactly while submitting or while the content is all whitespace |
| PostForm.Form.CounterIsRed | frontend/src/components/PostForm.js:94 | the counter is red exactly past 800 UTF-16 units: always past 800 characters, never at 400 or fewer |
| PostForm.Form.BeginSubmit | frontend/src/components/PostForm.js:9-17 | blank content sets "Please enter some content" and sends nothing; otherwise the form is submitting with no error and the content is sent |
| PostForm.Form.FinishSubmit | frontend/src/components/PostForm.js:19-30 | success: the content is cleared and onPostCreated is called once; failure: the content is kept and the error set; not submitting either way |
| PostForm.Form.HandleSubmit | frontend/src/components/PostForm.js:9-31 | a whole submission: blank content leaves content and submitting state as they were, and non-blank content ends not submitting with the outcome above |
| Common.BlankIffAllWhitespace | frontend/src/components/PostForm.js:11 | `!s.trim()` holds exactly when every character is ECMAScript whitespace |
| Common.TrimStart | frontend/src/components/PostForm.js:11 | trimming the start removes a whitespace prefix and stops at the first non-whitespace character |
| Common.TrimEnd | frontend/src/components/PostForm.js:11 | trimming the end removes a whitespace suffix and stops at the last non-whitespace character |
| Common.Take | feed/models.py:30 | Python's s[:n] has length min(len(s), n) and is a prefix of s |
| Common.Decimal | frontend/src/components/Leaderboard.js:60 | the decimal rendering of a number is a non-empty string of digits |
| Common.DecimalRoundTrip | frontend/src/components/Leaderboard.js:60 | parsing the decimal rendering gives the number back |
| LikeSync.ToggleInSync | frontend/src/components/PostCard.js:24-60 | when every like belongs to an existing user and the card shows the server's flag and count, the toggle's call succeeds, the server reports exactly the optimistic count, and afterwards card and server agree; this includes the first anonymous like, which creates the demo user |
| LikeSync.LikeInSync | feed/views.py:91-106 | a like from an in-sync card that does not like the post succeeds with count + 1, and the card is in sync afterwards, also when the like is the first anonymous one and creates the demo user |
| LikeSync.UnlikeInSync | feed/views.py:140-154 | an unlike from an in-sync card that likes the post succeeds with count - 1, and the card is in sync afterwards |
| LikeSync.LikeFacts | feed/views.py:91-106 | a like by a user without one on the object adds that user's key, answers 201, and reports the new count, one more than before |
| LikeSync.UnlikeFacts | feed/views.py:140-154 | an unlike by a user with a like removes that user's key, answers 200, and reports the new count, one less than before |
| LikeSync.StaleToggleFails | feed/views.py:107-163 | a toggle from a card that is out of date is refused (400) and changes no like, so the card rolls back |
| LikeSync.ConflictFails | feed/views.py:116-123 | a like whose `get_or_create` re-raised an IntegrityError is answered 409, changes no like, and the card rolls back |
| Models.LikeCount | feed/models.py:32-37 | an object's like count is at most the number of likes, and it is 0 exactly when no like names that content type and id |
| Models.LikeCountIsLikers | feed/models.py:101-103 | because no two likes share a key, the like count is the number of distinct users who liked the object |
| Models.DepthCountsAncestors | feed/models.py:76-83 | a comment's depth is its number of ancestors, and it is 0 exactly for a top-level comment |
| Models.Depth | feed/models.py:76-83 | when a comment's parent chain ends, its depth is the number of steps up to a top-level comment |
| Models.DepthStep | feed/models.py:76-83 | a reply's chain ends exactly when its parent's does, and then it is one level deeper than its parent and its ancestors are the parent and the parent's ancestors |
| Models.DepthUnique | feed/models.py:76-83 | the number of steps up to a top-level comment is unique: it is the depth |
| Models.DepthBelowSize | feed/models.py:76-83 | a depth is always below the number of comments |
| Models.AtDepthIsDepth | feed/models.py:76-83 | a comment standing d steps below a top-level comment has depth d, below the number of comments |
| Models.ReplyAtDepth | feed/models.py:76-83 | a reply of a comment at depth d stands at depth d + 1, still below the number of comments |
| Models.SetParent | feed/serializers.py:39-44 | an update of `parent` changes that comment's parent only, keeps every parent an existing comment and keeps the set of comments |
| Models.SelfParentNeverEnds | feed/serializers.py:39-44 | after a comment is made its own parent, its chain never reaches a top-level comment: `get_thread_depth` would never return, and the serializer's recursion into replies has no end |
| Models.ParentAllowed | feed/models.py:76-83 | the check accepts a new parent exactly when it is none, or neither the comment itself nor one of the comment's descendants |
| Models.CheckedUpdateKeepsAcyclic | feed/models.py:76-83 | an update the check accepts keeps every parent chain finite |
| Models.ThreadDepth | feed/models.py:76-83 | for a comment whose parent chain ends, the loop up the chain returns its depth, which is its number of ancestors |
| Models.PostStr | feed/models.py:29-30 | the text is the username, then ": ", then the first 50 characters of the content (all of it when shorter) |
| Models.CommentStr | feed/models.py:66-67 | the text is the author's username, " on ", the post's text, ": ", then the first 30 characters of the comment's content (all of it when shorter) |
| Admin.Preview | feed/admin.py:19 | content within the limit is returned unchanged; longer content becomes its first limit characters followed by "...", and never more than limit + 3 long |
| Admin.PreviewKeepsShortContent | feed/admin.py:19 | two contents within the limit have the same preview exactly when they are equal |
| Admin.PostPreview | feed/admin.py:18-19 | a post preview is the whole content up to 50 characters, and otherwise the first 50 characters and "..." (53 in all) |
| Admin.CommentPreview | feed/admin.py:30-31 | a comment preview is the whole content up to 30 characters, and otherwise the first 30 characters and "..." (33 in all) |
| Karma.PostAuthors | feed/utils.py:106-107 | every post's id has an author entry |
| Karma.PostAuthorsFromRows | feed/utils.py:106-107 | every entry of the post author map comes from a post row with that id and author |
| Karma.CommentAuthors | feed/utils.py:115-116 | every comment's id has an author entry |
| Karma.CommentAuthorsFromRows | feed/utils.py:115-116 | every entry of the comment author map comes from a comment row with that id and author |
| Karma.LikeKarma | feed/utils.py:24-47 | a like contributes its karma value when it is inside the window and on the user's post or comment, and 0 otherwise |
| Karma.KarmaPositiveIffCounted | feed/utils.py:24-47 | a user's 24-hour karma is positive exactly when some like in the window is on their content, and otherwise it is 0, never None |
| Karma.KarmaSplitsByType | feed/utils.py:27-47 | a user's karma is 5 per post like plus 1 per comment like inside the window |
| Karma.AddToRow | feed/utils.py:76-84 | grouping keeps every group positive and the object ids distinct, and opens no group for an unseen object other than the one added |
| Karma.GroupRows | feed/utils.py:73-98 | the grouped aggregate has one positive row per object |
| Karma.AddToRowKarma | feed/utils.py:73-98 | adding a like to its group adds its weight to the author's total and to nobody else's |
| Karma.GroupRowsKarma | feed/utils.py:73-98 | summing the grouped rows per author equals summing that author's likes of the type one by one |
| Karma.AddRows | feed/utils.py:104-119 | each accumulation loop adds each row's karma to its object's author, skips rows whose object is gone, and keeps the dictionary's keys in first-insertion order |
| Karma.TallyKarma | feed/utils.py:100-119 | after both loops, the dictionary holds exactly the users with positive karma, each with their 24-hour karma |
| Karma.Insert | feed/utils.py:122 | inserting into the ranking keeps the same entries plus the new one |
| Karma.SortByKarma | feed/utils.py:122 | sorting is a permutation of the items |
| Karma.InsertMembers | feed/utils.py:122 | after insertion the ranking holds exactly the old entries and the new one |
| Karma.InsertSorted | feed/utils.py:122 | insertion keeps a ranking non-increasing |
| Karma.SortSorted | feed/utils.py:122 | the sorted list is ordered by karma, highest first |
| Karma.InsertStable | feed/utils.py:122 | insertion places the new entry after the entries of greater karma and before those of equal karma |
| Karma.SortStable | feed/utils.py:122 | the sort is stable: entries of equal karma keep their dictionary order |
| Karma.SortKeepsUsersDistinct | feed/utils.py:122 | sorting never duplicates a user |
| Karma.InsertKeepsUsersDistinct | feed/utils.py:122 | inserting a new user keeps users distinct |
| Karma.SortedMembers | feed/utils.py:122 | the sorted list holds exactly the dictionary's items |
| Karma.Items | feed/utils.py:122 | the items are the dictionary's pairs in insertion order |
| Karma.FindUser | feed/utils.py:128 | a lookup by id finds a user row with that id, or proves there is none |
| Karma.Fetch | feed/utils.py:125-132 | fetching returns no more users than ranked entries |
| Karma.FetchFromEntries | feed/utils.py:125-132 | every fetched user comes from a ranked entry with that karma, and its user row exists |
| Karma.FetchKeepsExisting | feed/utils.py:125-132 | no ranked entry whose user exists is dropped |
| Karma.FetchSorted | feed/utils.py:125-132 | skipping missing users keeps the ranking order |
| Karma.FetchDistinct | feed/utils.py:125-132 | fetching never returns a user twice |
| Karma.FetchUsers | feed/utils.py:125-132 | the fetch loop returns the ranked users that exist, in ranking order |
| Karma.TopFromItems | feed/utils.py:125-132 | every returned user is one of the items, with its karma, and its user row exists |
| Karma.TopComplete | feed/utils.py:122-132 | a user who exists but was not returned ranks no higher than anyone returned, and the truncated ranking is full with limit other users, none with less karma |
| Karma.RankingFacts | feed/utils.py:122-132 | ranking, truncating and fetching give at most limit existing users, distinct and non-increasing, each with its own karma, and ahead of every existing user left out |
| Karma.ItemsOfTally | feed/utils.py:101-122 | the items hold one entry per user with positive karma, with that karma |
| Karma.TallyRanking | feed/utils.py:122-132 | for the accumulated dictionary: at most limit existing users, distinct and non-increasing, each with its tallied karma, none below an existing user left out |
| Karma.TallyLeftOut | feed/utils.py:122-132 | a user with tallied karma who exists but is not returned was cut by a full list of limit other kept users, none with less karma |
| Karma.LeftOutWasOutranked | feed/utils.py:122-132 | sorting and truncating keep distinct users from the items; an item whose user exists but is not returned was cut by limit kept entries, none with less karma |
| Karma.TallyOutranked | feed/utils.py:122-132 | for any karma function the tally agrees with, a user with karma who exists but is left out has limit distinct other users ahead of it, none with less karma, each returned unless it does not exist |
| Karma.KarmaOutranked | feed/utils.py:52-134 | the same for 24-hour karma: an existing user with karma left out is outranked by limit distinct other users, each returned unless it does not exist |
| Karma.GetLeaderboardUsers | feed/utils.py:52-134 | at most limit users, all existing and distinct, non-increasing in karma, each with exactly its positive 24-hour karma; an existing user with karma who is left out ranks no higher than anyone returned and is outranked by limit distinct other users, none with less karma, each of them returned unless it does not exist |
| Serializers.Filter | feed/serializers.py:125-128 | a comprehension never grows the list |
| Serializers.FilterMembers | feed/serializers.py:125-128 | a comprehension keeps exactly the elements that pass its test |
| Serializers.FilterConcat | feed/serializers.py:125-128 | a comprehension keeps the original order |
| Serializers.TopLevelExactly | feed/serializers.py:125-128 | the prefetched top-level comments are exactly those with no parent, in creation order |
| Serializers.DirectRepliesExactly | feed/serializers.py:131-135 | a comment's prefetched replies are exactly the comments whose parent is that comment, in order |
| Serializers.FindByUsername | feed/serializers.py:68 | a lookup by username finds a row with that name, or proves there is none |
| Serializers.NextUserId | feed/views.py:84-87 | a created user gets an id no existing user has |
| Serializers.GetOrCreateDemo | feed/views.py:84-87 | get_or_create returns the existing demo_user and leaves the table alone, or appends one new demo_user with a fresh id |
| Serializers.ActingUser | feed/views.py:81-87 | an authenticated request acts as its user with the table unchanged; an anonymous one acts as a demo_user row |
| Serializers.IsLiked | feed/serializers.py:98-116 | is_liked is false without a request or without a demo user for an anonymous request, and otherwise true exactly when the viewer's like is present |
| Serializers.FirstAnonymousActor | feed/views.py:81-87 | when no demo user exists yet, the one an anonymous like creates becomes the anonymous viewer and holds none of the existing likes |
| Serializers.FindByUsernameAppend | feed/views.py:84-87 | a username absent from the table is found in the row get_or_create appends |
| Serializers.Viewer | feed/serializers.py:100-110 | an authenticated reader is itself; an anonymous reader is the demo user when one exists, and nobody when none does |
| Serializers.CreateLike | feed/serializers.py:166-189 | a second like of the same object by the same user is the validation error "You have already liked this content."; otherwise exactly that like is added and keys stay unique |
| Serializers.FilterTwice | feed/serializers.py:144 | filtering by post and then by parent equals one filter by both |
| Serializers.SerializeUser | feed/serializers.py:13-24 | an author is serialized with its own id and username and its 24-hour karma |
| Serializers.ReplySourceFacts | feed/serializers.py:46-56 | every reply get_replies serializes is a stored comment whose parent is the comment, one level deeper than it and still below the number of comments |
| Serializers.SerializeComment | feed/serializers.py:27-56 | a serialized comment carries its own id, parent, post, like count and viewer flag, and one nested entry per direct reply, in order, each naming the comment as its parent |
| Serializers.SerializeReplies | feed/serializers.py:46-56 | the reply list serializes each reply in order, one entry per reply with its own id and the comment as parent |
| Serializers.ReplyDeeper | feed/serializers.py:46-56 | a direct reply of a comment at depth d is a stored comment at depth d + 1, so the recursion over replies is bounded by the number of comments |
| Serializers.TopLevelAtDepth | feed/serializers.py:119-147 | every comment get_comments starts from stands at depth 0 |
| Serializers.TopLevelOfMembers | feed/serializers.py:118-149 | on both paths, get_comments starts from exactly the post's comments with no parent |
| Serializers.GetComments | feed/serializers.py:118-149 | get_comments serializes exactly the post's top-level comments, in order, each top-level and on that post |
| Serializers.SerializeAgrees | feed/serializers.py:46-56 | a comment serializes the same with or without a prefetched list when both give the same replies |
| Serializers.TopsAgree | feed/serializers.py:123-149 | the prefetched path and the fallback path start from the same top-level comments |
| Serializers.RepliesAgree | feed/serializers.py:49-56 | when replies stay on their parent's post, the prefetched replies equal the fallback replies |
| Serializers.PrefetchAgrees | feed/serializers.py:118-149 | when replies stay on their parent's post, retrieve's prefetched comment tree equals the list's fallback tree |
| Serializers.CommentCountSplits | feed/serializers.py:151-155 | comment_count is the number of top-level comments plus the number of replies at any depth |
| Serializers.CommentCount | feed/serializers.py:151-155 | comment_count is at most the number of comments, and it is 0 exactly when no comment is on the post |
| Serializers.FilterSplit | feed/serializers.py:151-155 | a test and its negation split a list between them |
| Serializers.SerializePost | feed/serializers.py:79-155 | a serialized post carries its id, its author with 24-hour karma, its like count, the viewer's flag, the comment tree and the count of all its comments |
| Serializers.AttachPrefetchedReplies | feed/serializers.py:130-135 | the loop pairs each top-level comment, in order, with exactly the comments whose parent is it |
| Views.AddLike | feed/views.py:93-97 | get_or_create adds the key to the table's keys, and inserts one row exactly when the key was absent, keeping the earlier rows |
| Views.AddLikeKeepsUnique | feed/models.py:101-103 | liking keeps the table free of duplicate keys |
| Views.AddLikeCount | feed/views.py:99-106 | a new like raises its own object's count by one and no other object's |
| Views.RemoveLike | feed/views.py:141-146 | deleting removes exactly that key from the table's keys and never adds rows |
| Views.RemoveLikeKeepsUnique | feed/models.py:101-103 | unliking keeps the table free of duplicate keys |
| Views.RemoveLikeCount | feed/views.py:146-154 | deleting a present like lowers its own object's count by one and no other object's |
| Views.RemoveLikeLength | feed/views.py:141-146 | with unique keys, deleting a present like removes exactly one row |
| Views.RemovedLike | feed/views.py:141-154 | removing a present like leaves unique keys, one row fewer, that key gone, and its object's count one lower |
| Views.UnlikeUndoesLike | feed/views.py:91-154 | unliking right after a successful like restores the table exactly |
| Views.LikeUndoesUnlike | feed/views.py:91-154 | liking right after a successful unlike restores the set of likes |
| Views.PostById | feed/views.py:61-68 | retrieve finds the post with that id, or proves there is none |
| Views.LikeEffect | feed/views.py:73-123 | a like never leaves two rows with the same user, content type and object |
| Views.LikeEffectSpec | feed/views.py:73-123 | 404 exactly for a missing object; otherwise 201 exactly when the acting user's like is new and `get_or_create` raises nothing, with the key added and the count one higher; 400 exactly when the like exists; 409 exactly when the like is new and `get_or_create` re-raised an IntegrityError; the table is unchanged unless 201 |
| Views.LikeEffectCounts | feed/views.py:107-123 | a 400 reports the object's current like count, and a 409 reports one more, counting the like the concurrent request committed |
| Views.UnlikeEffect | feed/views.py:125-163 | unlike: 404 for a missing object; otherwise 200 with the key removed and the count one lower when the like exists, and 400 with no change when it does not |
| Views.LikeThenUnlike | feed/views.py:73-163 | a successful like and then an unlike by the same requester answer 200, restore the table, and report the original count |
| Views.ActingUserStable | feed/views.py:84-87 | resolving the acting user a second time finds the same user and creates nothing |
| Views.PageStartIsProduct | feed/views.py:20-23 | page n starts at item (n - 1) × size |
| Views.PageOf | feed/views.py:20-23 | page 1 always exists and a later page exists when items remain before it; a page holds at most size consecutive items, has a next link exactly when items remain after it, and is full when it has one |
| Views.FirstPageSize | feed/views.py:20-23 | the first page always exists and holds min(items, size) results, never more than 100; a valid page_size up to the number of items gives exactly that many, and no page_size gives 20 when there are at least 20 |
| Views.PagesFromSuffix | feed/views.py:20-23 | following next links from a page yields every item from that page's start, in order |
| Views.AllPages | feed/views.py:20-23 | following next links from page 1 yields every item exactly once, in order |
| Views.NewestFirst | feed/views.py:42 | the list order is the reverse of creation order |
| Views.NewestFirstSorted | feed/views.py:42 | listed posts are ordered by creation time, newest first |
| Views.FeedDb.constructor | feed/models.py:101-103 | the database starts with the given tables, unique like keys and valid foreign keys |
| Views.FeedDb.ResolveActingUser | feed/views.py:81-87 | the acting user and the user table after any get_or_create, keeping the foreign keys valid |
| Views.FeedDb.Like | feed/views.py:73-123 | the step-by-step like view returns and leaves exactly what LikeEffect says, keeping keys unique |
| Views.FeedDb.Unlike | feed/views.py:125-163 | the step-by-step unlike view returns and leaves exactly what UnlikeEffect says, keeping keys unique |
| Views.FeedDb.Retrieve | feed/views.py:57-71 | retrieve fails with "Post not found" exactly when no post has the id; otherwise it returns that post serialized in full: its comment tree, comment count, like count, the requester's like flag, and its author with the author's 24-hour karma |
| Views.FeedDb.Leaderboard | feed/views.py:290-302 | at most 5 distinct existing users, each row with that user's own id and username and their positive 24-hour karma, non-increasing in karma; an existing user with karma who is missing is outranked by 5 distinct others, none with less karma, each returned unless it does not exist; labelled "24 hours" and stamped with the request time |
| Views.FeedDb.List | feed/views.py:34-42 | a list request returns a page exactly when that page of the newest-first posts exists, with its next and previous flags and each post serialized |

## Findings

| source | as written | input that shows it | evidently intended | confidence | as-written member | corrected member |
|---|---|---|---|---|---|---|
| feed/serializers.py:39-44 | `parent` is a writable field of the comment serializer behind a full `ModelViewSet`, so an update accepts any existing comment as the new parent, the comment itself included | PATCH `{"parent": 5}` on comment 5: the comment is then among its own replies, so `get_replies` (feed/serializers.py:55-56) recurses into itself, in the PATCH response and in every later listing of comments, until Python raises RecursionError and Django answers 500. `get_thread_depth` (feed/models.py:76-83) would loop forever too, but nothing calls it | a comment may not become a reply to itself or to one of its own replies, so every parent chain stays finite | not executed | Models.SelfParentNeverEnds | Models.CheckedUpdateKeepsAcyclic |

## Left out

- React scheduling and concurrency: each handler runs as one uninterrupted call, its halves split at the `await`. Overlapping requests and the last-response-wins race between overlapping leaderboard refreshes are not modelled.
- Timers and clocks: `setInterval`/`clearInterval` are reduced to whether the interval is installed (`Panel.Tick` is one tick). `new Date()` and `timezone.now()` are integer parameters: milliseconds on the client, seconds on the server.
- Locale formatting: `toLocaleDateString`, `toLocaleTimeString` and the post card's `formatDate` are not modelled. `CommentItem.AgeLabel` leaves the calendar-date label as `None`.
- LeaderboardView.Panel.FinishLoad: `lastUpdated` keeps the response's `updated_at` string instead of parsing it into a `Date`.
- Views.FeedDb.Leaderboard: `updated_at` is the integer request time, not its ISO 8601 text.
- frontend/src/services/api.js is reduced to the `Request` values and `LikeSync.ClientOutcome`. Base URLs, headers and the `author: MOCK_USER_ID` body field are not modelled.
- The Django ORM, `ContentType`, `transaction.atomic` and query prefetching: tables are sequences of rows and a content type is its model name.
- The 409 path of `like` depends on a concurrent transaction. It is modelled as the input `integrityError`, meaning that `get_or_create` re-raised the IntegrityError of its own insert, not as an interleaving. The concurrent request's committed like is counted in the 409 `like_count` (`Views.CountWithRival`) but is not added to the table, since it is that other request's effect.
- A like that loses the race to an identical concurrent like usually ends in the 400 branch, not in the 409 one. `get_or_create` catches the IntegrityError of its own insert, reads again, finds the rival's row and returns it as existing, so the view answers "You have already liked this post". The model covers that outcome only as the key-present branch on a table that already holds the rival's like. The interleaving itself is not modelled.
- `get_object_or_404` answers with Django's "Not found." detail. The model keeps only the 404 status and that text.
- The `recent_likes` query in `get_leaderboard_users` is never read, so it is not modelled.
- SQL leaves the row order of a grouped aggregate unspecified. `Karma.GroupRows` lists groups in the order of their first like; the ranking among users with equal karma follows that order.
- Posts with equal `created_at` are listed in reverse table order by `Views.NewestFirst`; SQL leaves their order open.
- `perform_create` for posts and comments and the serializers' write paths other than `LikeSerializer.create` are not modelled. Only the requests the components send are.
- feed/urls.py (routing) and create_sample_data.py (random seeding) are not part of this model.
- All JSX rendering, styling and layout, and the whole of App.js. App.js's two counters are modelled as the refresh triggers `Feed.FeedView.Reload` and `LeaderboardView.Panel.RefreshTriggerChanged`.
- `onKarmaChange` is never called by the post card, so no karma-change signal exists in the model.
- The 1000-character limit is only displayed, so it is not enforced.
- Serializers.SerializeComment: it requires that the comment's parent chain ends (`Placed`). So the as-written serialization of a self-parented comment is not modelled: the unbounded recursion of `get_replies` and the RecursionError (a 500) it ends in. `Models.SelfParentNeverEnds` states when such a chain arises.
- Views.FeedDb.List: `page` is an integer. DRF's `page=last` and the 404 for a page number that is not an integer are not modelled.
- Views.FeedDb.Retrieve: `pk` is a natural number. A non-numeric `pk` makes `Post.objects.get` raise `ValueError`, which Django answers with a 500; that path is not modelled.
- String lengths: server-side lengths and slices count code points, and client-side lengths count UTF-16 units (`ClientData.Utf16Length`). Python slicing and JavaScript `trim` are modelled on code points.
- CommentSection.Section.SyncProps: the card's new comments array replaces the section's list. Likes and replies the section merged locally are lost on the next sync; the model reproduces this and proves nothing against it.
