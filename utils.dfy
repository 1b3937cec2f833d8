/**
  Karma over a trailing 24-hour window (feed/utils.py). Timestamps are integers in seconds;
  `now` is a parameter. A post like earns the post's author 5 points, a comment like earns
  the comment's author 1 point.
 */
module Karma {
  import opened Common
  import opened Models

  /** `timedelta(hours=24)` in seconds. */
  const Window: int := 24 * 60 * 60

  /** Object id -> author id for every row of a table (`Post.objects.get(id=..).author_id`). */
  function PostAuthors(posts: seq<PostRow>): (m: map<nat, nat>)
    ensures forall i :: 0 <= i < |posts| ==> posts[i].id in m
  {
    if posts == [] then map[]
    else
      var p := posts[|posts| - 1];
      PostAuthors(posts[..|posts| - 1])[p.id := p.author]
  }

  /** Every author the post map gives is the author of a post row with that id. */
  lemma {:induction false} PostAuthorsFromRows(posts: seq<PostRow>)
    ensures forall id :: id in PostAuthors(posts) ==>
      exists i :: 0 <= i < |posts| && posts[i].id == id && posts[i].author == PostAuthors(posts)[id]
  {
    if posts != [] {
      var init := posts[..|posts| - 1];
      PostAuthorsFromRows(init);
      forall id | id in PostAuthors(posts)
        ensures exists i :: 0 <= i < |posts| && posts[i].id == id && posts[i].author == PostAuthors(posts)[id]
      {
        if id != posts[|posts| - 1].id {
          assert id in PostAuthors(init);
          var i :| 0 <= i < |init| && init[i].id == id && init[i].author == PostAuthors(init)[id];
          assert posts[i] == init[i];
        }
      }
    }
  }

  function CommentAuthors(comments: seq<CommentRow>): (m: map<nat, nat>)
    ensures forall i :: 0 <= i < |comments| ==> comments[i].id in m
  {
    if comments == [] then map[]
    else
      var c := comments[|comments| - 1];
      CommentAuthors(comments[..|comments| - 1])[c.id := c.author]
  }

  /** Every author the comment map gives is the author of a comment row with that id. */
  lemma {:induction false} CommentAuthorsFromRows(comments: seq<CommentRow>)
    ensures forall id :: id in CommentAuthors(comments) ==>
      exists i :: 0 <= i < |comments| && comments[i].id == id && comments[i].author == CommentAuthors(comments)[id]
  {
    if comments != [] {
      var init := comments[..|comments| - 1];
      CommentAuthorsFromRows(init);
      forall id | id in CommentAuthors(comments)
        ensures exists i :: 0 <= i < |comments| && comments[i].id == id && comments[i].author == CommentAuthors(comments)[id]
      {
        if id != comments[|comments| - 1].id {
          assert id in CommentAuthors(init);
          var i :| 0 <= i < |init| && init[i].id == id && init[i].author == CommentAuthors(init)[id];
          assert comments[i] == init[i];
        }
      }
    }
  }

  /** `authors` says `uid` wrote object `id`. */
  predicate AuthoredBy(authors: map<nat, nat>, id: nat, uid: nat) {
    id in authors && authors[id] == uid
  }

  /** The like counts toward `uid`'s karma: it is inside the window and targets one of
      `uid`'s posts or comments (the two `Q` filters of calculate_user_karma_24h). */
  predicate Counted(l: LikeRow, uid: nat, postAuthor: map<nat, nat>, commentAuthor: map<nat, nat>, cutoff: int) {
    && l.createdAt >= cutoff
    && ((l.key.contentType == PostType && AuthoredBy(postAuthor, l.key.objectId, uid))
        || (l.key.contentType == CommentType && AuthoredBy(commentAuthor, l.key.objectId, uid)))
  }

  /** What one like contributes to `uid`'s karma. */
  function LikeKarma(l: LikeRow, uid: nat, postAuthor: map<nat, nat>, commentAuthor: map<nat, nat>, cutoff: int): (k: nat)
    ensures k == if Counted(l, uid, postAuthor, commentAuthor, cutoff) then KarmaValue(l.key.contentType) else 0
  {
    if l.createdAt < cutoff then 0
    else if l.key.contentType == PostType && AuthoredBy(postAuthor, l.key.objectId, uid) then 5
    else if l.key.contentType == CommentType && AuthoredBy(commentAuthor, l.key.objectId, uid) then 1
    else 0
  }

  /** The weighted sum over a like table; an empty table sums to 0. */
  function SumKarma(likes: seq<LikeRow>, uid: nat, postAuthor: map<nat, nat>, commentAuthor: map<nat, nat>, cutoff: int): nat
  {
    if likes == [] then 0
    else SumKarma(likes[..|likes| - 1], uid, postAuthor, commentAuthor, cutoff)
         + LikeKarma(likes[|likes| - 1], uid, postAuthor, commentAuthor, cutoff)
  }

  /** `calculate_user_karma_24h(user)`. */
  function UserKarma24h(likes: seq<LikeRow>, posts: seq<PostRow>, comments: seq<CommentRow>, uid: nat, now: int): nat {
    SumKarma(likes, uid, PostAuthors(posts), CommentAuthors(comments), now - Window)
  }

  /** A user has positive karma exactly when some like in the window is on one of their posts
      or comments; otherwise the sum is 0 (never "None"). */
  lemma {:induction false} KarmaPositiveIffCounted(likes: seq<LikeRow>, uid: nat, postAuthor: map<nat, nat>, commentAuthor: map<nat, nat>, cutoff: int)
    ensures SumKarma(likes, uid, postAuthor, commentAuthor, cutoff) > 0
            <==> exists i :: 0 <= i < |likes| && Counted(likes[i], uid, postAuthor, commentAuthor, cutoff)
  {
    if likes != [] {
      var init := likes[..|likes| - 1];
      KarmaPositiveIffCounted(init, uid, postAuthor, commentAuthor, cutoff);
      if exists i :: 0 <= i < |init| && Counted(init[i], uid, postAuthor, commentAuthor, cutoff) {
        var i :| 0 <= i < |init| && Counted(init[i], uid, postAuthor, commentAuthor, cutoff);
        assert likes[i] == init[i];
      }
      if exists i :: 0 <= i < |likes| && Counted(likes[i], uid, postAuthor, commentAuthor, cutoff) {
        var i :| 0 <= i < |likes| && Counted(likes[i], uid, postAuthor, commentAuthor, cutoff);
        if i < |init| {
          assert init[i] == likes[i];
        }
      }
    }
  }

  /** The sum of `weight` over likes of one content type inside the window on objects by `uid`. */
  function TypeKarma(likes: seq<LikeRow>, contentType: ContentType, weight: nat, authors: map<nat, nat>, uid: nat, cutoff: int): nat
  {
    if likes == [] then 0
    else
      var l := likes[|likes| - 1];
      TypeKarma(likes[..|likes| - 1], contentType, weight, authors, uid, cutoff)
      + (if l.createdAt >= cutoff && l.key.contentType == contentType && AuthoredBy(authors, l.key.objectId, uid)
         then weight else 0)
  }

  /** A user's karma splits into 5 per post like plus 1 per comment like. */
  lemma {:induction false} KarmaSplitsByType(likes: seq<LikeRow>, uid: nat, postAuthor: map<nat, nat>, commentAuthor: map<nat, nat>, cutoff: int)
    ensures SumKarma(likes, uid, postAuthor, commentAuthor, cutoff)
            == TypeKarma(likes, PostType, 5, postAuthor, uid, cutoff) + TypeKarma(likes, CommentType, 1, commentAuthor, uid, cutoff)
  {
    if likes != [] {
      KarmaSplitsByType(likes[..|likes| - 1], uid, postAuthor, commentAuthor, cutoff);
    }
  }

  /** One result row of `.values('object_id').annotate(karma=Sum(...))`. */
  datatype Row = Row(objectId: nat, karma: nat)

  predicate RowsPositive(rows: seq<Row>) {
    forall i :: 0 <= i < |rows| ==> rows[i].karma > 0
  }

  predicate RowIdsDistinct(rows: seq<Row>) {
    forall i, j :: 0 <= i < j < |rows| ==> rows[i].objectId != rows[j].objectId
  }

  /** Add `weight` to the row of object `id`, opening a row at the end if there is none. */
  function AddToRow(rows: seq<Row>, id: nat, weight: nat): (r: seq<Row>)
    requires weight > 0
    ensures RowsPositive(rows) ==> RowsPositive(r)
    ensures RowIdsDistinct(rows) ==> RowIdsDistinct(r)
    ensures forall i :: 0 <= i < |r| ==> r[i].objectId == id || exists j :: 0 <= j < |rows| && rows[j].objectId == r[i].objectId
  {
    if rows == [] then [Row(id, weight)]
    else if rows[0].objectId == id then [Row(id, rows[0].karma + weight)] + rows[1..]
    else [rows[0]] + AddToRow(rows[1..], id, weight)
  }

  /** The SQL aggregate: likes of one type inside the window, grouped by object, each group
      worth `weight` per like. Groups appear in the order of their first like (SQL leaves the
      order unspecified). */
  function GroupRows(likes: seq<LikeRow>, contentType: ContentType, weight: nat, cutoff: int): (rows: seq<Row>)
    requires weight > 0
    ensures RowsPositive(rows) && RowIdsDistinct(rows)
  {
    if likes == [] then []
    else
      var l := likes[|likes| - 1];
      var rows := GroupRows(likes[..|likes| - 1], contentType, weight, cutoff);
      if l.createdAt >= cutoff && l.key.contentType == contentType then AddToRow(rows, l.key.objectId, weight) else rows
  }

  /** What the rows attributed to `uid` add up to; rows whose object is gone are skipped. */
  function RowKarma(rows: seq<Row>, authors: map<nat, nat>, uid: nat): nat
  {
    if rows == [] then 0
    else RowKarma(rows[..|rows| - 1], authors, uid)
         + (if AuthoredBy(authors, rows[|rows| - 1].objectId, uid) then rows[|rows| - 1].karma else 0)
  }

  lemma {:induction false} RowKarmaCons(r: Row, rows: seq<Row>, authors: map<nat, nat>, uid: nat)
    ensures RowKarma([r] + rows, authors, uid)
            == (if AuthoredBy(authors, r.objectId, uid) then r.karma else 0) + RowKarma(rows, authors, uid)
    decreases |rows|
  {
    if rows != [] {
      var init := rows[..|rows| - 1];
      assert ([r] + rows)[..|rows|] == [r] + init;
      RowKarmaCons(r, init, authors, uid);
    }
  }

  /** Adding a like to its group adds its weight to the author's total and nobody else's. */
  lemma {:induction false} AddToRowKarma(rows: seq<Row>, id: nat, weight: nat, authors: map<nat, nat>, uid: nat)
    requires weight > 0
    ensures RowKarma(AddToRow(rows, id, weight), authors, uid)
            == RowKarma(rows, authors, uid) + (if AuthoredBy(authors, id, uid) then weight else 0)
  {
    if rows == [] {
      assert RowKarma([Row(id, weight)], authors, uid) == RowKarma([], authors, uid) + (if AuthoredBy(authors, id, uid) then weight else 0);
    } else {
      assert rows == [rows[0]] + rows[1..];
      RowKarmaCons(rows[0], rows[1..], authors, uid);
      if rows[0].objectId == id {
        RowKarmaCons(Row(id, rows[0].karma + weight), rows[1..], authors, uid);
      } else {
        AddToRowKarma(rows[1..], id, weight, authors, uid);
        RowKarmaCons(rows[0], AddToRow(rows[1..], id, weight), authors, uid);
      }
    }
  }

  /** Summing the grouped rows gives the same total as summing the likes one by one. */
  lemma {:induction false} GroupRowsKarma(likes: seq<LikeRow>, contentType: ContentType, weight: nat, authors: map<nat, nat>, uid: nat, cutoff: int)
    requires weight > 0
    ensures RowKarma(GroupRows(likes, contentType, weight, cutoff), authors, uid)
            == TypeKarma(likes, contentType, weight, authors, uid, cutoff)
  {
    if likes != [] {
      var l := likes[|likes| - 1];
      GroupRowsKarma(likes[..|likes| - 1], contentType, weight, authors, uid, cutoff);
      if l.createdAt >= cutoff && l.key.contentType == contentType {
        AddToRowKarma(GroupRows(likes[..|likes| - 1], contentType, weight, cutoff), l.key.objectId, weight, authors, uid);
      }
    }
  }

  lemma RowKarmaSnoc(rows: seq<Row>, i: nat, authors: map<nat, nat>, uid: nat)
    requires i < |rows|
    ensures RowKarma(rows[..i + 1], authors, uid)
            == RowKarma(rows[..i], authors, uid) + (if AuthoredBy(authors, rows[i].objectId, uid) then rows[i].karma else 0)
  {
    assert rows[..i + 1][..i] == rows[..i];
  }

  /** A (user, karma) pair of the `user_karma` dictionary. */
  datatype Entry = Entry(user: nat, karma: nat)

  predicate NonIncreasing(s: seq<Entry>) {
    forall i, j :: 0 <= i < j < |s| ==> s[i].karma >= s[j].karma
  }

  predicate UsersDistinct(s: seq<Entry>) {
    forall i, j :: 0 <= i < j < |s| ==> s[i].user != s[j].user
  }

  /** Insert `e` before the first entry whose karma does not exceed its own. */
  function Insert(e: Entry, s: seq<Entry>): (r: seq<Entry>)
    ensures multiset(r) == multiset(s) + multiset{e}
  {
    if s == [] || s[0].karma <= e.karma then [e] + s
    else
      assert s == [s[0]] + s[1..];
      [s[0]] + Insert(e, s[1..])
  }

  /** `sorted(items, key=karma, reverse=True)`: Python's stable sort, highest karma first,
      entries with equal karma kept in their original order. */
  function SortByKarma(s: seq<Entry>): (r: seq<Entry>)
    ensures multiset(r) == multiset(s)
  {
    if s == [] then []
    else
      assert s == [s[0]] + s[1..];
      Insert(s[0], SortByKarma(s[1..]))
  }

  lemma {:induction false} InsertMembers(e: Entry, s: seq<Entry>)
    ensures forall x :: x in Insert(e, s) <==> x == e || x in s
  {
    if s != [] && s[0].karma > e.karma {
      InsertMembers(e, s[1..]);
      assert s == [s[0]] + s[1..];
    }
  }

  lemma {:induction false} InsertSorted(e: Entry, s: seq<Entry>)
    requires NonIncreasing(s)
    ensures NonIncreasing(Insert(e, s))
  {
    if s != [] && s[0].karma > e.karma {
      InsertSorted(e, s[1..]);
      InsertMembers(e, s[1..]);
      var t := Insert(e, s[1..]);
      forall j | 0 <= j < |t| ensures t[j].karma <= s[0].karma {
        assert t[j] in t;
      }
      assert Insert(e, s) == [s[0]] + t;
    }
  }

  /** The sorted list is ordered by karma, highest first. */
  lemma {:induction false} SortSorted(s: seq<Entry>)
    ensures NonIncreasing(SortByKarma(s))
  {
    if s != [] {
      SortSorted(s[1..]);
      InsertSorted(s[0], SortByKarma(s[1..]));
    }
  }

  /** The entries of `s` with karma `k`, in order. */
  function WithKarma(s: seq<Entry>, k: nat): seq<Entry>
  {
    if s == [] then [] else (if s[0].karma == k then [s[0]] else []) + WithKarma(s[1..], k)
  }

  lemma {:induction false} InsertStable(e: Entry, s: seq<Entry>, k: nat)
    ensures WithKarma(Insert(e, s), k) == (if e.karma == k then [e] else []) + WithKarma(s, k)
  {
    if s == [] || s[0].karma <= e.karma {
      WithKarmaCons(e, s, k);
    } else {
      InsertStable(e, s[1..], k);
      WithKarmaCons(s[0], Insert(e, s[1..]), k);
      WithKarmaCons(s[0], s[1..], k);
      assert s == [s[0]] + s[1..];
    }
  }

  lemma WithKarmaCons(x: Entry, s: seq<Entry>, k: nat)
    ensures WithKarma([x] + s, k) == (if x.karma == k then [x] else []) + WithKarma(s, k)
  {
    assert ([x] + s)[0] == x && ([x] + s)[1..] == s;
  }

  /** The sort is stable: among entries of equal karma the original order is kept. */
  lemma {:induction false} SortStable(s: seq<Entry>, k: nat)
    ensures WithKarma(SortByKarma(s), k) == WithKarma(s, k)
  {
    if s != [] {
      SortStable(s[1..], k);
      SortSorted(s[1..]);
      InsertStable(s[0], SortByKarma(s[1..]), k);
    }
  }

  lemma {:induction false} SortKeepsUsersDistinct(s: seq<Entry>)
    requires UsersDistinct(s)
    ensures UsersDistinct(SortByKarma(s))
  {
    if s != [] {
      SortKeepsUsersDistinct(s[1..]);
      var t := SortByKarma(s[1..]);
      forall x | x in t ensures x.user != s[0].user {
        assert x in multiset(s[1..]);
      }
      InsertKeepsUsersDistinct(s[0], t);
    }
  }

  lemma {:induction false} InsertKeepsUsersDistinct(e: Entry, s: seq<Entry>)
    requires UsersDistinct(s) && forall x :: x in s ==> x.user != e.user
    ensures UsersDistinct(Insert(e, s))
  {
    if s != [] && s[0].karma > e.karma {
      InsertKeepsUsersDistinct(e, s[1..]);
      var t := Insert(e, s[1..]);
      forall x | x in t ensures x.user != s[0].user {
        assert x in multiset(t);
        assert x == e || x in multiset(s[1..]);
      }
    }
  }

  /** The dictionary's items in insertion order. */
  function Items(order: seq<nat>, karma: map<nat, nat>): (r: seq<Entry>)
    requires forall u :: u in order ==> u in karma
    ensures |r| == |order| && forall i :: 0 <= i < |r| ==> r[i] == Entry(order[i], karma[order[i]])
  {
    if order == [] then [] else [Entry(order[0], karma[order[0]])] + Items(order[1..], karma)
  }

  function FindUser(users: seq<User>, id: nat): (r: Option<User>)
    ensures r.Some? ==> r.value.id == id && r.value in users
    ensures r.None? ==> forall i :: 0 <= i < |users| ==> users[i].id != id
  {
    if users == [] then None else if users[0].id == id then Some(users[0]) else FindUser(users[1..], id)
  }

  /** A user with `karma_24h` attached, as `get_leaderboard_users` returns them. */
  datatype LeaderboardUser = LeaderboardUser(id: nat, username: string, karma24h: nat)

  predicate RankedOrder(top: seq<LeaderboardUser>) {
    forall i, j :: 0 <= i < j < |top| ==> top[i].karma24h >= top[j].karma24h
  }

  predicate IdsDistinct(top: seq<LeaderboardUser>) {
    forall i, j :: 0 <= i < j < |top| ==> top[i].id != top[j].id
  }

  /** The final loop: fetch each ranked user, skipping ids with no user row. */
  function Fetch(entries: seq<Entry>, users: seq<User>): (r: seq<LeaderboardUser>)
    ensures |r| <= |entries|
  {
    if entries == [] then []
    else
      var rest := Fetch(entries[1..], users);
      match FindUser(users, entries[0].user)
      case None => rest
      case Some(u) => [LeaderboardUser(u.id, u.username, entries[0].karma)] + rest
  }

  /** Every fetched user comes from a ranked entry, with that entry's karma, and exists. */
  lemma {:induction false} FetchFromEntries(entries: seq<Entry>, users: seq<User>, i: nat)
    requires i < |Fetch(entries, users)|
    ensures var x := Fetch(entries, users)[i];
      Entry(x.id, x.karma24h) in entries && FindUser(users, x.id) == Some(User(x.id, x.username))
  {
    var rest := Fetch(entries[1..], users);
    match FindUser(users, entries[0].user)
    case None =>
      FetchFromEntries(entries[1..], users, i);
    case Some(u) =>
      if i > 0 {
        FetchFromEntries(entries[1..], users, i - 1);
      }
  }

  /** No ranked entry whose user exists is lost. */
  lemma {:induction false} FetchKeepsExisting(entries: seq<Entry>, users: seq<User>, k: nat)
    requires k < |entries| && FindUser(users, entries[k].user).Some?
    ensures exists i :: 0 <= i < |Fetch(entries, users)| && Fetch(entries, users)[i].id == entries[k].user
  {
    var rest := Fetch(entries[1..], users);
    if k == 0 {
      assert Fetch(entries, users)[0].id == entries[0].user;
    } else {
      FetchKeepsExisting(entries[1..], users, k - 1);
      var i :| 0 <= i < |rest| && rest[i].id == entries[k].user;
      if FindUser(users, entries[0].user).Some? {
        assert Fetch(entries, users)[i + 1] == rest[i];
      } else {
        assert Fetch(entries, users)[i] == rest[i];
      }
    }
  }

  /** Dropping entries keeps the ranking order. */
  lemma {:induction false} FetchSorted(entries: seq<Entry>, users: seq<User>)
    requires NonIncreasing(entries)
    ensures RankedOrder(Fetch(entries, users))
  {
    if entries != [] {
      FetchSorted(entries[1..], users);
      var rest := Fetch(entries[1..], users);
      forall j | 0 <= j < |rest| ensures rest[j].karma24h <= entries[0].karma {
        FetchFromEntries(entries[1..], users, j);
        var a :| 0 <= a < |entries[1..]| && entries[1..][a] == Entry(rest[j].id, rest[j].karma24h);
        assert entries[a + 1] == entries[1..][a];
      }
      match FindUser(users, entries[0].user)
      case None =>
      case Some(u) =>
        var r := Fetch(entries, users);
        assert r == [LeaderboardUser(u.id, u.username, entries[0].karma)] + rest;
        forall i, j | 0 <= i < j < |r| ensures r[i].karma24h >= r[j].karma24h {
          assert r[j] == rest[j - 1];
          if i > 0 {
            assert r[i] == rest[i - 1];
          } else {
            assert rest[j - 1].karma24h <= entries[0].karma;
            assert r[0].karma24h == entries[0].karma;
          }
        }
    }
  }

  lemma {:induction false} FetchDistinct(entries: seq<Entry>, users: seq<User>)
    requires UsersDistinct(entries)
    ensures IdsDistinct(Fetch(entries, users))
  {
    if entries != [] {
      FetchDistinct(entries[1..], users);
      var rest := Fetch(entries[1..], users);
      forall j | 0 <= j < |rest| ensures rest[j].id != entries[0].user {
        FetchFromEntries(entries[1..], users, j);
        var a :| 0 <= a < |entries[1..]| && entries[1..][a] == Entry(rest[j].id, rest[j].karma24h);
        assert entries[a + 1] == entries[1..][a];
      }
      match FindUser(users, entries[0].user)
      case None =>
      case Some(u) =>
        var r := Fetch(entries, users);
        assert r == [LeaderboardUser(u.id, u.username, entries[0].karma)] + rest;
        forall i, j | 0 <= i < j < |r| ensures r[i].id != r[j].id {
          assert r[j] == rest[j - 1];
          if i > 0 {
            assert r[i] == rest[i - 1];
          } else {
            assert r[0].id == entries[0].user;
            assert rest[j - 1].id != entries[0].user;
          }
        }
    }
  }

  /** Karma per user so far: the `user_karma` dictionary, with its keys in insertion order. */
  ghost predicate Tally(order: seq<nat>, userKarma: map<nat, nat>) {
    && (forall u :: u in order <==> u in userKarma)
    && (forall a, b :: 0 <= a < b < |order| ==> order[a] != order[b])
    && (forall u :: u in userKarma ==> userKarma[u] > 0)
  }

  function Get(userKarma: map<nat, nat>, u: nat): nat {
    if u in userKarma then userKarma[u] else 0
  }

  /** One of the two accumulation loops: add each row's karma to its object's author
      (`user_karma.get(user_id, 0) + karma`), skipping rows whose object no longer exists. */
  method AddRows(rows: seq<Row>, authors: map<nat, nat>, order0: seq<nat>, userKarma0: map<nat, nat>)
    returns (order: seq<nat>, userKarma: map<nat, nat>)
    requires Tally(order0, userKarma0) && RowsPositive(rows)
    ensures Tally(order, userKarma) && order0 <= order
    ensures forall u :: Get(userKarma, u) == Get(userKarma0, u) + RowKarma(rows, authors, u)
  {
    order, userKarma := order0, userKarma0;
    for i := 0 to |rows|
      invariant Tally(order, userKarma) && order0 <= order
      invariant forall u :: Get(userKarma, u) == Get(userKarma0, u) + RowKarma(rows[..i], authors, u)
    {
      var row := rows[i];
      if row.objectId in authors {
        var uid := authors[row.objectId];
        if uid !in userKarma {
          order := order + [uid];
        }
        userKarma := userKarma[uid := Get(userKarma, uid) + row.karma];
      }
      forall u ensures Get(userKarma, u) == Get(userKarma0, u) + RowKarma(rows[..i + 1], authors, u) {
        RowKarmaSnoc(rows, i, authors, u);
      }
    }
    assert rows[..|rows|] == rows;
  }

  /** The two loops of `get_leaderboard_users` over the grouped post and comment likes: the
      resulting dictionary holds exactly the users with karma, each with their 24-hour karma. */
  method TallyKarma(likes: seq<LikeRow>, posts: seq<PostRow>, comments: seq<CommentRow>, now: int)
    returns (order: seq<nat>, userKarma: map<nat, nat>)
    ensures Tally(order, userKarma)
    ensures forall u :: Get(userKarma, u) == UserKarma24h(likes, posts, comments, u, now)
  {
    var cutoff := now - Window;
    var postAuthor, commentAuthor := PostAuthors(posts), CommentAuthors(comments);
    var postRows := GroupRows(likes, PostType, 5, cutoff);
    var commentRows := GroupRows(likes, CommentType, 1, cutoff);
    order, userKarma := AddRows(postRows, postAuthor, [], map[]);
    order, userKarma := AddRows(commentRows, commentAuthor, order, userKarma);
    forall u ensures Get(userKarma, u) == UserKarma24h(likes, posts, comments, u, now) {
      GroupRowsKarma(likes, PostType, 5, postAuthor, u, cutoff);
      GroupRowsKarma(likes, CommentType, 1, commentAuthor, u, cutoff);
      KarmaSplitsByType(likes, u, postAuthor, commentAuthor, cutoff);
    }
  }

  /** `ahead` holds `limit` distinct users other than `uid`, none with less karma under
      `karma`, and each of them is in `top` unless it does not exist: `uid` was cut by the
      limit. */
  predicate OutrankedBy(karma: nat -> nat, uid: nat, ahead: seq<nat>, limit: nat,
                        top: seq<LeaderboardUser>, users: seq<User>) {
    && |ahead| == limit
    && (forall a, b :: 0 <= a < b < |ahead| ==> ahead[a] != ahead[b])
    && (forall a :: 0 <= a < |ahead| ==>
          && ahead[a] != uid && karma(ahead[a]) >= karma(uid)
          && (FindUser(users, ahead[a]).Some? ==> !Absent(top, ahead[a])))
  }

  /** Every user's 24-hour karma, as one function value. */
  function KarmaOf(likes: seq<LikeRow>, posts: seq<PostRow>, comments: seq<CommentRow>, now: int): nat -> nat {
    u => UserKarma24h(likes, posts, comments, u, now)
  }

  /** `uid` was cut by the limit: `ahead` holds `limit` distinct other users, none with less
      24-hour karma, each returned in `top` unless it does not exist. */
  predicate Outranked(likes: seq<LikeRow>, posts: seq<PostRow>, comments: seq<CommentRow>, now: int,
                      uid: nat, ahead: seq<nat>, limit: nat, top: seq<LeaderboardUser>, users: seq<User>) {
    OutrankedBy(KarmaOf(likes, posts, comments, now), uid, ahead, limit, top, users)
  }

  method GetLeaderboardUsers(likes: seq<LikeRow>, posts: seq<PostRow>, comments: seq<CommentRow>,
                             users: seq<User>, now: int, limit: nat)
    returns (top: seq<LeaderboardUser>)
    ensures |top| <= limit
    ensures forall i :: 0 <= i < |top| ==>
      && FindUser(users, top[i].id) == Some(User(top[i].id, top[i].username))
      && top[i].karma24h == UserKarma24h(likes, posts, comments, top[i].id, now)
      && top[i].karma24h > 0
    ensures forall i, j :: 0 <= i < j < |top| ==> top[i].karma24h >= top[j].karma24h && top[i].id != top[j].id
    ensures forall uid ::
      (UserKarma24h(likes, posts, comments, uid, now) > 0 && FindUser(users, uid).Some?
       && (forall i :: 0 <= i < |top| ==> top[i].id != uid))
      ==> (forall i :: 0 <= i < |top| ==> top[i].karma24h >= UserKarma24h(likes, posts, comments, uid, now))
    ensures forall uid ::
      (UserKarma24h(likes, posts, comments, uid, now) > 0 && FindUser(users, uid).Some?
       && (forall i :: 0 <= i < |top| ==> top[i].id != uid))
      ==> exists ahead :: Outranked(likes, posts, comments, now, uid, ahead, limit, top, users)
  {
    var order, userKarma := TallyKarma(likes, posts, comments, now);
    var kept := Take(SortByKarma(Items(order, userKarma)), limit);
    top := FetchUsers(kept, users);
    TallyRanking(order, userKarma, limit, users);
    KarmaOutranked(likes, posts, comments, now, order, userKarma, limit, users);
  }

  /** `TallyOutranked` for the tally of 24-hour karma. */
  lemma KarmaOutranked(likes: seq<LikeRow>, posts: seq<PostRow>, comments: seq<CommentRow>, now: int,
                       order: seq<nat>, userKarma: map<nat, nat>, limit: nat, users: seq<User>)
    requires Tally(order, userKarma)
    requires forall u :: Get(userKarma, u) == UserKarma24h(likes, posts, comments, u, now)
    ensures var top := Fetch(Take(SortByKarma(Items(order, userKarma)), limit), users);
      forall uid ::
        (UserKarma24h(likes, posts, comments, uid, now) > 0 && FindUser(users, uid).Some?
         && (forall i :: 0 <= i < |top| ==> top[i].id != uid))
        ==> exists ahead :: Outranked(likes, posts, comments, now, uid, ahead, limit, top, users)
  {
    var top := Fetch(Take(SortByKarma(Items(order, userKarma)), limit), users);
    var karma := KarmaOf(likes, posts, comments, now);
    forall u ensures Get(userKarma, u) == karma(u) {
      assert karma(u) == UserKarma24h(likes, posts, comments, u, now);
    }
    TallyOutranked(karma, order, userKarma, limit, users);
    forall uid | UserKarma24h(likes, posts, comments, uid, now) > 0 && FindUser(users, uid).Some?
                 && (forall i :: 0 <= i < |top| ==> top[i].id != uid)
      ensures exists ahead :: Outranked(likes, posts, comments, now, uid, ahead, limit, top, users)
    {
      assert karma(uid) == UserKarma24h(likes, posts, comments, uid, now);
      assert Absent(top, uid);
      var ahead :| OutrankedBy(karma, uid, ahead, limit, top, users);
      assert Outranked(likes, posts, comments, now, uid, ahead, limit, top, users);
    }
  }

  /** `TallyLeftOut` for any karma function the tally agrees with: the users the kept entries
      name are the witnesses that outrank a user left out. */
  lemma TallyOutranked(karma: nat -> nat, order: seq<nat>, userKarma: map<nat, nat>, limit: nat, users: seq<User>)
    requires Tally(order, userKarma)
    requires forall u :: Get(userKarma, u) == karma(u)
    ensures var top := Fetch(Take(SortByKarma(Items(order, userKarma)), limit), users);
      forall uid :: (karma(uid) > 0 && FindUser(users, uid).Some? && Absent(top, uid))
        ==> exists ahead :: OutrankedBy(karma, uid, ahead, limit, top, users)
  {
    var kept := Take(SortByKarma(Items(order, userKarma)), limit);
    var top := Fetch(kept, users);
    TallyLeftOut(order, userKarma, limit, users);
    forall a | 0 <= a < |kept| && FindUser(users, kept[a].user).Some? ensures !Absent(top, kept[a].user) {
      FetchKeepsExisting(kept, users, a);
    }
    forall uid | karma(uid) > 0 && FindUser(users, uid).Some? && Absent(top, uid)
      ensures exists ahead :: OutrankedBy(karma, uid, ahead, limit, top, users)
    {
      var ahead := UsersOf(kept);
      assert Get(userKarma, uid) == karma(uid);
      forall a | 0 <= a < |ahead| ensures ahead[a] != uid && karma(ahead[a]) >= karma(uid) {
        assert Get(userKarma, kept[a].user) >= Get(userKarma, uid);
        assert Get(userKarma, kept[a].user) == karma(ahead[a]);
      }
      assert OutrankedBy(karma, uid, ahead, limit, top, users);
    }
  }

  /** The users the entries name, in order. */
  function UsersOf(s: seq<Entry>): (r: seq<nat>)
    ensures |r| == |s| && forall a :: 0 <= a < |s| ==> r[a] == s[a].user
  {
    if s == [] then [] else [s[0].user] + UsersOf(s[1..])
  }

  /** `RankingFacts` for the items of a tally, stated in terms of each user's tallied karma. */
  lemma TallyRanking(order: seq<nat>, userKarma: map<nat, nat>, limit: nat, users: seq<User>)
    requires Tally(order, userKarma)
    ensures var top := Fetch(Take(SortByKarma(Items(order, userKarma)), limit), users);
      && |top| <= limit
      && (forall i :: 0 <= i < |top| ==>
            && FindUser(users, top[i].id) == Some(User(top[i].id, top[i].username))
            && top[i].karma24h == Get(userKarma, top[i].id) && top[i].karma24h > 0)
      && RankedOrder(top) && IdsDistinct(top)
      && (forall uid :: (Get(userKarma, uid) > 0 && FindUser(users, uid).Some? && (forall i :: 0 <= i < |top| ==> top[i].id != uid))
            ==> (forall i :: 0 <= i < |top| ==> top[i].karma24h >= Get(userKarma, uid)))
  {
    var items := Items(order, userKarma);
    ItemsOfTally(order, userKarma);
    RankingFacts(items, limit, users);
  }

  /** `LeftOutWasOutranked` for the items of a tally: a user with karma who exists but is not
      returned is outranked by `limit` other kept users. */
  lemma TallyLeftOut(order: seq<nat>, userKarma: map<nat, nat>, limit: nat, users: seq<User>)
    requires Tally(order, userKarma)
    ensures var kept := Take(SortByKarma(Items(order, userKarma)), limit);
      && UsersDistinct(kept)
      && (forall uid :: Get(userKarma, uid) > 0 && FindUser(users, uid).Some? && Absent(Fetch(kept, users), uid)
            ==> |kept| == limit
                && forall a :: 0 <= a < |kept| ==> kept[a].user != uid && Get(userKarma, kept[a].user) >= Get(userKarma, uid))
  {
    var items := Items(order, userKarma);
    ItemsOfTally(order, userKarma);
    LeftOutWasOutranked(items, limit, users);
    var kept := Take(SortByKarma(items), limit);
    forall a | 0 <= a < |kept| ensures Get(userKarma, kept[a].user) == kept[a].karma {
      assert kept[a] in kept;
    }
    forall uid | Get(userKarma, uid) > 0 && FindUser(users, uid).Some? && Absent(Fetch(kept, users), uid)
      ensures CutByLimit(kept, limit, Entry(uid, Get(userKarma, uid)))
    {
      assert Entry(uid, Get(userKarma, uid)) in items;
    }
  }

  /** The dictionary's items: one per user, each with that user's positive karma. */
  lemma ItemsOfTally(order: seq<nat>, userKarma: map<nat, nat>)
    requires Tally(order, userKarma)
    ensures var items := Items(order, userKarma);
      && UsersDistinct(items)
      && (forall e :: e in items ==> e.karma == Get(userKarma, e.user) && e.karma > 0)
      && (forall uid :: Get(userKarma, uid) > 0 ==> Entry(uid, Get(userKarma, uid)) in items)
  {
    var items := Items(order, userKarma);
    forall uid | Get(userKarma, uid) > 0 ensures Entry(uid, Get(userKarma, uid)) in items {
      var k :| 0 <= k < |order| && order[k] == uid;
      assert items[k] == Entry(uid, Get(userKarma, uid));
    }
  }

  /** The last loop of `get_leaderboard_users`: `User.objects.get` for each ranked entry,
      `continue` on `DoesNotExist`. */
  method FetchUsers(kept: seq<Entry>, users: seq<User>) returns (top: seq<LeaderboardUser>)
    ensures top == Fetch(kept, users)
  {
    top := [];
    for i := 0 to |kept|
      invariant top == Fetch(kept[..i], users)
    {
      var user := FindUser(users, kept[i].user);
      if user.Some? {
        top := top + [LeaderboardUser(user.value.id, user.value.username, kept[i].karma)];
      }
      assert kept[..i + 1] == kept[..i] + [kept[i]];
      FetchSnoc(kept[..i], kept[i], users);
    }
    assert kept[..|kept|] == kept;
  }

  /** What ranking, truncating and fetching guarantee about a list of (user, karma) items. */
  lemma RankingFacts(items: seq<Entry>, limit: nat, users: seq<User>)
    requires UsersDistinct(items)
    ensures var top := Fetch(Take(SortByKarma(items), limit), users);
      && |top| <= limit
      && (forall i :: 0 <= i < |top| ==>
            Entry(top[i].id, top[i].karma24h) in items && FindUser(users, top[i].id) == Some(User(top[i].id, top[i].username)))
      && RankedOrder(top) && IdsDistinct(top)
      && (forall e :: e in items && FindUser(users, e.user).Some? && (forall i :: 0 <= i < |top| ==> top[i].id != e.user)
            ==> (forall i :: 0 <= i < |top| ==> top[i].karma24h >= e.karma))
  {
    var ranked := SortByKarma(items);
    var kept := Take(ranked, limit);
    var top := Fetch(kept, users);
    SortSorted(items);
    SortKeepsUsersDistinct(items);
    FetchSorted(kept, users);
    FetchDistinct(kept, users);
    SortedMembers(items);
    TopFromItems(items, kept, users);
    forall e | e in items && FindUser(users, e.user).Some? && (forall i :: 0 <= i < |top| ==> top[i].id != e.user)
      ensures forall i :: 0 <= i < |top| ==> top[i].karma24h >= e.karma
    {
      TopComplete(ranked, limit, users, e);
    }
  }

  /** `uid` is not among the fetched users. */
  predicate Absent(top: seq<LeaderboardUser>, uid: nat) {
    forall i :: 0 <= i < |top| ==> top[i].id != uid
  }

  /** The kept entries fill the limit, and each is another user with at least `e`'s karma. */
  predicate CutByLimit(kept: seq<Entry>, limit: nat, e: Entry) {
    |kept| == limit && forall a :: 0 <= a < |kept| ==> kept[a].user != e.user && kept[a].karma >= e.karma
  }

  /** An existing user the ranking leaves out was cut by the limit: `limit` entries of other
      users, each with at least that user's karma, were kept ahead of it. */
  lemma LeftOutWasOutranked(items: seq<Entry>, limit: nat, users: seq<User>)
    requires UsersDistinct(items)
    ensures var kept := Take(SortByKarma(items), limit);
      && UsersDistinct(kept) && (forall x :: x in kept ==> x in items)
      && (forall e :: e in items && FindUser(users, e.user).Some? && Absent(Fetch(kept, users), e.user)
            ==> CutByLimit(kept, limit, e))
  {
    var ranked := SortByKarma(items);
    var kept := Take(ranked, limit);
    SortSorted(items);
    SortKeepsUsersDistinct(items);
    SortedMembers(items);
    forall e | e in items && FindUser(users, e.user).Some? && Absent(Fetch(kept, users), e.user)
      ensures CutByLimit(kept, limit, e)
    {
      TopComplete(ranked, limit, users, e);
    }
  }

  /** Sorting keeps exactly the same entries. */
  lemma SortedMembers(items: seq<Entry>)
    ensures forall x :: x in SortByKarma(items) <==> x in items
  {
    var ranked := SortByKarma(items);
    forall x ensures x in ranked <==> x in items {
      assert x in ranked <==> x in multiset(ranked);
      assert x in items <==> x in multiset(items);
    }
  }

  /** Every fetched user comes from a kept entry with that karma, and has that user row. */
  lemma TopFromItems(items: seq<Entry>, kept: seq<Entry>, users: seq<User>)
    requires forall x :: x in kept ==> x in items
    ensures var top := Fetch(kept, users);
      forall i :: 0 <= i < |top| ==>
        Entry(top[i].id, top[i].karma24h) in items && FindUser(users, top[i].id) == Some(User(top[i].id, top[i].username))
  {
    var top := Fetch(kept, users);
    forall i | 0 <= i < |top|
      ensures Entry(top[i].id, top[i].karma24h) in items
      ensures FindUser(users, top[i].id) == Some(User(top[i].id, top[i].username))
    {
      FetchFromEntries(kept, users, i);
    }
  }

  /** An entry of the ranking whose user exists but was not returned ranks no higher than
      anyone returned: it was cut by the limit. */
  lemma TopComplete(ranked: seq<Entry>, limit: nat, users: seq<User>, e: Entry)
    requires NonIncreasing(ranked) && UsersDistinct(ranked) && e in ranked && FindUser(users, e.user).Some?
    requires var top := Fetch(Take(ranked, limit), users);
      forall i :: 0 <= i < |top| ==> top[i].id != e.user
    ensures var top := Fetch(Take(ranked, limit), users);
      forall i :: 0 <= i < |top| ==> top[i].karma24h >= e.karma
    ensures var kept := Take(ranked, limit);
      |kept| == limit && forall a :: 0 <= a < |kept| ==> kept[a].user != e.user && kept[a].karma >= e.karma
  {
    var kept := Take(ranked, limit);
    var top := Fetch(kept, users);
    var j :| 0 <= j < |ranked| && ranked[j] == e;
    if j < |kept| {
      assert kept[j] == e;
      FetchKeepsExisting(kept, users, j);
      assert false;
    }
    forall i | 0 <= i < |top| ensures top[i].karma24h >= e.karma {
      FetchFromEntries(kept, users, i);
      var a :| 0 <= a < |kept| && kept[a] == Entry(top[i].id, top[i].karma24h);
      assert ranked[a] == kept[a];
    }    forall a | 0 <= a < |kept| ensures kept[a].user != e.user && kept[a].karma >= e.karma {
      assert ranked[a] == kept[a];
    }
  }

  lemma {:induction false} FetchSnoc(s: seq<Entry>, e: Entry, users: seq<User>)
    ensures Fetch(s + [e], users) == Fetch(s, users) + Fetch([e], users)
  {
    if s != [] {
      assert (s + [e])[1..] == s[1..] + [e];
      FetchSnoc(s[1..], e, users);
    }
  }
}
