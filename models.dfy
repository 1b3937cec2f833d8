/**
  The database entities of the feed backend (feed/models.py) with the ORM stripped away:
  tables are sequences of rows, a row's primary key is its `id`, and a like names its target
  by content-type model name and object id.
 */
module Models {
  import opened Common

  datatype User = User(id: nat, username: string)

  datatype PostRow = PostRow(id: nat, author: nat, content: string, createdAt: int)

  datatype CommentRow = CommentRow(
    id: nat, post: nat, author: nat, content: string, parent: Option<nat>, createdAt: int)

  /** The model name of a like's content type (`content_type.model`). */
  type ContentType = string

  const PostType: ContentType := "post"
  const CommentType: ContentType := "comment"

  /** The columns of the `unique_together` constraint on likes. */
  datatype LikeKey = LikeKey(user: nat, contentType: ContentType, objectId: nat)

  datatype LikeRow = LikeRow(key: LikeKey, createdAt: int)

  /** `Meta.unique_together = ['user', 'content_type', 'object_id']`: no two rows share a key. */
  predicate UniqueKeys(likes: seq<LikeRow>) {
    forall i, j :: 0 <= i < j < |likes| ==> likes[i].key != likes[j].key
  }

  /** The keys present in the like table, that is, the table viewed as a set of triples. */
  function KeySet(likes: seq<LikeRow>): (r: set<LikeKey>)
    ensures forall i :: 0 <= i < |likes| ==> likes[i].key in r
    ensures forall k :: k in r ==> exists i :: 0 <= i < |likes| && likes[i].key == k
  {
    if likes == [] then {} else KeySet(likes[..|likes| - 1]) + {likes[|likes| - 1].key}
  }

  predicate Targets(l: LikeRow, contentType: ContentType, objectId: nat) {
    l.key.contentType == contentType && l.key.objectId == objectId
  }

  /** `Post.like_count` / `Comment.like_count`: the number of likes on one object. */
  function LikeCount(likes: seq<LikeRow>, contentType: ContentType, objectId: nat): (n: nat)
    ensures n <= |likes|
    ensures n == 0 <==> forall i :: 0 <= i < |likes| ==> !Targets(likes[i], contentType, objectId)
  {
    if likes == [] then 0
    else LikeCount(likes[..|likes| - 1], contentType, objectId)
         + (if Targets(likes[|likes| - 1], contentType, objectId) then 1 else 0)
  }

  /** The users who liked one object. */
  function Likers(likes: seq<LikeRow>, contentType: ContentType, objectId: nat): (r: set<nat>)
    ensures forall u :: u in r <==> LikeKey(u, contentType, objectId) in KeySet(likes)
  {
    if likes == [] then {}
    else
      var l := likes[|likes| - 1];
      Likers(likes[..|likes| - 1], contentType, objectId)
      + (if Targets(l, contentType, objectId) then {l.key.user} else {})
  }

  /** Because keys are unique, an object's like count is the number of distinct users who
      liked it: nobody is counted twice. */
  lemma {:induction false} LikeCountIsLikers(likes: seq<LikeRow>, contentType: ContentType, objectId: nat)
    requires UniqueKeys(likes)
    ensures LikeCount(likes, contentType, objectId) == |Likers(likes, contentType, objectId)|
  {
    if likes != [] {
      var init := likes[..|likes| - 1];
      var last := likes[|likes| - 1];
      assert UniqueKeys(init);
      LikeCountIsLikers(init, contentType, objectId);
      if Targets(last, contentType, objectId) {
        LastKeyIsNew(likes);
        assert last.key == LikeKey(last.key.user, contentType, objectId);
        assert last.key.user !in Likers(init, contentType, objectId);
      }
    }
  }

  /** Under unique keys, the last row's key is held by no earlier row. */
  lemma LastKeyIsNew(likes: seq<LikeRow>)
    requires UniqueKeys(likes) && likes != []
    ensures likes[|likes| - 1].key !in KeySet(likes[..|likes| - 1])
  {
    var init := likes[..|likes| - 1];
    forall i | 0 <= i < |init|
      ensures init[i].key != likes[|likes| - 1].key
    {
      assert init[i] == likes[i];
    }
  }

  /** `Like.karma_value`: 5 for a post like, 1 for a comment like, 0 for any other type. */
  function KarmaValue(contentType: ContentType): (v: nat)
  {
    if contentType == "post" then 5 else if contentType == "comment" then 1 else 0
  }

  /** A comment table viewed as id -> parent id. The foreign key makes every parent an
      existing comment. Nothing orders a parent before its reply: `parent` is a writable
      field of the comment API, so an update can point a comment at a later one. */
  predicate ParentsExist(parentOf: map<nat, Option<nat>>) {
    forall id {:trigger parentOf[id]} :: id in parentOf && parentOf[id].Some? ==> parentOf[id].value in parentOf
  }

  /** The comment `n` steps up the parent chain from `id`, or None when the chain reaches a
      top-level comment in fewer steps. */
  function Up(parentOf: map<nat, Option<nat>>, id: nat, n: nat): (r: Option<nat>)
    requires ParentsExist(parentOf) && id in parentOf
    ensures r.Some? ==> r.value in parentOf
    decreases n
  {
    if n == 0 then Some(id)
    else match parentOf[id]
      case None => None
      case Some(p) => Up(parentOf, p, n - 1)
  }

  /** The parent chain of `id` reaches a top-level comment, that is, it runs into no cycle.
      These are exactly the comments for which the loop of `get_thread_depth` stops. */
  ghost predicate ChainEnds(parentOf: map<nat, Option<nat>>, id: nat) {
    ParentsExist(parentOf) && id in parentOf && exists n: nat :: Up(parentOf, id, n).None?
  }

  /** One step further up is the parent of the comment reached so far. */
  lemma {:induction false} UpStep(parentOf: map<nat, Option<nat>>, id: nat, k: nat)
    requires ParentsExist(parentOf) && id in parentOf && Up(parentOf, id, k).Some?
    ensures Up(parentOf, id, k + 1) == parentOf[Up(parentOf, id, k).value]
    decreases k
  {
    if k > 0 {
      UpStep(parentOf, parentOf[id].value, k - 1);
    }
  }

  /** Once the chain has ended it stays ended. */
  lemma {:induction false} UpStaysNone(parentOf: map<nat, Option<nat>>, id: nat, n: nat, m: nat)
    requires ParentsExist(parentOf) && id in parentOf && n <= m && Up(parentOf, id, n).None?
    ensures Up(parentOf, id, m).None?
    decreases n
  {
    if n > 0 && parentOf[id].Some? {
      UpStaysNone(parentOf, parentOf[id].value, n - 1, m - 1);
    }
  }

  /** The depth of `id` found within `n` steps: the step count at which the chain stands on a
      top-level comment. */
  function DepthWithin(parentOf: map<nat, Option<nat>>, id: nat, n: nat): (d: nat)
    requires ParentsExist(parentOf) && id in parentOf && Up(parentOf, id, n).None?
    ensures d < n
    ensures Up(parentOf, id, d).Some? && parentOf[Up(parentOf, id, d).value].None?
    decreases n
  {
    match parentOf[id]
    case None => 0
    case Some(p) => DepthWithin(parentOf, p, n - 1) + 1
  }

  /** The ancestors of `id` collected within `n` steps: its parent, its parent's parent,
      and so on. */
  function AncestorsWithin(parentOf: map<nat, Option<nat>>, id: nat, n: nat): (r: set<nat>)
    requires ParentsExist(parentOf) && id in parentOf && Up(parentOf, id, n).None?
    ensures r <= parentOf.Keys
    decreases n
  {
    match parentOf[id]
    case None => {}
    case Some(p) => {p} + AncestorsWithin(parentOf, p, n - 1)
  }

  /** Neither the depth nor the ancestors depend on the bound they were found within. */
  lemma {:induction false} WithinAnyBound(parentOf: map<nat, Option<nat>>, id: nat, n: nat, m: nat)
    requires ParentsExist(parentOf) && id in parentOf
    requires Up(parentOf, id, n).None? && Up(parentOf, id, m).None?
    ensures DepthWithin(parentOf, id, n) == DepthWithin(parentOf, id, m)
    ensures AncestorsWithin(parentOf, id, n) == AncestorsWithin(parentOf, id, m)
    decreases n
  {
    if parentOf[id].Some? {
      WithinAnyBound(parentOf, parentOf[id].value, n - 1, m - 1);
    }
  }

  /** Every ancestor of `id` sits strictly higher in the thread than `id` itself. */
  lemma {:induction false} AncestorsShallower(parentOf: map<nat, Option<nat>>, id: nat, n: nat)
    requires ParentsExist(parentOf) && id in parentOf && Up(parentOf, id, n).None?
    ensures n >= 1
    ensures forall a :: a in AncestorsWithin(parentOf, id, n) ==>
      Up(parentOf, a, n - 1).None? && DepthWithin(parentOf, a, n - 1) < DepthWithin(parentOf, id, n)
    decreases n
  {
    if parentOf[id].Some? {
      var p := parentOf[id].value;
      var m := n - 1;
      AncestorsShallower(parentOf, p, m);
      forall a | a in AncestorsWithin(parentOf, p, m)
        ensures Up(parentOf, a, m).None? && DepthWithin(parentOf, a, m) < DepthWithin(parentOf, id, n)
      {
        UpStaysNone(parentOf, a, m - 1, m);
        WithinAnyBound(parentOf, a, m - 1, m);
      }
    }
  }

  /** No comment is among its own ancestors, and the depth counts the ancestors. */
  lemma {:induction false} CountWithin(parentOf: map<nat, Option<nat>>, id: nat, n: nat)
    requires ParentsExist(parentOf) && id in parentOf && Up(parentOf, id, n).None?
    ensures id !in AncestorsWithin(parentOf, id, n)
    ensures DepthWithin(parentOf, id, n) == |AncestorsWithin(parentOf, id, n)|
    decreases n
  {
    AncestorsShallower(parentOf, id, n);
    if id in AncestorsWithin(parentOf, id, n) {
      WithinAnyBound(parentOf, id, n - 1, n);
      assert false;
    }
    if parentOf[id].Some? {
      CountWithin(parentOf, parentOf[id].value, n - 1);
    }
  }

  /** A number of steps within which the chain of `id` has ended. */
  ghost function EndBound(parentOf: map<nat, Option<nat>>, id: nat): (n: nat)
    requires ChainEnds(parentOf, id)
    ensures Up(parentOf, id, n).None?
  {
    var n: nat :| Up(parentOf, id, n).None?; n
  }

  /** The depth `get_thread_depth` computes: how many steps up the parent chain reach a
      top-level comment. */
  ghost function Depth(parentOf: map<nat, Option<nat>>, id: nat): (d: nat)
    requires ChainEnds(parentOf, id)
    ensures Up(parentOf, id, d).Some? && parentOf[Up(parentOf, id, d).value].None?
  {
    DepthWithin(parentOf, id, EndBound(parentOf, id))
  }

  /** The ancestors of a comment: its parent, its parent's parent, and so on. */
  ghost function Ancestors(parentOf: map<nat, Option<nat>>, id: nat): (r: set<nat>)
    requires ChainEnds(parentOf, id)
    ensures r <= parentOf.Keys
  {
    AncestorsWithin(parentOf, id, EndBound(parentOf, id))
  }

  /** The depth is the only step count at which the chain stands on a top-level comment. */
  lemma DepthUnique(parentOf: map<nat, Option<nat>>, id: nat, k: nat)
    requires ChainEnds(parentOf, id) && Up(parentOf, id, k).Some?
    requires parentOf[Up(parentOf, id, k).value].None?
    ensures Depth(parentOf, id) == k
  {
    var d := Depth(parentOf, id);
    UpStep(parentOf, id, d);
    UpStep(parentOf, id, k);
    if d < k {
      UpStaysNone(parentOf, id, d + 1, k);
    } else if k < d {
      UpStaysNone(parentOf, id, k + 1, d);
    }
  }

  /** One step down the thread: a reply's chain ends exactly when its parent's does, one step
      deeper, with the parent added to the ancestors. */
  lemma DepthStep(parentOf: map<nat, Option<nat>>, id: nat, p: nat)
    requires ParentsExist(parentOf) && id in parentOf && parentOf[id] == Some(p)
    ensures ChainEnds(parentOf, id) <==> ChainEnds(parentOf, p)
    ensures ChainEnds(parentOf, id) ==>
      Depth(parentOf, id) == Depth(parentOf, p) + 1 && Ancestors(parentOf, id) == {p} + Ancestors(parentOf, p)
  {
    if ChainEnds(parentOf, p) {
      var k: nat :| Up(parentOf, p, k).None?;
      assert Up(parentOf, id, k + 1).None?;
    }
    if ChainEnds(parentOf, id) {
      var n := EndBound(parentOf, id);
      assert Up(parentOf, p, n - 1).None?;
      WithinAnyBound(parentOf, p, n - 1, EndBound(parentOf, p));
    }
  }

  /** The depth is the number of ancestors, so no comment is its own ancestor; it is 0
      exactly for top-level comments. */
  lemma DepthCountsAncestors(parentOf: map<nat, Option<nat>>, id: nat)
    requires ChainEnds(parentOf, id)
    ensures Depth(parentOf, id) == |Ancestors(parentOf, id)|
    ensures id !in Ancestors(parentOf, id)
    ensures Depth(parentOf, id) == 0 <==> parentOf[id].None?
  {
    CountWithin(parentOf, id, EndBound(parentOf, id));
  }

  /** A comment whose chain ends has fewer ancestors than the table has comments. */
  lemma DepthBelowSize(parentOf: map<nat, Option<nat>>, id: nat)
    requires ChainEnds(parentOf, id)
    ensures Depth(parentOf, id) < |parentOf|
  {
    DepthCountsAncestors(parentOf, id);
    SubsetSmaller(Ancestors(parentOf, id), parentOf.Keys - {id});
  }
  /** A comment stands `d` steps below a top-level comment. */
  predicate AtDepth(parentOf: map<nat, Option<nat>>, id: nat, d: nat) {
    && ParentsExist(parentOf) && id in parentOf
    && Up(parentOf, id, d).Some? && parentOf[Up(parentOf, id, d).value].None?
  }

  /** Standing `d` steps below a top-level comment means the chain ends, at depth `d`, which
      stays below the number of comments. */
  lemma AtDepthIsDepth(parentOf: map<nat, Option<nat>>, id: nat, d: nat)
    requires AtDepth(parentOf, id, d)
    ensures ChainEnds(parentOf, id) && Depth(parentOf, id) == d && d < |parentOf|
  {
    UpStep(parentOf, id, d);
    DepthUnique(parentOf, id, d);
    DepthBelowSize(parentOf, id);
  }

  /** A reply stands one step below its parent. */
  lemma ReplyAtDepth(parentOf: map<nat, Option<nat>>, id: nat, p: nat, d: nat)
    requires ParentsExist(parentOf) && id in parentOf && parentOf[id] == Some(p)
    requires AtDepth(parentOf, p, d)
    ensures AtDepth(parentOf, id, d + 1) && d + 1 < |parentOf|
  {
    assert Up(parentOf, id, d + 1) == Up(parentOf, p, d);
    AtDepthIsDepth(parentOf, id, d + 1);
  }


  lemma {:induction false} SubsetSmaller(a: set<nat>, b: set<nat>)
    requires a <= b
    ensures |a| <= |b|
  {
    if a != {} {
      var x :| x in a;
      SubsetSmaller(a - {x}, b - {x});
    }
  }

  /** `Comment.get_thread_depth`: walk the parent chain, counting steps. */
  method ThreadDepth(parentOf: map<nat, Option<nat>>, id: nat) returns (depth: nat)
    requires ChainEnds(parentOf, id)
    ensures depth == Depth(parentOf, id) == |Ancestors(parentOf, id)|
  {
    ghost var n := EndBound(parentOf, id);
    depth := 0;
    var parent := parentOf[id];
    while parent.Some?
      invariant Up(parentOf, id, depth).Some? && parent == Up(parentOf, id, depth + 1)
      invariant depth < n
      decreases n - depth
    {
      SomeBelowBound(parentOf, id, n, depth + 1);
      UpStep(parentOf, id, depth + 1);
      depth := depth + 1;
      parent := parentOf[parent.value];
    }
    UpStep(parentOf, id, depth);
    DepthUnique(parentOf, id, depth);
    DepthCountsAncestors(parentOf, id);
  }

  /** An update of a comment's `parent` as the comment API performs it: any existing comment,
      the comment itself included, is accepted. */
  function SetParent(parentOf: map<nat, Option<nat>>, id: nat, parent: Option<nat>): (r: map<nat, Option<nat>>)
    requires ParentsExist(parentOf) && id in parentOf && (parent.Some? ==> parent.value in parentOf)
    ensures ParentsExist(r) && r.Keys == parentOf.Keys && r[id] == parent
    ensures forall x :: x in parentOf && x != id ==> r[x] == parentOf[x]
  {
    parentOf[id := parent]
  }

  /** A comment made its own parent has a chain that never ends, so `get_thread_depth` would
      loop forever on it (nothing in the application calls it). The symptom a client can reach
      is in `get_replies`: the comment is among its own replies, so the serializer recurses
      into itself until Python raises RecursionError. */
  lemma SelfParentNeverEnds(parentOf: map<nat, Option<nat>>, id: nat)
    requires ParentsExist(parentOf) && id in parentOf
    ensures !ChainEnds(SetParent(parentOf, id, Some(id)), id)
  {
    var r := SetParent(parentOf, id, Some(id));
    forall n: nat ensures Up(r, id, n) == Some(id) {
      SelfLoop(r, id, n);
    }
  }

  lemma {:induction false} SelfLoop(parentOf: map<nat, Option<nat>>, id: nat, n: nat)
    requires ParentsExist(parentOf) && id in parentOf && parentOf[id] == Some(id)
    ensures Up(parentOf, id, n) == Some(id)
    decreases n
  {
    if n > 0 {
      SelfLoop(parentOf, id, n - 1);
    }
  }

  /** Every chain in the table ends: the thread structure is a forest. */
  ghost predicate Acyclic(parentOf: map<nat, Option<nat>>) {
    ParentsExist(parentOf) && forall id :: id in parentOf ==> ChainEnds(parentOf, id)
  }

  /** The check the update evidently needs: a comment may not become a reply to itself or to
      one of its own replies. It walks up from the proposed parent looking for the comment. */
  method ParentAllowed(parentOf: map<nat, Option<nat>>, id: nat, parent: Option<nat>) returns (ok: bool)
    requires Acyclic(parentOf) && id in parentOf && (parent.Some? ==> parent.value in parentOf)
    ensures ok <==> parent.None? || (parent.value != id && id !in Ancestors(parentOf, parent.value))
  {
    if parent.None? {
      return true;
    }
    var q := parent.value;
    ghost var n := EndBound(parentOf, q);
    var k := 0;
    var at := Some(q);
    while at.Some?
      invariant at == Up(parentOf, q, k) && k <= n
      invariant forall j :: 0 <= j < k ==> Up(parentOf, q, j) != Some(id)
      decreases n - k
    {
      if at.value == id {
        AncestorAt(parentOf, q, k, id);
        return false;
      }
      SomeBelowBound(parentOf, q, n, k + 1);
      UpStep(parentOf, q, k);
      k := k + 1;
      at := parentOf[at.value];
    }
    ok := true;
    NotReachedNotAncestor(parentOf, q, k, id);
  }

  /** A step count at which the chain is still on a comment lies below any count at which it
      has ended. */
  lemma SomeBelowBound(parentOf: map<nat, Option<nat>>, id: nat, n: nat, k: nat)
    requires ParentsExist(parentOf) && id in parentOf && Up(parentOf, id, n).None?
    ensures Up(parentOf, id, k).Some? ==> k < n
  {
    if n <= k {
      UpStaysNone(parentOf, id, n, k);
    }
  }

  /** The ancestors are exactly the comments the chain passes through after its first step. */
  lemma {:induction false} AncestorsAreUp(parentOf: map<nat, Option<nat>>, id: nat, n: nat, a: nat)
    requires ParentsExist(parentOf) && id in parentOf && Up(parentOf, id, n).None?
    ensures a in AncestorsWithin(parentOf, id, n) <==> exists k :: 1 <= k < n && Up(parentOf, id, k) == Some(a)
    decreases n
  {
    if parentOf[id].Some? {
      var p := parentOf[id].value;
      assert Up(parentOf, id, n) == Up(parentOf, p, n - 1);
      assert n >= 2;
      assert AncestorsWithin(parentOf, id, n) == {p} + AncestorsWithin(parentOf, p, n - 1);
      AncestorsAreUp(parentOf, p, n - 1, a);
      if a in AncestorsWithin(parentOf, p, n - 1) {
        var k :| 1 <= k < n - 1 && Up(parentOf, p, k) == Some(a);
        assert Up(parentOf, id, k + 1) == Some(a);
        assert 1 <= k + 1 < n;
      }
      if a == p {
        assert Up(parentOf, id, 1) == Some(a);
      }
      if a in AncestorsWithin(parentOf, id, n) {
        assert exists j :: 1 <= j < n && Up(parentOf, id, j) == Some(a);
      }
      forall k | 1 <= k < n && Up(parentOf, id, k) == Some(a)
        ensures a == p || a in AncestorsWithin(parentOf, p, n - 1)
      {
        assert Up(parentOf, id, k) == Up(parentOf, p, k - 1);
        if k > 1 {
          assert 1 <= k - 1 < n - 1;
          assert Up(parentOf, p, k - 1) == Some(a);
          assert exists j :: 1 <= j < n - 1 && Up(parentOf, p, j) == Some(a);
          assert a in AncestorsWithin(parentOf, p, n - 1);
        }
      }
    } else {
      forall k | 1 <= k ensures Up(parentOf, id, k).None? {
      }
    }
  }

  /** A comment the chain of `q` passes through is `q` itself or one of its ancestors. */
  lemma AncestorAt(parentOf: map<nat, Option<nat>>, q: nat, k: nat, id: nat)
    requires ChainEnds(parentOf, q) && Up(parentOf, q, k) == Some(id)
    ensures q == id || id in Ancestors(parentOf, q)
  {
    var n := EndBound(parentOf, q);
    SomeBelowBound(parentOf, q, n, k);
    AncestorsAreUp(parentOf, q, n, id);
  }

  /** A comment the whole chain of `q` never passes through is neither `q` nor an ancestor. */
  lemma NotReachedNotAncestor(parentOf: map<nat, Option<nat>>, q: nat, k: nat, id: nat)
    requires ChainEnds(parentOf, q) && Up(parentOf, q, k).None?
    requires forall j :: 0 <= j < k ==> Up(parentOf, q, j) != Some(id)
    ensures q != id && id !in Ancestors(parentOf, q)
  {
    var n := EndBound(parentOf, q);
    assert Up(parentOf, q, 0) == Some(q);
    AncestorsAreUp(parentOf, q, n, id);
    if id in Ancestors(parentOf, q) {
      var j :| 1 <= j < n && Up(parentOf, q, j) == Some(id);
      SomeBelowBound(parentOf, q, k, j);
    }
  }

  /** Under an update that keeps every other comment's parent, a chain that never passes
      through the updated comment is unaffected and still ends. */
  lemma {:induction false} AvoidsUpdate(parentOf: map<nat, Option<nat>>, r: map<nat, Option<nat>>,
                                        id: nat, y: nat, n: nat)
    requires ParentsExist(parentOf) && ParentsExist(r) && r.Keys == parentOf.Keys
    requires forall x :: x in parentOf && x != id ==> r[x] == parentOf[x]
    requires y in parentOf && Up(parentOf, y, n).None?
    requires y != id && id !in AncestorsWithin(parentOf, y, n)
    ensures Up(r, y, n).None?
    decreases n
  {
    if parentOf[y].Some? {
      AvoidsUpdate(parentOf, r, id, parentOf[y].value, n - 1);
    }
  }

  /** Corrected: an update of `parent` that passes `ParentAllowed` keeps every chain ending,
      so every comment keeps a depth and a finite tree of replies. */
  lemma CheckedUpdateKeepsAcyclic(parentOf: map<nat, Option<nat>>, id: nat, parent: Option<nat>)
    requires Acyclic(parentOf) && id in parentOf && (parent.Some? ==> parent.value in parentOf)
    requires parent.None? || (parent.value != id && id !in Ancestors(parentOf, parent.value))
    ensures Acyclic(SetParent(parentOf, id, parent))
  {
    var r := SetParent(parentOf, id, parent);
    forall y | y in r ensures ChainEnds(r, y) {
      UpdatedChainEnds(parentOf, id, parent, y, EndBound(parentOf, y));
    }
  }

  lemma {:induction false} UpdatedChainEnds(parentOf: map<nat, Option<nat>>, id: nat, parent: Option<nat>,
                                            y: nat, n: nat)
    requires Acyclic(parentOf) && id in parentOf && (parent.Some? ==> parent.value in parentOf)
    requires parent.None? || (parent.value != id && id !in Ancestors(parentOf, parent.value))
    requires y in parentOf && Up(parentOf, y, n).None?
    ensures ChainEnds(SetParent(parentOf, id, parent), y)
    decreases n
  {
    var r := SetParent(parentOf, id, parent);
    if y == id {
      match parent
      case None =>
        assert Up(r, y, 1).None?;
      case Some(q) =>
        var m := EndBound(parentOf, q);
        AvoidsUpdate(parentOf, r, id, q, m);
        assert Up(r, y, m + 1).None?;
    } else if parentOf[y].Some? {
      var p := parentOf[y].value;
      UpdatedChainEnds(parentOf, id, parent, p, n - 1);
      var k: nat :| Up(r, p, k).None?;
      assert Up(r, y, k + 1).None?;
    } else {
      assert Up(r, y, 1).None?;
    }
  }

  /** `Post.__str__`: the author's name, ": ", then at most the first 50 characters of the
      content. */
  function PostStr(username: string, content: string): (r: string)
    ensures |r| == |username| + 2 + (if |content| <= 50 then |content| else 50)
    ensures r[..|username|] == username
    ensures r[|username|..|username| + 2] == ": "
    ensures r[|username| + 2..] <= content
  {
    username + ": " + Take(content, 50)
  }

  /** `Comment.__str__`: the author's name, " on ", the post as `Post.__str__` renders it,
      ": ", then at most the first 30 characters of the comment. */
  function CommentStr(username: string, postAuthor: string, postContent: string, content: string): (r: string)
    ensures var post := PostStr(postAuthor, postContent);
      && |r| == |username| + 4 + |post| + 2 + (if |content| <= 30 then |content| else 30)
      && r[..|username|] == username
      && r[|username|..|username| + 4] == " on "
      && r[|username| + 4..|username| + 4 + |post|] == post
      && r[|username| + 4 + |post|..|username| + 4 + |post| + 2] == ": "
      && r[|username| + 4 + |post| + 2..] <= content
  {
    username + " on " + PostStr(postAuthor, postContent) + ": " + Take(content, 30)
  }
}
