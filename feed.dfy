/** The home feed's client state (components/feeds/PostFeed.tsx): paged
    loading with de-duplication, the optimistic like toggle with its server
    overwrite and failure revert, on-demand comment lists, and the optimistic
    comment. Authors, avatars and dates are left out of the records. */
module Feed {
  import opened Common
  import opened Domain

  /** The page size the feed requests. */
  const FEED_PAGE_SIZE := 6

  /** A post as the feed holds it; the counts are the client's own arithmetic. */
  datatype FeedPost = FeedPost(id: PostId, content: string, likeCount: int, commentCount: int, likedByMe: bool)

  datatype Comment = Comment(id: string, content: string)

  /** The like endpoint's answer: the new liked flag and like count. */
  datatype LikeReply = LikeReply(liked: bool, likeCount: int)

  function IdsOf(ps: seq<FeedPost>): set<PostId> {
    set i | 0 <= i < |ps| :: ps[i].id
  }

  // ---------------------------------------------------------------------------
  // fetchPosts: append only the posts not already shown
  // ---------------------------------------------------------------------------

  function Merge(prev: seq<FeedPost>, incoming: seq<FeedPost>): (r: seq<FeedPost>)
    ensures |r| >= |prev| && r[..|prev|] == prev
    ensures forall i :: |prev| <= i < |r| ==> r[i].id !in IdsOf(prev)
    ensures forall i :: |prev| <= i < |r| ==> r[i] in incoming
    ensures forall p :: p in incoming ==> p in r || p.id in IdsOf(prev)
    ensures IsSubsequence(r[|prev|..], incoming)
  {
    var newOnes := Filter(incoming, (p: FeedPost) => p.id !in IdsOf(prev));
    FilterIsSubsequence(incoming, (p: FeedPost) => p.id !in IdsOf(prev));
    var r := prev + newOnes;
    assert r[|prev|..] == newOnes;
    forall p | p in incoming && p.id !in IdsOf(prev) ensures p in r {
      var k :| 0 <= k < |incoming| && incoming[k] == p;
    }
    r
  }

  /** Receiving the same page twice adds nothing the second time. */
  lemma MergeIdempotent(prev: seq<FeedPost>, incoming: seq<FeedPost>)
    ensures Merge(Merge(prev, incoming), incoming) == Merge(prev, incoming)
  {
    var once := Merge(prev, incoming);
    var again := Filter(incoming, (p: FeedPost) => p.id !in IdsOf(once));
    forall p | p in incoming ensures p.id in IdsOf(once) {
      if p in once {
        var k :| 0 <= k < |once| && once[k] == p;
      } else {
        var k :| 0 <= k < |prev| && prev[k].id == p.id;
        assert once[k] == prev[k];
      }
    }
  }

  // ---------------------------------------------------------------------------
  // toggleLike: optimistic flip, then the server's values or a flip back
  // ---------------------------------------------------------------------------

  /** The optimistic change to one post. */
  function Flip(p: FeedPost): (q: FeedPost)
    ensures q.likedByMe == !p.likedByMe
    ensures q.likeCount == if p.likedByMe then p.likeCount - 1 else p.likeCount + 1
    ensures q.id == p.id && q.content == p.content && q.commentCount == p.commentCount
  {
    p.(likedByMe := !p.likedByMe, likeCount := p.likeCount + (if p.likedByMe then -1 else 1))
  }

  /** Flipping twice gives the post back. */
  lemma FlipInvolution(p: FeedPost)
    ensures Flip(Flip(p)) == p
  {
  }

  function ToggleLikes(ps: seq<FeedPost>, id: PostId): (r: seq<FeedPost>)
    ensures |r| == |ps|
    ensures forall i :: 0 <= i < |ps| ==> r[i] == if ps[i].id == id then Flip(ps[i]) else ps[i]
  {
    seq(|ps|, i requires 0 <= i < |ps| => if ps[i].id == id then Flip(ps[i]) else ps[i])
  }

  /** The revert after a failed like restores every post exactly. */
  lemma ToggleTwiceRestores(ps: seq<FeedPost>, id: PostId)
    ensures ToggleLikes(ToggleLikes(ps, id), id) == ps
  {
    var twice := ToggleLikes(ToggleLikes(ps, id), id);
    forall i | 0 <= i < |ps| ensures twice[i] == ps[i] {
      FlipInvolution(ps[i]);
    }
  }

  /** The server's reply overwrites the target's flag and count. */
  function ServerLike(ps: seq<FeedPost>, id: PostId, reply: LikeReply): (r: seq<FeedPost>)
    ensures |r| == |ps|
    ensures forall i :: 0 <= i < |ps| ==>
      r[i] == if ps[i].id == id then ps[i].(likedByMe := reply.liked, likeCount := reply.likeCount) else ps[i]
  {
    seq(|ps|, i requires 0 <= i < |ps| =>
      if ps[i].id == id then ps[i].(likedByMe := reply.liked, likeCount := reply.likeCount) else ps[i])
  }

  /** Once the server answers, the optimistic step leaves no trace. */
  lemma ServerLikeOverridesFlip(ps: seq<FeedPost>, id: PostId, reply: LikeReply)
    ensures ServerLike(ToggleLikes(ps, id), id, reply) == ServerLike(ps, id, reply)
  {
  }

  // ---------------------------------------------------------------------------
  // addComment: the comment count and the temp comment
  // ---------------------------------------------------------------------------

  function BumpComments(ps: seq<FeedPost>, id: PostId): (r: seq<FeedPost>)
    ensures |r| == |ps|
    ensures forall i :: 0 <= i < |ps| ==>
      r[i] == if ps[i].id == id then ps[i].(commentCount := ps[i].commentCount + 1) else ps[i]
  {
    seq(|ps|, i requires 0 <= i < |ps| =>
      if ps[i].id == id then ps[i].(commentCount := ps[i].commentCount + 1) else ps[i])
  }

  /** The failure path's floored decrement. */
  function DropComment(ps: seq<FeedPost>, id: PostId): (r: seq<FeedPost>)
    ensures |r| == |ps|
    ensures forall i :: 0 <= i < |ps| ==> r[i].commentCount >= 0 || ps[i].id != id
    ensures forall i :: 0 <= i < |ps| ==>
      r[i] == if ps[i].id == id then ps[i].(commentCount := Max(0, ps[i].commentCount - 1)) else ps[i]
  {
    seq(|ps|, i requires 0 <= i < |ps| =>
      if ps[i].id == id then ps[i].(commentCount := Max(0, ps[i].commentCount - 1)) else ps[i])
  }

  /** `temp-${Date.now()}`. */
  function TempId(now: nat): string {
    "temp-" + NatToString(now)
  }

  /** The comments shown for a post (`s[postId] ?? []`). */
  function Existing(m: map<PostId, seq<Comment>>, id: PostId): seq<Comment> {
    if id in m then m[id] else []
  }

  function CommentIds(cs: seq<Comment>): set<string> {
    set i | 0 <= i < |cs| :: cs[i].id
  }

  /** The success path: the temp comment is replaced by the server's, which is
      appended instead when no comment carries its id afterwards. */
  function ReplaceTemp(cs: seq<Comment>, tempId: string, c: Comment): (r: seq<Comment>)
    ensures c.id in CommentIds(r)
    ensures |r| >= |cs| && forall i :: 0 <= i < |cs| ==> r[i] == if cs[i].id == tempId then c else cs[i]
    ensures |r| == |cs| <==> (tempId in CommentIds(cs) || c.id in CommentIds(cs))
    ensures |r| > |cs| ==> r == cs + [c]
  {
    var replaced := seq(|cs|, i requires 0 <= i < |cs| => if cs[i].id == tempId then c else cs[i]);
    if c.id in CommentIds(replaced) then
      assert tempId in CommentIds(cs) || c.id in CommentIds(cs) by {
        var k :| 0 <= k < |replaced| && replaced[k].id == c.id;
      }
      replaced
    else
      assert replaced == cs;
      var r := replaced + [c];
      assert r[|cs|].id == c.id;
      r
  }

  /** The failure path: the temp comment is dropped. */
  function RemoveTemp(cs: seq<Comment>, tempId: string): (r: seq<Comment>)
    ensures tempId !in CommentIds(r)
    ensures IsSubsequence(r, cs)
    ensures forall i :: 0 <= i < |cs| && cs[i].id != tempId ==> cs[i] in r
  {
    FilterIsSubsequence(cs, (c: Comment) => c.id != tempId);
    Filter(cs, (c: Comment) => c.id != tempId)
  }

  /** A failed comment leaves the list as it was before the optimistic append,
      provided no shown comment already had the temp id. */
  lemma FailedCommentRestoresList(cs: seq<Comment>, temp: Comment)
    requires temp.id !in CommentIds(cs)
    ensures RemoveTemp(cs + [temp], temp.id) == cs
  {
    var keep := (c: Comment) => c.id != temp.id;
    FilterConcat(cs, [temp], keep);
    assert forall x :: x in cs ==> keep(x) by {
      forall x | x in cs ensures keep(x) {
        var k :| 0 <= k < |cs| && cs[k] == x;
      }
    }
    FilterAll(cs, keep);
    assert Filter([temp], keep) == [];
  }

  /** ... and the count it had, when no count was negative. */
  lemma FailedCommentRestoresCount(ps: seq<FeedPost>, id: PostId)
    requires forall i :: 0 <= i < |ps| ==> ps[i].commentCount >= 0
    ensures DropComment(BumpComments(ps, id), id) == ps
  {
  }

  /** `(inputMap[postId] || "").trim()`. */
  function Draft(inputMap: map<PostId, string>, id: PostId): string {
    Trim(if id in inputMap then inputMap[id] else "")
  }

  /** The post's comment list once the request is answered. */
  function CommentsAfter(existing: seq<Comment>, temp: Comment, reply: Option<Comment>): seq<Comment> {
    if reply.Some? then ReplaceTemp(existing + [temp], temp.id, reply.value)
    else RemoveTemp(existing + [temp], temp.id)
  }

  /** The posts once the request is answered. */
  function CountsAfter(ps: seq<FeedPost>, id: PostId, reply: Option<Comment>): seq<FeedPost> {
    if reply.Some? then BumpComments(ps, id) else DropComment(BumpComments(ps, id), id)
  }

  // ---------------------------------------------------------------------------
  // The component's state
  // ---------------------------------------------------------------------------

  class PostFeed {
    var posts: seq<FeedPost>
    var page: nat
    var hasMore: bool
    var loading: bool
    var openMap: map<PostId, bool>
    var commentsMap: map<PostId, seq<Comment>>
    var commentsLoadingMap: map<PostId, bool>
    var inputMap: map<PostId, string>

    constructor()
      ensures posts == [] && page == 0 && hasMore && !loading
      ensures openMap == map[] && commentsMap == map[] && commentsLoadingMap == map[] && inputMap == map[]
    {
      posts := [];
      page := 0;
      hasMore := true;
      loading := false;
      openMap := map[];
      commentsMap := map[];
      commentsLoadingMap := map[];
      inputMap := map[];
    }

    /** The per-post maps are as before. */
    twostate predicate PanelsUnchanged()
      reads this
    {
      openMap == old(openMap) && commentsMap == old(commentsMap)
      && commentsLoadingMap == old(commentsLoadingMap) && inputMap == old(inputMap)
    }

    /** `fetchPosts`: nothing while a fetch runs or when the server said there
        is no more; otherwise page `page` of size 6 is requested (`requested`)
        and, on an ok reply, merged in. */
    method FetchPosts(ok: bool, incoming: seq<FeedPost>, moreOnServer: bool) returns (requested: Option<nat>)
      modifies this
      ensures PanelsUnchanged() && loading == old(loading)
      ensures old(loading) || !old(hasMore) ==>
        requested.None? && posts == old(posts) && page == old(page) && hasMore == old(hasMore)
      ensures !old(loading) && old(hasMore) ==> requested == Some(old(page))
      ensures !old(loading) && old(hasMore) && ok ==>
        posts == Merge(old(posts), incoming) && hasMore == moreOnServer && page == old(page) + 1
      ensures !old(loading) && old(hasMore) && !ok ==>
        posts == old(posts) && page == old(page) && hasMore == old(hasMore)
    {
      if loading || !hasMore {
        return None;
      }
      loading := true;
      requested := Some(page);
      if ok {
        posts := Merge(posts, incoming);
        hasMore := moreOnServer;
        page := page + 1;
      }
      loading := false;
    }

    /** `toggleLike`: `reply` is the server's answer, `None` when the request failed. */
    method ToggleLike(id: PostId, reply: Option<LikeReply>)
      modifies this
      ensures PanelsUnchanged() && page == old(page) && hasMore == old(hasMore) && loading == old(loading)
      ensures reply.None? ==> posts == old(posts)
      ensures reply.Some? ==> posts == ServerLike(old(posts), id, reply.value)
    {
      posts := ToggleLikes(posts, id);
      if reply.Some? {
        ServerLikeOverridesFlip(old(posts), id, reply.value);
        posts := ServerLike(posts, id, reply.value);
      } else {
        ToggleTwiceRestores(old(posts), id);
        posts := ToggleLikes(posts, id);
      }
    }

    /** `openComments`: opens the panel, and loads the list only the first
        time (`fetched` is `None` when the request failed). */
    method OpenComments(id: PostId, fetched: Option<seq<Comment>>)
      modifies this
      ensures posts == old(posts) && inputMap == old(inputMap)
      ensures openMap == old(openMap)[id := true]
      ensures id in old(commentsMap) ==>
        commentsMap == old(commentsMap) && commentsLoadingMap == old(commentsLoadingMap)
      ensures id !in old(commentsMap) ==>
        commentsMap == old(commentsMap)[id := fetched.GetOr([])]
        && commentsLoadingMap == old(commentsLoadingMap)[id := false]
    {
      openMap := openMap[id := true];
      if id in commentsMap {
        return;
      }
      commentsLoadingMap := commentsLoadingMap[id := true];
      commentsMap := commentsMap[id := fetched.GetOr([])];
      commentsLoadingMap := commentsLoadingMap[id := false];
    }

    method CloseComments(id: PostId)
      modifies this
      ensures openMap == old(openMap)[id := false]
      ensures posts == old(posts) && commentsMap == old(commentsMap) && inputMap == old(inputMap)
    {
      openMap := openMap[id := false];
    }

    /** `addComment`: `reply` is the server's comment, `None` when the request failed. */
    method AddComment(id: PostId, now: nat, reply: Option<Comment>)
      modifies this
      ensures page == old(page) && hasMore == old(hasMore) && commentsLoadingMap == old(commentsLoadingMap)
      ensures Draft(old(inputMap), id) == [] ==> posts == old(posts) && PanelsUnchanged()
      ensures Draft(old(inputMap), id) != [] ==>
        && openMap == old(openMap)[id := true]
        && inputMap == old(inputMap)[id := ""]
        && commentsMap == old(commentsMap)[id := CommentsAfter(Existing(old(commentsMap), id),
                                                               Comment(TempId(now), Draft(old(inputMap), id)), reply)]
        && posts == CountsAfter(old(posts), id, reply)
    {
      var text := Draft(inputMap, id);
      if text == [] {
        return;
      }
      PostComment(id, Comment(TempId(now), text), reply);
    }

    /** The optimistic part of `addComment` once the text is known to be non-empty. */
    method PostComment(id: PostId, temp: Comment, reply: Option<Comment>)
      modifies this
      ensures page == old(page) && hasMore == old(hasMore) && commentsLoadingMap == old(commentsLoadingMap)
      ensures openMap == old(openMap)[id := true]
      ensures inputMap == old(inputMap)[id := ""]
      ensures commentsMap == old(commentsMap)[id := CommentsAfter(Existing(old(commentsMap), id), temp, reply)]
      ensures posts == CountsAfter(old(posts), id, reply)
    {
      ShowTemp(id, temp);
      SettleComment(id, temp, reply);
    }

    /** Before the request: the thread opens, the temp comment is appended,
        the input is cleared and the count goes up. */
    method ShowTemp(id: PostId, temp: Comment)
      modifies this
      ensures page == old(page) && hasMore == old(hasMore) && commentsLoadingMap == old(commentsLoadingMap)
      ensures openMap == old(openMap)[id := true]
      ensures inputMap == old(inputMap)[id := ""]
      ensures commentsMap == old(commentsMap)[id := Existing(old(commentsMap), id) + [temp]]
      ensures posts == BumpComments(old(posts), id)
    {
      // `if (!openMap[postId])` only skips writing the value it already has
      openMap := openMap[id := true];
      commentsMap := commentsMap[id := Existing(commentsMap, id) + [temp]];
      inputMap := inputMap[id := ""];
      posts := BumpComments(posts, id);
    }

    /** After the request: the temp comment is swapped for the server's, or
        removed with the count taken back down. */
    method SettleComment(id: PostId, temp: Comment, reply: Option<Comment>)
      modifies this
      ensures page == old(page) && hasMore == old(hasMore) && commentsLoadingMap == old(commentsLoadingMap)
      ensures openMap == old(openMap) && inputMap == old(inputMap)
      ensures reply.Some? ==> commentsMap == old(commentsMap)[id := ReplaceTemp(Existing(old(commentsMap), id), temp.id, reply.value)]
      ensures reply.None? ==> commentsMap == old(commentsMap)[id := RemoveTemp(Existing(old(commentsMap), id), temp.id)]
      ensures posts == if reply.Some? then old(posts) else DropComment(old(posts), id)
    {
      var shown := Existing(commentsMap, id);
      if reply.Some? {
        commentsMap := commentsMap[id := ReplaceTemp(shown, temp.id, reply.value)];
      } else {
        commentsMap := commentsMap[id := RemoveTemp(shown, temp.id)];
        posts := DropComment(posts, id);
      }
    }
  }
}
