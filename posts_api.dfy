/** GET and POST /api/posts (app/api/posts/route.ts): the paged feed of
    active posts with `likedByMe`, and the content checks of a new post. The
    insert itself is `Store.CreatePost`. */
module PostsApi {
  import opened Common
  import opened Domain
  import opened Query

  const DEFAULT_POST_LIMIT := 10
  /** The server's content limit, measured on the untrimmed text. */
  const MAX_CONTENT := 280

  /** A post as the route serializes it (the author's profile columns are left out). */
  datatype PostView = PostView(
    id: PostId,
    content: string,
    imageUrl: Option<string>,
    category: Category,
    likeCount: nat,
    commentCount: nat,
    createdAt: int,
    authorId: UserId,
    likedByMe: bool)

  datatype PostsPage = PostsPage(posts: seq<PostView>, hasMore: bool)

  function View(p: Post, likedByMe: bool): (v: PostView)
    ensures v.id == p.id && v.content == p.content && v.authorId == p.authorId
    ensures v.likeCount == p.likeCount && v.commentCount == p.commentCount
    ensures v.likedByMe == likedByMe
  {
    PostView(p.id, p.content, p.imageUrl, p.category, p.likeCount, p.commentCount, p.createdAt, p.authorId, likedByMe)
  }

  /** `orderBy: { createdAt: "desc" }` on posts. */
  function NewestPostFirst(): (Post, Post) -> bool {
    (a: Post, b: Post) => a.createdAt >= b.createdAt
  }

  lemma NewestPostFirstIsOrder()
    ensures TotalPreorder(NewestPostFirst())
  {
  }

  /** `where: { isActive: true }, orderBy: { createdAt: "desc" }`. */
  function ActiveNewestFirst(posts: seq<Post>): seq<Post> {
    OrderBy(Filter(posts, (p: Post) => p.isActive), NewestPostFirst())
  }

  /** The listing holds every active post, and only those, newest first. */
  lemma ActiveNewestFirstFacts(posts: seq<Post>)
    ensures multiset(ActiveNewestFirst(posts)) == multiset(Filter(posts, (p: Post) => p.isActive))
    ensures forall i :: 0 <= i < |ActiveNewestFirst(posts)| ==> ActiveNewestFirst(posts)[i].isActive
    ensures SortedBy(ActiveNewestFirst(posts), NewestPostFirst())
  {
    var active := Filter(posts, (p: Post) => p.isActive);
    NewestPostFirstIsOrder();
    OrderBySorted(active, NewestPostFirst());
    var r := ActiveNewestFirst(posts);
    forall i | 0 <= i < |r| ensures r[i].isActive {
      assert r[i] in multiset(active);
    }
  }

  /** The caller has a like row for the post; never for an anonymous caller. */
  predicate LikedBy(likes: set<Like>, caller: Option<UserId>, id: PostId) {
    caller.Some? && Like(caller.value, id) in likes
  }

  /** `likedMap`: the ids of the page's posts that the caller has a like row for. */
  function LikedIds(likes: set<Like>, caller: Option<UserId>, rows: seq<Post>): (ids: set<PostId>)
    ensures forall i :: 0 <= i < |rows| ==> (rows[i].id in ids <==> LikedBy(likes, caller, rows[i].id))
    ensures caller.None? ==> ids == {}
  {
    if caller.None? then {}
    else
      var pageIds := set i | 0 <= i < |rows| :: rows[i].id;
      var ids := set l | l in likes && l.userId == caller.value && l.postId in pageIds :: l.postId;
      assert forall i :: 0 <= i < |rows| && LikedBy(likes, caller, rows[i].id) ==> rows[i].id in ids by {
        forall i | 0 <= i < |rows| && LikedBy(likes, caller, rows[i].id) ensures rows[i].id in ids {
          var l := Like(caller.value, rows[i].id);
          assert l in likes && l.postId in pageIds;
        }
      }
      ids
  }

  /** GET /api/posts?page=&limit=. A negative limit is answered as the catch
      path's 500. */
  method PostsGet(posts: seq<Post>, likes: set<Like>, caller: Option<UserId>, pageQ: Option<int>, limitQ: Option<int>)
    returns (reply: Reply<PostsPage>)
    ensures reply.Error? <==> !NonNegativeWindow(PageParam(pageQ), LimitParam(limitQ, DEFAULT_POST_LIMIT))
    ensures reply.Error? ==> reply == Error(500, "Failed to fetch posts")
    ensures LimitParam(limitQ, DEFAULT_POST_LIMIT) == -1 && PageParam(pageQ) == 0 ==>
      reply == Ok(PostsPage([], true))
    ensures reply.Ok? ==>
      var limit := LimitParam(limitQ, DEFAULT_POST_LIMIT);
      var window := Take(Skip(ActiveNewestFirst(posts), SkipOf(PageParam(pageQ), limit)), limit);
      && (reply.value.hasMore <==> |Skip(ActiveNewestFirst(posts), SkipOf(PageParam(pageQ), limit))| > limit)
      && |reply.value.posts| == |window|
      && forall i :: 0 <= i < |window| ==>
           reply.value.posts[i] == View(window[i], LikedBy(likes, caller, window[i].id))
  {
    var page := PageParam(pageQ);
    var limit := LimitParam(limitQ, DEFAULT_POST_LIMIT);
    if !NonNegativeWindow(page, limit) {
      return Error(500, "Failed to fetch posts");
    }
    var rows, hasMore := OverFetch(ActiveNewestFirst(posts), SkipOf(page, limit), limit);
    reply := Ok(PostsPage(Serialize(likes, caller, rows), hasMore));
  }

  /** `posts.map(...)` with `likedMap`: one view per row, in order, marked
      liked exactly when the caller has a like row for it. */
  function Serialize(likes: set<Like>, caller: Option<UserId>, rows: seq<Post>): (views: seq<PostView>)
    ensures |views| == |rows|
    ensures forall i :: 0 <= i < |rows| ==> views[i] == View(rows[i], LikedBy(likes, caller, rows[i].id))
  {
    var likedIds := LikedIds(likes, caller, rows);
    seq(|rows|, i requires 0 <= i < |rows| => View(rows[i], rows[i].id in likedIds))
  }

  /** Every post of a page is active, the page is newest first, and an
      anonymous caller sees no post as liked. */
  lemma PostsPageFacts(posts: seq<Post>, likes: set<Like>, caller: Option<UserId>, skip: nat, limit: nat)
    ensures var w := Take(Skip(ActiveNewestFirst(posts), skip), limit);
      && (forall i :: 0 <= i < |w| ==> w[i].isActive)
      && SortedBy(w, NewestPostFirst())
      && (caller.None? ==> forall i :: 0 <= i < |w| ==> !LikedBy(likes, caller, w[i].id))
  {
    var all := ActiveNewestFirst(posts);
    ActiveNewestFirstFacts(posts);
    Window(all, skip, limit, NewestPostFirst());
  }

  /** POST /api/posts's content checks, in order: missing or whitespace-only
      content, then more than 280 UTF-16 code units before trimming. */
  function NewPostGuard(content: Option<string>): (r: Option<Outcome>)
    ensures r.None? <==> content.Some? && Trim(content.value) != [] && Utf16Length(content.value) <= MAX_CONTENT
    ensures (content.None? || Trim(content.value) == []) ==> r == Some(Outcome(400, "Content required"))
    ensures (content.Some? && Trim(content.value) != [] && Utf16Length(content.value) > MAX_CONTENT)
      ==> r == Some(Outcome(400, "Content too long"))
  {
    if content.None? || content.value == [] || Trim(content.value) == [] then Some(Outcome(400, "Content required"))
    else if Utf16Length(content.value) > MAX_CONTENT then Some(Outcome(400, "Content too long"))
    else None
  }

  /** The length limit counts the surrounding whitespace: a one-letter post
      padded with 280 spaces is refused although it would be stored as one letter. */
  lemma PaddedContentRefused()
    ensures var c := "a" + seq(MAX_CONTENT, _ => ' ');
      NewPostGuard(Some(c)) == Some(Outcome(400, "Content too long")) && Trim(c) == "a"
  {
    var c := "a" + seq(MAX_CONTENT, _ => ' ');
    assert c[0] == 'a';
    assert forall i :: 1 <= i < |c| ==> c[i] == ' ';
    Utf16LengthBmp(c);
  }
}
