/** The author dashboard queries of `convex/dashboard.js`, each run against
    one snapshot of the store. `now` is `Date.now()` in milliseconds;
    calendar days are day numbers, `today` being the current one. */
module Dashboard {
  import opened Common
  import opened Schema
  import opened Sorting

  // ---------------------------------------------------------------------
  // Index scans

  /** The caller's user id: none without an identity or a matching record. */
  function UserOf(db: Db, identity: Option<Identity>): Option<UserId> {
    match identity
    case None => None
    case Some(id) => FindByToken(db.users, id.tokenIdentifier)
  }

  /** All ids are ids of posts. */
  predicate IdsIn(ids: seq<PostId>, posts: seq<PostDoc>) {
    forall k :: 0 <= k < |ids| ==> ids[k] < |posts|
  }

  /** No id occurs twice. */
  predicate Distinct(ids: seq<PostId>) {
    forall k, l :: 0 <= k < l < |ids| ==> ids[k] != ids[l]
  }

  /** Ids in creation order. */
  predicate Increasing(ids: seq<PostId>) {
    forall k, l :: 0 <= k < l < |ids| ==> ids[k] < ids[l]
  }

  /** The `by_author` scan: the ids of `uid`'s posts, oldest first. */
  function PostsBy(posts: seq<PostDoc>, uid: UserId): (r: seq<PostId>)
    ensures IdsIn(r, posts) && Increasing(r) && Distinct(r)
    ensures forall k :: 0 <= k < |r| ==> posts[r[k]].authorId == uid
    ensures forall i :: 0 <= i < |posts| && posts[i].authorId == uid ==> i in r
  {
    if |posts| == 0 then []
    else
      var init := PostsBy(posts[..|posts| - 1], uid);
      var last := |posts| - 1;
      if posts[last].authorId == uid then init + [last] else init
  }

  /** The `by_post` scan of the likes table. */
  function LikesOnPost(likes: seq<Like>, p: PostId): (r: seq<Like>)
    ensures forall l :: l in r <==> l in likes && l.postId == p
    ensures IsSublist(r, likes)
    ensures forall l :: multiset(r)[l] == if l.postId == p then multiset(likes)[l] else 0
  {
    Filter(likes, (l: Like) => l.postId == p)
  }

  /** The `by_post_status` scan for (p, "approved"). */
  function ApprovedComments(comments: seq<Comment>, p: PostId): (r: seq<Comment>)
    ensures forall c :: c in r <==> c in comments && c.postId == p && c.status == Approved
    ensures IsSublist(r, comments)
    ensures forall c :: multiset(r)[c] == if c.postId == p && c.status == Approved then multiset(comments)[c] else 0
  {
    Filter(comments, (c: Comment) => c.postId == p && c.status == Approved)
  }

  /** The `by_following` scan: the edges pointing at `uid`. */
  function FollowersOf(follows: seq<Follow>, uid: UserId): (r: seq<Follow>)
    ensures forall f :: f in r <==> f in follows && f.followingId == uid
    ensures IsSublist(r, follows)
    ensures forall f :: multiset(r)[f] == if f.followingId == uid then multiset(follows)[f] else 0
  {
    Filter(follows, (f: Follow) => f.followingId == uid)
  }

  // ---------------------------------------------------------------------
  // getAnalytics

  datatype Metric = Views | Likes

  /** `post.viewCount || 0`, `post.likeCount || 0`. */
  function Count(p: PostDoc, m: Metric): nat {
    match m
    case Views => p.viewCount.GetOr(0)
    case Likes => p.likeCount.GetOr(0)
  }

  /** The `reduce` that adds up one counter over some posts. */
  function Total(posts: seq<PostDoc>, ids: seq<PostId>, m: Metric): (t: nat)
    requires IdsIn(ids, posts)
    ensures forall k :: 0 <= k < |ids| ==> Count(posts[ids[k]], m) <= t
  {
    if |ids| == 0 then 0
    else
      var init := ids[..|ids| - 1];
      assert forall k :: 0 <= k < |init| ==> ids[k] == init[k];
      Total(posts, init, m) + Count(posts[ids[|ids| - 1]], m)
  }

  /** Thirty days in milliseconds. */
  const RecentWindow: int := 30 * 24 * 60 * 60 * 1000

  /** The posts created strictly after `cutoff`, in order. */
  function RecentIds(posts: seq<PostDoc>, ids: seq<PostId>, cutoff: int): (r: seq<PostId>)
    requires IdsIn(ids, posts)
    ensures IdsIn(r, posts)
    ensures forall k :: 0 <= k < |r| ==> posts[r[k]].createdAt > cutoff
  {
    if |ids| == 0 then []
    else
      var init := RecentIds(posts, ids[..|ids| - 1], cutoff);
      var last := ids[|ids| - 1];
      if posts[last].createdAt > cutoff then init + [last] else init
  }

  /** No recent post is dropped, and the recent posts keep their order. */
  lemma {:induction false} RecentIdsKeepsRecent(posts: seq<PostDoc>, ids: seq<PostId>, cutoff: int)
    requires IdsIn(ids, posts)
    ensures forall k :: 0 <= k < |ids| && posts[ids[k]].createdAt > cutoff ==> ids[k] in RecentIds(posts, ids, cutoff)
    ensures IsSublist(RecentIds(posts, ids, cutoff), ids)
  {
    if |ids| > 0 {
      var pre := ids[..|ids| - 1];
      var last := ids[|ids| - 1];
      assert forall k :: 0 <= k < |pre| ==> ids[k] == pre[k];
      RecentIdsKeepsRecent(posts, pre, cutoff);
      var init := RecentIds(posts, pre, cutoff);
      if posts[last].createdAt > cutoff {
        var r := init + [last];
        assert RecentIds(posts, ids, cutoff) == r;
        assert r[..|r| - 1] == init;
      } else {
        assert RecentIds(posts, ids, cutoff) == init;
      }
    }
  }

  /** The recent part of a total never exceeds the total. */
  lemma {:induction false} RecentTotalAtMostTotal(posts: seq<PostDoc>, ids: seq<PostId>, cutoff: int, m: Metric)
    requires IdsIn(ids, posts)
    ensures Total(posts, RecentIds(posts, ids, cutoff), m) <= Total(posts, ids, m)
  {
    if |ids| > 0 {
      var init := ids[..|ids| - 1];
      var last := ids[|ids| - 1];
      RecentTotalAtMostTotal(posts, init, cutoff, m);
      var r := RecentIds(posts, init, cutoff);
      assert Total(posts, ids, m) == Total(posts, init, m) + Count(posts[last], m);
      if posts[last].createdAt > cutoff {
        assert RecentIds(posts, ids, cutoff) == r + [last];
        assert (r + [last])[..|r|] == r;
        assert Total(posts, r + [last], m) == Total(posts, r, m) + Count(posts[last], m);
      } else {
        assert RecentIds(posts, ids, cutoff) == r;
      }
    }
  }

  /** When every post is recent, the recent posts are all the posts. */
  lemma {:induction false} AllRecentKeepsAll(posts: seq<PostDoc>, ids: seq<PostId>, cutoff: int)
    requires IdsIn(ids, posts)
    requires forall k :: 0 <= k < |ids| ==> posts[ids[k]].createdAt > cutoff
    ensures RecentIds(posts, ids, cutoff) == ids
  {
    if |ids| > 0 {
      var init := ids[..|ids| - 1];
      var last := ids[|ids| - 1];
      assert forall k :: 0 <= k < |init| ==> init[k] == ids[k];
      AllRecentKeepsAll(posts, init, cutoff);
      assert posts[last].createdAt > cutoff;
      assert RecentIds(posts, ids, cutoff) == RecentIds(posts, init, cutoff) + [last];
      assert ids == init + [last];
    }
  }

  /** `Math.round(x * 10) / 10`, in exact arithmetic. */
  function Round1(x: real): real {
    ((x * 10.0 + 0.5).Floor as real) / 10.0
  }

  /** Rounding keeps a percentage a percentage, and 100 stays 100. */
  lemma Round1Bounds(x: real)
    requires 0.0 <= x <= 100.0
    ensures 0.0 <= Round1(x) <= 100.0
    ensures x == 100.0 ==> Round1(x) == 100.0
  {
    var y := x * 10.0 + 0.5;
    assert 0.5 <= y <= 1000.5;
    assert y.Floor as real <= y < y.Floor as real + 1.0;
    assert 0 <= y.Floor <= 1000;
    if x == 100.0 {
      assert y == 1000.5;
      assert y.Floor == 1000;
    }
  }

  /** A part over a whole is at most one. */
  lemma ShareAtMostOne(recent: nat, total: nat)
    requires 0 < total && recent <= total
    ensures 0.0 <= recent as real / total as real <= 1.0
  {
    var share := recent as real / total as real;
    assert share * total as real == recent as real;
  }

  /** The growth figure: the recent share of a total, as a percentage
      rounded to one decimal; 0 for an empty total. */
  function Growth(recent: nat, total: nat): (g: real)
    ensures total == 0 ==> g == 0.0
    ensures recent <= total ==> 0.0 <= g <= 100.0
    ensures 0 < total && recent == total ==> g == 100.0
  {
    if total > 0 then
      var share := recent as real / total as real;
      if recent <= total then
        ShareAtMostOne(recent, total);
        Round1Bounds(share * 100.0);
        Round1(share * 100.0)
      else Round1(share * 100.0)
    else 0.0
  }

  /** Distinct post ids as a set. */
  function SetOf(ids: seq<PostId>): set<PostId> {
    set k | 0 <= k < |ids| :: ids[k]
  }

  /** The number of approved comments on any post in `s`. */
  function ApprovedOn(comments: seq<Comment>, s: set<PostId>): (n: nat)
    ensures n <= |comments|
    ensures s == {} ==> n == 0
  {
    if |comments| == 0 then 0
    else
      var last := comments[|comments| - 1];
      ApprovedOn(comments[..|comments| - 1], s) + (if last.status == Approved && last.postId in s then 1 else 0)
  }

  /** What the comment loop adds up: the approved comments of each post in turn. */
  function CommentsAcross(comments: seq<Comment>, ids: seq<PostId>): (n: nat)
    ensures n <= |ids| * |comments|
  {
    if |ids| == 0 then 0
    else
      var here := ApprovedComments(comments, ids[|ids| - 1]);
      var before := CommentsAcross(comments, ids[..|ids| - 1]);
      SublistIsShorter(here, comments);
      assert |ids| * |comments| == (|ids| - 1) * |comments| + |comments|;
      before + |here|
  }

  /** Adding one more post to a set of posts adds its approved comments. */
  lemma {:induction false} ApprovedOnAddPost(comments: seq<Comment>, s: set<PostId>, p: PostId)
    requires p !in s
    ensures ApprovedOn(comments, s + {p}) == ApprovedOn(comments, s) + |ApprovedComments(comments, p)|
  {
    if |comments| > 0 {
      ApprovedOnAddPost(comments[..|comments| - 1], s, p);
    }
  }

  /** The per-post loop counts each approved comment on the author's posts
      exactly once. */
  lemma {:induction false} CommentsAcrossCountsApproved(comments: seq<Comment>, ids: seq<PostId>)
    requires Distinct(ids)
    ensures CommentsAcross(comments, ids) == ApprovedOn(comments, SetOf(ids))
  {
    if |ids| > 0 {
      var init := ids[..|ids| - 1];
      var last := ids[|ids| - 1];
      assert forall k :: 0 <= k < |init| ==> init[k] == ids[k];
      CommentsAcrossCountsApproved(comments, init);
      assert CommentsAcross(comments, ids) == CommentsAcross(comments, init) + |ApprovedComments(comments, last)|;
      assert SetOf(ids) == SetOf(init) + {last};
      assert last !in SetOf(init);
      ApprovedOnAddPost(comments, SetOf(init), last);
    } else {
      assert SetOf(ids) == {};
    }
  }

  datatype Analytics = Analytics(
    totalViews: nat,
    totalLikes: nat,
    totalComments: nat,
    totalFollowers: nat,
    viewsGrowth: real,
    likesGrowth: real,
    commentsGrowth: nat,
    followersGrowth: nat)

  /** `getAnalytics`: nothing without a caller record; otherwise the
      caller's totals over their posts and followers, with growth figures. */
  method GetAnalytics(db: Db, identity: Option<Identity>, now: int) returns (r: Option<Analytics>)
    ensures r.None? <==> UserOf(db, identity).None?
    ensures r.Some? ==> var ids := PostsBy(db.posts, UserOf(db, identity).value);
      r.value.totalViews == Total(db.posts, ids, Views) && r.value.totalLikes == Total(db.posts, ids, Likes)
    ensures r.Some? ==>
      r.value.totalComments == ApprovedOn(db.comments, SetOf(PostsBy(db.posts, UserOf(db, identity).value)))
    ensures r.Some? ==> r.value.totalFollowers == |FollowersOf(db.follows, UserOf(db, identity).value)|
    ensures r.Some? ==> var recent := RecentIds(db.posts, PostsBy(db.posts, UserOf(db, identity).value), now - RecentWindow);
      && r.value.viewsGrowth == Growth(Total(db.posts, recent, Views), r.value.totalViews)
      && r.value.likesGrowth == Growth(Total(db.posts, recent, Likes), r.value.totalLikes)
    ensures r.Some? ==> 0.0 <= r.value.viewsGrowth <= 100.0 && 0.0 <= r.value.likesGrowth <= 100.0
    ensures r.Some? ==> r.value.commentsGrowth == (if r.value.totalComments > 0 then 15 else 0)
    ensures r.Some? ==> r.value.followersGrowth == (if r.value.totalFollowers > 0 then 12 else 0)
  {
    var user := UserOf(db, identity);
    if user.None? {
      return None;
    }
    var uid := user.value;
    var postIds := PostsBy(db.posts, uid);
    var followers := FollowersOf(db.follows, uid);
    var totalViews := Total(db.posts, postIds, Views);
    var totalLikes := Total(db.posts, postIds, Likes);

    var totalComments := CountComments(db.comments, postIds);

    var thirtyDaysAgo := now - RecentWindow;
    var recentPosts := RecentIds(db.posts, postIds, thirtyDaysAgo);
    var recentViews := Total(db.posts, recentPosts, Views);
    var recentLikes := Total(db.posts, recentPosts, Likes);
    RecentTotalAtMostTotal(db.posts, postIds, thirtyDaysAgo, Views);
    RecentTotalAtMostTotal(db.posts, postIds, thirtyDaysAgo, Likes);

    r := Some(Analytics(
      totalViews, totalLikes, totalComments, |followers|,
      Growth(recentViews, totalViews), Growth(recentLikes, totalLikes),
      if totalComments > 0 then 15 else 0,
      if |followers| > 0 then 12 else 0));
  }

  /** The comment loop of `getAnalytics`: over distinct posts it counts
      every approved comment on them once. */
  method CountComments(comments: seq<Comment>, postIds: seq<PostId>) returns (totalComments: nat)
    requires Distinct(postIds)
    ensures totalComments == ApprovedOn(comments, SetOf(postIds))
  {
    totalComments := 0;
    for k := 0 to |postIds|
      invariant totalComments == CommentsAcross(comments, postIds[..k])
    {
      assert postIds[..k + 1][..k] == postIds[..k];
      totalComments := totalComments + |ApprovedComments(comments, postIds[k])|;
    }
    assert postIds[..|postIds|] == postIds;
    CommentsAcrossCountsApproved(comments, postIds);
  }

  // ---------------------------------------------------------------------
  // getRecentActivity

  datatype ActivityKind = LikeActivity | CommentActivity | FollowActivity

  /** One feed entry; `post` is absent on follow entries. */
  datatype Activity = Activity(kind: ActivityKind, user: Option<string>, post: Option<string>, time: int)

  /** A like whose `userId` is set and names a user that still exists. */
  predicate HasLiker(users: seq<UserDoc>, like: Like) {
    like.userId.Some? && like.userId.value < |users|
  }

  /** The feed entry for a like on a post titled `title`. */
  function LikeEntry(users: seq<UserDoc>, title: string, like: Like): Activity
    requires HasLiker(users, like)
  {
    Activity(LikeActivity, users[like.userId.value].name, Some(title), like.createdAt)
  }

  /** The entries for some likes on a post titled `title`: one per like
      with a liker that still exists, in the order given. */
  function LikeActs(users: seq<UserDoc>, title: string, likes: seq<Like>): (r: seq<Activity>)
    ensures |r| <= |likes|
    ensures forall k :: 0 <= k < |r| ==> r[k].kind == LikeActivity && r[k].post == Some(title)
    ensures forall a :: a in r <==> exists l :: l in likes && HasLiker(users, l) && a == LikeEntry(users, title, l)
    ensures (forall j :: 0 <= j < |likes| ==> HasLiker(users, likes[j])) ==>
      |r| == |likes| && forall k :: 0 <= k < |r| ==> r[k] == LikeEntry(users, title, likes[k])
  {
    if |likes| == 0 then []
    else
      var init := LikeActs(users, title, likes[..|likes| - 1]);
      var like := likes[|likes| - 1];
      assert likes == likes[..|likes| - 1] + [like];
      if HasLiker(users, like) then init + [LikeEntry(users, title, like)]
      else init
  }

  /** The entries for some approved comments on a post titled `title`. */
  function CommentActs(title: string, comments: seq<Comment>): (r: seq<Activity>)
    ensures |r| == |comments|
    ensures forall k :: 0 <= k < |r| ==>
      r[k] == Activity(CommentActivity, comments[k].authorName, Some(title), comments[k].createdAt)
  {
    if |comments| == 0 then []
    else
      var c := comments[|comments| - 1];
      CommentActs(title, comments[..|comments| - 1]) + [Activity(CommentActivity, c.authorName, Some(title), c.createdAt)]
  }

  /** A follow edge whose follower still exists. */
  predicate HasFollower(users: seq<UserDoc>, f: Follow) {
    f.followerId < |users|
  }

  /** The feed entry for a follow edge. */
  function FollowEntry(users: seq<UserDoc>, f: Follow): Activity
    requires HasFollower(users, f)
  {
    Activity(FollowActivity, users[f.followerId].name, None, f.createdAt)
  }

  /** The entries for some follow edges: one per follower that still exists. */
  function FollowActs(users: seq<UserDoc>, follows: seq<Follow>): (r: seq<Activity>)
    ensures |r| <= |follows|
    ensures forall k :: 0 <= k < |r| ==> r[k].kind == FollowActivity && r[k].post.None?
    ensures forall a :: a in r <==> exists f :: f in follows && HasFollower(users, f) && a == FollowEntry(users, f)
    ensures (forall j :: 0 <= j < |follows| ==> HasFollower(users, follows[j])) ==>
      |r| == |follows| && forall k :: 0 <= k < |r| ==> r[k] == FollowEntry(users, follows[k])
  {
    if |follows| == 0 then []
    else
      var init := FollowActs(users, follows[..|follows| - 1]);
      var f := follows[|follows| - 1];
      assert follows == follows[..|follows| - 1] + [f];
      if HasFollower(users, f) then init + [FollowEntry(users, f)]
      else init
  }

  /** The entries one post contributes to the first loop: its five newest likes. */
  function PostLikeEntries(db: Db, p: PostId): (r: seq<Activity>)
    ensures |r| <= 5
  {
    if p < |db.posts| then LikeActs(db.users, db.posts[p].title, NewestFirst(LikesOnPost(db.likes, p), 5))
    else []
  }

  /** The entries one post contributes to the second loop: its five newest
      approved comments. */
  function PostCommentEntries(db: Db, p: PostId): (r: seq<Activity>)
    ensures |r| <= 5
  {
    if p < |db.posts| then CommentActs(db.posts[p].title, NewestFirst(ApprovedComments(db.comments, p), 5))
    else []
  }

  /** The first loop: for each post in turn, its five newest likes. Every
      entry is one of a post's, every post's entry is there, and there are
      at most five per post. */
  function LikeActivities(db: Db, ids: seq<PostId>): (r: seq<Activity>)
    ensures |r| <= 5 * |ids|
    ensures forall a :: a in r <==> exists k :: 0 <= k < |ids| && a in PostLikeEntries(db, ids[k])
  {
    var part := (p: PostId) => PostLikeEntries(db, p);
    GatherBound(ids, part, 5);
    forall a | a in Gather(ids, part)
      ensures exists k :: 0 <= k < |ids| && a in PostLikeEntries(db, ids[k])
    {
      GatherSound(ids, part, a);
    }
    forall a, k | 0 <= k < |ids| && a in PostLikeEntries(db, ids[k])
      ensures a in Gather(ids, part)
    {
      GatherComplete(ids, part, k, a);
    }
    Gather(ids, part)
  }

  /** The second loop: for each post in turn, its five newest approved
      comments, with the same three properties. */
  function CommentActivities(db: Db, ids: seq<PostId>): (r: seq<Activity>)
    ensures |r| <= 5 * |ids|
    ensures forall a :: a in r <==> exists k :: 0 <= k < |ids| && a in PostCommentEntries(db, ids[k])
  {
    var part := (p: PostId) => PostCommentEntries(db, p);
    GatherBound(ids, part, 5);
    forall a | a in Gather(ids, part)
      ensures exists k :: 0 <= k < |ids| && a in PostCommentEntries(db, ids[k])
    {
      GatherSound(ids, part, a);
    }
    forall a, k | 0 <= k < |ids| && a in PostCommentEntries(db, ids[k])
      ensures a in Gather(ids, part)
    {
      GatherComplete(ids, part, k, a);
    }
    Gather(ids, part)
  }

  /** Everything the query collects before sorting: nothing for a caller
      without posts, else likes, then comments, then the five newest follows. */
  function Gathered(db: Db, uid: UserId): (g: seq<Activity>)
    ensures |g| <= 10 * |PostsBy(db.posts, uid)| + 5
    ensures |PostsBy(db.posts, uid)| == 0 ==> g == []
  {
    var ids := PostsBy(db.posts, uid);
    if |ids| == 0 then []
    else LikeActivities(db, ids) + CommentActivities(db, ids) + FollowActs(db.users, NewestFirst(FollowersOf(db.follows, uid), 5))
  }

  /** `args.limit || 10`: a missing or zero limit means ten. */
  function EffectiveLimit(limit: Option<int>): (n: int)
    ensures n != 0
    ensures limit.Some? && limit.value != 0 ==> n == limit.value
    ensures limit.None? || limit.value == 0 ==> n == 10
  {
    if limit.Some? && limit.value != 0 then limit.value else 10
  }

  /** The comparator `b.time - a.time`, read as "a may come before b". */
  predicate NewerOrSame(a: Activity, b: Activity) {
    a.time >= b.time
  }

  lemma NewerOrSameIsTotalPreorder()
    ensures TotalPreorder(NewerOrSame)
  {
  }

  /** `getRecentActivity`: the gathered entries, newest first, cut to the
      limit with JavaScript `slice` semantics. No caller record, no entries. */
  method GetRecentActivity(db: Db, identity: Option<Identity>, limit: Option<int>) returns (r: seq<Activity>)
    ensures UserOf(db, identity).None? ==> r == []
    ensures UserOf(db, identity).Some? ==>
      var g := Gathered(db, UserOf(db, identity).value);
      && |r| == SliceEnd(|g|, EffectiveLimit(limit))
      && multiset(r) <= multiset(g)
      && (forall k, l :: 0 <= k < l < |r| ==> r[k].time >= r[l].time)
      && (forall x, k :: x in multiset(g) - multiset(r) && 0 <= k < |r| ==> r[k].time >= x.time)
  {
    var user := UserOf(db, identity);
    if user.None? {
      return [];
    }
    var uid := user.value;
    var postIds := PostsBy(db.posts, uid);
    if |postIds| == 0 {
      return [];
    }
    var likeActs := CollectLikes(db, postIds);
    var commentActs := CollectComments(db, postIds);
    var followActs := CollectFollows(db, NewestFirst(FollowersOf(db.follows, uid), 5));
    var activities := likeActs + commentActs + followActs;
    assert activities == Gathered(db, uid);
    r := SortAndCut(activities, EffectiveLimit(limit));
  }

  /** `activities.sort((a, b) => b.time - a.time)` followed by
      `slice(0, end)`. */
  method SortAndCut(activities: seq<Activity>, end: int) returns (r: seq<Activity>)
    ensures |r| == SliceEnd(|activities|, end)
    ensures multiset(r) <= multiset(activities)
    ensures forall k, l :: 0 <= k < l < |r| ==> r[k].time >= r[l].time
    ensures forall x, k :: x in multiset(activities) - multiset(r) && 0 <= k < |r| ==> r[k].time >= x.time
  {
    var a := new Activity[|activities|](i requires 0 <= i < |activities| => activities[i]);
    assert a[..] == activities;
    NewerOrSameIsTotalPreorder();
    SortInPlace(a, NewerOrSame);
    var n := SliceEnd(a.Length, end);
    r := a[..n];
    TakeKeepsNewest(a[..], n);
  }

  /** The first loop of `getRecentActivity`. */
  method CollectLikes(db: Db, postIds: seq<PostId>) returns (activities: seq<Activity>)
    requires IdsIn(postIds, db.posts)
    ensures activities == LikeActivities(db, postIds)
  {
    activities := [];
    for k := 0 to |postIds|
      invariant activities == LikeActivities(db, postIds[..k])
    {
      assert postIds[..k + 1][..k] == postIds[..k];
      var p := postIds[k];
      var entries := LikeEntries(db.users, db.posts[p].title, NewestFirst(LikesOnPost(db.likes, p), 5));
      activities := activities + entries;
    }
    assert postIds[..|postIds|] == postIds;
  }

  /** The inner loop over one post's newest likes. */
  method LikeEntries(users: seq<UserDoc>, title: string, likes: seq<Like>) returns (activities: seq<Activity>)
    ensures activities == LikeActs(users, title, likes)
  {
    activities := [];
    for j := 0 to |likes|
      invariant activities == LikeActs(users, title, likes[..j])
    {
      assert likes[..j + 1][..j] == likes[..j];
      var like := likes[j];
      if like.userId.Some? && like.userId.value < |users| {
        activities := activities + [Activity(LikeActivity, users[like.userId.value].name, Some(title), like.createdAt)];
      }
    }
    assert likes[..|likes|] == likes;
  }

  /** The second loop of `getRecentActivity`. */
  method CollectComments(db: Db, postIds: seq<PostId>) returns (activities: seq<Activity>)
    requires IdsIn(postIds, db.posts)
    ensures activities == CommentActivities(db, postIds)
  {
    activities := [];
    for k := 0 to |postIds|
      invariant activities == CommentActivities(db, postIds[..k])
    {
      assert postIds[..k + 1][..k] == postIds[..k];
      var p := postIds[k];
      var entries := CommentEntries(db.posts[p].title, NewestFirst(ApprovedComments(db.comments, p), 5));
      activities := activities + entries;
    }
    assert postIds[..|postIds|] == postIds;
  }

  /** The inner loop over one post's newest approved comments. */
  method CommentEntries(title: string, comments: seq<Comment>) returns (activities: seq<Activity>)
    ensures activities == CommentActs(title, comments)
  {
    activities := [];
    for j := 0 to |comments|
      invariant activities == CommentActs(title, comments[..j])
    {
      assert comments[..j + 1][..j] == comments[..j];
      var c := comments[j];
      activities := activities + [Activity(CommentActivity, c.authorName, Some(title), c.createdAt)];
    }
    assert comments[..|comments|] == comments;
  }

  /** The third loop of `getRecentActivity`, over the newest follow edges. */
  method CollectFollows(db: Db, recentFollowers: seq<Follow>) returns (activities: seq<Activity>)
    ensures activities == FollowActs(db.users, recentFollowers)
  {
    activities := [];
    for j := 0 to |recentFollowers|
      invariant activities == FollowActs(db.users, recentFollowers[..j])
    {
      assert recentFollowers[..j + 1][..j] == recentFollowers[..j];
      var f := recentFollowers[j];
      if f.followerId < |db.users| {
        activities := activities + [Activity(FollowActivity, db.users[f.followerId].name, None, f.createdAt)];
      }
    }
    assert recentFollowers[..|recentFollowers|] == recentFollowers;
  }

  /** Cutting a newest-first sequence keeps entries at least as new as every
      entry it drops. */
  lemma TakeKeepsNewest(s: seq<Activity>, n: nat)
    requires n <= |s|
    requires SortedBy(NewerOrSame, s)
    ensures multiset(s[..n]) <= multiset(s)
    ensures forall x, k :: x in multiset(s) - multiset(s[..n]) && 0 <= k < n ==> s[k].time >= x.time
  {
    assert s == s[..n] + s[n..];
    assert multiset(s) == multiset(s[..n]) + multiset(s[n..]);
    forall x, k | x in multiset(s) - multiset(s[..n]) && 0 <= k < n
      ensures s[k].time >= x.time
    {
      assert x in s[n..];
    }
  }

  // ---------------------------------------------------------------------
  // getPostsWithAnalytics

  /** The newest `n` of increasing ids come out decreasing. */
  lemma NewestIdsDescend(all: seq<PostId>, n: nat)
    requires Increasing(all)
    ensures var ids := NewestFirst(all, n); forall k, l :: 0 <= k < l < |ids| ==> ids[k] > ids[l]
  {
  }

  /** Taking the newest `n` of increasing ids either takes an id or leaves
      it older than every id taken. */
  lemma NewestFirstKeepsNewest(all: seq<PostId>, n: nat, i: PostId)
    requires Increasing(all) && i in all
    ensures var ids := NewestFirst(all, n);
      (exists k :: 0 <= k < |ids| && ids[k] == i) || (forall k :: 0 <= k < |ids| ==> i < ids[k])
  {
    var ids := NewestFirst(all, n);
    var j :| 0 <= j < |all| && all[j] == i;
    if j >= |all| - |ids| {
      assert ids[|all| - 1 - j] == i;
    } else {
      forall k | 0 <= k < |ids| ensures i < ids[k] {
        assert ids[k] == all[|all| - 1 - k];
      }
    }
  }

  /** A post with the number of its approved comments. */
  datatype PostWithComments = PostWithComments(id: PostId, post: PostDoc, commentCount: nat)

  /** Each post with its approved-comment count, in the order given. */
  function WithComments(db: Db, ids: seq<PostId>): (r: seq<PostWithComments>)
    requires IdsIn(ids, db.posts)
    ensures |r| == |ids|
    ensures forall k :: 0 <= k < |r| ==>
      r[k] == PostWithComments(ids[k], db.posts[ids[k]], |ApprovedComments(db.comments, ids[k])|)
  {
    seq(|ids|, k requires 0 <= k < |ids| =>
      PostWithComments(ids[k], db.posts[ids[k]], |ApprovedComments(db.comments, ids[k])|))
  }

  /** The caller's `n` newest posts, newest first, with comment counts:
      each is theirs, and every post of theirs left out is older than all
      those taken. */
  function NewestPostsOf(db: Db, uid: UserId, n: nat): (r: seq<PostWithComments>)
    ensures var count := |PostsBy(db.posts, uid)|; |r| == if n < count then n else count
    ensures forall k :: 0 <= k < |r| ==>
      && r[k].id < |db.posts| && r[k].post == db.posts[r[k].id] && r[k].post.authorId == uid
      && r[k].commentCount == |ApprovedComments(db.comments, r[k].id)|
    ensures forall k, l :: 0 <= k < l < |r| ==> r[k].id > r[l].id
    ensures forall i :: 0 <= i < |db.posts| && db.posts[i].authorId == uid ==>
      (exists k :: 0 <= k < |r| && r[k].id == i) || (forall k :: 0 <= k < |r| ==> i < r[k].id)
  {
    var all := PostsBy(db.posts, uid);
    var ids := NewestFirst(all, n);
    NewestIdsDescend(all, n);
    forall i | 0 <= i < |db.posts| && db.posts[i].authorId == uid {
      NewestFirstKeepsNewest(all, n, i);
    }
    var r := WithComments(db, ids);
    assert forall k :: 0 <= k < |r| ==> r[k].id == ids[k];
    r
  }

  /** `args.limit || 5`: a missing or zero limit means five. */
  function PostLimit(limit: Option<nat>): (n: nat)
    ensures n > 0
    ensures limit.Some? && limit.value != 0 ==> n == limit.value
    ensures limit.None? || limit.value == 0 ==> n == 5
  {
    if limit.Some? && limit.value != 0 then limit.value else 5
  }

  /** `getPostsWithAnalytics`: nothing without a caller record, else the
      caller's newest posts with their comment counts. */
  function GetPostsWithAnalytics(db: Db, identity: Option<Identity>, limit: Option<nat>): (r: seq<PostWithComments>)
    ensures UserOf(db, identity).None? ==> r == []
    ensures UserOf(db, identity).Some? ==> r == NewestPostsOf(db, UserOf(db, identity).value, PostLimit(limit))
    ensures |r| <= PostLimit(limit)
  {
    match UserOf(db, identity)
    case None => []
    case Some(uid) => NewestPostsOf(db, uid, PostLimit(limit))
  }

  // ---------------------------------------------------------------------
  // getDailyViews

  /** One day of the chart: its day number and its views. */
  datatype ChartDay = ChartDay(date: int, views: nat)

  /** Days in the chart. */
  const ChartDays: nat := 30

  /** `generateEmptyChartData`: the thirty days ending today, oldest first,
      all with zero views. */
  method GenerateEmptyChartData(today: int) returns (days: seq<ChartDay>)
    ensures |days| == ChartDays
    ensures forall k :: 0 <= k < |days| ==> days[k] == ChartDay(today - (ChartDays - 1) + k, 0)
  {
    days := [];
    var i: int := ChartDays - 1;
    while i >= 0
      invariant -1 <= i <= ChartDays - 1
      invariant |days| == ChartDays - 1 - i
      invariant forall k :: 0 <= k < |days| ==> days[k] == ChartDay(today - (ChartDays - 1) + k, 0)
    {
      days := days + [ChartDay(today - i, 0)];
      i := i - 1;
    }
  }

  /** The `by_post_date` scan for one post. */
  function StatsOfPost(stats: seq<DailyStat>, p: PostId): (r: seq<DailyStat>)
    ensures forall x :: x in r <==> x in stats && x.postId == p
  {
    StatsOfPosts(stats, {p})
  }

  /** The stats of every post in `s`. */
  function StatsOfPosts(stats: seq<DailyStat>, s: set<PostId>): (r: seq<DailyStat>)
    ensures forall x :: x in r <==> x in stats && x.postId in s
  {
    if |stats| == 0 then []
    else
      var init := StatsOfPosts(stats[..|stats| - 1], s);
      var last := stats[|stats| - 1];
      assert stats == stats[..|stats| - 1] + [last];
      if last.postId in s then init + [last] else init
  }

  /** The scan for a set of posts is the order-keeping filter of the stats. */
  lemma {:induction false} StatsOfPostsIsFilter(stats: seq<DailyStat>, s: set<PostId>)
    ensures StatsOfPosts(stats, s) == Filter(stats, (x: DailyStat) => x.postId in s)
  {
    if |stats| > 0 {
      StatsOfPostsIsFilter(stats[..|stats| - 1], s);
    }
  }

  /** One post's stats keep the table's order and each record's multiplicity. */
  lemma StatsOfPostKeepsOrder(stats: seq<DailyStat>, p: PostId)
    ensures IsSublist(StatsOfPost(stats, p), stats)
    ensures forall x :: multiset(StatsOfPost(stats, p))[x] == if x.postId == p then multiset(stats)[x] else 0
  {
    StatsOfPostsIsFilter(stats, {p});
  }

  /** The views some stats record for day `d`. */
  function ViewsOn(stats: seq<DailyStat>, d: int): nat {
    if |stats| == 0 then 0
    else
      var last := stats[|stats| - 1];
      ViewsOn(stats[..|stats| - 1], d) + (if last.date == d then last.views else 0)
  }

  /** `viewsByDate[d] || 0`. */
  function MapGet(m: map<int, nat>, d: int): nat {
    if d in m then m[d] else 0
  }

  /** The `forEach` that sums views per day. A day whose running total is
      still 0 is falsy and gets overwritten, which adds up all the same. */
  method AggregateByDate(stats: seq<DailyStat>) returns (m: map<int, nat>)
    ensures forall d :: MapGet(m, d) == ViewsOn(stats, d)
  {
    m := map[];
    for k := 0 to |stats|
      invariant forall d :: MapGet(m, d) == ViewsOn(stats[..k], d)
    {
      assert stats[..k + 1][..k] == stats[..k];
      var stat := stats[k];
      if stat.date in m && m[stat.date] != 0 {
        m := m[stat.date := m[stat.date] + stat.views];
      } else {
        m := m[stat.date := stat.views];
      }
    }
    assert stats[..|stats|] == stats;
  }

  /** The chart for some stats: the thirty days ending today, each with the
      views the stats record for it. */
  method ChartOf(stats: seq<DailyStat>, today: int) returns (chart: seq<ChartDay>)
    ensures |chart| == ChartDays
    ensures forall k :: 0 <= k < |chart| ==>
      chart[k] == ChartDay(today - (ChartDays - 1) + k, ViewsOn(stats, today - (ChartDays - 1) + k))
  {
    var days := GenerateEmptyChartData(today);
    var viewsByDate := AggregateByDate(stats);
    chart := seq(|days|, k requires 0 <= k < |days| => days[k].(views := MapGet(viewsByDate, days[k].date)));
  }

  /** What the chart shows for day `d`, as written: only the stats of the
      caller's oldest post are read. */
  function FirstPostViews(db: Db, uid: UserId, d: int): (v: nat)
    ensures |PostsBy(db.posts, uid)| == 0 ==> v == 0
  {
    var ids := PostsBy(db.posts, uid);
    if |ids| == 0 then 0 else ViewsOn(StatsOfPost(db.dailyStats, ids[0]), d)
  }

  /** What the chart is meant to show for day `d`: the views of all the
      caller's posts. */
  function AllPostsViews(db: Db, uid: UserId, d: int): (v: nat)
    ensures |PostsBy(db.posts, uid)| == 0 ==> v == 0
  {
    var s := SetOf(PostsBy(db.posts, uid));
    if |PostsBy(db.posts, uid)| == 0 then
      assert s == {};
      NoPostsNoStats(db.dailyStats);
      ViewsOn(StatsOfPosts(db.dailyStats, s), d)
    else ViewsOn(StatsOfPosts(db.dailyStats, s), d)
  }

  /** `getDailyViews` as written: thirty zero days without a caller record
      or without posts, otherwise the oldest post's views per day. */
  method GetDailyViews(db: Db, identity: Option<Identity>, today: int) returns (chart: seq<ChartDay>)
    ensures |chart| == ChartDays
    ensures forall k :: 0 <= k < |chart| ==> chart[k].date == today - (ChartDays - 1) + k
    ensures UserOf(db, identity).None? ==> forall k :: 0 <= k < |chart| ==> chart[k].views == 0
    ensures UserOf(db, identity).Some? ==> forall k :: 0 <= k < |chart| ==>
      chart[k].views == FirstPostViews(db, UserOf(db, identity).value, chart[k].date)
  {
    var user := UserOf(db, identity);
    if user.None? {
      chart := GenerateEmptyChartData(today);
    } else {
      var uid := user.value;
      chart := FirstPostChart(db, uid, today);
      forall k | 0 <= k < |chart|
        ensures chart[k].views == FirstPostViews(db, uid, chart[k].date)
      {
        assert chart[k].date == today - (ChartDays - 1) + k;
      }
    }
  }

  /** The chart of a known caller, as written. */
  method FirstPostChart(db: Db, uid: UserId, today: int) returns (chart: seq<ChartDay>)
    ensures |chart| == ChartDays
    ensures forall k :: 0 <= k < |chart| ==>
      chart[k] == ChartDay(today - (ChartDays - 1) + k, FirstPostViews(db, uid, today - (ChartDays - 1) + k))
  {
    var postIds := PostsBy(db.posts, uid);
    if |postIds| == 0 {
      chart := GenerateEmptyChartData(today);
      return;
    }
    var stats := StatsOfPost(db.dailyStats, postIds[0]);
    chart := ChartOf(stats, today);
  }

  /** `getDailyViews` as intended: every post of the caller counts. */
  method GetDailyViewsAllPosts(db: Db, identity: Option<Identity>, today: int) returns (chart: seq<ChartDay>)
    ensures |chart| == ChartDays
    ensures forall k :: 0 <= k < |chart| ==> chart[k].date == today - (ChartDays - 1) + k
    ensures UserOf(db, identity).None? ==> forall k :: 0 <= k < |chart| ==> chart[k].views == 0
    ensures UserOf(db, identity).Some? ==> forall k :: 0 <= k < |chart| ==>
      chart[k].views == AllPostsViews(db, UserOf(db, identity).value, chart[k].date)
  {
    var user := UserOf(db, identity);
    if user.None? {
      chart := GenerateEmptyChartData(today);
    } else {
      var uid := user.value;
      chart := AllPostsChart(db, uid, today);
      forall k | 0 <= k < |chart|
        ensures chart[k].views == AllPostsViews(db, uid, chart[k].date)
      {
        assert chart[k].date == today - (ChartDays - 1) + k;
      }
    }
  }

  /** The chart of a known caller, as intended. */
  method AllPostsChart(db: Db, uid: UserId, today: int) returns (chart: seq<ChartDay>)
    ensures |chart| == ChartDays
    ensures forall k :: 0 <= k < |chart| ==>
      chart[k] == ChartDay(today - (ChartDays - 1) + k, AllPostsViews(db, uid, today - (ChartDays - 1) + k))
  {
    var postIds := PostsBy(db.posts, uid);
    if |postIds| == 0 {
      chart := GenerateEmptyChartData(today);
      forall k | 0 <= k < |chart|
        ensures chart[k] == ChartDay(today - (ChartDays - 1) + k, AllPostsViews(db, uid, today - (ChartDays - 1) + k))
      {
        assert AllPostsViews(db, uid, today - (ChartDays - 1) + k) == 0;
      }
      return;
    }
    var stats := StatsOfPosts(db.dailyStats, SetOf(postIds));
    chart := ChartOf(stats, today);
  }

  /** No posts, no stat rows. */
  lemma {:induction false} NoPostsNoStats(stats: seq<DailyStat>)
    ensures StatsOfPosts(stats, {}) == []
  {
    if |stats| > 0 {
      NoPostsNoStats(stats[..|stats| - 1]);
    }
  }

  /** Appending a stat adds its views to its own day only. */
  lemma ViewsOnSnoc(a: seq<DailyStat>, x: DailyStat, d: int)
    ensures ViewsOn(a + [x], d) == ViewsOn(a, d) + (if x.date == d then x.views else 0)
  {
    assert (a + [x])[..|a|] == a;
  }

  /** One post's views on a day are part of the views of any set of posts
      holding it, and all of them when it is the only one. */
  lemma {:induction false} OnePostWithinAll(stats: seq<DailyStat>, p: PostId, s: set<PostId>, d: int)
    requires p in s
    ensures ViewsOn(StatsOfPost(stats, p), d) <= ViewsOn(StatsOfPosts(stats, s), d)
    ensures s == {p} ==> ViewsOn(StatsOfPost(stats, p), d) == ViewsOn(StatsOfPosts(stats, s), d)
  {
    if |stats| > 0 {
      var init := stats[..|stats| - 1];
      OnePostWithinAll(init, p, s, d);
      var last := stats[|stats| - 1];
      var a := StatsOfPost(init, p);
      var b := StatsOfPosts(init, s);
      if last.postId == p {
        assert StatsOfPost(stats, p) == a + [last];
        assert StatsOfPosts(stats, s) == b + [last];
        ViewsOnSnoc(a, last, d);
        ViewsOnSnoc(b, last, d);
      } else if last.postId in s {
        assert StatsOfPost(stats, p) == a;
        assert StatsOfPosts(stats, s) == b + [last];
        ViewsOnSnoc(b, last, d);
      } else {
        assert StatsOfPost(stats, p) == a;
        assert StatsOfPosts(stats, s) == b;
      }
    }
  }

  /** The chart as written never shows more than the intended chart, and
      shows the same for a caller with a single post. */
  lemma FirstPostViewsAtMostAllPosts(db: Db, uid: UserId, d: int)
    ensures FirstPostViews(db, uid, d) <= AllPostsViews(db, uid, d)
    ensures |PostsBy(db.posts, uid)| == 1 ==> FirstPostViews(db, uid, d) == AllPostsViews(db, uid, d)
  {
    var ids := PostsBy(db.posts, uid);
    if |ids| > 0 {
      assert ids[0] in SetOf(ids);
      if |ids| == 1 {
        assert SetOf(ids) == {ids[0]};
      }
      OnePostWithinAll(db.dailyStats, ids[0], SetOf(ids), d);
    }
  }

  /** A caller with two posts whose views all went to the second: the chart
      as written shows 0 for that day, the intended chart 7. */
  lemma FirstPostOnlyMissesOtherPosts()
    ensures var db := Db(
        [UserDoc("t", None, None, None, None, 0, None, None)],
        [PostDoc(0, "a", "published", 0, None, None), PostDoc(0, "b", "published", 0, None, None)],
        [], [], [], [DailyStat(1, 100, 7)]);
      && UserOf(db, Some(Identity("t", None, None, None, None, None))) == Some(0)
      && FirstPostViews(db, 0, 100) == 0
      && AllPostsViews(db, 0, 100) == 7
  {
    var db := Db(
        [UserDoc("t", None, None, None, None, 0, None, None)],
        [PostDoc(0, "a", "published", 0, None, None), PostDoc(0, "b", "published", 0, None, None)],
        [], [], [], [DailyStat(1, 100, 7)]);
    assert db.users[0].tokenIdentifier == "t";
    var ids := PostsBy(db.posts, 0);
    assert PostsBy(db.posts[..1], 0) == [0];
    assert ids == [0, 1];
    assert SetOf(ids) == {0, 1};
    assert StatsOfPost(db.dailyStats, 0) == [];
    assert StatsOfPosts(db.dailyStats, {0, 1}) == [DailyStat(1, 100, 7)];
  }
}
