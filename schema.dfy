/** The documents of the Convex tables the core reads and writes. A table
    is a sequence in insertion order, so a document's id is its position
    and an index scan returns matching documents in that order. */
module Schema {
  import opened Common

  type UserId = nat
  type PostId = nat

  /** One `{date, views}` entry of a user's `dailyViews` array. */
  datatype DailyView = DailyView(date: string, views: int)

  /** A `users` document. Fields the source may leave unset are optional. */
  datatype UserDoc = UserDoc(
    tokenIdentifier: string,
    name: Option<string>,
    email: Option<string>,
    imageUrl: Option<string>,
    username: Option<string>,
    createdAt: int,
    lastActiveAt: Option<int>,
    dailyViews: Option<seq<DailyView>>)

  /** What the authentication provider reports about the caller. */
  datatype Identity = Identity(
    tokenIdentifier: string,
    name: Option<string>,
    firstName: Option<string>,
    lastName: Option<string>,
    email: Option<string>,
    pictureUrl: Option<string>)

  /** A `posts` document, reduced to the fields the analytics read. */
  datatype PostDoc = PostDoc(
    authorId: UserId,
    title: string,
    status: string,
    createdAt: int,
    viewCount: Option<nat>,
    likeCount: Option<nat>)

  datatype Follow = Follow(followerId: UserId, followingId: UserId, createdAt: int)

  datatype Like = Like(userId: Option<UserId>, postId: PostId, createdAt: int)

  datatype CommentStatus = Pending | Approved | Rejected

  datatype Comment = Comment(postId: PostId, status: CommentStatus, authorName: Option<string>, createdAt: int)

  /** Views of one post on one calendar day (a day number). */
  datatype DailyStat = DailyStat(postId: PostId, date: int, views: nat)

  /** A snapshot of the store as one query sees it. */
  datatype Db = Db(
    users: seq<UserDoc>,
    posts: seq<PostDoc>,
    follows: seq<Follow>,
    likes: seq<Like>,
    comments: seq<Comment>,
    dailyStats: seq<DailyStat>)

  /** Some user has token `t`. */
  predicate HasToken(users: seq<UserDoc>, t: string) {
    exists i :: 0 <= i < |users| && users[i].tokenIdentifier == t
  }

  /** The table invariant the `by_token` index is used under: no two users
      share a token, so `.unique()` never sees two matches. */
  ghost predicate TokensUnique(users: seq<UserDoc>) {
    forall i, j :: 0 <= i < j < |users| ==> users[i].tokenIdentifier != users[j].tokenIdentifier
  }

  /** The `by_token` lookup followed by `.unique()`: the id of the user
      holding token `t`, or None when there is none. */
  function FindByToken(users: seq<UserDoc>, t: string): (r: Option<UserId>)
    ensures r.None? <==> !HasToken(users, t)
    ensures r.Some? ==> r.value < |users| && users[r.value].tokenIdentifier == t
    ensures r.Some? ==> forall j :: 0 <= j < r.value ==> users[j].tokenIdentifier != t
  {
    if |users| == 0 then None
    else if users[0].tokenIdentifier == t then Some(0)
    else
      match FindByToken(users[1..], t)
      case None =>
        assert forall i :: 1 <= i < |users| ==> users[i] == users[1..][i - 1];
        None
      case Some(i) => Some(i + 1)
  }

  /** Under the table invariant, the lookup finds the one user with that token. */
  lemma {:induction false} FindByTokenIsTheOwner(users: seq<UserDoc>, t: string, i: nat)
    requires TokensUnique(users)
    requires i < |users| && users[i].tokenIdentifier == t
    ensures FindByToken(users, t) == Some(i)
  {
    assert HasToken(users, t);
  }
}
