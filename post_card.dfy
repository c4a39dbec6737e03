/** The decision rules of the post card (`components/post-card.jsx`): which
    status badge a post gets, whether it has a public link, which tags are
    shown, and which time the card displays. `now` is the reading of
    `Date.now()`, a non-negative millisecond count. */
module PostCard {
  import opened Common

  /** A post as the card receives it. `authorUsername` is
      `post.author?.username`. */
  datatype Post = Post(
    id: string,
    title: string,
    status: string,
    scheduledFor: Option<int>,
    publishedAt: Option<int>,
    createdAt: int,
    updatedAt: int,
    viewCount: int,
    likeCount: int,
    tags: Option<seq<string>>,
    authorUsername: Option<string>,
    username: Option<string>)

  datatype StatusLabel = Scheduled | Published | Draft

  /** JavaScript truthiness of an optional string: present and non-empty. */
  predicate Truthy(s: Option<string>) {
    s.Some? && s.value != ""
  }

  /** The reader-side visibility predicate: published and either not
      scheduled or scheduled no later than now. */
  predicate IsLive(p: Post, now: nat)
    ensures IsLive(p, now) ==> p.status == "published"
  {
    p.status == "published" && (p.scheduledFor.None? || p.scheduledFor.value <= now)
  }

  /** `getStatusBadge`. A scheduled time of 0 is falsy in the source; with a
      non-negative `now` it can never be in the future, so testing for
      presence is the same test. */
  function StatusBadge(p: Post, now: nat): (r: StatusLabel)
    ensures r == Scheduled <==> p.status == "published" && p.scheduledFor.Some? && p.scheduledFor.value > now
    ensures r == Published <==> IsLive(p, now)
    ensures r == Draft <==> p.status != "published"
  {
    if p.status == "published" then
      if p.scheduledFor.Some? && p.scheduledFor.value > now then Scheduled else Published
    else Draft
  }

  /** A scheduled post turns "Published" on its own once time reaches its
      scheduled instant, with no write, and never goes back. */
  lemma ScheduledBecomesPublished(p: Post, now: nat, later: nat)
    requires StatusBadge(p, now) == Scheduled
    ensures later < p.scheduledFor.value ==> StatusBadge(p, later) == Scheduled
    ensures p.scheduledFor.value <= later ==> StatusBadge(p, later) == Published
  {
  }

  /** Liveness is stable as time moves forward. */
  lemma LiveStaysLive(p: Post, now: nat, later: nat)
    requires IsLive(p, now) && now <= later
    ensures StatusBadge(p, later) == Published
  {
  }

  /** `getPostUrl`: "/username/id" for a published post whose author (or the
      post itself) carries a non-empty username; the author's wins. */
  function PostUrl(p: Post): (r: Option<string>)
    ensures r.Some? <==> p.status == "published" && (Truthy(p.authorUsername) || Truthy(p.username))
    ensures r.Some? && Truthy(p.authorUsername) ==> r.value == "/" + p.authorUsername.value + "/" + p.id
    ensures r.Some? && !Truthy(p.authorUsername) ==> r.value == "/" + p.username.value + "/" + p.id
  {
    if p.status == "published" && (Truthy(p.authorUsername) || Truthy(p.username)) then
      var name := if Truthy(p.authorUsername) then p.authorUsername.value else p.username.value;
      Some("/" + name + "/" + p.id)
    else None
  }

  /** The link reads back: a slash, the chosen username, a slash, then the
      post id, each at the position its length fixes. */
  lemma PostUrlSegments(p: Post)
    requires PostUrl(p).Some?
    ensures var url := PostUrl(p).value;
      var name := if Truthy(p.authorUsername) then p.authorUsername.value else p.username.value;
      && url[0] == '/'
      && url[1..|name| + 1] == name
      && url[|name| + 1] == '/'
      && url[|name| + 2..] == p.id
  {
  }

  /** What the tag row shows: at most three tags and, when some are hidden,
      how many. */
  datatype TagRow = TagRow(shown: seq<string>, more: Option<nat>)

  /** The tag row; None when the post has no tags, so no row is drawn. */
  function TagBadges(tags: Option<seq<string>>): (r: Option<TagRow>)
    ensures r.None? <==> tags.None? || |tags.value| == 0
    ensures r.Some? ==> tags.Some? && |r.value.shown| <= 3 && |r.value.shown| <= |tags.value|
    ensures r.Some? ==> r.value.shown == tags.value[..|r.value.shown|]
    ensures r.Some? ==> (r.value.more.Some? <==> |tags.value| > 3)
    ensures r.Some? ==> r.value.shown == tags.value[..if |tags.value| < 3 then |tags.value| else 3]
    ensures r.Some? && |tags.value| > 3 ==> r.value.more == Some(|tags.value| - 3)
  {
    match tags
    case None => None
    case Some(ts) =>
      if |ts| == 0 then None
      else Some(TagRow(if |ts| < 3 then ts else ts[..3], if |ts| > 3 then Some(|ts| - 3) else None))
  }

  /** Every tag is accounted for: the shown tags and the "+N more" count add
      up to the number of tags, and no tag is hidden while there is room. */
  lemma TagBadgesAccountForEveryTag(tags: seq<string>)
    requires |tags| > 0
    ensures var row := TagBadges(Some(tags)).value;
      && |row.shown| + row.more.GetOr(0) == |tags|
      && (|tags| <= 3 ==> row.shown == tags)
  {
  }

  /** The time the card displays: `publishedAt` for a published post that
      has a non-zero one, otherwise `updatedAt`. */
  function DisplayedTime(p: Post): (t: int)
    ensures p.status != "published" || p.publishedAt.None? || p.publishedAt.value == 0 ==> t == p.updatedAt
    ensures t != p.updatedAt ==> p.status == "published" && p.publishedAt == Some(t)
    ensures p.status == "published" && p.publishedAt.Some? && p.publishedAt.value != 0 ==> t == p.publishedAt.value
  {
    if p.status == "published" && p.publishedAt.Some? && p.publishedAt.value != 0 then p.publishedAt.value
    else p.updatedAt
  }
}
