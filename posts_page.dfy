/** The post list of the dashboard (`app/dashboard/posts/page.jsx`): keep
    the posts whose title contains the search text (ignoring case) and whose
    status passes the status filter, then sort them by the chosen key. */
module PostsPage {
  import opened Common
  import opened Sorting
  import opened PostCard

  /** The search test: the lower-cased title contains the lower-cased query. */
  predicate MatchesSearch(p: Post, searchQuery: string) {
    Contains(ToLower(p.title), ToLower(searchQuery))
  }

  /** The status test: "all" passes everything, otherwise the status must match. */
  predicate MatchesStatus(p: Post, statusFilter: string) {
    statusFilter == "all" || p.status == statusFilter
  }

  predicate Keep(p: Post, searchQuery: string, statusFilter: string) {
    MatchesSearch(p, searchQuery) && MatchesStatus(p, statusFilter)
  }

  /** `posts.filter(...)` with the search and status tests. */
  function FilterPosts(posts: seq<Post>, searchQuery: string, statusFilter: string): (r: seq<Post>)
    ensures forall p :: p in r ==> MatchesStatus(p, statusFilter) && MatchesSearch(p, searchQuery)
  {
    Filter(posts, (p: Post) => Keep(p, searchQuery, statusFilter))
  }

  /** A post survives the filter exactly when it passes both tests, as often
      as it occurs, and the survivors keep their order. */
  lemma FilterPostsKeepsMatches(posts: seq<Post>, searchQuery: string, statusFilter: string)
    ensures var r := FilterPosts(posts, searchQuery, statusFilter);
      && IsSublist(r, posts)
      && |r| <= |posts|
      && forall p :: p in r <==> p in posts && MatchesSearch(p, searchQuery) && MatchesStatus(p, statusFilter)
  {
    SublistIsShorter(FilterPosts(posts, searchQuery, statusFilter), posts);
  }

  /** An empty search keeps every post that passes the status test; with
      "all" as well, nothing is dropped. */
  lemma EmptySearchKeepsStatusMatches(posts: seq<Post>, statusFilter: string)
    ensures forall p :: p in FilterPosts(posts, "", statusFilter) <==> p in posts && MatchesStatus(p, statusFilter)
    ensures multiset(FilterPosts(posts, "", "all")) == multiset(posts)
  {
    forall p: Post ensures MatchesSearch(p, "") {
      ContainsEmpty(ToLower(p.title));
    }
  }

  datatype SortOrder = Newest | Oldest | MostViews | MostLikes | Alphabetical

  /** The `switch (sortBy)`; an unknown key sorts as "newest". */
  function OrderOf(sortBy: string): (o: SortOrder)
    ensures o == Oldest <==> sortBy == "oldest"
    ensures o == MostViews <==> sortBy == "mostViews"
    ensures o == MostLikes <==> sortBy == "mostLikes"
    ensures o == Alphabetical <==> sortBy == "alphabetical"
    ensures o == Newest <==> sortBy !in {"oldest", "mostViews", "mostLikes", "alphabetical"}
  {
    if sortBy == "oldest" then Oldest
    else if sortBy == "mostViews" then MostViews
    else if sortBy == "mostLikes" then MostLikes
    else if sortBy == "alphabetical" then Alphabetical
    else Newest
  }

  /** Code-unit lexicographic order on titles, standing in for
      `localeCompare`. */
  predicate LexLe(a: string, b: string)
    decreases |a|
  {
    if |a| == 0 then true
    else if |b| == 0 then false
    else if a[0] < b[0] then true
    else if a[0] > b[0] then false
    else LexLe(a[1..], b[1..])
  }

  lemma {:induction false} LexLeTotal(a: string, b: string)
    ensures LexLe(a, b) || LexLe(b, a)
    decreases |a|
  {
    if |a| > 0 && |b| > 0 && a[0] == b[0] {
      LexLeTotal(a[1..], b[1..]);
    }
  }

  lemma {:induction false} LexLeTransitive(a: string, b: string, c: string)
    requires LexLe(a, b) && LexLe(b, c)
    ensures LexLe(a, c)
    decreases |a|
  {
    if |a| > 0 && |b| > 0 && |c| > 0 && a[0] == b[0] == c[0] {
      LexLeTransitive(a[1..], b[1..], c[1..]);
    }
  }

  /** `a` may come before `b` under the chosen order: the comparator's
      result for (a, b) is not positive. */
  predicate Before(o: SortOrder, a: Post, b: Post) {
    match o
    case Newest => a.createdAt >= b.createdAt
    case Oldest => a.createdAt <= b.createdAt
    case MostViews => a.viewCount >= b.viewCount
    case MostLikes => a.likeCount >= b.likeCount
    case Alphabetical => LexLe(a.title, b.title)
  }

  lemma BeforeIsTotalPreorder(o: SortOrder, a: Post, b: Post, c: Post)
    ensures Before(o, a, b) || Before(o, b, a)
    ensures Before(o, a, b) && Before(o, b, c) ==> Before(o, a, c)
  {
    if o == Alphabetical {
      LexLeTotal(a.title, b.title);
      if LexLe(a.title, b.title) && LexLe(b.title, c.title) {
        LexLeTransitive(a.title, b.title, c.title);
      }
    }
  }

  /** `filteredPosts`: nothing while the posts are still loading; otherwise
      the filtered posts, reordered in place by the chosen key. The result
      is a permutation of the filtered posts and every post precedes, under
      the chosen order, every post after it. */
  method FilteredPosts(posts: Option<seq<Post>>, searchQuery: string, statusFilter: string, sortBy: string)
    returns (r: seq<Post>)
    ensures posts.None? ==> r == []
    ensures multiset(r) == multiset(FilterPosts(posts.GetOr([]), searchQuery, statusFilter))
    ensures forall i, j :: 0 <= i < j < |r| ==> Before(OrderOf(sortBy), r[i], r[j])
  {
    if posts.None? {
      return [];
    }
    var filtered := FilterPosts(posts.value, searchQuery, statusFilter);
    var a := new Post[|filtered|](i requires 0 <= i < |filtered| => filtered[i]);
    assert a[..] == filtered;
    var order := OrderOf(sortBy);
    var le := (x: Post, y: Post) => Before(order, x, y);
    forall x, y, z ensures (le(x, y) || le(y, x)) && (le(x, y) && le(y, z) ==> le(x, z)) {
      BeforeIsTotalPreorder(order, x, y, z);
    }
    SortInPlace(a, le);
    r := a[..];
  }
}
