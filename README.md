# Creator dashboard core, modelled in Dafny

This project models the logic core of a creator platform built on a Convex backend and a Next.js dashboard:

- **Dashboard aggregation** (`convex/dashboard.js`). `getAnalytics` computes totals and growth figures. `getRecentActivity` builds the like/comment/follow feed. `getPostsWithAnalytics` lists the newest posts with their comment counts. `getDailyViews` and `generateEmptyChartData` build the 30-day chart.
- **User bookkeeping** (`convex/users.js`). `store` registers the caller or refreshes their name. `getCurrentUser` and `getDailyViews` read the caller's record. `updateDailyViews` and `incrementDailyViews` keep the per-day view tally.
- **Idempotent seeding** (`convex/seedUsers.js`). Three example users are inserted, each only if its token is absent.
- **Post card rules** (`components/post-card.jsx`). These are the status badge, the public link, the tag row and the displayed time.
- **Post list** (`app/dashboard/posts/page.jsx`). The list is filtered by title search and status, then sorted in place by the chosen key.
- **Followers page** (`app/dashboard/followers/page.jsx`). It covers the search filter, the tab counts and the button each user card shows.

How the model is built:

- **Store.** A table is a sequence in insertion order, a document's id is its position in that sequence, and an index scan returns matches in that order. The backend tables are fields of a `Schema.Db` value.
- **Users table.** The users table that `store` and the view-tally mutations change in place is the class `Users.UserTable`. Its invariant is that no two users share a token.
- **Clock.** `Date.now()` becomes a parameter `now`. Calendar days in the dashboard are integer day numbers, with `today` as a parameter.
- **Loops and sorts.** Loops in the source are `while`/`for` loops here, each proved against a recursive specification function. Each `Array.prototype.sort` is an in-place insertion sort on an `array` (`Sorting.SortInPlace`). It is proved to produce a permutation that is ordered by the comparator.

Modules, one per file:

- `Common`: `Option`, and the JavaScript string helpers (`toLowerCase`, `includes`, `trim`-blankness, `slice` end, `.order("desc").take(n)`).
- `Sorting`: the in-place sort.
- `Schema`: the documents and the `by_token` lookup.
- `Users`, `SeedUsers`, `Dashboard`, `PostCard`, `PostsPage` and `FollowersPage`: one module per source file.

## Model

| member | source | states |
|---|---|---|
| Schema.FindByToken | convex/users.js:12-17 | the `by_token` lookup: none exactly when no user has the token, otherwise a user with that token and the first one |
| Schema.FindByTokenIsTheOwner | convex/users.js:12-17 | under the unique-token invariant the lookup finds the one user holding the token |
| Users.EmailPrefix | convex/users.js:34 | `split("@")[0]`: a prefix of the email containing no "@", followed by "@" when shorter than the email |
| Users.NewUser | convex/users.js:28-38 | a new record carries the caller's token, `createdAt` and `lastActiveAt` equal to now, an empty `dailyViews`, and the email and picture URL with "" for absent ones |
| Users.NewUserDefaults | convex/users.js:30-34 | username is the email up to its first "@" ("user" with no email); name is "first last" when a non-empty first name is set, else "Anonymous" (also for an empty first name) |
| Users.StoreSpec | convex/users.js:6-47 | no identity: error and no change; known token: that user's id, with the name set to the identity's name; new token: one record appended and its id returned |
| Users.StoreKeepsTokensUnique | convex/users.js:19-41 | `store` never creates a second user for a token |
| Users.StoreIsIdempotent | convex/users.js:19-25 | a repeated `store` with the same identity returns the same id and inserts nothing; from the third call on nothing changes |
| Users.UserTable.Store | convex/users.js:3-49 | the table method returns and leaves exactly what `StoreSpec` describes and keeps tokens unique |
| Users.UserTable.GetCurrentUser | convex/users.js:51-72 | unauthenticated exactly without identity, not found exactly when no user has the token, otherwise the caller's own record |
| Users.UserTable.GetDailyViews | convex/users.js:74-95 | unauthenticated exactly without identity; `[]` for an unknown caller; for a known caller exactly the stored tally, `[]` when the record has none |
| Users.FirstDateIndex | convex/users.js:120 | `findIndex`: -1 exactly when no entry has the date, otherwise the first entry with it |
| Users.FindDateIndex | convex/users.js:155 | the scan loop returns what `findIndex` specifies |
| Users.SetViews | convex/users.js:119-126 | an overwrite grows the tally by at most one entry |
| Users.AddView | convex/users.js:154-161 | an increment grows the tally by at most one entry |
| Users.SetViewsTouchesOnly | convex/users.js:119-126 | an overwrite changes only the first entry for the date or appends one, and that entry holds the new value |
| Users.AddViewTouchesOnly | convex/users.js:154-161 | an increment changes only the first entry for the date or appends one, and that entry holds one more than the old reading |
| Users.UpdateEffect | convex/users.js:119-126 | such an update reads back the written value on its date and the old value on every other date |
| Users.SetViewsEffect | convex/users.js:119-126 | after the overwrite the date reads the new value, other dates read as before, only the first matching entry changes or one entry is appended |
| Users.AddViewEffect | convex/users.js:154-161 | after the increment the date reads one more (1 if absent), other dates read as before, the tally grows by at most one |
| Users.UpdatePreservesOtherDates | convex/users.js:122-126 | touching only the first entry for a date, or appending one, leaves every other date's reading alone |
| Users.UpdatesKeepDatesUnique | convex/users.js:120-126 | both updates keep the dates of the tally distinct |
| Users.UserTable.UpdateDailyViews | convex/users.js:97-131 | error cases change nothing; otherwise only the caller's record changes, its tally becoming the overwrite/append of the old one |
| Users.UserTable.IncrementDailyViews | convex/users.js:133-166 | error cases change nothing; otherwise only the caller's record changes, its tally becoming the increment/append of the old one |
| SeedUsers.SeedList | convex/seedUsers.js:9-34 | three seed users with distinct tokens |
| SeedUsers.SeedOne | convex/seedUsers.js:43-45 | insert-if-absent: afterwards the token is present; the old table is a prefix; one record is added exactly when the token was absent |
| SeedUsers.SeedAll | convex/seedUsers.js:36-46 | the loop adds at most one record per seed |
| SeedUsers.SeedAllOnlyAppends | convex/seedUsers.js:36-46 | existing records are untouched; every appended record is a seed whose token was absent |
| SeedUsers.SeedAllCoversSeeds | convex/seedUsers.js:36-46 | after the loop every seed token is present |
| SeedUsers.SeedAllNoopWhenPresent | convex/seedUsers.js:43-45 | when all seed tokens are present the loop inserts nothing |
| SeedUsers.SeedLaterInsertsNothing | convex/seedUsers.js:4-46 | a second run at a later time, with seeds built from a later clock, inserts nothing |
| SeedUsers.SeedTwiceInsertsNothing | convex/seedUsers.js:36-46 | a second run inserts nothing |
| SeedUsers.SeedOneKeepsTokensUnique | convex/seedUsers.js:43-45 | an insert-if-absent keeps tokens unique |
| SeedUsers.SeedUsers | convex/seedUsers.js:4-50 | the loop leaves the table as the seed-by-seed insert-if-absent, keeps tokens unique and reports success |
| Dashboard.PostsBy | convex/dashboard.js:25-28 | the `by_author` scan: exactly the ids of the author's posts, increasing |
| Dashboard.LikesOnPost | convex/dashboard.js:125-127 | the `by_post` scan of likes: exactly the likes on that post, in table order, each as often as in the table |
| Dashboard.ApprovedComments | convex/dashboard.js:45-53 | the `by_post_status` scan: exactly the approved comments on that post, in table order, each as often as in the table |
| Dashboard.FollowersOf | convex/dashboard.js:31-34 | the `by_following` scan: exactly the follow edges pointing at the user, in table order, each as often as in the table |
| Dashboard.RecentIds | convex/dashboard.js:60 | only posts created strictly after the cutoff are kept |
| Dashboard.RecentIdsKeepsRecent | convex/dashboard.js:60 | every post created after the cutoff is kept, and the kept posts keep their order |
| Dashboard.Total | convex/dashboard.js:37-38 | the `reduce` sum: each post's counter (missing as 0) is at most the total |
| Dashboard.RecentTotalAtMostTotal | convex/dashboard.js:58-68 | a recent total never exceeds the total |
| Dashboard.AllRecentKeepsAll | convex/dashboard.js:60-68 | when every post was created after the cutoff, the recent posts are all the posts |
| Dashboard.Round1Bounds | convex/dashboard.js:81-82 | rounding to one decimal keeps a percentage in [0, 100] and 100 at 100 |
| Dashboard.Growth | convex/dashboard.js:71-72 | 0 for a zero total; in [0, 100] when the part is at most the total; 100 when all of it is recent |
| Dashboard.ApprovedOn | convex/dashboard.js:41-55 | the approved comments on a set of posts number at most the comments, and none for no posts |
| Dashboard.CommentsAcross | convex/dashboard.js:44-55 | the per-post loop's sum is at most posts × comments |
| Dashboard.ApprovedOnAddPost | convex/dashboard.js:44-55 | adding a post to a set adds exactly its approved comments |
| Dashboard.CommentsAcrossCountsApproved | convex/dashboard.js:41-55 | summing per-post approved comments over distinct posts counts each approved comment on those posts once |
| Dashboard.CountComments | convex/dashboard.js:41-55 | the comment loop returns the number of approved comments on the author's posts |
| Dashboard.GetAnalytics | convex/dashboard.js:5-87 | null exactly without a caller record; totals are the counter sums (missing as 0); comments are the approved comments on the author's posts; growth figures in [0, 100] and 15 / 12 rules |
| Dashboard.LikeActs | convex/dashboard.js:131-145 | an entry is there exactly when some like with an existing liker gives it (the liker's name, the post title, the like's time); never more entries than likes; when every liker exists, one entry per like in order |
| Dashboard.CommentActs | convex/dashboard.js:161-172 | one comment entry per comment, carrying its author name, the post title and its time |
| Dashboard.FollowActs | convex/dashboard.js:182-191 | an entry is there exactly when some edge with an existing follower gives it (the follower's name, no post, the edge's time); never more entries than edges; when every follower exists, one entry per edge in order |
| Dashboard.PostLikeEntries | convex/dashboard.js:125-146 | one post contributes at most five like entries |
| Dashboard.PostCommentEntries | convex/dashboard.js:150-173 | one post contributes at most five comment entries |
| Dashboard.LikeActivities | convex/dashboard.js:124-146 | an entry is there exactly when it is one of some listed post's five-newest-like entries; at most 5 × posts in total |
| Dashboard.CommentActivities | convex/dashboard.js:149-173 | an entry is there exactly when it is one of some listed post's five-newest-approved-comment entries; at most 5 × posts in total |
| Dashboard.Gathered | convex/dashboard.js:119-191 | nothing for an author without posts; otherwise at most 10 × posts + 5 entries |
| Dashboard.EffectiveLimit | convex/dashboard.js:196 | `limit || 10`: a missing or zero limit means 10, any other limit is used as given |
| Dashboard.LikeEntries | convex/dashboard.js:131-145 | the inner push loop builds exactly the like entries of one post |
| Dashboard.CommentEntries | convex/dashboard.js:161-172 | the inner push loop builds exactly the comment entries of one post |
| Dashboard.CollectLikes | convex/dashboard.js:124-146 | the nested push loop builds exactly the like entries |
| Dashboard.CollectComments | convex/dashboard.js:149-173 | the nested push loop builds exactly the comment entries |
| Dashboard.CollectFollows | convex/dashboard.js:176-191 | the push loop builds exactly the follow entries |
| Dashboard.SortAndCut | convex/dashboard.js:194-196 | sort newest first then `slice(0, end)`: length as `slice` gives, drawn from the input, time non-increasing, nothing dropped newer than anything kept |
| Dashboard.TakeKeepsNewest | convex/dashboard.js:194-196 | cutting a newest-first list keeps entries at least as new as all dropped ones |
| Dashboard.GetRecentActivity | convex/dashboard.js:90-198 | `[]` without caller record; otherwise the gathered entries sorted newest first and cut to the limit |
| Dashboard.NewestFirstKeepsNewest | convex/dashboard.js:222-226 | taking the newest n posts either takes a post or leaves it older than all taken |
| Dashboard.NewestPostsOf | convex/dashboard.js:222-246 | min(n, post count) of the author's posts, newest first, each with its approved-comment count; every omitted post is older than all listed |
| Dashboard.PostLimit | convex/dashboard.js:226 | `limit || 5`: a missing or zero limit means 5, any other limit is used as given |
| Dashboard.GetPostsWithAnalytics | convex/dashboard.js:201-250 | `[]` without caller record, else the caller's newest posts with counts, never more than the limit |
| Dashboard.GenerateEmptyChartData | convex/dashboard.js:329-346 | exactly 30 days, oldest first, ending today, all with zero views |
| Dashboard.StatsOfPost | convex/dashboard.js:303-306 | the `by_post_date` scan: exactly the stat rows of that post |
| Dashboard.StatsOfPosts | convex/dashboard.js:302 | the stat rows of every post in a set, as the comment above the scan describes |
| Dashboard.StatsOfPostsIsFilter | convex/dashboard.js:302-306 | the scan for a set of posts is the order-keeping filter of the stat table |
| Dashboard.StatsOfPostKeepsOrder | convex/dashboard.js:303-306 | one post's stat rows keep the table's order and each row's multiplicity |
| Dashboard.AggregateByDate | convex/dashboard.js:309-316 | the per-day map holds, for every day, the sum of the stats' views on that day (0 when absent) |
| Dashboard.ChartOf | convex/dashboard.js:285-322 | 30 days ending today, each with the summed views of the stats on that day, 0 when none |
| Dashboard.GetDailyViews | convex/dashboard.js:253-326 | 30 days ending today; all zero without caller record or posts; otherwise each day's views from the first post's stats only |
| Dashboard.FirstPostChart | convex/dashboard.js:272-322 | the chart loop yields, day by day over the 30 days ending today, the views of the caller's first post |
| Dashboard.AllPostsChart | convex/dashboard.js:302-322 | the chart loop over all the caller's posts yields, day by day, their summed views, 0 every day when there are none |
| Dashboard.GetDailyViewsAllPosts | convex/dashboard.js:302-306 | the intended chart: 30 days ending today, each day's views summed over all the caller's posts |
| Dashboard.NoPostsNoStats | convex/dashboard.js:302-306 | the stat scan over no posts finds no rows |
| Dashboard.FirstPostViews | convex/dashboard.js:278-316 | the as-written day reading is 0 for a caller without posts |
| Dashboard.AllPostsViews | convex/dashboard.js:278-316 | the intended day reading is 0 for a caller without posts |
| Dashboard.OnePostWithinAll | convex/dashboard.js:302-316 | one post's views on a day are at most those of any set of posts holding it, and equal for a single-post set |
| Dashboard.FirstPostViewsAtMostAllPosts | convex/dashboard.js:302-306 | the chart as written never exceeds the intended chart, and agrees with it for a single post |
| Dashboard.FirstPostOnlyMissesOtherPosts | convex/dashboard.js:305 | a caller with two posts whose views went to the second sees 0 as written where 7 is intended |
| PostCard.StatusBadge | components/post-card.jsx:40-60 | Scheduled exactly for published posts scheduled after now; Published exactly for live posts; Draft exactly for any other status |
| PostCard.IsLive | components/post-card.jsx:41-53 | only a published post is live |
| PostCard.ScheduledBecomesPublished | components/post-card.jsx:41-53 | a scheduled post stays Scheduled before its time and is Published from it on |
| PostCard.LiveStaysLive | components/post-card.jsx:49-53 | a live post stays Published as time advances |
| PostCard.PostUrl | components/post-card.jsx:62-70 | a link exactly for published posts with an author or post username; "/" + username + "/" + id, the author's username first |
| PostCard.PostUrlSegments | components/post-card.jsx:67 | the link reads back as slash, username, slash, id |
| PostCard.TagBadges | components/post-card.jsx:229-248 | no row without tags; the first min(3, count) tags are shown; a "+N more" badge exactly when there are more than three, with N the count minus 3 |
| PostCard.TagBadgesAccountForEveryTag | components/post-card.jsx:231-245 | shown tags plus N equal the tag count; with three or fewer all are shown |
| PostCard.DisplayedTime | components/post-card.jsx:267-273 | `publishedAt` for a published post with a non-zero one; `updatedAt` for any other post, including a published one whose `publishedAt` is absent or 0 |
| PostsPage.FilterPostsKeepsMatches | app/dashboard/posts/page.jsx:51-59 | a post survives exactly when its lower-cased title contains the lower-cased query and its status passes; order is kept |
| PostsPage.FilterPosts | app/dashboard/posts/page.jsx:51-59 | every surviving post passes both the search and the status test |
| PostsPage.EmptySearchKeepsStatusMatches | app/dashboard/posts/page.jsx:52-56 | an empty query keeps every status match; with "all" nothing is dropped |
| PostsPage.OrderOf | app/dashboard/posts/page.jsx:62-75 | each known key selects its order; any other key sorts as "newest" |
| PostsPage.LexLeTotal | app/dashboard/posts/page.jsx:72 | the title order relates any two titles |
| PostsPage.LexLeTransitive | app/dashboard/posts/page.jsx:72 | the title order is transitive |
| PostsPage.BeforeIsTotalPreorder | app/dashboard/posts/page.jsx:61-76 | every comparator key gives a total preorder, as the in-place sort needs |
| PostsPage.FilteredPosts | app/dashboard/posts/page.jsx:48-79 | `[]` while loading; otherwise a permutation of the filtered posts in which each post comes before every later one under the chosen key |
| Sorting.SortInPlace | app/dashboard/posts/page.jsx:61 | the array ends sorted by the comparator and holds the same elements |
| FollowersPage.FilterUsers | app/dashboard/followers/page.jsx:116-123 | blank query: the list itself (absent as empty); otherwise exactly the users whose name or username contains the query ignoring case; always an order-preserving sublist |
| FollowersPage.CountsAreFilteredLengths | app/dashboard/followers/page.jsx:125-126 | each tab count is at most the list length and equals it for a blank query |
| FollowersPage.Counts | app/dashboard/followers/page.jsx:125-126 | an absent list counts 0 |
| FollowersPage.UserCardButton | app/dashboard/followers/page.jsx:50-86 | Follow Back exactly for a follower card whose user does not follow back; Unfollow exactly on following cards; otherwise no button |
| Common.Filter | app/dashboard/followers/page.jsx:118-122 | a filter keeps order (sublist), keeps each kept element as often as it occurs, and drops the rest |
| Common.SublistIsShorter | app/dashboard/followers/page.jsx:118-122 | a sublist is no longer than its list |
| Common.ToLower | app/dashboard/posts/page.jsx:52-54 | the result has the same length and no upper-case ASCII letter, and every character that is not an upper-case letter is left as it was |
| Common.ToLowerIdempotent | app/dashboard/followers/page.jsx:120-121 | lower-casing an already lower-cased string changes nothing |
| Common.Contains | app/dashboard/posts/page.jsx:54 | `includes`: a string only contains strings no longer than itself |
| Common.IsBlank | app/dashboard/followers/page.jsx:117 | `!s.trim()`: the empty string is blank |

## Left out

- Sorting.SortInPlace: stability is not modelled. The ordering and permutation are proved, but whether equal keys keep their order is not.
- Dashboard.SortAndCut: JavaScript's `sort` is stable, so entries with equal times keep their gathering order. The model does not promise that order, only the time order and the multiset.
- PostsPage.FilteredPosts: posts equal under the chosen key keep their filtered order in the source, because `sort` is stable. The model does not promise that order.
- Users.UserTable.UpdateDailyViews: `views` is an integer. The source accepts any JavaScript number, and fractional, NaN or infinite values are not modelled.
- The "alphabetical" order uses code-point lexicographic order (Dafny characters are Unicode scalar values) instead of `localeCompare`.
- `toLowerCase` is modelled on ASCII letters only.
- `trim` blankness is modelled on the common JavaScript white-space characters only.
- Dashboard.Growth: growth is computed in exact arithmetic, with `Math.round(x)` as `floor(x + 0.5)`. Floating-point rounding error is not modelled.
- PostsPage.FilteredPosts: counters are integers that are always present. A missing `viewCount`/`likeCount` makes the source's comparator return NaN, and that case is not modelled.
- Dashboard.SortAndCut: times are integers. Fractional or NaN limits are not modelled, and neither is a limit given as a non-integer number.
- Dashboard.GetPostsWithAnalytics: the limit is a natural number. A negative or fractional `take` argument is not modelled.
- Dashboard.ApprovedComments: the `by_post_status` lookups of `convex/dashboard.js` (lines 47-52, 152-157 and 233-238) build their range with `q.and(q.eq("postId", …), q.eq("status", "approved"))`. The model reads each as the (postId, "approved") prefix scan the index is declared for. Whether the index-range builder accepts `q.and` and a second use is a question about the Convex library, which is not part of this model; if it throws, the three handlers fail for any caller with posts where the model returns a value.
- `.unique()` throwing when two users share a token is not modelled. Every operation on the users table keeps tokens unique, so the lookup never sees two matches.
- Dates in the dashboard are day numbers. The `toISOString` date strings and the locale `day` / `fullDate` labels of the chart are not modelled.
- The dates in `users.js` view tallies remain opaque strings.
- Logging and the try/catch around the insert in `store` are not modelled. The catch only re-throws.
- A name patched to an absent value is modelled as the field becoming absent.
- The async `await` and `Promise.all` structure is not modelled. Each query runs against one snapshot of the store, which is a `Db` value.
- The following modules are referenced by the generated API but their source is not available, so they are not part of this model: feed, followers, likes, posts and comments. This includes follow and like toggling and the feed queries.
- Not modelled, because they have no logic beyond their effects:
  - `app/actions/gemini.js` (calls to an external text-generation service);
  - the Clerk middleware, header, provider and hooks (authentication and routing plumbing);
  - the React pages beyond the listed rules (rendering);
  - `convex/seedData.js` (fixed constant inserts);
  - configuration files.
- The post card's image-error state is UI-only and not modelled.
- Seeded users are inserted without a view tally. The source inserts them without one too.

## Findings

| source | as written | input that shows it | evidently intended | confidence | as-written member | corrected member |
|---|---|---|---|---|---|---|
| convex/dashboard.js:303-306 | the daily chart reads the `dailyStats` of `postIds[0]` only, although the comment says "all user's posts" | a caller with two posts and one stat row giving the second post 7 views on today: the chart shows 0 for today | sum the stats of every post of the caller per day | not executed | Dashboard.FirstPostOnlyMissesOtherPosts | Dashboard.GetDailyViewsAllPosts |
