/** The followers page (`app/dashboard/followers/page.jsx`): the search box
    that narrows both lists, the counts on the two tabs, and which button a
    user card offers. */
module FollowersPage {
  import opened Common

  /** A row of `getMyFollowers` / `getMyFollowing` as the page uses it. */
  datatype FollowUser = FollowUser(id: string, name: string, username: string, followsBack: bool)

  /** Name or username contains the query, ignoring case; the query is not
      trimmed here. */
  predicate MatchesQuery(u: FollowUser, searchQuery: string) {
    || Contains(ToLower(u.name), ToLower(searchQuery))
    || Contains(ToLower(u.username), ToLower(searchQuery))
  }

  /** `filterUsers`: a blank query shows the whole list (an absent list
      shows as empty); otherwise only the users that match, in list order. */
  function FilterUsers(users: Option<seq<FollowUser>>, searchQuery: string): (r: seq<FollowUser>)
    ensures IsBlank(searchQuery) ==> r == users.GetOr([])
    ensures !IsBlank(searchQuery) ==>
      forall u :: u in r <==> u in users.GetOr([]) && MatchesQuery(u, searchQuery)
    ensures IsSublist(r, users.GetOr([]))
  {
    if IsBlank(searchQuery) then
      SublistReflexive(users.GetOr([]));
      users.GetOr([])
    else Filter(users.GetOr([]), (u: FollowUser) => MatchesQuery(u, searchQuery))
  }

  /** The numbers on the two tabs. */
  datatype TabCounts = TabCounts(followers: nat, following: nat)

  function Counts(followers: Option<seq<FollowUser>>, following: Option<seq<FollowUser>>, searchQuery: string): (c: TabCounts)
    ensures followers.None? ==> c.followers == 0
    ensures following.None? ==> c.following == 0
  {
    TabCounts(|FilterUsers(followers, searchQuery)|, |FilterUsers(following, searchQuery)|)
  }

  /** Each tab counts the users it lists: never more than the unfiltered
      list, and exactly the list's length for a blank query. */
  lemma CountsAreFilteredLengths(followers: Option<seq<FollowUser>>, following: Option<seq<FollowUser>>, searchQuery: string)
    ensures var c := Counts(followers, following, searchQuery);
      && c.followers <= |followers.GetOr([])|
      && c.following <= |following.GetOr([])|
      && (IsBlank(searchQuery) ==> c.followers == |followers.GetOr([])| && c.following == |following.GetOr([])|)
  {
    SublistIsShorter(FilterUsers(followers, searchQuery), followers.GetOr([]));
    SublistIsShorter(FilterUsers(following, searchQuery), following.GetOr([]));
  }

  datatype CardButton = FollowBack | Unfollow | NoButton

  /** The action button of `UserCard`; `variant` defaults to "follower". */
  function UserCardButton(variant: Option<string>, followsBack: bool): (b: CardButton)
    ensures b == FollowBack <==> variant.GetOr("follower") == "follower" && !followsBack
    ensures b == Unfollow <==> variant.GetOr("follower") != "follower"
    ensures b == NoButton <==> variant.GetOr("follower") == "follower" && followsBack
  {
    if variant.GetOr("follower") == "follower" then
      if !followsBack then FollowBack else NoButton
    else Unfollow
  }
}
