/** The user bookkeeping of `convex/users.js`: registering the caller on
    first sign-in (`store`), reading the caller's record, and keeping the
    per-day view tally (`dailyViews`) that the record carries. */
module Users {
  import opened Common
  import opened Schema

  datatype Error = Unauthenticated | UserNotFound

  datatype Result<T> = Ok(value: T) | Err(error: Error)

  // ---------------------------------------------------------------------
  // Defaults for a newly registered user

  /** `email.split("@")[0]`: everything before the first "@". */
  function EmailPrefix(email: string): (r: string)
    ensures '@' !in r
    ensures |r| <= |email| && r == email[..|r|]
    ensures |r| < |email| ==> email[|r|] == '@'
  {
    if |email| == 0 || email[0] == '@' then ""
    else [email[0]] + EmailPrefix(email[1..])
  }

  /** A first name counts only when it is a non-empty string (JavaScript truthiness). */
  function DisplayName(identity: Identity): string {
    match identity.firstName
    case Some(first) =>
      if first != "" then first + " " + identity.lastName.GetOr("") else "Anonymous"
    case None => "Anonymous"
  }

  /** `identity.email?.split("@")[0] ?? "user"`. */
  function DefaultUsername(email: Option<string>): string {
    match email
    case Some(e) => EmailPrefix(e)
    case None => "user"
  }

  /** The record `store` inserts for an identity seen for the first time. */
  function NewUser(identity: Identity, now: int): (u: UserDoc)
    ensures u.tokenIdentifier == identity.tokenIdentifier
    ensures u.dailyViews == Some([])
    ensures u.createdAt == now && u.lastActiveAt == Some(now)
    ensures u.email == Some(identity.email.GetOr(""))
    ensures u.imageUrl == Some(identity.pictureUrl.GetOr(""))
  {
    UserDoc(
      identity.tokenIdentifier,
      Some(DisplayName(identity)),
      Some(identity.email.GetOr("")),
      Some(identity.pictureUrl.GetOr("")),
      Some(DefaultUsername(identity.email)),
      now,
      Some(now),
      Some([]))
  }

  /** The defaults a new user gets: a username that is the part of the
      email before its first "@" ("user" with no email), the name
      "first last" or "Anonymous", and an empty view tally. */
  lemma NewUserDefaults(identity: Identity, now: int)
    ensures identity.email.None? ==> NewUser(identity, now).username == Some("user")
    ensures identity.email.Some? ==>
      var e := identity.email.value;
      var name := NewUser(identity, now).username.value;
      && '@' !in name
      && (e == name || e == name + ['@'] + e[|name| + 1..])
    ensures identity.firstName.None? ==> NewUser(identity, now).name == Some("Anonymous")
    ensures !(identity.firstName.Some? && identity.firstName.value != "") ==>
      NewUser(identity, now).name == Some("Anonymous")
    ensures identity.firstName.Some? && identity.firstName.value != "" ==>
      NewUser(identity, now).name == Some(identity.firstName.value + " " + identity.lastName.GetOr(""))
  {
    if identity.email.Some? {
      var e := identity.email.value;
      var name := EmailPrefix(e);
      if |name| < |e| {
        assert e == e[..|name|] + [e[|name|]] + e[|name| + 1..];
      }
    }
  }

  // ---------------------------------------------------------------------
  // store: lookup by token, then patch the name or insert

  /** What one `store` call returns and leaves in the table. */
  datatype StoreStep = StoreStep(result: Result<UserId>, rows: seq<UserDoc>)

  function StoreSpec(rows: seq<UserDoc>, identity: Option<Identity>, now: int): (s: StoreStep)
    ensures identity.None? ==> s == StoreStep(Err(Unauthenticated), rows)
    ensures identity.Some? && !HasToken(rows, identity.value.tokenIdentifier) ==>
      s == StoreStep(Ok(|rows|), rows + [NewUser(identity.value, now)])
    ensures identity.Some? && HasToken(rows, identity.value.tokenIdentifier) ==>
      var i := FindByToken(rows, identity.value.tokenIdentifier).value;
      && s.result == Ok(i)
      && s.rows == rows[i := rows[i].(name := identity.value.name)]
  {
    match identity
    case None => StoreStep(Err(Unauthenticated), rows)
    case Some(id) =>
      match FindByToken(rows, id.tokenIdentifier)
      case Some(i) =>
        if rows[i].name != id.name then StoreStep(Ok(i), rows[i := rows[i].(name := id.name)])
        else StoreStep(Ok(i), rows)
      case None => StoreStep(Ok(|rows|), rows + [NewUser(id, now)])
  }

  /** `store` never creates a second user for a token. */
  lemma StoreKeepsTokensUnique(rows: seq<UserDoc>, identity: Option<Identity>, now: int)
    requires TokensUnique(rows)
    ensures TokensUnique(StoreSpec(rows, identity, now).rows)
  {
    var s := StoreSpec(rows, identity, now);
    if identity.Some? && !HasToken(rows, identity.value.tokenIdentifier) {
      forall i, j | 0 <= i < j < |s.rows|
        ensures s.rows[i].tokenIdentifier != s.rows[j].tokenIdentifier
      {
        if j == |rows| {
          assert s.rows[i] == rows[i];
        }
      }
    }
  }

  /** Calling `store` again with the same identity returns the same id and
      inserts nothing; the repeated call can only rewrite the stored name
      (a new user is stored as "first last" but compared against the
      provider's `name`), and from then on `store` changes nothing. */
  lemma {:induction false} StoreIsIdempotent(rows: seq<UserDoc>, identity: Identity, now: int, later: int)
    requires TokensUnique(rows)
    ensures
      var first := StoreSpec(rows, Some(identity), now);
      var second := StoreSpec(first.rows, Some(identity), later);
      && first.result.Ok?
      && second.result == first.result
      && second.rows == first.rows[first.result.value := first.rows[first.result.value].(name := identity.name)]
      && StoreSpec(second.rows, Some(identity), later) == second
  {
    var t := identity.tokenIdentifier;
    var first := StoreSpec(rows, Some(identity), now);
    StoreKeepsTokensUnique(rows, Some(identity), now);
    var i := if HasToken(rows, t) then FindByToken(rows, t).value else |rows|;
    assert first.rows[i].tokenIdentifier == t;
    FindByTokenIsTheOwner(first.rows, t, i);
    var second := StoreSpec(first.rows, Some(identity), later);
    StoreKeepsTokensUnique(first.rows, Some(identity), later);
    assert second.rows[i].tokenIdentifier == t;
    FindByTokenIsTheOwner(second.rows, t, i);
  }

  // ---------------------------------------------------------------------
  // dailyViews: findIndex, then overwrite / increment / append

  /** `dailyViews.findIndex((dv) => dv.date === date)`: the first entry for
      `date`, or -1. */
  function FirstDateIndex(dv: seq<DailyView>, date: string): (r: int)
    ensures -1 <= r < |dv|
    ensures r == -1 <==> forall j :: 0 <= j < |dv| ==> dv[j].date != date
    ensures r >= 0 ==> dv[r].date == date && forall j :: 0 <= j < r ==> dv[j].date != date
  {
    if |dv| == 0 then -1
    else if dv[0].date == date then 0
    else
      var k := FirstDateIndex(dv[1..], date);
      if k == -1 then
        assert forall j :: 1 <= j < |dv| ==> dv[j] == dv[1..][j - 1];
        -1
      else k + 1
  }

  /** The views a reader finds for `date`: those of its first entry. */
  function ViewsOn(dv: seq<DailyView>, date: string): Option<int> {
    var i := FirstDateIndex(dv, date);
    if i >= 0 then Some(dv[i].views) else None
  }

  /** No two entries share a date. */
  ghost predicate UniqueDates(dv: seq<DailyView>) {
    forall i, j :: 0 <= i < j < |dv| ==> dv[i].date != dv[j].date
  }

  /** The tally after `updateDailyViews(date, views)`. */
  function SetViews(dv: seq<DailyView>, date: string, views: int): (r: seq<DailyView>)
    ensures |dv| <= |r| <= |dv| + 1
  {
    var i := FirstDateIndex(dv, date);
    if i >= 0 then dv[i := dv[i].(views := views)] else dv + [DailyView(date, views)]
  }

  /** The tally after `incrementDailyViews(date)`. */
  function AddView(dv: seq<DailyView>, date: string): (r: seq<DailyView>)
    ensures |dv| <= |r| <= |dv| + 1
  {
    var i := FirstDateIndex(dv, date);
    if i >= 0 then dv[i := dv[i].(views := dv[i].views + 1)] else dv + [DailyView(date, 1)]
  }

  /** The first entry for a date is where it is found. */
  lemma FirstDateIndexAt(dv: seq<DailyView>, date: string, i: nat)
    requires i < |dv| && dv[i].date == date
    requires forall j :: 0 <= j < i ==> dv[j].date != date
    ensures FirstDateIndex(dv, date) == i
  {
    var k := FirstDateIndex(dv, date);
    assert k != -1 by { assert dv[i].date == date; }
  }

  /** `r` is `dv` with only the first entry for `date` changed, or with one
      entry for `date` appended; dates stay in place. */
  predicate TouchesOnly(dv: seq<DailyView>, date: string, r: seq<DailyView>) {
    var i := FirstDateIndex(dv, date);
    if i >= 0 then |r| == |dv| && r[i].date == date && forall j :: 0 <= j < |dv| && j != i ==> r[j] == dv[j]
    else |r| == |dv| + 1 && r[..|dv|] == dv && r[|dv|].date == date
  }

  /** What any such update reads back: the touched entry's value on `date`,
      the old reading on every other date, and the other entries as they were. */
  lemma UpdateEffect(dv: seq<DailyView>, date: string, r: seq<DailyView>, v: int)
    requires TouchesOnly(dv, date, r)
    requires var i := FirstDateIndex(dv, date); r[if i >= 0 then i else |dv|].views == v
    ensures ViewsOn(r, date) == Some(v)
    ensures forall d :: d != date ==> ViewsOn(r, d) == ViewsOn(dv, d)
    ensures forall j :: 0 <= j < |dv| && j != FirstDateIndex(dv, date) ==> r[j] == dv[j]
  {
    var i := FirstDateIndex(dv, date);
    if i >= 0 {
      assert forall j :: 0 <= j < i ==> r[j] == dv[j];
      FirstDateIndexAt(r, date, i);
    } else {
      forall j | 0 <= j < |dv|
        ensures r[j] == dv[j]
      {
        assert r[j] == r[..|dv|][j];
      }
      FirstDateIndexAt(r, date, |dv|);
    }
    forall d | d != date
      ensures ViewsOn(r, d) == ViewsOn(dv, d)
    {
      UpdatePreservesOtherDates(dv, date, r, d);
    }
  }

  /** An overwrite touches only the first entry for the date, or appends one,
      and that entry holds the value written. */
  lemma SetViewsTouchesOnly(dv: seq<DailyView>, date: string, views: int)
    ensures var r := SetViews(dv, date, views); var i := FirstDateIndex(dv, date);
      TouchesOnly(dv, date, r) && r[if i >= 0 then i else |dv|].views == views
  {
    var r := SetViews(dv, date, views);
    var i := FirstDateIndex(dv, date);
    if i >= 0 {
      assert r == dv[i := dv[i].(views := views)];
    } else {
      assert r == dv + [DailyView(date, views)];
      assert r[..|dv|] == dv;
    }
  }

  /** An increment touches only the first entry for the date, or appends one,
      and that entry holds one more than the date read before. */
  lemma AddViewTouchesOnly(dv: seq<DailyView>, date: string)
    ensures var r := AddView(dv, date); var i := FirstDateIndex(dv, date);
      TouchesOnly(dv, date, r) && r[if i >= 0 then i else |dv|].views == ViewsOn(dv, date).GetOr(0) + 1
  {
    var r := AddView(dv, date);
    var i := FirstDateIndex(dv, date);
    if i >= 0 {
      assert ViewsOn(dv, date) == Some(dv[i].views);
      assert r == dv[i := dv[i].(views := dv[i].views + 1)];
    } else {
      assert ViewsOn(dv, date) == None;
      assert r == dv + [DailyView(date, 1)];
      assert r[..|dv|] == dv;
    }
  }

  /** After an overwrite, the date reads back the value written, every other
      date reads as before, and only the first entry for the date changes
      (or one entry is appended). */
  lemma SetViewsEffect(dv: seq<DailyView>, date: string, views: int)
    ensures ViewsOn(SetViews(dv, date, views), date) == Some(views)
    ensures forall d :: d != date ==> ViewsOn(SetViews(dv, date, views), d) == ViewsOn(dv, d)
    ensures var r := SetViews(dv, date, views);
      && |r| == (if ViewsOn(dv, date).Some? then |dv| else |dv| + 1)
      && forall j :: 0 <= j < |dv| && j != FirstDateIndex(dv, date) ==> r[j] == dv[j]
  {
    SetViewsTouchesOnly(dv, date, views);
    UpdateEffect(dv, date, SetViews(dv, date, views), views);
  }

  /** After an increment, the date reads one more than before (1 when it was
      absent), every other date reads as before, and the tally grows by at
      most one entry. */
  lemma AddViewEffect(dv: seq<DailyView>, date: string)
    ensures ViewsOn(AddView(dv, date), date) == Some(ViewsOn(dv, date).GetOr(0) + 1)
    ensures forall d :: d != date ==> ViewsOn(AddView(dv, date), d) == ViewsOn(dv, d)
    ensures var r := AddView(dv, date);
      && |dv| <= |r| <= |dv| + 1
      && forall j :: 0 <= j < |dv| && j != FirstDateIndex(dv, date) ==> r[j] == dv[j]
  {
    AddViewTouchesOnly(dv, date);
    UpdateEffect(dv, date, AddView(dv, date), ViewsOn(dv, date).GetOr(0) + 1);
  }

  /** An update that keeps every date in place and touches only the first
      entry for `date`, or appends an entry for `date`, leaves every other
      date's reading alone. */
  lemma UpdatePreservesOtherDates(dv: seq<DailyView>, date: string, r: seq<DailyView>, d: string)
    requires d != date
    requires TouchesOnly(dv, date, r)
    ensures ViewsOn(r, d) == ViewsOn(dv, d)
  {
    var i := FirstDateIndex(dv, date);
    var k := FirstDateIndex(dv, d);
    var k' := FirstDateIndex(r, d);
    forall j | 0 <= j < |dv|
      ensures r[j].date == dv[j].date
    {
      if i < 0 { assert r[j] == r[..|dv|][j]; }
    }
    if k >= 0 {
      assert r[k].date == d;
      assert k' == k;
    } else {
      assert k' == -1;
    }
  }

  /** Both updates keep the dates of the tally distinct. */
  lemma UpdatesKeepDatesUnique(dv: seq<DailyView>, date: string, views: int)
    requires UniqueDates(dv)
    ensures UniqueDates(SetViews(dv, date, views))
    ensures UniqueDates(AddView(dv, date))
  {
    var i := FirstDateIndex(dv, date);
    if i < 0 {
      var r1 := SetViews(dv, date, views);
      var r2 := AddView(dv, date);
      forall a, b | 0 <= a < b < |r1| ensures r1[a].date != r1[b].date {
        if b == |dv| { assert r1[a] == dv[a]; }
      }
      forall a, b | 0 <= a < b < |r2| ensures r2[a].date != r2[b].date {
        if b == |dv| { assert r2[a] == dv[a]; }
      }
    }
  }

  /** The `findIndex` scan. */
  method FindDateIndex(dv: seq<DailyView>, date: string) returns (idx: int)
    ensures idx == FirstDateIndex(dv, date)
  {
    idx := 0;
    while idx < |dv| && dv[idx].date != date
      invariant 0 <= idx <= |dv|
      invariant forall j :: 0 <= j < idx ==> dv[j].date != date
    {
      idx := idx + 1;
    }
    if idx == |dv| {
      idx := -1;
    }
  }

  // ---------------------------------------------------------------------
  // The users table

  class UserTable {
    var rows: seq<UserDoc>

    ghost predicate Valid()
      reads this
    {
      TokensUnique(rows)
    }

    constructor ()
      ensures Valid() && rows == []
    {
      rows := [];
    }

    /** `store`: returns the caller's id, registering the caller first if
        the token is new, and refreshing the stored name when it changed. */
    method Store(identity: Option<Identity>, now: int) returns (r: Result<UserId>)
      requires Valid()
      modifies this
      ensures Valid()
      ensures r == StoreSpec(old(rows), identity, now).result
      ensures rows == StoreSpec(old(rows), identity, now).rows
    {
      if identity.None? {
        return Err(Unauthenticated);
      }
      var id := identity.value;
      var user := FindByToken(rows, id.tokenIdentifier);
      if user.Some? {
        var i := user.value;
        if rows[i].name != id.name {
          rows := rows[i := rows[i].(name := id.name)];
        }
        return Ok(i);
      }
      StoreKeepsTokensUnique(rows, identity, now);
      rows := rows + [NewUser(id, now)];
      r := Ok(|rows| - 1);
    }

    /** `getCurrentUser`: the caller's record, or why there is none. */
    function GetCurrentUser(identity: Option<Identity>): (r: Result<UserDoc>)
      reads this
      ensures r == Err(Unauthenticated) <==> identity.None?
      ensures r == Err(UserNotFound) <==> identity.Some? && !HasToken(rows, identity.value.tokenIdentifier)
      ensures r.Ok? ==> identity.Some? && r.value in rows && r.value.tokenIdentifier == identity.value.tokenIdentifier
    {
      match identity
      case None => Err(Unauthenticated)
      case Some(id) =>
        match FindByToken(rows, id.tokenIdentifier)
        case Some(i) => Ok(rows[i])
        case None => Err(UserNotFound)
    }

    /** `getDailyViews` of `users.js`: the caller's tally; empty when the
        caller has no record or the record has no tally. */
    function GetDailyViews(identity: Option<Identity>): (r: Result<seq<DailyView>>)
      reads this
      ensures r == Err(Unauthenticated) <==> identity.None?
      ensures identity.Some? && !HasToken(rows, identity.value.tokenIdentifier) ==> r == Ok([])
      ensures r.Ok? && r.value != [] ==>
        exists i :: 0 <= i < |rows| && rows[i].tokenIdentifier == identity.value.tokenIdentifier
                    && rows[i].dailyViews == Some(r.value)
      ensures identity.Some? && HasToken(rows, identity.value.tokenIdentifier) ==>
        r == Ok(rows[FindByToken(rows, identity.value.tokenIdentifier).value].dailyViews.GetOr([]))
    {
      match identity
      case None => Err(Unauthenticated)
      case Some(id) =>
        match FindByToken(rows, id.tokenIdentifier)
        case Some(i) => Ok(rows[i].dailyViews.GetOr([]))
        case None => Ok([])
    }

    /** `updateDailyViews(date, views)`: overwrite or append the caller's
        entry for `date`; nothing else in the table changes. */
    method UpdateDailyViews(identity: Option<Identity>, date: string, views: int) returns (r: Result<UserId>)
      requires Valid()
      modifies this
      ensures Valid()
      ensures identity.None? ==> r == Err(Unauthenticated) && rows == old(rows)
      ensures identity.Some? && !HasToken(old(rows), identity.value.tokenIdentifier) ==>
        r == Err(UserNotFound) && rows == old(rows)
      ensures identity.Some? && HasToken(old(rows), identity.value.tokenIdentifier) ==>
        var i := FindByToken(old(rows), identity.value.tokenIdentifier).value;
        var was := old(rows)[i].dailyViews.GetOr([]);
        && r == Ok(i)
        && rows == old(rows)[i := old(rows)[i].(dailyViews := Some(SetViews(was, date, views)))]
    {
      if identity.None? {
        return Err(Unauthenticated);
      }
      var user := FindByToken(rows, identity.value.tokenIdentifier);
      if user.None? {
        return Err(UserNotFound);
      }
      var u := user.value;
      var dailyViews := rows[u].dailyViews.GetOr([]);
      var existingIndex := FindDateIndex(dailyViews, date);
      if existingIndex >= 0 {
        dailyViews := dailyViews[existingIndex := dailyViews[existingIndex].(views := views)];
      } else {
        dailyViews := dailyViews + [DailyView(date, views)];
      }
      rows := rows[u := rows[u].(dailyViews := Some(dailyViews))];
      r := Ok(u);
    }

    /** `incrementDailyViews(date)`: add one view to the caller's entry for
        `date`, or append `{date, 1}`; nothing else in the table changes. */
    method IncrementDailyViews(identity: Option<Identity>, date: string) returns (r: Result<UserId>)
      requires Valid()
      modifies this
      ensures Valid()
      ensures identity.None? ==> r == Err(Unauthenticated) && rows == old(rows)
      ensures identity.Some? && !HasToken(old(rows), identity.value.tokenIdentifier) ==>
        r == Err(UserNotFound) && rows == old(rows)
      ensures identity.Some? && HasToken(old(rows), identity.value.tokenIdentifier) ==>
        var i := FindByToken(old(rows), identity.value.tokenIdentifier).value;
        var was := old(rows)[i].dailyViews.GetOr([]);
        && r == Ok(i)
        && rows == old(rows)[i := old(rows)[i].(dailyViews := Some(AddView(was, date)))]
    {
      if identity.None? {
        return Err(Unauthenticated);
      }
      var user := FindByToken(rows, identity.value.tokenIdentifier);
      if user.None? {
        return Err(UserNotFound);
      }
      var u := user.value;
      var dailyViews := rows[u].dailyViews.GetOr([]);
      var existingIndex := FindDateIndex(dailyViews, date);
      if existingIndex >= 0 {
        dailyViews := dailyViews[existingIndex := dailyViews[existingIndex].(views := dailyViews[existingIndex].views + 1)];
      } else {
        dailyViews := dailyViews + [DailyView(date, 1)];
      }
      rows := rows[u := rows[u].(dailyViews := Some(dailyViews))];
      r := Ok(u);
    }
  }
}
