/** `convex/seedUsers.js`: insert three example users, each only if no user
    with its token exists yet. */
module SeedUsers {
  import opened Common
  import opened Schema
  import Users

  datatype SeedResult = SeedResult(success: bool, message: string)

  /** The three example users, all created at `now`; the third has no name,
      avatar or last-active time. None carries a view tally. */
  function SeedList(now: int): (s: seq<UserDoc>)
    ensures |s| == 3
    ensures TokensUnique(s)
  {
    [ UserDoc("alice-token-001", Some("Alice Smith"), Some("alice@example.com"),
              Some("https://api.dicebear.com/7.x/avataaars/svg?seed=alice"), Some("alice"),
              now, Some(now), None),
      UserDoc("bob-token-002", Some("Bob Johnson"), Some("bob@example.com"),
              Some("https://api.dicebear.com/7.x/avataaars/svg?seed=bob"), Some("bob"),
              now, Some(now), None),
      UserDoc("charlie-token-003", None, Some("charlie@example.com"), None, Some("charlie"),
              now, None, None) ]
  }

  /** One turn of the loop: insert `u` unless its token is taken. */
  function SeedOne(rows: seq<UserDoc>, u: UserDoc): (r: seq<UserDoc>)
    ensures HasToken(r, u.tokenIdentifier)
    ensures |rows| <= |r| <= |rows| + 1 && r[..|rows|] == rows
    ensures |r| == |rows| + 1 <==> !HasToken(rows, u.tokenIdentifier)
  {
    if FindByToken(rows, u.tokenIdentifier).None? then
      var r := rows + [u];
      assert r[|rows|].tokenIdentifier == u.tokenIdentifier;
      assert r[..|rows|] == rows;
      r
    else rows
  }

  /** The whole loop, seed by seed in list order. */
  function SeedAll(rows: seq<UserDoc>, seeds: seq<UserDoc>): (r: seq<UserDoc>)
    ensures |rows| <= |r| <= |rows| + |seeds|
    decreases |seeds|
  {
    if |seeds| == 0 then rows else SeedAll(SeedOne(rows, seeds[0]), seeds[1..])
  }

  /** Existing records are never modified: the old table is a prefix of the
      new one, and each appended record is a seed whose token was absent. */
  lemma {:induction false} SeedAllOnlyAppends(rows: seq<UserDoc>, seeds: seq<UserDoc>)
    ensures var r := SeedAll(rows, seeds);
      && |rows| <= |r| && r[..|rows|] == rows
      && forall j :: |rows| <= j < |r| ==> r[j] in seeds && !HasToken(rows, r[j].tokenIdentifier)
    decreases |seeds|
  {
    if |seeds| > 0 {
      var next := SeedOne(rows, seeds[0]);
      SeedAllOnlyAppends(next, seeds[1..]);
      var r := SeedAll(rows, seeds);
      assert r == SeedAll(next, seeds[1..]);
      forall j | |rows| <= j < |r|
        ensures r[j] in seeds && !HasToken(rows, r[j].tokenIdentifier)
      {
        if j < |next| {
          assert r[j] == r[..|next|][j] == next[j] == seeds[0];
        } else {
          assert r[j] in seeds[1..];
        }
      }
    }
  }

  /** After the loop every seed token is present. */
  lemma {:induction false} SeedAllCoversSeeds(rows: seq<UserDoc>, seeds: seq<UserDoc>)
    ensures forall s :: s in seeds ==> HasToken(SeedAll(rows, seeds), s.tokenIdentifier)
    decreases |seeds|
  {
    if |seeds| > 0 {
      var next := SeedOne(rows, seeds[0]);
      SeedAllCoversSeeds(next, seeds[1..]);
      SeedAllOnlyAppends(next, seeds[1..]);
      var r := SeedAll(next, seeds[1..]);
      var t := seeds[0].tokenIdentifier;
      var k := if FindByToken(rows, t).Some? then FindByToken(rows, t).value else |rows|;
      assert next[k].tokenIdentifier == t;
      assert r[k] == r[..|next|][k];
      assert HasToken(r, t);
    }
  }

  /** When every seed token is already present the loop inserts nothing. */
  lemma {:induction false} SeedAllNoopWhenPresent(rows: seq<UserDoc>, seeds: seq<UserDoc>)
    requires forall s :: s in seeds ==> HasToken(rows, s.tokenIdentifier)
    ensures SeedAll(rows, seeds) == rows
    decreases |seeds|
  {
    if |seeds| > 0 {
      assert seeds[0] in seeds;
      assert SeedOne(rows, seeds[0]) == rows;
      forall s | s in seeds[1..] ensures HasToken(rows, s.tokenIdentifier) {
        assert s in seeds;
      }
      SeedAllNoopWhenPresent(rows, seeds[1..]);
    }
  }

  /** Running the seed twice inserts nothing the second time. */
  lemma SeedTwiceInsertsNothing(rows: seq<UserDoc>, seeds: seq<UserDoc>)
    ensures SeedAll(SeedAll(rows, seeds), seeds) == SeedAll(rows, seeds)
  {
    SeedAllCoversSeeds(rows, seeds);
    SeedAllNoopWhenPresent(SeedAll(rows, seeds), seeds);
  }

  /** A later run, which builds its seeds at a later time, inserts nothing:
      the seed tokens do not depend on the time. */
  lemma SeedLaterInsertsNothing(rows: seq<UserDoc>, now1: int, now2: int)
    ensures SeedAll(SeedAll(rows, SeedList(now1)), SeedList(now2)) == SeedAll(rows, SeedList(now1))
  {
    var first := SeedList(now1);
    var after := SeedAll(rows, first);
    SeedAllCoversSeeds(rows, first);
    forall s | s in SeedList(now2)
      ensures HasToken(after, s.tokenIdentifier)
    {
      var k :| 0 <= k < 3 && SeedList(now2)[k] == s;
      assert s.tokenIdentifier == first[k].tokenIdentifier;
      assert first[k] in first;
    }
    SeedAllNoopWhenPresent(after, SeedList(now2));
  }

  /** One insert-if-absent keeps tokens unique. */
  lemma SeedOneKeepsTokensUnique(rows: seq<UserDoc>, u: UserDoc)
    requires TokensUnique(rows)
    ensures TokensUnique(SeedOne(rows, u))
  {
    var r := SeedOne(rows, u);
    if FindByToken(rows, u.tokenIdentifier).None? {
      forall i, j | 0 <= i < j < |r| ensures r[i].tokenIdentifier != r[j].tokenIdentifier {
        if j == |rows| { assert r[i] == rows[i]; }
      }
    }
  }

  /** `seedUsers`: run the insert-if-absent loop over the seed list. */
  method SeedUsers(table: Users.UserTable, now: int) returns (r: SeedResult)
    requires table.Valid()
    modifies table
    ensures table.Valid()
    ensures table.rows == SeedAll(old(table.rows), SeedList(now))
    ensures r.success
  {
    var users := SeedList(now);
    for k := 0 to |users|
      invariant table.Valid()
      invariant SeedAll(table.rows, users[k..]) == SeedAll(old(table.rows), users)
    {
      assert users[k..][0] == users[k] && users[k..][1..] == users[k + 1..];
      SeedOneKeepsTokensUnique(table.rows, users[k]);
      var existing := FindByToken(table.rows, users[k].tokenIdentifier);
      if existing.None? {
        table.rows := table.rows + [users[k]];
      }
    }
    assert users[|users|..] == [];
    r := SeedResult(true, "Seed users inserted");
  }
}
