/** Call sequences a client of the store performs, with what the
 *  contracts of the store promise about them. */
module Scenarios {
  import opened Seqs
  import opened Records
  import Store

  /** Boot runs `ensureAdminSeed` each time the server starts: the second
   *  run leaves the users exactly as the first one left them. */
  method SeedTwice(db: Store.Db, envUsername: Option<string>, envPassword: Option<string>,
                   salt1: nat, salt2: nat, now1: int, now2: int)
    returns (afterFirst: seq<User>, afterSecond: seq<User>)
    requires db.Valid()
    modifies db
    ensures afterSecond == afterFirst == db.users
    ensures db.HasAdmin() && db.Valid()
    ensures db.listens == old(db.listens)
  {
    db.EnsureAdminSeed(envUsername, envPassword, salt1, now1);
    afterFirst := db.users;
    db.EnsureAdminSeed(envUsername, envPassword, salt2, now2);
    afterSecond := db.users;
  }

  /** Posting the same listen twice: the second post is reported as a
   *  duplicate of the row the first one stored or found, and at most one
   *  row is added in all. */
  method PostTwice(db: Store.Db, userId: int, input: ListenInput, now1: int, now2: int)
    returns (first: Store.InsertResult, second: Store.InsertResult)
    requires db.Valid()
    modifies db
    ensures second.duplicate && second.insertedId == first.insertedId
    ensures db.listens == old(db.listens) + (if first.duplicate then [] else [NewListen(first.insertedId, userId, input, now1)])
    ensures db.Valid()
  {
    first := db.AddListenForUser(userId, input, now1);
    ghost var stored := db.listens;
    if !first.duplicate {
      assert DedupKeyOf(stored[|stored| - 1]) == InputKey(userId, input);
    }
    ghost var i :| 0 <= i < |stored| && DedupKeyOf(stored[i]) == InputKey(userId, input) && stored[i].id == first.insertedId;
    second := db.AddListenForUser(userId, input, now2);
    ghost var j :| 0 <= j < |db.listens| && DedupKeyOf(db.listens[j]) == InputKey(userId, input) && db.listens[j].id == second.insertedId;
    assert i == j;
  }

  /** A user named "admin" created with role 'user' before the first boot:
   *  the seed still appends an admin, since none exists, but
   *  `findUserByUsername` stops at the earlier user, so the seeded
   *  credentials never sign in. */
  method ShadowedAdmin(password: string, salt1: nat, salt2: nat, now1: int, now2: int)
    returns (seeded: Option<AuthUser>, earlier: Option<AuthUser>)
    requires password != Store.DefaultAdminPassword
    ensures seeded == None
    ensures earlier == Some(AuthUser(1, Store.DefaultAdminUsername, "user"))
  {
    var db := new Store.Db();
    var r := db.CreateUser(Store.DefaultAdminUsername, password, "user", salt1, now1);
    db.EnsureAdminSeed(None, None, salt2, now2);
    assert db.users[0].username == Store.DefaultAdminUsername;
    assert Store.FirstNamed(db.users, Store.DefaultAdminUsername, 0);
    seeded := db.VerifyUserPassword(Store.DefaultAdminUsername, Store.DefaultAdminPassword);
    earlier := db.VerifyUserPassword(Store.DefaultAdminUsername, password);
  }
}
