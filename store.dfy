/** The in-memory document of src/services/db.js — `{users, listens,
 *  seq: {users, listens}}` — as one object, with the identity table, listen
 *  ingestion and the query engine over it. */
module Store {
  import opened Seqs
  import opened Sorting
  import opened Records

  datatype Error = Duplicate | NotFound

  datatype Result<T> = Ok(value: T) | Err(error: Error)

  /** `{insertedId, duplicate}` returned by `addListenForUser`. */
  datatype InsertResult = InsertResult(insertedId: int, duplicate: bool)

  const DefaultAdminUsername := "admin"
  const DefaultAdminPassword := "admin123"

  /** `v || fallback` on an optional environment string. */
  function OrDefault(v: Option<string>, fallback: string): (r: string)
    ensures v.Some? && v.value != "" ==> r == v.value
    ensures !(v.Some? && v.value != "") ==> r == fallback
  {
    if v.Some? && v.value != "" then v.value else fallback
  }

  function OwnerOf(l: Listen): int { l.userId }

  /** `(a, b) => b.started_at - a.started_at`: latest first. */
  function ListenRank(l: Listen): Rank { Rank(l.startedAt, 0) }

  /** `(a, b) => a.id - b.id`: lowest id first. */
  function UserRank(u: User): Rank { Rank(-u.id, 0) }

  /** `users.some(u => u.username === username)` */
  predicate UsernameTaken(users: seq<User>, username: string)
  {
    exists i :: 0 <= i < |users| && users[i].username == username
  }

  /** `i` is the index `users.find` stops at for `username`. */
  predicate FirstNamed(users: seq<User>, username: string, i: int)
  {
    0 <= i < |users| && users[i].username == username
    && forall j :: 0 <= j < i ==> users[j].username != username
  }

  function IndexOfUsername(users: seq<User>, username: string): (r: Option<nat>)
    ensures r.Some? ==> r.value < |users| && users[r.value].username == username
    ensures r.Some? ==> forall j :: 0 <= j < r.value ==> users[j].username != username
    ensures r.None? <==> !UsernameTaken(users, username)
  {
    FindFirst(users, (u: User) => u.username == username)
  }

  function IndexOfUserId(users: seq<User>, id: int): (r: Option<nat>)
    ensures r.Some? ==> r.value < |users| && users[r.value].id == id
    ensures r.Some? ==> forall j :: 0 <= j < r.value ==> users[j].id != id
    ensures r.None? <==> forall j :: 0 <= j < |users| ==> users[j].id != id
  {
    FindFirst(users, (u: User) => u.id == id)
  }

  function IndexOfKey(listens: seq<Listen>, key: DedupKey): (r: Option<nat>)
    ensures r.Some? ==> r.value < |listens| && DedupKeyOf(listens[r.value]) == key
    ensures r.Some? ==> forall j :: 0 <= j < r.value ==> DedupKeyOf(listens[j]) != key
    ensures r.None? <==> forall j :: 0 <= j < |listens| ==> DedupKeyOf(listens[j]) != key
  {
    FindFirst(listens, (l: Listen) => DedupKeyOf(l) == key)
  }

  function PublicViews(s: seq<User>): (r: seq<PublicUser>)
    ensures |r| == |s| && forall i :: 0 <= i < |s| ==> r[i] == PublicOf(s[i])
  {
    seq(|s|, i requires 0 <= i < |s| => PublicOf(s[i]))
  }

  function Ceil(n: nat, d: nat): (r: nat)
    requires d >= 1
    ensures (r - 1) * d < n <= r * d || (n == 0 && r == 0)
  {
    (n + d - 1) / d
  }

  /** User ids come from `seq.users`: positive, at most the counter, and
   *  increasing along the array. */
  ghost predicate UserIdsValid(users: seq<User>, userSeq: nat)
  {
    && (forall i :: 0 <= i < |users| ==> 1 <= users[i].id <= userSeq)
    && (forall i, j :: 0 <= i < j < |users| ==> users[i].id < users[j].id)
  }

  /** Listen ids come from `seq.listens` in the same way, and no two stored
   *  listens share a dedup key. */
  ghost predicate ListensValid(listens: seq<Listen>, listenSeq: nat)
  {
    && (forall i :: 0 <= i < |listens| ==> 1 <= listens[i].id <= listenSeq)
    && (forall i, j :: 0 <= i < j < |listens| ==> listens[i].id < listens[j].id)
    && (forall i, j :: 0 <= i < j < |listens| ==> DedupKeyOf(listens[i]) != DedupKeyOf(listens[j]))
  }

  ghost predicate UniqueNames(users: seq<User>)
  {
    forall i, j :: 0 <= i < j < |users| ==> users[i].username != users[j].username
  }

  /** Appending a user whose name is not taken keeps names unique, and
   *  `find` by that name then stops at the new user. */
  lemma AppendFreshName(users: seq<User>, u: User)
    requires !UsernameTaken(users, u.username)
    ensures UniqueNames(users) ==> UniqueNames(users + [u])
    ensures FirstNamed(users + [u], u.username, |users|)
  {
    var r := users + [u];
    assert forall i :: 0 <= i < |users| ==> r[i] == users[i];
  }

  /** Appending a user with the next counter value keeps the id invariant. */
  lemma AppendUser(users: seq<User>, userSeq: nat, u: User)
    requires UserIdsValid(users, userSeq)
    requires u.id == userSeq + 1
    ensures UserIdsValid(users + [u], userSeq + 1)
  {
    var r := users + [u];
    assert forall i :: 0 <= i < |users| ==> r[i] == users[i];
  }

  /** Changing a field other than the id keeps the id invariant. */
  lemma ReplaceUser(users: seq<User>, userSeq: nat, k: nat, u: User)
    requires UserIdsValid(users, userSeq)
    requires k < |users| && u.id == users[k].id
    ensures UserIdsValid(users[k := u], userSeq)
  {
  }

  /** Appending a listen with the next counter value and a dedup key not yet
   *  stored keeps the listen invariant. */
  lemma AppendListen(listens: seq<Listen>, listenSeq: nat, l: Listen)
    requires ListensValid(listens, listenSeq)
    requires l.id == listenSeq + 1
    requires forall j :: 0 <= j < |listens| ==> DedupKeyOf(listens[j]) != DedupKeyOf(l)
    ensures ListensValid(listens + [l], listenSeq + 1)
  {
    var r := listens + [l];
    assert forall i :: 0 <= i < |listens| ==> r[i] == listens[i];
  }

  lemma PublicViewsCons(x: User, t: seq<User>)
    ensures PublicViews([x] + t) == [PublicOf(x)] + PublicViews(t)
  {
    var l := PublicViews([x] + t);
    var r := [PublicOf(x)] + PublicViews(t);
    forall i | 0 <= i < |l| ensures l[i] == r[i] {
      if i > 0 {
        assert ([x] + t)[i] == t[i - 1];
      }
    }
  }

  lemma {:induction false} PublicViewsInsert(x: User, t: seq<User>)
    ensures multiset(PublicViews(Insert(x, t, UserRank))) == multiset(PublicViews(t)) + multiset{PublicOf(x)}
    decreases |t|
  {
    if t == [] || !Ahead(UserRank(t[0]), UserRank(x)) {
      assert Insert(x, t, UserRank) == [x] + t;
      PublicViewsCons(x, t);
    } else {
      var rest := Insert(x, t[1..], UserRank);
      assert Insert(x, t, UserRank) == [t[0]] + rest;
      assert t == [t[0]] + t[1..];
      PublicViewsInsert(x, t[1..]);
      PublicViewsCons(t[0], rest);
      PublicViewsCons(t[0], t[1..]);
    }
  }

  /** Sorting the users permutes their public views. */
  lemma {:induction false} PublicViewsSort(s: seq<User>)
    ensures multiset(PublicViews(SortDesc(s, UserRank))) == multiset(PublicViews(s))
    decreases |s|
  {
    if s != [] {
      PublicViewsSort(s[1..]);
      PublicViewsInsert(s[0], SortDesc(s[1..], UserRank));
      assert s == [s[0]] + s[1..];
      PublicViewsCons(s[0], s[1..]);
    }
  }

  /** `[...users].sort((a, b) => a.id - b.id).map(public fields)` lists
   *  every user once, by ascending id. */
  lemma UserListing(users: seq<User>)
    ensures var r := PublicViews(SortDesc(users, UserRank));
            && |r| == |users|
            && multiset(r) == multiset(PublicViews(users))
            && (forall i, j :: 0 <= i < j < |r| ==> r[i].id <= r[j].id)
            && (forall u :: u in users ==> PublicOf(u) in r)
            && (forall p :: p in r ==> exists u :: u in users && p == PublicOf(u))
  {
    var sorted := SortDesc(users, UserRank);
    var r := PublicViews(sorted);
    PublicViewsSort(users);
    forall u | u in users ensures PublicOf(u) in r {
      var i :| 0 <= i < |sorted| && sorted[i] == u;
      assert r[i] == PublicOf(u);
    }
    forall p | p in r ensures exists u :: u in users && p == PublicOf(u) {
      var i :| 0 <= i < |r| && r[i] == p;
      assert sorted[i] in sorted;
    }
    forall i, j | 0 <= i < j < |r| ensures r[i].id <= r[j].id {
      assert !Ahead(UserRank(sorted[j]), UserRank(sorted[i]));
    }
  }

  /** Users already in id order are listed in their stored order. */
  lemma UserListingOfSorted(users: seq<User>)
    requires forall i, j :: 0 <= i < j < |users| ==> users[i].id < users[j].id
    ensures var r := PublicViews(SortDesc(users, UserRank));
            forall i :: 0 <= i < |r| ==> r[i] == PublicOf(users[i])
  {
    SortOfSorted(users, UserRank);
  }

  class Db {
    var users: seq<User>
    var listens: seq<Listen>
    /** `seq.users` and `seq.listens`: the last id handed out. */
    var userSeq: nat
    var listenSeq: nat

    /** Ids are handed out by the counters only, so they are positive, at
     *  most the counter, and increase along each array; no two listens of a
     *  user share a dedup key. */
    ghost predicate Valid()
      reads this
    {
      UserIdsValid(users, userSeq) && ListensValid(listens, listenSeq)
    }

    ghost predicate UniqueUsernames()
      reads this
    {
      UniqueNames(users)
    }

    /** The empty document `{users: [], listens: [], seq: {users: 0, listens: 0}}`. */
    constructor ()
      ensures Valid() && UniqueUsernames()
      ensures users == [] && listens == [] && userSeq == 0 && listenSeq == 0
    {
      users, listens := [], [];
      userSeq, listenSeq := 0, 0;
    }

    predicate HasAdmin()
      reads this
    {
      exists i :: 0 <= i < |users| && users[i].role == AdminRole
    }

    // -------------------------------------------------------------------
    // Identity table

    /** `ensureAdminSeed`: creates one admin when there is none; a store that
     *  has an admin is left alone, so a second call changes nothing. The
     *  environment's ADMIN_USERNAME / ADMIN_PASSWORD are parameters. */
    method EnsureAdminSeed(envUsername: Option<string>, envPassword: Option<string>, salt: nat, now: int)
      requires Valid()
      modifies this
      ensures Valid() && HasAdmin()
      ensures listens == old(listens) && listenSeq == old(listenSeq)
      ensures old(HasAdmin()) ==> users == old(users) && userSeq == old(userSeq)
      ensures !old(HasAdmin()) ==>
                && userSeq == old(userSeq) + 1
                && users == old(users) + [User(userSeq, OrDefault(envUsername, DefaultAdminUsername),
                                               HashPassword(OrDefault(envPassword, DefaultAdminPassword), salt),
                                               AdminRole, now)]
      ensures old(UniqueUsernames()) && !UsernameTaken(old(users), OrDefault(envUsername, DefaultAdminUsername))
              ==> UniqueUsernames()
    {
      if HasAdmin() {
        return;
      }
      var name := OrDefault(envUsername, DefaultAdminUsername);
      var hash := HashPassword(OrDefault(envPassword, DefaultAdminPassword), salt);
      AppendUser(users, userSeq, User(userSeq + 1, name, hash, AdminRole, now));
      userSeq := userSeq + 1;
      users := users + [User(userSeq, name, hash, AdminRole, now)];
      assert forall i :: 0 <= i < |users| - 1 ==> users[i] == old(users)[i];
      assert users[|users| - 1].role == AdminRole;
    }

    /** `createUser`: a taken username is refused with nothing changed;
     *  otherwise the next user id is allocated and the user appended. */
    method CreateUser(username: string, password: string, role: string, salt: nat, now: int) returns (r: Result<int>)
      requires Valid()
      modifies this
      ensures Valid()
      ensures listens == old(listens) && listenSeq == old(listenSeq)
      ensures r.Err? <==> UsernameTaken(old(users), username)
      ensures r.Err? ==> r.error == Duplicate && users == old(users) && userSeq == old(userSeq)
      ensures r.Ok? ==> && r.value == userSeq == old(userSeq) + 1
                        && users == old(users) + [User(r.value, username, HashPassword(password, salt), role, now)]
      ensures old(UniqueUsernames()) ==> UniqueUsernames()
      ensures r.Ok? ==> VerifyUserPassword(username, password) == Some(AuthUser(r.value, username, role))
    {
      if UsernameTaken(users, username) {
        return Err(Duplicate);
      }
      var hash := HashPassword(password, salt);
      AppendUser(users, userSeq, User(userSeq + 1, username, hash, role, now));
      AppendFreshName(users, User(userSeq + 1, username, hash, role, now));
      userSeq := userSeq + 1;
      users := users + [User(userSeq, username, hash, role, now)];
      assert IndexOfUsername(users, username) == Some(|users| - 1);
      r := Ok(userSeq);
    }

    /** `updateUserPassword`: an unknown id fails with nothing changed;
     *  otherwise only that user's hash is replaced. */
    method UpdateUserPassword(userId: int, newPassword: string, salt: nat) returns (r: Result<()>)
      requires Valid()
      modifies this
      ensures Valid()
      ensures listens == old(listens) && listenSeq == old(listenSeq) && userSeq == old(userSeq)
      ensures r.Err? <==> IndexOfUserId(old(users), userId).None?
      ensures r.Err? ==> r.error == NotFound && users == old(users)
      ensures r.Ok? ==>
                var k := IndexOfUserId(old(users), userId).value;
                users == old(users)[k := old(users)[k].(passwordHash := HashPassword(newPassword, salt))]
      ensures UniqueUsernames() == old(UniqueUsernames())
      ensures r.Ok? && UniqueUsernames() ==>
                var u := users[IndexOfUserId(old(users), userId).value];
                VerifyUserPassword(u.username, newPassword) == Some(AuthUser(userId, u.username, u.role))
    {
      var found := IndexOfUserId(users, userId);
      if found.None? {
        return Err(NotFound);
      }
      var k := found.value;
      ReplaceUser(users, userSeq, k, users[k].(passwordHash := HashPassword(newPassword, salt)));
      users := users[k := users[k].(passwordHash := HashPassword(newPassword, salt))];
      assert forall i :: 0 <= i < |users| ==> users[i].username == old(users)[i].username;
      assert forall i :: 0 <= i < |users| ==> users[i].id == old(users)[i].id;
      if UniqueUsernames() {
        assert IndexOfUsername(users, users[k].username) == Some(k);
      }
      r := Ok(());
    }

    /** `findUserByUsername`: the first user with that name, hash included. */
    function FindUserByUsername(username: string): (r: Option<User>)
      reads this
      ensures r.None? <==> !UsernameTaken(users, username)
      ensures r.Some? ==> exists i :: 0 <= i < |users| && users[i] == r.value && r.value.username == username
                                      && forall j :: 0 <= j < i ==> users[j].username != username
    {
      match IndexOfUsername(users, username)
      case None => None
      case Some(i) => Some(users[i])
    }

    /** `verifyUserPassword`: null for an unknown user and for a wrong
     *  password alike; on a match only id, username and role. */
    function VerifyUserPassword(username: string, password: string): (r: Option<AuthUser>)
      reads this
      ensures !UsernameTaken(users, username) ==> r.None?
      ensures r.Some? ==> exists i :: 0 <= i < |users| && users[i].username == username
                                      && CheckPassword(password, users[i].passwordHash)
                                      && r.value == AuthUser(users[i].id, username, users[i].role)
      ensures UniqueUsernames() ==>
                (r.Some? <==> exists i :: 0 <= i < |users| && users[i].username == username
                                          && CheckPassword(password, users[i].passwordHash))
      ensures r.Some? <==> exists i :: FirstNamed(users, username, i) && CheckPassword(password, users[i].passwordHash)
      ensures r.Some? ==> exists i :: FirstNamed(users, username, i) && r.value == AuthUser(users[i].id, username, users[i].role)
    {
      match FindUserByUsername(username)
      case None => None
      case Some(u) =>
        if CheckPassword(password, u.passwordHash) then Some(AuthUser(u.id, u.username, u.role)) else None
    }

    /** `findUserById`: the public fields of the user with that id, or null. */
    function FindUserById(id: int): (r: Option<PublicUser>)
      reads this
      ensures r.None? <==> forall i :: 0 <= i < |users| ==> users[i].id != id
      ensures r.Some? ==> exists i :: 0 <= i < |users| && users[i].id == id && r.value == PublicOf(users[i])
                                      && forall j :: 0 <= j < i ==> users[j].id != id
    {
      match IndexOfUserId(users, id)
      case None => None
      case Some(i) => Some(PublicOf(users[i]))
    }

    /** `listUsers`: every user's public fields, by ascending id. In a valid
     *  store users are kept in id order, so this is the stored order. */
    function ListUsers(): (r: seq<PublicUser>)
      reads this
      ensures |r| == |users|
      ensures multiset(r) == multiset(PublicViews(users))
      ensures forall i, j :: 0 <= i < j < |r| ==> r[i].id <= r[j].id
      ensures forall u :: u in users ==> PublicOf(u) in r
      ensures forall p :: p in r ==> exists u :: u in users && p == PublicOf(u)
      ensures Valid() ==> forall i :: 0 <= i < |r| ==> r[i] == PublicOf(users[i])
    {
      UserListing(users);
      var r := PublicViews(SortDesc(users, UserRank));
      assert Valid() ==> forall i :: 0 <= i < |r| ==> r[i] == PublicOf(users[i]) by {
        if Valid() {
          UserListingOfSorted(users);
        }
      }
      r
    }

    // -------------------------------------------------------------------
    // Listen ingestion

    /** `addListenForUser`: a listen whose dedup key is already stored is
     *  reported as a duplicate of that row with nothing changed; otherwise
     *  the next listen id is allocated and the normalised row appended. */
    method AddListenForUser(userId: int, input: ListenInput, now: int) returns (r: InsertResult)
      requires Valid()
      modifies this
      ensures Valid()
      ensures users == old(users) && userSeq == old(userSeq)
      ensures r.duplicate <==> exists i :: 0 <= i < |old(listens)| && DedupKeyOf(old(listens)[i]) == InputKey(userId, input)
      ensures r.duplicate ==> && listens == old(listens) && listenSeq == old(listenSeq)
                              && exists i :: 0 <= i < |listens| && DedupKeyOf(listens[i]) == InputKey(userId, input)
                                             && listens[i].id == r.insertedId
      ensures !r.duplicate ==> && listenSeq == old(listenSeq) + 1 && r.insertedId == listenSeq
                               && listens == old(listens) + [NewListen(listenSeq, userId, input, now)]
    {
      var key := InputKey(userId, input);
      var found := IndexOfKey(listens, key);
      if found.Some? {
        return InsertResult(listens[found.value].id, true);
      }
      AppendListen(listens, listenSeq, NewListen(listenSeq + 1, userId, input, now));
      listenSeq := listenSeq + 1;
      listens := listens + [NewListen(listenSeq, userId, input, now)];
      assert forall i :: 0 <= i < |listens| - 1 ==> listens[i] == old(listens)[i];
      r := InsertResult(listenSeq, false);
    }

    // -------------------------------------------------------------------
    // Query engine

    /** `listAllListensForUser`: the user's listens, latest first, every one
     *  of them exactly once. */
    function ListAllListensForUser(userId: int): (r: seq<Listen>)
      reads this
      ensures multiset(r) == multiset(Group(listens, OwnerOf, userId))
      ensures forall i :: 0 <= i < |r| ==> r[i].userId == userId
      ensures forall i :: 0 <= i < |listens| && listens[i].userId == userId ==> listens[i] in r
      ensures forall i, j :: 0 <= i < j < |r| ==> r[i].startedAt >= r[j].startedAt
    {
      var mine := Group(listens, OwnerOf, userId);
      var r := SortDesc(mine, ListenRank);
      assert forall i :: 0 <= i < |r| ==> r[i] in mine && r[i].userId == userId by {
        forall i | 0 <= i < |r| ensures r[i] in mine && r[i].userId == userId {
          assert r[i] in r;
          GroupMember(listens, OwnerOf, userId, r[i]);
        }
      }
      assert forall i :: 0 <= i < |listens| && listens[i].userId == userId ==> listens[i] in mine by {
        forall i | 0 <= i < |listens| && listens[i].userId == userId ensures listens[i] in mine {
          GroupMember(listens, OwnerOf, userId, listens[i]);
        }
      }
      r
    }

    /** Listens with the same start time keep the order they were stored in. */
    lemma ListAllIsStable(userId: int, startedAt: int)
      ensures Group(ListAllListensForUser(userId), ListenRank, Rank(startedAt, 0))
           == Group(Group(listens, OwnerOf, userId), ListenRank, Rank(startedAt, 0))
    {
      SortStable(Group(listens, OwnerOf, userId), ListenRank, Rank(startedAt, 0));
    }

    /** `listListensForUser`: the window `[offset, offset + limit)` of the full
     *  listing, empty when the offset is past the end. */
    function ListListensForUser(userId: int, limit: nat, offset: nat): (r: seq<Listen>)
      reads this
      ensures var all := ListAllListensForUser(userId);
              && |r| <= limit
              && (offset >= |all| ==> r == [])
              && (offset < |all| ==> |r| == Min(limit, |all| - offset))
              && forall i :: 0 <= i < |r| ==> offset + i < |all| && r[i] == all[offset + i]
      ensures forall i :: 0 <= i < |r| ==> r[i].userId == userId
      ensures forall i, j :: 0 <= i < j < |r| ==> r[i].startedAt >= r[j].startedAt
    {
      Window(ListAllListensForUser(userId), limit, offset)
    }

    /** `countListensForUser` agrees with the length of the full listing. */
    function CountListensForUser(userId: int): (n: nat)
      reads this
      ensures n == |ListAllListensForUser(userId)|
    {
      |Group(listens, OwnerOf, userId)|
    }

    /** Pagination completeness: the routes' pages 1 .. ceil(total / pageSize),
     *  page p being `listListensForUser(u, pageSize, (p - 1) * pageSize)`,
     *  together are exactly the full listing. */
    lemma PaginationCovers(userId: int, pageSize: nat)
      requires pageSize >= 1
      ensures PagesOf(ListAllListensForUser(userId), pageSize, Ceil(CountListensForUser(userId), pageSize))
           == ListAllListensForUser(userId)
    {
      var all := ListAllListensForUser(userId);
      var n := Ceil(|all|, pageSize);
      PagesOfPrefix(all, pageSize, n);
      assert Min(n * pageSize, |all|) == |all|;
      assert all[..|all|] == all;
    }
  }
}
