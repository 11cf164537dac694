# MusicMark store, modelled in Dafny

MusicMark's server keeps one JSON document, `{users, listens, seq: {users,
listens}}`, and src/services/db.js does everything over it:

- the identity table: seed the admin, create a user, change a password,
  look a user up, verify a password, list users;
- listen ingestion: skip a listen that is already stored, or give it the
  next listen id and store the normalised row;
- the query engine: a user's listens latest first, one page of them, how
  many there are;
- the analytics: per-user statistics (totals, distinct songs, per-day
  buckets, per-source counts) and the top-songs ranking with an optional
  seven-day window.

The project models that document and every one of those operations.

| file | module | contents |
|---|---|---|
| `seqs.dfy` | `Seqs` | `Option`, first-match search, in-order grouping (`Group`, `Keys`), sums over a sequence (`Weight`), and `Tally`, the invariant of a JS `Map` filled by one pass. |
| `sorting.dfy` | `Sorting` | One stable insertion sort on a lexicographic `Rank`. Every comparator in db.js is that sort with its keys negated where it sorts ascending. The file proves sortedness, permutation, stability, invariance of sums, and that a sorted input comes back unchanged. |
| `records.dfy` | `Records` | Users and listens with their public views, the normalisation `v \|\| null`, the dedup key, the song key, and an idealised bcrypt. |
| `store.dfy` | `Store` | `class Db` with fields `users`, `listens`, `userSeq`, `listenSeq`. The identity and ingestion operations are methods because they append and assign in place. The lookups and listings are functions because db.js computes them as filter/find/sort/slice expressions. |
| `aggregates.dfy` | `Aggregates` | What the two analytics compute, as functions of the user's listens, with the lemmas about them. |
| `analytics.dfy` | `Analytics` | `getUserStats` and `getUserTopSongs` written as db.js writes them: one `for` loop filling maps, a key order standing for a JS `Map`'s insertion order, then a sort. Each is proved to return exactly what `Aggregates` specifies. |
| `scenarios.dfy` | `Scenarios` | Three call sequences: seeding twice, posting the same listen twice, and a user named "admin" created before the seed. |

## Modelling choices

- **Time and randomness are parameters.** `Date.now()` becomes `now`/`nowSec`, bcrypt's random salt becomes `salt`, and the server's local-time calendar day of a `started_at` becomes a function `dayOf: int -> int`.
- **Day order.** The `yyyy-mm-dd` strings sort by `localeCompare` in calendar order. The model sorts the `dayOf` values ascending instead.
- **Hashes.** `PasswordHash` is an idealised digest that accepts exactly the password it was made from. Real bcrypt reads only the first 72 bytes of a password (see Left out).
- **Maps.** A JS `Map` is a Dafny `map` plus the sequence of keys in insertion order, because `Array.from(map.entries())` returns entries in that order.
- **Ids.** User ids and listen ids are unbounded integers. The counters `seq.users` and `seq.listens` are `userSeq` and `listenSeq`.
- **Store invariant.** `Store.Db.Valid` says:
  - every id is between 1 and its counter;
  - ids increase along each array;
  - no two stored listens share a dedup key.

  Every state-changing method keeps `Valid`. Username uniqueness (`UniqueUsernames`) is kept separately, because `ensureAdminSeed` does not check it.
- **Song identity.** Songs are keyed by the tuple (title, artist-or-empty, album-or-empty), not by the joined string db.js builds. See Findings.

## Model

| member | source | states |
|---|---|---|
| Records.HashPassword | src/services/db.js:43 | `hashSync`: a fresh digest accepts the hashed password and no other, whatever the salt. |
| Records.DigestAcceptsOne | src/services/db.js:79 | `compareSync`: one digest never accepts two different passwords. |
| Records.PublicViewHidesHash | src/services/db.js:131 | The public view is the same whatever the password hash, so the hash never reaches a listing. |
| Records.OrNull | src/services/db.js:101-103 | `v \|\| null`: a stored optional string is never empty, a non-empty one is kept, and the dedup text `(v ?? '')` is the same before and after. |
| Records.NonZeroOrNull | src/services/db.js:105 | `duration_sec \|\| null`: a positive duration is kept, and a null or 0 duration becomes null. |
| Records.NewListen | src/services/db.js:97-108 | The appended row has the given id, owner and creation time. It keeps title, start time and source text, and stores no empty artist, album or source. The duration is `duration_sec \|\| null`, the external id is `external_id \|\| null`, and the row has the dedup key of its payload. |
| Records.DedupKeyMatch | src/services/db.js:86-92 | A stored listen matches a payload exactly when owner, title and start time are equal and artist and album agree once null, undefined and '' all read as ''. |
| Records.SameSong | src/services/db.js:162 | Two listens are of one song exactly when title, artist-or-empty and album-or-empty all agree. This is the corrected song identity. |
| Records.SongKeyTextCollides | src/services/db.js:162 | Two different songs, ("a\|\|b", "c", "") and ("a", "b\|\|c", ""), give the same joined key text "a\|\|b\|\|c\|\|". |
| Store.OrDefault | src/services/db.js:41-42 | `env \|\| fallback`: a set, non-empty environment value wins; otherwise the fallback. |
| Store.IndexOfUsername | src/services/db.js:54 | `users.find` by username: the index of the first match, and none exactly when no user has the name. |
| Store.IndexOfUserId | src/services/db.js:70 | `users.find` by id: the index of the first match, and none exactly when no user has the id. |
| Store.IndexOfKey | src/services/db.js:87-93 | `listens.find` by dedup key: the index of the first stored listen with the payload's key, and none exactly when no stored listen has it. |
| Store.AppendUser | src/services/db.js:45-46 | Appending a user with id `++seq.users` keeps the user-id invariant. |
| Store.ReplaceUser | src/services/db.js:72 | Replacing a user's hash, with the id unchanged, keeps the user-id invariant. |
| Store.AppendListen | src/services/db.js:95-108 | Appending a listen with id `++seq.listens` and a dedup key not yet stored keeps the listen invariant: ids in range and increasing, dedup keys distinct. |
| Store.AppendFreshName | src/services/db.js:59-63 | Appending a user whose name is free keeps usernames unique, and `find` by that name then stops at the new user. |
| Store.UserListing | src/services/db.js:131 | Sorting by id, then taking public fields, gives a permutation of the users' public views, by non-decreasing id. |
| Store.PublicViewsSort | src/services/db.js:131 | The public views of the sorted users are a permutation of the public views of the stored users. |
| Store.UserListingOfSorted | src/services/db.js:131 | When the ids already increase, the listing is the stored order. |
| Store.Db.constructor | src/services/db.js:22-28 | The empty document with both counters at 0 is valid. |
| Store.Db.EnsureAdminSeed | src/services/db.js:37-47 | With an admin present, users and counter are unchanged. Otherwise exactly one admin is appended, with id `++seq.users`, the environment name or "admin", and the hash of the environment password or "admin123". An admin exists afterwards, listens are untouched and the invariant is kept. Usernames stay unique when the seeded name was free. |
| Store.Db.CreateUser | src/services/db.js:57-66 | A taken username gives `Duplicate` with nothing changed. Otherwise the returned id is `old(seq.users) + 1`, exactly one user is appended with that id, name, role, hash and time, usernames stay unique, and the new credentials verify. |
| Store.Db.UpdateUserPassword | src/services/db.js:68-74 | An unknown id gives `NotFound` with nothing changed. Otherwise only the first matching user's hash is replaced, counters and listens are untouched, and with unique usernames the new password verifies. |
| Store.Db.FindUserByUsername | src/services/db.js:52-55 | The first user with that username, or null exactly when there is none. |
| Store.Db.VerifyUserPassword | src/services/db.js:76-82 | Null for an unknown user. A result exists exactly when the FIRST user with that name has a hash that accepts the password, and it is then that user's `{id, username, role}`. With unique usernames, this is any user with the name. |
| Store.Db.FindUserById | src/services/db.js:134-139 | The public fields of the first user with that id, or null exactly when none has it. |
| Store.Db.ListUsers | src/services/db.js:129-132 | A permutation of the users' public views, by non-decreasing id. In a valid store this is the stored order. |
| Store.Db.AddListenForUser | src/services/db.js:84-111 | A match on (user, title, artist-or-empty, album-or-empty, start) reports `duplicate` with the matching row's id and changes nothing. Otherwise `seq.listens` grows by one and exactly the normalised row with that id is appended, users untouched and the invariant kept. |
| Store.Db.ListAllListensForUser | src/services/db.js:122-127 | Exactly the user's listens, each with its multiplicity, by non-increasing start time. |
| Store.Db.ListAllIsStable | src/services/db.js:124-126 | Listens with equal start time keep their stored order, as the stable JS sort leaves them. |
| Store.Db.ListListensForUser | src/services/db.js:113-120 | The window `[offset, offset + limit)` of the full listing, clipped. It is empty past the end, at most `limit` long, all the user's, by non-increasing start time. |
| Seqs.Window | src/services/db.js:119 | `slice(offset, offset + limit)`: at most `limit` long, empty from the end on, otherwise `min(limit, length - offset)` long, and element i is element `offset + i`. |
| Store.Db.CountListensForUser | src/services/db.js:141-144 | Equals the length of the full listing. |
| Store.Db.PaginationCovers | src/routes/web.js:33-38 | The routes' pages 1 to `ceil(total / pageSize)`, page p being the window at offset `(p - 1) * pageSize`, together are exactly the full listing. |
| Sorting.SortDesc | src/services/db.js:118 | The sort is a permutation of its input, ordered by its comparator. |
| Sorting.SortStable | src/services/db.js:118 | Elements that compare equal keep their input order. |
| Sorting.SortWeight | src/services/db.js:172-178 | Sorting does not change a sum over the elements. |
| Aggregates.TitleSetMember | src/services/db.js:162 | A song is in the distinct-song set exactly when some listen is of it. |
| Aggregates.TitleSet | src/services/db.js:154-162 | The distinct-song set has at most one song per listen. |
| Aggregates.Dur | src/services/db.js:160 | A duration counts as a non-negative number, and as 0 exactly when missing or 0. |
| Aggregates.StoredDuration | src/services/db.js:105-160 | After ingestion, a missing or 0 duration counts 0 and any other duration counts its value. |
| Aggregates.SourceOf | src/services/db.js:168 | The source a listen is counted under is never empty. |
| Aggregates.StoredSource | src/services/db.js:103-168 | After ingestion, a missing or empty source is counted as 'unknown', and any other source under its own name. |
| Aggregates.StatsOf | src/services/db.js:147-186 | The statistics of a user's listens: `total_count` is their number, `unique_titles` is at most that, and there is one daily row per distinct day and one source row per distinct source. |
| Aggregates.TopSongsOf | src/services/db.js:189-205 | The ranking of a user's listens has `min(limit, number of distinct songs in the window)` entries. |
| Aggregates.LastPlay | src/services/db.js:199 | `Math.max` from 0: at least every start time of the group and at least 0, and equal to 0 or to one of those start times. |
| Aggregates.InWindowMember | src/services/db.js:193 | A listen is kept exactly when it is stored and `since === 0` or it starts at or after `since`. |
| Aggregates.InWindowAppend | src/services/db.js:193 | The filter keeps stored order: filtering a concatenation concatenates the filtered parts. |
| Aggregates.InWindowCount | src/services/db.js:193 | The filter keeps every copy of a listen in range and drops every copy out of range. |
| Aggregates.StatsTotals | src/services/db.js:156-185 | `total_count` is the number of listens. The daily counts sum to it, the daily durations sum to `total_duration_sec`, and the source counts sum to it. |
| Aggregates.DailyAscending | src/services/db.js:172 | `daily` is strictly ascending by day. |
| Aggregates.DailyEntriesMeaning | src/services/db.js:163-177 | Each daily row gives its day's listen count (at least 1), summed duration (missing counts 0) and distinct songs. Every listen's day has a row. |
| Aggregates.DailyUniqueBounds | src/services/db.js:167-182 | Each day's `unique_titles` is at most that day's count and at most the overall `unique_titles`. |
| Aggregates.SourcesMeaning | src/services/db.js:168-178 | Sources are by non-increasing count, one row per name, each counting its listens under `source \|\| 'unknown'`. Every listen's source has a row, and ties keep first-appearance order. |
| Aggregates.UniqueTitlesCountsTuples | src/services/db.js:154-182 | `unique_titles` counts distinct (title, artist, album) tuples. |
| Aggregates.TopSongsBounded | src/services/db.js:202-204 | At most `limit` entries, whose counts sum to at most the user's listen count. |
| Aggregates.TopSongsOrdered | src/services/db.js:203 | Entries by count descending, then `last_play` descending. |
| Aggregates.SongEntryMeaning | src/services/db.js:195-200 | A ranked entry counts its song's plays in the window (at least 1). Its `last_play` is the latest start time among them, or 0. |
| Aggregates.TopSongsMeaning | src/services/db.js:194-204 | The same for every returned entry, with no song returned twice. |
| Aggregates.RankedComplete | src/services/db.js:194-202 | Every song with a play in the window has an entry in the full ranking. |
| Aggregates.TopSongsAreTop | src/services/db.js:202-204 | The result is the first `min(limit, songs)` entries of the ranking, and no entry cut off by `slice(0, limit)` ranks ahead of one that was kept. |
| Aggregates.RangeWindow | src/services/db.js:191-193 | For 'week' a listen is included exactly when it starts at or after `now - 604800`, or when that bound is 0. Any other range includes every listen. |
| Aggregates.AllInWindow | src/services/db.js:192-193 | A window from 0 keeps every listen. |
| Analytics.DaysStep | src/services/db.js:158-167 | One iteration keeps the day map a tally of the visited listens. |
| Analytics.SourcesStep | src/services/db.js:168-169 | One iteration keeps the source map a tally of the visited listens. |
| Analytics.SongsStep | src/services/db.js:195-200 | One iteration keeps the song map a tally of the visited listens. |
| Analytics.DaysDone | src/services/db.js:172-177 | The sorted rows read off the finished day map are the specified daily rows. |
| Analytics.SourcesDone | src/services/db.js:178 | The sorted rows read off the finished source map are the specified sources. |
| Analytics.SongsDone | src/services/db.js:202-203 | The sorted entries of the finished song map are the specified ranking. |
| Analytics.StatsPassTotals | src/services/db.js:156-162 | After any prefix, the loop's counters hold its count, its summed duration and its distinct songs. |
| Analytics.StatsPassDays | src/services/db.js:158-167 | After any prefix, `byDay` tallies that prefix's listens by day, in first-appearance order. |
| Analytics.StatsPassSources | src/services/db.js:168-169 | After any prefix, `sourceMap` tallies that prefix's listens by source, in first-appearance order. |
| Analytics.StatsPassResult | src/services/db.js:172-185 | After the loop, the returned object is the specified statistics. |
| Analytics.GetUserStats | src/services/db.js:147-186 | The result equals the specified statistics of the user's listens. Its daily and source totals agree with `total_count` and `total_duration_sec`, and `daily` is strictly ascending. |
| Analytics.GetUserTopSongs | src/services/db.js:189-205 | The result equals the specified ranking of the windowed listens. It has at most `limit` entries, counts summing to at most the user's listens, ordered by count, then `last_play`. |
| Scenarios.SeedTwice | src/services/db.js:37-47 | A second `ensureAdminSeed` leaves the users exactly as the first left them. |
| Scenarios.PostTwice | src/services/db.js:84-111 | Posting one payload twice: the second post is a duplicate with the first post's id, and at most one row is added. |
| Scenarios.ShadowedAdmin | src/services/db.js:37-82 | After `createUser("admin", pw, "user")` on an empty store, the first boot still seeds an admin. Signing in as "admin" with "admin123" then gives null, because the lookup stops at the earlier user, and `pw` signs in as that user with role "user". |

## Left out

- Persistence: `getDb`, `initDatabase`, the data directory and `db.read()`/`db.write()` are file I/O through lowdb. The document is the state of one in-memory `Db` object.
- Asynchrony: `async`/`await` and interleaving of concurrent requests are not modelled. Every operation runs to completion.
- The log line printed by `ensureAdminSeed` is I/O and is not modelled.
- bcrypt: the cost factor and the real digest. A hash is an idealised digest of its password, and the random salt is a parameter.
- Clock and calendar: `Date.now()` and the local-time `Date` getters behind the day key are parameters (`now`, `nowSec`, `dayOf`).
- `Number(userId)` coercion: user ids arrive as integers, so lookups compare ids directly.
- `db?.data || {listens: []}` before initialisation: the model always has a document.
- JS numbers: durations are non-negative integers or null, so `Number.isFinite` and fractional or negative durations are not modelled. A start time is an integer and is always present, so `started_at || 0` is the start time itself.
- Store.Db.ListUsers: without the store invariant, only non-decreasing id order is stated, because ids could then repeat; the order among users with equal ids is not stated.
- Store.Db.EnsureAdminSeed: keeps usernames unique only when the seeded name is free, because db.js does not check that name.
- Records.HashPassword, Records.DigestAcceptsOne: bcrypt reads only the first 72 bytes of a password, so two passwords that agree on those bytes verify the same. The idealised digest, and DigestAcceptsOne with it, distinguish them.
- Store.Db.CreateUser, Store.Db.ListListensForUser, Analytics.GetUserTopSongs: default arguments `createUser(…, role = 'user')`, `listListensForUser(…, limit = 100, offset = 0)` and `getUserTopSongs(…, range = 'all', limit = 50)` are not defaults in the model: every parameter is explicit, and a call that omits one is the call that passes that default.
- Store.Db.ListListensForUser, Aggregates.TopSongsOf, Analytics.GetUserTopSongs: `limit` and `offset` are `nat`. JS `slice` counts a negative bound from the end, and that case is not modelled. For integer query values the routes pass a limit of at least 1 and a non-negative offset, and no route calls `getUserTopSongs`.
- The routes, the Express server, the session and basic-auth middleware, and scripts/reset_admin.js are not part of this model. Only the routes' pagination arithmetic appears, among the assumptions of `PaginationCovers` (page size at least 1).

## Findings

| source | as written | input that shows it | evidently intended | confidence | as-written member | corrected member |
|---|---|---|---|---|---|---|
| src/services/db.js:162 | A song is keyed by the string `` `${title}\|\|${artist\|\|''}\|\|${album\|\|''}` `` for `unique_titles`, the daily `unique_titles` (line 167) and the top-songs map (line 196). | Title "a\|\|b", artist "c" and title "a", artist "b\|\|c", both with no album: both give "a\|\|b\|\|c\|\|", so two songs count as one. | Distinct (title, artist, album) tuples, as the comment at line 188 says. | not executed | Records.SongKeyTextCollides | Aggregates.UniqueTitlesCountsTuples |
