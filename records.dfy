/** The records of the store document (db.js): users, listens, the listen
 *  payload a caller hands in, the normalisation applied before a listen is
 *  stored, the natural dedup key, the song key the analytics group by, and
 *  an idealised bcrypt. */
module Records {
  import opened Seqs

  // ---------------------------------------------------------------------
  // Password hashing (bcryptjs hashSync / compareSync)

  /** An idealised bcrypt digest: besides its salt it determines exactly one
   *  password, and that password is observable only through CheckPassword.
   *  The salt stands for bcrypt's random salt, which callers pass in. */
  datatype PasswordHash = PasswordHash(salt: nat, secret: string)

  predicate CheckPassword(password: string, h: PasswordHash)
  {
    h.secret == password
  }

  /** `bcrypt.hashSync(password, 10)`: the digest accepts this password and
   *  no other. */
  function HashPassword(password: string, salt: nat): (h: PasswordHash)
    ensures forall p :: CheckPassword(p, h) <==> p == password
  {
    PasswordHash(salt, password)
  }

  /** `bcrypt.compareSync`: a digest accepts at most one password. */
  lemma DigestAcceptsOne(h: PasswordHash, p: string, q: string)
    ensures CheckPassword(p, h) && CheckPassword(q, h) ==> p == q
  {
  }

  // ---------------------------------------------------------------------
  // Users

  const AdminRole := "admin"

  datatype User = User(id: int, username: string, passwordHash: PasswordHash, role: string, createdAt: int)

  /** The fields `listUsers` and `findUserById` expose (never the hash). */
  datatype PublicUser = PublicUser(id: int, username: string, role: string, createdAt: int)

  /** What `verifyUserPassword` returns on success. */
  datatype AuthUser = AuthUser(id: int, username: string, role: string)

  function PublicOf(u: User): PublicUser
  {
    PublicUser(u.id, u.username, u.role, u.createdAt)
  }

  /** The public view does not depend on the password hash. */
  lemma PublicViewHidesHash(u: User, h: PasswordHash)
    ensures PublicOf(u.(passwordHash := h)) == PublicOf(u)
  {
  }

  // ---------------------------------------------------------------------
  // Listens

  /** The payload `addListenForUser` receives; absent optional fields are
   *  None, and JS `null`, `undefined` and `''` all arrive as None or Some(""). */
  datatype ListenInput = ListenInput(
    title: string,
    artist: Option<string>,
    album: Option<string>,
    source: Option<string>,
    startedAt: int,
    durationSec: Option<nat>,
    externalId: Option<string>)

  datatype Listen = Listen(
    id: int,
    userId: int,
    title: string,
    artist: Option<string>,
    album: Option<string>,
    source: Option<string>,
    startedAt: int,
    durationSec: Option<nat>,
    externalId: Option<string>,
    createdAt: int)

  /** `(v ?? '')` and `(v || '')` on an optional string. */
  function OrEmpty(v: Option<string>): string
  {
    match v
    case None => ""
    case Some(s) => s
  }

  /** `v || null` on an optional string: the empty string becomes null, so
   *  a stored optional string is never empty, and its dedup text is kept. */
  function OrNull(v: Option<string>): (r: Option<string>)
    ensures r.Some? ==> r.value != ""
    ensures OrEmpty(r) == OrEmpty(v)
    ensures v.Some? && v.value != "" ==> r == v
  {
    if v.Some? && v.value != "" then v else None
  }

  /** `n || null` on an optional number: 0 becomes null. */
  function NonZeroOrNull(v: Option<nat>): (r: Option<nat>)
    ensures r.Some? ==> r.value > 0 && r == v
    ensures v.Some? && v.value > 0 ==> r == v
  {
    if v.Some? && v.value > 0 then v else None
  }

  /** The natural key two listens of one user may not share: user, title,
   *  artist-or-empty, album-or-empty and start time. */
  datatype DedupKey = DedupKey(userId: int, title: string, artist: string, album: string, startedAt: int)

  function DedupKeyOf(l: Listen): DedupKey
  {
    DedupKey(l.userId, l.title, OrEmpty(l.artist), OrEmpty(l.album), l.startedAt)
  }

  function InputKey(userId: int, input: ListenInput): DedupKey
  {
    DedupKey(userId, input.title, OrEmpty(input.artist), OrEmpty(input.album), input.startedAt)
  }

  /** The duplicate test of `addListenForUser`: a stored listen matches a
   *  payload exactly when owner, title and start time are equal and artist
   *  and album agree once null, undefined and '' are read as ''. */
  lemma DedupKeyMatch(l: Listen, userId: int, input: ListenInput)
    ensures DedupKeyOf(l) == InputKey(userId, input) <==>
              && l.userId == userId && l.title == input.title
              && OrEmpty(l.artist) == OrEmpty(input.artist) && OrEmpty(l.album) == OrEmpty(input.album)
              && l.startedAt == input.startedAt
  {
  }

  /** The record `addListenForUser` appends for a fresh payload: empty
   *  optional fields are stored as null, and the stored row has the dedup
   *  key its payload had. */
  function NewListen(id: int, userId: int, input: ListenInput, now: int): (l: Listen)
    ensures DedupKeyOf(l) == InputKey(userId, input)
    ensures l.id == id && l.userId == userId && l.createdAt == now
    ensures l.title == input.title && l.startedAt == input.startedAt
    ensures OrEmpty(l.source) == OrEmpty(input.source) && l.source != Some("")
    ensures l.artist != Some("") && l.album != Some("")
    ensures l.durationSec == NonZeroOrNull(input.durationSec) && l.externalId == OrNull(input.externalId)
  {
    Listen(id, userId, input.title, OrNull(input.artist), OrNull(input.album), OrNull(input.source),
           input.startedAt, NonZeroOrNull(input.durationSec), OrNull(input.externalId), now)
  }

  // ---------------------------------------------------------------------
  // Song identity used by the analytics

  /** A song is identified by (title, artist-or-empty, album-or-empty). */
  datatype SongKey = SongKey(title: string, artist: string, album: string)

  /** Corrected song key: the tuple itself, so two listens fall into the same
   *  song exactly when their three fields agree. */
  function SongKeyOf(l: Listen): SongKey
  {
    SongKey(l.title, OrEmpty(l.artist), OrEmpty(l.album))
  }

  /** Two listens are of the same song exactly when title, artist-or-empty
   *  and album-or-empty all agree. */
  lemma SameSong(a: Listen, b: Listen)
    ensures SongKeyOf(a) == SongKeyOf(b) <==>
              a.title == b.title && OrEmpty(a.artist) == OrEmpty(b.artist) && OrEmpty(a.album) == OrEmpty(b.album)
  {
  }

  /** The song key as db.js builds it: the three fields joined by "||". */
  function SongKeyText(k: SongKey): string
  {
    k.title + "||" + k.artist + "||" + k.album
  }

  /** As written, the joined text does not identify the song: a title or
   *  artist that itself contains "||" makes two different songs share one
   *  key, so they are counted as one title in `getUserStats` and merged into
   *  one entry in `getUserTopSongs`. */
  lemma SongKeyTextCollides()
    ensures SongKey("a||b", "c", "") != SongKey("a", "b||c", "")
    ensures SongKeyText(SongKey("a||b", "c", "")) == SongKeyText(SongKey("a", "b||c", ""))
  {
    assert SongKeyText(SongKey("a||b", "c", "")) == "a||b||c||";
    assert SongKeyText(SongKey("a", "b||c", "")) == "a||b||c||";
  }
}
