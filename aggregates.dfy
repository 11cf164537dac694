/** What `getUserStats` and `getUserTopSongs` compute, stated over the
 *  user's listens without the incremental Maps and Sets of db.js: grouping
 *  by day, by source and by song, then sorting. The lemmas are the
 *  properties the analytics promise: totals that agree, orders, bounds and
 *  the meaning of each row. */
module Aggregates {
  import opened Seqs
  import opened Sorting
  import opened Records

  const WeekSeconds := 7 * 24 * 3600
  const UnknownSource := "unknown"

  function CountOne(l: Listen): int { 1 }

  /** `Number.isFinite(d) ? (d || 0) : 0`: a missing duration counts as 0. */
  function Dur(l: Listen): (d: int)
    ensures d >= 0
    ensures d == 0 <==> l.durationSec.None? || l.durationSec == Some(0)
  {
    match l.durationSec
    case None => 0
    case Some(d) => d
  }

  /** `l.source || 'unknown'` */
  function SourceOf(l: Listen): (r: string)
    ensures r != ""
  {
    if l.source.Some? && l.source.value != "" then l.source.value else UnknownSource
  }

  /** `duration_sec || null` at ingestion, then `(d || 0)` in the analytics:
   *  a missing or zero duration counts 0, any other its value. */
  lemma StoredDuration(id: int, userId: int, input: ListenInput, now: int)
    ensures Dur(NewListen(id, userId, input, now)) == if input.durationSec.Some? then input.durationSec.value else 0
  {
  }

  /** `source || null` at ingestion, then `source || 'unknown'` in the
   *  analytics: a missing or empty source is counted as 'unknown'. */
  lemma StoredSource(id: int, userId: int, input: ListenInput, now: int)
    ensures SourceOf(NewListen(id, userId, input, now))
         == if input.source.Some? && input.source.value != "" then input.source.value else UnknownSource
  {
  }

  /** The calendar day of a listen, under the day function `dayOf` that
   *  stands for the server's local-time date of `started_at`. */
  function DayKey(dayOf: int -> int): Listen -> int
  {
    (l: Listen) => dayOf(l.startedAt)
  }

  /** The distinct songs among `s`. */
  function TitleSet(s: seq<Listen>): (r: set<SongKey>)
    ensures |r| <= |s|
  {
    if s == [] then {} else TitleSet(s[..|s| - 1]) + {SongKeyOf(s[|s| - 1])}
  }

  /** A song is among `TitleSet(s)` exactly when some listen of `s` is of it. */
  lemma {:induction false} TitleSetMember(s: seq<Listen>, k: SongKey)
    ensures k in TitleSet(s) <==> exists i :: 0 <= i < |s| && SongKeyOf(s[i]) == k
    decreases |s|
  {
    if s != [] {
      var p := s[..|s| - 1];
      TitleSetMember(p, k);
      if k in TitleSet(p) {
        var i :| 0 <= i < |p| && SongKeyOf(p[i]) == k;
        assert s[i] == p[i];
      }
      if exists i :: 0 <= i < |s| && SongKeyOf(s[i]) == k {
        var i :| 0 <= i < |s| && SongKeyOf(s[i]) == k;
        if i < |p| {
          assert p[i] == s[i];
        }
      }
    }
  }

  lemma TitleSetMembers(s: seq<Listen>)
    ensures TitleSet(s) == set i | 0 <= i < |s| :: SongKeyOf(s[i])
  {
    forall k ensures k in TitleSet(s) <==> k in set i | 0 <= i < |s| :: SongKeyOf(s[i]) {
      TitleSetMember(s, k);
    }
  }

  // ---------------------------------------------------------------------
  // getUserStats

  /** A day's bucket: `{count, duration, titles: Set}`. */
  datatype DayAcc = DayAcc(count: int, duration: int, titles: set<SongKey>)

  function DayAccOf(g: seq<Listen>): DayAcc
  {
    DayAcc(|g|, Weight(g, Dur), TitleSet(g))
  }

  datatype DailyEntry = DailyEntry(date: int, count: int, durationSec: int, uniqueTitles: int)

  function DailyEntryOf(date: int, a: DayAcc): DailyEntry
  {
    DailyEntry(date, a.count, a.duration, |a.titles|)
  }

  function EntryCount(e: DailyEntry): int { e.count }
  function EntryDuration(e: DailyEntry): int { e.durationSec }

  /** One row per day of `days`, aggregating that day's listens. */
  function DailyRows(items: seq<Listen>, dayOf: int -> int, days: seq<int>): seq<DailyEntry>
  {
    seq(|days|, j requires 0 <= j < |days| => DailyEntryOf(days[j], DayAccOf(Group(items, DayKey(dayOf), days[j]))))
  }

  /** `a[0].localeCompare(b[0])` on the day keys: earliest day first. */
  function DailyRank(e: DailyEntry): Rank { Rank(-e.date, 0) }

  function Daily(items: seq<Listen>, dayOf: int -> int): seq<DailyEntry>
  {
    SortDesc(DailyRows(items, dayOf, Keys(items, DayKey(dayOf))), DailyRank)
  }

  datatype SourceEntry = SourceEntry(name: string, count: int)

  function SourceCount(e: SourceEntry): int { e.count }

  function SourceRows(items: seq<Listen>, names: seq<string>): seq<SourceEntry>
  {
    seq(|names|, j requires 0 <= j < |names| => SourceEntry(names[j], |Group(items, SourceOf, names[j])|))
  }

  /** `(a, b) => b[1] - a[1]`: most frequent source first. */
  function SourceRank(e: SourceEntry): Rank { Rank(e.count, 0) }

  function Sources(items: seq<Listen>): seq<SourceEntry>
  {
    SortDesc(SourceRows(items, Keys(items, SourceOf)), SourceRank)
  }

  datatype Stats = Stats(
    totalCount: int,
    totalDurationSec: int,
    uniqueTitles: int,
    daily: seq<DailyEntry>,
    sources: seq<SourceEntry>)

  /** The statistics of one user's listens `items`. */
  function StatsOf(items: seq<Listen>, dayOf: int -> int): (r: Stats)
    ensures r.totalCount == |items| && 0 <= r.uniqueTitles <= |items|
    ensures |r.daily| == |Keys(items, DayKey(dayOf))|
    ensures |r.sources| == |Keys(items, SourceOf)|
  {
    Stats(|items|, Weight(items, Dur), |TitleSet(items)|, Daily(items, dayOf), Sources(items))
  }

  lemma {:induction false} DailyRowsWeights(items: seq<Listen>, dayOf: int -> int, days: seq<int>)
    ensures Weight(DailyRows(items, dayOf, days), EntryCount) == SumGroups(items, DayKey(dayOf), CountOne, days)
    ensures Weight(DailyRows(items, dayOf, days), EntryDuration) == SumGroups(items, DayKey(dayOf), Dur, days)
    decreases |days|
  {
    if days != [] {
      var init := days[..|days| - 1];
      DailyRowsWeights(items, dayOf, init);
      var rows := DailyRows(items, dayOf, days);
      assert rows[..|rows| - 1] == DailyRows(items, dayOf, init);
      WeightOfOnes(Group(items, DayKey(dayOf), days[|days| - 1]), CountOne);
    }
  }

  lemma {:induction false} SourceRowsWeight(items: seq<Listen>, names: seq<string>)
    ensures Weight(SourceRows(items, names), SourceCount) == SumGroups(items, SourceOf, CountOne, names)
    decreases |names|
  {
    if names != [] {
      var init := names[..|names| - 1];
      SourceRowsWeight(items, init);
      var rows := SourceRows(items, names);
      assert rows[..|rows| - 1] == SourceRows(items, init);
      WeightOfOnes(Group(items, SourceOf, names[|names| - 1]), CountOne);
    }
  }

  /** The totals agree: daily counts and source counts both add up to the
   *  number of listens, daily durations to the total duration. */
  lemma StatsTotals(items: seq<Listen>, dayOf: int -> int)
    ensures var s := StatsOf(items, dayOf);
            && s.totalCount == |items|
            && Weight(s.daily, EntryCount) == s.totalCount
            && Weight(s.daily, EntryDuration) == s.totalDurationSec
            && Weight(s.sources, SourceCount) == s.totalCount
  {
    var days := Keys(items, DayKey(dayOf));
    var names := Keys(items, SourceOf);
    SortWeight(DailyRows(items, dayOf, days), DailyRank, EntryCount);
    SortWeight(DailyRows(items, dayOf, days), DailyRank, EntryDuration);
    SortWeight(SourceRows(items, names), SourceRank, SourceCount);
    DailyRowsWeights(items, dayOf, days);
    SourceRowsWeight(items, names);
    Partition(items, DayKey(dayOf), CountOne);
    Partition(items, DayKey(dayOf), Dur);
    Partition(items, SourceOf, CountOne);
    WeightOfOnes(items, CountOne);
  }

  /** `daily` is strictly ascending by date: one entry per day. */
  lemma DailyAscending(items: seq<Listen>, dayOf: int -> int)
    ensures var d := StatsOf(items, dayOf).daily;
            forall i, j :: 0 <= i < j < |d| ==> d[i].date < d[j].date
  {
    var days := Keys(items, DayKey(dayOf));
    var rows := DailyRows(items, dayOf, days);
    assert forall i, j :: 0 <= i < j < |rows| ==> DailyRank(rows[i]) != DailyRank(rows[j]) by {
      forall i, j | 0 <= i < j < |rows| ensures DailyRank(rows[i]) != DailyRank(rows[j]) {
        assert rows[i].date == days[i] && rows[j].date == days[j];
      }
    }
    SortStrict(rows, DailyRank);
  }

  lemma InDailyRows(items: seq<Listen>, dayOf: int -> int, days: seq<int>, e: DailyEntry)
    requires e in DailyRows(items, dayOf, days)
    ensures e.date in days
    ensures e == DailyEntryOf(e.date, DayAccOf(Group(items, DayKey(dayOf), e.date)))
  {
    var rows := DailyRows(items, dayOf, days);
    var j :| 0 <= j < |rows| && rows[j] == e;
  }

  lemma DailyRowsCover(items: seq<Listen>, dayOf: int -> int, days: seq<int>, d: int)
    requires d in days
    ensures exists e :: e in DailyRows(items, dayOf, days) && e.date == d
  {
    var rows := DailyRows(items, dayOf, days);
    var j :| 0 <= j < |days| && days[j] == d;
    assert rows[j] in rows;
  }

  /** Each daily entry is the bucket of one day on which the user listened:
   *  its count, duration and distinct songs are those of that day's listens,
   *  and every day with a listen has an entry. */
  lemma DailyEntriesMeaning(items: seq<Listen>, dayOf: int -> int)
    ensures var d := StatsOf(items, dayOf).daily;
            forall e :: e in d ==>
              var g := Group(items, DayKey(dayOf), e.date);
              && e.count == |g| >= 1
              && e.durationSec == Weight(g, Dur)
              && e.uniqueTitles == |TitleSet(g)|
    ensures var d := StatsOf(items, dayOf).daily;
            forall i :: 0 <= i < |items| ==> exists e :: e in d && e.date == dayOf(items[i].startedAt)
  {
    var key := DayKey(dayOf);
    var days := Keys(items, key);
    var rows := DailyRows(items, dayOf, days);
    var d := Daily(items, dayOf);
    forall e | e in d
      ensures var g := Group(items, key, e.date);
              e.count == |g| >= 1 && e.durationSec == Weight(g, Dur) && e.uniqueTitles == |TitleSet(g)|
    {
      InDailyRows(items, dayOf, days, e);
      GroupOfPresentKey(items, key, e.date);
    }
    forall i | 0 <= i < |items| ensures exists e :: e in d && e.date == dayOf(items[i].startedAt) {
      assert key(items[i]) == dayOf(items[i].startedAt);
      DailyRowsCover(items, dayOf, days, key(items[i]));
      var e :| e in rows && e.date == key(items[i]);
      assert e in d;
    }
  }

  lemma SubsetCard<T>(a: set<T>, b: set<T>)
    requires a <= b
    ensures |a| <= |b|
  {
    assert b == a + (b - a);
  }

  /** A day never has more distinct songs than listens, nor more than the
   *  whole history has. */
  lemma DailyUniqueBounds(items: seq<Listen>, dayOf: int -> int)
    ensures var s := StatsOf(items, dayOf);
            forall e :: e in s.daily ==> e.uniqueTitles <= e.count && e.uniqueTitles <= s.uniqueTitles
  {
    var key := DayKey(dayOf);
    var s := StatsOf(items, dayOf);
    DailyEntriesMeaning(items, dayOf);
    forall e | e in s.daily ensures e.uniqueTitles <= e.count && e.uniqueTitles <= s.uniqueTitles {
      var g := Group(items, key, e.date);
      assert TitleSet(g) <= TitleSet(items) by {
        forall k | k in TitleSet(g) ensures k in TitleSet(items) {
          TitleSetMember(g, k);
          var i :| 0 <= i < |g| && SongKeyOf(g[i]) == k;
          assert g[i] in g;
          GroupMember(items, key, e.date, g[i]);
          var m :| 0 <= m < |items| && items[m] == g[i];
          TitleSetMember(items, k);
        }
      }
      SubsetCard(TitleSet(g), TitleSet(items));
    }
  }

  lemma InSourceRows(items: seq<Listen>, names: seq<string>, e: SourceEntry)
    requires e in SourceRows(items, names)
    ensures e.name in names && e.count == |Group(items, SourceOf, e.name)|
  {
    var rows := SourceRows(items, names);
    var j :| 0 <= j < |rows| && rows[j] == e;
  }

  lemma SourceRowsCover(items: seq<Listen>, names: seq<string>, n: string)
    requires n in names
    ensures exists e :: e in SourceRows(items, names) && e.name == n
  {
    var rows := SourceRows(items, names);
    var j :| 0 <= j < |names| && names[j] == n;
    assert rows[j] in rows;
  }

  /** A sequence without repeated elements, sorted, has none either. */
  lemma SortKeepsDistinct<T(!new)>(s: seq<T>, rank: T -> Rank)
    requires Distinct(s)
    ensures Distinct(SortDesc(s, rank))
  {
    var r := SortDesc(s, rank);
    forall i, j | 0 <= i < j < |r| ensures r[i] != r[j] {
      if r[i] == r[j] {
        assert r == r[..j] + r[j..];
        assert r[i] in r[..j];
        assert multiset(r)[r[i]] >= 2;
        DistinctMultiplicity(s, r[i]);
        assert false;
      }
    }
  }

  lemma SourceRowsDistinct(items: seq<Listen>, names: seq<string>)
    requires Distinct(names)
    ensures var rows := SourceRows(items, names);
            forall i, j :: 0 <= i < j < |rows| ==> rows[i].name != rows[j].name
  {
  }

  /** `sources` is ordered by count, highest first, sources with equal counts
   *  in order of first use; every listen's source (or 'unknown') is counted
   *  under its own name exactly once. */
  lemma SourcesMeaning(items: seq<Listen>)
    ensures var src := Sources(items);
            && (forall i, j :: 0 <= i < j < |src| ==> src[i].count >= src[j].count)
            && (forall i, j :: 0 <= i < j < |src| ==> src[i].name != src[j].name)
            && (forall e :: e in src ==> e.count == |Group(items, SourceOf, e.name)| >= 1)
            && (forall i :: 0 <= i < |items| ==> exists e :: e in src && e.name == SourceOf(items[i]))
    ensures forall c :: Group(Sources(items), SourceRank, Rank(c, 0))
                     == Group(SourceRows(items, Keys(items, SourceOf)), SourceRank, Rank(c, 0))
  {
    var names := Keys(items, SourceOf);
    var rows := SourceRows(items, names);
    var src := Sources(items);
    forall i, j | 0 <= i < j < |src| ensures src[i].count >= src[j].count {
      assert !Ahead(SourceRank(src[j]), SourceRank(src[i]));
    }
    forall e | e in src ensures e.count == |Group(items, SourceOf, e.name)| >= 1 {
      InSourceRows(items, names, e);
      GroupOfPresentKey(items, SourceOf, e.name);
    }
    SourceRowsDistinct(items, names);
    assert Distinct(rows);
    SortKeepsDistinct(rows, SourceRank);
    forall i, j | 0 <= i < j < |src| ensures src[i].name != src[j].name {
      InSourceRows(items, names, src[i]);
      InSourceRows(items, names, src[j]);
    }
    forall i | 0 <= i < |items| ensures exists e :: e in src && e.name == SourceOf(items[i]) {
      SourceRowsCover(items, names, SourceOf(items[i]));
      var e :| e in rows && e.name == SourceOf(items[i]);
      assert e in src;
    }
    forall c ensures Group(src, SourceRank, Rank(c, 0)) == Group(rows, SourceRank, Rank(c, 0)) {
      SortStable(rows, SourceRank, Rank(c, 0));
    }
  }

  /** Corrected half of the song-key finding: `unique_titles` counts the
   *  distinct (title, artist, album) tuples. */
  lemma UniqueTitlesCountsTuples(items: seq<Listen>, dayOf: int -> int)
    ensures StatsOf(items, dayOf).uniqueTitles == |set i | 0 <= i < |items| :: SongKeyOf(items[i])|
  {
    TitleSetMembers(items);
  }

  // ---------------------------------------------------------------------
  // getUserTopSongs

  datatype TopSong = TopSong(title: string, artist: string, album: string, count: int, lastPlay: int)

  function SongOfEntry(e: TopSong): SongKey { SongKey(e.title, e.artist, e.album) }

  function SongCount(e: TopSong): int { e.count }

  /** `Math.max(lastPlay, started_at)` over a group, starting from 0: the
   *  latest start time, or 0 when none is positive. */
  function LastPlay(g: seq<Listen>): (r: int)
    ensures r >= 0
    ensures forall i :: 0 <= i < |g| ==> g[i].startedAt <= r
    ensures r == 0 || exists i :: 0 <= i < |g| && g[i].startedAt == r
  {
    if g == [] then 0
    else
      var p := g[..|g| - 1];
      assert forall i :: 0 <= i < |p| ==> g[i] == p[i];
      Max(LastPlay(p), g[|g| - 1].startedAt)
  }

  function SongOf(k: SongKey, g: seq<Listen>): TopSong
  {
    TopSong(k.title, k.artist, k.album, |g|, LastPlay(g))
  }

  function SongRows(win: seq<Listen>, songs: seq<SongKey>): seq<TopSong>
  {
    seq(|songs|, j requires 0 <= j < |songs| => SongOf(songs[j], Group(win, SongKeyOf, songs[j])))
  }

  /** `b.count - a.count || b.last_play - a.last_play` */
  function SongRank(e: TopSong): Rank { Rank(e.count, e.lastPlay) }

  /** `since`: a rolling seven-day window for range 'week', else 0. */
  function Since(range: string, nowSec: int): int
  {
    if range == "week" then nowSec - WeekSeconds else 0
  }

  /** `since === 0 || started_at >= since` */
  function InWindow(items: seq<Listen>, since: int): (r: seq<Listen>)
    ensures |r| <= |items|
  {
    if items == [] then []
    else
      var p := items[..|items| - 1];
      var l := items[|items| - 1];
      assert items == p + [l];
      InWindow(p, since) + (if since == 0 || l.startedAt >= since then [l] else [])
  }

  function Ranked(win: seq<Listen>): seq<TopSong>
  {
    SortDesc(SongRows(win, Keys(win, SongKeyOf)), SongRank)
  }

  /** The top songs of one user's listens `items`. */
  function TopSongsOf(items: seq<Listen>, range: string, limit: nat, nowSec: int): (r: seq<TopSong>)
    ensures |r| == Min(limit, |Keys(InWindow(items, Since(range, nowSec)), SongKeyOf)|)
  {
    var ranked := Ranked(InWindow(items, Since(range, nowSec)));
    ranked[..Min(limit, |ranked|)]
  }

  lemma {:induction false} SongRowsWeight(win: seq<Listen>, songs: seq<SongKey>)
    ensures Weight(SongRows(win, songs), SongCount) == SumGroups(win, SongKeyOf, CountOne, songs)
    decreases |songs|
  {
    if songs != [] {
      var init := songs[..|songs| - 1];
      SongRowsWeight(win, init);
      var rows := SongRows(win, songs);
      assert forall j :: 0 <= j < |init| ==> rows[j] == SongRows(win, init)[j];
      assert rows[..|rows| - 1] == SongRows(win, init);
      WeightOfOnes(Group(win, SongKeyOf, songs[|songs| - 1]), CountOne);
    }
  }

  lemma InSongRows(win: seq<Listen>, songs: seq<SongKey>, e: TopSong)
    requires e in SongRows(win, songs)
    ensures SongOfEntry(e) in songs
    ensures e == SongOf(SongOfEntry(e), Group(win, SongKeyOf, SongOfEntry(e)))
  {
    var rows := SongRows(win, songs);
    var j :| 0 <= j < |rows| && rows[j] == e;
  }

  lemma InRanked(win: seq<Listen>, e: TopSong)
    requires e in Ranked(win)
    ensures SongOfEntry(e) in Keys(win, SongKeyOf)
    ensures e == SongOf(SongOfEntry(e), Group(win, SongKeyOf, SongOfEntry(e)))
  {
    var songs := Keys(win, SongKeyOf);
    assert e in SongRows(win, songs);
    InSongRows(win, songs, e);
  }

  /** At most `limit` entries, and their plays never add up to more than the
   *  user's listens. */
  lemma TopSongsBounded(items: seq<Listen>, range: string, limit: nat, nowSec: int)
    ensures var top := TopSongsOf(items, range, limit, nowSec);
            |top| <= limit && Weight(top, SongCount) <= |items|
  {
    var win := InWindow(items, Since(range, nowSec));
    var songs := Keys(win, SongKeyOf);
    var ranked := Ranked(win);
    SortWeight(SongRows(win, songs), SongRank, SongCount);
    SongRowsWeight(win, songs);
    Partition(win, SongKeyOf, CountOne);
    WeightOfOnes(win, CountOne);
    forall i | 0 <= i < |ranked| ensures SongCount(ranked[i]) >= 0 {
      InRanked(win, ranked[i]);
    }
    WeightOfPrefix(ranked, Min(limit, |ranked|), SongCount);
  }

  /** Ranked by play count, then by latest play, both highest first. */
  lemma TopSongsOrdered(items: seq<Listen>, range: string, limit: nat, nowSec: int)
    ensures var top := TopSongsOf(items, range, limit, nowSec);
            forall i, j :: 0 <= i < j < |top| ==>
              top[i].count > top[j].count || (top[i].count == top[j].count && top[i].lastPlay >= top[j].lastPlay)
  {
    var ranked := Ranked(InWindow(items, Since(range, nowSec)));
    var top := TopSongsOf(items, range, limit, nowSec);
    forall i, j | 0 <= i < j < |top|
      ensures top[i].count > top[j].count || (top[i].count == top[j].count && top[i].lastPlay >= top[j].lastPlay)
    {
      assert top[i] == ranked[i] && top[j] == ranked[j];
      assert !Ahead(SongRank(ranked[j]), SongRank(ranked[i]));
    }
  }

  lemma SongEntryMeaning(win: seq<Listen>, e: TopSong)
    requires e in Ranked(win)
    ensures var g := Group(win, SongKeyOf, SongOfEntry(e));
            && e.count == |g| >= 1
            && e.lastPlay >= 0
            && (forall l :: l in win && SongKeyOf(l) == SongOfEntry(e) ==> l.startedAt <= e.lastPlay)
            && (e.lastPlay == 0 || exists l :: l in win && SongKeyOf(l) == SongOfEntry(e) && l.startedAt == e.lastPlay)
  {
    InRanked(win, e);
    var k := SongOfEntry(e);
    var g := Group(win, SongKeyOf, k);
    GroupOfPresentKey(win, SongKeyOf, k);
    forall l | l in win && SongKeyOf(l) == k ensures l.startedAt <= e.lastPlay {
      GroupMember(win, SongKeyOf, k, l);
      assert l in g;
      var m :| 0 <= m < |g| && g[m] == l;
    }
    if e.lastPlay != 0 {
      var m :| 0 <= m < |g| && g[m].startedAt == e.lastPlay;
      assert g[m] in g;
      GroupMember(win, SongKeyOf, k, g[m]);
    }
  }

  /** Each entry is one song of the window: its count is the number of the
   *  song's listens there, `last_play` their latest start time (or 0), and
   *  no song appears twice. */
  lemma TopSongsMeaning(items: seq<Listen>, range: string, limit: nat, nowSec: int)
    ensures var win := InWindow(items, Since(range, nowSec));
            var top := TopSongsOf(items, range, limit, nowSec);
            forall e :: e in top ==>
              var g := Group(win, SongKeyOf, SongOfEntry(e));
              && e.count == |g| >= 1
              && e.lastPlay >= 0
              && (forall l :: l in win && SongKeyOf(l) == SongOfEntry(e) ==> l.startedAt <= e.lastPlay)
              && (e.lastPlay == 0 || exists l :: l in win && SongKeyOf(l) == SongOfEntry(e) && l.startedAt == e.lastPlay)
    ensures var top := TopSongsOf(items, range, limit, nowSec);
            forall i, j :: 0 <= i < j < |top| ==> SongOfEntry(top[i]) != SongOfEntry(top[j])
  {
    var win := InWindow(items, Since(range, nowSec));
    var songs := Keys(win, SongKeyOf);
    var rows := SongRows(win, songs);
    var ranked := Ranked(win);
    var top := TopSongsOf(items, range, limit, nowSec);
    forall e | e in top
      ensures var g := Group(win, SongKeyOf, SongOfEntry(e));
              && e.count == |g| >= 1
              && e.lastPlay >= 0
              && (forall l :: l in win && SongKeyOf(l) == SongOfEntry(e) ==> l.startedAt <= e.lastPlay)
              && (e.lastPlay == 0 || exists l :: l in win && SongKeyOf(l) == SongOfEntry(e) && l.startedAt == e.lastPlay)
    {
      var i :| 0 <= i < |top| && top[i] == e;
      assert ranked[i] == e;
      SongEntryMeaning(win, e);
    }
    assert Distinct(rows) by {
      forall i, j | 0 <= i < j < |rows| ensures rows[i] != rows[j] {
        assert SongOfEntry(rows[i]) == songs[i] && SongOfEntry(rows[j]) == songs[j];
      }
    }
    SortKeepsDistinct(rows, SongRank);
    forall i, j | 0 <= i < j < |top| ensures SongOfEntry(top[i]) != SongOfEntry(top[j]) {
      assert top[i] == ranked[i] && top[j] == ranked[j];
      InRanked(win, ranked[i]);
      InRanked(win, ranked[j]);
    }
  }

  /** Every song with a play in the window has an entry in the ranking. */
  lemma RankedComplete(win: seq<Listen>, l: Listen)
    requires l in win
    ensures exists e :: e in Ranked(win) && SongOfEntry(e) == SongKeyOf(l)
  {
    var songs := Keys(win, SongKeyOf);
    var i :| 0 <= i < |win| && win[i] == l;
    assert SongKeyOf(win[i]) == SongKeyOf(l);
    assert SongKeyOf(l) in songs;
    var j :| 0 <= j < |songs| && songs[j] == SongKeyOf(l);
    var rows := SongRows(win, songs);
    assert rows[j] in rows;
    assert rows[j] in Ranked(win);
    assert SongOfEntry(rows[j]) == SongKeyOf(l);
  }

  /** `slice(0, limit)` of the ranking: the result is its first
   *  min(limit, songs) entries, and no entry cut off ranks ahead of one
   *  that was kept. */
  lemma TopSongsAreTop(items: seq<Listen>, range: string, limit: nat, nowSec: int)
    ensures var ranked := Ranked(InWindow(items, Since(range, nowSec)));
            var top := TopSongsOf(items, range, limit, nowSec);
            && |top| == Min(limit, |ranked|)
            && top == ranked[..|top|]
            && forall i, j :: 0 <= i < |top| <= j < |ranked| ==> !Ahead(SongRank(ranked[j]), SongRank(ranked[i]))
  {
  }

  /** A listen is in the window exactly when it is stored and `since === 0`
   *  or it starts at or after `since`. */
  lemma {:induction false} InWindowMember(items: seq<Listen>, since: int, l: Listen)
    ensures l in InWindow(items, since) <==> l in items && (since == 0 || l.startedAt >= since)
    decreases |items|
  {
    if items != [] {
      var p := items[..|items| - 1];
      assert items == p + [items[|items| - 1]];
      InWindowMember(p, since, l);
    }
  }

  lemma InWindowSnoc(q: seq<Listen>, l: Listen, since: int)
    ensures InWindow(q + [l], since) == InWindow(q, since) + (if since == 0 || l.startedAt >= since then [l] else [])
  {
    assert (q + [l])[..|q|] == q;
  }

  /** The window filter keeps stored order: filtering a concatenation is
   *  concatenating the filtered parts. */
  lemma {:induction false} InWindowAppend(a: seq<Listen>, b: seq<Listen>, since: int)
    ensures InWindow(a + b, since) == InWindow(a, since) + InWindow(b, since)
    decreases |b|
  {
    if b == [] {
      assert a + b == a;
    } else {
      var p := b[..|b| - 1];
      var l := b[|b| - 1];
      assert b == p + [l];
      assert a + b == (a + p) + [l];
      InWindowAppend(a, p, since);
      InWindowSnoc(a + p, l, since);
      InWindowSnoc(p, l, since);
    }
  }

  /** The window filter keeps every copy of a listen in range and no copy of
   *  one out of range. */
  lemma {:induction false} InWindowCount(items: seq<Listen>, since: int, l: Listen)
    ensures multiset(InWindow(items, since))[l] == if since == 0 || l.startedAt >= since then multiset(items)[l] else 0
    decreases |items|
  {
    if items != [] {
      var p := items[..|items| - 1];
      assert items == p + [items[|items| - 1]];
      InWindowCount(p, since, l);
    }
  }

  /** The 'week' range is a rolling 7 x 24 h window: a listen counts exactly
   *  when it started at most 604800 s before `nowSec` (the whole history
   *  when `nowSec` is exactly 604800, where `since` is 0); any other range
   *  counts every listen. */
  lemma RangeWindow(items: seq<Listen>, range: string, nowSec: int)
    ensures range == "week" ==>
              forall l :: l in InWindow(items, Since(range, nowSec)) <==>
                l in items && (nowSec == WeekSeconds || l.startedAt >= nowSec - WeekSeconds)
    ensures range != "week" ==> InWindow(items, Since(range, nowSec)) == items
  {
    if range != "week" {
      AllInWindow(items);
    } else {
      forall l ensures l in InWindow(items, Since(range, nowSec)) <==>
                         l in items && (nowSec == WeekSeconds || l.startedAt >= nowSec - WeekSeconds) {
        InWindowMember(items, Since(range, nowSec), l);
      }
    }
  }

  lemma {:induction false} AllInWindow(items: seq<Listen>)
    ensures InWindow(items, 0) == items
    decreases |items|
  {
    if items != [] {
      AllInWindow(items[..|items| - 1]);
      assert items == items[..|items| - 1] + [items[|items| - 1]];
    }
  }
}
