/** `getUserStats` and `getUserTopSongs` as db.js writes them: one pass over
 *  the user's listens filling JS Maps (modelled as a `map` plus the key
 *  order a JS Map keeps), then sorting the entries. Each method is proved to
 *  return exactly what the Aggregates specification describes. */
module Analytics {
  import opened Seqs
  import opened Sorting
  import opened Records
  import opened Aggregates
  import Store


  lemma TitleSetSnoc(g: seq<Listen>, l: Listen)
    ensures TitleSet(g + [l]) == TitleSet(g) + {SongKeyOf(l)}
  {
    assert (g + [l])[..|g|] == g;
  }

  lemma SongOfSnoc(k: SongKey, g: seq<Listen>, l: Listen)
    ensures SongOf(k, g + [l]) == SongOf(k, g).(count := |g| + 1, lastPlay := Max(LastPlay(g), l.startedAt))
  {
    assert (g + [l])[..|g|] == g;
  }

  /** The daily rows read off the day map in its key order. */
  function DailyFromMap(order: seq<int>, byDay: map<int, DayAcc>): seq<DailyEntry>
    requires forall d :: d in order ==> d in byDay
  {
    seq(|order|, j requires 0 <= j < |order| => DailyEntryOf(order[j], byDay[order[j]]))
  }

  function SourcesFromMap(order: seq<string>, counts: map<string, int>): seq<SourceEntry>
    requires forall n :: n in order ==> n in counts
  {
    seq(|order|, j requires 0 <= j < |order| => SourceEntry(order[j], counts[order[j]]))
  }

  function SongsFromMap(order: seq<SongKey>, songs: map<SongKey, TopSong>): seq<TopSong>
    requires forall k :: k in order ==> k in songs
  {
    seq(|order|, j requires 0 <= j < |order| => songs[order[j]])
  }

  function DayAgg(day: int, g: seq<Listen>): DayAcc { DayAccOf(g) }

  function SourceAgg(name: string, g: seq<Listen>): int { |g| }

  /** `byDay.get(key)` after `if (!byDay.has(key)) byDay.set(key, {count: 0,
   *  duration: 0, titles: new Set()})`. */
  function BucketOf(byDay: map<int, DayAcc>, day: int): DayAcc
  {
    if day in byDay then byDay[day] else DayAcc(0, 0, {})
  }

  /** `agg.count += 1; agg.duration += dur; agg.titles.add(key)` */
  function Bump(agg: DayAcc, l: Listen): DayAcc
  {
    DayAcc(agg.count + 1, agg.duration + Dur(l), agg.titles + {SongKeyOf(l)})
  }

  lemma DayAccSnoc(g: seq<Listen>, l: Listen)
    ensures Bump(DayAccOf(g), l) == DayAccOf(g + [l])
  {
    assert (g + [l])[..|g|] == g;
  }

  /** One iteration on `byDay`: create the day's bucket if missing, then add
   *  the listen to it. */
  lemma DaysStep(prefix: seq<Listen>, l: Listen, dayOf: int -> int, order: seq<int>, byDay: map<int, DayAcc>, day: int)
    requires Tally(prefix, DayKey(dayOf), DayAgg, order, byDay)
    requires day == dayOf(l.startedAt)
    ensures Tally(prefix + [l], DayKey(dayOf), DayAgg, if day in byDay then order else order + [day],
                  byDay[day := Bump(BucketOf(byDay, day), l)])
  {
    var key := DayKey(dayOf);
    var v := Bump(BucketOf(byDay, day), l);
    assert key(l) == day && v == DayAgg(day, Group(prefix, key, day) + [l]) by {
      var g := Group(prefix, key, day);
      if day !in byDay {
        GroupOfAbsentKey(prefix, key, day);
      }
      assert BucketOf(byDay, day) == DayAccOf(g);
      DayAccSnoc(g, l);
      assert DayAgg(day, g + [l]) == DayAccOf(g + [l]);
    }
    TallyStep(prefix, l, key, DayAgg, order, byDay, day, v);
  }

  /** One iteration on `sourceMap`: `(sourceMap.get(src) || 0) + 1`. */
  lemma SourcesStep(prefix: seq<Listen>, l: Listen, order: seq<string>, counts: map<string, int>)
    requires Tally(prefix, SourceOf, SourceAgg, order, counts)
    ensures var src := SourceOf(l);
            Tally(prefix + [l], SourceOf, SourceAgg, if src in counts then order else order + [src],
                  counts[src := (if src in counts then counts[src] else 0) + 1])
  {
    var src := SourceOf(l);
    assert (if src in counts then counts[src] else 0) == |Group(prefix, SourceOf, src)| by {
      if src !in counts {
        GroupOfAbsentKey(prefix, SourceOf, src);
      }
    }
    TallyStep(prefix, l, SourceOf, SourceAgg, order, counts, src, (if src in counts then counts[src] else 0) + 1);
  }

  /** `map.get(key) || {title, artist, album, count: 0, last_play: 0}` */
  function Entry(songs: map<SongKey, TopSong>, l: Listen): TopSong
  {
    var k := SongKeyOf(l);
    if k in songs then songs[k] else TopSong(l.title, OrEmpty(l.artist), OrEmpty(l.album), 0, 0)
  }

  /** `v.count += 1; v.last_play = Math.max(v.last_play, started_at)` */
  function Played(v: TopSong, l: Listen): TopSong
  {
    v.(count := v.count + 1, lastPlay := Max(v.lastPlay, l.startedAt))
  }

  /** One iteration on the song map: fetch or create the song's entry, then
   *  count one more play. */
  lemma SongsStep(prefix: seq<Listen>, l: Listen, order: seq<SongKey>, songs: map<SongKey, TopSong>)
    requires Tally(prefix, SongKeyOf, SongOf, order, songs)
    ensures var k := SongKeyOf(l);
            Tally(prefix + [l], SongKeyOf, SongOf, if k in songs then order else order + [k],
                  songs[k := Played(Entry(songs, l), l)])
  {
    var k := SongKeyOf(l);
    var v := Played(Entry(songs, l), l);
    assert v == SongOf(k, Group(prefix, SongKeyOf, k) + [l]) by {
      var g := Group(prefix, SongKeyOf, k);
      if k !in songs {
        GroupOfAbsentKey(prefix, SongKeyOf, k);
      }
      assert Entry(songs, l) == SongOf(k, g);
      SongOfSnoc(k, g, l);
    }
    TallyStep(prefix, l, SongKeyOf, SongOf, order, songs, k, v);
  }

  lemma DaysDone(items: seq<Listen>, dayOf: int -> int, order: seq<int>, byDay: map<int, DayAcc>)
    requires Tally(items, DayKey(dayOf), DayAgg, order, byDay)
    ensures forall d :: d in order ==> d in byDay
    ensures SortDesc(DailyFromMap(order, byDay), DailyRank) == Daily(items, dayOf)
  {
    assert DailyFromMap(order, byDay) == DailyRows(items, dayOf, order);
  }

  lemma SourcesDone(items: seq<Listen>, order: seq<string>, counts: map<string, int>)
    requires Tally(items, SourceOf, SourceAgg, order, counts)
    ensures forall n :: n in order ==> n in counts
    ensures SortDesc(SourcesFromMap(order, counts), SourceRank) == Sources(items)
  {
    assert SourcesFromMap(order, counts) == SourceRows(items, order);
  }

  lemma SongsDone(items: seq<Listen>, order: seq<SongKey>, songs: map<SongKey, TopSong>)
    requires Tally(items, SongKeyOf, SongOf, order, songs)
    ensures forall k :: k in order ==> k in songs
    ensures SortDesc(SongsFromMap(order, songs), SongRank) == Ranked(items)
  {
    assert SongsFromMap(order, songs) == SongRows(items, order);
  }

  /** The local variables of `getUserStats` between two iterations. */
  datatype StatsState = StatsState(totalCount: int, totalDuration: int, uniqueTitles: set<SongKey>,
                                   dayOrder: seq<int>, byDay: map<int, DayAcc>,
                                   sourceOrder: seq<string>, sourceMap: map<string, int>)

  /** The body of the `for (const l of items)` loop of `getUserStats`. */
  ghost function StatsVisit(st: StatsState, l: Listen, dayOf: int -> int): StatsState
  {
    var day := dayOf(l.startedAt);
    var src := SourceOf(l);
    StatsState(st.totalCount + 1, st.totalDuration + Dur(l), st.uniqueTitles + {SongKeyOf(l)},
               if day in st.byDay then st.dayOrder else st.dayOrder + [day],
               st.byDay[day := Bump(BucketOf(st.byDay, day), l)],
               if src in st.sourceMap then st.sourceOrder else st.sourceOrder + [src],
               st.sourceMap[src := (if src in st.sourceMap then st.sourceMap[src] else 0) + 1])
  }

  /** The state after the loop has visited `prefix`. */
  ghost function StatsPass(prefix: seq<Listen>, dayOf: int -> int): StatsState
  {
    if prefix == [] then StatsState(0, 0, {}, [], map[], [], map[])
    else StatsVisit(StatsPass(prefix[..|prefix| - 1], dayOf), prefix[|prefix| - 1], dayOf)
  }

  lemma StatsPassSnoc(prefix: seq<Listen>, l: Listen, dayOf: int -> int)
    ensures StatsPass(prefix + [l], dayOf) == StatsVisit(StatsPass(prefix, dayOf), l, dayOf)
  {
    assert (prefix + [l])[..|prefix|] == prefix;
  }

  /** After visiting `prefix`, the loop's counters hold the number of listens,
   *  their total duration and their distinct songs. */
  lemma {:induction false} StatsPassTotals(prefix: seq<Listen>, dayOf: int -> int)
    ensures StatsPass(prefix, dayOf).totalCount == |prefix|
    ensures StatsPass(prefix, dayOf).totalDuration == Weight(prefix, Dur)
    ensures StatsPass(prefix, dayOf).uniqueTitles == TitleSet(prefix)
    decreases |prefix|
  {
    if prefix != [] {
      var p := prefix[..|prefix| - 1];
      var l := prefix[|prefix| - 1];
      assert prefix == p + [l];
      StatsPassTotals(p, dayOf);
      StatsPassSnoc(p, l, dayOf);
      WeightSnoc(p, l, Dur);
      TitleSetSnoc(p, l);
    }
  }

  /** After visiting `prefix`, `byDay` holds one bucket per day of `prefix`,
   *  in order of first appearance, each describing that day's listens. */
  lemma {:induction false} StatsPassDays(prefix: seq<Listen>, dayOf: int -> int)
    ensures Tally(prefix, DayKey(dayOf), DayAgg, StatsPass(prefix, dayOf).dayOrder, StatsPass(prefix, dayOf).byDay)
    decreases |prefix|
  {
    if prefix != [] {
      var p := prefix[..|prefix| - 1];
      var l := prefix[|prefix| - 1];
      assert prefix == p + [l];
      StatsPassDays(p, dayOf);
      StatsPassSnoc(p, l, dayOf);
      var st := StatsPass(p, dayOf);
      DaysStep(p, l, dayOf, st.dayOrder, st.byDay, dayOf(l.startedAt));
    }
  }

  /** After visiting `prefix`, `sourceMap` counts the listens of each source
   *  of `prefix`, in order of first appearance. */
  lemma {:induction false} StatsPassSources(prefix: seq<Listen>, dayOf: int -> int)
    ensures Tally(prefix, SourceOf, SourceAgg, StatsPass(prefix, dayOf).sourceOrder, StatsPass(prefix, dayOf).sourceMap)
    decreases |prefix|
  {
    if prefix != [] {
      var p := prefix[..|prefix| - 1];
      var l := prefix[|prefix| - 1];
      assert prefix == p + [l];
      StatsPassSources(p, dayOf);
      StatsPassSnoc(p, l, dayOf);
      var st := StatsPass(p, dayOf);
      SourcesStep(p, l, st.sourceOrder, st.sourceMap);
    }
  }

  /** Once the loop has visited every listen, `daily` and `sources` read off
   *  its Maps, and the totals, are the statistics `StatsOf` describes. */
  lemma StatsPassResult(items: seq<Listen>, dayOf: int -> int)
    ensures var st := StatsPass(items, dayOf);
            && (forall d :: d in st.dayOrder ==> d in st.byDay)
            && (forall n :: n in st.sourceOrder ==> n in st.sourceMap)
            && Stats(st.totalCount, st.totalDuration, |st.uniqueTitles|,
                     SortDesc(DailyFromMap(st.dayOrder, st.byDay), DailyRank),
                     SortDesc(SourcesFromMap(st.sourceOrder, st.sourceMap), SourceRank))
               == StatsOf(items, dayOf)
  {
    var st := StatsPass(items, dayOf);
    StatsPassTotals(items, dayOf);
    StatsPassDays(items, dayOf);
    StatsPassSources(items, dayOf);
    DaysDone(items, dayOf, st.dayOrder, st.byDay);
    SourcesDone(items, st.sourceOrder, st.sourceMap);
  }

  /** `getUserStats(userId)`: the statistics of the user's listens, in
   *  stored order; the daily and source totals agree with the overall ones. */
  method GetUserStats(db: Store.Db, userId: int, dayOf: int -> int) returns (stats: Stats)
    ensures stats == StatsOf(Group(db.listens, Store.OwnerOf, userId), dayOf)
    ensures stats.totalCount == |Group(db.listens, Store.OwnerOf, userId)|
    ensures Weight(stats.daily, EntryCount) == stats.totalCount
    ensures Weight(stats.daily, EntryDuration) == stats.totalDurationSec
    ensures Weight(stats.sources, SourceCount) == stats.totalCount
    ensures forall i, j :: 0 <= i < j < |stats.daily| ==> stats.daily[i].date < stats.daily[j].date
  {
    var items := Group(db.listens, Store.OwnerOf, userId);
    var byDay: map<int, DayAcc> := map[];
    var dayOrder: seq<int> := [];
    var sourceMap: map<string, int> := map[];
    var sourceOrder: seq<string> := [];
    var totalCount := 0;
    var totalDuration := 0;
    var uniqueTitles: set<SongKey> := {};
    for i := 0 to |items|
      invariant StatsState(totalCount, totalDuration, uniqueTitles, dayOrder, byDay, sourceOrder, sourceMap)
                == StatsPass(items[..i], dayOf)
    {
      var l := items[i];
      ghost var next := StatsVisit(StatsState(totalCount, totalDuration, uniqueTitles, dayOrder, byDay, sourceOrder, sourceMap), l, dayOf);
      assert items[..i + 1] == items[..i] + [l];
      StatsPassSnoc(items[..i], l, dayOf);
      assert StatsPass(items[..i + 1], dayOf) == next;
      totalCount := totalCount + 1;
      var day := dayOf(l.startedAt);
      var dur := Dur(l);
      totalDuration := totalDuration + dur;
      uniqueTitles := uniqueTitles + {SongKeyOf(l)};
      var agg := BucketOf(byDay, day);
      if day !in byDay {
        dayOrder := dayOrder + [day];
      }
      byDay := byDay[day := Bump(agg, l)];
      assert dayOrder == next.dayOrder && byDay == next.byDay;
      var src := SourceOf(l);
      var n := if src in sourceMap then sourceMap[src] else 0;
      if src !in sourceMap {
        sourceOrder := sourceOrder + [src];
      }
      sourceMap := sourceMap[src := n + 1];
      assert sourceOrder == next.sourceOrder && sourceMap == next.sourceMap;
    }
    assert items[..|items|] == items;
    StatsPassResult(items, dayOf);
    var daily := SortDesc(DailyFromMap(dayOrder, byDay), DailyRank);
    var sources := SortDesc(SourcesFromMap(sourceOrder, sourceMap), SourceRank);
    stats := Stats(totalCount, totalDuration, |uniqueTitles|, daily, sources);
    StatsTotals(items, dayOf);
    DailyAscending(items, dayOf);
  }

  /** `getUserTopSongs(userId, range, limit)` at time `nowSec`: the user's
   *  songs within the range, most played first, at most `limit` of them. */
  method GetUserTopSongs(db: Store.Db, userId: int, range: string, limit: nat, nowSec: int) returns (top: seq<TopSong>)
    ensures top == TopSongsOf(Group(db.listens, Store.OwnerOf, userId), range, limit, nowSec)
    ensures |top| <= limit
    ensures Weight(top, SongCount) <= |Group(db.listens, Store.OwnerOf, userId)|
    ensures forall i, j :: 0 <= i < j < |top| ==>
              top[i].count > top[j].count || (top[i].count == top[j].count && top[i].lastPlay >= top[j].lastPlay)
  {
    var since := Since(range, nowSec);
    var items := InWindow(Group(db.listens, Store.OwnerOf, userId), since);
    var songs: map<SongKey, TopSong> := map[];
    var order: seq<SongKey> := [];
    for i := 0 to |items|
      invariant Tally(items[..i], SongKeyOf, SongOf, order, songs)
    {
      var l := items[i];
      ghost var prefix := items[..i];
      assert items[..i + 1] == prefix + [l];
      var k := SongKeyOf(l);
      SongsStep(prefix, l, order, songs);
      ghost var order' := if k in songs then order else order + [k];
      ghost var songs' := songs[k := Played(Entry(songs, l), l)];
      if k !in songs {
        order := order + [k];
      }
      var v := if k in songs then songs[k] else TopSong(l.title, OrEmpty(l.artist), OrEmpty(l.album), 0, 0);
      v := v.(count := v.count + 1, lastPlay := Max(v.lastPlay, l.startedAt));
      assert v == Played(Entry(songs, l), l);
      songs := songs[k := v];
      assert order == order' && songs == songs';
    }
    assert items[..|items|] == items;
    SongsDone(items, order, songs);
    var ranked := SortDesc(SongsFromMap(order, songs), SongRank);
    top := ranked[..Min(limit, |ranked|)];
    TopSongsBounded(Group(db.listens, Store.OwnerOf, userId), range, limit, nowSec);
    TopSongsOrdered(Group(db.listens, Store.OwnerOf, userId), range, limit, nowSec);
  }
}
