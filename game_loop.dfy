/**
 * The game loop of rooms/consumers.py (`start_game_loop`) and the module-level
 * registry `game_states` it writes to.
 *
 * A room's session is the dict stored in `game_states[room_id]`. Python dicts
 * iterate in insertion order and both the per-tick ranking and the final
 * results are built by iterating a dict, so the key order of `current_bpm`
 * (`order`) and of `mae_history` (`maeOrder`) are part of the session value.
 *
 * Each loop of `start_game_loop` is a method below, proved equal to a reference
 * function (Seed, Ticked, Rows, FinalStandings); the properties the game
 * promises are lemmas about those functions. `GameStates` is the registry.
 */
module GameLoop {
  import opened Protocol
  import Sorting

  /** One entry of the roster handed to `start_game_loop`. */
  datatype RosterEntry = RosterEntry(playerId: PlayerId, nickname: string)

  /** A value of `current_bpm`: `{'bpm': ..., 'nickname': ...}`. */
  datatype Sample = Sample(bpm: int, nickname: string)

  /** A heart-rate reading delivered to a live session, nickname already resolved. */
  datatype Reading = Reading(playerId: PlayerId, bpm: int, nickname: string)

  /** The per-room dict stored in `game_states`. */
  datatype Session = Session(
    order: seq<PlayerId>,                 // key order of current_bpm
    current: map<PlayerId, Sample>,       // current_bpm
    bpmHistory: map<PlayerId, seq<int>>,  // bpm_history
    maeOrder: seq<PlayerId>,              // key order of mae_history
    maeHistory: map<PlayerId, seq<int>>,  // mae_history
    targetBpm: int,
    minBpm: int,
    maxBpm: int,
    players: seq<RosterEntry>)

  // ---------------------------------------------------------------- dict order

  predicate Distinct<T(==)>(s: seq<T>) {
    forall i, j :: 0 <= i < j < |s| ==> s[i] != s[j]
  }

  /** `order` lists the keys of `m` once each: the iteration order of a dict. */
  ghost predicate OrderedKeys<V>(order: seq<PlayerId>, m: map<PlayerId, V>) {
    Distinct(order) && forall p :: p in m <==> p in order
  }

  /** Key order after `d[p] = v`: a new key goes last, an old key keeps its place. */
  function Put(order: seq<PlayerId>, p: PlayerId): seq<PlayerId> {
    if p in order then order else order + [p]
  }

  /** A dict write keeps the existing key order and puts a new key last. */
  lemma PutKeepsOrder(order: seq<PlayerId>, p: PlayerId)
    ensures var r := Put(order, p);
      && |order| <= |r| && r[..|order|] == order && p in r
      && (p in order ==> r == order)
      && (p !in order ==> |r| == |order| + 1 && r[|order|] == p)
      && (forall q :: q in r <==> q in order || q == p)
      && (Distinct(order) ==> Distinct(r))
  {
  }

  /**
   * The shape every session keeps: both key orders are exact, and the keys of
   * `mae_history`, fixed at seeding, come first in `current_bpm`'s order.
   */
  ghost predicate ValidSession(s: Session) {
    && OrderedKeys(s.order, s.current)
    && OrderedKeys(s.maeOrder, s.maeHistory)
    && |s.maeOrder| <= |s.order|
    && s.order[..|s.maeOrder|] == s.maeOrder
  }

  /**
   * Every key of `current_bpm` also has an `mae_history` list, so a tick does
   * not fail on `mae_history[player_id]`. A heart rate for a player outside the
   * roster breaks this.
   */
  predicate Tickable(s: Session) {
    s.order == s.maeOrder
  }

  /** The player ids of the roster, in roster order. */
  function Ids(players: seq<RosterEntry>): (ids: seq<PlayerId>)
    ensures |ids| == |players| && forall i :: 0 <= i < |players| ==> ids[i] == players[i].playerId
  {
    if players == [] then [] else Ids(players[..|players| - 1]) + [players[|players| - 1].playerId]
  }

  /** The ids of `ids` without repeats, in order of first occurrence. */
  function Dedup(ids: seq<PlayerId>): (r: seq<PlayerId>)
    ensures Distinct(r)
    ensures forall p :: p in r <==> p in ids
  {
    if ids == [] then [] else Put(Dedup(ids[..|ids| - 1]), ids[|ids| - 1])
  }

  // ---------------------------------------------------------------- arithmetic

  /** `abs(bpm - target_bpm)`. */
  function Diff(bpm: int, target: int): (d: int)
    ensures d >= 0 && (d == bpm - target || d == target - bpm)
  {
    if bpm >= target then bpm - target else target - bpm
  }

  /** Python's `sum` of a list. */
  function Sum(xs: seq<int>): (total: int)
    ensures xs == [] ==> total == 0
    ensures |xs| == 1 ==> total == xs[0]
  {
    if xs == [] then 0 else Sum(xs[..|xs| - 1]) + xs[|xs| - 1]
  }

  /** A sum of non-negative numbers is non-negative and at least each of them. */
  lemma {:induction false} SumBounds(xs: seq<int>)
    requires forall i :: 0 <= i < |xs| ==> 0 <= xs[i]
    ensures 0 <= Sum(xs) && forall i :: 0 <= i < |xs| ==> xs[i] <= Sum(xs)
  {
    if xs != [] {
      SumBounds(xs[..|xs| - 1]);
    }
  }

  /** Python's `min` of a non-empty list. */
  function Min(xs: seq<int>): (m: int)
    requires xs != []
    ensures m in xs && forall x :: x in xs ==> m <= x
  {
    if |xs| == 1 then xs[0]
    else
      var init, last := xs[..|xs| - 1], xs[|xs| - 1];
      var m := Min(init);
      assert forall x :: x in xs ==> x in init || x == last by {
        assert xs == init + [last];
      }
      if last < m then last else m
  }

  /** Python's `max` of a non-empty list. */
  function Max(xs: seq<int>): (m: int)
    requires xs != []
    ensures m in xs && forall x :: x in xs ==> x <= m
  {
    if |xs| == 1 then xs[0]
    else
      var init, last := xs[..|xs| - 1], xs[|xs| - 1];
      var m := Max(init);
      assert forall x :: x in xs ==> x in init || x == last by {
        assert xs == init + [last];
      }
      if last > m then last else m
  }

  /** `min(bpm_list) if bpm_list else 0`. */
  function MinOr0(xs: seq<int>): (m: int)
    ensures xs == [] ==> m == 0
    ensures xs != [] ==> m in xs && forall x :: x in xs ==> m <= x
  {
    if xs == [] then 0 else Min(xs)
  }

  /** `max(bpm_list) if bpm_list else 0`. */
  function MaxOr0(xs: seq<int>): (m: int)
    ensures xs == [] ==> m == 0
    ensures xs != [] ==> m in xs && forall x :: x in xs ==> x <= m
  {
    if xs == [] then 0 else Max(xs)
  }

  /** The "no data" average. */
  const NoDataAverage: real := 999.0

  /** `sum(mae_list) / len(mae_list) if mae_list else 999`, without rounding. */
  function AverageMae(xs: seq<int>): (avg: real)
    ensures xs == [] ==> avg == NoDataAverage
    ensures xs != [] ==> avg * (|xs| as real) == Sum(xs) as real
  {
    if xs == [] then NoDataAverage else Sum(xs) as real / |xs| as real
  }

  // ---------------------------------------------------------------- seeding

  /**
   * The session `start_game_loop` creates: the dict literal, then for every
   * roster entry in order `current_bpm[id] = {target, nickname}` and fresh empty
   * `bpm_history[id]` and `mae_history[id]`.
   */
  function Seed(players: seq<RosterEntry>, target: int, minBpm: int, maxBpm: int): (s: Session)
    ensures ValidSession(s) && Tickable(s)
    ensures forall p :: p in s.current <==> p in Ids(players)
    ensures s.targetBpm == target && s.minBpm == minBpm && s.maxBpm == maxBpm && s.players == players
  {
    if players == [] then Session([], map[], map[], [], map[], target, minBpm, maxBpm, players)
    else
      var s := Seed(players[..|players| - 1], target, minBpm, maxBpm);
      var p := players[|players| - 1];
      Session(
        Put(s.order, p.playerId), s.current[p.playerId := Sample(target, p.nickname)],
        s.bpmHistory[p.playerId := []],
        Put(s.maeOrder, p.playerId), s.maeHistory[p.playerId := []],
        target, minBpm, maxBpm, players)
  }

  // ---------------------------------------------------------------- heart rate

  /**
   * The write a `heart_rate` message makes into a live session:
   * `current_bpm[id] = {bpm, nickname}` and `bpm_history.setdefault(id, []).append(bpm)`.
   */
  function WithHeartRate(s: Session, pid: PlayerId, bpm: int, nickname: string): (t: Session)
    requires ValidSession(s)
    ensures ValidSession(t)
    ensures Tickable(s) && pid in s.maeHistory ==> Tickable(t)
  {
    var t := s.(
      order := Put(s.order, pid),
      current := s.current[pid := Sample(bpm, nickname)],
      bpmHistory := s.bpmHistory[pid := (if pid in s.bpmHistory then s.bpmHistory[pid] else []) + [bpm]]);
    assert t.order[..|t.maeOrder|] == t.maeOrder by {
      assert s.order[..|s.maeOrder|] == s.maeOrder;
      assert t.order[..|s.order|] == s.order;
    }
    t
  }

  /** The readings that arrive between two ticks, applied in arrival order. */
  function ApplyReadings(s: Session, readings: seq<Reading>): (t: Session)
    requires ValidSession(s)
    ensures ValidSession(t)
    ensures t.maeHistory == s.maeHistory && t.maeOrder == s.maeOrder && t.targetBpm == s.targetBpm
    ensures Tickable(s) && (forall r :: r in readings ==> r.playerId in s.maeHistory) ==> Tickable(t)
  {
    if readings == [] then s
    else
      var r := readings[|readings| - 1];
      WithHeartRate(ApplyReadings(s, readings[..|readings| - 1]), r.playerId, r.bpm, r.nickname)
  }

  // ---------------------------------------------------------------- one tick

  /** The ranking row of player `p`, before sorting. */
  function Row(s: Session, p: PlayerId): (e: RankEntry)
    requires p in s.current
    ensures e.playerId == p && Sample(e.bpm, e.nickname) == s.current[p]
    ensures e.diff == Diff(e.bpm, s.targetBpm)
  {
    RankEntry(p, s.current[p].nickname, s.current[p].bpm, Diff(s.current[p].bpm, s.targetBpm))
  }

  /** The unsorted ranking: one row per key of `current_bpm`, in key order. */
  function Rows(s: Session): (rows: seq<RankEntry>)
    requires ValidSession(s)
    ensures |rows| == |s.order|
    ensures forall i :: 0 <= i < |rows| ==> rows[i].playerId == s.order[i] && rows[i].diff == Diff(rows[i].bpm, s.targetBpm)
  {
    seq(|s.order|, i requires 0 <= i < |s.order| => Row(s, s.order[i]))
  }

  /** The ranking order: `key=lambda x: (x['diff'], x['bpm'])`. */
  predicate RankLe(a: RankEntry, b: RankEntry): (le: bool)
    // `list.sort` compares keys only with `<`: a may stay before b iff b's key tuple is not smaller
    ensures le <==> !(b.diff < a.diff || (b.diff == a.diff && b.bpm < a.bpm))
  {
    a.diff < b.diff || (a.diff == b.diff && a.bpm <= b.bpm)
  }

  /** The session after one tick: every `mae_history` list gets this tick's diff. */
  function Ticked(s: Session): (t: Session)
    requires ValidSession(s) && Tickable(s)
    ensures ValidSession(t) && Tickable(t)
    ensures t.maeHistory.Keys == s.maeHistory.Keys
    ensures forall p :: p in s.maeHistory ==> |t.maeHistory[p]| == |s.maeHistory[p]| + 1
  {
    s.(maeHistory := map p | p in s.maeHistory :: s.maeHistory[p] + [Diff(s.current[p].bpm, s.targetBpm)])
  }

  // ---------------------------------------------------------------- the whole game

  /** Everything every heart rate of `feed` names has an `mae_history` list in `s`. */
  ghost predicate FeedWithin(feed: seq<seq<Reading>>, s: Session) {
    forall k, r :: 0 <= k < |feed| && r in feed[k] ==> r.playerId in s.maeHistory
  }

  /**
   * `|feed|` ticks: before tick k the readings `feed[k]` arrive, then the tick
   * appends the diffs and publishes the sorted ranking.
   */
  function PlayTicks(s: Session, feed: seq<seq<Reading>>): (r: (Session, seq<Event>))
    requires ValidSession(s) && Tickable(s) && FeedWithin(feed, s)
    ensures ValidSession(r.0) && Tickable(r.0)
    ensures r.0.maeHistory.Keys == s.maeHistory.Keys && r.0.maeOrder == s.maeOrder
    ensures r.0.targetBpm == s.targetBpm
    ensures forall p :: p in s.maeHistory ==> |r.0.maeHistory[p]| == |s.maeHistory[p]| + |feed|
    ensures |r.1| == |feed|
    decreases |feed|
  {
    if feed == [] then (s, [])
    else
      var before := feed[..|feed| - 1];
      assert FeedWithin(before, s);
      var played := PlayTicks(s, before);
      var s1 := ApplyReadings(played.0, feed[|feed| - 1]);
      (Ticked(s1), played.1 + [BpmUpdate(Sorting.Sort(Rows(s1), RankLe))])
  }

  /** Every event of `events` is a `bpm_update`. */
  predicate AllRankings(events: seq<Event>) {
    forall k :: 0 <= k < |events| ==> events[k].BpmUpdate?
  }

  lemma AllRankingsSnoc(events: seq<Event>, rankings: seq<RankEntry>)
    requires AllRankings(events)
    ensures AllRankings(events + [BpmUpdate(rankings)])
  {
    var e := events + [BpmUpdate(rankings)];
    assert forall k :: 0 <= k < |events| ==> e[k] == events[k];
  }

  /** Every event the seconds publish is a `bpm_update`. */
  lemma {:induction false} PlayTicksPublishesRankings(s: Session, feed: seq<seq<Reading>>)
    requires ValidSession(s) && Tickable(s) && FeedWithin(feed, s)
    ensures AllRankings(PlayTicks(s, feed).1)
    decreases |feed|
  {
    if feed != [] {
      var before := feed[..|feed| - 1];
      assert FeedWithin(before, s);
      PlayTicksPublishesRankings(s, before);
      var played := PlayTicks(s, before);
      var s1 := ApplyReadings(played.0, feed[|feed| - 1]);
      AllRankingsSnoc(played.1, Sorting.Sort(Rows(s1), RankLe));
    }
  }

  /** Playing the first k + 1 seconds of `feed` is playing the first k, then one more. */
  lemma PlayTicksStep(s: Session, feed: seq<seq<Reading>>, k: nat)
    requires ValidSession(s) && Tickable(s) && FeedWithin(feed, s) && k < |feed|
    ensures FeedWithin(feed[..k], s) && FeedWithin(feed[..k + 1], s)
    ensures forall r :: r in feed[k] ==> r.playerId in PlayTicks(s, feed[..k]).0.maeHistory
    ensures PlayTicks(s, feed[..k + 1]).0 == Ticked(ApplyReadings(PlayTicks(s, feed[..k]).0, feed[k]))
    ensures PlayTicks(s, feed[..k + 1]).1
      == PlayTicks(s, feed[..k]).1 + [BpmUpdate(Sorting.Sort(Rows(ApplyReadings(PlayTicks(s, feed[..k]).0, feed[k])), RankLe))]
  {
    var prefix := feed[..k + 1];
    assert prefix[..k] == feed[..k] && prefix[k] == feed[k];
    forall j: int, r: Reading | 0 <= j < |prefix| && r in prefix[j] ensures r.playerId in s.maeHistory {
      assert prefix[j] == feed[j];
    }
    forall j: int, r: Reading | 0 <= j < k && r in feed[..k][j] ensures r.playerId in s.maeHistory {
      assert feed[..k][j] == feed[j];
    }
  }

  /** `cur` and `updates` are the session and the events after the first `k` seconds of `feed`. */
  ghost predicate PlayedUpTo(s: Session, feed: seq<seq<Reading>>, k: nat, cur: Session, updates: seq<Event>)
    requires ValidSession(s) && Tickable(s)
  {
    && k <= |feed|
    && FeedWithin(feed[..k], s)
    && cur == PlayTicks(s, feed[..k]).0
    && updates == PlayTicks(s, feed[..k]).1
  }

  /** The step of the seconds loop: one more second played keeps `PlayedUpTo`. */
  lemma PlayTicksNext(s: Session, feed: seq<seq<Reading>>, k: nat, cur: Session, updates: seq<Event>)
    requires ValidSession(s) && Tickable(s) && FeedWithin(feed, s) && k < |feed|
    requires PlayedUpTo(s, feed, k, cur, updates)
    ensures ValidSession(cur) && Tickable(cur)
    ensures forall r :: r in feed[k] ==> r.playerId in cur.maeHistory
    ensures PlayedUpTo(s, feed, k + 1, Ticked(ApplyReadings(cur, feed[k])),
      updates + [BpmUpdate(Sorting.Sort(Rows(ApplyReadings(cur, feed[k])), RankLe))])
  {
    PlayTicksStep(s, feed, k);
  }

  // ---------------------------------------------------------------- final results

  /** The result row of player `p` (a key of `mae_history`). */
  function StandingOf(s: Session, p: PlayerId): (st: Standing)
    requires p in s.maeHistory
    ensures st.playerId == p && st.avgMae == AverageMae(s.maeHistory[p])
    ensures st.nickname == (if p in s.current then s.current[p].nickname else "Unknown")
    ensures p !in s.bpmHistory || s.bpmHistory[p] == [] ==> st.minBpm == 0 && st.maxBpm == 0
    ensures p in s.bpmHistory && s.bpmHistory[p] != [] ==>
      && st.minBpm in s.bpmHistory[p] && st.maxBpm in s.bpmHistory[p]
      && forall b :: b in s.bpmHistory[p] ==> st.minBpm <= b <= st.maxBpm
  {
    var bpms := if p in s.bpmHistory then s.bpmHistory[p] else [];
    Standing(
      p,
      if p in s.current then s.current[p].nickname else "Unknown",
      MinOr0(bpms), MaxOr0(bpms), AverageMae(s.maeHistory[p]))
  }

  /** The unsorted results: one row per key of `mae_history`, in key order. */
  function Standings(s: Session): (rows: seq<Standing>)
    requires ValidSession(s)
    ensures |rows| == |s.maeOrder|
    ensures forall i :: 0 <= i < |rows| ==> rows[i].playerId == s.maeOrder[i]
  {
    seq(|s.maeOrder|, i requires 0 <= i < |s.maeOrder| => StandingOf(s, s.maeOrder[i]))
  }

  /** The results order: `key=lambda x: x['avg_mae']`. */
  predicate StandingLe(a: Standing, b: Standing): (le: bool)
    // a may stay before b iff b's key is not smaller
    ensures le <==> !(b.avgMae < a.avgMae)
  {
    a.avgMae <= b.avgMae
  }

  /** `rank = i + 1` for the result at position i. */
  function Ranked(sorted: seq<Standing>): (ranked: seq<RankedStanding>)
    ensures |ranked| == |sorted|
    ensures forall i :: 0 <= i < |ranked| ==> ranked[i].standing == sorted[i] && 1 <= ranked[i].rank <= |sorted|
    ensures forall i, j :: 0 <= i < j < |ranked| ==> ranked[i].rank < ranked[j].rank
  {
    seq(|sorted|, i requires 0 <= i < |sorted| => RankedStanding(sorted[i], i + 1))
  }

  /** The `game_end` results of a session. */
  function FinalStandings(s: Session): (results: seq<RankedStanding>)
    requires ValidSession(s)
    ensures |results| == |s.maeOrder|
    ensures forall i :: 0 <= i < |results| ==> results[i].rank == i + 1 && results[i].standing in Standings(s)
  {
    var sorted := Sorting.Sort(Standings(s), StandingLe);
    assert forall i :: 0 <= i < |sorted| ==> sorted[i] in multiset(Standings(s));
    Ranked(sorted)
  }

  /** Every event `start_game_loop` publishes, in order. */
  function GameOutcome(players: seq<RosterEntry>, target: int, minBpm: int, maxBpm: int, feed: seq<seq<Reading>>): (events: seq<Event>)
    requires FeedWithin(feed, Seed(players, target, minBpm, maxBpm))
    ensures |events| == |feed| + 1
    ensures forall k :: 0 <= k < |feed| ==> events[k].BpmUpdate?
    ensures events[|feed|].GameEnd?
  {
    PlayTicksPublishesRankings(Seed(players, target, minBpm, maxBpm), feed);
    var played := PlayTicks(Seed(players, target, minBpm, maxBpm), feed);
    assert forall k :: 0 <= k < |feed| ==> (played.1 + [GameEnd(FinalStandings(played.0))])[k] == played.1[k];
    played.1 + [GameEnd(FinalStandings(played.0))]
  }

  lemma GameOutcomeSplits(players: seq<RosterEntry>, target: int, minBpm: int, maxBpm: int, feed: seq<seq<Reading>>)
    requires FeedWithin(feed, Seed(players, target, minBpm, maxBpm))
    ensures GameOutcome(players, target, minBpm, maxBpm, feed)
      == PlayTicks(Seed(players, target, minBpm, maxBpm), feed).1
         + [GameEnd(FinalStandings(PlayTicks(Seed(players, target, minBpm, maxBpm), feed).0))]
  {
  }

  // ---------------------------------------------------------------- the loops

  /** The seeding loop of `start_game_loop`. */
  method SeedSession(players: seq<RosterEntry>, target: int, minBpm: int, maxBpm: int) returns (s: Session)
    ensures s == Seed(players, target, minBpm, maxBpm)
  {
    s := Session([], map[], map[], [], map[], target, minBpm, maxBpm, players);
    for i := 0 to |players|
      invariant s == Seed(players[..i], target, minBpm, maxBpm).(players := players)
    {
      var id, nickname := players[i].playerId, players[i].nickname;
      SeedGrows(players, target, minBpm, maxBpm, i);
      s := s.(
        order := Put(s.order, id), current := s.current[id := Sample(target, nickname)],
        bpmHistory := s.bpmHistory[id := []],
        maeOrder := Put(s.maeOrder, id), maeHistory := s.maeHistory[id := []]);
    }
    assert players[..|players|] == players;
  }

  lemma SeedGrows(players: seq<RosterEntry>, target: int, minBpm: int, maxBpm: int, i: nat)
    requires i < |players|
    ensures Seed(players[..i + 1], target, minBpm, maxBpm).(players := players)
      == Seed(players[..i], target, minBpm, maxBpm).(
           order := Put(Seed(players[..i], target, minBpm, maxBpm).order, players[i].playerId),
           current := Seed(players[..i], target, minBpm, maxBpm).current[players[i].playerId := Sample(target, players[i].nickname)],
           bpmHistory := Seed(players[..i], target, minBpm, maxBpm).bpmHistory[players[i].playerId := []],
           maeOrder := Put(Seed(players[..i], target, minBpm, maxBpm).maeOrder, players[i].playerId),
           maeHistory := Seed(players[..i], target, minBpm, maxBpm).maeHistory[players[i].playerId := []],
           players := players)
  {
    assert players[..i + 1][..i] == players[..i];
  }

  lemma RowsGrow(s: Session, i: nat)
    requires ValidSession(s) && i < |s.order|
    ensures Rows(s)[..i + 1] == Rows(s)[..i] + [Row(s, s.order[i])]
  {
  }

  /** `mae` is `mae_history` part-way through a tick: the first `i` keys of `order` have their diff. */
  ghost predicate DiffsRecorded(s: Session, mae: map<PlayerId, seq<int>>, i: nat)
    requires ValidSession(s) && Tickable(s)
  {
    && i <= |s.order|
    && mae.Keys == s.maeHistory.Keys
    && (forall k :: 0 <= k < i ==>
          mae[s.order[k]] == s.maeHistory[s.order[k]] + [Diff(s.current[s.order[k]].bpm, s.targetBpm)])
    && (forall k :: i <= k < |s.order| ==> mae[s.order[k]] == s.maeHistory[s.order[k]])
  }

  /** Appending the diff of key i moves the tick one key on. */
  lemma RecordDiff(s: Session, mae: map<PlayerId, seq<int>>, i: nat)
    requires ValidSession(s) && Tickable(s) && i < |s.order| && DiffsRecorded(s, mae, i)
    ensures s.order[i] in mae
    ensures DiffsRecorded(s, mae[s.order[i] := mae[s.order[i]] + [Diff(s.current[s.order[i]].bpm, s.targetBpm)]], i + 1)
  {
    assert forall k :: 0 <= k < |s.order| && k != i ==> s.order[k] != s.order[i];
  }

  /** Once every key has its diff, the map is the ticked `mae_history`. */
  lemma TickedByKeys(s: Session, mae: map<PlayerId, seq<int>>)
    requires ValidSession(s) && Tickable(s) && DiffsRecorded(s, mae, |s.order|)
    ensures s.(maeHistory := mae) == Ticked(s)
  {
    forall p | p in s.maeHistory ensures mae[p] == s.maeHistory[p] + [Diff(s.current[p].bpm, s.targetBpm)] {
      var k :| 0 <= k < |s.order| && s.order[k] == p;
    }
  }

  /** One pass of the tick loop: record every diff, build the rows, sort them. */
  method TickSession(s: Session) returns (t: Session, rankings: seq<RankEntry>)
    requires ValidSession(s) && Tickable(s)
    ensures t == Ticked(s)
    ensures rankings == Sorting.Sort(Rows(s), RankLe)
  {
    var mae := s.maeHistory;
    var rows: seq<RankEntry> := [];
    for i := 0 to |s.order|
      invariant rows == Rows(s)[..i]
      invariant DiffsRecorded(s, mae, i)
    {
      var id := s.order[i];
      var sample := s.current[id];
      var diff := Diff(sample.bpm, s.targetBpm);
      RecordDiff(s, mae, i);
      mae := mae[id := mae[id] + [diff]];
      RowsGrow(s, i);
      rows := rows + [RankEntry(id, sample.nickname, sample.bpm, diff)];
    }
    TickedByKeys(s, mae);
    t := s.(maeHistory := mae);
    assert rows == Rows(s);
    rankings := Sorting.Sort(rows, RankLe);
  }

  /** One pass of the results loop: the mean error, bpm range and nickname of player `id`. */
  method ResultRow(s: Session, id: PlayerId) returns (row: Standing)
    requires id in s.maeHistory
    ensures row == StandingOf(s, id)
  {
    var maeList := s.maeHistory[id];
    var avg := if maeList != [] then Sum(maeList) as real / |maeList| as real else NoDataAverage;
    var bpmList := if id in s.bpmHistory then s.bpmHistory[id] else [];
    var lo := if bpmList != [] then Min(bpmList) else 0;
    var hi := if bpmList != [] then Max(bpmList) else 0;
    var nickname := if id in s.current then s.current[id].nickname else "Unknown";
    row := Standing(id, nickname, lo, hi, avg);
  }

  /** The results loop of `start_game_loop`: one row per `mae_history` key, in key order. */
  method CollectStandings(s: Session) returns (standings: seq<Standing>)
    requires ValidSession(s)
    ensures standings == Standings(s)
  {
    standings := [];
    for i := 0 to |s.maeOrder|
      invariant standings == Standings(s)[..i]
    {
      var row := ResultRow(s, s.maeOrder[i]);
      assert Standings(s)[i] == row;
      assert Standings(s)[..i + 1] == Standings(s)[..i] + [row];
      standings := standings + [row];
    }
    assert Standings(s)[..|s.maeOrder|] == Standings(s);
  }

  /** The results of `start_game_loop`: collected, sorted by mean error, then ranked. */
  method FinalResults(s: Session) returns (results: seq<RankedStanding>)
    requires ValidSession(s)
    ensures results == FinalStandings(s)
  {
    var standings := CollectStandings(s);
    var sorted := Sorting.Sort(standings, StandingLe);
    results := AssignRanks(sorted);
  }

  /** `for i, result in enumerate(results): result['rank'] = i + 1`. */
  method AssignRanks(sorted: seq<Standing>) returns (ranked: seq<RankedStanding>)
    ensures |ranked| == |sorted|
    ensures forall i :: 0 <= i < |sorted| ==> ranked[i] == RankedStanding(sorted[i], i + 1)
    ensures ranked == Ranked(sorted)
  {
    ranked := [];
    for i := 0 to |sorted|
      invariant |ranked| == i
      invariant forall k :: 0 <= k < i ==> ranked[k] == RankedStanding(sorted[k], k + 1)
    {
      ranked := ranked + [RankedStanding(sorted[i], i + 1)];
    }
  }

  // ---------------------------------------------------------------- the registry

  /** Replacing one entry of a map leaves every other entry as it was. */
  lemma UpdateKeepsOthers<K, V>(m: map<K, V>, k: K, v: V)
    ensures m[k := v] - {k} == m - {k}
  {
  }

  /** The module-level dict `game_states`: room id to live session. */
  class GameStates {
    var rooms: map<RoomId, Session>

    ghost predicate Valid()
      reads this
    {
      forall r :: r in rooms ==> ValidSession(rooms[r])
    }

    /** `game_states = {}`. */
    constructor ()
      ensures Valid() && rooms == map[]
    {
      rooms := map[];
    }

    /** The seeding step; a session already registered for the room is overwritten. */
    method StartGame(room: RoomId, players: seq<RosterEntry>, target: int, minBpm: int, maxBpm: int)
      requires Valid()
      modifies this
      ensures Valid()
      ensures rooms == old(rooms)[room := Seed(players, target, minBpm, maxBpm)]
    {
      var s := SeedSession(players, target, minBpm, maxBpm);
      rooms := rooms[room := s];
    }

    /** The write a `heart_rate` message makes into the room's live session. */
    method RecordHeartRate(room: RoomId, pid: PlayerId, bpm: int, nickname: string)
      requires Valid() && room in rooms
      modifies this
      ensures Valid()
      ensures rooms == old(rooms)[room := WithHeartRate(old(rooms)[room], pid, bpm, nickname)]
    {
      rooms := rooms[room := WithHeartRate(rooms[room], pid, bpm, nickname)];
    }

    /**
     * The heart rates that arrive during one tick's sleep, in arrival order:
     * each is the write `RecordHeartRate` makes, as `receive` handles it.
     */
    method ApplyFeed(room: RoomId, readings: seq<Reading>)
      requires Valid() && room in rooms
      modifies this
      ensures Valid()
      ensures rooms == old(rooms)[room := ApplyReadings(old(rooms)[room], readings)]
    {
      rooms := rooms[room := ApplyReadings(rooms[room], readings)];
    }

    /** One tick of the game loop; returns the `bpm_update` event it publishes. */
    method Tick(room: RoomId) returns (event: Event)
      requires Valid() && room in rooms && Tickable(rooms[room])
      modifies this
      ensures Valid()
      ensures rooms == old(rooms)[room := Ticked(old(rooms)[room])]
      ensures event == BpmUpdate(Sorting.Sort(Rows(old(rooms)[room]), RankLe))
    {
      var t, rankings := TickSession(rooms[room]);
      rooms := rooms[room := t];
      event := BpmUpdate(rankings);
    }

    /** The end of the game: the `game_end` event, then `del game_states[room_id]`. */
    method Finish(room: RoomId) returns (event: Event)
      requires Valid() && room in rooms
      modifies this
      ensures Valid()
      ensures rooms == old(rooms) - {room}
      ensures event == GameEnd(FinalStandings(old(rooms)[room]))
    {
      var results := FinalResults(rooms[room]);
      event := GameEnd(results);
      rooms := rooms - {room};
    }

    /** One second of the game loop: the heart rates that arrive during the sleep, then the tick. */
    method PlayTick(room: RoomId, readings: seq<Reading>) returns (event: Event)
      requires Valid() && room in rooms && Tickable(rooms[room])
      requires forall r :: r in readings ==> r.playerId in rooms[room].maeHistory
      modifies this
      ensures Valid()
      ensures rooms == old(rooms)[room := Ticked(ApplyReadings(old(rooms)[room], readings))]
      ensures event == BpmUpdate(Sorting.Sort(Rows(ApplyReadings(old(rooms)[room], readings)), RankLe))
    {
      var arrived := ApplyReadings(rooms[room], readings);
      var t, rankings := TickSession(arrived);
      rooms := rooms[room := t];
      event := BpmUpdate(rankings);
    }

    /** Second `second` of `feed` played on top of the first `second` seconds from `start`. */
    method PlaySecond(room: RoomId, ghost start: Session, feed: seq<seq<Reading>>, second: nat, updates: seq<Event>)
        returns (next: seq<Event>)
      requires Valid() && room in rooms && ValidSession(start) && Tickable(start)
      requires FeedWithin(feed, start) && second < |feed|
      requires PlayedUpTo(start, feed, second, rooms[room], updates)
      modifies this
      ensures Valid() && room in rooms
      ensures rooms - {room} == old(rooms) - {room}
      ensures PlayedUpTo(start, feed, second + 1, rooms[room], next)
    {
      PlayTicksNext(start, feed, second, rooms[room], updates);
      var event := PlayTick(room, feed[second]);
      UpdateKeepsOthers(old(rooms), room, rooms[room]);
      next := updates + [event];
    }

    /** The `for second in range(total_time)` loop: one PlayTick per element of `feed`. */
    method PlayAll(room: RoomId, feed: seq<seq<Reading>>) returns (updates: seq<Event>)
      requires Valid() && room in rooms && Tickable(rooms[room])
      requires FeedWithin(feed, rooms[room])
      modifies this
      ensures Valid() && room in rooms
      ensures rooms - {room} == old(rooms) - {room}
      ensures rooms[room] == PlayTicks(old(rooms)[room], feed).0
      ensures updates == PlayTicks(old(rooms)[room], feed).1
    {
      ghost var start := rooms[room];
      updates := [];
      assert feed[..0] == [];
      for second := 0 to |feed|
        invariant Valid() && room in rooms
        invariant rooms - {room} == old(rooms) - {room}
        invariant PlayedUpTo(start, feed, second, rooms[room], updates)
      {
        updates := PlaySecond(room, start, feed, second, updates);
      }
      assert feed[..|feed|] == feed;
    }

    /**
     * `start_game_loop`: seed, then `totalTime` ticks, each preceded by the
     * heart rates `feed` says arrive during that tick's one-second sleep, then
     * the results and the teardown. Returns every event published to the room.
     */
    method RunGame(room: RoomId, totalTime: nat, minBpm: int, maxBpm: int, target: int,
                   players: seq<RosterEntry>, feed: seq<seq<Reading>>) returns (published: seq<Event>)
      requires Valid()
      requires |feed| == totalTime
      requires FeedWithin(feed, Seed(players, target, minBpm, maxBpm))
      modifies this
      ensures Valid()
      ensures rooms == old(rooms) - {room}
      ensures published == GameOutcome(players, target, minBpm, maxBpm, feed)
    {
      StartGame(room, players, target, minBpm, maxBpm);
      UpdateKeepsOthers(old(rooms), room, Seed(players, target, minBpm, maxBpm));
      var updates := PlayAll(room, feed);
      var event := Finish(room);
      published := updates + [event];
      GameOutcomeSplits(players, target, minBpm, maxBpm, feed);
    }
  }
}
