/**
 * What `start_game_loop` promises, proved about the reference functions of
 * GameLoop: the seeded session, the heart-rate write, the per-tick ranking,
 * the final results, and the whole game as seen from the room.
 */
module GameProperties {
  import opened Protocol
  import opened GameLoop
  import Sorting

  /** Entry i is the last roster entry with its player id. */
  predicate LastOf(players: seq<RosterEntry>, i: int)
    requires 0 <= i < |players|
  {
    forall j :: i < j < |players| ==> players[j].playerId != players[i].playerId
  }

  /**
   * Seeding gives `current_bpm` one key per roster id, in order of first
   * appearance, and `mae_history` the same keys in the same order.
   */
  lemma {:induction false} SeedOrder(players: seq<RosterEntry>, target: int, minBpm: int, maxBpm: int)
    ensures var s := Seed(players, target, minBpm, maxBpm);
      s.order == Dedup(Ids(players)) && s.maeOrder == s.order
    decreases |players|
  {
    if players != [] {
      var init := players[..|players| - 1];
      SeedOrder(init, target, minBpm, maxBpm);
      assert Ids(players)[..|players| - 1] == Ids(init);
    }
  }

  /** No sample has arrived and no tick has run: samples at the target, histories empty. */
  ghost predicate Fresh(s: Session) {
    && (forall p :: p in s.current ==> s.current[p].bpm == s.targetBpm)
    && (forall p :: p in s.bpmHistory <==> p in s.current)
    && (forall p :: p in s.bpmHistory ==> s.bpmHistory[p] == [])
    && (forall p :: p in s.maeHistory <==> p in s.current)
    && (forall p :: p in s.maeHistory ==> s.maeHistory[p] == [])
  }

  /** Every seeded sample is at the target bpm, and every seeded history is empty. */
  lemma {:induction false} SeedAtTarget(players: seq<RosterEntry>, target: int, minBpm: int, maxBpm: int)
    ensures Fresh(Seed(players, target, minBpm, maxBpm))
    decreases |players|
  {
    if players != [] {
      var init, id := players[..|players| - 1], players[|players| - 1].playerId;
      SeedAtTarget(init, target, minBpm, maxBpm);
      var s, s' := Seed(players, target, minBpm, maxBpm), Seed(init, target, minBpm, maxBpm);
      assert s.current == s'.current[id := Sample(target, players[|players| - 1].nickname)];
      assert s.bpmHistory == s'.bpmHistory[id := []];
      assert s.maeHistory == s'.maeHistory[id := []];
      forall p | p in s.current ensures s.current[p].bpm == target {
        if p != id { assert p in s'.current; }
      }
      forall p ensures (p in s.bpmHistory <==> p in s.current) && (p in s.maeHistory <==> p in s.current) {
        if p != id { assert p in s'.current <==> p in s'.bpmHistory; }
      }
      forall p | p in s.bpmHistory ensures s.bpmHistory[p] == [] {
        if p != id { assert p in s'.bpmHistory; }
      }
      forall p | p in s.maeHistory ensures s.maeHistory[p] == [] {
        if p != id { assert p in s'.maeHistory; }
      }
    }
  }

  /** Every seeded sample carries the roster nickname; when an id repeats, the last one. */
  lemma {:induction false} SeedNicknames(players: seq<RosterEntry>, target: int, minBpm: int, maxBpm: int)
    ensures var s := Seed(players, target, minBpm, maxBpm);
      forall i :: 0 <= i < |players| && LastOf(players, i) ==>
        players[i].playerId in s.current && s.current[players[i].playerId].nickname == players[i].nickname
    decreases |players|
  {
    if players != [] {
      var init := players[..|players| - 1];
      SeedNicknames(init, target, minBpm, maxBpm);
      var s := Seed(players, target, minBpm, maxBpm);
      var s' := Seed(init, target, minBpm, maxBpm);
      forall i | 0 <= i < |players| - 1 && LastOf(players, i)
        ensures players[i].playerId in s.current && s.current[players[i].playerId].nickname == players[i].nickname
      {
        assert players[|players| - 1].playerId != players[i].playerId;
        assert LastOf(init, i) by {
          forall j | i < j < |init| ensures init[j].playerId != init[i].playerId {
            assert players[j].playerId != players[i].playerId;
          }
        }
        assert init[i] == players[i];
        assert s.current[players[i].playerId] == s'.current[players[i].playerId];
      }
    }
  }

  /**
   * A heart rate in a live session sets the player's current sample, appends
   * the bpm to the player's history (creating it), and changes nothing else.
   */
  lemma HeartRateTouchesOnlyItsPlayer(s: Session, pid: PlayerId, bpm: int, nickname: string)
    requires ValidSession(s)
    ensures var t := WithHeartRate(s, pid, bpm, nickname);
      && t.current[pid] == Sample(bpm, nickname)
      && t.bpmHistory[pid] == (if pid in s.bpmHistory then s.bpmHistory[pid] else []) + [bpm]
      && t.order == (if pid in s.current then s.order else s.order + [pid])
      && (forall q :: q != pid ==> (q in t.current <==> q in s.current))
      && (forall q :: q != pid && q in s.current ==> t.current[q] == s.current[q])
      && (forall q :: q != pid ==> (q in t.bpmHistory <==> q in s.bpmHistory))
      && (forall q :: q != pid && q in s.bpmHistory ==> t.bpmHistory[q] == s.bpmHistory[q])
      && t.maeOrder == s.maeOrder && t.maeHistory == s.maeHistory
      && t.targetBpm == s.targetBpm && t.minBpm == s.minBpm && t.maxBpm == s.maxBpm && t.players == s.players
  {
  }

  lemma RankLeIsTotalPreorder()
    ensures Sorting.TotalPreorder(RankLe)
  {
  }

  lemma StandingLeIsTotalPreorder()
    ensures Sorting.TotalPreorder(StandingLe)
  {
  }

  /**
   * Each tick records one diff `|bpm - target|` for every player and leaves
   * the rest of the session as it was.
   */
  lemma TickRecordsOneDiffEach(s: Session)
    requires ValidSession(s) && Tickable(s)
    ensures var t := Ticked(s);
      && t == s.(maeHistory := t.maeHistory)
      && (forall p :: p in t.maeHistory <==> p in s.current)
      && (forall p :: p in s.current ==>
            |t.maeHistory[p]| == |s.maeHistory[p]| + 1
            && t.maeHistory[p][..|s.maeHistory[p]|] == s.maeHistory[p]
            && t.maeHistory[p][|s.maeHistory[p]|] == Diff(s.current[p].bpm, s.targetBpm))
  {
  }

  /**
   * A tick's ranking is a permutation of the rows of `current_bpm`, one row
   * per key, so every player of the session appears in it.
   */
  lemma RankingIsPermutation(s: Session)
    requires ValidSession(s)
    ensures |Sorting.Sort(Rows(s), RankLe)| == |s.current|
    ensures multiset(Sorting.Sort(Rows(s), RankLe)) == multiset(Rows(s))
    ensures forall k :: 0 <= k < |s.order| ==> Row(s, s.order[k]) in Sorting.Sort(Rows(s), RankLe)
  {
    var rows := Rows(s);
    var r := Sorting.Sort(rows, RankLe);
    assert |s.current| == |s.order| by {
      assert s.current.Keys == set p | p in s.order;
      DistinctCard(s.order);
    }
    forall k | 0 <= k < |s.order| ensures Row(s, s.order[k]) in r {
      assert rows[k] in multiset(rows);
    }
  }

  /** Every row of a tick's ranking is the row of one of the session's players, with `diff = |bpm - target|`. */
  lemma RankingRows(s: Session)
    requires ValidSession(s)
    ensures forall i :: 0 <= i < |Sorting.Sort(Rows(s), RankLe)| ==>
      var e := Sorting.Sort(Rows(s), RankLe)[i];
      e.playerId in s.current && e == Row(s, e.playerId) && e.diff == Diff(e.bpm, s.targetBpm)
  {
    var rows := Rows(s);
    var r := Sorting.Sort(rows, RankLe);
    forall i | 0 <= i < |r|
      ensures r[i].playerId in s.current && r[i] == Row(s, r[i].playerId)
    {
      assert r[i] in multiset(rows);
    }
  }

  /** A tick's ranking is sorted by diff, then by bpm. */
  lemma RankingSorted(s: Session)
    requires ValidSession(s)
    ensures forall i, j :: 0 <= i < j < |Sorting.Sort(Rows(s), RankLe)| ==>
      var a, b := Sorting.Sort(Rows(s), RankLe)[i], Sorting.Sort(Rows(s), RankLe)[j];
      a.diff < b.diff || (a.diff == b.diff && a.bpm <= b.bpm)
  {
    RankLeIsTotalPreorder();
    Sorting.SortSorted(Rows(s), RankLe);
  }

  /** Among rows with the same diff and bpm, a tick's ranking keeps `current_bpm` order. */
  lemma RankingStable(s: Session, e: RankEntry)
    requires ValidSession(s)
    ensures Sorting.TiedWith(Sorting.Sort(Rows(s), RankLe), e, RankLe) == Sorting.TiedWith(Rows(s), e, RankLe)
  {
    RankLeIsTotalPreorder();
    Sorting.SortStable(Rows(s), e, RankLe);
  }

  /** A sequence without repeats has as many elements as its set. */
  lemma {:induction false} DistinctCard<T>(s: seq<T>)
    requires Distinct(s)
    ensures |set x | x in s| == |s|
    decreases |s|
  {
    if s != [] {
      var init := s[..|s| - 1];
      assert Distinct(init);
      DistinctCard(init);
      assert (set x | x in s) == (set x | x in init) + {s[|s| - 1]};
      assert s[|s| - 1] !in init;
    }
  }

  lemma RowAt(s: Session, a: nat)
    requires ValidSession(s) && a < |s.order|
    ensures Rows(s)[a].playerId == s.order[a]
  {
  }

  lemma StandingAt(s: Session, a: nat)
    requires ValidSession(s) && a < |s.maeOrder|
    ensures Standings(s)[a] == StandingOf(s, s.maeOrder[a])
    ensures Standings(s)[a].playerId == s.maeOrder[a]
  {
  }

  /**
   * Rows with the same diff and the same bpm keep the order of their keys in
   * `current_bpm`.
   */
  lemma RankingTiesKeepOrder(s: Session, i: int, j: int)
    requires ValidSession(s)
    requires 0 <= i < j < |Sorting.Sort(Rows(s), RankLe)|
    requires Sorting.Sort(Rows(s), RankLe)[i].diff == Sorting.Sort(Rows(s), RankLe)[j].diff
    requires Sorting.Sort(Rows(s), RankLe)[i].bpm == Sorting.Sort(Rows(s), RankLe)[j].bpm
    ensures exists a, b ::
              && 0 <= a < b < |s.order|
              && s.order[a] == Sorting.Sort(Rows(s), RankLe)[i].playerId
              && s.order[b] == Sorting.Sort(Rows(s), RankLe)[j].playerId
  {
    var rows := Rows(s);
    RankLeIsTotalPreorder();
    Sorting.SortKeepsTiedOrder(rows, RankLe, i, j);
    var a, b :| 0 <= a < b < |rows| && rows[a] == Sorting.Sort(rows, RankLe)[i] && rows[b] == Sorting.Sort(rows, RankLe)[j];
    RowAt(s, a);
    RowAt(s, b);
  }

  /** `min`/`max` of a bpm history, or 0/0 when it is empty. */
  lemma BpmRange(xs: seq<int>)
    ensures xs == [] ==> MinOr0(xs) == 0 && MaxOr0(xs) == 0
    ensures xs != [] ==> MinOr0(xs) in xs && MaxOr0(xs) in xs
    ensures forall x :: x in xs ==> MinOr0(xs) <= x <= MaxOr0(xs)
  {
  }

  /**
   * The final results have one row per key of `mae_history`, sorted by mean
   * error and ranked 1, 2, ... with no gaps.
   */
  lemma FinalResultsRanked(s: Session)
    requires ValidSession(s)
    ensures |FinalStandings(s)| == |s.maeOrder| == |s.maeHistory|
    ensures forall i :: 0 <= i < |FinalStandings(s)| ==> FinalStandings(s)[i].rank == i + 1
    ensures forall i, j :: 0 <= i < j < |FinalStandings(s)| ==>
      FinalStandings(s)[i].standing.avgMae <= FinalStandings(s)[j].standing.avgMae
  {
    var sorted := Sorting.Sort(Standings(s), StandingLe);
    assert |s.maeHistory| == |s.maeOrder| by {
      assert s.maeHistory.Keys == set p | p in s.maeOrder;
      DistinctCard(s.maeOrder);
    }
    StandingLeIsTotalPreorder();
    Sorting.SortSorted(Standings(s), StandingLe);
    RankedPositions(sorted);
  }

  /** Ranking a sorted list keeps every row in its place and numbers it by position. */
  lemma RankedPositions(sorted: seq<Standing>)
    ensures |Ranked(sorted)| == |sorted|
    ensures forall i :: 0 <= i < |sorted| ==> Ranked(sorted)[i] == RankedStanding(sorted[i], i + 1)
  {
  }

  /**
   * Each final result is the row of one `mae_history` key: that player's mean
   * error (999 when the list is empty), bpm range and nickname.
   */
  lemma FinalResultsRows(s: Session)
    requires ValidSession(s)
    ensures forall i :: 0 <= i < |FinalStandings(s)| ==>
      && FinalStandings(s)[i].standing.playerId in s.maeHistory
      && FinalStandings(s)[i].standing == StandingOf(s, FinalStandings(s)[i].standing.playerId)
  {
    var standings := Standings(s);
    var sorted := Sorting.Sort(standings, StandingLe);
    forall i | 0 <= i < |sorted|
      ensures sorted[i].playerId in s.maeHistory && sorted[i] == StandingOf(s, sorted[i].playerId)
    {
      assert sorted[i] in multiset(standings);
      var j :| 0 <= j < |standings| && standings[j] == sorted[i];
      StandingAt(s, j);
    }
    RankedPositions(sorted);
  }

  /** Every key of `mae_history` has its row in the final results. */
  lemma FinalResultsComplete(s: Session)
    requires ValidSession(s)
    ensures forall k :: 0 <= k < |s.maeOrder| ==>
      exists i :: 0 <= i < |FinalStandings(s)| && FinalStandings(s)[i].standing == StandingOf(s, s.maeOrder[k])
  {
    var standings := Standings(s);
    var sorted := Sorting.Sort(standings, StandingLe);
    var res := FinalStandings(s);
    forall k | 0 <= k < |s.maeOrder|
      ensures exists i :: 0 <= i < |res| && res[i].standing == StandingOf(s, s.maeOrder[k])
    {
      StandingAt(s, k);
      assert standings[k] in multiset(sorted);
      var i :| 0 <= i < |sorted| && sorted[i] == standings[k];
      assert res[i].standing == sorted[i];
    }
  }

  /**
   * Results with equal mean error keep the order of `mae_history`, which is
   * the order in which roster ids first appear.
   */
  lemma FinalResultsTiesKeepOrder(s: Session, i: int, j: int)
    requires ValidSession(s)
    requires 0 <= i < j < |FinalStandings(s)|
    requires FinalStandings(s)[i].standing.avgMae == FinalStandings(s)[j].standing.avgMae
    ensures exists a, b ::
              && 0 <= a < b < |s.maeOrder|
              && s.maeOrder[a] == FinalStandings(s)[i].standing.playerId
              && s.maeOrder[b] == FinalStandings(s)[j].standing.playerId
  {
    var standings := Standings(s);
    var sorted := Sorting.Sort(standings, StandingLe);
    StandingLeIsTotalPreorder();
    assert FinalStandings(s)[i].standing == sorted[i] && FinalStandings(s)[j].standing == sorted[j];
    Sorting.SortKeepsTiedOrder(standings, StandingLe, i, j);
    var a, b :| 0 <= a < b < |standings| && standings[a] == sorted[i] && standings[b] == sorted[j];
    StandingAt(s, a);
    StandingAt(s, b);
  }

  // ---------------------------------------------------------------- the whole game

  /** The session `start_game_loop` holds when it computes the results. */
  function FinalSession(players: seq<RosterEntry>, target: int, minBpm: int, maxBpm: int, feed: seq<seq<Reading>>): Session
    requires FeedWithin(feed, Seed(players, target, minBpm, maxBpm))
  {
    PlayTicks(Seed(players, target, minBpm, maxBpm), feed).0
  }

  /** The session a tick ranks: the one after the readings that arrive during its sleep. */
  function SessionAtTick(s: Session, feed: seq<seq<Reading>>, k: nat): Session
    requires ValidSession(s) && Tickable(s) && FeedWithin(feed, s) && k < |feed|
  {
    PlayTicksStep(s, feed, k);
    ApplyReadings(PlayTicks(s, feed[..k]).0, feed[k])
  }

  lemma FeedWithinPrefix(feed: seq<seq<Reading>>, s: Session, m: nat)
    requires FeedWithin(feed, s) && m <= |feed|
    ensures FeedWithin(feed[..m], s)
  {
    forall k: int, r: Reading | 0 <= k < m && r in feed[..m][k] ensures r.playerId in s.maeHistory {
      assert feed[..m][k] == feed[k];
    }
  }

  /** The events of a game: those of all but its last second, then the last tick's ranking. */
  lemma PlayTicksLastEvent(s: Session, feed: seq<seq<Reading>>)
    requires ValidSession(s) && Tickable(s) && FeedWithin(feed, s) && feed != []
    ensures FeedWithin(feed[..|feed| - 1], s)
    ensures PlayTicks(s, feed).1 == PlayTicks(s, feed[..|feed| - 1]).1
      + [BpmUpdate(Sorting.Sort(Rows(ApplyReadings(PlayTicks(s, feed[..|feed| - 1]).0, feed[|feed| - 1])), RankLe))]
  {
    FeedWithinPrefix(feed, s, |feed| - 1);
  }

  lemma SnocIndex<T>(a: seq<T>, e: T, k: nat)
    requires k < |a|
    ensures (a + [e])[k] == a[k]
  {
  }

  /** The last second of the feed publishes the ranking of its session after its readings. */
  lemma TickEventLast(s: Session, feed: seq<seq<Reading>>)
    requires ValidSession(s) && Tickable(s) && FeedWithin(feed, s) && feed != []
    ensures PlayTicks(s, feed).1[|feed| - 1] == BpmUpdate(Sorting.Sort(Rows(SessionAtTick(s, feed, |feed| - 1)), RankLe))
  {
    PlayTicksLastEvent(s, feed);
    var k := |feed| - 1;
    assert SessionAtTick(s, feed, k) == ApplyReadings(PlayTicks(s, feed[..k]).0, feed[k]);
  }

  /** Dropping the last second does not change an earlier event. */
  lemma EarlierEventKept(s: Session, feed: seq<seq<Reading>>, k: nat)
    requires ValidSession(s) && Tickable(s) && FeedWithin(feed, s) && k < |feed| - 1
    ensures FeedWithin(feed[..|feed| - 1], s)
    ensures PlayTicks(s, feed).1[k] == PlayTicks(s, feed[..|feed| - 1]).1[k]
  {
    PlayTicksLastEvent(s, feed);
    var before := PlayTicks(s, feed[..|feed| - 1]);
    SnocIndex(before.1, BpmUpdate(Sorting.Sort(Rows(ApplyReadings(before.0, feed[|feed| - 1])), RankLe)), k);
  }

  /** Dropping the last second does not change the session an earlier tick ranked. */
  lemma EarlierSessionKept(s: Session, feed: seq<seq<Reading>>, k: nat)
    requires ValidSession(s) && Tickable(s) && FeedWithin(feed, s) && k < |feed| - 1
    ensures FeedWithin(feed[..|feed| - 1], s)
    ensures SessionAtTick(s, feed, k) == SessionAtTick(s, feed[..|feed| - 1], k)
  {
    var before := feed[..|feed| - 1];
    FeedWithinPrefix(feed, s, |feed| - 1);
    assert before[..k] == feed[..k];
  }

  /** Tick k publishes the sorted ranking of the session after the readings of second k. */
  lemma {:induction false} TickEvent(s: Session, feed: seq<seq<Reading>>, k: nat)
    requires ValidSession(s) && Tickable(s) && FeedWithin(feed, s) && k < |feed|
    ensures PlayTicks(s, feed).1[k] == BpmUpdate(Sorting.Sort(Rows(SessionAtTick(s, feed, k)), RankLe))
    decreases |feed|
  {
    if k == |feed| - 1 {
      TickEventLast(s, feed);
    } else {
      EarlierEventKept(s, feed, k);
      EarlierSessionKept(s, feed, k);
      TickEvent(s, feed[..|feed| - 1], k);
    }
  }

  /**
   * After the ticks every roster id, and no other, has an `mae_history` list
   * with exactly one entry per tick; the key orders are the roster's.
   */
  lemma HistoryLengthAfterTicks(players: seq<RosterEntry>, target: int, minBpm: int, maxBpm: int, feed: seq<seq<Reading>>)
    requires FeedWithin(feed, Seed(players, target, minBpm, maxBpm))
    ensures FinalSession(players, target, minBpm, maxBpm, feed).order == Dedup(Ids(players))
    ensures FinalSession(players, target, minBpm, maxBpm, feed).maeOrder == Dedup(Ids(players))
    ensures forall p :: p in FinalSession(players, target, minBpm, maxBpm, feed).maeHistory <==> p in Ids(players)
    ensures forall p :: p in FinalSession(players, target, minBpm, maxBpm, feed).maeHistory ==>
      |FinalSession(players, target, minBpm, maxBpm, feed).maeHistory[p]| == |feed|
  {
    SeedOrder(players, target, minBpm, maxBpm);
    SeedAtTarget(players, target, minBpm, maxBpm);
  }

  /**
   * The game publishes one `bpm_update` per second and then one `game_end`.
   * Every ranking holds one row per roster id and is sorted by diff, then bpm.
   */
  lemma GameOutcomeEvents(players: seq<RosterEntry>, target: int, minBpm: int, maxBpm: int, feed: seq<seq<Reading>>)
    requires FeedWithin(feed, Seed(players, target, minBpm, maxBpm))
    ensures |GameOutcome(players, target, minBpm, maxBpm, feed)| == |feed| + 1
    ensures GameOutcome(players, target, minBpm, maxBpm, feed)[|feed|]
      == GameEnd(FinalStandings(FinalSession(players, target, minBpm, maxBpm, feed)))
    ensures forall k :: 0 <= k < |feed| ==>
      && GameOutcome(players, target, minBpm, maxBpm, feed)[k].BpmUpdate?
      && RankedRoster(GameOutcome(players, target, minBpm, maxBpm, feed)[k].rankings, players, target)
  {
    var ticks := PlayTicks(Seed(players, target, minBpm, maxBpm), feed).1;
    forall k | 0 <= k < |feed|
      ensures GameOutcome(players, target, minBpm, maxBpm, feed)[k] == ticks[k]
    {
      SnocIndex(ticks, GameEnd(FinalStandings(FinalSession(players, target, minBpm, maxBpm, feed))), k);
    }
    forall k | 0 <= k < |feed|
      ensures ticks[k].BpmUpdate? && RankedRoster(ticks[k].rankings, players, target)
    {
      TickRanksRoster(players, target, minBpm, maxBpm, feed, k);
    }
  }

  /** Tick k of a game publishes a ranking of the roster. */
  lemma TickRanksRoster(players: seq<RosterEntry>, target: int, minBpm: int, maxBpm: int, feed: seq<seq<Reading>>, k: nat)
    requires FeedWithin(feed, Seed(players, target, minBpm, maxBpm)) && k < |feed|
    ensures PlayTicks(Seed(players, target, minBpm, maxBpm), feed).1[k].BpmUpdate?
    ensures RankedRoster(PlayTicks(Seed(players, target, minBpm, maxBpm), feed).1[k].rankings, players, target)
  {
    var s := Seed(players, target, minBpm, maxBpm);
    SeedOrder(players, target, minBpm, maxBpm);
    TickEvent(s, feed, k);
    var at := SessionAtTick(s, feed, k);
    assert at.order == Dedup(Ids(players)) && at.targetBpm == target by {
      PlayTicksStep(s, feed, k);
    }
    RankingOfRoster(at, players, target);
  }

  /** The ranking of a session keyed by the roster is a ranking of the roster. */
  lemma RankingOfRoster(at: Session, players: seq<RosterEntry>, target: int)
    requires ValidSession(at) && at.order == Dedup(Ids(players)) && at.targetBpm == target
    ensures RankedRoster(Sorting.Sort(Rows(at), RankLe), players, target)
  {
    assert |Sorting.Sort(Rows(at), RankLe)| == |Dedup(Ids(players))|;
    RosterHasRows(at, players);
    RowsOfRoster(at, players);
    RankingSorted(at);
  }

  /** When the keys of `current_bpm` are the roster's, every row of the ranking is a roster id's. */
  lemma RowsOfRoster(at: Session, players: seq<RosterEntry>)
    requires ValidSession(at) && at.order == Dedup(Ids(players))
    ensures forall i :: 0 <= i < |Sorting.Sort(Rows(at), RankLe)| ==>
      var e := Sorting.Sort(Rows(at), RankLe)[i];
      e.playerId in Ids(players) && e.diff == Diff(e.bpm, at.targetBpm)
  {
    var r := Sorting.Sort(Rows(at), RankLe);
    RankingRows(at);
    forall i | 0 <= i < |r| ensures r[i].playerId in Ids(players) {
      assert r[i].playerId in at.current;
      assert r[i].playerId in at.order;
    }
  }

  /** When the keys of `current_bpm` are the roster's, every roster id has a row in the ranking. */
  lemma RosterHasRows(at: Session, players: seq<RosterEntry>)
    requires ValidSession(at) && at.order == Dedup(Ids(players))
    ensures forall p :: p in Ids(players) ==>
      HasRow(Sorting.Sort(Rows(at), RankLe), p)
  {
    forall p | p in Ids(players)
      ensures HasRow(Sorting.Sort(Rows(at), RankLe), p)
    {
      assert p in at.order;
      RowOfKey(at, p);
    }
  }

  /** A key of `current_bpm` has a row in the ranking. */
  lemma RowOfKey(at: Session, p: PlayerId)
    requires ValidSession(at) && p in at.order
    ensures HasRow(Sorting.Sort(Rows(at), RankLe), p)
  {
    var rows := Rows(at);
    var ranking := Sorting.Sort(rows, RankLe);
    var k :| 0 <= k < |at.order| && at.order[k] == p;
    assert rows[k] in multiset(ranking);
    var i :| 0 <= i < |ranking| && ranking[i] == rows[k];
    assert ranking[i].playerId == p;
  }

  /** Some row of `rankings` belongs to `p`. */
  ghost predicate HasRow(rankings: seq<RankEntry>, p: PlayerId) {
    exists i :: 0 <= i < |rankings| && rankings[i].playerId == p
  }

  /** A ranking of a tick: one row per roster id, sorted by diff, then bpm. */
  ghost predicate RankedRoster(rankings: seq<RankEntry>, players: seq<RosterEntry>, target: int) {
    && |rankings| == |Dedup(Ids(players))|
    && (forall p :: p in Ids(players) ==> HasRow(rankings, p))
    && (forall i :: 0 <= i < |rankings| ==>
          rankings[i].playerId in Ids(players) && rankings[i].diff == Diff(rankings[i].bpm, target))
    && (forall i, j :: 0 <= i < j < |rankings| ==>
          rankings[i].diff < rankings[j].diff || (rankings[i].diff == rankings[j].diff && rankings[i].bpm <= rankings[j].bpm))
  }

  // ---------------------------------------------------------------- silent players and the average

  /** No heart rate of `feed` comes from `p`. */
  ghost predicate Silent(feed: seq<seq<Reading>>, p: PlayerId) {
    forall k, r :: 0 <= k < |feed| && r in feed[k] ==> r.playerId != p
  }

  /** Player `p` as seeded: at the target, no heart rate recorded, every diff zero. */
  ghost predicate Idle(s: Session, p: PlayerId) {
    && p in s.current && p in s.maeHistory && p in s.bpmHistory
    && s.current[p].bpm == s.targetBpm
    && s.bpmHistory[p] == []
    && forall i :: 0 <= i < |s.maeHistory[p]| ==> s.maeHistory[p][i] == 0
  }

  lemma {:induction false} ReadingsFromOthers(s: Session, readings: seq<Reading>, p: PlayerId)
    requires ValidSession(s) && Idle(s, p)
    requires forall r :: r in readings ==> r.playerId != p
    ensures Idle(ApplyReadings(s, readings), p)
  {
    if readings != [] {
      var init := readings[..|readings| - 1];
      assert forall r :: r in init ==> r in readings;
      ReadingsFromOthers(s, init, p);
    }
  }

  lemma TickKeepsIdle(s: Session, p: PlayerId)
    requires ValidSession(s) && Tickable(s) && Idle(s, p)
    ensures Idle(Ticked(s), p)
  {
    assert Ticked(s).maeHistory[p] == s.maeHistory[p] + [0];
  }

  /** The last second of a game: its readings, then its tick. */
  lemma PlayTicksLast(s: Session, feed: seq<seq<Reading>>)
    requires ValidSession(s) && Tickable(s) && FeedWithin(feed, s) && feed != []
    ensures FeedWithin(feed[..|feed| - 1], s)
    ensures PlayTicks(s, feed).0 == Ticked(ApplyReadings(PlayTicks(s, feed[..|feed| - 1]).0, feed[|feed| - 1]))
  {
    FeedWithinPrefix(feed, s, |feed| - 1);
  }

  /** A player who sends nothing keeps the seeded bpm, and every tick records a diff of 0. */
  lemma {:induction false} SilentStaysIdle(s: Session, feed: seq<seq<Reading>>, p: PlayerId)
    requires ValidSession(s) && Tickable(s) && FeedWithin(feed, s)
    requires Silent(feed, p) && Idle(s, p)
    ensures Idle(PlayTicks(s, feed).0, p)
    decreases |feed|
  {
    if feed != [] {
      var before := feed[..|feed| - 1];
      PlayTicksLast(s, feed);
      forall k: int, r: Reading | 0 <= k < |before| && r in before[k] ensures r.playerId != p {
        assert before[k] == feed[k];
      }
      SilentStaysIdle(s, before, p);
      var s0 := PlayTicks(s, before).0;
      ReadingsFromOthers(s0, feed[|feed| - 1], p);
      TickKeepsIdle(ApplyReadings(s0, feed[|feed| - 1]), p);
    }
  }

  lemma {:induction false} SumOfZeros(xs: seq<int>)
    requires forall i :: 0 <= i < |xs| ==> xs[i] == 0
    ensures Sum(xs) == 0
  {
    if xs != [] {
      SumOfZeros(xs[..|xs| - 1]);
    }
  }

  /** Some result row reports `p` with no heart rate and the given average. */
  ghost predicate ReportedIdle(results: seq<RankedStanding>, p: PlayerId, avg: real) {
    exists i :: 0 <= i < |results| && results[i].standing == Standing(results[i].standing.playerId,
      results[i].standing.nickname, 0, 0, avg) && results[i].standing.playerId == p
  }

  /**
   * A roster player who never sends a heart rate is not reported with the
   * no-data average: it scores 0 once a tick has passed, with 0 as both its
   * minimum and maximum bpm.
   */
  lemma SilentPlayerScoresZero(players: seq<RosterEntry>, target: int, minBpm: int, maxBpm: int, feed: seq<seq<Reading>>, p: PlayerId)
    requires FeedWithin(feed, Seed(players, target, minBpm, maxBpm))
    requires p in Ids(players) && Silent(feed, p)
    ensures ReportedIdle(FinalStandings(FinalSession(players, target, minBpm, maxBpm, feed)), p,
      if |feed| == 0 then NoDataAverage else 0.0)
  {
    var s := Seed(players, target, minBpm, maxBpm);
    var f := FinalSession(players, target, minBpm, maxBpm, feed);
    SeedAtTarget(players, target, minBpm, maxBpm);
    assert Idle(s, p);
    SilentStaysIdle(s, feed, p);
    HistoryLengthAfterTicks(players, target, minBpm, maxBpm, feed);
    IdleStanding(f, p, |feed|);
    assert p in f.maeOrder;
    var k :| 0 <= k < |f.maeOrder| && f.maeOrder[k] == p;
    FinalResultsComplete(f);
  }

  lemma IdleStanding(f: Session, p: PlayerId, ticks: nat)
    requires ValidSession(f) && Idle(f, p) && |f.maeHistory[p]| == ticks
    ensures StandingOf(f, p).minBpm == 0 && StandingOf(f, p).maxBpm == 0
    ensures StandingOf(f, p).avgMae == if ticks == 0 then NoDataAverage else 0.0
  {
    SumOfZeros(f.maeHistory[p]);
  }

  /**
   * Every reported average is the no-data average when the game had no
   * tick, and otherwise the mean of one diff per tick.
   */
  lemma AverageOverTicks(players: seq<RosterEntry>, target: int, minBpm: int, maxBpm: int, feed: seq<seq<Reading>>, i: int)
    requires FeedWithin(feed, Seed(players, target, minBpm, maxBpm))
    requires 0 <= i < |FinalStandings(FinalSession(players, target, minBpm, maxBpm, feed))|
    ensures var f := FinalSession(players, target, minBpm, maxBpm, feed);
      var st := FinalStandings(f)[i].standing;
      && st.playerId in f.maeHistory
      && st.avgMae == (if |feed| == 0 then NoDataAverage else Sum(f.maeHistory[st.playerId]) as real / |feed| as real)
  {
    var f := FinalSession(players, target, minBpm, maxBpm, feed);
    HistoryLengthAfterTicks(players, target, minBpm, maxBpm, feed);
    FinalResultsRows(f);
  }

  // ---------------------------------------------------------------- heart rates one at a time

  /** One `heart_rate` message is a second with a single reading. */
  lemma HeartRateIsOneReading(s: Session, pid: PlayerId, bpm: int, nickname: string)
    requires ValidSession(s)
    ensures ApplyReadings(s, [Reading(pid, bpm, nickname)]) == WithHeartRate(s, pid, bpm, nickname)
  {
    assert [Reading(pid, bpm, nickname)][..0] == [];
  }

  lemma ApplyReadingsLast(s: Session, readings: seq<Reading>)
    requires ValidSession(s) && readings != []
    ensures var r := readings[|readings| - 1];
      ApplyReadings(s, readings) == WithHeartRate(ApplyReadings(s, readings[..|readings| - 1]), r.playerId, r.bpm, r.nickname)
  {
  }

  /** Readings applied in two batches are the readings applied in one. */
  lemma {:induction false} ApplyReadingsConcat(s: Session, a: seq<Reading>, b: seq<Reading>)
    requires ValidSession(s)
    ensures ApplyReadings(s, a + b) == ApplyReadings(ApplyReadings(s, a), b)
    decreases |b|
  {
    if b == [] {
      assert a + b == a;
    } else {
      var ab, init, r := a + b, b[..|b| - 1], b[|b| - 1];
      assert ab[..|ab| - 1] == a + init;
      assert ab[|ab| - 1] == r;
      ApplyReadingsConcat(s, a, init);
      ApplyReadingsLast(s, ab);
      ApplyReadingsLast(ApplyReadings(s, a), b);
    }
  }
}
