/**
 * A two-player game worked through the model: target 100, two seconds.
 * In the first second P1 sends 90 and P2 sends 100; in the second P1 sends
 * 100 and P2 sends 110. P2 leads the first ranking and P1 the second; both
 * average an error of 5, and the tie is ranked in roster order.
 */
module GameScenario {
  import opened Protocol
  import opened GameLoop
  import Sorting
  import GameProperties

  const Roster: seq<RosterEntry> := [RosterEntry("P1", "Ann"), RosterEntry("P2", "Bob")]
  const First: seq<Reading> := [Reading("P1", 90, "Ann"), Reading("P2", 100, "Bob")]
  const Second: seq<Reading> := [Reading("P1", 100, "Ann"), Reading("P2", 110, "Bob")]

  /** A session of the two roster players with the given samples and histories. */
  function Pair(p1: Sample, p2: Sample, bpm1: seq<int>, bpm2: seq<int>, mae1: seq<int>, mae2: seq<int>): (s: Session)
    ensures ValidSession(s) && Tickable(s)
  {
    var s := Session(["P1", "P2"], map["P1" := p1, "P2" := p2], map["P1" := bpm1, "P2" := bpm2],
      ["P1", "P2"], map["P1" := mae1, "P2" := mae2], 100, 60, 140, Roster);
    assert s.order[..|s.maeOrder|] == s.maeOrder;
    s
  }

  lemma SeedState()
    ensures Seed(Roster, 100, 60, 140) == Pair(Sample(100, "Ann"), Sample(100, "Bob"), [], [], [], [])
  {
    var empty := Seed([], 100, 60, 140);
    assert empty.order == [] && empty.current == map[];
    assert Roster[..1][..0] == [];
    var one := Seed(Roster[..1], 100, 60, 140);
    assert one == Session(["P1"], map["P1" := Sample(100, "Ann")], map["P1" := []], ["P1"], map["P1" := []], 100, 60, 140, Roster[..1]);
    assert "P2" !in ["P1"];
    assert Roster[..2][..1] == Roster[..1];
    assert Roster[..2] == Roster;
  }

  /** P1 reports a heart rate. */
  lemma ReportFirst(p1: Sample, p2: Sample, bpm1: seq<int>, bpm2: seq<int>, mae1: seq<int>, mae2: seq<int>, b1: int)
    ensures WithHeartRate(Pair(p1, p2, bpm1, bpm2, mae1, mae2), "P1", b1, "Ann")
      == Pair(Sample(b1, "Ann"), p2, bpm1 + [b1], bpm2, mae1, mae2)
  {
    var s := Pair(p1, p2, bpm1, bpm2, mae1, mae2);
    assert Put(s.order, "P1") == s.order;
    assert s.current["P1" := Sample(b1, "Ann")] == map["P1" := Sample(b1, "Ann"), "P2" := p2];
    assert s.bpmHistory["P1" := bpm1 + [b1]] == map["P1" := bpm1 + [b1], "P2" := bpm2];
  }

  /** P2 reports a heart rate. */
  lemma ReportSecond(p1: Sample, p2: Sample, bpm1: seq<int>, bpm2: seq<int>, mae1: seq<int>, mae2: seq<int>, b2: int)
    ensures WithHeartRate(Pair(p1, p2, bpm1, bpm2, mae1, mae2), "P2", b2, "Bob")
      == Pair(p1, Sample(b2, "Bob"), bpm1, bpm2 + [b2], mae1, mae2)
  {
    var s := Pair(p1, p2, bpm1, bpm2, mae1, mae2);
    assert Put(s.order, "P2") == s.order;
    assert s.current["P2" := Sample(b2, "Bob")] == map["P1" := p1, "P2" := Sample(b2, "Bob")];
    assert s.bpmHistory["P2" := bpm2 + [b2]] == map["P1" := bpm1, "P2" := bpm2 + [b2]];
  }

  /** Both players report one heart rate each, P1 first. */
  lemma BothReport(p1: Sample, p2: Sample, bpm1: seq<int>, bpm2: seq<int>, mae1: seq<int>, mae2: seq<int>, b1: int, b2: int)
    ensures ApplyReadings(Pair(p1, p2, bpm1, bpm2, mae1, mae2), [Reading("P1", b1, "Ann"), Reading("P2", b2, "Bob")])
      == Pair(Sample(b1, "Ann"), Sample(b2, "Bob"), bpm1 + [b1], bpm2 + [b2], mae1, mae2)
  {
    var s := Pair(p1, p2, bpm1, bpm2, mae1, mae2);
    var readings := [Reading("P1", b1, "Ann"), Reading("P2", b2, "Bob")];
    var mid := Pair(Sample(b1, "Ann"), p2, bpm1 + [b1], bpm2, mae1, mae2);
    assert ApplyReadings(s, readings[..1]) == mid by {
      assert readings[..1] == [Reading("P1", b1, "Ann")];
      GameProperties.HeartRateIsOneReading(s, "P1", b1, "Ann");
      ReportFirst(p1, p2, bpm1, bpm2, mae1, mae2, b1);
    }
    GameProperties.ApplyReadingsLast(s, readings);
    ReportSecond(Sample(b1, "Ann"), p2, bpm1 + [b1], bpm2, mae1, mae2, b2);
  }

  lemma TickPair(p1: Sample, p2: Sample, bpm1: seq<int>, bpm2: seq<int>, mae1: seq<int>, mae2: seq<int>)
    ensures Ticked(Pair(p1, p2, bpm1, bpm2, mae1, mae2))
      == Pair(p1, p2, bpm1, bpm2, mae1 + [Diff(p1.bpm, 100)], mae2 + [Diff(p2.bpm, 100)])
  {
    var s := Pair(p1, p2, bpm1, bpm2, mae1, mae2);
    assert Ticked(s).maeHistory == map["P1" := mae1 + [Diff(p1.bpm, 100)], "P2" := mae2 + [Diff(p2.bpm, 100)]];
  }

  lemma RowsPair(p1: Sample, p2: Sample, bpm1: seq<int>, bpm2: seq<int>, mae1: seq<int>, mae2: seq<int>)
    ensures Rows(Pair(p1, p2, bpm1, bpm2, mae1, mae2))
      == [RankEntry("P1", p1.nickname, p1.bpm, Diff(p1.bpm, 100)), RankEntry("P2", p2.nickname, p2.bpm, Diff(p2.bpm, 100))]
  {
  }

  lemma SortTwo<T>(a: T, b: T, le: (T, T) -> bool)
    ensures Sorting.Sort([a, b], le) == if le(a, b) then [a, b] else [b, a]
  {
    assert [a, b][..1] == [a];
    assert [a][..0] == [];
  }

  const Begin: Session := Pair(Sample(100, "Ann"), Sample(100, "Bob"), [], [], [], [])
  const Middle: Session := Pair(Sample(90, "Ann"), Sample(100, "Bob"), [90], [100], [10], [0])
  const End: Session := Pair(Sample(100, "Ann"), Sample(110, "Bob"), [90, 100], [100, 110], [10, 0], [0, 10])
  const FirstRanking: seq<RankEntry> := [RankEntry("P2", "Bob", 100, 0), RankEntry("P1", "Ann", 90, 10)]
  const SecondRanking: seq<RankEntry> := [RankEntry("P1", "Ann", 100, 0), RankEntry("P2", "Bob", 110, 10)]

  lemma BeginFeeds()
    ensures FeedWithin([First, Second], Begin) && FeedWithin([First], Begin)
  {
    forall k: int, r: Reading | 0 <= k < 2 && r in [First, Second][k] ensures r.playerId in Begin.maeHistory {
      assert r.playerId == "P1" || r.playerId == "P2";
    }
    forall k: int, r: Reading | 0 <= k < 1 && r in [First][k] ensures r.playerId in Begin.maeHistory {
      assert r.playerId == "P1" || r.playerId == "P2";
    }
  }

  /** One more second of a game that has reached `from` after the seconds `played`. */
  lemma NextSecond(played: seq<seq<Reading>>, readings: seq<Reading>, from: Session, ranked: seq<Event>,
                   arrived: Session, ranking: seq<RankEntry>)
    requires FeedWithin(played + [readings], Begin)
    requires FeedWithin(played, Begin) && PlayTicks(Begin, played) == (from, ranked)
    requires ApplyReadings(from, readings) == arrived
    requires Sorting.Sort(Rows(arrived), RankLe) == ranking
    ensures PlayTicks(Begin, played + [readings]) == (Ticked(arrived), ranked + [BpmUpdate(ranking)])
  {
    var feed := played + [readings];
    assert feed[..|feed| - 1] == played && feed[|feed| - 1] == readings;
    GameProperties.PlayTicksLast(Begin, feed);
    GameProperties.PlayTicksLastEvent(Begin, feed);
    var next := PlayTicks(Begin, feed);
    assert next.0 == Ticked(arrived);
    assert next.1 == ranked + [BpmUpdate(ranking)];
  }

  /** Both players report once during a second, then the tick. */
  lemma PairSecond(p1: Sample, p2: Sample, bpm1: seq<int>, bpm2: seq<int>, mae1: seq<int>, mae2: seq<int>,
                   b1: int, b2: int, played: seq<seq<Reading>>, ranked: seq<Event>)
    requires FeedWithin(played + [[Reading("P1", b1, "Ann"), Reading("P2", b2, "Bob")]], Begin)
    requires FeedWithin(played, Begin) && PlayTicks(Begin, played) == (Pair(p1, p2, bpm1, bpm2, mae1, mae2), ranked)
    ensures PlayTicks(Begin, played + [[Reading("P1", b1, "Ann"), Reading("P2", b2, "Bob")]])
      == (Pair(Sample(b1, "Ann"), Sample(b2, "Bob"), bpm1 + [b1], bpm2 + [b2], mae1 + [Diff(b1, 100)], mae2 + [Diff(b2, 100)]),
          ranked + [BpmUpdate(Sorting.Sort([RankEntry("P1", "Ann", b1, Diff(b1, 100)), RankEntry("P2", "Bob", b2, Diff(b2, 100))], RankLe))])
  {
    BothReport(p1, p2, bpm1, bpm2, mae1, mae2, b1, b2);
    var arrived := Pair(Sample(b1, "Ann"), Sample(b2, "Bob"), bpm1 + [b1], bpm2 + [b2], mae1, mae2);
    TickPair(Sample(b1, "Ann"), Sample(b2, "Bob"), bpm1 + [b1], bpm2 + [b2], mae1, mae2);
    RowsPair(Sample(b1, "Ann"), Sample(b2, "Bob"), bpm1 + [b1], bpm2 + [b2], mae1, mae2);
    NextSecond(played, [Reading("P1", b1, "Ann"), Reading("P2", b2, "Bob")], Pair(p1, p2, bpm1, bpm2, mae1, mae2), ranked,
      arrived, Sorting.Sort(Rows(arrived), RankLe));
  }

  lemma FirstValues()
    ensures Pair(Sample(90, "Ann"), Sample(100, "Bob"), [] + [90], [] + [100], [] + [Diff(90, 100)], [] + [Diff(100, 100)]) == Middle
    ensures [] + [BpmUpdate(Sorting.Sort([RankEntry("P1", "Ann", 90, Diff(90, 100)), RankEntry("P2", "Bob", 100, Diff(100, 100))], RankLe))]
      == [BpmUpdate(FirstRanking)]
  {
    assert [] + [90] == [90] && [] + [100] == [100];
    assert Diff(90, 100) == 10 && Diff(100, 100) == 0;
    assert [] + [Diff(90, 100)] == [10] && [] + [Diff(100, 100)] == [0];
    SortTwo(RankEntry("P1", "Ann", 90, 10), RankEntry("P2", "Bob", 100, 0), RankLe);
  }

  lemma SecondValues()
    ensures Pair(Sample(100, "Ann"), Sample(110, "Bob"), [90] + [100], [100] + [110], [10] + [Diff(100, 100)], [0] + [Diff(110, 100)]) == End
    ensures [BpmUpdate(FirstRanking)] + [BpmUpdate(Sorting.Sort([RankEntry("P1", "Ann", 100, Diff(100, 100)), RankEntry("P2", "Bob", 110, Diff(110, 100))], RankLe))]
      == [BpmUpdate(FirstRanking), BpmUpdate(SecondRanking)]
  {
    assert [90] + [100] == [90, 100] && [100] + [110] == [100, 110];
    assert Diff(100, 100) == 0 && Diff(110, 100) == 10;
    assert [10] + [Diff(100, 100)] == [10, 0] && [0] + [Diff(110, 100)] == [0, 10];
    SortTwo(RankEntry("P1", "Ann", 100, 0), RankEntry("P2", "Bob", 110, 10), RankLe);
  }

  /** The first second: P2 is on target and leads. */
  lemma FirstSecond()
    ensures FeedWithin([First], Begin)
    ensures PlayTicks(Begin, [First]) == (Middle, [BpmUpdate(FirstRanking)])
  {
    BeginFeeds();
    FirstValues();
    assert [] + [First] == [First];
    assert FeedWithin([], Begin) && PlayTicks(Begin, []) == (Begin, []);
    PairSecond(Sample(100, "Ann"), Sample(100, "Bob"), [], [], [], [], 90, 100, [], []);
  }

  /** The second second: P1 is on target and leads. */
  lemma SecondSecond()
    ensures FeedWithin([First, Second], Begin)
    ensures PlayTicks(Begin, [First, Second]) == (End, [BpmUpdate(FirstRanking), BpmUpdate(SecondRanking)])
  {
    BeginFeeds();
    SecondValues();
    assert [First] + [Second] == [First, Second];
    FirstSecond();
    PairSecond(Sample(90, "Ann"), Sample(100, "Bob"), [90], [100], [10], [0], 100, 110, [First], [BpmUpdate(FirstRanking)]);
  }

  lemma EndStandings()
    ensures Standings(End) == [Standing("P1", "Ann", 90, 100, 5.0), Standing("P2", "Bob", 100, 110, 5.0)]
  {
    assert [10, 0][..1] == [10] && [0, 10][..1] == [0] && [10][..0] == [] && [0][..0] == [];
    assert Sum([10, 0]) == 10 && Sum([0, 10]) == 10;
    assert [90, 100][..1] == [90] && [100, 110][..1] == [100];
    assert MinOr0([90, 100]) == 90 && MaxOr0([90, 100]) == 100;
    assert MinOr0([100, 110]) == 100 && MaxOr0([100, 110]) == 110;
    assert StandingOf(End, "P1") == Standing("P1", "Ann", 90, 100, 5.0);
    assert StandingOf(End, "P2") == Standing("P2", "Bob", 100, 110, 5.0);
  }

  /** The results: both average 5, so the tie keeps roster order. */
  lemma EndResults()
    ensures FinalStandings(End) == [
      RankedStanding(Standing("P1", "Ann", 90, 100, 5.0), 1),
      RankedStanding(Standing("P2", "Bob", 100, 110, 5.0), 2)]
  {
    EndStandings();
    var a := Standing("P1", "Ann", 90, 100, 5.0);
    var b := Standing("P2", "Bob", 100, 110, 5.0);
    SortTwo(a, b, StandingLe);
    assert Sorting.Sort(Standings(End), StandingLe) == [a, b];
  }

  /** The game as the model plays it: two rankings, then the results. */
  lemma ScenarioOutcome()
    ensures FeedWithin([First, Second], Seed(Roster, 100, 60, 140))
    ensures GameOutcome(Roster, 100, 60, 140, [First, Second]) == [
      BpmUpdate(FirstRanking),
      BpmUpdate(SecondRanking),
      GameEnd([
        RankedStanding(Standing("P1", "Ann", 90, 100, 5.0), 1),
        RankedStanding(Standing("P2", "Bob", 100, 110, 5.0), 2)])]
  {
    var results := [
      RankedStanding(Standing("P1", "Ann", 90, 100, 5.0), 1),
      RankedStanding(Standing("P2", "Bob", 100, 110, 5.0), 2)];
    assert [BpmUpdate(FirstRanking), BpmUpdate(SecondRanking)] + [GameEnd(results)]
      == [BpmUpdate(FirstRanking), BpmUpdate(SecondRanking), GameEnd(results)];
    SeedState();
    assert Seed(Roster, 100, 60, 140) == Begin;
    EndResults();
    SecondSecond();
  }
}
