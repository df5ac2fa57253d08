/** The match-state hook of `src/hooks/useMatchState.ts`: the point log of the
    current set, the completed sets and the set counter, with add, undo,
    end-set and reset, and the score and statistics derived from them. */
module MatchState {
  import opened Common
  import opened Seqs
  import opened VolleyballTypes

  /** `score`: the points each team has won in `points`. */
  function ScoreOf(points: seq<Point>): (r: Tally)
    ensures r.blue >= 0 && r.red >= 0
    ensures r.blue + r.red == |points|
  {
    FilterDisjointCount(points, OfTeam(Blue), OfTeam(Red));
    Tally(|Filter(points, OfTeam(Blue))|, |Filter(points, OfTeam(Red))|)
  }

  /** One more point adds one to its team's score and nothing else. */
  lemma {:induction false} ScoreOfAppend(points: seq<Point>, p: Point)
    ensures ScoreOf(points + [p]).blue == ScoreOf(points).blue + (if p.team == Blue then 1 else 0)
    ensures ScoreOf(points + [p]).red == ScoreOf(points).red + (if p.team == Red then 1 else 0)
  {
    FilterAppend(points, [p], OfTeam(Blue));
    FilterAppend(points, [p], OfTeam(Red));
    assert [p][1..] == [];
  }

  /** The set winner: blue unless red has strictly more points. */
  function SetWinner(score: Tally): (w: Team)
    ensures w == Blue <==> score.blue >= score.red
  {
    if score.blue >= score.red then Blue else Red
  }

  /** `completedSets.flatMap(s => s.points)`. */
  function SetsPoints(sets: seq<SetData>): seq<Point>
  {
    if sets == [] then [] else SetsPoints(sets[..|sets| - 1]) + sets[|sets| - 1].points
  }

  /** `allPoints`: the completed sets' points, in order, then the current ones. */
  function AllPointsOf(sets: seq<SetData>, points: seq<Point>): (r: seq<Point>)
    ensures |r| >= |points|
  {
    SetsPoints(sets) + points
  }

  /** `allPoints` ends with the current points, after the completed sets' ones. */
  lemma AllPointsSplit(sets: seq<SetData>, points: seq<Point>)
    ensures var r := AllPointsOf(sets, points);
      r[|r| - |points|..] == points && r[..|r| - |points|] == SetsPoints(sets)
  {
    var r := AllPointsOf(sets, points);
    assert r == SetsPoints(sets) + points;
  }

  /** Closing the current set into the completed list keeps `allPoints`. */
  lemma EndSetKeepsAllPoints(sets: seq<SetData>, s: SetData)
    ensures AllPointsOf(sets + [s], []) == AllPointsOf(sets, s.points)
  {
    assert (sets + [s])[..|sets|] == sets;
  }

  datatype TeamStats = TeamStats(scored: nat, faults: nat)
  datatype MatchStats = MatchStats(blue: TeamStats, red: TeamStats, total: nat)

  /** `stats` over a list of points. */
  function StatsOf(all: seq<Point>): (r: MatchStats)
    ensures r.total == |all|
    ensures r.blue.scored + r.blue.faults == ScoreOf(all).blue
    ensures r.red.scored + r.red.faults == ScoreOf(all).red
    ensures r.blue.scored + r.blue.faults + r.red.scored + r.red.faults == r.total
  {
    KindsSplitTeam(all, Blue);
    KindsSplitTeam(all, Red);
    MatchStats(
      TeamStats(|Filter(all, OfKind(Blue, Scored))|, |Filter(all, OfKind(Blue, Fault))|),
      TeamStats(|Filter(all, OfKind(Red, Scored))|, |Filter(all, OfKind(Red, Fault))|),
      |all|)
  }

  /** A team's points are its scored points and its fault points. */
  lemma {:induction false} KindsSplitTeam(all: seq<Point>, t: Team)
    ensures |Filter(all, OfKind(t, Scored))| + |Filter(all, OfKind(t, Fault))| == |Filter(all, OfTeam(t))|
  {
    if all != [] {
      KindsSplitTeam(all[1..], t);
    }
  }

  /** `setsScore` over a list of sets. */
  function SetsScoreOf(sets: seq<SetData>): (r: Tally)
    ensures r.blue >= 0 && r.red >= 0
    ensures r.blue + r.red <= |sets|
  {
    FilterDisjointCount(sets, WonBy(Blue), WonBy(Red));
    Tally(|Filter(sets, WonBy(Blue))|, |Filter(sets, WonBy(Red))|)
  }

  /** `s => s.winner === t`. */
  function WonBy(t: Team): SetData -> bool
  {
    (s: SetData) => s.winner == Some(t)
  }

  /** When every set has a winner, the set score counts every set. */
  lemma SetsScoreCountsDecidedSets(sets: seq<SetData>)
    requires forall i :: 0 <= i < |sets| ==> sets[i].winner.Some?
    ensures SetsScoreOf(sets).blue + SetsScoreOf(sets).red == |sets|
  {
    forall i | 0 <= i < |sets|
      ensures WonBy(Blue)(sets[i]) || WonBy(Red)(sets[i])
    {
      var w := sets[i].winner.value;
      assert WonBy(w)(sets[i]);
      if w == Blue { assert WonBy(Blue)(sets[i]); } else { assert WonBy(Red)(sets[i]); }
    }
    FilterDisjointCount(sets, WonBy(Blue), WonBy(Red));
  }

  /** A completed set as `endSet` records it, numbered `n`. */
  predicate RecordedSet(s: SetData, n: int)
  {
    && s.number == n
    && s.points != []
    && s.score == ScoreOf(s.points)
    && s.winner == Some(SetWinner(s.score))
    && s.duration == None
  }

  /** The set `endSet` records from the current points: their score, its
      winner, and no duration. */
  function RecordedSetOf(id: string, number: int, points: seq<Point>): SetData
  {
    var score := ScoreOf(points);
    SetData(id, number, points, score, Some(SetWinner(score)), None)
  }

  /** Recording one more set, numbered after the others, keeps every set
      recorded under its position. */
  lemma RecordedAppend(sets: seq<SetData>, id: string, points: seq<Point>)
    requires forall i :: 0 <= i < |sets| ==> RecordedSet(sets[i], i + 1)
    requires points != []
    ensures var r := sets + [RecordedSetOf(id, |sets| + 1, points)];
      forall i :: 0 <= i < |r| ==> RecordedSet(r[i], i + 1)
  {
  }

  /** Every recorded set has a winner, so the sets score counts them all. */
  lemma RecordedSetsAreDecided(sets: seq<SetData>)
    requires forall i :: 0 <= i < |sets| ==> RecordedSet(sets[i], i + 1)
    ensures SetsScoreOf(sets).blue + SetsScoreOf(sets).red == |sets|
  {
    assert forall i :: 0 <= i < |sets| ==> sets[i].winner.Some? by {
      forall i | 0 <= i < |sets|
        ensures sets[i].winner.Some?
      {
        assert RecordedSet(sets[i], i + 1);
      }
    }
    SetsScoreCountsDecidedSets(sets);
  }

  class Match {
    var completedSets: seq<SetData>
    var currentSetNumber: int
    var points: seq<Point>
    var selectedTeam: Option<Team>
    var selectedPointType: PointType

    /** Sets are numbered 1, 2, 3, ... in order, each as `endSet` records it,
        and the counter names the set being played. */
    ghost predicate Valid()
      reads this
    {
      && currentSetNumber == |completedSets| + 1
      && forall i :: 0 <= i < |completedSets| ==> RecordedSet(completedSets[i], i + 1)
    }

    constructor()
      ensures Valid()
      ensures completedSets == [] && currentSetNumber == 1 && points == []
      ensures selectedTeam == None && selectedPointType == Scored
    {
      completedSets := [];
      currentSetNumber := 1;
      points := [];
      selectedTeam := None;
      selectedPointType := Scored;
    }

    function Score(): (r: Tally)
      reads this
      ensures r.blue + r.red == |points|
    {
      ScoreOf(points)
    }

    function AllPoints(): (r: seq<Point>)
      reads this
      ensures |r| >= |points|
    {
      AllPointsOf(completedSets, points)
    }

    function Stats(): (r: MatchStats)
      reads this
      ensures r.total == |AllPoints()|
    {
      StatsOf(AllPoints())
    }

    function SetsScore(): (r: Tally)
      reads this
      ensures r.blue + r.red <= |completedSets|
    {
      SetsScoreOf(completedSets)
    }

    method SetSelectedTeam(t: Option<Team>)
      modifies this
      ensures selectedTeam == t
      ensures completedSets == old(completedSets) && currentSetNumber == old(currentSetNumber)
      ensures points == old(points) && selectedPointType == old(selectedPointType)
    {
      selectedTeam := t;
    }

    method SetSelectedPointType(pt: PointType)
      modifies this
      ensures selectedPointType == pt
      ensures completedSets == old(completedSets) && currentSetNumber == old(currentSetNumber)
      ensures points == old(points) && selectedTeam == old(selectedTeam)
    {
      selectedPointType := pt;
    }

    /** `addPoint`: without a selected team nothing happens; otherwise one
        point for that team, of the selected type, at (x, y), is appended
        and the team selection is cleared. The id and the timestamp, which
        the hook draws from `crypto.randomUUID` and `Date.now`, are passed
        in. */
    method AddPoint(x: real, y: real, id: string, timestamp: int)
      requires Valid()
      modifies this
      ensures Valid()
      ensures old(selectedTeam).None? ==> unchanged(this)
      ensures old(selectedTeam).Some? ==>
        && points == old(points) + [Point(id, old(selectedTeam).value, old(selectedPointType), None,
                                          x, y, timestamp, None)]
        && selectedTeam == None
        && completedSets == old(completedSets) && currentSetNumber == old(currentSetNumber)
        && selectedPointType == old(selectedPointType)
      ensures old(selectedTeam).Some? ==> Stats().total == old(Stats().total) + 1
    {
      if selectedTeam.None? {
        return;
      }
      var point := Point(id, selectedTeam.value, selectedPointType, None, x, y, timestamp, None);
      points := points + [point];
      selectedTeam := None;
    }

    /** `undo`: drops the last point of the current set, if any. */
    method Undo()
      requires Valid()
      modifies this
      ensures Valid()
      ensures points == if old(points) == [] then [] else old(points)[..|old(points)| - 1]
      ensures completedSets == old(completedSets) && currentSetNumber == old(currentSetNumber)
      ensures selectedTeam == old(selectedTeam) && selectedPointType == old(selectedPointType)
    {
      if points != [] {
        points := points[..|points| - 1];
      }
    }

    /** `endSet`: with no point played nothing happens; otherwise the
        current points become set number `currentSetNumber`, with their
        score and its winner (ties go to blue), the log and the team
        selection are cleared and the counter moves on. The set's id is
        passed in. Ending a set does not change `allPoints` nor the match
        statistics. */
    method EndSet(id: string)
      requires Valid()
      modifies this
      ensures Valid()
      ensures old(points) == [] ==> unchanged(this)
      ensures old(points) != [] ==>
        && completedSets == old(completedSets) + [RecordedSetOf(id, old(currentSetNumber), old(points))]
        && points == [] && selectedTeam == None
        && currentSetNumber == old(currentSetNumber) + 1
        && selectedPointType == old(selectedPointType)
      ensures AllPoints() == old(AllPoints())
      ensures Stats() == old(Stats())
    {
      if points == [] {
        return;
      }
      var setData := RecordedSetOf(id, currentSetNumber, points);
      var sets := completedSets + [setData];
      EndSetKeepsAllPoints(completedSets, setData);
      RecordedAppend(completedSets, id, points);
      completedSets := sets;
      points := [];
      selectedTeam := None;
      currentSetNumber := currentSetNumber + 1;
    }

    /** `resetMatch`: back to set 1 with nothing played; the selected point
        type is kept. */
    method ResetMatch()
      modifies this
      ensures Valid()
      ensures points == [] && completedSets == [] && currentSetNumber == 1 && selectedTeam == None
      ensures selectedPointType == old(selectedPointType)
    {
      points := [];
      completedSets := [];
      currentSetNumber := 1;
      selectedTeam := None;
    }
  }

  /** In every valid state each completed set has a winner, so the sets
      score counts every completed set. */
  lemma ValidSetsScore(m: Match)
    requires m.Valid()
    ensures m.SetsScore().blue + m.SetsScore().red == |m.completedSets|
  {
    RecordedSetsAreDecided(m.completedSets);
  }

  /** Adding a point and undoing it restores the log. */
  method AddThenUndo(m: Match, x: real, y: real, id: string, timestamp: int)
    requires m.Valid() && m.selectedTeam.Some?
    modifies m
    ensures m.Valid()
    ensures m.points == old(m.points) && m.completedSets == old(m.completedSets)
  {
    m.AddPoint(x, y, id, timestamp);
    m.Undo();
    assert m.points == old(m.points);
  }
}
