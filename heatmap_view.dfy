/** The statistics view of `src/components/HeatmapView.tsx`: per-team counts
    with their offensive and fault breakdowns, the set filter, the points
    the heatmap draws and the set picker's options. Drawing and image
    export are not modelled. */
module HeatmapView {
  import opened Common
  import opened Seqs
  import opened Text
  import opened VolleyballTypes
  import MatchState

  /** `p => p.action === a`; a point without an action matches nothing. */
  function WithAction(a: ActionType): Point -> bool
  {
    (p: Point) => p.action == Some(a)
  }

  /** One team's block of `computeStats`. */
  datatype TeamBreakdown = TeamBreakdown(
    scored: nat, faults: nat,
    attacks: nat, aces: nat, blocks: nat, bidouilles: nat, secondeMains: nat, otherOffensive: nat,
    outs: nat, netFaults: nat, serviceMisses: nat, blockOuts: nat)

  datatype Stats = Stats(blue: TeamBreakdown, red: TeamBreakdown, total: nat)

  /** The points a team scored itself. */
  function ScoredBy(pts: seq<Point>, team: Team): seq<Point>
  {
    Filter(pts, OfKind(team, Scored))
  }

  /** The faults a team committed: the opponent's points of type fault. */
  function FaultsOf(pts: seq<Point>, team: Team): seq<Point>
  {
    Filter(pts, OfKind(Other(team), Fault))
  }

  function SixOffensive(s: seq<Point>): nat
  {
    |Filter(s, WithAction(Attack))| + |Filter(s, WithAction(Ace))| + |Filter(s, WithAction(Block))|
    + |Filter(s, WithAction(Bidouille))| + |Filter(s, WithAction(SecondeMain))|
    + |Filter(s, WithAction(OtherOffensive))|
  }

  function FourFaults(s: seq<Point>): nat
  {
    |Filter(s, WithAction(Out))| + |Filter(s, WithAction(NetFault))|
    + |Filter(s, WithAction(ServiceMiss))| + |Filter(s, WithAction(BlockOut))|
  }

  /** `byTeam(team)`. */
  function ByTeam(pts: seq<Point>, team: Team): (r: TeamBreakdown)
    ensures r.attacks + r.aces + r.blocks + r.bidouilles + r.secondeMains + r.otherOffensive <= r.scored
    ensures r.outs + r.netFaults + r.serviceMisses + r.blockOuts <= r.faults
  {
    var scored := ScoredBy(pts, team);
    var faults := FaultsOf(pts, team);
    OffensiveBreakdownCount(scored);
    FaultBreakdownCount(faults);
    TeamBreakdown(
      |scored|, |faults|,
      |Filter(scored, WithAction(Attack))|, |Filter(scored, WithAction(Ace))|,
      |Filter(scored, WithAction(Block))|, |Filter(scored, WithAction(Bidouille))|,
      |Filter(scored, WithAction(SecondeMain))|, |Filter(scored, WithAction(OtherOffensive))|,
      |Filter(faults, WithAction(Out))|, |Filter(faults, WithAction(NetFault))|,
      |Filter(faults, WithAction(ServiceMiss))|, |Filter(faults, WithAction(BlockOut))|)
  }

  /** `computeStats`. */
  function ComputeStats(pts: seq<Point>): (r: Stats)
    ensures r.total == |pts|
    ensures r.blue.faults + r.red.faults == |Filter(pts, IsFaultPoint)|
    ensures r.blue.scored + r.red.scored + r.blue.faults + r.red.faults == |pts|
  {
    FaultPointsSplit(pts);
    MatchState.KindsSplitTeam(pts, Blue);
    MatchState.KindsSplitTeam(pts, Red);
    FilterDisjointCount(pts, OfTeam(Blue), OfTeam(Red));
    Stats(ByTeam(pts, Blue), ByTeam(pts, Red), |pts|)
  }

  /** `p => p.type === 'fault'`. */
  function IsFaultPoint(p: Point): bool
  {
    p.pointType == Fault
  }

  /** The six offensive sub-counts never exceed the points counted, and
      account for all of them when every point carries an offensive
      action. */
  lemma {:induction false} OffensiveBreakdownCount(s: seq<Point>)
    ensures SixOffensive(s) <= |s|
    ensures (forall i :: 0 <= i < |s| ==> HasOffensiveAction(s[i])) ==> SixOffensive(s) == |s|
  {
    if s != [] {
      OffensiveBreakdownCount(s[1..]);
    }
  }

  /** Likewise for the four fault sub-counts. */
  lemma {:induction false} FaultBreakdownCount(s: seq<Point>)
    ensures FourFaults(s) <= |s|
    ensures (forall i :: 0 <= i < |s| ==> s[i].action.Some? && !IsOffensiveAction(s[i].action.value))
            ==> FourFaults(s) == |s|
  {
    if s != [] {
      FaultBreakdownCount(s[1..]);
      if s[0].action.Some? && !IsOffensiveAction(s[0].action.value) {
        var a := s[0].action.value;
        assert a == Out || a == NetFault || a == ServiceMiss || a == BlockOut;
      }
    }
  }

  /** Each fault point is charged to exactly one team. */
  lemma {:induction false} FaultPointsSplit(pts: seq<Point>)
    ensures |Filter(pts, OfKind(Red, Fault))| + |Filter(pts, OfKind(Blue, Fault))| == |Filter(pts, IsFaultPoint)|
  {
    if pts != [] {
      FaultPointsSplit(pts[1..]);
    }
  }

  /** A team's offensive sub-counts add up to its scored count when each of
      its scored points carries an offensive action. */
  lemma OffensiveBreakdownComplete(pts: seq<Point>, team: Team)
    requires forall i :: 0 <= i < |pts| && pts[i].team == team && pts[i].pointType == Scored
                         ==> HasOffensiveAction(pts[i])
    ensures var r := ByTeam(pts, team);
      r.attacks + r.aces + r.blocks + r.bidouilles + r.secondeMains + r.otherOffensive == r.scored
  {
    var scored := ScoredBy(pts, team);
    forall i | 0 <= i < |scored|
      ensures HasOffensiveAction(scored[i])
    {
      assert scored[i] in pts && OfKind(team, Scored)(scored[i]);
    }
    OffensiveBreakdownCount(scored);
  }

  /** The view's counts agree with the match's running statistics: what a
      team scored is the same, and the faults it committed are the
      opponent's fault points there. */
  lemma AgreesWithMatchStats(pts: seq<Point>)
    ensures ComputeStats(pts).blue.scored == MatchState.StatsOf(pts).blue.scored
    ensures ComputeStats(pts).red.scored == MatchState.StatsOf(pts).red.scored
    ensures ComputeStats(pts).blue.faults == MatchState.StatsOf(pts).red.faults
    ensures ComputeStats(pts).red.faults == MatchState.StatsOf(pts).blue.faults
  {
  }

  /** `'all' | number`. */
  datatype SetFilter = All | SetNumber(n: int)

  /** `completedSets.find(s => s.number === n)`. */
  function FindSet(sets: seq<SetData>, n: int): (r: Option<SetData>)
    ensures r.Some? ==> r.value in sets && r.value.number == n
    ensures r.None? <==> forall i :: 0 <= i < |sets| ==> sets[i].number != n
    ensures r.Some? ==> exists i :: 0 <= i < |sets| && sets[i] == r.value
                                    && forall j :: 0 <= j < i ==> sets[j].number != n
  {
    if sets == [] then None
    else if sets[0].number == n then Some(sets[0])
    else
      var r := FindSet(sets[1..], n);
      assert r.Some? ==> exists i :: 0 <= i < |sets[1..]| && sets[1..][i] == r.value
                                     && forall j :: 0 <= j < i ==> sets[1..][j].number != n;
      r
  }

  /** `filteredPoints`. */
  function FilteredPoints(filter: SetFilter, points: seq<Point>, completedSets: seq<SetData>,
                          currentSetPoints: seq<Point>, currentSetNumber: int): (r: seq<Point>)
    ensures filter == All ==> r == points
    ensures filter.SetNumber? && FindSet(completedSets, filter.n).Some?
            ==> r == FindSet(completedSets, filter.n).value.points
    ensures filter.SetNumber? && FindSet(completedSets, filter.n).None? && filter.n == currentSetNumber
            ==> r == currentSetPoints
    ensures filter.SetNumber? && (forall i :: 0 <= i < |completedSets| ==> completedSets[i].number != filter.n)
            && filter.n != currentSetNumber
            ==> r == []
  {
    match filter
    case All => points
    case SetNumber(n) =>
      match FindSet(completedSets, n)
      case Some(s) => s.points
      case None => if n == currentSetNumber then currentSetPoints else []
  }

  /** A completed set takes precedence over the current set of the same
      number. */
  lemma CompletedSetFirst(n: int, points: seq<Point>, completedSets: seq<SetData>,
                          currentSetPoints: seq<Point>, i: nat)
    requires i < |completedSets| && completedSets[i].number == n
    requires forall j :: 0 <= j < i ==> completedSets[j].number != n
    ensures FilteredPoints(SetNumber(n), points, completedSets, currentSetPoints, n) == completedSets[i].points
  {
    FindSetFirst(completedSets, n, i);
  }

  lemma {:induction false} FindSetFirst(sets: seq<SetData>, n: int, i: nat)
    requires i < |sets| && sets[i].number == n
    requires forall j :: 0 <= j < i ==> sets[j].number != n
    ensures FindSet(sets, n) == Some(sets[i])
  {
    if i > 0 {
      FindSetFirst(sets[1..], n, i - 1);
    }
  }

  /** `p => p.type === 'scored' && isOffensiveAction(p.action)`. */
  function IsHeatmapPoint(p: Point): bool
  {
    p.pointType == Scored && HasOffensiveAction(p)
  }

  /** `heatmapPoints`. */
  function HeatmapPoints(filtered: seq<Point>): (r: seq<Point>)
    ensures forall i :: 0 <= i < |r| ==> r[i].pointType == Scored && HasOffensiveAction(r[i])
    ensures forall i :: 0 <= i < |filtered| && filtered[i].pointType == Scored && HasOffensiveAction(filtered[i])
                        ==> filtered[i] in r
  {
    FilterKeeps(filtered, IsHeatmapPoint);
    Filter(filtered, IsHeatmapPoint)
  }

  /** The heatmap shows a subsequence of the filtered points, in order. */
  lemma HeatmapIsSubsequence(filtered: seq<Point>)
    ensures IsSubsequence(HeatmapPoints(filtered), filtered)
  {
    FilterIsSubsequence(filtered, IsHeatmapPoint);
  }

  datatype SetOption = SetOption(key: SetFilter, caption: string)

  /** The caption of a completed set, in the set selector and as a sheet name. */
  function SetCaption(n: int): string
  {
    "Set " + IntToString(n)
  }

  /** The caption of the set in progress in the set selector. */
  function CurrentSetCaption(n: int): string
  {
    "Set " + IntToString(n) + " (en cours)"
  }

  function CompletedSetOptions(sets: seq<SetData>): (r: seq<SetOption>)
    ensures |r| == |sets|
    ensures forall i :: 0 <= i < |sets| ==> r[i] == SetOption(SetNumber(sets[i].number), SetCaption(sets[i].number))
  {
    if sets == [] then []
    else [SetOption(SetNumber(sets[0].number), SetCaption(sets[0].number))] + CompletedSetOptions(sets[1..])
  }

  /** `setOptions`: all sets, the completed sets' options in order, then
      the current set only when its number is positive and it has points. */
  function SetOptions(completedSets: seq<SetData>, currentSetNumber: int, currentSetPoints: seq<Point>)
    : (r: seq<SetOption>)
    ensures |r| == 1 + |completedSets| + (if currentSetNumber > 0 && |currentSetPoints| > 0 then 1 else 0)
    ensures r[0].key == All
    ensures r[1..|completedSets| + 1] == CompletedSetOptions(completedSets)
    ensures currentSetNumber > 0 && |currentSetPoints| > 0
            ==> r[|r| - 1].key == SetNumber(currentSetNumber)
  {
    var completed := CompletedSetOptions(completedSets);
    var current := if currentSetNumber > 0 && |currentSetPoints| > 0
                   then [SetOption(SetNumber(currentSetNumber), CurrentSetCaption(currentSetNumber))]
                   else [];
    var r := [SetOption(All, "Tous les sets")] + completed + current;
    assert r[1..|completed| + 1] == completed;
    r
  }

  /** After "all sets", the selector offers each completed set under its own
      number, in order. */
  lemma SetOptionsKeys(completedSets: seq<SetData>, currentSetNumber: int, currentSetPoints: seq<Point>)
    ensures var r := SetOptions(completedSets, currentSetNumber, currentSetPoints);
      forall i :: 0 <= i < |completedSets| ==>
        r[i + 1].key == SetNumber(completedSets[i].number) && r[i + 1].caption == SetCaption(completedSets[i].number)
  {
    var r := SetOptions(completedSets, currentSetNumber, currentSetPoints);
    var c := CompletedSetOptions(completedSets);
    forall i | 0 <= i < |completedSets|
      ensures r[i + 1] == c[i]
    {
      assert r[1..|completedSets| + 1][i] == r[i + 1];
    }
  }
}
