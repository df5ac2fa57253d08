/** The row data of the spreadsheet export in `src/lib/excelExport.ts`: the
    duration text, the per-player and per-team rows of each set sheet, the
    list of sets exported and the set wins of the summary sheet. Building
    and writing the workbook itself is not modelled. */
module ExcelExport {
  import opened Common
  import opened Seqs
  import opened Text
  import opened VolleyballTypes
  import MatchState
  import HeatmapView

  /** `formatDuration` for a whole, non-negative number of seconds:
      minutes, then the seconds padded to two digits. */
  function FormatDuration(seconds: nat): string
  {
    NatToString(seconds / 60) + "min " + PadStart2(NatToString(seconds % 60)) + "s"
  }

  /** `r` reads back as `seconds`: the digits before "min " are the
      minutes, the two digits before the final "s" the remaining seconds. */
  predicate ReadsAsDuration(r: string, seconds: nat)
  {
    && |r| >= 8
    && r[|r| - 7..|r| - 3] == "min " && r[|r| - 1] == 's'
    && (forall i :: 0 <= i < |r| - 7 ==> IsDigit(r[i]))
    && IsDigit(r[|r| - 3]) && IsDigit(r[|r| - 2])
    && DecimalValue(r[|r| - 3..|r| - 1]) < 60
    && 60 * DecimalValue(r[..|r| - 7]) + DecimalValue(r[|r| - 3..|r| - 1]) == seconds
  }

  /** The duration text reads back as the duration. */
  lemma FormatDurationRoundTrip(seconds: nat)
    ensures ReadsAsDuration(FormatDuration(seconds), seconds)
  {
    var minutes, secs := seconds / 60, seconds % 60;
    var m := NatToString(minutes);
    var ss := PadStart2(NatToString(secs));
    NatToStringRoundTrip(minutes);
    NatToStringRoundTrip(secs);
    PadStart2Value(NatToString(secs));
    NatToStringShort(secs);
    DurationText(m, ss, minutes, secs);
    assert FormatDuration(seconds) == m + "min " + ss + "s";
    assert 60 * minutes + secs == seconds;
  }

  /** Where the parts of `m + "min " + ss + "s"` sit, and what they read
      as. */
  lemma DurationText(m: string, ss: string, minutes: nat, secs: nat)
    requires |m| >= 1 && |ss| == 2
    requires forall i :: 0 <= i < |m| ==> IsDigit(m[i])
    requires forall i :: 0 <= i < |ss| ==> IsDigit(ss[i])
    requires DecimalValue(m) == minutes && DecimalValue(ss) == secs && secs < 60
    ensures ReadsAsDuration(m + "min " + ss + "s", 60 * minutes + secs)
  {
    var r := m + "min " + ss + "s";
    assert r[..|r| - 7] == m;
    assert r[|r| - 3..|r| - 1] == ss;
  }

  /** A number below 100 has at most two digits. */
  lemma NatToStringShort(n: nat)
    requires n < 100
    ensures |NatToString(n)| <= 2
  {
    if n >= 10 {
      assert NatToString(n) == NatToString(n / 10) + [Digit(n % 10)];
    }
  }

  /** `set.duration > 0 ? formatDuration(set.duration) : ''`. */
  function DurationCell(duration: Option<int>): (r: string)
    ensures r != "" <==> duration.Some? && duration.value > 0
  {
    if duration.Some? && duration.value > 0 then FormatDuration(duration.value) else ""
  }

  /** `Math.round(100 * pos / total)` for `total > 0`, else 0, computed
      exactly (round half up). */
  function EfficiencyPercent(pos: nat, total: nat): (e: nat)
    requires pos <= total
    ensures total == 0 ==> e == 0
    ensures e <= 100
    ensures total > 0 ==> 2 * total * e <= 200 * pos + total < 2 * total * (e + 1)
  {
    if total == 0 then 0
    else
      var n, d := 200 * pos + total, 2 * total;
      QuotientBounds(n, d);
      QuotientAtMost(n, d, 100);
      n / d
  }

  /** Euclidean division brackets the dividend. */
  lemma QuotientBounds(n: nat, d: nat)
    requires d > 0
    ensures d * (n / d) <= n < d * (n / d + 1)
  {
    var q, m := n / d, n % d;
    assert n == d * q + m && 0 <= m < d;
    assert d * (q + 1) == d * q + d;
  }

  /** A dividend below `d * (k + 1)` has a quotient of at most `k`. */
  lemma QuotientAtMost(n: nat, d: nat, k: nat)
    requires d > 0 && n < d * (k + 1)
    ensures n / d <= k
  {
    var q := n / d;
    QuotientBounds(n, d);
    if q > k {
      MulMonotone(d, k + 1, q);
    }
  }

  /** Multiplying by a natural number keeps the order. */
  lemma {:induction false} MulMonotone(d: nat, a: nat, b: nat)
    requires a <= b
    ensures d * a <= d * b
  {
    if a < b {
      MulMonotone(d, a, b - 1);
      assert d * b == d * (b - 1) + d;
    }
  }

  /** One line of `playerSetStats`. */
  datatype PlayerRow = PlayerRow(
    number: string, name: string,
    attacks: nat, aces: nat, blocks: nat, bidouilles: nat, secondeMains: nat, otherOffensive: nat,
    offensivePoints: nat, faultWins: nat, totalPositive: nat, faultsCommitted: nat, totalActions: nat,
    efficiency: nat)

  /** `p => p.playerId === id`. */
  function ByPlayer(id: string): Point -> bool
  {
    (p: Point) => p.playerId == Some(id)
  }

  /** The row of one player over `pts`: only the points attributed to
      that player count. */
  function PlayerRowFor(pts: seq<Point>, player: Player): (r: PlayerRow)
    ensures r.number == player.number
    ensures r.totalActions <= |Filter(pts, ByPlayer(player.id))|
  {
    RowOf(Filter(pts, ByPlayer(player.id)), player)
  }

  /** The row built from the player's own points `pp`. */
  function RowOf(pp: seq<Point>, player: Player): (r: PlayerRow)
    ensures r.number == player.number
    ensures r.totalActions == r.totalPositive + r.faultsCommitted
    ensures r.totalPositive == r.offensivePoints + r.faultWins
    ensures r.totalActions <= |pp|
    ensures r.totalActions == 0 ==> r.efficiency == 0
    ensures r.efficiency <= 100
  {
    var scored := Filter(pp, OfKind(Blue, Scored));
    var faultWins := Filter(pp, OfKind(Blue, Fault));
    var faults := Filter(pp, OfKind(Red, Fault));
    MatchState.KindsSplitTeam(pp, Blue);
    FilterDisjointCount(pp, OfTeam(Blue), OfKind(Red, Fault));
    var totalPositive := |scored| + |faultWins|;
    var total := totalPositive + |faults|;
    PlayerRow(
      player.number, if player.name == "" then "—" else player.name,
      |Filter(scored, HeatmapView.WithAction(Attack))|, |Filter(scored, HeatmapView.WithAction(Ace))|,
      |Filter(scored, HeatmapView.WithAction(Block))|, |Filter(scored, HeatmapView.WithAction(Bidouille))|,
      |Filter(scored, HeatmapView.WithAction(SecondeMain))|,
      |Filter(scored, HeatmapView.WithAction(OtherOffensive))|,
      |scored|, |faultWins|, totalPositive, |faults|, total,
      EfficiencyPercent(totalPositive, total))
  }

  /** A point attributed to somebody else does not change a player's row. */
  lemma PlayerRowIgnoresOthers(pts: seq<Point>, p: Point, player: Player)
    requires p.playerId != Some(player.id)
    ensures PlayerRowFor(pts + [p], player) == PlayerRowFor(pts, player)
  {
    var f := ByPlayer(player.id);
    FilterAppend(pts, [p], f);
    assert [p][1..] == [];
    assert Filter([p], f) == [];
    assert Filter(pts + [p], f) == Filter(pts, f);
  }

  /** `playerSetStats`: one row per roster player, in roster order. */
  function PlayerSetStats(pts: seq<Point>, players: seq<Player>): (r: seq<PlayerRow>)
    ensures |r| == |players|
    ensures forall i :: 0 <= i < |players| ==> r[i] == PlayerRowFor(pts, players[i])
  {
    if players == [] then [] else [PlayerRowFor(pts, players[0])] + PlayerSetStats(pts, players[1..])
  }

  /** An entry of `allSets`. */
  datatype SheetSet = SheetSet(caption: string, pts: seq<Point>, score: Tally, duration: Option<int>)

  function CompletedEntry(s: SetData): SheetSet
  {
    SheetSet(HeatmapView.SetCaption(s.number), s.points, s.score, s.duration)
  }

  function CompletedEntries(sets: seq<SetData>): (r: seq<SheetSet>)
    ensures |r| == |sets|
    ensures forall i :: 0 <= i < |sets| ==> r[i] == CompletedEntry(sets[i])
  {
    seq(|sets|, i requires 0 <= i < |sets| => CompletedEntry(sets[i]))
  }

  /** `allSets`: every completed set in order, then the current set when it
      has points, scored from its points and with duration 0. */
  function AllSetsOf(completedSets: seq<SetData>, currentSetPoints: seq<Point>, currentSetNumber: int)
    : seq<SheetSet>
  {
    CompletedEntries(completedSets)
    + if |currentSetPoints| > 0
      then [SheetSet(HeatmapView.SetCaption(currentSetNumber), currentSetPoints,
                     MatchState.ScoreOf(currentSetPoints), Some(0))]
      else []
  }

  lemma AllSetsShape(completedSets: seq<SetData>, currentSetPoints: seq<Point>, currentSetNumber: int)
    ensures var r := AllSetsOf(completedSets, currentSetPoints, currentSetNumber);
      && |r| == |completedSets| + (if |currentSetPoints| > 0 then 1 else 0)
      && (forall i :: 0 <= i < |completedSets| ==> r[i].pts == completedSets[i].points
                                                   && r[i].score == completedSets[i].score)
      && (|currentSetPoints| > 0 ==>
            r[|r| - 1].pts == currentSetPoints && r[|r| - 1].duration == Some(0)
            && r[|r| - 1].score.blue + r[|r| - 1].score.red == |currentSetPoints|)
  {
  }

  /** `allSets.flatMap(s => s.pts)`. */
  function SheetPoints(sets: seq<SheetSet>): seq<Point>
  {
    if sets == [] then [] else SheetPoints(sets[..|sets| - 1]) + sets[|sets| - 1].pts
  }

  /** The summary sheet covers exactly the match's points, in order. */
  lemma {:induction false} SummaryCoversAllPoints(completedSets: seq<SetData>, currentSetPoints: seq<Point>,
                                                  currentSetNumber: int)
    ensures SheetPoints(AllSetsOf(completedSets, currentSetPoints, currentSetNumber))
            == MatchState.AllPointsOf(completedSets, currentSetPoints)
  {
    CompletedPoints(completedSets);
    var c := CompletedEntries(completedSets);
    var r := AllSetsOf(completedSets, currentSetPoints, currentSetNumber);
    if |currentSetPoints| > 0 {
      assert r[..|r| - 1] == c;
    } else {
      assert r == c;
    }
  }

  lemma {:induction false} CompletedPoints(sets: seq<SetData>)
    ensures SheetPoints(CompletedEntries(sets)) == MatchState.SetsPoints(sets)
  {
    if sets != [] {
      var c := CompletedEntries(sets);
      CompletedPoints(sets[..|sets| - 1]);
      assert c[..|c| - 1] == CompletedEntries(sets[..|sets| - 1]);
    }
  }

  /** The `forEach`/`push` assembly of `allSets`. */
  method BuildAllSets(completedSets: seq<SetData>, currentSetPoints: seq<Point>, currentSetNumber: int)
    returns (allSets: seq<SheetSet>)
    ensures allSets == AllSetsOf(completedSets, currentSetPoints, currentSetNumber)
  {
    allSets := [];
    for i := 0 to |completedSets|
      invariant allSets == CompletedEntries(completedSets[..i])
    {
      var s := completedSets[i];
      allSets := allSets + [SheetSet(HeatmapView.SetCaption(s.number), s.points, s.score, s.duration)];
      assert completedSets[..i + 1][..i] == completedSets[..i];
    }
    assert completedSets[..|completedSets|] == completedSets;
    if |currentSetPoints| > 0 {
      var blue := |Filter(currentSetPoints, OfTeam(Blue))|;
      var red := |Filter(currentSetPoints, OfTeam(Red))|;
      allSets := allSets + [SheetSet(HeatmapView.SetCaption(currentSetNumber), currentSetPoints,
                                     Tally(blue, red), Some(0))];
    }
  }

}
