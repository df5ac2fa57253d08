/** The tennis/padel game-set state of `src/hooks/useTennisScore.ts`: a
    left-to-right pass over the current set's points that turns points into
    games (deuce/advantage or golden point), games into a set (6 games with a
    2-game lead, tiebreak at 6-6), and derives the server and the display. */
module TennisScore {
  import opened Common
  import opened Text
  import opened SportsTypes

  /** The `let` counters of `computeTennisScore`. */
  datatype Counters = Counters(
    gamesBlue: nat, gamesRed: nat, pointsBlue: nat, pointsRed: nat,
    tiebreak: bool, setJustWon: Option<Team>, totalGames: nat)

  const Start: Counters := Counters(0, 0, 0, 0, false, None, 0)

  /** `{ blue, red }` display strings of the current game. */
  datatype GameScore = GameScore(blue: string, red: string)

  /** `TennisGameState`. */
  datatype TennisGameState = TennisGameState(
    games: Tally, gameScore: GameScore, tiebreak: bool, setJustWon: Option<Team>,
    gamesDisplay: string, servingTeam: Team, totalGamesInSet: nat)

  /** The team a point counts for: the one that benefits from it. */
  function RallyWinner(p: Point): (t: Team)
    ensures p.pointType == Fault ==> t == p.team
  {
    p.team
  }

  function AdvantageRule(metadata: Option<MatchMetadata>): (r: bool)
    ensures metadata == None || metadata.value.advantageRule == None ==> r
    ensures metadata.Some? && metadata.value.advantageRule.Some? ==> r == metadata.value.advantageRule.value
  {
    if metadata.Some? then metadata.value.advantageRule.GetOr(true) else true
  }

  function TiebreakEnabled(metadata: Option<MatchMetadata>): (r: bool)
    ensures metadata == None || metadata.value.tiebreakEnabled == None ==> r
    ensures metadata.Some? && metadata.value.tiebreakEnabled.Some? ==> r == metadata.value.tiebreakEnabled.value
  {
    if metadata.Some? then metadata.value.tiebreakEnabled.GetOr(true) else true
  }

  function PointsOf(t: Team, pb: int, pr: int): int
  {
    if t == Blue then pb else pr
  }

  /** The lead a game needs: two points with advantage, one with golden point. */
  function GameLead(advantageRule: bool): int
  {
    if advantageRule then 2 else 1
  }

  /** `checkGameWinner`: a side wins the game with at least four points and
      the lead the rule asks for. */
  function CheckGameWinner(pb: nat, pr: nat, advantageRule: bool): (w: Option<Team>)
    ensures w == Some(Blue) <==> pb >= 4 && pb - pr >= GameLead(advantageRule)
    ensures w == Some(Red) <==> pr >= 4 && pr - pb >= GameLead(advantageRule)
  {
    if pb < 4 && pr < 4 then None
    else if !advantageRule then
      if pb >= 4 && pb > pr then Some(Blue)
      else if pr >= 4 && pr > pb then Some(Red)
      else None
    else if pb >= 4 && pb - pr >= 2 then Some(Blue)
    else if pr >= 4 && pr - pb >= 2 then Some(Red)
    else None
  }

  /** `checkSetWinner`: six games and a two-game lead. The `tiebreakEnabled`
      argument is accepted and not read. */
  function CheckSetWinner(gb: nat, gr: nat, tiebreakEnabled: bool): (w: Option<Team>)
    ensures w == Some(Blue) <==> gb >= 6 && gb - gr >= 2
    ensures w == Some(Red) <==> gr >= 6 && gr - gb >= 2
  {
    if gb >= 6 && gb - gr >= 2 then Some(Blue)
    else if gr >= 6 && gr - gb >= 2 then Some(Red)
    else None
  }

  /** The set winner does not depend on whether tiebreaks are enabled. */
  lemma SetWinnerIgnoresTiebreakFlag(gb: nat, gr: nat)
    ensures CheckSetWinner(gb, gr, true) == CheckSetWinner(gb, gr, false)
  {
  }

  function Max(a: int, b: int): int { if a >= b then a else b }
  function Min(a: int, b: int): int { if a <= b then a else b }

  predicate TiebreakOver(pb: nat, pr: nat)
  {
    Max(pb, pr) >= 7 && Max(pb, pr) - Min(pb, pr) >= 2
  }

  function Bump(t: Team, who: Team): nat
  {
    if t == who then 1 else 0
  }

  /** One iteration of the `for` loop: the effect of a point won by `winner`. */
  function Step(c: Counters, winner: Team, advantageRule: bool, tiebreakEnabled: bool): Counters
  {
    var pb := c.pointsBlue + Bump(winner, Blue);
    var pr := c.pointsRed + Bump(winner, Red);
    if c.tiebreak then
      if TiebreakOver(pb, pr) then
        var tbWinner := if pb > pr then Blue else Red;
        Counters(c.gamesBlue + Bump(tbWinner, Blue), c.gamesRed + Bump(tbWinner, Red),
                 0, 0, false, Some(tbWinner), c.totalGames + 1)
      else
        c.(pointsBlue := pb, pointsRed := pr)
    else
      match CheckGameWinner(pb, pr, advantageRule)
      case Some(gameWinner) =>
        var gb := c.gamesBlue + Bump(gameWinner, Blue);
        var gr := c.gamesRed + Bump(gameWinner, Red);
        var setWinner := CheckSetWinner(gb, gr, tiebreakEnabled);
        Counters(gb, gr, 0, 0,
                 setWinner.None? && tiebreakEnabled && gb == 6 && gr == 6,
                 setWinner, c.totalGames + 1)
      case None =>
        c.(pointsBlue := pb, pointsRed := pr, setJustWon := None)
  }

  /** The counters after the loop has seen every point of `points`. */
  function Fold(points: seq<Point>, advantageRule: bool, tiebreakEnabled: bool): Counters
  {
    if points == [] then Start
    else Step(Fold(points[..|points| - 1], advantageRule, tiebreakEnabled),
              RallyWinner(points[|points| - 1]), advantageRule, tiebreakEnabled)
  }

  /** Appending a point is one more step. */
  lemma FoldSnoc(points: seq<Point>, p: Point, advantageRule: bool, tiebreakEnabled: bool)
    ensures Fold(points + [p], advantageRule, tiebreakEnabled)
            == Step(Fold(points, advantageRule, tiebreakEnabled), RallyWinner(p), advantageRule, tiebreakEnabled)
  {
    assert (points + [p])[..|points|] == points;
  }

  /** Extending the prefix by one point is one more step. */
  lemma FoldPrefix(points: seq<Point>, i: nat, advantageRule: bool, tiebreakEnabled: bool)
    requires i < |points|
    ensures Fold(points[..i + 1], advantageRule, tiebreakEnabled)
            == Step(Fold(points[..i], advantageRule, tiebreakEnabled), RallyWinner(points[i]), advantageRule, tiebreakEnabled)
  {
    assert points[..i + 1][..i] == points[..i];
  }

  /** What every reachable state of the fold satisfies. */
  predicate Inv(c: Counters, advantageRule: bool, tiebreakEnabled: bool)
  {
    && c.totalGames == c.gamesBlue + c.gamesRed
    && (c.tiebreak ==>
          && c.gamesBlue == 6 && c.gamesRed == 6 && tiebreakEnabled
          && c.setJustWon == None
          && !TiebreakOver(c.pointsBlue, c.pointsRed))
    && (!c.tiebreak ==> CheckGameWinner(c.pointsBlue, c.pointsRed, advantageRule) == None)
    && (!c.tiebreak && !advantageRule ==> c.pointsBlue <= 3 && c.pointsRed <= 3)
  }

  lemma StepKeepsInv(c: Counters, winner: Team, advantageRule: bool, tiebreakEnabled: bool)
    requires Inv(c, advantageRule, tiebreakEnabled)
    ensures Inv(Step(c, winner, advantageRule, tiebreakEnabled), advantageRule, tiebreakEnabled)
  {
  }

  /** Every state the fold reaches keeps the invariant: the games add up to
      the completed-game counter, a tiebreak only runs at 6-6 with tiebreaks
      enabled, leftover points never form a won game, and under golden point
      neither side holds more than three leftover points. */
  lemma {:induction false} FoldInv(points: seq<Point>, advantageRule: bool, tiebreakEnabled: bool)
    ensures Inv(Fold(points, advantageRule, tiebreakEnabled), advantageRule, tiebreakEnabled)
  {
    if points != [] {
      FoldInv(points[..|points| - 1], advantageRule, tiebreakEnabled);
      StepKeepsInv(Fold(points[..|points| - 1], advantageRule, tiebreakEnabled),
                   RallyWinner(points[|points| - 1]), advantageRule, tiebreakEnabled);
    }
  }

  /** A tiebreak point: the tiebreak ends exactly when a side reaches seven
      with a two-point lead; ending it gives one game to the side that won the
      point, resets the points, leaves tiebreak mode and reports that side as
      the set winner. Otherwise only the point count moves. */
  lemma TiebreakPoint(c: Counters, winner: Team, advantageRule: bool, tiebreakEnabled: bool)
    requires Inv(c, advantageRule, tiebreakEnabled) && c.tiebreak
    ensures var n := Step(c, winner, advantageRule, tiebreakEnabled);
      var pb := c.pointsBlue + Bump(winner, Blue);
      var pr := c.pointsRed + Bump(winner, Red);
      && (n.tiebreak <==> !TiebreakOver(pb, pr))
      && (!n.tiebreak ==>
            && PointsOf(winner, pb, pr) >= 7
            && PointsOf(winner, pb, pr) - PointsOf(Other(winner), pb, pr) >= 2
            && n.gamesBlue == c.gamesBlue + Bump(winner, Blue)
            && n.gamesRed == c.gamesRed + Bump(winner, Red)
            && n.pointsBlue == 0 && n.pointsRed == 0
            && n.setJustWon == Some(winner)
            && n.totalGames == c.totalGames + 1)
      && (n.tiebreak ==>
            && n.gamesBlue == c.gamesBlue && n.gamesRed == c.gamesRed
            && n.pointsBlue == pb && n.pointsRed == pr
            && n.setJustWon == None)
  {
  }

  /** A point outside a tiebreak: a game is completed exactly when the
      winner's new count wins it, and then the game goes to the side that won
      the point; a tiebreak can only start at 6-6 with tiebreaks enabled. */
  lemma RegularPoint(c: Counters, winner: Team, advantageRule: bool, tiebreakEnabled: bool)
    requires Inv(c, advantageRule, tiebreakEnabled) && !c.tiebreak
    ensures var n := Step(c, winner, advantageRule, tiebreakEnabled);
      var pb := c.pointsBlue + Bump(winner, Blue);
      var pr := c.pointsRed + Bump(winner, Red);
      && (n.totalGames == c.totalGames + 1 <==> CheckGameWinner(pb, pr, advantageRule) == Some(winner))
      && (n.totalGames == c.totalGames + 1 ==>
            n.gamesBlue == c.gamesBlue + Bump(winner, Blue) && n.gamesRed == c.gamesRed + Bump(winner, Red)
            && n.pointsBlue == 0 && n.pointsRed == 0)
      && (n.totalGames == c.totalGames ==>
            n.gamesBlue == c.gamesBlue && n.gamesRed == c.gamesRed
            && n.pointsBlue == pb && n.pointsRed == pr && !n.tiebreak)
      && (n.tiebreak ==> n.gamesBlue == 6 && n.gamesRed == 6 && tiebreakEnabled)
  {
  }

  /** `setJustWon` after a point is set exactly when that point ended a
      tiebreak, or won a game after which some side has six games and a
      two-game lead; any other point outside a tiebreak clears it. */
  lemma SetJustWonMeaning(c: Counters, winner: Team, advantageRule: bool, tiebreakEnabled: bool)
    requires Inv(c, advantageRule, tiebreakEnabled)
    ensures var n := Step(c, winner, advantageRule, tiebreakEnabled);
      && (n.setJustWon.Some? <==>
            || (c.tiebreak && !n.tiebreak)
            || (!c.tiebreak && n.totalGames == c.totalGames + 1
                && CheckSetWinner(n.gamesBlue, n.gamesRed, tiebreakEnabled).Some?))
      && (c.tiebreak && !n.tiebreak ==> n.setJustWon == Some(winner))
      && (!c.tiebreak && n.totalGames == c.totalGames ==> n.setJustWon == None)
  {
  }

  /** Who serves tiebreak point `played` when `first` serves the first one:
      the first point, then the other side for two, then two each. */
  function TiebreakServer(first: Team, played: nat): Team
  {
    if played == 0 then first
    else if ((played - 1) / 2) % 2 == 0 then Other(first)
    else first
  }

  /** The server: alternating every completed game, and inside a tiebreak
      rotating from the server the game parity designates. */
  function ServingTeam(c: Counters, initialServer: Team): Team
  {
    var parityServer := if c.totalGames % 2 == 0 then initialServer else Other(initialServer);
    if c.tiebreak then TiebreakServer(parityServer, c.pointsBlue + c.pointsRed)
    else parityServer
  }

  /** The first tiebreak point is served by `first`, the next two by the
      other side, and from then on service changes every two points. */
  lemma TiebreakServePattern(first: Team, k: nat)
    ensures TiebreakServer(first, 0) == first
    ensures TiebreakServer(first, 1) == Other(first)
    ensures TiebreakServer(first, 2 * k + 1) == TiebreakServer(first, 2 * k + 2)
    ensures TiebreakServer(first, 2 * k + 3) == Other(TiebreakServer(first, 2 * k + 1))
  {
    var a, b, c := 2 * k + 1, 2 * k + 2, 2 * k + 3;
    assert (a - 1) / 2 == k;
    assert (b - 1) / 2 == k;
    assert (c - 1) / 2 == k + 1;
  }

  /** Outside a tiebreak the initial server serves exactly the games with an
      even number of games completed before them; in any tiebreak the fold
      reaches, the tiebreak's first server is the initial server. */
  lemma {:induction false} ServeRotation(points: seq<Point>, advantageRule: bool, tiebreakEnabled: bool,
                                         initialServer: Team)
    ensures var c := Fold(points, advantageRule, tiebreakEnabled);
      && (!c.tiebreak ==> (ServingTeam(c, initialServer) == initialServer <==> c.totalGames % 2 == 0))
      && (c.tiebreak ==> ServingTeam(c, initialServer) == TiebreakServer(initialServer, c.pointsBlue + c.pointsRed))
  {
    FoldInv(points, advantageRule, tiebreakEnabled);
  }

  /** `toTennis`. */
  function TennisCall(pts: nat): string
  {
    if pts == 0 then "0" else if pts == 1 then "15" else if pts == 2 then "30" else "40"
  }

  /** `formatGameScore`: call the points until both sides have three, show
      deuce as 40-40, and the leader's advantage as "Ad" only under the
      advantage rule. */
  function FormatGameScore(pb: nat, pr: nat, advantageRule: bool): (r: GameScore)
    ensures pb < 3 || pr < 3 ==> r == GameScore(TennisCall(pb), TennisCall(pr))
    ensures pb >= 3 && pr >= 3 && pb == pr ==> r == GameScore("40", "40")
    ensures !advantageRule ==> r.blue != "Ad" && r.red != "Ad"
    ensures advantageRule && pb >= 3 && pr >= 3 && pb > pr ==> r == GameScore("Ad", "40")
    ensures advantageRule && pb >= 3 && pr >= 3 && pr > pb ==> r == GameScore("40", "Ad")
  {
    if pb < 3 || pr < 3 then GameScore(TennisCall(pb), TennisCall(pr))
    else if pb == pr then GameScore("40", "40")
    else if !advantageRule then GameScore("40", "40")
    else if pb > pr then GameScore("Ad", "40")
    else GameScore("40", "Ad")
  }

  /** The returned `TennisGameState` built from the final counters. */
  function Summary(c: Counters, advantageRule: bool, initialServer: Team): TennisGameState
  {
    TennisGameState(
      Tally(c.gamesBlue, c.gamesRed),
      if c.tiebreak then GameScore(NatToString(c.pointsBlue), NatToString(c.pointsRed))
      else FormatGameScore(c.pointsBlue, c.pointsRed, advantageRule),
      c.tiebreak,
      c.setJustWon,
      NatToString(c.gamesBlue) + " - " + NatToString(c.gamesRed),
      ServingTeam(c, initialServer),
      c.totalGames)
  }

  /** One rally of a tie-break, written as the scoring loop does it: add the
      point, then close the tie-break at seven with a two-point margin. */
  method PlayTiebreakRally(c: Counters, winner: Team, advantageRule: bool, tiebreakEnabled: bool)
    returns (n: Counters)
    requires c.tiebreak
    ensures n == Step(c, winner, advantageRule, tiebreakEnabled)
  {
    var gamesBlue, gamesRed, gamePointsBlue, gamePointsRed := c.gamesBlue, c.gamesRed, c.pointsBlue, c.pointsRed;
    var tiebreak, setJustWon, totalGamesCompleted := c.tiebreak, c.setJustWon, c.totalGames;
    if winner == Blue { gamePointsBlue := gamePointsBlue + 1; }
    else { gamePointsRed := gamePointsRed + 1; }
    var maxTB := Max(gamePointsBlue, gamePointsRed);
    var minTB := Min(gamePointsBlue, gamePointsRed);
    if maxTB >= 7 && maxTB - minTB >= 2 {
      var tbWinner := if gamePointsBlue > gamePointsRed then Blue else Red;
      if tbWinner == Blue { gamesBlue := gamesBlue + 1; }
      else { gamesRed := gamesRed + 1; }
      totalGamesCompleted := totalGamesCompleted + 1;
      setJustWon := Some(tbWinner);
      gamePointsBlue := 0;
      gamePointsRed := 0;
      tiebreak := false;
    }
    n := Counters(gamesBlue, gamesRed, gamePointsBlue, gamePointsRed, tiebreak, setJustWon, totalGamesCompleted);
  }

  /** One rally of an ordinary game: add the point, close the game when
      `CheckGameWinner` says so, then check the set and the 6-6 tie-break. */
  method PlayRegularRally(c: Counters, winner: Team, advantageRule: bool, tiebreakEnabled: bool)
    returns (n: Counters)
    requires !c.tiebreak
    ensures n == Step(c, winner, advantageRule, tiebreakEnabled)
  {
    var gamesBlue, gamesRed, gamePointsBlue, gamePointsRed := c.gamesBlue, c.gamesRed, c.pointsBlue, c.pointsRed;
    var tiebreak, setJustWon, totalGamesCompleted := c.tiebreak, c.setJustWon, c.totalGames;
    if winner == Blue { gamePointsBlue := gamePointsBlue + 1; }
    else { gamePointsRed := gamePointsRed + 1; }
    var gameWinner := CheckGameWinner(gamePointsBlue, gamePointsRed, advantageRule);
    if gameWinner.Some? {
      if gameWinner.value == Blue { gamesBlue := gamesBlue + 1; }
      else { gamesRed := gamesRed + 1; }
      totalGamesCompleted := totalGamesCompleted + 1;
      gamePointsBlue := 0;
      gamePointsRed := 0;
      setJustWon := None;
      var sw := CheckSetWinner(gamesBlue, gamesRed, tiebreakEnabled);
      if sw.Some? {
        setJustWon := sw;
      } else if tiebreakEnabled && gamesBlue == 6 && gamesRed == 6 {
        tiebreak := true;
      }
    } else {
      setJustWon := None;
    }
    n := Counters(gamesBlue, gamesRed, gamePointsBlue, gamePointsRed, tiebreak, setJustWon, totalGamesCompleted);
  }

  /** `computeTennisScore`: the `for` loop over the points, then the
      server and display derived from the final counters. */
  method ComputeTennisScore(points: seq<Point>, metadata: Option<MatchMetadata>, initialServer: Team)
    returns (r: TennisGameState)
    ensures r == Summary(Fold(points, AdvantageRule(metadata), TiebreakEnabled(metadata)),
                         AdvantageRule(metadata), initialServer)
    ensures r.totalGamesInSet == r.games.blue + r.games.red
    ensures r.tiebreak ==> r.games == Tally(6, 6) && TiebreakEnabled(metadata) && r.setJustWon == None
  {
    var advantageRule := AdvantageRule(metadata);
    var tiebreakEnabled := TiebreakEnabled(metadata);
    var c := Start;
    for i := 0 to |points|
      invariant c == Fold(points[..i], advantageRule, tiebreakEnabled)
    {
      FoldPrefix(points, i, advantageRule, tiebreakEnabled);
      var winner := RallyWinner(points[i]);
      if c.tiebreak {
        c := PlayTiebreakRally(c, winner, advantageRule, tiebreakEnabled);
      } else {
        c := PlayRegularRally(c, winner, advantageRule, tiebreakEnabled);
      }
    }
    assert points[..|points|] == points;
    FoldInv(points, advantageRule, tiebreakEnabled);
    r := Summary(c, advantageRule, initialServer);
  }

  /** A point won by `t`, as the fold sees it. */
  function WonBy(t: Team): Point
  {
    Point("", t, Scored, Attack, 0.0, 0.0, 0, None)
  }

  /** Under the advantage rule, up to three straight points for blue from
      an empty set only raise blue's game points. */
  lemma {:induction false} BlueLeadsGame(points: seq<Point>, k: nat)
    requires k <= 3 && k <= |points| && forall i :: 0 <= i < |points| ==> points[i].team == Blue
    ensures Fold(points[..k], true, true) == Counters(0, 0, k, 0, false, None, 0)
  {
    if k == 0 {
      assert points[..0] == [];
    } else {
      BlueLeadsGame(points, k - 1);
      FoldPrefix(points, k - 1, true, true);
    }
  }

  /** Under the advantage rule, four straight points for blue from an
      empty set win blue the first game and clear the game points. */
  lemma FourBlueCounters(points: seq<Point>)
    requires |points| == 4 && forall i :: 0 <= i < |points| ==> points[i].team == Blue
    ensures Fold(points, true, true) == Counters(1, 0, 0, 0, false, None, 1)
  {
    BlueLeadsGame(points, 3);
    assert points[..|points| - 1] == points[..3];
  }

  /** With the default rules, four straight points for blue from an empty
      set give blue the first game, reset the game score to 0-0 and hand
      the serve to red. */
  lemma FourBluePoints(points: seq<Point>)
    requires |points| == 4 && forall i :: 0 <= i < |points| ==> points[i].team == Blue
    ensures var r := Summary(Fold(points, AdvantageRule(None), TiebreakEnabled(None)),
                             AdvantageRule(None), Blue);
      r.games == Tally(1, 0) && r.gameScore == GameScore("0", "0") && r.setJustWon == None
      && r.servingTeam == Red
  {
    FourBlueCounters(points);
    assert FormatGameScore(0, 0, true) == GameScore("0", "0");
  }
}
