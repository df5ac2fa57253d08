/** The read-only court of `src/components/CourtDisplay.tsx`: which recorded
    points get a marker, the letter drawn in each marker and the court
    colour, per sport. The drawing itself is not modelled. */
module CourtDisplay {
  import opened Common
  import opened Seqs
  import opened SportsTypes

  const VolleyActionShort: map<ActionType, string> := map[
    Attack := "A", Ace := "As", Block := "B", Bidouille := "Bi", SecondeMain := "2M",
    Out := "O", NetFault := "F", ServiceMiss := "SL", BlockOut := "BO",
    OtherOffensive := ""]

  const BasketActionShort: map<ActionType, string> := map[
    FreeThrow := "1", TwoPoints := "2", ThreePoints := "3",
    MissedShot := "X", Turnover := "T", FoulCommitted := "F"]

  const TennisActionShort: map<ActionType, string> := map[
    TennisAce := "As", WinnerForehand := "CD", WinnerBackhand := "R",
    VolleyWinner := "V", Smash := "Sm", DropShotWinner := "Am",
    OtherTennisWinner := "+",
    DoubleFault := "DF", UnforcedErrorForehand := "eCD", UnforcedErrorBackhand := "eR",
    NetError := "F", OutLong := "OL", OutWide := "OW"]

  const PadelActionShort: map<ActionType, string> := map[
    Vibora := "Vi", Bandeja := "Bd", SmashPadel := "Sm", Volee := "V",
    Bajada := "Bj", ChiquitaWinner := "Ch", Par3 := "P3", OtherPadelWinner := "+",
    PadelDoubleFault := "DF", PadelUnforcedError := "FD", PadelNetError := "F",
    PadelOut := "O", GrilleError := "Gr", VitreError := "Vt"]

  /** `getActionShort`: the sport's letter table, volleyball's by default. */
  function ActionShort(sport: Sport): map<ActionType, string>
  {
    match sport
    case Basketball => BasketActionShort
    case Tennis => TennisActionShort
    case Padel => PadelActionShort
    case _ => VolleyActionShort
  }

  /** `getCourtBackground`: the sport's court colour, volleyball's by
      default. */
  function CourtBackground(sport: Sport): string
  {
    match sport
    case Basketball => "hsl(30, 50%, 35%)"
    case Tennis => "hsl(15, 60%, 40%)"
    case Padel => "hsl(210, 55%, 30%)"
    case _ => "hsl(142, 40%, 28%)"
  }

  /** Each sport's court has a colour of its own. */
  lemma CourtColoursDistinct()
    ensures forall s1: Sport, s2: Sport :: s1 != s2 ==> CourtBackground(s1) != CourtBackground(s2)
  {
    assert CourtBackground(Basketball)[4] == '3';
    assert CourtBackground(Tennis)[4] == '1';
    assert CourtBackground(Padel)[4] == '2';
    assert CourtBackground(Volleyball)[4] == '1' && CourtBackground(Volleyball)[5] == '4';
    assert CourtBackground(Tennis)[5] == '5';
  }

  /** Every letter fits a marker: at most three characters, and empty only
      for volleyball's "Other" offensive key. */
  lemma LettersFitMarker(sport: Sport, a: ActionType)
    requires a in ActionShort(sport)
    ensures |ActionShort(sport)[a]| <= 3
    ensures ActionShort(sport)[a] == [] <==> sport == Volleyball && a == OtherOffensive
  {
  }

  /** `ACTION_SHORT[point.action] ?? null`. */
  function ActionLetter(sport: Sport, a: ActionType): (r: Option<string>)
    ensures r.Some? <==> a in ActionShort(sport)
    ensures r.Some? ==> r.value == ActionShort(sport)[a]
  {
    if a in ActionShort(sport) then Some(ActionShort(sport)[a]) else None
  }

  /** A letter is drawn only when the lookup gives a non-empty string. */
  predicate LetterDrawn(sport: Sport, a: ActionType)
  {
    var l := ActionLetter(sport, a);
    l.Some? && l.value != ""
  }

  /** The tennis ace has a letter; padel's table has none for the padel
      ace, whose marker is therefore drawn without a letter. */
  lemma LetterCoverage()
    ensures LetterDrawn(Tennis, TennisAce)
    ensures !LetterDrawn(Padel, PadelAce)
  {
    assert TennisActionShort[TennisAce] == "As";
  }

  /** Every volleyball offensive action has a letter except "Other", which
      maps to the empty string and is drawn as nothing. */
  lemma VolleyLetters()
    ensures !LetterDrawn(Volleyball, OtherOffensive) && ActionLetter(Volleyball, OtherOffensive) == Some("")
    ensures LetterDrawn(Volleyball, Attack) && LetterDrawn(Volleyball, Ace) && LetterDrawn(Volleyball, Block)
    ensures LetterDrawn(Volleyball, Bidouille) && LetterDrawn(Volleyball, SecondeMain)
  {
    var table := VolleyActionShort;
    assert table[Attack] == "A" && table[Ace] == "As" && table[Block] == "B";
    assert table[Bidouille] == "Bi" && table[SecondeMain] == "2M";
  }

  /** Service faults have no meaningful position. */
  predicate IsServiceFault(a: ActionType)
  {
    a in [ServiceMiss, DoubleFault, PadelDoubleFault]
  }

  /** The marker filter: no service fault, and for tennis and padel no
      fault point at all. */
  function Displayed(sport: Sport): Point -> bool
  {
    (p: Point) =>
      if IsServiceFault(p.action) then false
      else if (sport == Tennis || sport == Padel) && p.pointType == Fault then false
      else true
  }

  /** The points that get a marker. */
  function DisplayedPoints(points: seq<Point>, sport: Sport): (r: seq<Point>)
    ensures forall i :: 0 <= i < |r| ==> !IsServiceFault(r[i].action)
    ensures sport == Tennis || sport == Padel ==> forall i :: 0 <= i < |r| ==> r[i].pointType != Fault
    ensures sport != Tennis && sport != Padel
            ==> forall i :: 0 <= i < |points| && !IsServiceFault(points[i].action) ==> points[i] in r
    ensures forall i :: 0 <= i < |points| && !IsServiceFault(points[i].action) && points[i].pointType != Fault
                        ==> points[i] in r
  {
    FilterKeeps(points, Displayed(sport));
    Filter(points, Displayed(sport))
  }

  /** The markers follow the recorded order. */
  lemma DisplayedIsSubsequence(points: seq<Point>, sport: Sport)
    ensures IsSubsequence(DisplayedPoints(points, sport), points)
  {
    FilterIsSubsequence(points, Displayed(sport));
  }
}
