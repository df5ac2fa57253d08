/** The padel court of `src/components/PadelCourt.tsx`: where a tap lands
    (in the 600 x 400 drawing, glass walls left and right), which zones each
    action accepts, the rectangles highlighted for the selected action, and
    the rule that a tap is recorded only in an accepted zone. */
module PadelCourt {
  import opened Common
  import opened SportsTypes

  // Court drawing, in drawing units.
  const W: real := 600.0
  const H: real := 400.0
  const CL: real := 30.0    // court left (back glass)
  const CR: real := 570.0   // court right (back glass)
  const CT: real := 30.0    // court top (side wall)
  const CB: real := 370.0   // court bottom (side wall)
  const NetX: real := 300.0
  const MidY: real := 200.0
  const ServiceLeft: real := 165.0
  const ServiceRight: real := 435.0
  const WallThickness: real := 20.0
  const EnclosureL: real := CL - WallThickness
  const EnclosureR: real := CR + WallThickness
  const EnclosureT: real := CT - WallThickness
  const EnclosureB: real := CB + WallThickness
  const GrilleWidth: real := 80.0
  /** Half-width of the band around the net line that counts as the net. */
  const NetBand: real := 12.0

  datatype Zone =
    | LeftCourt | RightCourt | Net | BackGlassLeft | BackGlassRight
    | SideWallTop | SideWallBottom | Grille | Outside
    | ServiceBoxLeftTop | ServiceBoxLeftBottom | ServiceBoxRightTop | ServiceBoxRightBottom

  /** `'deuce' | 'ad'`, the half of the court the server serves from. */
  datatype ServingSide = Deuce | Ad

  predicate InCourt(x: real, y: real)
  {
    CL <= x <= CR && CT <= y <= CB
  }

  /** `zone.startsWith('service_box')`. */
  predicate IsServiceBox(z: Zone)
  {
    z in {ServiceBoxLeftTop, ServiceBoxLeftBottom, ServiceBoxRightTop, ServiceBoxRightBottom}
  }

  /** The zones drawn on the playing surface itself. */
  predicate IsCourtZone(z: Zone)
  {
    z in {LeftCourt, RightCourt, Net, ServiceBoxLeftTop, ServiceBoxLeftBottom,
          ServiceBoxRightTop, ServiceBoxRightBottom}
  }

  /** `getClickZone`: the court first (the net band before the service
      boxes), then the grilles, the back glass and the side walls. */
  function ClickZone(x: real, y: real): (z: Zone)
    ensures z != Outside
    ensures IsCourtZone(z) <==> InCourt(x, y)
    ensures InCourt(x, y) && Abs(x - NetX) < NetBand ==> z == Net
    ensures z == Net ==> Abs(x - NetX) < NetBand
  {
    if InCourt(x, y) then
      if Abs(x - NetX) < NetBand then Net
      else if ServiceLeft <= x < NetX && CT <= y <= CB then
        (if y < MidY then ServiceBoxLeftTop else ServiceBoxLeftBottom)
      else if NetX < x <= ServiceRight && CT <= y <= CB then
        (if y < MidY then ServiceBoxRightTop else ServiceBoxRightBottom)
      else if x < NetX then LeftCourt
      else RightCourt
    else if (y < CT || y > CB) && Abs(x - NetX) < GrilleWidth then Grille
    else if x < CL && CT <= y <= CB then BackGlassLeft
    else if x > CR && CT <= y <= CB then BackGlassRight
    else if y < CT then SideWallTop
    else if y > CB then SideWallBottom
    else Outside
  }

  /** `getAceTargetZone`: the single service box an ace must land in, on the
      diagonal; an absent serving side counts as deuce. */
  function AceTargetZone(serverSide: Side, opponentSide: Side, servingSide: Option<ServingSide>): Zone
  {
    var side := servingSide.GetOr(Deuce);
    var targetTop := if serverSide == Left then side == Deuce else side == Ad;
    if opponentSide == Left then
      (if targetTop then ServiceBoxLeftTop else ServiceBoxLeftBottom)
    else
      (if targetTop then ServiceBoxRightTop else ServiceBoxRightBottom)
  }

  /** `isAceAction`, which the court imports without the file defining it:
      the ace keys of the three racket and net sports. */
  predicate IsAceAction(a: ActionType)
  {
    a in {Ace, TennisAce, PadelAce}
  }

  /** `isPadelScoredAction`, likewise imported: the padel winners. */
  predicate IsPadelScoredAction(a: ActionType)
  {
    a in {PadelAce, Vibora, Bandeja, SmashPadel, Volee, Bajada, ChiquitaWinner, Par3, OtherPadelWinner}
  }

  function OpponentSide(team: Team, sidesSwapped: bool): Side
  {
    Opposite(TeamSide(team, sidesSwapped))
  }

  /** `isZoneAllowed`. The point type is passed by the component but never
      consulted. */
  predicate IsZoneAllowed(zone: Zone, team: Team, action: ActionType, pointType: PointType,
                          sidesSwapped: bool, servingSide: Option<ServingSide>)
  {
    var teamSide := TeamSide(team, sidesSwapped);
    var opponentSide := Opposite(teamSide);
    if IsAceAction(action) then
      zone == AceTargetZone(teamSide, opponentSide, servingSide)
    else if IsPadelScoredAction(action) then
      var courtZones := if opponentSide == Left then [LeftCourt, ServiceBoxLeftTop, ServiceBoxLeftBottom]
                        else [RightCourt, ServiceBoxRightTop, ServiceBoxRightBottom];
      var glassZone := if opponentSide == Left then BackGlassLeft else BackGlassRight;
      if action == Par3 then zone in [glassZone, Grille, SideWallTop, SideWallBottom]
      else zone in courtZones + [glassZone, Grille]
    else
      match action
      case PadelDoubleFault =>
        zone == Outside || zone == Net
        || (IsServiceBox(zone) && zone != AceTargetZone(teamSide, opponentSide, servingSide))
      case PadelNetError => zone == Net
      case PadelOut => zone == Outside || zone == SideWallTop || zone == SideWallBottom
      case GrilleError => zone == Grille
      case VitreError => zone in {BackGlassLeft, BackGlassRight, SideWallTop, SideWallBottom}
      case PadelUnforcedError => true
      case _ => true
  }

  /** The actions with a zone rule of their own; every other action is
      accepted anywhere. */
  predicate HasZoneRule(action: ActionType)
  {
    IsAceAction(action) || IsPadelScoredAction(action)
    || action in {PadelDoubleFault, PadelNetError, PadelOut, GrilleError, VitreError}
  }

  /** `getZoneHighlights`: the rectangles drawn over the zones the selected
      action accepts. */
  function ZoneHighlights(team: Team, action: ActionType, pointType: PointType, sidesSwapped: bool,
                          servingSide: Option<ServingSide>): (r: seq<Rect>)
    ensures |r| >= 1
  {
    var teamSide := TeamSide(team, sidesSwapped);
    var opponentSide := Opposite(teamSide);
    if IsAceAction(action) then
      var targetZone := AceTargetZone(teamSide, opponentSide, servingSide);
      var isLeft := targetZone in {ServiceBoxLeftTop, ServiceBoxLeftBottom};
      var isTop := targetZone in {ServiceBoxLeftTop, ServiceBoxRightTop};
      var x := if isLeft then ServiceLeft else NetX;
      var w := if isLeft then NetX - ServiceLeft else ServiceRight - NetX;
      var y := if isTop then CT else MidY;
      var h := if isTop then MidY - CT else CB - MidY;
      [Rect(x, y, w, h)]
    else if IsPadelScoredAction(action) then
      if action == Par3 then
        [Rect(EnclosureL, EnclosureT, WallThickness, EnclosureB - EnclosureT),
         Rect(CR, EnclosureT, WallThickness, EnclosureB - EnclosureT),
         Rect(EnclosureL, EnclosureT, EnclosureR - EnclosureL, WallThickness),
         Rect(EnclosureL, CB, EnclosureR - EnclosureL, WallThickness)]
      else if opponentSide == Right then
        [Rect(NetX, EnclosureT, EnclosureR - NetX, EnclosureB - EnclosureT)]
      else
        [Rect(EnclosureL, EnclosureT, NetX - EnclosureL, EnclosureB - EnclosureT)]
    else
      match action
      case PadelNetError => [Rect(NetX - NetBand, CT, 2.0 * NetBand, CB - CT)]
      case GrilleError =>
        [Rect(NetX - GrilleWidth, EnclosureT, GrilleWidth * 2.0, WallThickness),
         Rect(NetX - GrilleWidth, CB, GrilleWidth * 2.0, WallThickness)]
      case VitreError =>
        [Rect(EnclosureL, CT, WallThickness, CB - CT),
         Rect(CR, CT, WallThickness, CB - CT),
         Rect(CL, EnclosureT, CR - CL, WallThickness),
         Rect(CL, CB, CR - CL, WallThickness)]
      case _ => [Rect(0.0, 0.0, W, H)]
  }

  /** The allowed-only rule of `handleInteraction`: with a team, an action and
      a point type selected, a tap at (x, y) in fractions of the drawing is
      passed on (the value returned) exactly when its zone is accepted. */
  function HandleInteraction(selectedTeam: Option<Team>, selectedAction: Option<ActionType>,
                             selectedPointType: Option<PointType>, sidesSwapped: bool,
                             servingSide: Option<ServingSide>, x: real, y: real): (r: Option<(real, real)>)
    ensures r.Some? <==> selectedTeam.Some? && selectedAction.Some? && selectedPointType.Some?
                         && IsZoneAllowed(ClickZone(x * W, y * H), selectedTeam.value, selectedAction.value,
                                          selectedPointType.value, sidesSwapped, servingSide)
    ensures r.Some? ==> r.value == (x, y)
  {
    if selectedTeam.None? || selectedAction.None? || selectedPointType.None? then None
    else
      var zone := ClickZone(x * W, y * H);
      if IsZoneAllowed(zone, selectedTeam.value, selectedAction.value, selectedPointType.value,
                       sidesSwapped, servingSide)
      then Some((x, y))
      else None
  }

  // ---------------------------------------------------------------------
  // Properties

  /** `'outside'` is never the zone of a tap, so a ball out can only be
      recorded on a side wall: above or below the court, away from the
      grilles beside the net. */
  lemma PadelOutOnlyOnSideWalls(x: real, y: real, team: Team, pointType: PointType,
                                sidesSwapped: bool, servingSide: Option<ServingSide>)
    ensures IsZoneAllowed(ClickZone(x, y), team, PadelOut, pointType, sidesSwapped, servingSide)
            <==> ClickZone(x, y) in {SideWallTop, SideWallBottom}
    ensures IsZoneAllowed(ClickZone(x, y), team, PadelOut, pointType, sidesSwapped, servingSide)
            <==> (y < CT || y > CB) && Abs(x - NetX) >= GrilleWidth
  {
  }

  /** An ace is accepted in exactly one zone: the opponent's service box on
      the diagonal, the top one iff (server on the left) == (serving from
      deuce), deuce being the default. */
  lemma AceExactlyOneZone(zone: Zone, team: Team, action: ActionType, pointType: PointType,
                          sidesSwapped: bool, servingSide: Option<ServingSide>)
    requires IsAceAction(action)
    ensures var target := AceTargetZone(TeamSide(team, sidesSwapped), OpponentSide(team, sidesSwapped), servingSide);
      && (IsZoneAllowed(zone, team, action, pointType, sidesSwapped, servingSide) <==> zone == target)
      && IsServiceBox(target)
      && ((target in {ServiceBoxLeftTop, ServiceBoxLeftBottom}) <==> OpponentSide(team, sidesSwapped) == Left)
      && ((target in {ServiceBoxLeftTop, ServiceBoxRightTop})
          <==> ((TeamSide(team, sidesSwapped) == Left) == (servingSide != Some(Ad))))
  {
  }

  /** Swapping the sides and the team colour together changes nothing: the
      physical side is all the rules look at. */
  lemma SwapInvariance(zone: Zone, team: Team, action: ActionType, pointType: PointType,
                       sidesSwapped: bool, servingSide: Option<ServingSide>)
    ensures IsZoneAllowed(zone, Other(team), action, pointType, !sidesSwapped, servingSide)
            == IsZoneAllowed(zone, team, action, pointType, sidesSwapped, servingSide)
  {
    assert TeamSide(Other(team), !sidesSwapped) == TeamSide(team, sidesSwapped);
  }

  /** Likewise for the highlighted rectangles. */
  lemma SwapInvarianceHighlights(team: Team, action: ActionType, pointType: PointType,
                                 sidesSwapped: bool, servingSide: Option<ServingSide>)
    ensures ZoneHighlights(Other(team), action, pointType, !sidesSwapped, servingSide)
            == ZoneHighlights(team, action, pointType, sidesSwapped, servingSide)
  {
    assert TeamSide(Other(team), !sidesSwapped) == TeamSide(team, sidesSwapped);
  }

  /** A double fault is never accepted in the box an ace would be. */
  lemma DoubleFaultAvoidsAceBox(zone: Zone, team: Team, pointType: PointType,
                                sidesSwapped: bool, servingSide: Option<ServingSide>)
    ensures !(IsZoneAllowed(zone, team, PadelDoubleFault, pointType, sidesSwapped, servingSide)
              && IsZoneAllowed(zone, team, PadelAce, pointType, sidesSwapped, servingSide))
    ensures IsZoneAllowed(zone, team, PadelDoubleFault, pointType, sidesSwapped, servingSide)
            <==> zone == Outside || zone == Net
                 || (IsServiceBox(zone) && !IsZoneAllowed(zone, team, PadelAce, pointType, sidesSwapped, servingSide))
  {
  }

  /** A winner other than an ace or a par 3 lands on the opponent's half:
      their court and service boxes, their back glass, or a grille. */
  lemma ScoredZones(zone: Zone, team: Team, action: ActionType, pointType: PointType,
                    sidesSwapped: bool, servingSide: Option<ServingSide>)
    requires IsPadelScoredAction(action) && !IsAceAction(action) && action != Par3
    ensures IsZoneAllowed(zone, team, action, pointType, sidesSwapped, servingSide)
            <==> if OpponentSide(team, sidesSwapped) == Left
                 then zone in {LeftCourt, ServiceBoxLeftTop, ServiceBoxLeftBottom, BackGlassLeft, Grille}
                 else zone in {RightCourt, ServiceBoxRightTop, ServiceBoxRightBottom, BackGlassRight, Grille}
  {
  }

  /** A par 3 leaves the court: the opponent's back glass, a grille or a side
      wall, never a court zone. */
  lemma Par3Zones(zone: Zone, team: Team, pointType: PointType,
                  sidesSwapped: bool, servingSide: Option<ServingSide>)
    ensures IsZoneAllowed(zone, team, Par3, pointType, sidesSwapped, servingSide)
            <==> zone in {if OpponentSide(team, sidesSwapped) == Left then BackGlassLeft else BackGlassRight,
                          Grille, SideWallTop, SideWallBottom}
    ensures IsZoneAllowed(zone, team, Par3, pointType, sidesSwapped, servingSide) ==> !IsCourtZone(zone)
  {
  }

  /** An unforced error, and any action without a rule, is accepted
      anywhere and highlights the whole drawing. */
  lemma UnruledActionsAcceptEverywhere(zone: Zone, team: Team, action: ActionType, pointType: PointType,
                                       sidesSwapped: bool, servingSide: Option<ServingSide>)
    requires !HasZoneRule(action) || action == PadelUnforcedError
    ensures IsZoneAllowed(zone, team, action, pointType, sidesSwapped, servingSide)
    ensures ZoneHighlights(team, action, pointType, sidesSwapped, servingSide) == [Rect(0.0, 0.0, W, H)]
  {
  }

  /** The ace highlight is one rectangle, at x 165 or 300 and y 30 or 200,
      and it is the target service box: a tap classified as the target lies
      in it, and a tap strictly inside it (off the net band) is the target. */
  lemma AceHighlightIsTargetBox(team: Team, action: ActionType, pointType: PointType,
                                sidesSwapped: bool, servingSide: Option<ServingSide>, px: real, py: real)
    requires IsAceAction(action)
    ensures var hs := ZoneHighlights(team, action, pointType, sidesSwapped, servingSide);
      var target := AceTargetZone(TeamSide(team, sidesSwapped), OpponentSide(team, sidesSwapped), servingSide);
      && |hs| == 1
      && (hs[0].x == 165.0 || hs[0].x == 300.0) && (hs[0].y == 30.0 || hs[0].y == 200.0)
      && (ClickZone(px, py) == target
          ==> hs[0].x <= px <= hs[0].x + hs[0].w && hs[0].y <= py <= hs[0].y + hs[0].h)
      && (hs[0].x < px < hs[0].x + hs[0].w && hs[0].y < py < hs[0].y + hs[0].h && Abs(px - NetX) >= NetBand
          ==> ClickZone(px, py) == target)
  {
  }
}
