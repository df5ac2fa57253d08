/** The volleyball court of `src/components/VolleyballCourt.tsx`: where a tap
    lands in the 600 x 400 drawing (net vertical in the middle), which zones
    each action accepts, the highlighted rectangles, and the rule that a tap
    is recorded only in an accepted zone. */
module VolleyballCourt {
  import opened Common
  import opened VolleyballTypes

  const CourtLeft: real := 20.0
  const CourtRight: real := 580.0
  const CourtTop: real := 20.0
  const CourtBottom: real := 380.0
  const NetX: real := 300.0
  /** Half-width of the band around the net line that counts as the net. */
  const NetBand: real := 15.0

  /** `outside_sides_*` and `none` belong to the zone type but are never
      produced. */
  datatype Zone =
    | LeftCourt | RightCourt | OutsideLeft | OutsideRight | Net
    | OutsideSidesLeft | OutsideSidesRight | NoZone

  predicate InsideCourt(x: real, y: real)
  {
    CourtLeft <= x <= CourtRight && CourtTop <= y <= CourtBottom
  }

  /** `getClickZone`. */
  function ClickZone(x: real, y: real): (z: Zone)
    ensures z in {LeftCourt, RightCourt, Net, OutsideLeft, OutsideRight}
    ensures z in {LeftCourt, RightCourt, Net} <==> InsideCourt(x, y)
    ensures InsideCourt(x, y) ==> (z == Net <==> Abs(x - NetX) < NetBand)
    ensures z in {LeftCourt, OutsideLeft} ==> x < NetX
  {
    if InsideCourt(x, y) then
      if Abs(x - NetX) < NetBand then Net
      else if x < NetX then LeftCourt
      else RightCourt
    else if x < CourtLeft || x > CourtRight || y < CourtTop || y > CourtBottom then
      if x < NetX then OutsideLeft else OutsideRight
    else NoZone
  }

  function CourtOf(s: Side): Zone
  {
    if s == Left then LeftCourt else RightCourt
  }

  function OutsideOf(s: Side): Zone
  {
    if s == Left then OutsideLeft else OutsideRight
  }

  /** `isZoneAllowed`. Every non-offensive action has a case of its own, so
      the `default` branch of the source cannot be taken and is not written
      here; the point type is passed but never consulted. */
  predicate IsZoneAllowed(zone: Zone, team: Team, action: ActionType, pointType: PointType,
                          sidesSwapped: bool)
  {
    var teamSide := TeamSide(team, sidesSwapped);
    var opponentSide := Opposite(teamSide);
    if IsOffensiveAction(action) then zone == CourtOf(opponentSide)
    else
      match action
      case ServiceMiss => zone == OutsideOf(opponentSide)
      case Out => zone == OutsideOf(opponentSide)
      case NetFault => zone == Net
      case BlockOut => zone == OutsideOf(teamSide)
  }

  /** The value `getZoneHighlights` returns. */
  datatype Highlights = Highlights(allowed: seq<Rect>, isNet: Option<bool>)

  /** The three bands outside the court lines on one side. */
  function OutsideBands(s: Side): seq<Rect>
  {
    if s == Right then
      [Rect(CourtRight, 0.0, 600.0 - CourtRight, 400.0),
       Rect(NetX, 0.0, CourtRight - NetX, CourtTop),
       Rect(NetX, CourtBottom, CourtRight - NetX, 400.0 - CourtBottom)]
    else
      [Rect(0.0, 0.0, CourtLeft, 400.0),
       Rect(CourtLeft, 0.0, NetX - CourtLeft, CourtTop),
       Rect(CourtLeft, CourtBottom, NetX - CourtLeft, 400.0 - CourtBottom)]
  }

  /** `getZoneHighlights`. */
  function ZoneHighlights(team: Team, action: ActionType, pointType: PointType, sidesSwapped: bool)
    : (r: Highlights)
    ensures |r.allowed| >= 1
    ensures r.isNet == Some(true) <==> action == NetFault
  {
    var teamSide := TeamSide(team, sidesSwapped);
    var opponentSide := Opposite(teamSide);
    if IsOffensiveAction(action) then
      if opponentSide == Right then
        Highlights([Rect(NetX, CourtTop, CourtRight - NetX, CourtBottom - CourtTop)], None)
      else
        Highlights([Rect(CourtLeft, CourtTop, NetX - CourtLeft, CourtBottom - CourtTop)], None)
    else
      match action
      case ServiceMiss => Highlights(OutsideBands(opponentSide), None)
      case Out => Highlights(OutsideBands(opponentSide), None)
      case NetFault => Highlights([Rect(NetX - NetBand, CourtTop, 2.0 * NetBand, CourtBottom - CourtTop)], Some(true))
      case BlockOut => Highlights(OutsideBands(teamSide), None)
  }

  /** The allowed-only rule of `handleInteraction`: with a team, an action and
      a point type selected, a tap at (x, y) in fractions of the drawing is
      passed on (the value returned) exactly when its zone is accepted. */
  function HandleInteraction(selectedTeam: Option<Team>, selectedAction: Option<ActionType>,
                             selectedPointType: Option<PointType>, sidesSwapped: bool,
                             x: real, y: real): (r: Option<(real, real)>)
    ensures r.Some? <==> selectedTeam.Some? && selectedAction.Some? && selectedPointType.Some?
                         && IsZoneAllowed(ClickZone(x * 600.0, y * 400.0), selectedTeam.value,
                                          selectedAction.value, selectedPointType.value, sidesSwapped)
    ensures r.Some? ==> r.value == (x, y)
  {
    if selectedTeam.None? || selectedAction.None? || selectedPointType.None? then None
    else
      var zone := ClickZone(x * 600.0, y * 400.0);
      if IsZoneAllowed(zone, selectedTeam.value, selectedAction.value, selectedPointType.value, sidesSwapped)
      then Some((x, y))
      else None
  }

  // ---------------------------------------------------------------------
  // Properties

  /** An offensive action is accepted exactly in the opponent's court. */
  lemma OffensiveOnlyInOpponentCourt(zone: Zone, team: Team, action: ActionType, pointType: PointType,
                                     sidesSwapped: bool)
    requires IsOffensiveAction(action)
    ensures IsZoneAllowed(zone, team, action, pointType, sidesSwapped)
            <==> zone == CourtOf(Opposite(TeamSide(team, sidesSwapped)))
  {
  }

  /** Faults: an out or a missed serve lands outside on the opponent's side, a
      block-out outside on the team's own side, a net fault in the net. */
  lemma FaultZones(zone: Zone, team: Team, pointType: PointType, sidesSwapped: bool)
    ensures IsZoneAllowed(zone, team, Out, pointType, sidesSwapped)
            <==> zone == OutsideOf(Opposite(TeamSide(team, sidesSwapped)))
    ensures IsZoneAllowed(zone, team, ServiceMiss, pointType, sidesSwapped)
            <==> zone == OutsideOf(Opposite(TeamSide(team, sidesSwapped)))
    ensures IsZoneAllowed(zone, team, BlockOut, pointType, sidesSwapped)
            <==> zone == OutsideOf(TeamSide(team, sidesSwapped))
    ensures IsZoneAllowed(zone, team, NetFault, pointType, sidesSwapped) <==> zone == Net
  {
  }

  /** A block-out for one team is accepted where an out for the other is. */
  lemma BlockOutMirrorsOut(zone: Zone, team: Team, pointType: PointType, sidesSwapped: bool)
    ensures IsZoneAllowed(zone, team, BlockOut, pointType, sidesSwapped)
            == IsZoneAllowed(zone, Other(team), Out, pointType, sidesSwapped)
  {
  }

  /** Swapping the sides and the team colour together does not change
      which zones are accepted. */
  lemma SwapInvariance(zone: Zone, team: Team, action: ActionType, pointType: PointType,
                       sidesSwapped: bool)
    ensures IsZoneAllowed(zone, Other(team), action, pointType, !sidesSwapped)
            == IsZoneAllowed(zone, team, action, pointType, sidesSwapped)
  {
    assert TeamSide(Other(team), !sidesSwapped) == TeamSide(team, sidesSwapped);
  }

  /** Swapping the sides and the team colour together leaves the highlights
      as they are. */
  lemma SwapInvarianceHighlights(team: Team, action: ActionType, pointType: PointType,
                                 sidesSwapped: bool)
    ensures ZoneHighlights(Other(team), action, pointType, !sidesSwapped)
            == ZoneHighlights(team, action, pointType, sidesSwapped)
  {
    assert TeamSide(Other(team), !sidesSwapped) == TeamSide(team, sidesSwapped);
  }

  /** A rectangle that overlaps the court's interior nowhere. */
  predicate OutsideCourtLines(r: Rect)
  {
    r.x >= CourtRight || r.x + r.w <= CourtLeft || r.y + r.h <= CourtTop || r.y >= CourtBottom
  }

  predicate StrictlyInside(px: real, py: real, r: Rect)
  {
    r.x < px < r.x + r.w && r.y < py < r.y + r.h
  }

  /** Offensive actions highlight one rectangle, the opponent's half within
      the court lines; a tap strictly inside it (off the net band) is
      accepted. */
  lemma OffensiveHighlight(team: Team, action: ActionType, pointType: PointType, sidesSwapped: bool,
                           px: real, py: real)
    requires IsOffensiveAction(action)
    ensures var r := ZoneHighlights(team, action, pointType, sidesSwapped).allowed;
      && |r| == 1
      && CourtLeft <= r[0].x && r[0].x + r[0].w <= CourtRight
      && r[0].y == CourtTop && r[0].y + r[0].h == CourtBottom
      && (Opposite(TeamSide(team, sidesSwapped)) == Left <==> r[0].x + r[0].w == NetX)
      && (StrictlyInside(px, py, r[0]) && Abs(px - NetX) >= NetBand
          ==> IsZoneAllowed(ClickZone(px, py), team, action, pointType, sidesSwapped))
  {
  }

  /** Outs and missed serves highlight three rectangles, all outside the
      court lines, and every tap strictly inside one of them is accepted. */
  lemma OutHighlight(team: Team, action: ActionType, pointType: PointType, sidesSwapped: bool,
                     i: nat, px: real, py: real)
    requires action == Out || action == ServiceMiss
    ensures var r := ZoneHighlights(team, action, pointType, sidesSwapped).allowed;
      && |r| == 3
      && (forall k :: 0 <= k < 3 ==> OutsideCourtLines(r[k]))
      && (i < 3 && StrictlyInside(px, py, r[i])
          ==> IsZoneAllowed(ClickZone(px, py), team, action, pointType, sidesSwapped))
  {
  }

  /** A block-out highlights the bands an out by the other team does. */
  lemma BlockOutHighlight(team: Team, pointType: PointType, sidesSwapped: bool)
    ensures ZoneHighlights(team, BlockOut, pointType, sidesSwapped)
            == ZoneHighlights(Other(team), Out, pointType, sidesSwapped)
  {
  }
}
