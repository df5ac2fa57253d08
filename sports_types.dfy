/** The multi-sport vocabulary of `src/types/sports.ts`, widened to the action
    keys and sports the padel court and the court display actually use. */
module SportsTypes {
  import opened Common

  datatype PointType = Scored | Fault | Neutral

  /** `sports.ts` declares only `'volleyball'`; the court display branches on
      all four, so all four are here. */
  datatype Sport = Volleyball | Tennis | Padel | Basketball

  datatype ActionType =
    // volleyball
    | Attack | Ace | Block | Bidouille | SecondeMain | OtherOffensive
    | Out | NetFault | ServiceMiss | BlockOut | OtherVolleyFault
    | OtherVolleyNeutral
    // padel
    | PadelAce | Vibora | Bandeja | SmashPadel | Volee | Bajada | ChiquitaWinner
    | Par3 | OtherPadelWinner
    | PadelDoubleFault | PadelUnforcedError | PadelNetError | PadelOut
    | GrilleError | VitreError
    // tennis
    | TennisAce | WinnerForehand | WinnerBackhand | VolleyWinner | Smash
    | DropShotWinner | OtherTennisWinner
    | DoubleFault | UnforcedErrorForehand | UnforcedErrorBackhand | NetError
    | OutLong | OutWide
    // basketball
    | FreeThrow | TwoPoints | ThreePoints | MissedShot | Turnover | FoulCommitted

  /** The string key the application stores for an action. */
  function Key(a: ActionType): string
  {
    match a
    case Attack => "attack"
    case Ace => "ace"
    case Block => "block"
    case Bidouille => "bidouille"
    case SecondeMain => "seconde_main"
    case OtherOffensive => "other_offensive"
    case Out => "out"
    case NetFault => "net_fault"
    case ServiceMiss => "service_miss"
    case BlockOut => "block_out"
    case OtherVolleyFault => "other_volley_fault"
    case OtherVolleyNeutral => "other_volley_neutral"
    case PadelAce => "padel_ace"
    case Vibora => "vibora"
    case Bandeja => "bandeja"
    case SmashPadel => "smash_padel"
    case Volee => "volee"
    case Bajada => "bajada"
    case ChiquitaWinner => "chiquita_winner"
    case Par3 => "par_3"
    case OtherPadelWinner => "other_padel_winner"
    case PadelDoubleFault => "padel_double_fault"
    case PadelUnforcedError => "padel_unforced_error"
    case PadelNetError => "padel_net_error"
    case PadelOut => "padel_out"
    case GrilleError => "grille_error"
    case VitreError => "vitre_error"
    case TennisAce => "tennis_ace"
    case WinnerForehand => "winner_forehand"
    case WinnerBackhand => "winner_backhand"
    case VolleyWinner => "volley_winner"
    case Smash => "smash"
    case DropShotWinner => "drop_shot_winner"
    case OtherTennisWinner => "other_tennis_winner"
    case DoubleFault => "double_fault"
    case UnforcedErrorForehand => "unforced_error_forehand"
    case UnforcedErrorBackhand => "unforced_error_backhand"
    case NetError => "net_error"
    case OutLong => "out_long"
    case OutWide => "out_wide"
    case FreeThrow => "free_throw"
    case TwoPoints => "two_points"
    case ThreePoints => "three_points"
    case MissedShot => "missed_shot"
    case Turnover => "turnover"
    case FoulCommitted => "foul_committed"
  }

  /** `{ key, label }` entries of the action pickers. */
  datatype ActionEntry = ActionEntry(key: ActionType, caption: string)

  const OffensiveActions: seq<ActionEntry> := [
    ActionEntry(Attack, "Attaque"),
    ActionEntry(Ace, "Ace"),
    ActionEntry(Block, "Block"),
    ActionEntry(Bidouille, "Bidouille"),
    ActionEntry(SecondeMain, "Seconde main"),
    ActionEntry(OtherOffensive, "Autre")
  ]

  const FaultActions: seq<ActionEntry> := [
    ActionEntry(Out, "Out"),
    ActionEntry(NetFault, "Filet"),
    ActionEntry(ServiceMiss, "Service loupé"),
    ActionEntry(BlockOut, "Block Out"),
    ActionEntry(OtherVolleyFault, "Autre")
  ]

  /** The "Other" action keys a custom action is recorded under. */
  datatype OtherKeys = OtherKeys(scored: ActionType, fault: ActionType, neutral: ActionType)

  /** `OTHER_ACTION_KEYS[sport]`: the record has a volleyball entry only, so
      any other sport looks up `undefined`. */
  function OtherActionKeys(sport: Sport): Option<OtherKeys>
  {
    if sport == Volleyball then Some(OtherKeys(OtherOffensive, OtherVolleyFault, OtherVolleyNeutral))
    else None
  }

  function NeutralActionsForSport(sport: Sport): (r: seq<ActionEntry>)
    ensures |r| == 0
  {
    []
  }

  /** `isOffensiveAction`: membership in the six volleyball offensive keys. */
  predicate IsOffensiveAction(a: ActionType)
  {
    a in [Attack, Ace, Block, Bidouille, SecondeMain, OtherOffensive]
  }

  /** The `FaultAction` type: the five volleyball fault keys. */
  predicate IsFaultAction(a: ActionType)
  {
    a in [Out, NetFault, ServiceMiss, BlockOut, OtherVolleyFault]
  }

  /** The keys of a list of entries, in order. */
  function EntryKeys(entries: seq<ActionEntry>): (r: seq<ActionType>)
    ensures |r| == |entries|
  {
    seq(|entries|, i requires 0 <= i < |entries| => entries[i].key)
  }

  /** `getScoredActionsForSport`: exactly the offensive actions, each once. */
  function ScoredActionsForSport(sport: Sport): (r: seq<ActionEntry>)
    ensures forall a :: a in EntryKeys(r) <==> IsOffensiveAction(a)
    ensures forall i, j :: 0 <= i < j < |r| ==> r[i].key != r[j].key
  {
    assert EntryKeys(OffensiveActions) == [Attack, Ace, Block, Bidouille, SecondeMain, OtherOffensive];
    OffensiveActions
  }

  /** `getFaultActionsForSport`: exactly the fault actions, each once; none
      of them is offensive. */
  function FaultActionsForSport(sport: Sport): (r: seq<ActionEntry>)
    ensures forall a :: a in EntryKeys(r) <==> IsFaultAction(a)
    ensures forall i :: 0 <= i < |r| ==> !IsOffensiveAction(r[i].key)
    ensures forall i, j :: 0 <= i < j < |r| ==> r[i].key != r[j].key
  {
    assert EntryKeys(FaultActions) == [Out, NetFault, ServiceMiss, BlockOut, OtherVolleyFault];
    FaultActions
  }

  /** No fault or neutral volleyball action is offensive, and the "Other"
      scored key is. */
  lemma OffensiveClassification()
    ensures forall i :: 0 <= i < |OffensiveActions| ==> IsOffensiveAction(OffensiveActions[i].key)
    ensures forall i :: 0 <= i < |FaultActions| ==> !IsOffensiveAction(FaultActions[i].key)
    ensures !IsOffensiveAction(OtherVolleyNeutral)
    ensures OtherActionKeys(Volleyball).Some?
    ensures IsOffensiveAction(OtherActionKeys(Volleyball).value.scored)
    ensures !IsOffensiveAction(OtherActionKeys(Volleyball).value.fault)
    ensures !IsOffensiveAction(OtherActionKeys(Volleyball).value.neutral)
  {
  }

  datatype Player = Player(id: string, name: string, number: Option<string>)

  /** A concluded point. Fields of the TypeScript record that nothing in the
      core reads (`pointValue`, `customActionLabel`, `sigil`, `showOnCourt`)
      are not carried. */
  datatype Point = Point(
    id: string, team: Team, pointType: PointType, action: ActionType,
    x: real, y: real, timestamp: int, playerId: Option<string>)

  datatype SetData = SetData(
    id: string, number: int, points: seq<Point>, score: Tally,
    winner: Option<Team>, duration: int)

  /** Match configuration; `advantageRule` and `tiebreakEnabled` are read by
      the tennis score fold although `sports.ts` does not declare them. */
  datatype MatchMetadata = MatchMetadata(
    hasCourt: Option<bool>, advantageRule: Option<bool>, tiebreakEnabled: Option<bool>)
}
