/** The volleyball-only vocabulary of `src/types/volleyball.ts`, used by the
    match-state hook, the volleyball court and the statistics views. */
module VolleyballTypes {
  import opened Common

  /** No `neutral` here. */
  datatype PointType = Scored | Fault

  datatype ActionType =
    | Attack | Ace | Block | Bidouille | SecondeMain | OtherOffensive
    | Out | NetFault | ServiceMiss | BlockOut

  datatype ActionEntry = ActionEntry(key: ActionType, caption: string)

  const OffensiveActions: seq<ActionEntry> := [
    ActionEntry(Attack, "Attaque"),
    ActionEntry(Ace, "Ace"),
    ActionEntry(Block, "Block"),
    ActionEntry(Bidouille, "Bidouille"),
    ActionEntry(SecondeMain, "Seconde main"),
    ActionEntry(OtherOffensive, "Autre")
  ]

  const FaultActions: seq<ActionEntry> := [
    ActionEntry(Out, "Out"),
    ActionEntry(NetFault, "Filet"),
    ActionEntry(ServiceMiss, "Service loupé"),
    ActionEntry(BlockOut, "Block Out")
  ]

  predicate IsOffensiveAction(a: ActionType)
  {
    a in [Attack, Ace, Block, Bidouille, SecondeMain, OtherOffensive]
  }

  function Keys(entries: seq<ActionEntry>): (r: seq<ActionType>)
    ensures |r| == |entries|
    ensures forall i :: 0 <= i < |entries| ==> r[i] == entries[i].key
  {
    seq(|entries|, i requires 0 <= i < |entries| => entries[i].key)
  }

  /** Between them the two lists name every action, and the offensive list
      is exactly the offensive actions. */
  lemma ActionListsCover()
    ensures forall a :: a in Keys(OffensiveActions) <==> IsOffensiveAction(a)
    ensures forall a :: a in Keys(FaultActions) <==> !IsOffensiveAction(a)
  {
    assert Keys(OffensiveActions) == [Attack, Ace, Block, Bidouille, SecondeMain, OtherOffensive];
    var faults := Keys(FaultActions);
    assert faults == [Out, NetFault, ServiceMiss, BlockOut];
    forall a | !IsOffensiveAction(a)
      ensures a in faults
    {
      match a
      case Out => assert faults[0] == a;
      case NetFault => assert faults[1] == a;
      case ServiceMiss => assert faults[2] == a;
      case BlockOut => assert faults[3] == a;
    }
  }

  /** Each list names each action at most once. */
  lemma ActionListsDistinct()
    ensures forall i, j :: 0 <= i < j < |OffensiveActions| ==> OffensiveActions[i].key != OffensiveActions[j].key
    ensures forall i, j :: 0 <= i < j < |FaultActions| ==> FaultActions[i].key != FaultActions[j].key
  {
  }

  datatype Player = Player(id: string, number: string, name: string)

  /** A concluded point. `action` is optional because the match-state hook
      records points without one. */
  datatype Point = Point(
    id: string, team: Team, pointType: PointType, action: Option<ActionType>,
    x: real, y: real, timestamp: int, playerId: Option<string>)

  /** The point was won by an offensive action (`isOffensiveAction(p.action)`). */
  predicate HasOffensiveAction(p: Point)
  {
    p.action.Some? && IsOffensiveAction(p.action.value)
  }

  /** `p => p.team === t`. */
  function OfTeam(t: Team): Point -> bool
  {
    (p: Point) => p.team == t
  }

  /** `p => p.team === t && p.type === pt`. */
  function OfKind(t: Team, pt: PointType): Point -> bool
  {
    (p: Point) => p.team == t && p.pointType == pt
  }

  /** A finished set; the match-state hook leaves `duration` unset. */
  datatype SetData = SetData(
    id: string, number: int, points: seq<Point>, score: Tally,
    winner: Option<Team>, duration: Option<int>)
}
