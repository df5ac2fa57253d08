/** The per-player table of `src/components/PlayerStats.tsx`: for each roster
    player, the points attributed to them, dropped when there are none,
    ranked by points won. Rendering is not modelled. */
module PlayerStats {
  import opened Common
  import opened Seqs
  import opened VolleyballTypes
  import HeatmapView
  import ExcelExport

  /** One entry of the table. `otherScored` is an integer because the
      source computes it by subtraction. */
  datatype Entry = Entry(
    player: Player, scored: nat, attacks: nat, aces: nat, blocks: nat, otherScored: int,
    faults: nat, total: nat, efficiency: real)

  /** The share of a player's actions that won the point, in percent
      (floating point in the source, exact here). */
  function Efficiency(won: nat, total: nat): (e: real)
    requires won <= total
    ensures 0.0 <= e <= 100.0
    ensures total == 0 ==> e == 0.0
    ensures total > 0 && won == total ==> e == 100.0
  {
    if total > 0 then (won as real) / (total as real) * 100.0 else 0.0
  }

  /** The entry for `player` over `points`: only points attributed to the
      player count; a fault is any red point, of whichever type. */
  function EntryFor(points: seq<Point>, player: Player): (r: Entry)
    ensures r.total == r.scored + r.faults
    ensures r.otherScored >= 0
    ensures r.total <= |Filter(points, ExcelExport.ByPlayer(player.id))|
    ensures r.player == player
  {
    var playerPoints := Filter(points, ExcelExport.ByPlayer(player.id));
    var scored := Filter(playerPoints, OfKind(Blue, Scored));
    var faults := Filter(playerPoints, OfTeam(Red));
    var faultWins := Filter(playerPoints, OfKind(Blue, Fault));
    var attacks := |Filter(scored, HeatmapView.WithAction(Attack))|;
    var aces := |Filter(scored, HeatmapView.WithAction(Ace))|;
    var blocks := |Filter(scored, HeatmapView.WithAction(Block))|;
    HeatmapView.OffensiveBreakdownCount(scored);
    PlayerPointKinds(playerPoints);
    var total := |scored| + |faultWins| + |faults|;
    Entry(player, |scored| + |faultWins|, attacks, aces, blocks, |scored| - attacks - aces - blocks,
          |faults|, total, Efficiency(|scored| + |faultWins|, total))
  }

  /** A player's points split into blue scored, blue fault and red ones. */
  lemma {:induction false} PlayerPointKinds(pp: seq<Point>)
    ensures |Filter(pp, OfKind(Blue, Scored))| + |Filter(pp, OfKind(Blue, Fault))| + |Filter(pp, OfTeam(Red))| == |pp|
  {
    if pp != [] {
      PlayerPointKinds(pp[1..]);
    }
  }

  /** This table charges a player with every red point attributed to them;
      the spreadsheet export only with the red fault points. The two agree
      when none of the player's red points is a scored one. */
  lemma FaultsVersusExport(points: seq<Point>, player: Player)
    ensures EntryFor(points, player).faults >= ExcelExport.PlayerRowFor(points, player).faultsCommitted
    ensures (forall i :: 0 <= i < |points| && points[i].playerId == Some(player.id) && points[i].team == Red
                         ==> points[i].pointType == Fault)
            ==> EntryFor(points, player).faults == ExcelExport.PlayerRowFor(points, player).faultsCommitted
    ensures EntryFor(points, player).scored == ExcelExport.PlayerRowFor(points, player).totalPositive
  {
    var pp := Filter(points, ExcelExport.ByPlayer(player.id));
    FilterMonotone(pp, OfKind(Red, Fault), OfTeam(Red));
    if forall i :: 0 <= i < |points| && points[i].playerId == Some(player.id) && points[i].team == Red
                   ==> points[i].pointType == Fault {
      forall i | 0 <= i < |pp| && OfTeam(Red)(pp[i])
        ensures OfKind(Red, Fault)(pp[i])
      {
        assert pp[i] in points && ExcelExport.ByPlayer(player.id)(pp[i]);
      }
      FilterMonotone(pp, OfTeam(Red), OfKind(Red, Fault));
    }
  }

  /** `players.map(...)`. */
  function Entries(points: seq<Point>, players: seq<Player>): (r: seq<Entry>)
    ensures |r| == |players|
    ensures forall i :: 0 <= i < |players| ==> r[i] == EntryFor(points, players[i])
  {
    seq(|players|, i requires 0 <= i < |players| => EntryFor(points, players[i]))
  }

  /** `s => s.total > 0`. */
  function HasActions(e: Entry): bool
  {
    e.total > 0
  }

  predicate SortedByScoredDesc(s: seq<Entry>)
  {
    forall i, j :: 0 <= i < j < |s| ==> s[i].scored >= s[j].scored
  }

  /** An entry that has won at least as much as the head of a sorted table
      can go in front of it. */
  lemma ConsSorted(x: Entry, s: seq<Entry>)
    requires SortedByScoredDesc(s)
    requires s != [] ==> x.scored >= s[0].scored
    ensures SortedByScoredDesc([x] + s)
  {
    var r := [x] + s;
    forall i, j | 0 <= i < j < |r|
      ensures r[i].scored >= r[j].scored
    {
      if i == 0 {
        assert r[j] == s[j - 1] && s[0].scored >= s[j - 1].scored;
      } else {
        assert r[i] == s[i - 1] && r[j] == s[j - 1];
      }
    }
  }

  /** Places `e` before the first entry that has not won more. */
  function Insert(e: Entry, s: seq<Entry>): (r: seq<Entry>)
    ensures |r| == |s| + 1
  {
    if s == [] then [e]
    else if s[0].scored <= e.scored then [e] + s
    else [s[0]] + Insert(e, s[1..])
  }

  /** The head after inserting is the inserted entry or the old head. */
  lemma InsertHead(e: Entry, s: seq<Entry>)
    ensures Insert(e, s)[0] == e || (s != [] && Insert(e, s)[0] == s[0])
  {
  }

  /** Inserting into a table sorted by points won keeps it sorted. */
  lemma {:induction false} InsertSorted(e: Entry, s: seq<Entry>)
    requires SortedByScoredDesc(s)
    ensures SortedByScoredDesc(Insert(e, s))
  {
    if s != [] && s[0].scored > e.scored {
      InsertSorted(e, s[1..]);
      InsertHead(e, s[1..]);
      ConsSorted(s[0], Insert(e, s[1..]));
    } else if s != [] {
      ConsSorted(e, s);
    }
  }

  /** Inserting adds exactly the entry. */
  lemma {:induction false} InsertPermutes(e: Entry, s: seq<Entry>)
    ensures multiset(Insert(e, s)) == multiset(s) + multiset{e}
  {
    if s == [] {
      assert Insert(e, s) == [e];
    } else if s[0].scored <= e.scored {
      assert Insert(e, s) == [e] + s;
    } else {
      var rest := Insert(e, s[1..]);
      InsertPermutes(e, s[1..]);
      assert Insert(e, s) == [s[0]] + rest;
      assert s == [s[0]] + s[1..];
    }
  }

  /** `.sort((a, b) => b.scored - a.scored)`: by points won, highest first. */
  function SortByScored(s: seq<Entry>): (r: seq<Entry>)
    ensures SortedByScoredDesc(r)
    ensures multiset(r) == multiset(s)
  {
    if s == [] then []
    else
      var rest := SortByScored(s[1..]);
      InsertSorted(s[0], rest);
      InsertPermutes(s[0], rest);
      assert s == [s[0]] + s[1..];
      Insert(s[0], rest)
  }

  /** The table: the players with at least one action, by points won. */
  function Ranking(points: seq<Point>, players: seq<Player>): seq<Entry>
  {
    SortByScored(Filter(Entries(points, players), HasActions))
  }

  /** The table is sorted by points won, holds only players with an action,
      and holds exactly the entries of those players. */
  lemma RankingProperties(points: seq<Point>, players: seq<Player>)
    ensures var r := Ranking(points, players);
      && SortedByScoredDesc(r)
      && multiset(r) == multiset(Filter(Entries(points, players), HasActions))
      && (forall i :: 0 <= i < |r| ==> r[i].total > 0)
      && (forall i :: 0 <= i < |players| && EntryFor(points, players[i]).total > 0
                      ==> EntryFor(points, players[i]) in r)
  {
    var f := Filter(Entries(points, players), HasActions);
    var r := Ranking(points, players);
    FilterKeeps(Entries(points, players), HasActions);
    forall i | 0 <= i < |r|
      ensures r[i].total > 0
    {
      assert r[i] in multiset(f);
    }
    forall i | 0 <= i < |players| && EntryFor(points, players[i]).total > 0
      ensures EntryFor(points, players[i]) in r
    {
      var e := Entries(points, players)[i];
      assert e in f;
      assert e in multiset(r);
    }
  }
}
