# netpoint-tracker core, modelled in Dafny

This project models the scoring and court-rule logic of netpoint-tracker, a
scorekeeping app for volleyball, tennis and padel. One module per source file:

| module | source file | form |
|---|---|---|
| `TennisScore` | `src/hooks/useTennisScore.ts` | The game/set fold is a left fold `Fold` over the points, with its invariant `Inv`. `ComputeTennisScore` is the source's `for` loop, proved equal to that fold. The rules for server, display and game/set winner are functions. |
| `PadelCourt` | `src/components/PadelCourt.tsx` | Zone classification, ace target box, legality table, highlight rectangles and the tap rule, over real court coordinates. |
| `VolleyballCourt` | `src/components/VolleyballCourt.tsx` | The same rules for volleyball. |
| `MatchState` | `src/hooks/useMatchState.ts` | A class `Match` whose methods update the point log, completed sets, set counter and selection. Score, stats, `allPoints` and the sets score are functions of the fields. |
| `ActionsConfig` | `src/lib/actionsConfig.ts` | The config edits as functions (toggle, new/updated action, delete, visible list). A class `ActionsStore` holds the stored config and mutates it in place, as the source does. |
| `HeatmapView` | `src/components/HeatmapView.tsx` | `computeStats`, the set filter, heatmap points and set options. |
| `ExcelExport` | `src/lib/excelExport.ts` | Duration text, per-player and per-team rows, and the `allSets` assembly. |
| `PlayerStats` | `src/components/PlayerStats.tsx` | Per-player entries, the "has actions" filter and the sort by points won. |
| `CourtDisplay` | `src/components/CourtDisplay.tsx` | The marker filter, the letter tables and the court colour. |
| `PlayerRoster` | `src/components/PlayerRoster.tsx` | Suggestions and the available count as functions. A class `Roster` holds the roster and the add/edit form state, and its methods update them. |
| `SportsTypes`, `VolleyballTypes` | `src/types/sports.ts`, `src/types/volleyball.ts` | The two vocabularies: teams, point types, action keys, action lists. |

`Common`, `Seqs` and `Text` hold what the modules share: teams, `Option`, `filter`/`slice`, and the JavaScript string operations `trim`, `toLowerCase`, `includes` and `String(n)`.

Some names the core uses are not defined in the files modelled here.
- `isAceAction` and `isPadelScoredAction` are imported by the padel court but defined in none of these files. They are modelled as the padel, tennis and volleyball aces and the padel winners in the court's own letter table (`PadelCourt.tsx:190-192`).
- `SportType` is declared as `'volleyball'` only, yet the court display branches on four sports. `Sport` has all four.
- `sports.ts` defines no `advantageRule` or `tiebreakEnabled` in `MatchMetadata`. Both are optional fields here, as the fold reads them.

Where the code and its comments or types disagree, the model follows the code.
- `addPoint` in `useMatchState.ts` builds a point without an action, so `VolleyballTypes.Point.action` is optional.
- `endSet` records no duration, so `SetData.duration` is optional.
- The tennis rally winner is the point's own team, whatever the point type.
- `checkSetWinner` ignores its `tiebreakEnabled` argument.
- The fold goes on after a set is won.
- The volleyball click classifier never produces `none` or the `outside_sides_*` zones. The default branch of the legality `switch` cannot be reached with the volleyball action type, so the model has no such case.
- `getCustomActionRealKey` reads the `OTHER_ACTION_KEYS` entry of the action's sport, and only volleyball has one. For any other sport the source fails on `undefined`; the model returns `None`, and so does `VisibleActions`.
- `addCustomAction` accepts `points` but never stores it.
- `PlayerStats` counts every red point of a player as a fault. The spreadsheet counts only red fault-type points. `PlayerStats.FaultsVersusExport` proves how the two relate.
- The court display's padel letter table has no entry for `padel_ace`, although the padel court's own table does. A padel ace marker is drawn without a letter (`CourtDisplay.LetterCoverage`).

## Model

| member | source | states |
|---|---|---|
| TennisScore.RallyWinner | src/hooks/useTennisScore.ts:21-24 | A point counts for its own team, even when it is a fault. |
| TennisScore.AdvantageRule | src/hooks/useTennisScore.ts:31 | A given setting is used as given. The rule is on when no metadata or no setting is given. |
| TennisScore.TiebreakEnabled | src/hooks/useTennisScore.ts:32 | A given setting is used as given. Tiebreaks are enabled when no metadata or no setting is given. |
| TennisScore.CheckGameWinner | src/hooks/useTennisScore.ts:123-139 | Blue (red) wins the game iff it has at least 4 points and leads by 2 with advantage, or by 1 under golden point. |
| TennisScore.CheckSetWinner | src/hooks/useTennisScore.ts:141-147 | A side wins the set iff it has at least 6 games and a 2-game lead. |
| TennisScore.SetWinnerIgnoresTiebreakFlag | src/hooks/useTennisScore.ts:141-147 | The set winner does not depend on the `tiebreakEnabled` argument. |
| TennisScore.FoldPrefix | src/hooks/useTennisScore.ts:42-84 | Folding one more point is one more `Step` of the fold. |
| TennisScore.StepKeepsInv | src/hooks/useTennisScore.ts:45-83 | One point keeps the invariant. |
| TennisScore.FoldInv | src/hooks/useTennisScore.ts:34-84 | In every reachable state: completed games equal blue plus red games; a tiebreak runs only at 6-6 with tiebreaks on and no set winner; leftover points never form a won game; under golden point both leftovers are at most 3. |
| TennisScore.TiebreakPoint | src/hooks/useTennisScore.ts:45-60 | A tiebreak ends iff a side reaches 7 with a 2-point lead. The point winner then gets exactly one game, points reset, tiebreak ends and it is the set winner. Otherwise only its point count moves. |
| TennisScore.RegularPoint | src/hooks/useTennisScore.ts:61-83 | Outside a tiebreak a game is completed iff the new counts win it for the point winner. The game then goes to that side and points reset. A tiebreak starts only at 6-6 with tiebreaks on. |
| TennisScore.SetJustWonMeaning | src/hooks/useTennisScore.ts:56-81 | `setJustWon` is set iff the point ended a tiebreak, or won a game after which a side has 6 games and a 2-game lead. Any other regular point clears it. |
| TennisScore.TiebreakServePattern | src/hooks/useTennisScore.ts:89-101 | Tiebreak point 0 is served by the first server, point 1 by the other side, and then service changes every two points. |
| TennisScore.ServeRotation | src/hooks/useTennisScore.ts:86-105 | Outside a tiebreak the initial server serves iff the completed-game count is even. In a tiebreak the rotation starts from the initial server. |
| TennisScore.FormatGameScore | src/hooks/useTennisScore.ts:149-181 | Below 3 on either side the calls are 0/15/30/40. Equal counts of 3 or more show 40-40. Golden point never shows "Ad". With advantage the leader shows "Ad" and the other "40". |
| TennisScore.PlayTiebreakRally | src/hooks/useTennisScore.ts:45-60 | The tiebreak branch of the loop body computes exactly one `Step` of the fold. |
| TennisScore.PlayRegularRally | src/hooks/useTennisScore.ts:61-83 | The regular branch of the loop body computes exactly one `Step` of the fold. |
| TennisScore.ComputeTennisScore | src/hooks/useTennisScore.ts:26-121 | The loop's result is the summary of the fold over all points. Total games equal blue plus red games. A tiebreak state has 6-6 games, tiebreaks enabled and no set winner. |
| TennisScore.BlueLeadsGame | src/hooks/useTennisScore.ts:62-65 | Up to three blue points from an empty set, under the advantage rule, only raise blue's game points. |
| TennisScore.FourBlueCounters | src/hooks/useTennisScore.ts:62-72 | Four blue points from an empty set, under the advantage rule, give games 1-0, cleared game points and one completed game. |
| TennisScore.FourBluePoints | src/hooks/useTennisScore.ts:62-72 | Under the default rules, any four points won by blue from an empty set give games 1-0, a "0"/"0" game score, no set winner and red to serve. |
| PadelCourt.ClickZone | src/components/PadelCourt.tsx:41-70 | The zone is never `outside`. It is a court zone iff the tap is within the court lines. Inside the court it is the net iff x is within 12 of the net line. |
| PadelCourt.ZoneHighlights | src/components/PadelCourt.tsx:130-188 | Every selection highlights at least one rectangle. |
| PadelCourt.HandleInteraction | src/components/PadelCourt.tsx:216-230 | A tap is reported iff team, action and point type are selected and the tapped zone is allowed. The reported position is the tap's own (x, y). |
| PadelCourt.PadelOutOnlyOnSideWalls | src/components/PadelCourt.tsx:57-70 | `padel_out` is accepted iff the tap lands on a side wall, i.e. above or below the court and at least 80 from the net line. |
| PadelCourt.AceExactlyOneZone | src/components/PadelCourt.tsx:73-98 | An ace is accepted in exactly one zone. That zone is a service box on the opponent's side, and it is the top box iff (server on the left) equals (serving side is deuce, the default). |
| PadelCourt.SwapInvariance | src/components/PadelCourt.tsx:90-93 | Swapping both the sides and the team colour leaves legality unchanged. |
| PadelCourt.SwapInvarianceHighlights | src/components/PadelCourt.tsx:134-137 | Swapping both the sides and the team colour leaves the highlights unchanged. |
| PadelCourt.DoubleFaultAvoidsAceBox | src/components/PadelCourt.tsx:113-114 | A double fault is never accepted in the ace target box. It is accepted exactly outside, in the net, or in another service box. |
| PadelCourt.ScoredZones | src/components/PadelCourt.tsx:100-108 | A winner other than an ace or par 3 is accepted exactly in the opponent's court, its service boxes, its back glass or a grille. |
| PadelCourt.Par3Zones | src/components/PadelCourt.tsx:105-107 | A par 3 is accepted exactly on the opponent's back glass, a grille or a side wall, and never in a court zone. |
| PadelCourt.UnruledActionsAcceptEverywhere | src/components/PadelCourt.tsx:123-126 | An unforced error, or any action without a rule, is accepted in every zone and highlights the full 600x400 area. |
| PadelCourt.AceHighlightIsTargetBox | src/components/PadelCourt.tsx:139-148 | The ace highlight is one rectangle at x 165 or 300 and y 30 or 200. It is exactly the target service box. |
| VolleyballCourt.ClickZone | src/components/VolleyballCourt.tsx:23-40 | Only court-left, court-right, net, outside-left and outside-right are produced. It is a court zone iff the tap is within the court lines. Inside the court it is the net iff x is within 15 of the net line. |
| VolleyballCourt.ZoneHighlights | src/components/VolleyballCourt.tsx:81-137 | At least one rectangle is highlighted. It is marked as the net iff the action is a net fault. |
| VolleyballCourt.HandleInteraction | src/components/VolleyballCourt.tsx:149-166 | A tap is reported iff a selection exists and the tapped zone is allowed. The reported position is the tap's own (x, y). |
| VolleyballCourt.OffensiveOnlyInOpponentCourt | src/components/VolleyballCourt.tsx:59-62 | An offensive action is accepted exactly in the opponent's court. |
| VolleyballCourt.FaultZones | src/components/VolleyballCourt.tsx:65-74 | Out and missed serve are accepted exactly outside on the opponent's side. Block-out is accepted exactly outside on the team's own side. A net fault is accepted exactly in the net. |
| VolleyballCourt.BlockOutMirrorsOut | src/components/VolleyballCourt.tsx:66-74 | A block-out for one team is accepted where an out for the other team is. |
| VolleyballCourt.SwapInvariance | src/components/VolleyballCourt.tsx:50-53 | Swapping both the sides and the team colour leaves legality unchanged. |
| VolleyballCourt.SwapInvarianceHighlights | src/components/VolleyballCourt.tsx:87-90 | Swapping both the sides and the team colour leaves the highlights unchanged. |
| VolleyballCourt.OffensiveHighlight | src/components/VolleyballCourt.tsx:92-98 | One rectangle: the opponent's half within the court lines. Any tap strictly inside it and off the net band is accepted. |
| VolleyballCourt.OutHighlight | src/components/VolleyballCourt.tsx:101-116 | Three rectangles, each entirely outside the court lines. Any tap strictly inside one of them is accepted. |
| VolleyballCourt.BlockOutHighlight | src/components/VolleyballCourt.tsx:119-133 | A block-out highlights the same bands as an out by the other team. |
| MatchState.ScoreOf | src/hooks/useMatchState.ts:29-32 | Blue plus red equals the number of points in the log. |
| MatchState.ScoreOfAppend | src/hooks/useMatchState.ts:21-32 | One more point adds one to its own team's score and nothing to the other's. |
| MatchState.SetWinner | src/hooks/useMatchState.ts:60 | Blue wins the set iff blue's score is at least red's, so ties go to blue. |
| MatchState.AllPointsOf | src/hooks/useMatchState.ts:49-51 | `allPoints` holds at least the current points. |
| MatchState.AllPointsSplit | src/hooks/useMatchState.ts:49-51 | `allPoints` is the completed sets' points in order, followed by the current points. |
| MatchState.EndSetKeepsAllPoints | src/hooks/useMatchState.ts:64-69 | Moving the current points into a new completed set leaves `allPoints` unchanged. |
| MatchState.StatsOf | src/hooks/useMatchState.ts:34-47 | The total is the number of points. Each team's scored plus faults is its share of the score, and the four counts sum to the total. |
| MatchState.KindsSplitTeam | src/hooks/useMatchState.ts:38-43 | A team's points are exactly its scored points and its fault points. |
| MatchState.SetsScoreOf | src/hooks/useMatchState.ts:53-56 | The set wins add up to at most the number of completed sets. The export's summary (src/lib/excelExport.ts:130-131) uses the same count. |
| MatchState.SetsScoreCountsDecidedSets | src/hooks/useMatchState.ts:53-56 | When every set has a winner, the set wins add up to the number of sets. |
| MatchState.Match.constructor | src/hooks/useMatchState.ts:5-9 | Starts with no sets, set number 1, an empty log, no selected team and "scored" as the point type. |
| MatchState.Match.Score | src/hooks/useMatchState.ts:29-32 | The score of the current log sums to its length. |
| MatchState.Match.AllPoints | src/hooks/useMatchState.ts:49-51 | `allPoints` holds at least the current points. |
| MatchState.Match.Stats | src/hooks/useMatchState.ts:34-47 | `stats.total` is the length of `allPoints`. |
| MatchState.Match.SetsScore | src/hooks/useMatchState.ts:53-56 | The sets score sums to at most the number of completed sets. |
| MatchState.Match.SetSelectedTeam | src/hooks/useMatchState.ts:8 | Only the selected team changes. |
| MatchState.Match.SetSelectedPointType | src/hooks/useMatchState.ts:9 | Only the selected point type changes. |
| MatchState.Match.AddPoint | src/hooks/useMatchState.ts:11-23 | With no selected team nothing changes. Otherwise exactly one point is appended, with the selected team and type, the given position, id and time; the selection is cleared and the total grows by one. |
| MatchState.Match.Undo | src/hooks/useMatchState.ts:25-27 | Drops exactly the last point of the current log. An empty log stays empty. |
| MatchState.Match.EndSet | src/hooks/useMatchState.ts:58-72 | An empty log changes nothing. Otherwise one set is recorded: the current number, points and score, and the winner by `SetWinner`. The log and selection are cleared and the number is incremented. `allPoints` and stats are unchanged. |
| MatchState.RecordedSetsAreDecided | src/hooks/useMatchState.ts:58-72 | When every set is recorded as `endSet` records it, the set wins add up to the number of sets. |
| MatchState.RecordedAppend | src/hooks/useMatchState.ts:61-71 | Recording the current points as the next set keeps every set recorded under its position. |
| MatchState.ValidSetsScore | src/hooks/useMatchState.ts:53-72 | In every valid match state the sets score counts every completed set. |
| MatchState.Match.ResetMatch | src/hooks/useMatchState.ts:74-79 | Back to set 1 with no sets, no points and no selected team. |
| MatchState.AddThenUndo | src/hooks/useMatchState.ts:11-27 | With a team selected, adding a point and undoing it restores the log and the completed sets. |
| ActionsConfig.DefaultHidesVolleyballOthers | src/lib/actionsConfig.ts:30-32 | The default hides exactly `other_offensive` and `other_volley_fault` and has no custom actions. |
| ActionsConfig.IndexOf | src/lib/actionsConfig.ts:57 | The first position of the key, or -1 iff it is absent. |
| ActionsConfig.ToggleMultiset | src/lib/actionsConfig.ts:55-62 | Toggling removes one occurrence of a present key, or adds an absent one. |
| ActionsConfig.ToggleFlips | src/lib/actionsConfig.ts:55-62 | On a list without repeats, toggling flips the key's membership, keeps every other key's membership and keeps the list free of repeats. |
| ActionsConfig.MultiplicityOne | src/lib/actionsConfig.ts:55-62 | In a list without repeats every element occurs once. |
| ActionsConfig.ToggleTwice | src/lib/actionsConfig.ts:55-62 | On a list without repeats, toggling twice restores the list's contents. |
| ActionsConfig.NormalizeSigil | src/lib/actionsConfig.ts:71 | At most the first two characters, upper-cased. |
| ActionsConfig.NewCustomAction | src/lib/actionsConfig.ts:69-74 | The new action has a trimmed label and no points. It has a sigil iff a non-empty one was given: that sigil's first two characters, upper-cased, so 1 or 2 characters. `showOnCourt` defaults to "not neutral" and `assignToPlayer` to true. |
| ActionsConfig.UpdatedAction | src/lib/actionsConfig.ts:83-86 | The label is always replaced, trimmed. A given sigil becomes its first two characters, upper-cased. The sigil, `showOnCourt` and `assignToPlayer` change only when given. Id, sport, category and points are kept. |
| ActionsConfig.FindById | src/lib/actionsConfig.ts:81 | The first action with the id, or -1 iff none has it. |
| ActionsConfig.DeleteKeepsOthers | src/lib/actionsConfig.ts:94 | Deleting keeps, in order, exactly the actions with another id. |
| ActionsConfig.RealKey | src/lib/actionsConfig.ts:104-108 | A real key exists iff the sport is volleyball, the only sport with "Other" keys. |
| ActionsConfig.RealKeyByCategory | src/lib/actionsConfig.ts:104-108 | Scored, fault and neutral map to `other_offensive`, `other_volley_fault` and `other_volley_neutral`. The key is offensive iff the category is scored. |
| ActionsConfig.CustomEntries | src/lib/actionsConfig.ts:116-123 | One entry per custom action, in order, with its real key, label and id. There is no result iff some action has no real key. |
| ActionsConfig.DefaultEntries | src/lib/actionsConfig.ts:115 | One entry per default action, in order. |
| ActionsConfig.VisibleActions | src/lib/actionsConfig.ts:110-125 | There is no result iff a non-volleyball sport has a shown custom action. |
| ActionsConfig.VisibleActionsNeverHidden | src/lib/actionsConfig.ts:115-124 | The list is the non-hidden defaults followed by one entry per shown custom, so its length is the sum of the two. No default's key is hidden. Each custom entry carries the id of the custom it comes from, in the configured order. That custom has the requested sport and category, and its id is not hidden. |
| ActionsConfig.VisibleDefaultsFirst | src/lib/actionsConfig.ts:115-124 | The list starts with exactly the entries of the non-hidden defaults, in their order, and then holds one entry per shown custom. |
| ActionsConfig.VisibleCustomsEntries | src/lib/actionsConfig.ts:116-124 | After the defaults, the k-th entry is the k-th shown custom's entry: its real key, label, id and sigil. |
| ActionsConfig.DefaultEntriesNotHidden | src/lib/actionsConfig.ts:115 | A visible default entry has no custom id and its key is not hidden. |
| ActionsConfig.ShownCustomsMatch | src/lib/actionsConfig.ts:116-117 | Each shown custom has the requested sport and category and a non-hidden id, and they keep the configured order. |
| ActionsConfig.ActionsStore.constructor | src/lib/actionsConfig.ts:22-28 | Nothing stored reads as the default config. |
| ActionsConfig.ActionsStore.Hydrate | src/lib/actionsConfig.ts:49-53 | Each list is taken from the cloud copy when it has one, else kept. |
| ActionsConfig.ActionsStore.ToggleActionVisibility | src/lib/actionsConfig.ts:55-62 | The hidden list becomes the toggled list. Custom actions are unchanged and the returned config is the stored one. |
| ActionsConfig.ActionsStore.AddCustomAction | src/lib/actionsConfig.ts:64-77 | Exactly one new action is appended. Everything else is unchanged. |
| ActionsConfig.UpdatedActions | src/lib/actionsConfig.ts:79-90 | Same length. The first action with the id (as `FindById` finds it) is updated and every other position is kept, so an unknown id changes nothing. |
| ActionsConfig.ActionsStore.UpdateCustomAction | src/lib/actionsConfig.ts:79-90 | The stored list becomes `UpdatedActions` of the old one; the hidden list is unchanged and the returned config is the stored one. |
| ActionsConfig.ActionsStore.DeleteCustomAction | src/lib/actionsConfig.ts:92-97 | No action with the id remains, the others stay in order, and the hidden list is unchanged. |
| HeatmapView.ByTeam | src/components/HeatmapView.tsx:97-118 | The six offensive sub-counts sum to at most `scored`. The four fault sub-counts sum to at most `faults`. The export's `teamSetStats` (src/lib/excelExport.ts:40-58) is the same computation. |
| HeatmapView.ComputeStats | src/components/HeatmapView.tsx:96-120 | The total is the number of points. Blue plus red faults is the number of fault points. The four counts sum to the total. |
| HeatmapView.OffensiveBreakdownCount | src/components/HeatmapView.tsx:106-111 | The offensive sub-counts sum to at most the points counted, with equality when every point has an offensive action. |
| HeatmapView.FaultBreakdownCount | src/components/HeatmapView.tsx:113-116 | The fault sub-counts sum to at most the points counted, with equality when every point has a fault action. |
| HeatmapView.FaultPointsSplit | src/components/HeatmapView.tsx:101 | Each fault point is charged to exactly one team. |
| HeatmapView.OffensiveBreakdownComplete | src/components/HeatmapView.tsx:106-111 | When every scored point of the team has an offensive action, the six sub-counts sum to `scored`. |
| HeatmapView.AgreesWithMatchStats | src/components/HeatmapView.tsx:99-101 | Each team's scored count equals the match stats'. Faults committed by a team equal the opponent's faults in the match stats. |
| HeatmapView.FindSet | src/components/HeatmapView.tsx:174 | The set found has the number and is in the list. None is found iff no set has that number. |
| HeatmapView.FilteredPoints | src/components/HeatmapView.tsx:171-178 | "all" gives every point. A completed set with the number gives its points, else the current set when the number matches. An unknown number gives nothing. |
| HeatmapView.CompletedSetFirst | src/components/HeatmapView.tsx:173-176 | A completed set takes precedence over the current set with the same number. |
| HeatmapView.FindSetFirst | src/components/HeatmapView.tsx:174 | `find` returns the first set with the number. |
| HeatmapView.HeatmapPoints | src/components/HeatmapView.tsx:181-183 | Exactly the scored points with an offensive action. |
| HeatmapView.HeatmapIsSubsequence | src/components/HeatmapView.tsx:181-183 | The heatmap points keep the filtered points' order. |
| HeatmapView.CompletedSetOptions | src/components/HeatmapView.tsx:243 | One option per completed set, in order, keyed by its number. |
| HeatmapView.SetOptions | src/components/HeatmapView.tsx:241-245 | "All" first, then the completed sets' options. The current set is listed, last, iff its number is positive and it has points. |
| HeatmapView.SetOptionsKeys | src/components/HeatmapView.tsx:241-245 | Each completed set is offered at its position under its own number and caption "Set n". |
| ExcelExport.FormatDurationRoundTrip | src/lib/excelExport.ts:4-8 | The text reads back as the duration: the minutes, then "min ", then two digits of seconds below 60, then "s". |
| ExcelExport.DurationText | src/lib/excelExport.ts:7 | Minute digits followed by two second digits read back as 60 times the minutes plus the seconds. |
| ExcelExport.NatToStringShort | src/lib/excelExport.ts:6-7 | Any number of seconds below 100 is written with at most two digits. |
| ExcelExport.DurationCell | src/lib/excelExport.ts:86 | The duration cell is non-empty iff the duration is positive. |
| ExcelExport.EfficiencyPercent | src/lib/excelExport.ts:35 | 0 when there are no actions. Otherwise the percentage rounded half up, between 0 and 100. |
| ExcelExport.PlayerRowFor | src/lib/excelExport.ts:10-37 | The row carries the player's number and counts no more actions than the player's points. |
| ExcelExport.RowOf | src/lib/excelExport.ts:13-35 | Total actions = total won + faults committed. Total won = offensive points + fault wins. Efficiency is 0..100, and 0 with no actions. |
| ExcelExport.PlayerRowIgnoresOthers | src/lib/excelExport.ts:12 | A point attributed to someone else does not change the player's row. |
| ExcelExport.PlayerSetStats | src/lib/excelExport.ts:10-12 | One row per roster player, in roster order. |
| ExcelExport.CompletedEntries | src/lib/excelExport.ts:71-73 | One sheet entry per completed set, in order. |
| ExcelExport.AllSetsShape | src/lib/excelExport.ts:70-78 | Completed sets in order with their points and score. Then the current set iff it has points, with duration 0 and a score summing to its point count. |
| ExcelExport.SummaryCoversAllPoints | src/lib/excelExport.ts:125 | The summary's points are exactly the match's `allPoints`, in order. |
| ExcelExport.CompletedPoints | src/lib/excelExport.ts:125 | The completed sets' sheet entries hold exactly their points, in order. |
| ExcelExport.BuildAllSets | src/lib/excelExport.ts:69-78 | The `forEach`/`push` loop builds exactly `allSets`. |
| PlayerStats.Efficiency | src/components/PlayerStats.tsx:28 | Between 0 and 100; 0 with no actions, 100 when every action won. |
| PlayerStats.EntryFor | src/components/PlayerStats.tsx:12-40 | Total = points won + faults. `otherScored` is never negative. Only the player's own points are counted. |
| PlayerStats.PlayerPointKinds | src/components/PlayerStats.tsx:16-20 | Blue scored, blue fault and red points partition a player's points. |
| PlayerStats.FaultsVersusExport | src/components/PlayerStats.tsx:18 | Faults are at least the export's faults committed, and equal when none of the player's red points is a scored one. Points won equal the export's total won. |
| PlayerStats.Entries | src/components/PlayerStats.tsx:12 | One entry per roster player, in order. |
| PlayerStats.Insert | src/components/PlayerStats.tsx:42 | The table grows by exactly one entry; its order and contents are stated by the two lemmas below. |
| PlayerStats.ConsSorted | src/components/PlayerStats.tsx:42 | An entry that has won at least as much as the head of a sorted table can go in front of it. |
| PlayerStats.InsertSorted | src/components/PlayerStats.tsx:42 | Inserting into a table sorted by points won (descending) keeps it sorted. |
| PlayerStats.InsertPermutes | src/components/PlayerStats.tsx:42 | Inserting adds exactly the entry: the multiset grows by it and nothing else changes. |
| PlayerStats.SortByScored | src/components/PlayerStats.tsx:42 | Sorted by points won, descending, and a permutation of the input. |
| PlayerStats.RankingProperties | src/components/PlayerStats.tsx:11-43 | The table is sorted and a permutation of the filtered entries. It holds only players with an action, and every such player. |
| CourtDisplay.CourtColoursDistinct | src/components/CourtDisplay.tsx:44-51 | Each sport's court has a colour of its own. |
| CourtDisplay.LettersFitMarker | src/components/CourtDisplay.tsx:9-42 | Every letter in a sport's table has at most three characters. Only volleyball's `other_offensive` letter is empty. |
| CourtDisplay.ActionLetter | src/components/CourtDisplay.tsx:161 | A letter exists iff the sport's table has the action, and it is that table's entry. |
| CourtDisplay.LetterCoverage | src/components/CourtDisplay.tsx:20-33 | The tennis ace has a letter and the padel ace has none. |
| CourtDisplay.VolleyLetters | src/components/CourtDisplay.tsx:9-13 | `other_offensive` maps to an empty letter and draws none. Attack, ace, block, bidouille and seconde main each draw a letter. |
| CourtDisplay.DisplayedPoints | src/components/CourtDisplay.tsx:151-156 | No service fault is shown. Tennis and padel show no fault point. Other sports show every point that is not a service fault. |
| CourtDisplay.DisplayedIsSubsequence | src/components/CourtDisplay.tsx:151-156 | The markers keep the points' order. |
| PlayerRoster.FromSaved | src/components/PlayerRoster.tsx:90-94 | The roster entry made from a saved player matches it by number and name. |
| PlayerRoster.Suggestions | src/components/PlayerRoster.tsx:45-58 | At most 5, all from the pool. None while both queries are blank. Each is not in the roster, its lower-cased name contains the name query and its number the number query. With fewer than 5, every such saved player is suggested. |
| PlayerRoster.SuggestionsAreFirstMatches | src/components/PlayerRoster.tsx:45-58 | Once a query is typed, there are as many suggestions as matches, up to 5. The matches of any head of the pool holding at most 5 of them come first, in order. So the suggestions are the first five matches. |
| PlayerRoster.SuggestionsInPoolOrder | src/components/PlayerRoster.tsx:50-57 | Suggestions keep the pool's order. |
| PlayerRoster.SelectedIsNoLongerSuggested | src/components/PlayerRoster.tsx:52 | Once a saved player is added, it is never suggested again. |
| PlayerRoster.Available | src/components/PlayerRoster.tsx:102-104 | Exactly the saved players not in the roster, from the pool. |
| PlayerRoster.AvailableCount | src/components/PlayerRoster.tsx:130-132 | The count is 0 iff every saved player is already in the roster. |
| PlayerRoster.AddedPlayers | src/components/PlayerRoster.tsx:106-110 | One new entry per saved player to add, in order. |
| PlayerRoster.AddAllSavedExhaustsPool | src/components/PlayerRoster.tsx:101-112 | After adding all, no saved player is left to add. |
| PlayerRoster.WithAllSaved | src/components/PlayerRoster.tsx:101-112 | The old roster is kept as a prefix. |
| PlayerRoster.WithAllSavedFillsRoster | src/components/PlayerRoster.tsx:101-112 | The roster grows by `availableSavedCount`. It is unchanged when that count is 0, and afterwards the count is 0. |
| PlayerRoster.Without | src/components/PlayerRoster.tsx:114-116 | No player with the id remains, and every other player does. |
| PlayerRoster.WithoutKeepsOrder | src/components/PlayerRoster.tsx:115 | Removal keeps the others in roster order. |
| PlayerRoster.Edited | src/components/PlayerRoster.tsx:126 | Same length and ids. Only players with the edited id take the new number and name. |
| PlayerRoster.EditThenRemove | src/components/PlayerRoster.tsx:114-127 | Editing a player and then removing it is the same as removing it. |
| PlayerRoster.Roster.constructor | src/components/PlayerRoster.tsx:16-24 | Empty forms, no player being edited, the given roster and pool. |
| PlayerRoster.Roster.AddPlayer | src/components/PlayerRoster.tsx:71-83 | A blank number changes nothing. Otherwise exactly one player with the trimmed number and name is appended and the form is cleared. |
| PlayerRoster.Roster.SelectSuggestion | src/components/PlayerRoster.tsx:85-99 | The saved player is appended and the form is cleared. |
| PlayerRoster.Roster.AddAllSaved | src/components/PlayerRoster.tsx:101-112 | Only the roster changes, to `WithAllSaved`. |
| PlayerRoster.Roster.RemovePlayer | src/components/PlayerRoster.tsx:114-116 | Only the roster changes, to `Without`. |
| PlayerRoster.Roster.StartEdit | src/components/PlayerRoster.tsx:118-122 | The edit form holds the player's id, number and name. |
| PlayerRoster.Roster.SaveEdit | src/components/PlayerRoster.tsx:124-128 | With no player being edited (no id, or the empty id, which `!editingId` also rejects), or a blank number, nothing changes. Otherwise only that player's number and name change, trimmed, and editing ends. |
| SportsTypes.NeutralActionsForSport | src/types/sports.ts:38-40 | No neutral actions for any sport. |
| SportsTypes.ScoredActionsForSport | src/types/sports.ts:48-50 | Lists exactly the offensive actions, each once. |
| SportsTypes.FaultActionsForSport | src/types/sports.ts:52-54 | Lists exactly the volleyball fault actions, each once. None is offensive. |
| SportsTypes.OffensiveClassification | src/types/sports.ts:16-46 | The offensive list is all offensive and the fault list none. The volleyball "Other" keys exist: the scored one is offensive, and the fault and neutral ones are not. |
| VolleyballTypes.ActionListsCover | src/types/volleyball.ts:5-29 | An action is offensive iff it is in the offensive list, and it is a fault iff it is in the fault list. |
| VolleyballTypes.ActionListsDistinct | src/types/volleyball.ts:11-25 | Neither list repeats a key. |

## Left out

- Rendering and the DOM: SVG drawing, canvas heatmap, PNG export, scrolling and the React hooks around the logic (`useMemo`, `useCallback`, `useEffect`) are not modelled.
- Screen coordinates: the conversion from client coordinates to the court's 600x400 frame divides by the element's on-screen size. The courts take court-space coordinates directly.
- Ids and clocks: `crypto.randomUUID` and `Date.now` are parameters (`id`, `timestamp`, `newId`).
- Storage and network: `localStorage`, cloud sync of the action config, and loading or syncing the saved-player pool are I/O. The config is the `ActionsStore` fields, and the pool is a field given to `Roster`.
- Spreadsheet writing: `XLSX` sheet creation and `writeFile` are a foreign library. Only the row data is modelled. The header, label and column-width rows are layout.
- Floating point: PlayerStats' efficiency is an exact real. The export's `Math.round` is exact integer round-half-up on `100 * won / total`.
- ExcelExport.FormatDurationRoundTrip: states the format for whole, non-negative seconds only, the only durations the app records. The source would also format fractions and negatives.
- PlayerStats.SortByScored: sorted and a permutation, but the stability of `Array.prototype.sort` among equal scores is not stated.
- TennisScore.RallyWinner: the ensures names only the fault case. In every case the winner is the point's own team, which the fold uses directly.
- CourtDisplay.ActionShort: the source switches on a sport string, and any string other than the four sports gets the volleyball letters and green court (`default`). `Sport` has only the four sports, so that fallback cannot be reached in the model.
- ActionsConfig.NormalizeSigil: the bound of two characters relies on the ASCII-only upper-casing. JavaScript's `toUpperCase` can lengthen a string ("ß" becomes "SS"), so the source can store a three-character sigil.
- Text.ToLower: upper- and lower-casing cover ASCII letters only. JavaScript's full Unicode case mapping is not modelled.
- PlayerRoster.Roster.StartEdit: a roster player with no number loads an empty number. In the source the number is `undefined` and `saveEdit` then fails on `trim`. Either way the roster is unchanged and editing stays open.
