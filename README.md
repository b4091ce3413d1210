# Nines scoring engine

Nines is a golf side game for three players. Each hole pays nine points.
The lowest score takes 5, the middle score 3 and the highest 1. Ties change
this to 3/3/3, 4/4/1 or 5/2/2. This project models the app's scoring class,
`GameViewModel`, and proves properties of that model. The screens in this
version of the app do not use the class: the `PlayGame` screen keeps its own
card and hole counter.

`GameViewModel` holds four things:
- the roster of players;
- the chosen round length ("9 holes" or anything else, which means 18);
- a card of per-hole strokes, one row per player;
- the current hole.

It has three operations:

- **init** builds a card of zeros with 9 or 18 columns per player, starting
  at hole 1.
- **updateCard** records one hole. Each player with an entry in the hole's
  stroke map has the entry written into the current column of its row and
  added to its total strokes. The current hole then advances by one. With no
  players, or with the current hole off the card, nothing happens.
- **updateScores** awards one hole's points. It keeps the players with an
  entry, sorts them by strokes and, when exactly three remain, reads their
  points from the tie-pattern table. Each player's points are added to the
  total score of the first roster player with its id. With any other number
  of scorers nothing happens.

Layout:

- `models.dfy` (module `Models`) holds the `Player` record
  (`Nines/Models.swift`), with the UUID id as a type parameter `Id`. It also
  holds the distinct-ids predicate and `Sum`.
- `scoring.dfy` (module `Scoring`) holds the pure parts of updateScores:
  - the filter, the sort and the `firstIndex` lookup;
  - the point table `Deltas`;
  - an independent reference rule `Share`. Places pay 5, 3 and 1, and a
    group of tied players splits evenly the points of the places it
    occupies;
  - the per-player award `Awards` and the lemmas that connect these.
- `scorecard.dfy` (module `Scorecard`) holds the hole count, the effect of
  one recorded hole on roster and card, and the stroke ledger. The ledger
  says that each player's total strokes are its strokes at set-up plus the
  sum of its row, and that no column from the current hole on has been
  written.
- `game.dfy` (module `Game`) holds the class `GameViewModel`, whose methods
  update `players`, `holeScores` and `currentHole` in place. `Valid()` is the
  card shape. `Consistent()` is the ledger plus the bound on `currentHole`.

## Model

| member | source | states |
|---|---|---|
| Scorecard.HoleCount | Nines/ViewModels/GameViewModel.swift:20 | a round has 9 holes exactly when the choice is "9 holes", and 18 otherwise |
| Game.GameViewModel.constructor | Nines/ViewModels/GameViewModel.swift:14-23 | the roster and choice are stored; every player gets a row of HoleCount zeros; the current hole is 1; the card shape and the stroke ledger hold from the start |
| Scorecard.BlankCardOpensLedger | Nines/ViewModels/GameViewModel.swift:22 | a card of zeros is a valid ledger starting at the players' current total strokes, with no column written |
| Game.GameViewModel.UpdateCard | Nines/ViewModels/GameViewModel.swift:25-46 | when the guard fails (no players, or current hole outside 1..row length) nothing changes. Otherwise each scorer's strokes go into column currentHole-1 of its row and into its total strokes, other players and entries are untouched, and the current hole advances by one. The card shape is kept, the ledger is kept, and distinct ids stay distinct |
| Game.GameViewModel.RecordHole | Nines/ViewModels/GameViewModel.swift:32-44 | the loop over the roster ends with the roster equal to StrokesAdded and the card equal to HoleRecorded of the old state |
| Scorecard.RecordingKeepsLedger | Nines/ViewModels/GameViewModel.swift:32-45 | writing the first unwritten column and adding the same strokes to the totals keeps the ledger, one column further on |
| Scorecard.SumAfterWrite | Nines/ViewModels/GameViewModel.swift:35 | overwriting one entry of a row changes the row's sum by new minus old |
| Scoring.ScoringPlayers | Nines/ViewModels/GameViewModel.swift:51 | the filter keeps exactly the roster players that have an entry, never more players than the roster, and keeps ids distinct |
| Scoring.StrayKeysIgnored | Nines/ViewModels/GameViewModel.swift:51 | map entries for ids outside the roster change no one's award |
| Scoring.SortByStrokes | Nines/ViewModels/GameViewModel.swift:54-57 | the result is a permutation of the scoring players in ascending order of strokes |
| Scoring.SortKeepsIdsDistinct | Nines/ViewModels/GameViewModel.swift:54-57 | sorting keeps ids distinct |
| Scoring.TieOrderIrrelevant | Nines/ViewModels/GameViewModel.swift:54-68 | for any ascending permutation of the three scorers, whatever order ties come out in, the table gives each position the reference points of that player's strokes |
| Game.NoAwardsUnlessThree | Nines/ViewModels/GameViewModel.swift:60-63 | without exactly three scorers the roster is unchanged |
| Scoring.Deltas | Nines/ViewModels/GameViewModel.swift:72-112 | each pattern hands out nine points in all, 1 to 5 each. On sorted strokes the points never increase down the order, and two neighbours tie in points exactly when they tie in strokes |
| Scoring.DeltasAreShares | Nines/ViewModels/GameViewModel.swift:72-112 | on every sorted triple the table agrees with the reference rule (5/3/1 per place, ties split the places they occupy) |
| Scoring.SharesSumToNine | Nines/ViewModels/GameViewModel.swift:72-112 | the reference rule pays nine points per hole for any three strokes |
| Scoring.ShareRanks | Nines/ViewModels/GameViewModel.swift:72-112 | a player on the hole gets 1 to 5 points, and strictly fewer strokes get strictly more points |
| Scoring.FirstIndex | Nines/ViewModels/GameViewModel.swift:75 | the lookup returns the first index with the id, or None exactly when no player has it |
| Game.GameViewModel.AwardPlaces | Nines/ViewModels/GameViewModel.swift:74-111 | the firstIndex updates add the k-th points to the total score of the roster player holding the k-th sorted id. Ids found nowhere change nothing, and only total scores change |
| Game.PlacesAreAwards | Nines/ViewModels/GameViewModel.swift:66-112 | for any ascending order of the three scorers with distinct ids, whatever order ties come out in, awarding the table's points by position gives every roster player exactly its reference award |
| Game.GameViewModel.AwardHole | Nines/ViewModels/GameViewModel.swift:51-112 | filter, sort, guard and point assignment together add to each player its reference award |
| Game.GameViewModel.UpdateScores | Nines/ViewModels/GameViewModel.swift:49-115 | every player's total score grows by its reference award and nothing else changes. With other than three scorers the roster is unchanged. The sum of total scores grows by 9 or 0. Ids stay distinct, and the card shape and stroke ledger are kept |
| Scoring.AwardsSumToNine | Nines/ViewModels/GameViewModel.swift:60-112 | the awards of a hole sum to 9 with three scorers and to 0 otherwise |
| Scoring.AwardsRankPlayers | Nines/ViewModels/GameViewModel.swift:51-112 | non-scorers, and everyone on a hole without three scorers, get 0. Otherwise a scorer gets 1 to 5, equal strokes get equal points, and fewer strokes get more |
| Scoring.TotalAfterAwards | Nines/ViewModels/GameViewModel.swift:76-110 | adding the awards raises the sum of total scores by the sum of the awards |
| Game.AwardsOutcome | Nines/ViewModels/GameViewModel.swift:49-115 | after a hole's awards the roster has the same size, keeps distinct ids, and its total score grows by 9 or 0 |
| Game.AwardsKeepLedger | Nines/ViewModels/GameViewModel.swift:49-115 | awards do not disturb the stroke ledger |

## Left out

- The SwiftUI screens in `Nines/ContentView.swift` (input fields, and the `PlayGame` screen's own card and capped "Submit Hole" counter) are not part of this model, and neither is the `Round` record, which the engine never uses.
- `ObservableObject` / `@Published` change notification is not modelled; it has no effect on the values.
- `current_score` is carried in `Player` but never read or written by the engine.
- UUID generation (`let id = UUID()`) is not modelled. Ids are a type parameter, and their freshness becomes a distinct-ids precondition on UpdateScores, AwardHole and AwardPlaces. With duplicate ids, `firstIndex` would award only the first holder.
- Swift's `sorted` makes no stability promise. SortByStrokes is one particular ascending permutation, a stable insertion sort. TieOrderIrrelevant shows that every ascending permutation gives the same points, so the choice does not matter.
- Game.GameViewModel.UpdateCard: requires the card shape `Valid()` (one row per player, every row HoleCount long), which is stronger than the Swift code needs: that code crashes only with fewer rows than players or a row shorter than `currentHole`, and it also runs on extra rows, on rows of mixed lengths of at least `currentHole`, and after `selectedHoles` is reassigned (all three fields are public `var`s), but the class's own operations never produce such a state.
- Game.GameViewModel.AwardPlaces: the four branches of explicit `firstIndex` updates are written as one loop over the three places, each adding the table's entry for its place. The 3/3/3 branch is already such a loop in the source.
- Stroke counts are unbounded integers with no sign check, as in the source, so total strokes need not grow. Swift's `Int` overflow trap is not modelled.
- updateCard advances `currentHole` with no cap; only the `PlayGame` screen caps its own counter (`Nines/ContentView.swift:198-200`). The model follows GameViewModel.
- Both guards (`GameViewModel.swift:27-30` and `60-63`) return silently and change nothing; the model has no error values.
- The initializer accepts a roster of any size.
