/** The round-scoring engine of the Nines app (GameViewModel): the roster,
    the hole-by-hole scorecard and the current hole, updated in place by
    updateCard (record a hole's strokes) and updateScores (award a hole's points). */
module Game {
  import opened Models
  import opened Scoring
  import opened Scorecard

  class GameViewModel<Id(==)> {
    var players: seq<Player<Id>>
    var selectedHoles: string
    /** holeScores[player][hole] */
    var holeScores: seq<seq<int>>
    var currentHole: int
    /** The players' total strokes when the round was set up. */
    ghost var openingStrokes: seq<int>

    /** One row per player, one column per hole of the round. */
    ghost predicate Valid()
      reads this
    {
      && |holeScores| == |players|
      && forall i :: 0 <= i < |holeScores| ==> |holeScores[i]| == HoleCount(selectedHoles)
    }

    /** The stroke ledger holds, and the current hole is at most one past the last. */
    ghost predicate Consistent()
      reads this
    {
      && 1 <= currentHole <= HoleCount(selectedHoles) + 1
      && Ledger(players, holeScores, openingStrokes, currentHole - 1)
    }

    /** The guard of updateCard: there are players and the current hole is on the card. */
    predicate CanRecord()
      reads this
      requires Valid()
    {
      |players| > 0 && 0 < currentHole <= |holeScores[0]|
    }

    /** A round for the given roster: a card of zeros with 9 columns for
        "9 holes" and 18 otherwise, starting at hole 1. */
    constructor (players: seq<Player<Id>>, selectedHoles: string)
      ensures this.players == players && this.selectedHoles == selectedHoles
      ensures |holeScores| == |players|
      ensures forall i :: 0 <= i < |players| ==>
                && |holeScores[i]| == (if selectedHoles == "9 holes" then 9 else 18)
                && forall c :: 0 <= c < |holeScores[i]| ==> holeScores[i][c] == 0
      ensures currentHole == 1
      ensures Valid() && Consistent()
    {
      this.players := players;
      this.selectedHoles := selectedHoles;
      var holeCount := HoleCount(selectedHoles);
      holeScores := BlankCard(|players|, holeCount);
      currentHole := 1;
      openingStrokes := seq(|players|, i requires 0 <= i < |players| => players[i].totalStrokes);
      new;
      BlankCardOpensLedger(players, holeCount);
    }

    /** Records the current hole: each player with an entry in `scores` has it
        written into the current column of its row and added to its total
        strokes, and the current hole moves on by one, however many players
        scored. Without players, or with the current hole off the card, nothing
        changes. */
    method UpdateCard(scores: map<Id, int>)
      requires Valid()
      modifies this
      ensures Valid()
      ensures selectedHoles == old(selectedHoles) && openingStrokes == old(openingStrokes)
      ensures !old(CanRecord()) ==>
                players == old(players) && holeScores == old(holeScores) && currentHole == old(currentHole)
      ensures old(CanRecord()) ==>
                && players == StrokesAdded(old(players), scores)
                && holeScores == HoleRecorded(old(holeScores), old(players), old(currentHole) - 1, scores)
                && currentHole == old(currentHole) + 1
      ensures old(Consistent()) ==> Consistent()
      ensures DistinctIds(old(players)) ==> DistinctIds(players)
    {
      if !CanRecord() {
        return;
      }
      ghost var roster, card := players, holeScores;
      ghost var column: nat := currentHole - 1;
      RecordHole(scores);
      if old(Consistent()) {
        RecordingKeepsLedger(roster, card, openingStrokes, column, scores);
      }
      currentHole := currentHole + 1;
    }

    /** The loop of updateCard over the roster, for a current hole on the card. */
    method RecordHole(scores: map<Id, int>)
      requires Valid() && CanRecord()
      modifies this`players, this`holeScores
      ensures Valid()
      ensures forall i :: 0 <= i < |old(holeScores)| ==> currentHole - 1 < |old(holeScores)[i]|
      ensures players == StrokesAdded(old(players), scores)
      ensures holeScores == HoleRecorded(old(holeScores), old(players), currentHole - 1, scores)
    {
      ghost var roster, card := players, holeScores;
      ghost var column: nat := currentHole - 1;
      assert forall i :: 0 <= i < |card| ==> column < |card[i]|;
      var index := 0;
      while index < |players|
        invariant 0 <= index <= |players| == |roster| == |holeScores|
        invariant forall i :: 0 <= i < |roster| ==>
                    players[i] == (if i < index then StrokesAdded(roster, scores)[i] else roster[i])
        invariant forall i :: 0 <= i < |card| ==>
                    holeScores[i] == (if i < index then HoleRecorded(card, roster, column, scores)[i] else card[i])
      {
        var player := players[index];
        if player.id in scores {
          var holeScore := scores[player.id];
          holeScores := holeScores[index := holeScores[index][currentHole - 1 := holeScore]];
          players := players[index := player.(totalStrokes := player.totalStrokes + holeScore)];
        }
        index := index + 1;
      }
    }

    /** The point assignment of updateScores: the k-th of the sorted players gets
        points[k], added to the total score of the first roster player with its
        id (`players.firstIndex(where:)`); ids found nowhere change nothing. */
    method AwardPlaces(sortedPlayers: seq<Player<Id>>, points: seq<int>)
      requires DistinctIds(players) && |points| == |sortedPlayers|
      modifies this`players
      ensures players == PointsAdded(old(players), sortedPlayers, points, |sortedPlayers|)
    {
      ghost var roster := players;
      for k := 0 to |sortedPlayers|
        invariant players == PointsAdded(roster, sortedPlayers, points, k)
      {
        var index := FirstIndex(players, sortedPlayers[k].id);
        if index.Some? {
          var i := index.value;
          players := players[i := players[i].(totalScore := players[i].totalScore + points[k])];
        }
      }
    }

    /** Awards the points of a hole: when exactly three players have an entry
        in `scores`, each of them gets the points of its stroke count by the
        reference rule (Awards), nine in all; otherwise nothing changes. Only
        total scores change. */
    method UpdateScores(scores: map<Id, int>)
      requires DistinctIds(players)
      modifies this`players
      ensures players == AwardsAdded(old(players), Awards(old(players), scores))
      ensures |ScoringPlayers(old(players), scores)| != 3 ==> players == old(players)
      ensures TotalScore(players) == TotalScore(old(players)) + (if |ScoringPlayers(old(players), scores)| == 3 then 9 else 0)
      ensures DistinctIds(players)
      ensures old(Valid()) ==> Valid()
      ensures old(Valid()) && old(Consistent()) ==> Consistent()
    {
      ghost var roster := players;
      AwardHole(scores);
      AwardsOutcome(roster, scores, players);
      assert holeScores == old(holeScores) && selectedHoles == old(selectedHoles);
      assert currentHole == old(currentHole) && openingStrokes == old(openingStrokes);
      AwardsKeepLedger(roster, Awards(roster, scores), players, holeScores, openingStrokes, currentHole - 1);
      assert TotalScore(players) == TotalScore(roster) + (if |ScoringPlayers(roster, scores)| == 3 then 9 else 0);
      assert roster == old(players);
    }

    /** The body of updateScores: keep the players with an entry in `scores`,
        sort them by strokes, and, when there are exactly three, give the k-th
        of them the k-th entry of the source's points table. */
    method AwardHole(scores: map<Id, int>)
      requires DistinctIds(players)
      modifies this`players
      ensures players == AwardsAdded(old(players), Awards(old(players), scores))
    {
      ghost var roster := players;
      var scoringPlayers := ScoringPlayers(players, scores);
      var sortedPlayers := SortByStrokes(scoringPlayers, scores);
      assert |sortedPlayers| == |multiset(sortedPlayers)| == |scoringPlayers|;
      if |sortedPlayers| != 3 {
        NoAwardsUnlessThree(roster, scores);
        return;
      }
      var firstScore := scores[sortedPlayers[0].id];
      var secondScore := scores[sortedPlayers[1].id];
      var thirdScore := scores[sortedPlayers[2].id];
      var points := Deltas(firstScore, secondScore, thirdScore);
      AwardPlaces(sortedPlayers, points);
      SortKeepsIdsDistinct(scoringPlayers, scores);
      PlacesAreAwards(roster, scores, scoringPlayers, sortedPlayers);
    }
  }

  /** The points the first k sorted players hand to the player with this id. */
  ghost function PointsUpTo<Id>(id: Id, sorted: seq<Player<Id>>, points: seq<int>, k: nat): int
    requires k <= |sorted| && k <= |points|
  {
    if k == 0 then 0
    else PointsUpTo(id, sorted, points, k - 1) + (if sorted[k - 1].id == id then points[k - 1] else 0)
  }

  /** The roster after the first k sorted players have received their points. */
  ghost function PointsAdded<Id>(roster: seq<Player<Id>>, sorted: seq<Player<Id>>, points: seq<int>, k: nat): seq<Player<Id>>
    requires k <= |sorted| && k <= |points|
  {
    seq(|roster|, i requires 0 <= i < |roster| =>
      roster[i].(totalScore := roster[i].totalScore + PointsUpTo(roster[i].id, sorted, points, k)))
  }

  /** The source's point assignment on the three scorers in any ascending
      order gives every roster player its reference award: how the sort orders
      ties does not change anyone's points. */
  lemma PlacesAreAwards<Id>(roster: seq<Player<Id>>, scores: map<Id, int>, scoring: seq<Player<Id>>, sorted: seq<Player<Id>>)
    requires DistinctIds(roster) && scoring == ScoringPlayers(roster, scores) && |scoring| == 3
    requires multiset(sorted) == multiset(scoring) && AllScored(sorted, scores)
    requires SortedByStrokes(sorted, scores) && DistinctIds(sorted)
    ensures |sorted| == 3
    ensures PointsAdded(roster, sorted, Deltas(scores[sorted[0].id], scores[sorted[1].id], scores[sorted[2].id]), 3)
            == AwardsAdded(roster, Awards(roster, scores))
  {
    assert |sorted| == |multiset(sorted)| == 3;
    TieOrderIrrelevant(sorted, scoring, scores);
    assert forall i :: 0 <= i < |roster| && roster[i].id in scores ==> roster[i] in multiset(sorted);
    AwardsFromPlaces(roster, sorted, Deltas(scores[sorted[0].id], scores[sorted[1].id], scores[sorted[2].id]),
                     scores, StrokesOf(scoring, scores));
  }

  /** When each place's points are the reference points of its strokes, every
      roster player receives its reference award. */
  lemma AwardsFromPlaces<Id>(roster: seq<Player<Id>>, sorted: seq<Player<Id>>, points: seq<int>, scores: map<Id, int>, field: seq<int>)
    requires |sorted| == 3 == |field| && DistinctIds(sorted) && AllScored(sorted, scores)
    requires points == [Share(scores[sorted[0].id], field[0], field[1], field[2]),
                        Share(scores[sorted[1].id], field[0], field[1], field[2]),
                        Share(scores[sorted[2].id], field[0], field[1], field[2])]
    requires forall i :: 0 <= i < |roster| && roster[i].id in scores ==> roster[i] in multiset(sorted)
    ensures PointsAdded(roster, sorted, points, 3) == AwardsAdded(roster, AwardList(roster, scores, field))
  {
    forall i | 0 <= i < |roster|
      ensures PointsUpTo(roster[i].id, sorted, points, 3) == Award(roster[i], scores, field)
    {
      PlaceOfPlayer(roster[i], sorted, points, scores, field);
    }
  }

  /** One player's points from the three places: the points of the place it
      holds, or none when it did not score. */
  lemma PlaceOfPlayer<Id>(p: Player<Id>, sorted: seq<Player<Id>>, points: seq<int>, scores: map<Id, int>, field: seq<int>)
    requires |sorted| == 3 == |points| == |field| && DistinctIds(sorted) && AllScored(sorted, scores)
    requires forall k :: 0 <= k < 3 ==> points[k] == Share(scores[sorted[k].id], field[0], field[1], field[2])
    requires p.id in scores ==> p in multiset(sorted)
    ensures PointsUpTo(p.id, sorted, points, 3) == Award(p, scores, field)
  {
    assert PointsUpTo(p.id, sorted, points, 1) == if sorted[0].id == p.id then points[0] else 0;
    assert PointsUpTo(p.id, sorted, points, 3)
        == PointsUpTo(p.id, sorted, points, 1)
         + (if sorted[1].id == p.id then points[1] else 0)
         + (if sorted[2].id == p.id then points[2] else 0);
    if p.id in scores {
      var j :| 0 <= j < 3 && sorted[j] == p;
    }
  }

  /** What adding a hole's awards does to the roster as a whole: nine points
      more in all when three players scored, none otherwise; ids and strokes stay. */
  lemma AwardsOutcome<Id>(roster: seq<Player<Id>>, scores: map<Id, int>, after: seq<Player<Id>>)
    requires after == AwardsAdded(roster, Awards(roster, scores))
    ensures TotalScore(after) == TotalScore(roster) + (if |ScoringPlayers(roster, scores)| == 3 then 9 else 0)
    ensures |after| == |roster|
    ensures DistinctIds(roster) ==> DistinctIds(after)
  {
    AwardsSumToNine(roster, scores);
    TotalAfterAwards(roster, Awards(roster, scores));
  }

  /** Awards touch only total scores, so the stroke ledger survives them. */
  lemma AwardsKeepLedger<Id>(roster: seq<Player<Id>>, awards: seq<int>, after: seq<Player<Id>>, card: seq<seq<int>>, opening: seq<int>, next: int)
    requires |awards| == |roster| && after == AwardsAdded(roster, awards)
    ensures Ledger(roster, card, opening, next) ==> Ledger(after, card, opening, next)
  {
  }

  lemma NoAwardsUnlessThree<Id>(roster: seq<Player<Id>>, scores: map<Id, int>)
    requires |ScoringPlayers(roster, scores)| != 3
    ensures AwardsAdded(roster, Awards(roster, scores)) == roster
  {
    forall i | 0 <= i < |roster| ensures Awards(roster, scores)[i] == 0 {
      AwardsRankPlayers(roster, scores, i, i);
    }
  }
}
