/** The scorecard of a round (GameViewModel.holeScores): one row of per-hole
    strokes per player, written one column per hole by updateCard. */
module Scorecard {
  import opened Models

  /** Holes in a round: 9 for the "9 holes" choice, 18 for anything else. */
  function HoleCount(selectedHoles: string): (n: nat)
    ensures n == 9 || n == 18
    ensures n == 9 <==> selectedHoles == "9 holes"
  {
    if selectedHoles == "9 holes" then 9 else 18
  }

  /** A card of `rows` rows of `holes` zeros. */
  function BlankCard(rows: nat, holes: nat): seq<seq<int>>
  {
    seq(rows, _ => seq(holes, _ => 0))
  }

  lemma {:induction false} BlankRowSum(n: nat)
    ensures Sum(seq(n, _ => 0)) == 0
  {
    if n > 0 {
      assert seq(n, _ => 0)[1..] == seq(n - 1, _ => 0);
      BlankRowSum(n - 1);
    }
  }

  /** Overwriting one entry changes the row's sum by the difference. */
  lemma {:induction false} SumAfterWrite(row: seq<int>, c: nat, v: int)
    requires c < |row|
    ensures Sum(row[c := v]) == Sum(row) - row[c] + v
  {
    if c == 0 {
      assert row[c := v][1..] == row[1..];
    } else {
      assert row[c := v][1..] == row[1..][c - 1 := v];
      SumAfterWrite(row[1..], c - 1, v);
    }
  }

  /** The roster after a hole: each player with an entry in `scores` has it
      added to its total strokes; the others are unchanged. */
  function StrokesAdded<Id(==)>(ps: seq<Player<Id>>, scores: map<Id, int>): seq<Player<Id>>
  {
    seq(|ps|, i requires 0 <= i < |ps| =>
      if ps[i].id in scores then ps[i].(totalStrokes := ps[i].totalStrokes + scores[ps[i].id]) else ps[i])
  }

  /** The card after a hole: the row of each player with an entry in `scores`
      holds that entry in `column`; every other entry is unchanged. */
  function HoleRecorded<Id(==)>(card: seq<seq<int>>, ps: seq<Player<Id>>, column: nat, scores: map<Id, int>): seq<seq<int>>
    requires |card| == |ps|
    requires forall i :: 0 <= i < |card| ==> column < |card[i]|
  {
    seq(|card|, i requires 0 <= i < |card| =>
      if ps[i].id in scores then card[i][column := scores[ps[i].id]] else card[i])
  }

  /** The stroke ledger: each player's total strokes are its opening strokes
      plus the sum of its row, and no column from `next` on has been written. */
  ghost predicate Ledger<Id>(ps: seq<Player<Id>>, card: seq<seq<int>>, opening: seq<int>, next: int)
  {
    && |ps| == |card| == |opening|
    && (forall i :: 0 <= i < |ps| ==> ps[i].totalStrokes == opening[i] + Sum(card[i]))
    && (forall i, c :: 0 <= i < |card| && 0 <= c < |card[i]| && next <= c ==> card[i][c] == 0)
  }

  /** A blank card starts the ledger at the players' current strokes. */
  lemma BlankCardOpensLedger<Id>(ps: seq<Player<Id>>, holes: nat)
    ensures Ledger(ps, BlankCard(|ps|, holes), seq(|ps|, i requires 0 <= i < |ps| => ps[i].totalStrokes), 0)
  {
    BlankRowSum(holes);
  }

  /** Recording the next unwritten column keeps the ledger, one column further on. */
  lemma RecordingKeepsLedger<Id>(ps: seq<Player<Id>>, card: seq<seq<int>>, opening: seq<int>, column: nat, scores: map<Id, int>)
    requires Ledger(ps, card, opening, column)
    requires forall i :: 0 <= i < |card| ==> column < |card[i]|
    ensures Ledger(StrokesAdded(ps, scores), HoleRecorded(card, ps, column, scores), opening, column + 1)
  {
    forall i | 0 <= i < |ps| && ps[i].id in scores
      ensures Sum(card[i][column := scores[ps[i].id]]) == Sum(card[i]) + scores[ps[i].id]
    {
      SumAfterWrite(card[i], column, scores[ps[i].id]);
    }
  }
}
