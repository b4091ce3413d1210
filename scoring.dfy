/** Point awards for one hole of Nines (GameViewModel.updateScores): the
    scoring players are filtered and sorted by strokes, the sorted triple is
    classified into one of four tie patterns, and each player gets the points
    of its pattern. Beside the source's table stands an independent reference
    rule, `Share`, and the lemmas that tie the two together. */
module Scoring {
  import opened Models

  // ---------------------------------------------------------------------------
  // The point table of updateScores
  // ---------------------------------------------------------------------------

  /** Points for the first, second and third of three sorted stroke counts:
      3/3/3 all tied, 4/4/1 the lowest two tied, 5/2/2 the highest two tied,
      5/3/1 no ties. Every pattern hands out nine points, at least one each, and
      on a sorted triple equal strokes get equal points and fewer strokes more. */
  function Deltas(firstScore: int, secondScore: int, thirdScore: int): (d: seq<int>)
    ensures |d| == 3 && d[0] + d[1] + d[2] == 9
    ensures forall k :: 0 <= k < 3 ==> 1 <= d[k] <= 5
    ensures firstScore <= secondScore <= thirdScore ==>
              && d[0] >= d[1] >= d[2]
              && (firstScore == secondScore <==> d[0] == d[1])
              && (secondScore == thirdScore <==> d[1] == d[2])
  {
    if firstScore == secondScore && secondScore == thirdScore then [3, 3, 3]
    else if firstScore == secondScore then [4, 4, 1]
    else if secondScore == thirdScore then [5, 2, 2]
    else [5, 3, 1]
  }

  // ---------------------------------------------------------------------------
  // The reference rule: places pay 5, 3 and 1; tied players share evenly the
  // points of the places they occupy together.
  // ---------------------------------------------------------------------------

  const PlacePoints: seq<int> := [5, 3, 1]

  function Indicator(b: bool): nat
  {
    if b then 1 else 0
  }

  /** How many of the strokes x, y, z are strictly fewer than s. */
  function Beaten(s: int, x: int, y: int, z: int): nat
  {
    Indicator(x < s) + Indicator(y < s) + Indicator(z < s)
  }

  /** How many of the strokes x, y, z equal s. */
  function Level(s: int, x: int, y: int, z: int): nat
  {
    Indicator(x == s) + Indicator(y == s) + Indicator(z == s)
  }

  /** The points of `count` consecutive places starting at place `from`. */
  function PlaceSum(from: nat, count: nat): int
    requires from + count <= |PlacePoints|
    decreases count
  {
    if count == 0 then 0 else PlacePoints[from] + PlaceSum(from + 1, count - 1)
  }

  /** The points due to a player on s strokes when the hole's three strokes are
      x, y and z; nothing when s is none of them. */
  function Share(s: int, x: int, y: int, z: int): int
  {
    var beaten, level := Beaten(s, x, y, z), Level(s, x, y, z);
    if level == 0 then 0 else PlaceSum(beaten, level) / level
  }

  lemma PlaceSums()
    ensures PlaceSum(0, 1) == 5 && PlaceSum(1, 1) == 3 && PlaceSum(2, 1) == 1
    ensures PlaceSum(0, 2) == 8 && PlaceSum(1, 2) == 4 && PlaceSum(0, 3) == 9
  {
  }

  /** The source's table agrees with the reference rule on every sorted triple. */
  lemma DeltasAreShares(a: int, b: int, c: int)
    requires a <= b <= c
    ensures Deltas(a, b, c) == [Share(a, a, b, c), Share(b, a, b, c), Share(c, a, b, c)]
  {
    PlaceSums();
    if a == b && b == c {
      assert Level(a, a, b, c) == 3 && Beaten(a, a, b, c) == 0;
    } else if a == b {
      assert Level(a, a, b, c) == 2 && Beaten(a, a, b, c) == 0;
      assert Level(c, a, b, c) == 1 && Beaten(c, a, b, c) == 2;
    } else if b == c {
      assert Level(a, a, b, c) == 1 && Beaten(a, a, b, c) == 0;
      assert Level(b, a, b, c) == 2 && Beaten(b, a, b, c) == 1;
    } else {
      assert Level(a, a, b, c) == 1 && Beaten(a, a, b, c) == 0;
      assert Level(b, a, b, c) == 1 && Beaten(b, a, b, c) == 1;
      assert Level(c, a, b, c) == 1 && Beaten(c, a, b, c) == 2;
    }
  }

  /** Puts three strokes in ascending order; the reference rule cannot tell the
      two orders apart. */
  lemma SortedTriple(x: int, y: int, z: int) returns (a: int, b: int, c: int)
    ensures a <= b <= c
    ensures multiset{a, b, c} == multiset{x, y, z}
    ensures forall s :: Share(s, x, y, z) == Share(s, a, b, c)
    ensures Deltas(a, b, c) == [Share(a, a, b, c), Share(b, a, b, c), Share(c, a, b, c)]
  {
    if x <= y <= z { a, b, c := x, y, z; }
    else if x <= z <= y { a, b, c := x, z, y; }
    else if y <= x <= z { a, b, c := y, x, z; }
    else if y <= z <= x { a, b, c := y, z, x; }
    else if z <= x <= y { a, b, c := z, x, y; }
    else { a, b, c := z, y, x; }
    DeltasAreShares(a, b, c);
  }

  /** Each hole hands out exactly nine points among the three players. */
  lemma SharesSumToNine(x: int, y: int, z: int)
    ensures Share(x, x, y, z) + Share(y, x, y, z) + Share(z, x, y, z) == 9
  {
    var a, b, c := SortedTriple(x, y, z);
    assert Share(x, x, y, z) + Share(y, x, y, z) + Share(z, x, y, z)
        == Share(a, a, b, c) + Share(b, a, b, c) + Share(c, a, b, c);
  }

  /** A player on the hole gets between one and five points; equal strokes get
      equal points and strictly fewer strokes strictly more points. */
  lemma ShareRanks(s: int, t: int, x: int, y: int, z: int)
    requires s == x || s == y || s == z
    requires t == x || t == y || t == z
    ensures 1 <= Share(s, x, y, z) <= 5
    ensures s < t ==> Share(s, x, y, z) > Share(t, x, y, z)
  {
    var a, b, c := SortedTriple(x, y, z);
    assert s == a || s == b || s == c;
    assert t == a || t == b || t == c;
  }

  // ---------------------------------------------------------------------------
  // The preamble of updateScores: filter, sort, look up
  // ---------------------------------------------------------------------------

  predicate AllScored<Id(==)>(ps: seq<Player<Id>>, scores: map<Id, int>)
  {
    forall k :: 0 <= k < |ps| ==> ps[k].id in scores
  }

  /** The players that have an entry in `scores`, in roster order
      (`players.filter { scores[$0.id] != nil }`). */
  function ScoringPlayers<Id(==)>(ps: seq<Player<Id>>, scores: map<Id, int>): (r: seq<Player<Id>>)
    ensures |r| <= |ps|
    ensures forall k :: 0 <= k < |r| ==> r[k] in ps && r[k].id in scores
    ensures forall i :: 0 <= i < |ps| && ps[i].id in scores ==> ps[i] in r
    ensures DistinctIds(ps) ==> DistinctIds(r)
  {
    if ps == [] then []
    else if ps[0].id in scores then [ps[0]] + ScoringPlayers(ps[1..], scores)
    else ScoringPlayers(ps[1..], scores)
  }

  ghost predicate SortedByStrokes<Id>(ps: seq<Player<Id>>, scores: map<Id, int>)
    requires AllScored(ps, scores)
  {
    forall i, j :: 0 <= i < j < |ps| ==> scores[ps[i].id] <= scores[ps[j].id]
  }

  /** Inserts p before the first player with at least as many strokes. */
  function Insert<Id(==)>(p: Player<Id>, s: seq<Player<Id>>, scores: map<Id, int>): (r: seq<Player<Id>>)
    requires p.id in scores && AllScored(s, scores)
    ensures |r| == |s| + 1
    ensures multiset(r) == multiset(s) + multiset{p}
    ensures forall k :: 0 <= k < |r| ==> r[k] == p || r[k] in s
  {
    if s == [] || scores[p.id] <= scores[s[0].id] then [p] + s
    else
      assert s == [s[0]] + s[1..];
      [s[0]] + Insert(p, s[1..], scores)
  }

  lemma {:induction false} InsertKeepsOrder<Id>(p: Player<Id>, s: seq<Player<Id>>, scores: map<Id, int>)
    requires p.id in scores && AllScored(s, scores) && SortedByStrokes(s, scores)
    ensures AllScored(Insert(p, s, scores), scores) && SortedByStrokes(Insert(p, s, scores), scores)
  {
    var r := Insert(p, s, scores);
    if !(s == [] || scores[p.id] <= scores[s[0].id]) {
      var rest := Insert(p, s[1..], scores);
      InsertKeepsOrder(p, s[1..], scores);
      assert r == [s[0]] + rest;
      forall j | 0 <= j < |rest| ensures scores[s[0].id] <= scores[rest[j].id] {
        if rest[j] != p {
          var m :| 0 <= m < |s[1..]| && s[1..][m] == rest[j];
          assert s[m + 1] == rest[j];
        }
      }
    }
  }

  lemma {:induction false} InsertKeepsIdsDistinct<Id>(p: Player<Id>, s: seq<Player<Id>>, scores: map<Id, int>)
    requires p.id in scores && AllScored(s, scores)
    requires DistinctIds(s) && forall k :: 0 <= k < |s| ==> s[k].id != p.id
    ensures DistinctIds(Insert(p, s, scores))
  {
    if !(s == [] || scores[p.id] <= scores[s[0].id]) {
      var rest := Insert(p, s[1..], scores);
      InsertKeepsIdsDistinct(p, s[1..], scores);
      forall j | 0 <= j < |rest| ensures rest[j].id != s[0].id {
        if rest[j] != p {
          var m :| 0 <= m < |s[1..]| && s[1..][m] == rest[j];
          assert s[m + 1] == rest[j];
        }
      }
    }
  }

  /** The scoring players in ascending order of strokes (`sorted { score1 < score2 }`),
      as a stable insertion sort; which order ties come out in does not matter
      (TieOrderIrrelevant). */
  function SortByStrokes<Id(==)>(ps: seq<Player<Id>>, scores: map<Id, int>): (r: seq<Player<Id>>)
    requires AllScored(ps, scores)
    ensures multiset(r) == multiset(ps)
    ensures AllScored(r, scores) && SortedByStrokes(r, scores)
  {
    if ps == [] then []
    else
      assert ps == [ps[0]] + ps[1..];
      var rest := SortByStrokes(ps[1..], scores);
      InsertKeepsOrder(ps[0], rest, scores);
      Insert(ps[0], rest, scores)
  }

  lemma {:induction false} SortKeepsIdsDistinct<Id>(ps: seq<Player<Id>>, scores: map<Id, int>)
    requires AllScored(ps, scores) && DistinctIds(ps)
    ensures DistinctIds(SortByStrokes(ps, scores))
  {
    if ps != [] {
      assert ps == [ps[0]] + ps[1..];
      var rest := SortByStrokes(ps[1..], scores);
      SortKeepsIdsDistinct(ps[1..], scores);
      forall k | 0 <= k < |rest| ensures rest[k].id != ps[0].id {
        assert rest[k] in multiset(ps[1..]);
        var m :| 0 <= m < |ps[1..]| && ps[1..][m] == rest[k];
        assert ps[m + 1] == rest[k];
      }
      InsertKeepsIdsDistinct(ps[0], rest, scores);
    }
  }

  /** The index of the first player with the given id (`players.firstIndex(where:)`). */
  function FirstIndex<Id(==)>(ps: seq<Player<Id>>, id: Id): (r: Option<nat>)
    ensures r.Some? ==> r.value < |ps| && ps[r.value].id == id
    ensures r.Some? ==> forall j :: 0 <= j < r.value ==> ps[j].id != id
    ensures r.None? ==> forall j :: 0 <= j < |ps| ==> ps[j].id != id
  {
    if ps == [] then None
    else if ps[0].id == id then Some(0)
    else match FirstIndex(ps[1..], id)
      case None => None
      case Some(k) => Some(k + 1)
  }

  /** The strokes of the given players, in their order. */
  function StrokesOf<Id(==)>(f: seq<Player<Id>>, scores: map<Id, int>): seq<int>
    requires AllScored(f, scores)
  {
    seq(|f|, k requires 0 <= k < |f| => scores[f[k].id])
  }

  /** Any sorted order of the three scoring players yields, through the source's
      table, the reference points of each player's strokes: the awards depend on
      stroke values only, not on how the sort orders tied players. */
  lemma TieOrderIrrelevant<Id>(sorted: seq<Player<Id>>, scoring: seq<Player<Id>>, scores: map<Id, int>)
    requires |scoring| == 3 && AllScored(scoring, scores)
    requires multiset(sorted) == multiset(scoring)
    requires AllScored(sorted, scores) && SortedByStrokes(sorted, scores)
    ensures |sorted| == 3
    ensures var field := StrokesOf(scoring, scores);
            Deltas(scores[sorted[0].id], scores[sorted[1].id], scores[sorted[2].id])
            == [Share(scores[sorted[0].id], field[0], field[1], field[2]),
                Share(scores[sorted[1].id], field[0], field[1], field[2]),
                Share(scores[sorted[2].id], field[0], field[1], field[2])]
  {
    assert |sorted| == |multiset(sorted)| == |multiset(scoring)| == 3;
    StrokesPermuted(sorted, scoring, scores);
    var a, b, c := scores[sorted[0].id], scores[sorted[1].id], scores[sorted[2].id];
    var x, y, z := scores[scoring[0].id], scores[scoring[1].id], scores[scoring[2].id];
    assert a <= b <= c;
    SortedSharesMatch(a, b, c, x, y, z);
  }

  /** On a sorted permutation of the strokes x, y, z the source's table gives
      each position the reference points of its strokes. */
  lemma SortedSharesMatch(a: int, b: int, c: int, x: int, y: int, z: int)
    requires a <= b <= c
    requires Permuted3(a, b, c, x, y, z)
    ensures Deltas(a, b, c) == [Share(a, x, y, z), Share(b, x, y, z), Share(c, x, y, z)]
  {
    DeltasAreShares(a, b, c);
    ShareSymmetric(a, x, y, z, a, b, c);
    ShareSymmetric(b, x, y, z, a, b, c);
    ShareSymmetric(c, x, y, z, a, b, c);
  }

  /** The reference rule looks at the three strokes as a multiset. */
  lemma ShareSymmetric(s: int, x: int, y: int, z: int, a: int, b: int, c: int)
    requires Permuted3(a, b, c, x, y, z)
    ensures Share(s, a, b, c) == Share(s, x, y, z)
  {
    assert Beaten(s, a, b, c) == Beaten(s, x, y, z);
    assert Level(s, a, b, c) == Level(s, x, y, z);
  }

  /** a, b, c is x, y, z in some order. */
  predicate Permuted3<T(==)>(a: T, b: T, c: T, x: T, y: T, z: T)
  {
    || (a == x && b == y && c == z) || (a == x && b == z && c == y)
    || (a == y && b == x && c == z) || (a == y && b == z && c == x)
    || (a == z && b == x && c == y) || (a == z && b == y && c == x)
  }

  /** The strokes of a permutation of three scorers are a permutation of their strokes. */
  lemma StrokesPermuted<Id>(p: seq<Player<Id>>, q: seq<Player<Id>>, scores: map<Id, int>)
    requires |p| == 3 == |q| && AllScored(p, scores) && AllScored(q, scores)
    requires multiset(p) == multiset(q)
    ensures Permuted3(scores[p[0].id], scores[p[1].id], scores[p[2].id], scores[q[0].id], scores[q[1].id], scores[q[2].id])
  {
    assert p == [p[0], p[1], p[2]] && q == [q[0], q[1], q[2]];
    Permutation3(q[0], q[1], q[2], p[0], p[1], p[2]);
  }

  /** Three values with the same multiset as a, b, c are a permutation of them. */
  lemma Permutation3<T>(a: T, b: T, c: T, x: T, y: T, z: T)
    requires multiset{a, b, c} == multiset{x, y, z}
    ensures Permuted3(x, y, z, a, b, c)
  {
    assert multiset{a, b, c}[a] == multiset{x, y, z}[a];
    if x == a {
      assert multiset{b, c} == multiset{a, b, c} - multiset{a};
      assert multiset{y, z} == multiset{x, y, z} - multiset{x};
      Permutation2(b, c, y, z);
    } else if y == a {
      assert multiset{b, c} == multiset{a, b, c} - multiset{a};
      assert multiset{x, z} == multiset{x, y, z} - multiset{y};
      Permutation2(b, c, x, z);
    } else {
      assert z == a;
      assert multiset{b, c} == multiset{a, b, c} - multiset{a};
      assert multiset{x, y} == multiset{x, y, z} - multiset{z};
      Permutation2(b, c, x, y);
    }
  }

  lemma Permutation2<T>(a: T, b: T, x: T, y: T)
    requires multiset{a, b} == multiset{x, y}
    ensures (x == a && y == b) || (x == b && y == a)
  {
    assert multiset{a, b}[a] == multiset{x, y}[a];
    assert multiset{a, b}[b] == multiset{x, y}[b];
    assert multiset{a, b}[x] == multiset{x, y}[x];
  }

  // ---------------------------------------------------------------------------
  // What updateScores awards, player by player
  // ---------------------------------------------------------------------------

  /** The reference award of player p, given the strokes of the scoring players:
      nothing without a score or unless exactly three players scored. */
  function Award<Id(==)>(p: Player<Id>, scores: map<Id, int>, field: seq<int>): int
  {
    if p.id in scores && |field| == 3 then Share(scores[p.id], field[0], field[1], field[2]) else 0
  }

  function AwardList<Id(==)>(ps: seq<Player<Id>>, scores: map<Id, int>, field: seq<int>): seq<int>
  {
    seq(|ps|, i requires 0 <= i < |ps| => Award(ps[i], scores, field))
  }

  /** The points each player of the roster earns on a hole with these scores. */
  function Awards<Id(==)>(ps: seq<Player<Id>>, scores: map<Id, int>): seq<int>
  {
    AwardList(ps, scores, StrokesOf(ScoringPlayers(ps, scores), scores))
  }

  /** The roster with each player's points added to its total score. */
  function AwardsAdded<Id>(ps: seq<Player<Id>>, aw: seq<int>): seq<Player<Id>>
    requires |aw| == |ps|
  {
    seq(|ps|, i requires 0 <= i < |ps| => ps[i].(totalScore := ps[i].totalScore + aw[i]))
  }

  /** The sum of the players' total scores. */
  function TotalScore<Id>(ps: seq<Player<Id>>): int
  {
    if ps == [] then 0 else ps[0].totalScore + TotalScore(ps[1..])
  }

  lemma {:induction false} AwardsOutsideScorersVanish<Id>(ps: seq<Player<Id>>, scores: map<Id, int>, field: seq<int>)
    ensures Sum(AwardList(ps, scores, field)) == Sum(AwardList(ScoringPlayers(ps, scores), scores, field))
  {
    if ps != [] {
      var l := AwardList(ps, scores, field);
      assert l[1..] == AwardList(ps[1..], scores, field);
      AwardsOutsideScorersVanish(ps[1..], scores, field);
      var f := ScoringPlayers(ps, scores);
      if ps[0].id in scores {
        assert f == [ps[0]] + ScoringPlayers(ps[1..], scores);
        var lf := AwardList(f, scores, field);
        assert lf[1..] == AwardList(f[1..], scores, field);
      } else {
        assert f == ScoringPlayers(ps[1..], scores);
      }
    }
  }

  /** A hole awards nine points in all when exactly three players scored, and
      none otherwise. */
  lemma AwardsSumToNine<Id>(ps: seq<Player<Id>>, scores: map<Id, int>)
    ensures Sum(Awards(ps, scores)) == if |ScoringPlayers(ps, scores)| == 3 then 9 else 0
  {
    var f := ScoringPlayers(ps, scores);
    var field := StrokesOf(f, scores);
    AwardsOutsideScorersVanish(ps, scores, field);
    var l := AwardList(f, scores, field);
    if |f| == 3 {
      SharesSumToNine(field[0], field[1], field[2]);
      assert l == [l[0], l[1], l[2]];
      assert Sum(l) == l[0] + Sum([l[1], l[2]]);
      assert Sum([l[1], l[2]]) == l[1] + Sum([l[2]]);
      assert Sum([l[2]]) == l[2] + Sum([]);
    } else {
      SumOfZeros(l);
    }
  }

  /** Players without a score, or on a hole without exactly three scorers, get
      nothing; a scorer among three gets one to five points; equal strokes get
      equal points and strictly fewer strokes strictly more. */
  lemma AwardsRankPlayers<Id>(ps: seq<Player<Id>>, scores: map<Id, int>, i: nat, j: nat)
    requires i < |ps| && j < |ps|
    ensures |Awards(ps, scores)| == |ps|
    ensures ps[i].id !in scores || |ScoringPlayers(ps, scores)| != 3 ==> Awards(ps, scores)[i] == 0
    ensures ps[i].id in scores && |ScoringPlayers(ps, scores)| == 3 ==> 1 <= Awards(ps, scores)[i] <= 5
    ensures ps[i].id in scores && ps[j].id in scores && |ScoringPlayers(ps, scores)| == 3 ==>
              && (scores[ps[i].id] == scores[ps[j].id] ==> Awards(ps, scores)[i] == Awards(ps, scores)[j])
              && (scores[ps[i].id] < scores[ps[j].id] ==> Awards(ps, scores)[i] > Awards(ps, scores)[j])
  {
    var f := ScoringPlayers(ps, scores);
    var field := StrokesOf(f, scores);
    if ps[i].id in scores && ps[j].id in scores && |f| == 3 {
      assert ps[i] in f && ps[j] in f;
      var m :| 0 <= m < 3 && f[m] == ps[i];
      var n :| 0 <= n < 3 && f[n] == ps[j];
      ShareRanks(field[m], field[n], field[0], field[1], field[2]);
    } else if ps[i].id in scores && |f| == 3 {
      assert ps[i] in f;
      var m :| 0 <= m < 3 && f[m] == ps[i];
      ShareRanks(field[m], field[m], field[0], field[1], field[2]);
    }
  }

  /** Keys of `scores` that belong to no player change nothing. */
  lemma StrayKeysIgnored<Id>(ps: seq<Player<Id>>, scores: map<Id, int>, stray: Id, strokes: int)
    requires forall i :: 0 <= i < |ps| ==> ps[i].id != stray
    ensures Awards(ps, scores[stray := strokes]) == Awards(ps, scores)
  {
    StrayKeysIgnoredByFilter(ps, scores, stray, strokes);
  }

  lemma {:induction false} StrayKeysIgnoredByFilter<Id>(ps: seq<Player<Id>>, scores: map<Id, int>, stray: Id, strokes: int)
    requires forall i :: 0 <= i < |ps| ==> ps[i].id != stray
    ensures ScoringPlayers(ps, scores[stray := strokes]) == ScoringPlayers(ps, scores)
  {
    if ps != [] {
      StrayKeysIgnoredByFilter(ps[1..], scores, stray, strokes);
    }
  }

  /** Adding the awards raises the sum of the total scores by the sum of the awards. */
  lemma {:induction false} TotalAfterAwards<Id>(ps: seq<Player<Id>>, aw: seq<int>)
    requires |aw| == |ps|
    ensures TotalScore(AwardsAdded(ps, aw)) == TotalScore(ps) + Sum(aw)
  {
    if ps != [] {
      TotalAfterAwards(ps[1..], aw[1..]);
      assert AwardsAdded(ps, aw)[1..] == AwardsAdded(ps[1..], aw[1..]);
    }
  }
}
