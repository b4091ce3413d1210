/** The value types the Nines scoring engine works on (Nines/Models.swift). */
module Models {

  datatype Option<T> = None | Some(value: T)

  /** A golfer in a round. `id` stands for the UUID the app draws when the player
      is created: any type with equality will do. `currentScore` is carried along
      but never read or written by the engine. */
  datatype Player<Id> = Player(id: Id, name: string, currentScore: int, totalScore: int, totalStrokes: int)

  /** No two players share an id (the app's ids are freshly drawn UUIDs). */
  ghost predicate DistinctIds<Id>(ps: seq<Player<Id>>)
  {
    forall i, j :: 0 <= i < j < |ps| ==> ps[i].id != ps[j].id
  }

  /** The sum of a sequence of integers. */
  function Sum(xs: seq<int>): int
  {
    if xs == [] then 0 else xs[0] + Sum(xs[1..])
  }

  lemma {:induction false} SumOfZeros(xs: seq<int>)
    requires forall k :: 0 <= k < |xs| ==> xs[k] == 0
    ensures Sum(xs) == 0
  {
    if xs != [] {
      SumOfZeros(xs[1..]);
    }
  }
}
