/** Totals of a weight over a sequence, used to count what is where in a pool of workers. */
module Weights {
  function Weigh<T>(places: seq<T>, w: T -> nat): (n: nat) {
    if places == [] then 0 else Weigh(places[..|places| - 1], w) + w(places[|places| - 1])
  }

  function Count<T(==)>(places: seq<T>, at: T): (n: nat) {
    Weigh(places, (q: T) => if q == at then 1 else 0)
  }

  lemma {:induction false} WeighUpdate<T>(places: seq<T>, i: nat, x: T, w: T -> nat)
    requires i < |places|
    ensures Weigh(places[i := x], w) == Weigh(places, w) - w(places[i]) + w(x)
  {
    var n := |places| - 1;
    if i == n {
      assert places[i := x][..n] == places[..n];
    } else {
      assert places[i := x][..n] == places[..n][i := x];
      WeighUpdate(places[..n], i, x, w);
    }
  }

  lemma CountUpdate<T>(places: seq<T>, i: nat, x: T, at: T)
    requires i < |places|
    ensures Count(places[i := x], at) ==
            Count(places, at) - (if places[i] == at then 1 else 0) + (if x == at then 1 else 0)
  {
    WeighUpdate(places, i, x, (q: T) => if q == at then 1 else 0);
  }

  lemma {:induction false} CountPositive<T>(places: seq<T>, i: nat)
    requires i < |places|
    ensures Count(places, places[i]) >= 1
  {
    if i < |places| - 1 {
      CountPositive(places[..|places| - 1], i);
      assert places[..|places| - 1][i] == places[i];
    }
  }

  lemma {:induction false} Find<T>(places: seq<T>, at: T) returns (i: nat)
    requires Count(places, at) >= 1
    ensures i < |places| && places[i] == at
  {
    var n := |places| - 1;
    if places[n] == at {
      i := n;
    } else {
      i := Find(places[..n], at);
    }
  }

  lemma {:induction false} WeighConstant<T>(places: seq<T>, x: T, w: T -> nat)
    requires forall i :: 0 <= i < |places| ==> places[i] == x
    ensures Weigh(places, w) == |places| * w(x)
  {
    if places != [] {
      WeighConstant(places[..|places| - 1], x, w);
    }
  }

  lemma CountConstant<T>(places: seq<T>, x: T, at: T)
    requires forall i :: 0 <= i < |places| ==> places[i] == x
    ensures Count(places, at) == if x == at then |places| else 0
  {
    WeighConstant(places, x, (q: T) => if q == at then 1 else 0);
  }
}
