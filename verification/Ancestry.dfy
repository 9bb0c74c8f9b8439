/** Things with at most one parent each, whose chains of parents end. */
module Ancestry {
  import opened Wrappers

  /** A parent keeps a thing good and ranks strictly lower. */
  ghost predicate Ranked<T(!new)>(up: T -> Option<T>, good: T -> bool, rank: T -> nat) {
    forall x :: good(x) && up(x).Some? ==> good(up(x).value) && rank(up(x).value) < rank(x)
  }

  /** Equality as the program tests it is equality on good things. */
  ghost predicate Faithful<T(!new)>(same: (T, T) -> bool, good: T -> bool) {
    forall x, y :: good(x) && good(y) ==> (same(x, y) <==> x == y)
  }

  /** The thing `k` parents up. */
  function Climb<T>(up: T -> Option<T>, x: T, k: nat): Option<T>
    decreases k
  {
    if k == 0 then Some(x)
    else
      var above := up(x);
      if above.Some? then Climb(up, above.value, k - 1) else None
  }

  /** How many parents up `y` first is, if it is above `x`. */
  function Steps<T(!new)>(up: T -> Option<T>, same: (T, T) -> bool, ghost good: T -> bool, ghost rank: T -> nat, x: T, y: T):
    Option<nat>
    requires Ranked(up, good, rank) && good(x)
    decreases rank(x)
  {
    var above := up(x);
    if above.None? then None
    else if same(above.value, y) then Some(1)
    else
      var rest := Steps(up, same, good, rank, above.value, y);
      if rest.Some? then Some(rest.value + 1) else None
  }

  ghost function Later(steps: Option<nat>, more: nat): Option<nat> {
    if steps.Some? then Some(steps.value + more) else None
  }

  /** The loop that climbs until it meets `y` or runs out of parents. */
  method ClimbTo<T(!new)>(up: T -> Option<T>, same: (T, T) -> bool, ghost good: T -> bool, ghost rank: T -> nat, x: T, y: T)
    returns (steps: Option<nat>)
    requires Ranked(up, good, rank) && good(x)
    ensures steps == Steps(up, same, good, rank, x, y)
  {
    var count := 0;
    ghost var below := x;
    var above := up(x);
    while above.Some?
      invariant good(below) && above == up(below)
      invariant Steps(up, same, good, rank, x, y) == Later(Steps(up, same, good, rank, below, y), count)
      decreases rank(below)
    {
      count := count + 1;
      if same(above.value, y) {
        return Some(count);
      }
      below := above.value;
      above := up(above.value);
    }
    return None;
  }

  lemma {:induction false} ClimbAdds<T>(up: T -> Option<T>, x: T, m: nat, n: nat)
    ensures Climb(up, x, m + n) == (if Climb(up, x, m).Some? then Climb(up, Climb(up, x, m).value, n) else None)
    decreases m
  {
    if m > 0 && up(x).Some? {
      ClimbAdds(up, up(x).value, m - 1, n);
    }
  }

  /** Climbing keeps a thing good and drops a rank each time. */
  lemma {:induction false} ClimbStays<T(!new)>(up: T -> Option<T>, good: T -> bool, rank: T -> nat, x: T, k: nat)
    requires Ranked(up, good, rank) && good(x)
    ensures Climb(up, x, k).Some? ==> good(Climb(up, x, k).value) && rank(Climb(up, x, k).value) + k <= rank(x)
    decreases k
  {
    if k > 0 && up(x).Some? {
      ClimbStays(up, good, rank, up(x).value, k - 1);
    }
  }

  /** Every chain of parents ends. */
  lemma {:induction false} ClimbEnds<T(!new)>(up: T -> Option<T>, good: T -> bool, rank: T -> nat, x: T) returns (k: nat)
    requires Ranked(up, good, rank) && good(x)
    ensures k <= rank(x) && Climb(up, x, k).Some? && up(Climb(up, x, k).value).None?
    decreases rank(x)
  {
    if up(x).None? {
      k := 0;
    } else {
      k := ClimbEnds(up, good, rank, up(x).value);
      k := k + 1;
    }
  }

  /** The step count is the position of `y` in the chain above `x`. */
  lemma {:induction false} StepsMeaning<T(!new)>(up: T -> Option<T>, same: (T, T) -> bool, good: T -> bool, rank: T -> nat,
                                                 x: T, y: T, n: nat)
    requires Ranked(up, good, rank) && Faithful(same, good) && good(x) && good(y)
    ensures Steps(up, same, good, rank, x, y) == Some(n) <==> n > 0 && Climb(up, x, n) == Some(y)
    decreases rank(x)
  {
    if up(x).Some? {
      var p := up(x).value;
      assert same(p, y) <==> p == y;
      if n > 0 {
        StepsMeaning(up, same, good, rank, p, y, n - 1);
        ClimbStays(up, good, rank, p, n - 1);
      }
    }
  }

  /** Steps add up along a chain. */
  lemma StepsAdd<T(!new)>(up: T -> Option<T>, same: (T, T) -> bool, good: T -> bool, rank: T -> nat,
                             x: T, y: T, z: T, m: nat, n: nat)
    requires Ranked(up, good, rank) && Faithful(same, good) && good(x) && good(y) && good(z)
    requires Steps(up, same, good, rank, x, y) == Some(m) && Steps(up, same, good, rank, y, z) == Some(n)
    ensures Steps(up, same, good, rank, x, z) == Some(m + n)
  {
    StepsMeaning(up, same, good, rank, x, y, m);
    StepsMeaning(up, same, good, rank, y, z, n);
    ClimbAdds(up, x, m, n);
    StepsMeaning(up, same, good, rank, x, z, m + n);
  }

  /** What is above a thing is lower in rank and never below it. */
  lemma StepsStrict<T(!new)>(up: T -> Option<T>, same: (T, T) -> bool, good: T -> bool, rank: T -> nat, x: T, y: T)
    requires Ranked(up, good, rank) && Faithful(same, good) && good(x) && good(y)
    requires Steps(up, same, good, rank, x, y).Some?
    ensures rank(y) < rank(x) && Steps(up, same, good, rank, y, x).None?
  {
    var m := Steps(up, same, good, rank, x, y).value;
    StepsMeaning(up, same, good, rank, x, y, m);
    ClimbStays(up, good, rank, x, m);
    var back := Steps(up, same, good, rank, y, x);
    if back.Some? {
      StepsMeaning(up, same, good, rank, y, x, back.value);
      ClimbStays(up, good, rank, y, back.value);
    }
  }

  /** Two things above one thing are above one another. */
  lemma StepsInLine<T(!new)>(up: T -> Option<T>, same: (T, T) -> bool, good: T -> bool, rank: T -> nat, x: T, y: T, z: T)
    requires Ranked(up, good, rank) && Faithful(same, good) && good(x) && good(y) && good(z)
    requires Steps(up, same, good, rank, x, y).Some? && Steps(up, same, good, rank, x, z).Some?
    ensures y == z || Steps(up, same, good, rank, y, z).Some? || Steps(up, same, good, rank, z, y).Some?
  {
    var m, n := Steps(up, same, good, rank, x, y).value, Steps(up, same, good, rank, x, z).value;
    StepsMeaning(up, same, good, rank, x, y, m);
    StepsMeaning(up, same, good, rank, x, z, n);
    if m < n {
      ClimbAdds(up, x, m, n - m);
      StepsMeaning(up, same, good, rank, y, z, n - m);
    } else if n < m {
      ClimbAdds(up, x, n, m - n);
      StepsMeaning(up, same, good, rank, z, y, m - n);
    }
  }
}
