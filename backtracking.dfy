/**
 * The backtracking loop shared by choose_gamma and choose_lamda: for at most
 * max_iter rounds, test the current value, stop at the first one the test
 * accepts, otherwise multiply it by eps.  The test itself is a parameter, so
 * what is proved here holds for both searches.
 */
module Backtracking {
  import opened Outcomes
  import opened Tensor

  /** Where a search stopped: the value it returned and the number of rounds it ran. */
  datatype Found = Found(value: real, rounds: nat)

  /** The value tried in round j (counting from 0): start * eps^j. */
  function Trial(start: real, eps: real, j: nat): real
  {
    start * Pow(eps, j)
  }

  /**
   * The rounds left of a search that has run `tried` rounds and now holds
   * `value`.  A test that raises ends the search with its error.
   */
  function Backtrack<E>(test: real -> Result<bool, E>, value: real, eps: real, tried: nat, left: nat): Result<Found, E>
    decreases left
  {
    if left == 0 then Success(Found(value, tried))
    else
      match test(value)
      case Failure(e) => Failure(e)
      case Success(accepted) =>
        if accepted then Success(Found(value, tried + 1))
        else Backtrack(test, value * eps, eps, tried + 1, left - 1)
  }

  /**
   * The loop both searches run: test the current value, stop at the first
   * accepted one, otherwise multiply by eps, for at most maxIter rounds.
   */
  method Search<E>(test: real -> Result<bool, E>, start: real, eps: real, maxIter: nat) returns (r: Result<Found, E>)
    ensures r == Backtrack(test, start, eps, 0, maxIter)
  {
    var value := start;
    var i := 0;
    while i < maxIter
      invariant i <= maxIter
      invariant Backtrack(test, value, eps, i, maxIter - i) == Backtrack(test, start, eps, 0, maxIter)
    {
      var outcome := test(value);
      if outcome.Failure? {
        return Failure(outcome.error);
      }
      if outcome.value {
        return Success(Found(value, i + 1));
      }
      value := value * eps;
      i := i + 1;
    }
    return Success(Found(value, i));
  }

  /** The test turns down the values of rounds 0 .. k - 1 without raising. */
  ghost predicate RejectsBefore<E>(test: real -> Result<bool, E>, start: real, eps: real, k: nat)
  {
    forall j: nat :: j < k ==> test(Trial(start, eps, j)) == Success(false)
  }

  lemma {:induction false} TrialNext(start: real, eps: real, j: nat)
    ensures Trial(start, eps, j) * eps == Trial(start, eps, j + 1)
  {
    calc {
      Trial(start, eps, j) * eps;
      start * (Pow(eps, j) * eps);
      start * Pow(eps, j + 1);
    }
  }

  /** After m rejected rounds the search holds start * eps^m. */
  lemma {:induction false} SkipRejected<E>(test: real -> Result<bool, E>, start: real, eps: real, n: nat, m: nat, k: nat)
    requires m <= k <= n && RejectsBefore(test, start, eps, k)
    ensures Backtrack(test, Trial(start, eps, m), eps, m, n - m) == Backtrack(test, Trial(start, eps, k), eps, k, n - k)
    decreases k - m
  {
    if m < k {
      TrialNext(start, eps, m);
      SkipRejected(test, start, eps, n, m + 1, k);
    }
  }

  /** The search from the start is the search after its rejected rounds. */
  lemma {:induction false} StartAfterRejected<E>(test: real -> Result<bool, E>, start: real, eps: real, n: nat, k: nat)
    requires k <= n && RejectsBefore(test, start, eps, k)
    ensures Backtrack(test, start, eps, 0, n) == Backtrack(test, Trial(start, eps, k), eps, k, n - k)
  {
    assert Trial(start, eps, 0) == start;
    SkipRejected(test, start, eps, n, 0, k);
  }

  /** The first accepted round k < n ends the search with start * eps^k after k + 1 rounds. */
  lemma {:induction false} StopsAtFirstAccepted<E>(test: real -> Result<bool, E>, start: real, eps: real, n: nat, k: nat)
    requires k < n && RejectsBefore(test, start, eps, k)
    requires test(Trial(start, eps, k)) == Success(true)
    ensures Backtrack(test, start, eps, 0, n) == Success(Found(Trial(start, eps, k), k + 1))
  {
    StartAfterRejected(test, start, eps, n, k);
  }

  /** A test that raises in round k < n, after k rejections, makes the whole search raise. */
  lemma {:induction false} RaisesAtFirstError<E>(test: real -> Result<bool, E>, start: real, eps: real, n: nat, k: nat, e: E)
    requires k < n && RejectsBefore(test, start, eps, k)
    requires test(Trial(start, eps, k)) == Failure(e)
    ensures Backtrack(test, start, eps, 0, n) == Failure(e)
  {
    StartAfterRejected(test, start, eps, n, k);
  }

  /** When every round is turned down the search runs all n rounds and returns start * eps^n. */
  lemma {:induction false} ExhaustsWhenAllRejected<E>(test: real -> Result<bool, E>, start: real, eps: real, n: nat)
    requires RejectsBefore(test, start, eps, n)
    ensures Backtrack(test, start, eps, 0, n) == Success(Found(Trial(start, eps, n), n))
  {
    StartAfterRejected(test, start, eps, n, n);
  }

  /** A search runs between 1 and n rounds (none when n == 0). */
  lemma {:induction false} RoundsInRange<E>(test: real -> Result<bool, E>, value: real, eps: real, tried: nat, left: nat)
    ensures var r := Backtrack(test, value, eps, tried, left);
            r.Success? ==> tried <= r.value.rounds <= tried + left && (left > 0 ==> r.value.rounds > tried)
    decreases left
  {
    if left > 0 && test(value) == Success(false) {
      RoundsInRange(test, value * eps, eps, tried + 1, left - 1);
    }
  }

  /**
   * With start > 0 and 0 < eps <= 1, and a test that never raises on a
   * positive value, the search succeeds with a value in (0, start].
   */
  lemma {:induction false} StaysInRange<E>(test: real -> Result<bool, E>, value: real, eps: real, tried: nat, left: nat)
    requires value > 0.0 && 0.0 < eps <= 1.0
    requires forall g :: g > 0.0 ==> test(g).Success?
    ensures Backtrack(test, value, eps, tried, left).Success?
    ensures 0.0 < Backtrack(test, value, eps, tried, left).value.value <= value
    decreases left
  {
    if left > 0 && test(value) == Success(false) {
      assert 0.0 < value * eps <= value by {
        assert value * eps <= value * 1.0;
      }
      StaysInRange(test, value * eps, eps, tried + 1, left - 1);
    }
  }

  /** With start > 0 and eps > 0, and a test that never raises on a positive value, the search ends on a positive value. */
  lemma {:induction false} StaysPositive<E>(test: real -> Result<bool, E>, value: real, eps: real, tried: nat, left: nat)
    requires value > 0.0 && eps > 0.0
    requires forall g :: g > 0.0 ==> test(g).Success?
    ensures Backtrack(test, value, eps, tried, left).Success?
    ensures Backtrack(test, value, eps, tried, left).value.value > 0.0
    decreases left
  {
    if left > 0 && test(value) == Success(false) {
      assert value * eps > 0.0;
      StaysPositive(test, value * eps, eps, tried + 1, left - 1);
    }
  }

  /** Every error a search raises is an error the test raised on some value. */
  lemma {:induction false} FailsOnlyByTest<E>(test: real -> Result<bool, E>, value: real, eps: real, tried: nat, left: nat, e: E)
    requires Backtrack(test, value, eps, tried, left) == Failure(e)
    ensures exists g :: test(g) == Failure(e)
    decreases left
  {
    if test(value).Success? {
      FailsOnlyByTest(test, value * eps, eps, tried + 1, left - 1, e);
    }
  }
}
