/** The reconnect delay of internal/ws/client.go's `Run`, and its closed form. */
module Backoff {
  import opened Text

  /** Doubling in 64 bits, capped. */
  function Doubled(backoff: int, max: int): int {
    var twice := Wrap64(backoff * 2);
    if twice > max then max else twice
  }

  /** The `backoff` variable after sessions that ended in an error (true) or cleanly (false). */
  function BackoffAfter(initial: int, max: int, failed: seq<bool>): int {
    if failed == [] || !failed[|failed| - 1] then initial
    else Doubled(BackoffAfter(initial, max, failed[..|failed| - 1]), max)
  }

  /** How long the client waits after the last of these sessions. */
  function WaitAfter(initial: int, max: int, failed: seq<bool>): int
    requires failed != []
  {
    if failed[|failed| - 1] then BackoffAfter(initial, max, failed[..|failed| - 1]) else initial
  }

  /** The waits of a whole run, one after each session. */
  function WaitsOf(initial: int, max: int, failed: seq<bool>): (waits: seq<int>)
    ensures |waits| == |failed|
  {
    if failed == [] then []
    else WaitsOf(initial, max, failed[..|failed| - 1]) + [WaitAfter(initial, max, failed)]
  }

  lemma NoSessionYet(initial: int, max: int)
    ensures BackoffAfter(initial, max, []) == initial && WaitsOf(initial, max, []) == []
  {
  }

  /** One more session. */
  lemma OneMoreSession(initial: int, max: int, failed: seq<bool>, err: bool)
    ensures var b, all := BackoffAfter(initial, max, failed), failed + [err];
      && BackoffAfter(initial, max, all) == (if err then Doubled(b, max) else initial)
      && WaitsOf(initial, max, all) == WaitsOf(initial, max, failed) + [if err then b else initial]
  {
  }

  lemma {:induction false} WaitsOfAt(initial: int, max: int, failed: seq<bool>, i: nat)
    requires i < |failed|
    ensures WaitsOf(initial, max, failed)[i] == WaitAfter(initial, max, failed[..i + 1])
  {
    var n := |failed| - 1;
    if i < n {
      WaitsOfAt(initial, max, failed[..n], i);
      assert failed[..n][..i + 1] == failed[..i + 1];
    } else {
      assert failed[..n + 1] == failed;
    }
  }

  /** How many sessions at the end failed in a row. */
  function Streak(failed: seq<bool>): nat {
    if failed == [] || !failed[|failed| - 1] then 0 else 1 + Streak(failed[..|failed| - 1])
  }

  function Pow2(n: nat): (p: int)
    ensures p >= 1
  {
    if n == 0 then 1 else 2 * Pow2(n - 1)
  }

  /** `x` times 2 to the `n`. */
  function Scaled(x: int, n: nat): (y: int)
    ensures x > 0 ==> y > 0
  {
    if n == 0 then x else 2 * Scaled(x, n - 1)
  }

  lemma {:induction false} ScaledIsPower(x: int, n: nat)
    ensures Scaled(x, n) == x * Pow2(n)
  {
    if n > 0 {
      ScaledIsPower(x, n - 1);
    }
  }

  function Min(a: int, b: int): int {
    if a <= b then a else b
  }

  /** The initial delay for the first failure in a row, the capped power of two for the others. */
  function ClosedForm(initial: int, max: int, streak: nat): int {
    if streak <= 1 then initial else Min(Scaled(initial, streak - 1), max)
  }

  ghost predicate FollowsClosedForm(initial: int, max: int) {
    forall failed: seq<bool> :: failed != [] ==>
      WaitAfter(initial, max, failed) == ClosedForm(initial, max, Streak(failed))
  }

  const HALF: int := MAX_INT64 / 2

  lemma WrapOfDouble(x: int)
    requires 0 < x <= MAX_INT64
    ensures x <= HALF ==> Wrap64(x * 2) == x * 2
    ensures x > HALF ==> Wrap64(x * 2) < 0
  {
  }

  /** As long as nothing above half the range is doubled, the variable is one step ahead of the
      closed form. */
  lemma {:induction false} BackoffIsPower(initial: int, max: int, failed: seq<bool>)
    requires 0 < initial <= HALF && 0 < max <= MAX_INT64
    requires max <= HALF || Scaled(initial, Streak(failed)) <= 2 * HALF
    ensures BackoffAfter(initial, max, failed) == ClosedForm(initial, max, Streak(failed) + 1)
  {
    hide Wrap64;
    if failed != [] && failed[|failed| - 1] {
      var before := failed[..|failed| - 1];
      BackoffIsPower(initial, max, before);
      var b := BackoffAfter(initial, max, before);
      assert Scaled(initial, Streak(failed)) == 2 * Scaled(initial, Streak(before));
      assert Streak(before) == 0 ==> Scaled(initial, Streak(before)) == initial;
      WrapOfDouble(b);
      assert b <= HALF && BackoffAfter(initial, max, failed) == Min(b * 2, max);
    }
  }

  function AllFailed(n: nat): seq<bool> {
    if n == 0 then [] else AllFailed(n - 1) + [true]
  }

  lemma {:induction false} StreakOfAllFailed(n: nat)
    ensures Streak(AllFailed(n)) == n == |AllFailed(n)|
    ensures n > 0 ==> AllFailed(n)[..n - 1] == AllFailed(n - 1) && AllFailed(n)[n - 1]
  {
    if n > 0 {
      StreakOfAllFailed(n - 1);
    }
  }

  /** The first power of two that lifts `initial` above half the range. */
  lemma {:induction false} FirstAboveHalf(initial: int, n: nat) returns (k: nat)
    requires 0 < initial && Scaled(initial, n) <= HALF
    ensures Scaled(initial, k) <= HALF < Scaled(initial, k + 1)
    decreases HALF - Scaled(initial, n)
  {
    if Scaled(initial, n + 1) > HALF {
      k := n;
    } else {
      k := FirstAboveHalf(initial, n + 1);
    }
  }

  /** With both settings in range, the wait follows the closed form for every history of sessions
      exactly when neither setting is above half of the 64-bit range. */
  lemma ClosedFormIff(initial: int, max: int)
    requires 0 < initial <= MAX_INT64 && 0 < max <= MAX_INT64
    ensures FollowsClosedForm(initial, max) <==> initial <= HALF && max <= HALF
  {
    if initial > HALF {
      InitialTooLarge(initial, max);
    } else if max > HALF {
      MaxTooLarge(initial, max);
    } else {
      forall failed: seq<bool> | failed != []
        ensures WaitAfter(initial, max, failed) == ClosedForm(initial, max, Streak(failed))
      {
        if failed[|failed| - 1] {
          BackoffIsPower(initial, max, failed[..|failed| - 1]);
        }
      }
    }
  }

  lemma InitialTooLarge(initial: int, max: int)
    requires HALF < initial <= MAX_INT64 && 0 < max <= MAX_INT64
    ensures !FollowsClosedForm(initial, max)
  {
    WrapOfDouble(initial);
    var two := [true, true];
    assert two[..1] == [true] && [true][..0] == [];
    assert BackoffAfter(initial, max, [true]) < 0;
    assert Streak([true]) == 1 && Streak(two) == 2;
    assert WaitAfter(initial, max, two) < 0;
    assert ClosedForm(initial, max, 2) > 0;
  }

  lemma MaxTooLarge(initial: int, max: int)
    requires 0 < initial <= HALF && HALF < max <= MAX_INT64
    ensures !FollowsClosedForm(initial, max)
  {
    hide Wrap64;
    var k := FirstAboveHalf(initial, 0);
    StreakOfAllFailed(k + 1);
    StreakOfAllFailed(k + 2);
    StreakOfAllFailed(k + 3);
    BackoffIsPower(initial, max, AllFailed(k + 1));
    var b := BackoffAfter(initial, max, AllFailed(k + 1));
    assert HALF < b <= MAX_INT64;
    WrapOfDouble(b);
    assert BackoffAfter(initial, max, AllFailed(k + 2)) < 0;
    assert WaitAfter(initial, max, AllFailed(k + 3)) < 0;
    assert ClosedForm(initial, max, k + 3) > 0;
  }
}
