/**
 * The size-stability loop of `ImportWhenReady`. Time is one poll per step: the
 * coroutine's readings of the file length are given as a sequence, -1 standing
 * for an open that failed (file locked or missing).
 */
module StabilityDetector {

  /** `stableChecks`: how many equal readings in a row end the wait. */
  const StableChecks: nat := 4

  /** The value of `last` before the first reading. */
  const NoReading: int := -1

  /** The update rule of the loop body: count a positive reading equal to the previous one, else reset. */
  function NextStreak(stable: nat, last: int, len: int): nat {
    if len > 0 && len == last then stable + 1 else 0
  }

  /** `last` after the readings `obs`. */
  function LastReading(obs: seq<int>): int {
    if |obs| == 0 then NoReading else obs[|obs| - 1]
  }

  /** `stable` after the readings `obs`, starting from `stable = 0, last = -1`. */
  function Streak(obs: seq<int>): nat
    decreases |obs|
  {
    if |obs| == 0 then 0
    else
      var before := obs[..|obs| - 1];
      NextStreak(Streak(before), LastReading(before), obs[|obs| - 1])
  }

  /** The last `m` readings of `obs` are one and the same positive length. */
  predicate SteadyTail(obs: seq<int>, m: nat) {
    && |obs| >= m > 0
    && obs[|obs| - 1] > 0
    && forall j :: |obs| - m <= j < |obs| ==> obs[j] == obs[|obs| - 1]
  }

  /**
   * The streak counts exactly the equal positive readings that precede the last
   * one: `Streak(obs) >= n` iff the last `n + 1` readings are equal and positive.
   */
  lemma {:induction false} StreakMeansSteadyTail(obs: seq<int>, n: nat)
    requires n >= 1
    ensures Streak(obs) >= n <==> SteadyTail(obs, n + 1)
    decreases |obs|
  {
    if |obs| == 0 {
      return;
    }
    var before := obs[..|obs| - 1];
    var x := obs[|obs| - 1];
    var grew := x > 0 && x == LastReading(before);
    if grew {
      assert |before| > 0 && before[|before| - 1] == obs[|obs| - 2];
      if n >= 2 {
        StreakMeansSteadyTail(before, n - 1);
        if SteadyTail(before, n) {
          forall j | |obs| - (n + 1) <= j < |obs|
            ensures obs[j] == x
          {
            if j < |obs| - 1 {
              assert obs[j] == before[j];
            }
          }
        }
        if SteadyTail(obs, n + 1) {
          forall j | |before| - n <= j < |before|
            ensures before[j] == before[|before| - 1]
          {
            assert before[j] == obs[j];
          }
        }
      }
    } else {
      assert Streak(obs) == 0;
      assert !SteadyTail(obs, n + 1) by {
        if |obs| >= 2 && x > 0 {
          assert obs[|obs| - 2] == before[|before| - 1];
        }
      }
    }
  }

  /** Every counted reading needs one before it, so a streak is shorter than the readings. */
  lemma StreakBelowReadings(obs: seq<int>)
    requires |obs| > 0
    ensures Streak(obs) < |obs|
  {
    if Streak(obs) >= 1 {
      StreakMeansSteadyTail(obs, Streak(obs));
    }
  }

  /** A failed open (-1) or an empty file (0) resets the streak, whatever came before. */
  lemma NonPositiveReadingResets(obs: seq<int>, len: int)
    requires len <= 0
    ensures Streak(obs + [len]) == 0
  {
    assert (obs + [len])[..|obs|] == obs;
  }

  /**
   * The readings from poll `c` on hold a new positive length (it differs from
   * the reading before `c`). Then the streak is k - c - 1 after k readings for
   * c < k <= c + 5, so the wait ends with the fifth reading of that length: four poll
   * intervals after it was first seen, and not earlier.
   */
  lemma {:induction false} StableFourPollsAfterChange(obs: seq<int>, c: nat, k: nat)
    requires c < k <= c + 5 <= |obs|
    requires obs[c] > 0
    requires c == 0 || obs[c - 1] != obs[c]
    requires forall j :: c <= j < c + 5 ==> obs[j] == obs[c]
    ensures Streak(obs[..k]) == k - c - 1
    decreases k
  {
    var pre := obs[..k];
    var before := pre[..k - 1];
    assert before == obs[..k - 1];
    if k == c + 1 {
      assert pre[k - 1] == obs[c];
      assert c == 0 || LastReading(before) == obs[c - 1];
    } else {
      StableFourPollsAfterChange(obs, c, k - 1);
      assert LastReading(before) == obs[k - 2] == obs[c];
      assert pre[k - 1] == obs[k - 1] == obs[c];
    }
  }

  /**
   * The first wait loop of `ImportWhenReady`: poll `File.Exists` until it holds.
   * `present[i]` is the i-th check; `found` is false when the checks ran out first.
   */
  method WaitForFile(present: seq<bool>) returns (waits: nat, found: bool)
    ensures waits <= |present|
    ensures forall k :: 0 <= k < waits ==> !present[k]
    ensures found <==> waits < |present|
    ensures found ==> present[waits]
  {
    waits := 0;
    while waits < |present| && !present[waits]
      invariant waits <= |present|
      invariant forall k :: 0 <= k < waits ==> !present[k]
    {
      waits := waits + 1;
    }
    found := waits < |present|;
  }

  /**
   * The stability loop of `ImportWhenReady` over the readings `lengths`.
   * `polls` readings are consumed; `stable` says the loop was left, which happens
   * exactly at the first point where the counter reaches `StableChecks`; when the
   * readings run out first, the coroutine is still waiting.
   */
  method PollUntilStable(lengths: seq<int>) returns (polls: nat, stable: bool)
    ensures polls <= |lengths|
    ensures stable <==> Streak(lengths[..polls]) == StableChecks
    ensures !stable ==> polls == |lengths|
    ensures forall k :: 0 <= k < polls ==> Streak(lengths[..k]) < StableChecks
    ensures stable ==> polls >= StableChecks + 1 && SteadyTail(lengths[..polls], StableChecks + 1)
  {
    var count: nat := 0;
    var last := NoReading;
    polls := 0;
    while count < StableChecks && polls < |lengths|
      invariant polls <= |lengths|
      invariant count <= StableChecks
      invariant count == Streak(lengths[..polls])
      invariant last == LastReading(lengths[..polls])
      invariant forall k :: 0 <= k < polls ==> Streak(lengths[..k]) < StableChecks
      decreases |lengths| - polls
    {
      var len := lengths[polls];
      assert lengths[..polls + 1][..polls] == lengths[..polls];
      if len > 0 && len == last {
        count := count + 1;
      } else {
        count := 0;
      }
      last := len;
      polls := polls + 1;
    }
    stable := count == StableChecks;
    if stable {
      StreakMeansSteadyTail(lengths[..polls], StableChecks);
    }
  }
}
