/** The reconnect loop's backoff: how long each failed attempt waits before the next. */
module Reconnects {
  import opened Bytes

  const DEFAULT_MIN_STABLE: int := 5000    // milliseconds

  datatype Attempt = ConnectFailed | PeerClosed | TransportFailed(servedFor: nat) {
    predicate Waits() {
      !PeerClosed?
    }
  }

  function Pow2(k: nat): nat {
    if k == 0 then 1 else 2 * Pow2(k - 1)
  }

  /** Zero means the default, and a negative setting disables the reset. */
  function MinStable(configured: int): nat {
    var m := if configured != 0 then configured else DEFAULT_MIN_STABLE;
    if m < 0 then 0 else m
  }

  predicate Resets(a: Attempt, minStable: nat) {
    a.TransportFailed? && minStable > 0 && a.servedFor >= minStable
  }

  /** Failures since the last stable run, that run's own failure included. */
  function FailuresSinceReset(attempts: seq<Attempt>, minStable: nat): nat {
    if attempts == [] then 0
    else
      var before, a := FailuresSinceReset(attempts[..|attempts| - 1], minStable), attempts[|attempts| - 1];
      if !a.Waits() then before else if Resets(a, minStable) then 1 else before + 1
  }

  function Failures(attempts: seq<Attempt>): seq<nat> {
    if attempts == [] then []
    else
      var i := |attempts| - 1;
      Failures(attempts[..i]) + (if attempts[i].Waits() then [i] else [])
  }

  /** The wait of a failure that follows `k` others. */
  function Wait(initial: nat, maxBackoff: nat, k: nat): nat {
    if k == 0 then initial else Min(initial * Pow2(k), maxBackoff)
  }

  function WaitAt(initial: nat, maxBackoff: nat, minStable: nat, attempts: seq<Attempt>, i: nat): nat
    requires i < |attempts|
  {
    Wait(initial, maxBackoff,
         if Resets(attempts[i], minStable) then 0 else FailuresSinceReset(attempts[..i], minStable))
  }

  lemma Doubles(initial: nat, maxBackoff: nat, k: nat)
    ensures Min(2 * Wait(initial, maxBackoff, k), maxBackoff) == Wait(initial, maxBackoff, k + 1)
  {
    assert initial * Pow2(k + 1) == 2 * (initial * Pow2(k));
  }

  /**
  `Run`'s waits, over any attempts: the wait of each failure is `initial` doubled once for every
  failure since the last stable run, capped; a peer that closed changes nothing, wherever it comes.
  */
  method Run(initial: nat, maxBackoff: nat, configuredStable: int, attempts: seq<Attempt>) returns (waits: seq<nat>)
    ensures |waits| == |Failures(attempts)|
    ensures forall j :: 0 <= j < |waits| ==>
              && Failures(attempts)[j] < |attempts|
              && waits[j] == WaitAt(initial, maxBackoff, MinStable(configuredStable), attempts, Failures(attempts)[j])
  {
    var minStable := if configuredStable != 0 then configuredStable else DEFAULT_MIN_STABLE;
    if minStable < 0 {
      minStable := 0;
    }
    waits := [];
    var backoff, i := initial, 0;
    while i < |attempts|
      invariant 0 <= i <= |attempts|
      invariant backoff == Wait(initial, maxBackoff, FailuresSinceReset(attempts[..i], minStable))
      invariant |waits| == |Failures(attempts[..i])|
      invariant forall j :: 0 <= j < |waits| ==>
                  && Failures(attempts[..i])[j] < i
                  && waits[j] == WaitAt(initial, maxBackoff, minStable, attempts, Failures(attempts[..i])[j])
    {
      var a := attempts[i];
      assert attempts[..i + 1][..i] == attempts[..i];
      Doubles(initial, maxBackoff, FailuresSinceReset(attempts[..i], minStable));
      Doubles(initial, maxBackoff, 0);
      match a {
        case PeerClosed =>
        case ConnectFailed =>
          waits := waits + [backoff];
          backoff := Min(backoff * 2, maxBackoff);
        case TransportFailed(servedFor) =>
          if minStable > 0 && servedFor >= minStable {
            backoff := initial;
          }
          waits := waits + [backoff];
          backoff := Min(backoff * 2, maxBackoff);
      }
      i := i + 1;
    }
    assert attempts[..i] == attempts;
  }

  /** With the initial wait within the cap, every wait is the plain capped power of two. */
  lemma ClosedForm(initial: nat, maxBackoff: nat, k: nat)
    ensures (forall j :: Wait(initial, maxBackoff, j) == Min(initial * Pow2(j), maxBackoff)) <==> initial <= maxBackoff
    ensures initial <= maxBackoff ==> Wait(initial, maxBackoff, k) <= Wait(initial, maxBackoff, k + 1) <= maxBackoff
  {
    assert Wait(initial, maxBackoff, 0) == initial && initial * Pow2(0) == initial;
    assert initial * Pow2(k + 1) == 2 * (initial * Pow2(k));
  }

  /** The setting, in milliseconds: five seconds unless configured, and never when negative. */
  lemma StableSetting(configured: int)
    ensures configured == 0 ==> MinStable(configured) == 5000
    ensures configured > 0 ==> MinStable(configured) == configured
    ensures configured < 0 ==> MinStable(configured) == 0
  {
  }

  /** A run that failed without having been stable, or never got to run. */
  predicate Short(a: Attempt, minStable: nat) {
    a.ConnectFailed? || (a.TransportFailed? && (minStable == 0 || a.servedFor < minStable))
  }

  lemma {:induction false} ShortRunsCount(before: seq<Attempt>, shorts: seq<Attempt>, minStable: nat)
    requires forall a <- shorts :: Short(a, minStable)
    ensures FailuresSinceReset(before + shorts, minStable) == FailuresSinceReset(before, minStable) + |shorts|
    decreases |shorts|
  {
    if shorts == [] {
      assert before + shorts == before;
    } else {
      var last := |shorts| - 1;
      assert shorts[last] in shorts && forall a <- shorts[..last] :: a in shorts;
      assert (before + shorts)[..|before| + last] == before + shorts[..last];
      ShortRunsCount(before, shorts[..last], minStable);
    }
  }

  /** A failure after a run of at least the stable time waits the initial wait, whatever came before. */
  lemma StableWaitsInitial(initial: nat, maxBackoff: nat, minStable: nat,
                           before: seq<Attempt>, served: nat, after: seq<Attempt>)
    requires minStable > 0 && served >= minStable
    ensures WaitAt(initial, maxBackoff, minStable, before + [TransportFailed(served)] + after, |before|) == initial
  {
  }

  /** The `k`-th short failure after it waits the initial wait doubled `k` times, capped. */
  lemma {:induction false} ShortsAfterStableDouble(initial: nat, maxBackoff: nat, minStable: nat,
                                                   before: seq<Attempt>, served: nat, shorts: seq<Attempt>, k: nat)
    requires minStable > 0 && served >= minStable && k < |shorts| && forall a <- shorts :: Short(a, minStable)
    ensures WaitAt(initial, maxBackoff, minStable, before + [TransportFailed(served)] + shorts, |before| + 1 + k)
            == Min(initial * Pow2(k + 1), maxBackoff)
  {
    var start := before + [TransportFailed(served)];
    assert start[..|before|] == before;
    assert (start + shorts)[..|before| + 1 + k] == start + shorts[..k];
    assert shorts[k] in shorts && forall a <- shorts[..k] :: a in shorts;
    ShortRunsCount(start, shorts[..k], minStable);
  }

  /** And so it is from the first failure of all while none was stable. */
  lemma {:induction false} ShortsDouble(initial: nat, maxBackoff: nat, minStable: nat, shorts: seq<Attempt>, k: nat)
    requires k < |shorts| && forall a <- shorts :: Short(a, minStable)
    ensures WaitAt(initial, maxBackoff, minStable, shorts, k)
            == if k == 0 then initial else Min(initial * Pow2(k), maxBackoff)
  {
    assert [] + shorts[..k] == shorts[..k];
    assert shorts[k] in shorts && forall a <- shorts[..k] :: a in shorts;
    ShortRunsCount([], shorts[..k], minStable);
  }

  /** Dropping a peer-closed attempt from anywhere leaves every count, and so every wait, as it was. */
  lemma {:induction false} PeerClosedIsNeutral(before: seq<Attempt>, after: seq<Attempt>, minStable: nat)
    ensures FailuresSinceReset(before + [PeerClosed] + after, minStable)
            == FailuresSinceReset(before + after, minStable)
    decreases |after|
  {
    if after == [] {
      assert before + [PeerClosed] + after == before + [PeerClosed];
      assert (before + [PeerClosed])[..|before|] == before;
      assert before + after == before;
    } else {
      var last := |after| - 1;
      PeerClosedIsNeutral(before, after[..last], minStable);
      assert (before + [PeerClosed] + after)[..|before| + 1 + last] == before + [PeerClosed] + after[..last];
      assert (before + after)[..|before| + last] == before + after[..last];
    }
  }
}
