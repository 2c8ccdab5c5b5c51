/** The reconnect loop's backoff (internal/events/wsclient.go), with durations as int64. */
module Backoff {

  const MAX_INT64 := 0x7FFF_FFFF_FFFF_FFFF
  const SECOND := 1_000_000_000

  predicate IsInt64(n: int) {
    -MAX_INT64 - 1 <= n <= MAX_INT64
  }

  const TWO64 := 0x1_0000_0000_0000_0000

  /** What an int64 holds after doubling an int64: the exact result `n`, wrapped around. */
  function Wrap(n: int): (r: int)
    requires -TWO64 <= n < TWO64
    ensures IsInt64(r) && (r == n || r == n - TWO64 || r == n + TWO64)
  {
    if n > MAX_INT64 then n - TWO64 else if n < -MAX_INT64 - 1 then n + TWO64 else n
  }

  function Pow2(k: nat): (p: int)
    ensures p >= 1 && p > k
  {
    if k == 0 then 1 else 2 * Pow2(k - 1)
  }

  function ClampMin(minBackoff: int): int {
    if minBackoff <= 0 then SECOND else minBackoff
  }

  function ClampMax(minBackoff: int, maxBackoff: int): int {
    if maxBackoff < ClampMin(minBackoff) then ClampMin(minBackoff) else maxBackoff
  }

  /** Doubling and capping. */
  function Next(backoff: int, max: int): (r: int)
    requires IsInt64(backoff) && IsInt64(max)
    ensures IsInt64(r)
  {
    var doubled := Wrap(2 * backoff);
    if doubled > max then max else doubled
  }

  /** The wait after `k` failed dials in a row, as the loop computes it. */
  function Wait(min: int, max: int, k: nat): (r: int)
    requires IsInt64(min) && IsInt64(max)
    ensures IsInt64(r)
  {
    if k == 0 then min else Next(Wait(min, max, k - 1), max)
  }

  /** The closed form. */
  function Ideal(min: int, max: int, k: nat): int {
    if min * Pow2(k) > max then max else min * Pow2(k)
  }

  /** Turns since the last healthy connection, or since the start if there was none. */
  function Since(connected: seq<bool>, i: nat): (k: nat)
    requires i < |connected|
    ensures k <= i
  {
    if connected[i] || i == 0 then 0 else 1 + Since(connected, i - 1)
  }

  lemma {:induction false} SinceMeaning(connected: seq<bool>, i: nat)
    requires i < |connected|
    ensures var k := Since(connected, i);
      (k == i || connected[i - k]) && forall j :: i - k < j <= i ==> !connected[j]
  {
    if i > 0 {
      SinceMeaning(connected, i - 1);
    }
  }

  /** The wait in turn `i`. */
  function TurnWait(min: int, max: int, connected: seq<bool>, i: nat): (r: int)
    requires IsInt64(min) && IsInt64(max) && i < |connected|
    ensures IsInt64(r)
  {
    if connected[i] || i == 0 then min else Next(TurnWait(min, max, connected, i - 1), max)
  }

  /** The waits of the first `n` turns. */
  function TurnWaits(min: int, max: int, connected: seq<bool>, n: nat): (r: seq<int>)
    requires IsInt64(min) && IsInt64(max) && n <= |connected|
    ensures |r| == n
  {
    if n == 0 then [] else TurnWaits(min, max, connected, n - 1) + [TurnWait(min, max, connected, n - 1)]
  }

  lemma {:induction false} TurnWaitsAt(min: int, max: int, connected: seq<bool>, n: nat, i: nat)
    requires IsInt64(min) && IsInt64(max) && i < n <= |connected|
    ensures TurnWaits(min, max, connected, n)[i] == TurnWait(min, max, connected, i)
  {
    if i < n - 1 {
      TurnWaitsAt(min, max, connected, n - 1, i);
    }
  }

  /** It depends only on how long ago the last healthy connection was. */
  lemma {:induction false} TurnWaitMeaning(min: int, max: int, connected: seq<bool>, i: nat)
    requires IsInt64(min) && IsInt64(max) && i < |connected|
    ensures TurnWait(min, max, connected, i) == Wait(min, max, Since(connected, i))
  {
    if i > 0 {
      TurnWaitMeaning(min, max, connected, i - 1);
    }
  }

  /** All the waits of a call, with its own arguments. */
  function Waits(minBackoff: int, maxBackoff: int, connected: seq<bool>): (r: seq<int>)
    requires IsInt64(minBackoff) && IsInt64(maxBackoff)
    ensures |r| == |connected|
  {
    TurnWaits(ClampMin(minBackoff), ClampMax(minBackoff, maxBackoff), connected, |connected|)
  }

  /**
   The loop of `RunWS`: `connected[i]` says whether turn `i` established a connection, and the
   context is done after those turns. The result is the durations it waited, in order.
   */
  method RunWS(minBackoff: int, maxBackoff: int, connected: seq<bool>) returns (waits: seq<int>)
    requires IsInt64(minBackoff) && IsInt64(maxBackoff)
    ensures waits == Waits(minBackoff, maxBackoff, connected)
  {
    var min, max := minBackoff, maxBackoff;
    if min <= 0 {
      min := SECOND;
    }
    if max < min {
      max := min;
    }
    var backoff := min;
    waits := [];
    for i := 0 to |connected|
      invariant waits == TurnWaits(min, max, connected, i)
      invariant IsInt64(backoff)
      invariant backoff == if i == 0 then min else Next(TurnWait(min, max, connected, i - 1), max)
    {
      if connected[i] {
        backoff := min;
      }
      waits := waits + [backoff];
      backoff := Wrap(2 * backoff);
      if backoff > max {
        backoff := max;
      }
    }
  }

  lemma NextMeaning(backoff: int, max: int)
    requires 0 < backoff <= max <= MAX_INT64 / 2
    ensures Next(backoff, max) == if 2 * backoff > max then max else 2 * backoff
    ensures IsInt64(2 * backoff)
  {
  }

  /** No wait overflows as long as the cap is at most half the largest int64. */
  lemma {:induction false} NoOverflow(min: int, max: int, k: nat)
    requires 0 < min <= max <= MAX_INT64 / 2
    ensures Wait(min, max, k) == Ideal(min, max, k)
    ensures min <= Wait(min, max, k) <= max
    ensures k > 0 ==> Wait(min, max, k - 1) <= Wait(min, max, k)
    ensures IsInt64(2 * Wait(min, max, k))
  {
    if k > 0 {
      NoOverflow(min, max, k - 1);
      NextMeaning(Wait(min, max, k - 1), max);
      IdealDoubles(min, max, k - 1);
    } else {
      assert min * Pow2(0) == min;
    }
  }

  lemma IdealDoubles(min: int, max: int, k: nat)
    requires 0 < min <= max
    ensures min * Pow2(k + 1) == 2 * (min * Pow2(k)) && min * Pow2(k) > 0
  {
  }

  /** Above that, a run of 64 failures is enough to overflow, and the closed form fails. */
  lemma {:induction false} Overflows(min: int, max: int)
    requires 0 < min <= max <= MAX_INT64 && max > MAX_INT64 / 2
    ensures exists k: nat :: k <= 64 && Wait(min, max, k) != Ideal(min, max, k)
  {
    PowersOf2();
    Grows(min, Pow2(63));
    Grows(min, Pow2(64));
    assert Ideal(min, max, 63) == max == Ideal(min, max, 64);
    if Wait(min, max, 63) == max {
      assert Wait(min, max, 64) == Next(max, max) < 0;
    }
  }

  lemma Grows(a: int, b: int)
    requires a >= 1 && b >= 0
    ensures a * b >= b
  {
  }

  lemma {:induction false} EightMore(k: nat)
    ensures Pow2(k + 8) == 256 * Pow2(k)
  {
    assert Pow2(k + 4) == 16 * Pow2(k) by {
      assert Pow2(k + 2) == 4 * Pow2(k);
    }
    assert Pow2(k + 6) == 4 * Pow2(k + 4);
  }

  lemma {:induction false} PowersOf2()
    ensures Pow2(33) == 0x2_0000_0000
    ensures Pow2(63) == MAX_INT64 + 1 && Pow2(64) == TWO64
  {
    EightMore(0);
    EightMore(8);
    EightMore(16);
    EightMore(24);
    EightMore(32);
    EightMore(40);
    EightMore(48);
    EightMore(56);
  }

  /** Up to the cap, the waits double. */
  lemma {:induction false} Doubles(min: int, max: int, k: nat)
    requires 0 < min && min * Pow2(k) <= max <= MAX_INT64
    ensures IsInt64(min) && Wait(min, max, k) == min * Pow2(k)
  {
    Grows(Pow2(k), min);
    if k > 0 {
      assert min * Pow2(k) == 2 * (min * Pow2(k - 1));
      Grows(Pow2(k - 1), min);
      Doubles(min, max, k - 1);
    }
  }

  /** With the default minimum of one second and no effective cap, the 35th wait is negative. */
  lemma {:induction false} OverflowExample()
    ensures Wait(SECOND, MAX_INT64, 33) == 8_589_934_592 * SECOND
    ensures Wait(SECOND, MAX_INT64, 34) == -1_266_874_889_709_551_616
  {
    PowersOf2();
    Doubles(SECOND, MAX_INT64, 33);
  }

  /**
   The waits follow the closed form exactly if the configured maximum is at most half the largest
   int64, be it for runs of failures of any length or only for the first 64.
   */
  lemma {:induction false} ClosedFormHoldsIff(min: int, max: int)
    requires 0 < min <= max <= MAX_INT64
    ensures (forall k: nat :: Wait(min, max, k) == Ideal(min, max, k)) <==> max <= MAX_INT64 / 2
    ensures (forall k: nat :: k <= 64 ==> Wait(min, max, k) == Ideal(min, max, k)) <==> max <= MAX_INT64 / 2
  {
    if max <= MAX_INT64 / 2 {
      forall k: nat {
        NoOverflow(min, max, k);
      }
    } else {
      Overflows(min, max);
    }
  }

  /** Which bounds a call runs with: those it is given if they make sense, and else a second, or the minimum. */
  lemma {:induction false} BoundsOfACall(minBackoff: int, maxBackoff: int, connected: seq<bool>, i: nat)
    requires IsInt64(minBackoff) && IsInt64(maxBackoff) && i < |connected|
    ensures var waits, k := Waits(minBackoff, maxBackoff, connected), Since(connected, i);
      && (0 < minBackoff <= maxBackoff ==> waits[i] == Wait(minBackoff, maxBackoff, k))
      && (0 < minBackoff && maxBackoff < minBackoff ==> waits[i] == Wait(minBackoff, minBackoff, k))
      && (minBackoff <= 0 && maxBackoff >= 1_000_000_000 ==> waits[i] == Wait(1_000_000_000, maxBackoff, k))
      && (minBackoff <= 0 && maxBackoff < 1_000_000_000 ==> waits[i] == Wait(1_000_000_000, 1_000_000_000, k))
  {
    var min, max := ClampMin(minBackoff), ClampMax(minBackoff, maxBackoff);
    TurnWaitsAt(min, max, connected, |connected|, i);
    TurnWaitMeaning(min, max, connected, i);
  }

  /**
   With a maximum of up to half the largest int64, in any run: the wait in turn `i` is the minimum,
   doubled for each turn since the last healthy connection and capped, so a healthy connection brings
   it back to the minimum; it stays within the bounds, and never decreases between healthy connections.
   */
  lemma {:induction false} WaitsInARun(minBackoff: int, maxBackoff: int, connected: seq<bool>, i: nat)
    requires IsInt64(minBackoff) && maxBackoff <= 0x3FFF_FFFF_FFFF_FFFF && IsInt64(maxBackoff)
    requires minBackoff <= 0x3FFF_FFFF_FFFF_FFFF && i < |connected|
    ensures var min := if minBackoff <= 0 then 1_000_000_000 else minBackoff;
      var max := if maxBackoff < min then min else maxBackoff;
      var waits := Waits(minBackoff, maxBackoff, connected);
      var doubled := min * Pow2(Since(connected, i));
      && waits[i] == (if doubled > max then max else doubled)
      && min <= waits[i] <= max
      && (connected[i] ==> waits[i] == min)
      && (i > 0 && !connected[i] ==> waits[i - 1] <= waits[i])
  {
    var min := if minBackoff <= 0 then 1_000_000_000 else minBackoff;
    var max := if maxBackoff < min then min else maxBackoff;
    BoundsOfACall(minBackoff, maxBackoff, connected, i);
    NoOverflow(min, max, Since(connected, i));
    if i > 0 && !connected[i] {
      BoundsOfACall(minBackoff, maxBackoff, connected, i - 1);
    }
  }
}
