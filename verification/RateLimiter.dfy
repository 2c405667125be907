/**
 * The fixed-window rate limiter: a Redis counter per key, created by the first
 * call with an expiry of one window. A key with expiry e is present before e.
 * Times and the window are in the same unit.
 */
module RateLimiter {
  import opened Prelude

  type Count = n: int | n >= 1 witness 1

  /** The counter under one key: absent, or counting until its expiry. */
  datatype Counter = Missing | Counting(count: Count, until: Time)

  predicate Running(c: Counter, t: Time)
  {
    c.Counting? && t < c.until
  }

  /** INCR, and EXPIRE when the count is 1. */
  function Incr(c: Counter, window: nat, t: Time): Counter
  {
    if Running(c, t) then c.(count := c.count + 1) else Counting(1, t + window)
  }

  predicate Allowed(c: Counter, window: nat, limit: int, t: Time)
  {
    Incr(c, window, t).count <= limit
  }

  function After(c: Counter, window: nat, times: seq<Time>): Counter
    decreases |times|
  {
    if times == [] then c else After(Incr(c, window, times[0]), window, times[1..])
  }

  /** How many of the calls at `times` are allowed and fall into [lo, hi). */
  function AllowedIn(c: Counter, window: nat, limit: int, times: seq<Time>, lo: Time, hi: Time): nat
    decreases |times|
  {
    if times == [] then 0
    else
      (if lo <= times[0] < hi && Allowed(c, window, limit, times[0]) then 1 else 0) +
      AllowedIn(Incr(c, window, times[0]), window, limit, times[1..], lo, hi)
  }

  ghost predicate Ordered(times: seq<Time>)
  {
    forall i, j :: 0 <= i < j < |times| ==> times[i] <= times[j]
  }

  function Room(c: Counter, limit: int): nat
  {
    if c.Counting? && c.count <= limit then limit - c.count else 0
  }

  function Cap(limit: int): nat
  {
    if limit > 0 then limit else 0
  }

  // ---------- at most `limit` per counter window ----------

  /** While one counter runs, it admits no more than it has room for. */
  lemma {:induction false} WithinCounter(c: Counter, window: nat, limit: int, times: seq<Time>, lo: Time, hi: Time)
    requires Ordered(times) && c.Counting? && hi <= c.until
    ensures AllowedIn(c, window, limit, times, lo, hi) <= Room(c, limit)
    decreases |times|
  {
    if times != [] {
      var t, rest := times[0], times[1..];
      if t < c.until {
        WithinCounter(Incr(c, window, t), window, limit, rest, lo, hi);
      } else {
        NoneAfter(Incr(c, window, t), window, limit, rest, lo, hi);
      }
    }
  }

  lemma {:induction false} NoneAfter(c: Counter, window: nat, limit: int, times: seq<Time>, lo: Time, hi: Time)
    requires forall i :: 0 <= i < |times| ==> times[i] >= hi
    ensures AllowedIn(c, window, limit, times, lo, hi) == 0
    decreases |times|
  {
    if times != [] {
      NoneAfter(Incr(c, window, times[0]), window, limit, times[1..], lo, hi);
    }
  }

  /** A counter started by a call at `t` admits at most `limit` calls, that one included, before it expires. */
  lemma AtMostLimitPerCounter(c: Counter, window: nat, limit: int, t: Time, rest: seq<Time>)
    requires Ordered([t] + rest) && !Running(c, t)
    ensures AllowedIn(c, window, limit, [t] + rest, t, t + window) <= Cap(limit)
  {
    var times := [t] + rest;
    assert times[1..] == rest && Ordered(rest) by {
      forall i, j | 0 <= i < j < |rest| ensures rest[i] <= rest[j] {
        assert times[i + 1] <= times[j + 1];
      }
    }
    WithinCounter(Incr(c, window, t), window, limit, rest, t, t + window);
  }

  // ---------- less than twice the limit in any interval ----------

  /** From a call inside the interval on: what a running counter has left, plus one more counter. */
  lemma {:induction false} FromInside(c: Counter, window: nat, limit: int, times: seq<Time>, lo: Time)
    requires Ordered(times) && times != [] && times[0] >= lo
    ensures AllowedIn(c, window, limit, times, lo, lo + window) <=
              (if Running(c, times[0]) then Room(c, limit) else 0) + Cap(limit)
    decreases |times|
  {
    var t, rest := times[0], times[1..];
    var next := Incr(c, window, t);
    if !Running(c, t) {
      WithinCounter(next, window, limit, rest, lo, lo + window);
    } else if rest != [] {
      FromInside(next, window, limit, rest, lo);
    }
  }

  /** The most calls one interval can let through. */
  function Burst(limit: int): nat
  {
    if limit >= 1 then 2 * limit - 1 else 0
  }

  /** However the calls fall, no interval of one window length sees twice the limit. */
  lemma {:induction false} LessThanTwiceLimit(c: Counter, window: nat, limit: int, times: seq<Time>, lo: Time)
    requires Ordered(times)
    ensures AllowedIn(c, window, limit, times, lo, lo + window) <= Burst(limit)
    decreases |times|
  {
    if times != [] {
      if times[0] < lo {
        LessThanTwiceLimit(Incr(c, window, times[0]), window, limit, times[1..], lo);
      } else {
        FromInside(c, window, limit, times, lo);
      }
    }
  }

  function Repeat(t: Time, n: nat): seq<Time>
  {
    seq(n, _ => t)
  }

  /** n calls at one instant of a running counter: as many as there is room for get through. */
  lemma {:induction false} RepeatAllowed(c: Counter, window: nat, limit: int, t: Time, n: nat, rest: seq<Time>,
                                         lo: Time, hi: Time)
    requires Running(c, t) && lo <= t < hi && n <= Room(c, limit)
    ensures AllowedIn(c, window, limit, Repeat(t, n) + rest, lo, hi) ==
              n + AllowedIn(c.(count := c.count + n), window, limit, rest, lo, hi)
    decreases n
  {
    var times := Repeat(t, n) + rest;
    if n == 0 {
      assert times == rest;
    } else {
      assert times[0] == t && times[1..] == Repeat(t, n - 1) + rest;
      RepeatAllowed(Incr(c, window, t), window, limit, t, n - 1, rest, lo, hi);
    }
  }

  /** One call, then limit - 1 at the counter's last instant, then limit at the start of the next. */
  function BurstTimes(window: nat, limit: nat): seq<Time>
    requires window >= 2 && limit >= 1
  {
    [0] + Repeat(window - 1, limit - 1) + Repeat(window, limit)
  }

  /** The bound is sharp, for every limit. */
  lemma BurstIsReached(window: nat, limit: nat)
    requires window >= 2 && limit >= 1
    ensures Ordered(BurstTimes(window, limit))
    ensures AllowedIn(Missing, window, limit, BurstTimes(window, limit), window - 1, window - 1 + window) == Burst(limit)
  {
    var lo, hi := window - 1, window - 1 + window;
    var times := BurstTimes(window, limit);
    var second := Repeat(window, limit);
    var rest := Repeat(window - 1, limit - 1) + second;
    assert times[0] == 0 && times[1..] == rest;
    var first := Counting(1, window);
    assert AllowedIn(Missing, window, limit, times, lo, hi) == AllowedIn(first, window, limit, rest, lo, hi);
    RepeatAllowed(first, window, limit, window - 1, limit - 1, second, lo, hi);
    var full := Counting(limit, window);
    assert first.(count := first.count + (limit - 1)) == full;
    assert second[0] == window && second[1..] == Repeat(window, limit - 1) + [];
    var next := Incr(full, window, window);
    RepeatAllowed(next, window, limit, window, limit - 1, [], lo, hi);
    assert AllowedIn(full, window, limit, second, lo, hi) == 1 + AllowedIn(next, window, limit, second[1..], lo, hi);
  }

  // ---------- a caller within the limit is never refused ----------

  /** Calls in the half-open interval of one window length from `lo`. */
  function CallsFrom(times: seq<Time>, lo: Time, window: nat): nat
    decreases |times|
  {
    if times == [] then 0 else (if lo <= times[0] < lo + window then 1 else 0) + CallsFrom(times[1..], lo, window)
  }

  ghost predicate Modest(times: seq<Time>, window: nat, limit: int)
  {
    forall lo: Time :: CallsFrom(times, lo, window) <= limit
  }

  /** A counter that started at `start`, before every call in `times`, and has room for those in its window. */
  ghost predicate RoomFor(c: Counter, window: nat, limit: int, times: seq<Time>, start: Time)
  {
    && c.Counting? && c.until == start + window
    && c.count + CallsFrom(times, start, window) <= limit
    && forall j :: 0 <= j < |times| ==> start <= times[j]
  }

  lemma {:induction false} ModestNeverRefused(c: Counter, window: nat, limit: int, times: seq<Time>, start: Time, i: nat)
    requires Ordered(times) && i < |times| && Modest(times, window, limit)
    requires c.Counting? ==> RoomFor(c, window, limit, times, start)
    ensures 0 < window ==> Allowed(After(c, window, times[..i]), window, limit, times[i])
    decreases |times|
  {
    if 0 < window {
      var t, rest := times[0], times[1..];
      assert CallsFrom(times, t, window) == 1 + CallsFrom(rest, t, window);
      assert Running(c, t) ==> CallsFrom(times, start, window) == 1 + CallsFrom(rest, start, window);
      assert CallsFrom(times, t, window) <= limit;
      if i == 0 {
        assert times[..0] == [];
      } else {
        assert times[..i][1..] == rest[..i - 1] && times[i] == rest[i - 1];
        assert Modest(rest, window, limit) by {
          forall lo: Time ensures CallsFrom(rest, lo, window) <= limit {
            assert CallsFrom(rest, lo, window) <= CallsFrom(times, lo, window) <= limit;
          }
        }
        ModestNeverRefused(Incr(c, window, t), window, limit, rest, if Running(c, t) then start else t, i - 1);
      }
    }
  }

  /** A new caller making at most `limit` calls in every interval of one window length gets every one through. */
  lemma ModestCallerAlwaysAllowed(window: nat, limit: int, times: seq<Time>, i: nat)
    requires 0 < window && Ordered(times) && Modest(times, window, limit) && i < |times|
    ensures Allowed(After(Missing, window, times[..i]), window, limit, times[i])
  {
    ModestNeverRefused(Missing, window, limit, times, 0, i);
  }

  // ---------- the limiter itself ----------

  /** One counter per key; calls on other keys do not touch it. */
  class Limiter {
    const limit: int
    const window: nat
    var counters: map<string, Counter>

    function At(key: string): Counter
      reads this
    {
      if key in counters then counters[key] else Missing
    }

    constructor (limit: int, window: nat)
      ensures this.limit == limit && this.window == window && forall key :: At(key) == Missing
    {
      this.limit, this.window, counters := limit, window, map[];
    }

    method Allow(key: string, now: Time) returns (ok: bool)
      modifies this
      ensures ok == Allowed(old(At(key)), window, limit, now)
      ensures At(key) == Incr(old(At(key)), window, now)
      ensures forall other :: other != key ==> At(other) == old(At(other))
    {
      var counter := if key in counters then counters[key] else Missing;
      var count, until := 1, now;
      if Running(counter, now) {
        count, until := counter.count + 1, counter.until;
      }
      if count == 1 {
        until := now + window;
      }
      counters := counters[key := Counting(count, until)];
      ok := count <= limit;
    }
  }
}
