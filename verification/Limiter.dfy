/**
  The connector's token bucket and its saturating reconnect backoff.
  Source: internal/connector/limits.go and the loop of internal/connector/service.go, Run.
*/
module Limiter {
  import opened Common

  const OPEN_RATE := 1_000_000_000
  const OPEN_BURST := 4.0
  const MAX_DURATION: int := 0x7FFF_FFFF_FFFF_FFFF

  // ------------------------------------------------------------------ token bucket

  datatype Bucket = Bucket(last: int, tokens: real)
  {
    predicate Valid() {
      0.0 <= tokens <= OPEN_BURST
    }
  }

  function Seconds(nanoseconds: int): real {
    nanoseconds as real / OPEN_RATE as real
  }

  function Least(x: real, y: real): real {
    if x < y then x else y
  }

  /** Refilling only follows the latest reading so far: a clock that goes back adds nothing. */
  function Refilled(b: Bucket, now: int): Bucket {
    if now > b.last then Bucket(now, Least(b.tokens + Seconds(now - b.last), OPEN_BURST)) else b
  }

  function Next(b: Bucket, now: int): Bucket {
    var r := Refilled(b, now);
    if r.tokens < 1.0 then r else r.(tokens := r.tokens - 1.0)
  }

  predicate Grants(b: Bucket, now: int) {
    Refilled(b, now).tokens >= 1.0
  }

  class OpenLimiter {
    var last: int
    var tokens: real

    constructor (now: int)
      ensures State() == Bucket(now, OPEN_BURST) && State().Valid()
    {
      last, tokens := now, OPEN_BURST;
    }

    function State(): Bucket
      reads this
    {
      Bucket(last, tokens)
    }

    method Allow(now: int) returns (granted: bool)
      requires State().Valid()
      modifies this
      ensures State().Valid() && State() == Next(old(State()), now) && granted == Grants(old(State()), now)
    {
      if now > last {
        tokens := tokens + (now - last) as real / OPEN_RATE as real;
        if tokens > OPEN_BURST {
          tokens := OPEN_BURST;
        }
        last := now;
      }
      if tokens < 1.0 {
        return false;
      }
      tokens := tokens - 1.0;
      return true;
    }
  }

  function After(b: Bucket, times: seq<int>): Bucket {
    if times == [] then b else Next(After(b, times[..|times| - 1]), times[|times| - 1])
  }

  /** How many of the calls at these readings are granted. */
  function Granted(b: Bucket, times: seq<int>): nat {
    if times == [] then 0
    else
      var init := times[..|times| - 1];
      Granted(b, init) + (if Grants(After(b, init), times[|times| - 1]) then 1 else 0)
  }

  function Latest(last: int, times: seq<int>): int {
    if times == [] then last
    else
      var l := Latest(last, times[..|times| - 1]);
      if times[|times| - 1] > l then times[|times| - 1] else l
  }

  lemma {:induction false} LatestIsMaximum(last: int, times: seq<int>)
    ensures Latest(last, times) >= last && (forall t <- times :: Latest(last, times) >= t)
    ensures Latest(last, times) == last || Latest(last, times) in times
  {
    if times != [] {
      var init := times[..|times| - 1];
      LatestIsMaximum(last, init);
      assert times == init + [times[|times| - 1]];
    }
  }

  lemma NextSpends(b: Bucket, now: int)
    requires b.Valid()
    ensures var b' := Next(b, now);
      && b'.Valid() && b'.last == (if now > b.last then now else b.last)
      && b'.tokens + (if Grants(b, now) then 1.0 else 0.0) <= b.tokens + Seconds(b'.last - b.last)
  {
  }

  lemma SecondsAdd(x: int, y: int)
    ensures Seconds(x) + Seconds(y) == Seconds(x + y)
  {
  }

  /** Over any contiguous run of calls, at any readings, no more than the tokens at hand plus one
      for each second by which the latest reading advanced. */
  lemma {:induction false} GrantsAreBounded(b: Bucket, times: seq<int>)
    requires b.Valid()
    ensures After(b, times).Valid() && After(b, times).last == Latest(b.last, times)
    ensures After(b, times).tokens + Granted(b, times) as real <= b.tokens + Seconds(Latest(b.last, times) - b.last)
  {
    if times != [] {
      var init, now := times[..|times| - 1], times[|times| - 1];
      GrantsAreBounded(b, init);
      NextSpends(After(b, init), now);
      SecondsAdd(Latest(b.last, init) - b.last, Latest(b.last, times) - Latest(b.last, init));
    }
  }

  lemma BurstPlusElapsed(b: Bucket, times: seq<int>)
    requires b.Valid()
    ensures Granted(b, times) as real <= OPEN_BURST + Seconds(Latest(b.last, times) - b.last)
  {
    GrantsAreBounded(b, times);
  }

  /** The limiter is not stricter than that: a caller who waits one second is served. */
  lemma OneSecondSuffices(b: Bucket, now: int)
    requires b.Valid() && now - b.last >= OPEN_RATE
    ensures Grants(b, now)
  {
    assert Seconds(now - b.last) == Seconds(OPEN_RATE) + Seconds(now - b.last - OPEN_RATE);
    SecondsAdd(OPEN_RATE, now - b.last - OPEN_RATE);
  }

  // ------------------------------------------------------------------------ backoff

  /** The doubling never exceeds the maximum, so it cannot overflow a 64-bit duration. */
  function NextBackoff(current: int, maximum: int): (r: int)
    requires 0 < current <= maximum <= MAX_DURATION
    ensures current <= r <= maximum && (r == current * 2 || r == maximum)
  {
    if current >= maximum || current > maximum / 2 then maximum else current * 2
  }

  function Backoff(minimum: int, maximum: int, k: nat): (r: int)
    requires 0 < minimum <= maximum <= MAX_DURATION
    ensures minimum <= r <= maximum
  {
    if k == 0 then minimum else NextBackoff(Backoff(minimum, maximum, k - 1), maximum)
  }

  function Doubled(value: int, k: nat): int {
    if k == 0 then value else 2 * Doubled(value, k - 1)
  }

  lemma {:induction false} DoubledIsPower(value: int, k: nat)
    ensures Doubled(value, k) == value * Pow2(k)
  {
    if k > 0 {
      DoubledIsPower(value, k - 1);
    }
  }

  lemma {:induction false} BackoffDoubles(minimum: int, maximum: int, k: nat)
    requires 0 < minimum <= maximum <= MAX_DURATION
    ensures Backoff(minimum, maximum, k) == if Doubled(minimum, k) < maximum then Doubled(minimum, k) else maximum
  {
    if k > 0 {
      BackoffDoubles(minimum, maximum, k - 1);
    }
  }

  /** `k` doublings saturate: the backoff is the smaller of the maximum and minimum times 2^k. */
  lemma BackoffSaturates(minimum: int, maximum: int, k: nat)
    requires 0 < minimum <= maximum <= MAX_DURATION
    ensures Backoff(minimum, maximum, k) == if minimum * Pow2(k) < maximum then minimum * Pow2(k) else maximum
  {
    BackoffDoubles(minimum, maximum, k);
    DoubledIsPower(minimum, k);
  }

  /** Jitter adds up to half, unless that would overflow. A failed random read adds nothing, as
      zero does. */
  method Jitter(value: int, random: nat) returns (r: int)
    requires 0 < value <= MAX_DURATION
    ensures value <= r <= MAX_DURATION && r <= value + value / 2
  {
    if value <= 1 {
      return value;
    }
    var offset := random % (value / 2 + 1);
    if value > MAX_DURATION - offset {
      return value;
    }
    return value + offset;
  }

  /** One control attempt: whether it outlived the heartbeat timeout, and the jitter drawn after it. */
  datatype Attempt = Attempt(longLived: bool, random: nat)

  /** Short-lived attempts since the last long-lived one, or since the start. */
  function Streak(attempts: seq<Attempt>, i: nat): nat
    requires i < |attempts|
  {
    if i == 0 || attempts[i].longLived then 0 else Streak(attempts, i - 1) + 1
  }

  /** The backoff in force after attempt `i`. */
  function BackoffAt(minimum: int, maximum: int, attempts: seq<Attempt>, i: nat): (r: int)
    requires 0 < minimum <= maximum <= MAX_DURATION && i < |attempts|
    ensures 0 < r <= maximum
  {
    Backoff(minimum, maximum, Streak(attempts, i))
  }

  lemma BackoffAtNext(minimum: int, maximum: int, attempts: seq<Attempt>, i: nat)
    requires 0 < minimum <= maximum <= MAX_DURATION && i < |attempts|
    ensures i == 0 || attempts[i].longLived ==> BackoffAt(minimum, maximum, attempts, i) == minimum
    ensures i > 0 && !attempts[i].longLived ==>
      BackoffAt(minimum, maximum, attempts, i) == NextBackoff(BackoffAt(minimum, maximum, attempts, i - 1), maximum)
  {
  }

  /** The reconnect loop: every delay lies between the saturated backoff of its streak and the
      maximum. */
  method Run(minimum: int, maximum: int, attempts: seq<Attempt>) returns (delays: seq<int>)
    requires 0 < minimum <= maximum <= MAX_DURATION
    ensures |delays| == |attempts|
    ensures forall i | 0 <= i < |delays| :: BackoffAt(minimum, maximum, attempts, i) <= delays[i] <= maximum
  {
    delays := [];
    var backoff := minimum;
    for i := 0 to |attempts|
      invariant |delays| == i
      invariant 0 < backoff <= maximum
      invariant backoff == if i == 0 then minimum else NextBackoff(BackoffAt(minimum, maximum, attempts, i - 1), maximum)
      invariant forall j | 0 <= j < i :: BackoffAt(minimum, maximum, attempts, j) <= delays[j] <= maximum
    {
      if attempts[i].longLived {
        backoff := minimum;
      }
      BackoffAtNext(minimum, maximum, attempts, i);
      var delay := Jitter(backoff, attempts[i].random);
      if delay > maximum {
        delay := maximum;
      }
      delays := delays + [delay];
      backoff := NextBackoff(backoff, maximum);
    }
  }
}
