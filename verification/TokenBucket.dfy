/** The global PIN attempt budget of internal/server/pin_guard.go: a token bucket of twenty tokens
    refilled at one a second. Tokens and times (in seconds) are reals. A zero refill time is None. */
module TokenBucket {
  import opened Basics

  const BURST := 20.0

  datatype Bucket = Bucket(tokens: real, lastRefill: Option<real>)

  function Min(a: real, b: real): real { if a <= b then a else b }
  function Max(a: real, b: real): real { if a <= b then b else a }

  /** math.Ceil */
  function Ceil(x: real): int {
    -((-x).Floor)
  }

  function Refill(b: Bucket, now: real): Bucket {
    match b.lastRefill
    case None => Bucket(BURST, Some(now))
    case Some(last) =>
      if now > last then Bucket(Min(BURST, b.tokens + (now - last)), Some(now)) else b
  }

  predicate Admits(b: Bucket, now: real) {
    Refill(b, now).tokens >= 1.0
  }

  /** The bucket after an attempt. */
  function Attempt(b: Bucket, now: real): Bucket {
    var r := Refill(b, now);
    if r.tokens < 1.0 then r else r.(tokens := r.tokens - 1.0)
  }

  /** The seconds a refused caller is told to wait. */
  function Wait(b: Bucket, now: real): int {
    var w := Ceil(1.0 - Refill(b, now).tokens);
    if w < 1 then 1 else w
  }

  predicate Good(b: Bucket) {
    0.0 <= b.tokens <= BURST
  }

  function After(b: Bucket, nows: seq<real>): Bucket
    decreases |nows|
  {
    if nows == [] then b else After(Attempt(b, nows[0]), nows[1..])
  }

  /** How many of these attempts are admitted. */
  function Admitted(b: Bucket, nows: seq<real>): nat
    decreases |nows|
  {
    if nows == [] then 0
    else (if Admits(b, nows[0]) then 1 else 0) + Admitted(Attempt(b, nows[0]), nows[1..])
  }

  /** How many of these attempts are admitted at a time in [lo, hi]. */
  function AdmittedWithin(b: Bucket, nows: seq<real>, lo: real, hi: real): nat
    decreases |nows|
  {
    if nows == [] then 0
    else (if lo <= nows[0] <= hi && Admits(b, nows[0]) then 1 else 0)
         + AdmittedWithin(Attempt(b, nows[0]), nows[1..], lo, hi)
  }

  /** The bucket never holds a negative number of tokens nor more than its burst. */
  lemma {:induction false} TokensStayInRange(b: Bucket, nows: seq<real>)
    requires Good(b)
    ensures Good(After(b, nows))
    decreases |nows|
  {
    if nows != [] {
      TokensStayInRange(Attempt(b, nows[0]), nows[1..]);
    }
  }

  /** Attempts up to time `hi` can use the tokens at hand and those refilled until `hi`. */
  lemma {:induction false} SpendingBound(b: Bucket, nows: seq<real>, hi: real)
    requires Good(b) && b.lastRefill.Some?
    requires forall k :: 0 <= k < |nows| ==> nows[k] <= hi
    ensures Admitted(b, nows) as real <= b.tokens + Max(0.0, hi - b.lastRefill.value)
    decreases |nows|
  {
    if nows != [] {
      SpendingBound(Attempt(b, nows[0]), nows[1..], hi);
    }
  }

  /** Any stretch of consecutive attempts of any run whose clock readings, in whatever order, lie
      in a window of `length` seconds admits at most twenty plus `length` of them. */
  lemma WindowBound(b: Bucket, nows: seq<real>, i: nat, j: nat, from: real, length: real)
    requires Good(b) && i <= j <= |nows| && 0.0 <= length
    requires forall k :: i <= k < j ==> from <= nows[k] <= from + length
    ensures Admitted(After(b, nows[..i]), nows[i..j]) as real <= BURST + length
  {
    TokensStayInRange(b, nows[..i]);
    var s, window := After(b, nows[..i]), nows[i..j];
    if window != [] {
      var r := Refill(s, window[0]);
      assert Attempt(r, window[0]) == Attempt(s, window[0]);
      assert forall k :: 0 <= k < |window| ==> window[k] == nows[i + k];
      SpendingBound(r, window, from + length);
    }
  }

  lemma {:induction false} SpendingBoundWithin(b: Bucket, nows: seq<real>, lo: real, hi: real)
    requires Good(b) && b.lastRefill.Some?
    requires forall k, m :: 0 <= k < m < |nows| ==> nows[k] <= nows[m]
    ensures AdmittedWithin(b, nows, lo, hi) as real <= b.tokens + Max(0.0, hi - b.lastRefill.value)
    decreases |nows|
  {
    if nows != [] {
      if nows[0] <= hi {
        SpendingBoundWithin(Attempt(b, nows[0]), nows[1..], lo, hi);
      } else {
        NoneAfter(b, nows, lo, hi);
      }
    }
  }

  lemma {:induction false} NoneAfter(b: Bucket, nows: seq<real>, lo: real, hi: real)
    requires forall k :: 0 <= k < |nows| ==> hi < nows[k]
    ensures AdmittedWithin(b, nows, lo, hi) == 0
    decreases |nows|
  {
    if nows != [] {
      NoneAfter(Attempt(b, nows[0]), nows[1..], lo, hi);
    }
  }

  /** On a clock that never goes back, any window of `length` seconds of a whole run admits at most
      twenty plus `length` attempts. */
  lemma {:induction false} EveryWindowIsBounded(b: Bucket, nows: seq<real>, from: real, length: real)
    requires Good(b) && 0.0 <= length
    requires forall k, m :: 0 <= k < m < |nows| ==> nows[k] <= nows[m]
    ensures AdmittedWithin(b, nows, from, from + length) as real <= BURST + length
    decreases |nows|
  {
    if nows != [] {
      if nows[0] < from {
        EveryWindowIsBounded(Attempt(b, nows[0]), nows[1..], from, length);
      } else {
        var r := Refill(b, nows[0]);
        assert Attempt(r, nows[0]) == Attempt(b, nows[0]);
        SpendingBoundWithin(r, nows, from, from + length);
      }
    }
  }

  // ---- Clocks read before the lock ----------------------------------------------------

  /** Each reading replaced by the latest so far; the bucket does not go back in time. */
  function Latest(last: real, nows: seq<real>): (r: seq<real>)
    ensures |r| == |nows|
    ensures forall k :: 0 <= k < |r| ==> last <= r[k] && nows[k] <= r[k]
    ensures forall k, m :: 0 <= k < m < |r| ==> r[k] <= r[m]
    decreases |nows|
  {
    if nows == [] then [] else [Max(last, nows[0])] + Latest(Max(last, nows[0]), nows[1..])
  }

  /** The bucket does not see how late a reading is. */
  lemma {:induction false} LateAttempt(b: Bucket, now: real)
    requires b.lastRefill.Some?
    ensures var latest := Max(b.lastRefill.value, now);
            && Attempt(b, now) == Attempt(b, latest) && Attempt(b, now).lastRefill == Some(latest)
            && (Admits(b, now) <==> Admits(b, latest))
  {
  }

  lemma {:induction false} AfterOne(b: Bucket, nows: seq<real>, k: nat)
    requires 0 < k <= |nows|
    ensures After(b, nows[..k]) == After(Attempt(b, nows[0]), nows[1..][..k - 1])
  {
    assert nows[..k][1..] == nows[1..][..k - 1];
  }

  lemma {:induction false} LatestOne(last: real, nows: seq<real>)
    requires nows != []
    ensures Latest(last, nows)[0] == Max(last, nows[0])
    ensures Latest(last, nows)[1..] == Latest(Max(last, nows[0]), nows[1..])
  {
  }

  /** A late reading counts as the latest one: every attempt is decided as if it had read that. */
  lemma {:induction false} LateReadingCountsAsLatest(b: Bucket, nows: seq<real>, k: nat)
    requires b.lastRefill.Some? && k < |nows|
    ensures var latest := Latest(b.lastRefill.value, nows);
            && After(b, nows[..k]) == After(b, latest[..k])
            && (Admits(After(b, nows[..k]), nows[k]) <==> Admits(After(b, latest[..k]), latest[k]))
    decreases |nows|
  {
    var latest := Latest(b.lastRefill.value, nows);
    LateAttempt(b, nows[0]);
    LatestOne(b.lastRefill.value, nows);
    if k > 0 {
      var next := Attempt(b, nows[0]);
      LateReadingCountsAsLatest(next, nows[1..], k - 1);
      OneReadingBefore(b, nows, latest, next, nows[1..], latest[1..], k);
    } else {
      assert nows[..0] == [] && latest[..0] == [];
    }
  }

  /** Alike on the rest, alike on the whole. */
  lemma {:induction false} OneReadingBefore(b: Bucket, xs: seq<real>, ys: seq<real>, next: Bucket, xs': seq<real>,
                                            ys': seq<real>, k: nat)
    requires 0 < k < |xs| == |ys| && xs' == xs[1..] && ys' == ys[1..]
    requires next == Attempt(b, xs[0]) == Attempt(b, ys[0]) && After(next, xs'[..k - 1]) == After(next, ys'[..k - 1])
    requires Admits(After(next, xs'[..k - 1]), xs'[k - 1]) <==> Admits(After(next, ys'[..k - 1]), ys'[k - 1])
    ensures After(b, xs[..k]) == After(b, ys[..k])
    ensures Admits(After(b, xs[..k]), xs[k]) <==> Admits(After(b, ys[..k]), ys[k])
  {
    AfterOne(b, xs, k);
    AfterOne(b, ys, k);
  }

  /** On readings in any order the bound holds of the bucket's own time: any window of it admits at
      most twenty plus its length. */
  lemma EveryWindowOnAnyClock(b: Bucket, nows: seq<real>, from: real, length: real)
    requires Good(b) && b.lastRefill.Some? && 0.0 <= length
    ensures AdmittedWithin(b, Latest(b.lastRefill.value, nows), from, from + length) as real <= BURST + length
  {
    EveryWindowIsBounded(b, Latest(b.lastRefill.value, nows), from, length);
  }

  /** A refused caller is always told to wait one second. On a clock that never goes back, the next
      attempt, with none between, is admitted exactly when the missing part of a token has been
      refilled, so waiting as told is enough. */
  lemma RefusalWait(b: Bucket, now: real, next: real)
    requires Good(b) && (b.lastRefill.Some? ==> b.lastRefill.value <= now)
    requires !Admits(b, now) && now <= next
    ensures Wait(b, now) == 1
    ensures Admits(Attempt(b, now), next) <==> next - now >= 1.0 - Attempt(b, now).tokens
    ensures now + Wait(b, now) as real <= next ==> Admits(Attempt(b, now), next)
  {
  }

  /** `n` attempts at one moment. */
  function AtOnce(now: real, n: nat): seq<real> {
    seq(n, _ => now)
  }

  lemma {:induction false} AfterAtOnce(b: Bucket, now: real, k: nat)
    requires Good(b) && (b.lastRefill.Some? ==> b.lastRefill.value <= now)
    requires k as real <= Refill(b, now).tokens
    ensures After(b, AtOnce(now, k)) == if k == 0 then b else Bucket(Refill(b, now).tokens - k as real, Some(now))
    decreases k
  {
    if k > 0 {
      var next := Attempt(b, now);
      assert AtOnce(now, k)[1..] == AtOnce(now, k - 1);
      assert Refill(next, now) == next;
      AfterAtOnce(next, now, k - 1);
    }
  }

  /** What the budget is for: at any moment it admits as many attempts at once as tokens were left, plus
      one for every second without an attempt, up to twenty; a fresh budget admits twenty. */
  lemma {:induction false} BurstAfterIdling(b: Bucket, now: real, k: nat)
    requires Good(b) && (b.lastRefill.Some? ==> b.lastRefill.value <= now)
    requires k as real <= Refill(b, now).tokens
    ensures Admits(After(b, AtOnce(now, k)), now) <==>
              (k + 1) as real <= match b.lastRefill
                                 case None => 20.0
                                 case Some(last) => Min(20.0, b.tokens + (now - last))
  {
    AfterAtOnce(b, now, k);
  }

  class GlobalBudget {
    var tokens: real
    var lastRefill: Option<real>

    ghost function Value(): Bucket
      reads this
    {
      Bucket(tokens, lastRefill)
    }

    constructor (now: real)
      ensures Value() == Bucket(BURST, Some(now))
    {
      tokens := BURST;
      lastRefill := Some(now);
    }

    /** consumeGlobalPinAttemptLocked */
    method Consume(now: real) returns (ok: bool, wait: int)
      modifies this
      ensures ok == Admits(old(Value()), now)
      ensures Value() == Attempt(old(Value()), now)
      ensures wait == if ok then 0 else Wait(old(Value()), now)
    {
      if lastRefill.None? {
        tokens := BURST;
        lastRefill := Some(now);
      }
      var elapsed := now - lastRefill.value;
      if elapsed > 0.0 {
        tokens := Min(BURST, tokens + elapsed);
        lastRefill := Some(now);
      }
      if tokens < 1.0 {
        wait := Ceil(1.0 - tokens);
        if wait < 1 {
          wait := 1;
        }
        return false, wait;
      }
      tokens := tokens - 1.0;
      return true, 0;
    }
  }
}
