/** CPS admission: a lazily refilled token bucket behind the admit decision. */
module Overload {

  datatype Config = Config(capacity: real, ratePerSec: real)

  /** `lastRefillMs` is the highest clock reading the bucket has refilled at. */
  datatype Bucket = Bucket(tokens: real, lastRefillMs: real)

  function Min(a: real, b: real): real {
    if a <= b then a else b
  }

  function Ceil(x: real): (n: int)
    ensures n as real - 1.0 < x <= n as real
  {
    if x.Floor as real == x then x.Floor else x.Floor + 1
  }

  function Full(c: Config, nowMs: real): Bucket {
    Bucket(c.capacity, nowMs)
  }

  /** What `elapsedMs` of refill brings. */
  function Accrued(c: Config, elapsedMs: real): real {
    elapsedMs / 1000.0 * c.ratePerSec
  }

  /** A clock that stepped back refills nothing and moves nothing. */
  function Refilled(c: Config, b: Bucket, nowMs: real): Bucket {
    if nowMs <= b.lastRefillMs then b
    else Bucket(Min(c.capacity, b.tokens + Accrued(c, nowMs - b.lastRefillMs)), nowMs)
  }

  predicate CanConsume(c: Config, b: Bucket, nowMs: real) {
    Refilled(c, b, nowMs).tokens >= 1.0
  }

  function Debited(c: Config, b: Bucket, nowMs: real): Bucket {
    var r := Refilled(c, b, nowMs);
    r.(tokens := r.tokens - 1.0)
  }

  function RetryAfter(c: Config, b: Bucket, nowMs: real): int {
    var r := Refilled(c, b, nowMs);
    if r.tokens >= 1.0 then 0
    else if c.ratePerSec <= 0.0 then 60
    else Ceil((1.0 - r.tokens) / c.ratePerSec)
  }

  class TokenBucket {
    const config: Config
    var tokens: real
    var lastRefillMs: real

    constructor (config: Config, nowMs: real)
      ensures this.config == config && State() == Full(config, nowMs)
    {
      this.config := config;
      tokens, lastRefillMs := config.capacity, nowMs;
    }

    function State(): Bucket
      reads this
    {
      Bucket(tokens, lastRefillMs)
    }

    method Refill(nowMs: real)
      modifies this
      ensures State() == Refilled(config, old(State()), nowMs)
    {
      var elapsedSec := (nowMs - lastRefillMs) / 1000.0;
      if elapsedSec <= 0.0 {
        return;
      }
      tokens := Min(config.capacity, tokens + elapsedSec * config.ratePerSec);
      lastRefillMs := nowMs;
    }

    method TryConsume(nowMs: real) returns (ok: bool)
      modifies this
      ensures ok <==> CanConsume(config, old(State()), nowMs)
      ensures State() == if ok then Debited(config, old(State()), nowMs) else Refilled(config, old(State()), nowMs)
    {
      Refill(nowMs);
      ok := tokens >= 1.0;
      if ok {
        tokens := tokens - 1.0;
      }
    }

    method ConsumeForced(nowMs: real)
      modifies this
      ensures State() == Debited(config, old(State()), nowMs)
    {
      Refill(nowMs);
      tokens := tokens - 1.0;
    }

    method RetryAfterSec(nowMs: real) returns (sec: int)
      modifies this
      ensures State() == Refilled(config, old(State()), nowMs)
      ensures sec == RetryAfter(config, old(State()), nowMs)
    {
      Refill(nowMs);
      if tokens >= 1.0 {
        return 0;
      }
      if config.ratePerSec <= 0.0 {
        return 60;
      }
      sec := Ceil((1.0 - tokens) / config.ratePerSec);
    }

    method Level(nowMs: real) returns (level: real)
      modifies this
      ensures State() == Refilled(config, old(State()), nowMs)
      ensures level >= 0.0 && (level == State().tokens || State().tokens < 0.0 == level)
    {
      Refill(nowMs);
      level := if tokens >= 0.0 then tokens else 0.0;
    }
  }

  datatype Reason = BucketEmpty | PanicElu

  datatype Decision = Admit | Reject(reason: Reason, retryAfterSec: int)

  /** One decision: the clock is read anew for each use of the bucket. */
  datatype Request = Request(isEmergency: bool, panic: bool, first: real, second: real, third: real)

  function After(c: Config, b: Bucket, r: Request): Bucket {
    if r.isEmergency then Refilled(c, Debited(c, b, r.first), r.second)
    else if CanConsume(c, b, r.first) then Refilled(c, Refilled(c, Debited(c, b, r.first), r.second), r.third)
    else Refilled(c, Refilled(c, Refilled(c, b, r.first), r.second), r.third)
  }

  predicate Admitted(c: Config, b: Bucket, r: Request) {
    r.isEmergency || (CanConsume(c, b, r.first) && !r.panic)
  }

  class OverloadController {
    const bucket: TokenBucket
    const retryAfterBaseSec: int
    var admitTotal: nat
    var bucketEmptyTotal: nat
    var panicTotal: nat

    constructor (bucket: TokenBucket, retryAfterBaseSec: int)
      ensures this.bucket == bucket && this.retryAfterBaseSec == retryAfterBaseSec
      ensures admitTotal == 0 && bucketEmptyTotal == 0 && panicTotal == 0
    {
      this.bucket, this.retryAfterBaseSec := bucket, retryAfterBaseSec;
      admitTotal, bucketEmptyTotal, panicTotal := 0, 0, 0;
    }

    /** `panic` says whether the smoothed event-loop utilisation is above its threshold. */
    method ShouldAdmit(r: Request) returns (d: Decision)
      modifies this, bucket
      ensures d.Admit? <==> Admitted(bucket.config, old(bucket.State()), r)
      ensures bucket.State() == After(bucket.config, old(bucket.State()), r)
      ensures d.Reject? && d.reason == PanicElu
           <==> !r.isEmergency && r.panic && CanConsume(bucket.config, old(bucket.State()), r.first)
      ensures d.Reject? && d.reason == BucketEmpty ==>
                d.retryAfterSec
                    == RetryAfter(bucket.config,
                                  Refilled(bucket.config, Refilled(bucket.config, old(bucket.State()), r.first),
                                           r.second), r.third)
      ensures d.Reject? && d.reason == PanicElu ==> d.retryAfterSec == retryAfterBaseSec
      ensures admitTotal + bucketEmptyTotal + panicTotal == old(admitTotal + bucketEmptyTotal + panicTotal) + 1
      ensures admitTotal == old(admitTotal) + if d.Admit? then 1 else 0
      ensures bucketEmptyTotal == old(bucketEmptyTotal) + if d.Reject? && d.reason == BucketEmpty then 1 else 0
      ensures panicTotal == old(panicTotal) + if d.Reject? && d.reason == PanicElu then 1 else 0
      ensures r.isEmergency ==> d.Admit?
    {
      if r.isEmergency {
        bucket.ConsumeForced(r.first);
        var level := bucket.Level(r.second);
        admitTotal := admitTotal + 1;
        return Admit;
      }
      var ok := bucket.TryConsume(r.first);
      var level := bucket.Level(r.second);
      if !ok {
        bucketEmptyTotal := bucketEmptyTotal + 1;
        var sec := bucket.RetryAfterSec(r.third);
        return Reject(BucketEmpty, sec);
      }
      var ratio := bucket.Level(r.third);
      if r.panic {
        panicTotal := panicTotal + 1;
        return Reject(PanicElu, retryAfterBaseSec);
      }
      admitTotal := admitTotal + 1;
      return Admit;
    }
  }

  // ---- The admission bound ------------------------------------------------------------------

  function RunEnd(c: Config, b: Bucket, requests: seq<Request>): Bucket {
    if requests == [] then b else After(c, RunEnd(c, b, requests[..|requests| - 1]), requests[|requests| - 1])
  }

  function Debits(c: Config, b: Bucket, requests: seq<Request>): nat {
    if requests == [] then 0
    else
      var before, r := RunEnd(c, b, requests[..|requests| - 1]), requests[|requests| - 1];
      Debits(c, b, requests[..|requests| - 1]) + if r.isEmergency || CanConsume(c, before, r.first) then 1 else 0
  }

  function NonEmergencyAdmissions(c: Config, b: Bucket, requests: seq<Request>): nat {
    if requests == [] then 0
    else
      var before, r := RunEnd(c, b, requests[..|requests| - 1]), requests[|requests| - 1];
      NonEmergencyAdmissions(c, b, requests[..|requests| - 1]) + if !r.isEmergency && Admitted(c, before, r) then 1
          else 0
  }

  lemma AccruedAdds(c: Config, a: real, b: real)
    ensures Accrued(c, a + b) == Accrued(c, a) + Accrued(c, b)
  {
    assert (a + b) / 1000.0 == a / 1000.0 + b / 1000.0;
    assert (a / 1000.0 + b / 1000.0) * c.ratePerSec == a / 1000.0 * c.ratePerSec + b / 1000.0 * c.ratePerSec;
  }

  lemma AccruedGrows(c: Config, a: real, b: real)
    requires c.ratePerSec >= 0.0 && a <= b
    ensures Accrued(c, a) <= Accrued(c, b)
  {
    AccruedAdds(c, a, b - a);
    assert (b - a) / 1000.0 >= 0.0;
    assert (b - a) / 1000.0 * c.ratePerSec >= 0.0;
  }

  /** A refill never brings more than the clock's advance is worth, and never less than nothing. */
  lemma RefillBounded(c: Config, b: Bucket, nowMs: real)
    requires c.ratePerSec >= 0.0 && b.tokens <= c.capacity
    ensures var r := Refilled(c, b, nowMs);
            && b.tokens <= r.tokens <= c.capacity && b.lastRefillMs <= r.lastRefillMs
            && r.tokens <= b.tokens + Accrued(c, r.lastRefillMs - b.lastRefillMs)
  {
    if nowMs > b.lastRefillMs {
      AccruedGrows(c, 0.0, nowMs - b.lastRefillMs);
    }
  }

  /** Since `b0`: tokens plus debits are at most what was there plus what accrued, and admissions stay in bounds. */
  ghost predicate Bounded(c: Config, b0: Bucket, b: Bucket, debits: int, admissions: int) {
    && b.tokens <= c.capacity && b0.lastRefillMs <= b.lastRefillMs && admissions <= debits
    && b.tokens + debits as real <= b0.tokens + Accrued(c, b.lastRefillMs - b0.lastRefillMs)
    && admissions as real <= c.capacity + Accrued(c, b.lastRefillMs - b0.lastRefillMs)
  }

  lemma RefillKeepsBounded(c: Config, b0: Bucket, b: Bucket, nowMs: real, debits: int, admissions: int)
    requires c.ratePerSec >= 0.0 && Bounded(c, b0, b, debits, admissions)
    ensures Bounded(c, b0, Refilled(c, b, nowMs), debits, admissions)
  {
    var r := Refilled(c, b, nowMs);
    RefillBounded(c, b, nowMs);
    AccruedAdds(c, b.lastRefillMs - b0.lastRefillMs, r.lastRefillMs - b.lastRefillMs);
    assert (b.lastRefillMs - b0.lastRefillMs) + (r.lastRefillMs - b.lastRefillMs) == r.lastRefillMs - b0.lastRefillMs;
    AccruedGrows(c, b.lastRefillMs - b0.lastRefillMs, r.lastRefillMs - b0.lastRefillMs);
  }

  lemma RequestKeepsBounded(c: Config, b0: Bucket, b: Bucket, r: Request, debits: int, admissions: int)
    requires c.ratePerSec >= 0.0 && b0.tokens <= c.capacity && Bounded(c, b0, b, debits, admissions)
    ensures Bounded(c, b0, After(c, b, r),
                    debits + if r.isEmergency || CanConsume(c, b, r.first) then 1 else 0,
                    admissions + if !r.isEmergency && Admitted(c, b, r) then 1 else 0)
  {
    var d := debits + if r.isEmergency || CanConsume(c, b, r.first) then 1 else 0;
    var a := admissions + if !r.isEmergency && Admitted(c, b, r) then 1 else 0;
    var first := Refilled(c, b, r.first);
    RefillKeepsBounded(c, b0, b, r.first, debits, admissions);
    var spent := if d > debits then Debited(c, b, r.first) else first;
    assert Bounded(c, b0, spent, d, a);
    RefillKeepsBounded(c, b0, spent, r.second, d, a);
    RefillKeepsBounded(c, b0, Refilled(c, spent, r.second), r.third, d, a);
  }

  lemma {:induction false} RunIsBounded(c: Config, b: Bucket, requests: seq<Request>)
    requires c.ratePerSec >= 0.0 && b.tokens <= c.capacity && 0.0 <= c.capacity
    ensures Bounded(c, b, RunEnd(c, b, requests), Debits(c, b, requests), NonEmergencyAdmissions(c, b, requests))
  {
    if requests == [] {
      assert Accrued(c, 0.0) == 0.0;
    } else {
      var n := |requests| - 1;
      RunIsBounded(c, b, requests[..n]);
      RequestKeepsBounded(c, b, RunEnd(c, b, requests[..n]), requests[n], Debits(c, b, requests[..n]),
                          NonEmergencyAdmissions(c, b, requests[..n]));
    }
  }

  lemma {:induction false} HighestReading(c: Config, b: Bucket, requests: seq<Request>, endMs: real)
    requires b.lastRefillMs <= endMs
    requires forall r :: r in requests ==> r.first <= endMs && r.second <= endMs && r.third <= endMs
    ensures b.lastRefillMs <= RunEnd(c, b, requests).lastRefillMs <= endMs
  {
    if requests != [] {
      var n := |requests| - 1;
      assert requests[n] in requests;
      HighestReading(c, b, requests[..n], endMs);
    }
  }

  /**
   * Over any run of decisions, from any state the bucket can be in, non-emergency admissions are at
   * most the capacity plus the rate times how far the clock's highest reading advanced, whatever
   * emergencies were forced through and however the clock stepped back in between.
   */
  lemma AdmissionBound(c: Config, b: Bucket, requests: seq<Request>, endMs: real)
    requires c.ratePerSec >= 0.0 && b.tokens <= c.capacity && 0.0 <= c.capacity && b.lastRefillMs <= endMs
    requires forall r :: r in requests ==> r.first <= endMs && r.second <= endMs && r.third <= endMs
    ensures NonEmergencyAdmissions(c, b, requests) as real <= c.capacity + Accrued(c, endMs - b.lastRefillMs)
  {
    RunIsBounded(c, b, requests);
    HighestReading(c, b, requests, endMs);
    AccruedGrows(c, RunEnd(c, b, requests).lastRefillMs - b.lastRefillMs, endMs - b.lastRefillMs);
  }

  /** Looking at the bucket in between changes nothing: an interval may start at any reading. */
  lemma LookingIsFree(c: Config, b: Bucket, lookMs: real, nowMs: real)
    requires c.ratePerSec >= 0.0 && b.tokens <= c.capacity && lookMs <= nowMs
    ensures Refilled(c, Refilled(c, b, lookMs), nowMs) == Refilled(c, b, nowMs)
  {
    if b.lastRefillMs < lookMs < nowMs {
      AccruedAdds(c, lookMs - b.lastRefillMs, nowMs - lookMs);
      assert (lookMs - b.lastRefillMs) + (nowMs - lookMs) == nowMs - b.lastRefillMs;
      AccruedGrows(c, 0.0, nowMs - lookMs);
    }
  }

  /** A request turned away for load has still spent its token. */
  lemma PanicSpendsToken(c: Config, b: Bucket, r: Request)
    requires !r.isEmergency && r.panic && CanConsume(c, b, r.first)
    ensures !Admitted(c, b, r) && After(c, b, r) == After(c, b, r.(panic := false))
  {
  }

  // ---- Exact accounting ---------------------------------------------------------------------

  predicate AllAt(requests: seq<Request>, nowMs: real) {
    forall r :: r in requests ==> r.first == nowMs && r.second == nowMs && r.third == nowMs
  }

  /** What the bucket holds at a reading not behind its last refill. */
  function Available(c: Config, b: Bucket, nowMs: real): real {
    Min(c.capacity, b.tokens + (nowMs - b.lastRefillMs) / 1000.0 * c.ratePerSec)
  }

  function Emergencies(requests: seq<Request>): nat {
    if requests == [] then 0
    else Emergencies(requests[..|requests| - 1]) + if requests[|requests| - 1].isEmergency then 1 else 0
  }

  lemma RefilledAt(c: Config, b: Bucket, nowMs: real)
    requires b.tokens <= c.capacity && b.lastRefillMs <= nowMs
    ensures Refilled(c, b, nowMs) == Bucket(Available(c, b, nowMs), nowMs)
  {
    var elapsedSec := (nowMs - b.lastRefillMs) / 1000.0;
    if b.lastRefillMs == nowMs {
      assert elapsedSec == 0.0;
      assert elapsedSec * c.ratePerSec == 0.0;
    }
  }

  /** While the clock stands, every debit has taken one token and nothing else has taken any. */
  lemma {:induction false} TokensAtOneReading(c: Config, b: Bucket, requests: seq<Request>, nowMs: real)
    requires b.tokens <= c.capacity && b.lastRefillMs <= nowMs && AllAt(requests, nowMs)
    ensures Refilled(c, RunEnd(c, b, requests), nowMs)
         == Bucket(Available(c, b, nowMs) - Debits(c, b, requests) as real, nowMs)
    ensures requests != [] ==>
              RunEnd(c, b, requests) == Bucket(Available(c, b, nowMs) - Debits(c, b, requests) as real, nowMs)
  {
    if requests == [] {
      RefilledAt(c, b, nowMs);
    } else {
      assert requests[|requests| - 1] in requests;
      TokensAtOneReading(c, b, requests[..|requests| - 1], nowMs);
    }
  }

  /** Emergencies all go through, each for one token, if need be on credit. */
  lemma {:induction false} EmergenciesDebit(c: Config, b: Bucket, requests: seq<Request>)
    requires forall r :: r in requests ==> r.isEmergency
    ensures Debits(c, b, requests) == |requests| && NonEmergencyAdmissions(c, b, requests) == 0
  {
    if requests != [] {
      assert requests[|requests| - 1] in requests;
      EmergenciesDebit(c, b, requests[..|requests| - 1]);
    }
  }

  /**
   * A burst of ordinary requests at one reading: of `n`, exactly as many are admitted as the bucket
   * holds whole tokens, each for one of them.
   */
  lemma {:induction false} BurstExact(c: Config, b: Bucket, requests: seq<Request>, nowMs: real)
    requires b.tokens <= c.capacity && b.lastRefillMs <= nowMs && AllAt(requests, nowMs)
    requires forall r :: r in requests ==> !r.isEmergency && !r.panic
    ensures var whole, n := Available(c, b, nowMs).Floor, |requests|;
            NonEmergencyAdmissions(c, b, requests) == (if whole <= 0 then 0 else if whole < n then whole else n)
    ensures Debits(c, b, requests) == NonEmergencyAdmissions(c, b, requests)
  {
    if requests != [] {
      assert requests[|requests| - 1] in requests;
      BurstExact(c, b, requests[..|requests| - 1], nowMs);
      TokensAtOneReading(c, b, requests[..|requests| - 1], nowMs);
    }
  }

  // ---- Retry-After --------------------------------------------------------------------------

  /** What rounding a wait up to whole seconds adds, in tokens. */
  function RoundingSlack(c: Config, missing: real): real
    requires c.ratePerSec > 0.0
  {
    Ceil(missing / c.ratePerSec) as real * c.ratePerSec - missing
  }

  /**
   * Waiting the advertised time lets the next attempt through exactly when the bucket can hold a
   * token, refills at all, and the clock was behind the last refill by no more than the advice was
   * rounded up.
   */
  lemma RetryAfterExact(c: Config, b: Bucket, nowMs: real)
    requires b.tokens <= c.capacity && Refilled(c, b, nowMs).tokens < 1.0
    ensures var r, sec := Refilled(c, b, nowMs), RetryAfter(c, b, nowMs);
            CanConsume(c, r, nowMs + sec as real * 1000.0)
            <==> && c.capacity >= 1.0 && c.ratePerSec > 0.0
                 && Accrued(c, r.lastRefillMs - nowMs) <= RoundingSlack(c, 1.0 - r.tokens)
  {
    var r, sec := Refilled(c, b, nowMs), RetryAfter(c, b, nowMs);
    var later := nowMs + sec as real * 1000.0;
    if c.ratePerSec > 0.0 {
      Gained(c, sec, r.lastRefillMs - nowMs);
      SignOfAccrued(c, later - r.lastRefillMs);
      assert later - r.lastRefillMs == sec as real * 1000.0 - (r.lastRefillMs - nowMs);
    } else if later > r.lastRefillMs {
      LosesNothing(c, later - r.lastRefillMs);
    }
  }

  /** What a wait of whole seconds brings in when the clock is behind by so much. */
  lemma Gained(c: Config, sec: int, behindMs: real)
    ensures Accrued(c, sec as real * 1000.0 - behindMs) == sec as real * c.ratePerSec - Accrued(c, behindMs)
  {
    AccruedAdds(c, sec as real * 1000.0 - behindMs, behindMs);
    assert sec as real * 1000.0 - behindMs + behindMs == sec as real * 1000.0;
    assert sec as real * 1000.0 / 1000.0 == sec as real;
  }

  lemma SignOfAccrued(c: Config, elapsedMs: real)
    requires c.ratePerSec > 0.0
    ensures Accrued(c, elapsedMs) > 0.0 <==> elapsedMs > 0.0
  {
    if elapsedMs <= 0.0 {
      AccruedGrows(c, elapsedMs, 0.0);
    } else {
      assert elapsedMs / 1000.0 > 0.0;
      assert elapsedMs / 1000.0 * c.ratePerSec > 0.0;
    }
  }

  lemma LosesNothing(c: Config, elapsedMs: real)
    requires c.ratePerSec <= 0.0 && elapsedMs > 0.0
    ensures Accrued(c, elapsedMs) <= 0.0
  {
    assert elapsedMs / 1000.0 > 0.0;
    assert elapsedMs / 1000.0 * c.ratePerSec <= 0.0;
  }

  lemma ScaleKeepsSign(x: real, rate: real)
    requires rate > 0.0
    ensures x * rate >= 0.0 <==> x >= 0.0
  {
    if x > 0.0 {
      assert x * rate > 0.0;
    } else if x < 0.0 {
      assert (-x) * rate > 0.0;
      assert x * rate == -((-x) * rate);
    }
  }

  /** A wait brings in the missing tokens exactly when it is at least as long as they take at this rate. */
  lemma LongEnough(c: Config, missing: real, sec: nat)
    requires c.ratePerSec > 0.0
    ensures Accrued(c, sec as real * 1000.0) >= missing <==> sec as real >= missing / c.ratePerSec
  {
    var wait := missing / c.ratePerSec;
    assert sec as real * 1000.0 / 1000.0 == sec as real;
    assert wait * c.ratePerSec == missing;
    ScaleKeepsSign(sec as real - wait, c.ratePerSec);
    assert (sec as real - wait) * c.ratePerSec == sec as real * c.ratePerSec - wait * c.ratePerSec;
  }

  /** The advice is the least number of whole seconds after which there is a token, 0 if there is one already. */
  lemma RetryAfterLeast(c: Config, b: Bucket, nowMs: real, sec: nat)
    requires b.tokens <= c.capacity && c.capacity >= 1.0 && c.ratePerSec > 0.0 && b.lastRefillMs <= nowMs
    ensures CanConsume(c, Refilled(c, b, nowMs), nowMs + sec as real * 1000.0) <==> RetryAfter(c, b, nowMs) <= sec
  {
    var r := Refilled(c, b, nowMs);
    assert r.lastRefillMs == nowMs;
    LongEnough(c, 1.0 - r.tokens, sec);
    AccruedGrows(c, 0.0, sec as real * 1000.0);
  }

  /** With a clock at or past the last refill the advice always works. */
  lemma RetryAfterSuffices(c: Config, b: Bucket, nowMs: real)
    requires b.tokens <= c.capacity && c.capacity >= 1.0 && c.ratePerSec > 0.0 && b.lastRefillMs <= nowMs
    ensures var sec := RetryAfter(c, b, nowMs);
            sec >= 0 && CanConsume(c, Refilled(c, b, nowMs), nowMs + sec as real * 1000.0)
  {
    var r := Refilled(c, b, nowMs);
    if r.tokens < 1.0 {
      ScaleKeepsSign((1.0 - r.tokens) / c.ratePerSec, c.ratePerSec);
    }
    RetryAfterLeast(c, b, nowMs, RetryAfter(c, b, nowMs));
  }

  /** A bucket that never refills is answered with a minute. */
  lemma RetryAfterWithoutRate(c: Config, b: Bucket, nowMs: real)
    requires b.tokens <= c.capacity && c.ratePerSec <= 0.0
    ensures RetryAfter(c, b, nowMs) == if CanConsume(c, b, nowMs) then 0 else 60
  {
  }

  /** A clock one minute behind: the advice is one second, and after it the bucket is still empty. */
  lemma SteppedBackClockMisadvises()
    ensures var c, b := Config(1.0, 1.0), Bucket(0.0, 60000.0);
            RetryAfter(c, b, 0.0) == 1 && !CanConsume(c, b, 1000.0)
  {
    assert (1.0 - 0.0) / 1.0 == 1.0;
  }
}
