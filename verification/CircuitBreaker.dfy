/** The span exporter's circuit breaker: drops while open, probes after an exponential cooldown. */
module CircuitBreaker {
  import opened Powers

  datatype Config = Config(baseCooldownMs: nat, maxCooldownMs: nat)

  /** `handed` counts the spans given to the inner exporter. */
  datatype Breaker = Breaker(
    isOpen: bool,
    openedAt: int,
    cooldownMs: nat,
    handed: nat,
    droppedBySwitch: nat,
    attempts: nat,
    probeFailures: nat)

  function Closed(c: Config): Breaker {
    Breaker(false, 0, c.baseCooldownMs, 0, 0, 0, 0)
  }

  function Min(a: nat, b: nat): nat {
    if a <= b then a else b
  }

  /** One export: how many spans, when, and whether the inner exporter would take them. */
  datatype Export = Export(spans: nat, now: int, accepted: bool)

  predicate Attempts(b: Breaker, e: Export) {
    !b.isOpen || e.now - b.openedAt >= b.cooldownMs
  }

  function After(c: Config, b: Breaker, e: Export): Breaker {
    if !Attempts(b, e) then b.(droppedBySwitch := b.droppedBySwitch + e.spans)
    else
      var tried := b.(attempts := b.attempts + 1, handed := b.handed + e.spans);
      if e.accepted then
        if b.isOpen then tried.(isOpen := false, cooldownMs := c.baseCooldownMs) else tried
      else if b.isOpen then
        tried.(probeFailures := b.probeFailures + 1, cooldownMs := Min(b.cooldownMs * 2, c.maxCooldownMs),
               openedAt := e.now)
      else tried.(isOpen := true, cooldownMs := c.baseCooldownMs, openedAt := e.now)
  }

  class CircuitBreakerSpanExporter {
    const config: Config
    var isOpen: bool
    var openedAt: int
    var cooldownMs: nat
    var handed: nat
    var droppedBySwitch: nat
    var attempts: nat
    var probeFailures: nat

    constructor (config: Config)
      ensures this.config == config && State() == Closed(config)
    {
      this.config := config;
      isOpen, openedAt, cooldownMs := false, 0, config.baseCooldownMs;
      handed, droppedBySwitch, attempts, probeFailures := 0, 0, 0, 0;
    }

    ghost function State(): Breaker
      reads this
    {
      Breaker(isOpen, openedAt, cooldownMs, handed, droppedBySwitch, attempts, probeFailures)
    }

    /** `inner` answers at once; dropped batches are reported as exported. */
    method ExportSpans(e: Export) returns (success: bool)
      modifies this
      ensures State() == After(config, old(State()), e)
      ensures success <==> !Attempts(old(State()), e) || e.accepted
    {
      if isOpen && e.now - openedAt < cooldownMs {
        droppedBySwitch := droppedBySwitch + e.spans;
        return true;
      }
      var wasProbe := isOpen;
      attempts := attempts + 1;
      handed := handed + e.spans;
      if e.accepted {
        if isOpen {
          isOpen := false;
          cooldownMs := config.baseCooldownMs;
        }
      } else if wasProbe {
        probeFailures := probeFailures + 1;
        cooldownMs := if cooldownMs * 2 <= config.maxCooldownMs then cooldownMs * 2 else config.maxCooldownMs;
        openedAt := e.now;
      } else if !isOpen {
        isOpen := true;
        cooldownMs := config.baseCooldownMs;
        openedAt := e.now;
      }
      success := e.accepted;
    }
  }

  // ---- Runs ---------------------------------------------------------------------------------

  function RunEnd(c: Config, b: Breaker, exports: seq<Export>): Breaker {
    if exports == [] then b else After(c, RunEnd(c, b, exports[..|exports| - 1]), exports[|exports| - 1])
  }

  /** Cooldown after `k` failed probes. The first one is the base even when that is above the maximum. */
  function Cooldown(c: Config, k: nat): nat {
    if k == 0 then c.baseCooldownMs else Min(c.baseCooldownMs * Pow2(k), c.maxCooldownMs)
  }

  function Spans(exports: seq<Export>): nat {
    if exports == [] then 0 else Spans(exports[..|exports| - 1]) + exports[|exports| - 1].spans
  }

  /** Every span is either handed to the inner exporter or counted as dropped. */
  lemma {:induction false} NoSpanUncounted(c: Config, b: Breaker, exports: seq<Export>)
    ensures var end := RunEnd(c, b, exports);
            end.handed + end.droppedBySwitch == b.handed + b.droppedBySwitch + Spans(exports)
  {
    if exports != [] {
      NoSpanUncounted(c, b, exports[..|exports| - 1]);
    }
  }

  /** Failed probes since the circuit last opened. */
  function FailedProbes(c: Config, b: Breaker, exports: seq<Export>): nat {
    if exports == [] then 0
    else
      var before, e := RunEnd(c, b, exports[..|exports| - 1]), exports[|exports| - 1];
      if !before.isOpen || !Attempts(before, e) then FailedProbes(c, b, exports[..|exports| - 1])
      else if e.accepted then 0
      else FailedProbes(c, b, exports[..|exports| - 1]) + 1
  }

  lemma DoubleCooldown(c: Config, k: nat)
    ensures Min(Cooldown(c, k) * 2, c.maxCooldownMs) == Cooldown(c, k + 1)
  {
    assert c.baseCooldownMs * Pow2(k + 1) == c.baseCooldownMs * Pow2(k) * 2;
  }

  /** Over any run from a closed circuit, while open the cooldown is the capped exponential of the failed probes. */
  lemma {:induction false} CooldownIsExponential(c: Config, exports: seq<Export>)
    ensures var end := RunEnd(c, Closed(c), exports);
            && (end.isOpen ==> end.cooldownMs == Cooldown(c, FailedProbes(c, Closed(c), exports)))
            && (!end.isOpen ==> end.cooldownMs == c.baseCooldownMs && FailedProbes(c, Closed(c), exports) == 0)
  {
    if exports != [] {
      CooldownIsExponential(c, exports[..|exports| - 1]);
      DoubleCooldown(c, FailedProbes(c, Closed(c), exports[..|exports| - 1]));
    }
  }

  /**
   * After any run from a closed circuit: with the circuit closed every export is handed over; with it
   * open exactly from the cooldown of its failed probes after the last refusal on. One accepted
   * export closes the circuit, one refused opens it anew.
   */
  lemma ProbeComes(c: Config, exports: seq<Export>, e: Export)
    ensures var b, due := RunEnd(c, Closed(c), exports), Cooldown(c, FailedProbes(c, Closed(c), exports));
            var after := After(c, b, e);
            && (after.attempts == b.attempts + 1 <==> !b.isOpen || e.now >= b.openedAt + due)
            && (after.attempts == b.attempts + 1 ==>
                  && after.handed == b.handed + e.spans
                  && (e.accepted ==> !after.isOpen && after.cooldownMs == c.baseCooldownMs)
                  && (!e.accepted ==> after.isOpen && after.openedAt == e.now))
            && (after.attempts != b.attempts + 1 ==> after == b.(droppedBySwitch := b.droppedBySwitch + e.spans))
  {
    CooldownIsExponential(c, exports);
  }

  /** With the collector back, and the first export not before the cooldown is over, no span is dropped any more. */
  lemma {:induction false} RecoveryIsComplete(c: Config, b: Breaker, exports: seq<Export>)
    requires exports != [] && forall e :: e in exports ==> e.accepted
    requires b.isOpen ==> exports[0].now >= b.openedAt + b.cooldownMs
    ensures var end := RunEnd(c, b, exports);
            && !end.isOpen && end.handed == b.handed + Spans(exports) && end.droppedBySwitch == b.droppedBySwitch
            && end.attempts == b.attempts + |exports|
    decreases |exports|
  {
    var n := |exports| - 1;
    assert exports[n] in exports;
    if n > 0 {
      RecoveryIsComplete(c, b, exports[..n]);
    } else {
      assert exports[..n] == [];
      assert RunEnd(c, b, exports[..n]) == b;
    }
  }

  /** With a base within the maximum the closed form has no special case. */
  lemma CooldownClosedForm(c: Config, k: nat)
    ensures Cooldown(c, k) == Min(c.baseCooldownMs * Pow2(k), c.maxCooldownMs)
         <==> k > 0 || c.baseCooldownMs <= c.maxCooldownMs
  {
  }

  // ---- Spacing ------------------------------------------------------------------------------

  /** Time needed for the first `n` probes. */
  function Schedule(c: Config, n: nat): nat {
    if n == 0 then 0 else Schedule(c, n - 1) + Cooldown(c, n - 1)
  }

  /** The collector is dead for the whole run. */
  predicate AllRefused(exports: seq<Export>) {
    forall e :: e in exports ==> !e.accepted
  }

  /** The breaker right after the failure that opened it. */
  function Opened(c: Config, b: Breaker, at: int): Breaker {
    b.(isOpen := true, openedAt := at, cooldownMs := c.baseCooldownMs)
  }

  /**
   * Against a dead collector the n-th probe comes no earlier than the sum of the first n cooldowns
   * after the opening, however often exports arrive and however the clock steps back.
   */
  lemma {:induction false} ProbesAreSpaced(c: Config, b: Breaker, at: int, exports: seq<Export>)
    requires AllRefused(exports)
    ensures var start := Opened(c, b, at);
            var end := RunEnd(c, start, exports);
            && end.isOpen && end.attempts >= b.attempts
            && var n := end.attempts - b.attempts;
            && end.cooldownMs == Cooldown(c, n)
            && end.openedAt >= at + Schedule(c, n)
            && end.probeFailures == b.probeFailures + n
  {
    if exports != [] {
      var rest := exports[..|exports| - 1];
      ProbesAreSpaced(c, b, at, rest);
      assert exports[|exports| - 1] in exports;
      var before := RunEnd(c, Opened(c, b, at), rest);
      DoubleCooldown(c, before.attempts - b.attempts);
    }
  }

  /** Exports of a dead collector that come just when each cooldown is over. */
  function OnSchedule(c: Config, at: int, n: nat): seq<Export> {
    if n == 0 then [] else OnSchedule(c, at, n - 1) + [Export(1, at + Schedule(c, n), false)]
  }

  /** The schedule is kept, not only respected: each of these exports is a probe. */
  lemma {:induction false} ScheduleIsReached(c: Config, b: Breaker, at: int, n: nat)
    ensures AllRefused(OnSchedule(c, at, n))
    ensures var end := RunEnd(c, Opened(c, b, at), OnSchedule(c, at, n));
            && end.attempts == b.attempts + n && end.openedAt == at + Schedule(c, n) && end.isOpen
            && end.droppedBySwitch == b.droppedBySwitch && end.handed == b.handed + n
  {
    OnScheduleIsRefused(c, b, at, n);
    if n > 0 {
      ScheduleIsReached(c, b, at, n - 1);
      var exports := OnSchedule(c, at, n);
      assert exports[..|exports| - 1] == OnSchedule(c, at, n - 1);
      ProbesAreSpaced(c, b, at, OnSchedule(c, at, n - 1));
    }
  }

  lemma {:induction false} OnScheduleIsRefused(c: Config, b: Breaker, at: int, n: nat)
    ensures AllRefused(OnSchedule(c, at, n))
  {
    if n > 0 {
      OnScheduleIsRefused(c, b, at, n - 1);
    }
  }

  /** Two attempts with nothing but drops between them are at least the cooldown apart that the first one left. */
  lemma {:induction false} AttemptsApart(c: Config, b: Breaker, first: Export, drops: seq<Export>, second: Export)
    requires Attempts(b, first) && !first.accepted
    requires var after := After(c, b, first);
             RunEnd(c, after, drops).attempts == after.attempts && Attempts(RunEnd(c, after, drops), second)
    ensures second.now >= first.now + After(c, b, first).cooldownMs
  {
    DropsChangeNothing(c, After(c, b, first), drops);
  }

  lemma {:induction false} DropsChangeNothing(c: Config, b: Breaker, drops: seq<Export>)
    ensures RunEnd(c, b, drops).attempts >= b.attempts
    ensures RunEnd(c, b, drops).attempts == b.attempts ==>
              RunEnd(c, b, drops) == b.(droppedBySwitch := RunEnd(c, b, drops).droppedBySwitch)
  {
    if drops != [] {
      DropsChangeNothing(c, b, drops[..|drops| - 1]);
    }
  }

  lemma {:induction false} ScheduleGrows(c: Config, n: nat, m: nat)
    requires n <= m
    ensures Schedule(c, n) <= Schedule(c, m)
  {
    if n < m {
      ScheduleGrows(c, n, m - 1);
    }
  }

  /** So the number of attempts within any span of time is bounded by the schedule alone. */
  lemma AttemptsBounded(c: Config, b: Breaker, at: int, exports: seq<Export>, spanMs: nat, n: nat)
    requires AllRefused(exports) && spanMs < Schedule(c, n + 1)
    requires RunEnd(c, Opened(c, b, at), exports).openedAt <= at + spanMs
    ensures RunEnd(c, Opened(c, b, at), exports).attempts <= b.attempts + n
  {
    ProbesAreSpaced(c, b, at, exports);
    var m := RunEnd(c, Opened(c, b, at), exports).attempts - b.attempts;
    if m > n {
      ScheduleGrows(c, n + 1, m);
    }
  }

  lemma CappedFrom(c: Config, k: nat, n: nat)
    requires 0 < k <= n && c.baseCooldownMs * Pow2(k) >= c.maxCooldownMs
    ensures Cooldown(c, n) == c.maxCooldownMs
  {
    Pow2Grows(k, n);
    Scale(c.baseCooldownMs, Pow2(k), Pow2(n));
  }

  lemma {:induction false} ScheduleAtCap(c: Config, k: nat, n: nat)
    requires 0 < k <= n && c.baseCooldownMs * Pow2(k) >= c.maxCooldownMs
    ensures Schedule(c, n) == Schedule(c, k) + (n - k) * c.maxCooldownMs
    decreases n
  {
    if n > k {
      ScheduleAtCap(c, k, n - 1);
      CappedFrom(c, k, n - 1);
      OneMore(n - k, c.maxCooldownMs);
    }
  }

  lemma OneMore(n: nat, m: nat)
    requires n >= 1
    ensures n * m == (n - 1) * m + m
  {
  }

  const DEFAULTS := Config(30_000, 300_000)

  /**
   * The default schedule: 30 s, 60 s, 120 s, 240 s, then every 300 s. That is 14 probes in the first
   * hour and 12 in each hour after, where the header comment says about 8 and 4.
   */
  lemma DefaultSchedule()
    ensures Schedule(DEFAULTS, 4) == 450_000
    ensures Schedule(DEFAULTS, 14) <= 3_600_000 < Schedule(DEFAULTS, 15)
    ensures forall n: nat :: n >= 4 ==> Schedule(DEFAULTS, n + 12) == Schedule(DEFAULTS, n) + 3_600_000
  {
    assert Pow2(4) == 16 && Pow2(3) == 8 && Pow2(2) == 4 && Pow2(1) == 2;
    assert Schedule(DEFAULTS, 1) == 30_000;
    assert Schedule(DEFAULTS, 2) == 90_000;
    assert Schedule(DEFAULTS, 3) == 210_000;
    forall n: nat | n >= 4
      ensures Schedule(DEFAULTS, n) == 450_000 + (n - 4) * 300_000
    {
      ScheduleAtCap(DEFAULTS, 4, n);
    }
  }
}
