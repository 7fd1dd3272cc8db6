/** How many calls the limiter lets live at once, and what its hypotheses are for. */
module LimiterLimit {
  import opened CallLimiter
  import opened LimiterRuns

  function Live(tokens: seq<Key>, id: string): nat {
    if tokens == [] then 0
    else Live(tokens[..|tokens| - 1], id) + if tokens[|tokens| - 1].id == id then 1 else 0
  }

  /** Live tokens a check at `nowMs` still sees. */
  function LiveActive(c: Config, tokens: seq<Key>, id: string, nowMs: nat): nat {
    if tokens == [] then 0
    else
      var last := tokens[|tokens| - 1];
      LiveActive(c, tokens[..|tokens| - 1], id, nowMs) + if last.id == id && Active(c, last, nowMs) then 1 else 0
  }

  // ---- A check's total is the number of active live tokens ----------------------------------

  lemma {:induction false} SumAdds(c: Config, f: Key -> int, g: Key -> int, h: Key -> int, id: string, window: int,
                                   n: nat)
    requires forall i: nat :: i < n ==>
         f(Back(c, id, window, i)) == g(Back(c, id, window, i)) + h(Back(c, id, window, i))
    ensures Sum(c, f, id, window, n) == Sum(c, g, id, window, n) + Sum(c, h, id, window, n)
  {
    if n > 0 {
      SumAdds(c, f, g, h, id, window, n - 1);
    }
  }

  function Indicator(k: Key, value: int): Key -> int {
    j => if j == k then value else 0
  }

  lemma CancelWindows(a: int, b: int, w: nat)
    requires w > 0 && a * w < b * w
    ensures a < b
  {
    assert a * w == b * w + (a - b) * w;
    assert a >= b ==> (a - b) * w >= 0;
  }

  lemma SameWindow(a: int, b: int, w: nat)
    requires w > 0 && a * w == b * w
    ensures a == b
  {
    if a < b {
      assert b * w == a * w + (b - a) * w;
      AtLeastOnce(b - a, w);
    } else if b < a {
      assert a * w == b * w + (a - b) * w;
      AtLeastOnce(a - b, w);
    }
  }

  /** A counter `i` windows back contributes once to a sum that reaches it, and otherwise not at all. */
  lemma {:induction false} IndicatorSum(c: Config, id: string, window: int, n: nat, i: nat, value: int)
    requires c.Valid()
    ensures Sum(c, Indicator(Back(c, id, window, i), value), id, window, n) == if i < n then value else 0
  {
    if n > 0 {
      IndicatorSum(c, id, window, n - 1, i, value);
      if Back(c, id, window, n - 1) == Back(c, id, window, i) {
        SameWindow(n - 1, i, c.windowSec);
      }
    }
  }

  lemma {:induction false} IndicatorElsewhere(c: Config, k: Key, value: int, id: string, window: int, n: nat)
    requires forall i: nat :: i < n ==> Back(c, id, window, i) != k
    ensures Sum(c, Indicator(k, value), id, window, n) == 0
  {
    if n > 0 {
      IndicatorElsewhere(c, k, value, id, window, n - 1);
    }
  }

  /** An active token of this limiter is exactly one of the summed windows; any other is none. */
  lemma TokenSum(c: Config, k: Key, id: string, nowMs: nat)
    requires c.Valid() && k.window <= Sec(nowMs) && exists n :: k.window == NthWindow(c, n)
    ensures Sum(c, Indicator(k, 1), id, CurrentWindow(c, nowMs), c.activeWindows)
         == if k.id == id && Active(c, k, nowMs) then 1 else 0
  {
    var window := CurrentWindow(c, nowMs);
    var q := Sec(nowMs) / c.windowSec;
    assert window == q * c.windowSec;
    if k.id == id && Active(c, k, nowMs) {
      var n :| k.window == NthWindow(c, n);
      assert (n + c.activeWindows) * c.windowSec == n * c.windowSec + c.activeWindows * c.windowSec;
      CancelWindows(q, n + c.activeWindows, c.windowSec);
      assert (q + 1) * c.windowSec == q * c.windowSec + c.windowSec;
      CancelWindows(n, q + 1, c.windowSec);
      assert (q - n) * c.windowSec == q * c.windowSec - n * c.windowSec;
      assert k == Back(c, id, window, q - n);
      IndicatorSum(c, id, window, c.activeWindows, q - n, 1);
    } else {
      forall i: nat | i < c.activeWindows
        ensures Back(c, id, window, i) != k
      {
        BackIsActive(c, id, nowMs, i);
      }
      IndicatorElsewhere(c, k, 1, id, window, c.activeWindows);
    }
  }

  lemma {:induction false} SummedIsLiveActive(c: Config, tokens: seq<Key>, id: string, nowMs: nat)
    requires c.Valid() && TokensInv(c, tokens, nowMs)
    ensures Summed(c, tokens, id, nowMs) == LiveActive(c, tokens, id, nowMs)
  {
    var window := CurrentWindow(c, nowMs);
    if tokens == [] {
      SumCongruence(c, k => multiset(tokens)[k], Indicator(Key(id, Sec(nowMs) + 1), 0), id, window, c.activeWindows);
      IndicatorElsewhere(c, Key(id, Sec(nowMs) + 1), 0, id, window, c.activeWindows) by {
        assert forall i: nat :: i < c.activeWindows ==> Back(c, id, window, i).window <= window;
      }
    } else {
      var rest, last := tokens[..|tokens| - 1], tokens[|tokens| - 1];
      assert tokens == rest + [last];
      assert last in tokens;
      SummedIsLiveActive(c, rest, id, nowMs);
      TokenSum(c, last, id, nowMs);
      SumAdds(c, k => multiset(tokens)[k], k => multiset(rest)[k], Indicator(last, 1), id, window, c.activeWindows);
    }
  }

  // ---- The limit ----------------------------------------------------------------------------

  lemma {:induction false} LiveAppend(a: seq<Key>, b: seq<Key>, id: string)
    ensures Live(a + b, id) == Live(a, id) + Live(b, id)
  {
    if b == [] {
      assert a + b == a;
    } else {
      LiveAppend(a, b[..|b| - 1], id);
      assert (a + b)[..|a + b| - 1] == a + b[..|b| - 1];
    }
  }

  lemma LiveWithout(tokens: seq<Key>, j: nat, id: string)
    requires j < |tokens|
    ensures Live(Without(tokens, j), id) == Live(tokens, id) - if tokens[j].id == id then 1 else 0
  {
    assert tokens == (tokens[..j] + [tokens[j]]) + tokens[j + 1..];
    LiveAppend(tokens[..j] + [tokens[j]], tokens[j + 1..], id);
    LiveAppend(tokens[..j], [tokens[j]], id);
    LiveAppend(tokens[..j], tokens[j + 1..], id);
    assert [tokens[j]][..0] == [];
  }

  lemma LiveReplaced(tokens: seq<Key>, j: nat, k: Key, id: string)
    requires j < |tokens| && k.id == tokens[j].id
    ensures Live(tokens[j := k], id) == Live(tokens, id)
  {
    assert Without(tokens[j := k], j) == Without(tokens, j);
    LiveWithout(tokens, j, id);
    LiveWithout(tokens[j := k], j, id);
  }

  lemma {:induction false} LiveSplits(c: Config, tokens: seq<Key>, id: string, nowMs: nat)
    ensures LiveActive(c, tokens, id, nowMs) <= Live(tokens, id)
    ensures LiveActive(c, tokens, id, nowMs) == Live(tokens, id)
       <==> forall k :: k in tokens && k.id == id ==> Active(c, k, nowMs)
  {
    if tokens != [] {
      var rest, last := tokens[..|tokens| - 1], tokens[|tokens| - 1];
      assert tokens == rest + [last];
      LiveSplits(c, rest, id, nowMs);
    }
  }

  /** One check, exactly: it admits if and only if fewer live tokens than the limit are still in the summed range. */
  lemma AdmissionExact(c: Config, s: State, id: string, limit: int, nowMs: nat)
    requires Inv(c, s) && s.nowMs <= nowMs
    ensures var t := Next(c, s, Check(id, limit), nowMs);
            if LiveActive(c, s.tokens, id, nowMs) < limit then t.tokens == s.tokens + [Key(id, CurrentWindow(c, nowMs))]
            else t.tokens == s.tokens
  {
    TotalsCountTokens(c, s, id, nowMs);
    assert TokensInv(c, s.tokens, nowMs) by {
      assert Sec(s.nowMs) <= Sec(nowMs);
    }
    SummedIsLiveActive(c, s.tokens, id, nowMs);
  }

  /** A fixed limit per limiter, and every live token refreshed before it leaves the summed range. */
  ghost predicate Timely(c: Config, limitOf: string -> int, s: State, op: Op, nowMs: nat) {
    op.Check? ==>
      && op.limit == limitOf(op.id)
      && forall k :: k in s.tokens && k.id == op.id ==> Active(c, k, nowMs)
  }

  ghost predicate IsTimelyRun(c: Config, limitOf: string -> int, s: State, ops: seq<Timed>)
    requires c.Valid()
    decreases |ops|
  {
    ops == [] ||
    (&& Enabled(c, s, ops[0].op, ops[0].nowMs) && Timely(c, limitOf, s, ops[0].op, ops[0].nowMs)
     && IsTimelyRun(c, limitOf, Next(c, s, ops[0].op, ops[0].nowMs), ops[1..]))
  }

  /** A renewal takes a slot without a check. */
  predicate TakesSlot(c: Config, op: Op, nowMs: nat, id: string)
    requires c.Valid()
  {
    op.Renew? && op.id == id && op.origin != CurrentWindow(c, nowMs)
  }

  function Renewals(c: Config, ops: seq<Timed>, id: string): nat
    requires c.Valid()
  {
    if ops == [] then 0 else (if TakesSlot(c, ops[0].op, ops[0].nowMs, id) then 1 else 0) + Renewals(c, ops[1..], id)
  }

  /** Live tokens are within the limit, but for slots that were taken without a check. */
  ghost predicate WithinLimit(limitOf: string -> int, unchecked: string -> nat, tokens: seq<Key>) {
    forall id :: Live(tokens, id) <= (if limitOf(id) > 0 then limitOf(id) else 0) + unchecked(id)
  }

  function Also(c: Config, unchecked: string -> nat, op: Op, nowMs: nat): string -> nat
    requires c.Valid()
  {
    id => unchecked(id) + if TakesSlot(c, op, nowMs, id) then 1 else 0
  }

  lemma StepWithinLimit(c: Config, limitOf: string -> int, unchecked: string -> nat, s: State, op: Op, nowMs: nat)
    requires Inv(c, s) && Enabled(c, s, op, nowMs) && Timely(c, limitOf, s, op, nowMs)
         && WithinLimit(limitOf, unchecked, s.tokens)
    ensures WithinLimit(limitOf, Also(c, unchecked, op, nowMs), Next(c, s, op, nowMs).tokens)
  {
    var t := Next(c, s, op, nowMs);
    forall id
      ensures Live(t.tokens, id) <= (if limitOf(id) > 0 then limitOf(id) else 0) + Also(c, unchecked, op, nowMs)(id)
    {
      match op
      case Check(checked, limit) =>
        AdmissionExact(c, s, checked, limit, nowMs);
        LiveSplits(c, s.tokens, checked, nowMs);
        LiveAppend(s.tokens, [Key(checked, CurrentWindow(c, nowMs))], id);
        assert [Key(checked, CurrentWindow(c, nowMs))][..0] == [];
      case Release(j) => LiveWithout(s.tokens, j, id);
      case Refresh(j) => LiveReplaced(s.tokens, j, Key(s.tokens[j].id, CurrentWindow(c, nowMs)), id);
      case Renew(renewed, _) =>
        LiveAppend(s.tokens, [Key(renewed, CurrentWindow(c, nowMs))], id);
        assert [Key(renewed, CurrentWindow(c, nowMs))][..0] == [];
    }
  }

  /**
   * In every timely run the live calls of a limiter never exceed its limit by more than the
   * renewals of entries that were admitted without it.
   */
  lemma {:induction false} LimitHolds(c: Config, limitOf: string -> int, unchecked: string -> nat, s: State,
                                      ops: seq<Timed>)
    requires Inv(c, s) && WithinLimit(limitOf, unchecked, s.tokens) && IsTimelyRun(c, limitOf, s, ops)
    ensures IsRun(c, s, ops)
    ensures forall id :: Live(RunEnd(c, s, ops).tokens, id)
              <= (if limitOf(id) > 0 then limitOf(id) else 0) + unchecked(id) + Renewals(c, ops, id)
    decreases |ops|
  {
    if ops != [] {
      var op, nowMs := ops[0].op, ops[0].nowMs;
      StepAgrees(c, s, op, nowMs);
      StepWithinLimit(c, limitOf, unchecked, s, op, nowMs);
      LimitHolds(c, limitOf, Also(c, unchecked, op, nowMs), Next(c, s, op, nowMs), ops[1..]);
    }
  }

  // ---- What the hypotheses are for ----------------------------------------------------------

  /** No counter, whenever it was stamped, expires while its window is still summed. */
  ghost predicate NeverSweptWhileActive(c: Config)
    requires c.Valid()
  {
    forall stampedMs: nat, nowMs: nat, id ::
      Sec(stampedMs) * 1000 + c.ttlSec * 1000 <= nowMs ==> !Active(c, Key(id, CurrentWindow(c, stampedMs)), nowMs)
  }

  /** The expiry is long enough exactly when it covers all active windows. */
  lemma TtlExact(c: Config)
    requires c.Valid()
    ensures NeverSweptWhileActive(c) <==> c.ttlSec >= c.activeWindows * c.windowSec
  {
    if c.ttlSec < c.activeWindows * c.windowSec {
      assert CurrentWindow(c, 0) == 0;
      assert Active(c, Key("", CurrentWindow(c, 0)), c.ttlSec * 1000);
    }
  }

  /** With any shorter expiry a limit of one admits two calls, both in the summed range. */
  lemma ShortTtlOveradmits(c: Config, id: string)
    requires c.Valid() && c.ttlSec < c.activeWindows * c.windowSec
    ensures var first := MemoryCheck(c, map[], id, 1, 0);
            var second := MemoryCheck(c, first.1, id, 1, c.ttlSec * 1000);
            && first.0 == Allowed(0) && second.0.Allowed?
            && Active(c, Key(id, 0), c.ttlSec * 1000)
  {
    assert CurrentWindow(c, 0) == 0;
    EmptyTotal(c, id, 0);
    assert Sweep(map[], 0) == map[];
    var first := MemoryCheck(c, map[], id, 1, 0);
    assert Sweep(first.1, c.ttlSec * 1000) == map[];
    EmptyTotal(c, id, CurrentWindow(c, c.ttlSec * 1000));
  }

  lemma EmptyTotal(c: Config, id: string, window: int)
    ensures MemoryTotal(c, map[], id, window) == 0
  {
    var none := Key(id, window + 1);
    var store: Memory := map[];
    SumCongruence(c, k => Count(store, k), Indicator(none, 0), id, window, c.activeWindows);
    IndicatorElsewhere(c, none, 0, id, window, c.activeWindows);
  }

  // ---- Exactly when a renewal sets the two forms apart --------------------------------------

  predicate StillSummed(c: Config, id: string, origin: int, nowMs: nat)
    requires c.Valid()
  {
    exists i: nat :: 0 < i < c.activeWindows && Key(id, origin) == Back(c, id, CurrentWindow(c, nowMs), i)
  }

  function HeldBy(s: State, k: Key): nat {
    multiset(s.tokens)[k]
  }

  /** Memory clamps at zero where Redis goes to -1. */
  function Gap(s: State, k: Key): int {
    if HeldBy(s, k) == 0 then 1 else 0
  }

  lemma MemoryAfterRenewal(c: Config, s: State, id: string, origin: int, nowMs: nat, k: Key)
    requires Inv(c, s) && s.nowMs <= nowMs && k.id == id && Active(c, k, nowMs) && origin != CurrentWindow(c, nowMs)
    ensures var memory := MemoryRefresh(c, s.memory, Key(id, origin), nowMs);
            Count(Sweep(memory, Sec(nowMs) * 1000), k)
            == HeldBy(s, k) + (if k == Key(id, CurrentWindow(c, nowMs)) then 1 else 0)
               - (if k == Key(id, origin) then 1 - Gap(s, k) else 0)
  {
    var ms := Sec(nowMs) * 1000;
    LaterMemory(c, s.memory, s.tokens, s.nowMs, nowMs);
    SweepKeeps(c, s.memory, s.tokens, nowMs, ms);
    var up := Bump(c, Sweep(s.memory, ms), Key(id, CurrentWindow(c, nowMs)), ms);
    MemoryUp(c, Sweep(s.memory, ms), s.tokens, id, nowMs);
    assert Count(up, k) == HeldBy(s, k) + if k == Key(id, CurrentWindow(c, nowMs)) then 1 else 0;
    var down := Drop(up, Key(id, origin));
    assert k in up ==> OutlivesWindow(c, k, up[k].expiresAtMs);
    assert k in down ==> down[k].expiresAtMs > ms;
  }

  lemma RedisAfterRenewal(c: Config, s: State, id: string, origin: int, nowMs: nat, k: Key)
    requires Inv(c, s) && s.nowMs <= nowMs && k.id == id && Active(c, k, nowMs) && origin != CurrentWindow(c, nowMs)
    ensures var redis := RedisRefresh(c, s.redis, Key(id, origin), nowMs);
            RedisGet(redis, k, nowMs)
            == HeldBy(s, k) + (if k == Key(id, CurrentWindow(c, nowMs)) then 1 else 0)
               - (if k == Key(id, origin) then 1 else 0)
  {
    LaterRedis(c, s.redis, s.tokens, s.nowMs, nowMs);
    var current := Key(id, CurrentWindow(c, nowMs));
    var up := RedisExpire(RedisAdd(s.redis, current, 1, nowMs), current, c.ttlSec, nowMs);
    RedisUp(c, s.redis, s.tokens, id, nowMs);
    assert RedisGet(up, k, nowMs) == HeldBy(s, k) + if k == current then 1 else 0;
  }

  /** The two totals after a renewal differ by the gap, and only where the origin is summed. */
  lemma TotalsAfterRenewal(c: Config, s: State, id: string, origin: int, nowMs: nat)
    requires Inv(c, s) && s.nowMs <= nowMs && origin != CurrentWindow(c, nowMs)
    ensures var k, window := Key(id, origin), CurrentWindow(c, nowMs);
            MemoryTotal(c, Sweep(MemoryRefresh(c, s.memory, k, nowMs), Sec(nowMs) * 1000), id, window)
            == RedisTotal(c, RedisRefresh(c, s.redis, k, nowMs), id, window, nowMs)
               + if StillSummed(c, id, origin, nowMs) then Gap(s, k) else 0
  {
    var k, window := Key(id, origin), CurrentWindow(c, nowMs);
    var memory := Sweep(MemoryRefresh(c, s.memory, k, nowMs), Sec(nowMs) * 1000);
    var redis := RedisRefresh(c, s.redis, k, nowMs);
    var gap := Indicator(k, Gap(s, k));
    forall i: nat | i < c.activeWindows
      ensures Count(memory, Back(c, id, window, i)) == RedisGet(redis, Back(c, id, window, i), nowMs)
           + gap(Back(c, id, window, i))
    {
      BackIsActive(c, id, nowMs, i);
      MemoryAfterRenewal(c, s, id, origin, nowMs, Back(c, id, window, i));
      RedisAfterRenewal(c, s, id, origin, nowMs, Back(c, id, window, i));
    }
    SumAdds(c, x => Count(memory, x), x => RedisGet(redis, x, nowMs), gap, id, window, c.activeWindows);
    if i: nat :| 0 < i < c.activeWindows && k == Back(c, id, window, i) {
      IndicatorSum(c, id, window, c.activeWindows, i, Gap(s, k));
    } else {
      assert Back(c, id, window, 0) != k;
      IndicatorElsewhere(c, k, Gap(s, k), id, window, c.activeWindows);
    }
  }

  /**
   * Refreshing an entry that holds no token sets the two forms apart, at some limit, exactly when
   * its origin is an earlier window still being summed in which no token is live.
   */
  lemma RenewalDivergesExact(c: Config, s: State, id: string, origin: int, nowMs: nat)
    requires Inv(c, s) && s.nowMs <= nowMs
    ensures var k := Key(id, origin);
            (exists limit :: MemoryCheck(c, MemoryRefresh(c, s.memory, k, nowMs), id, limit, nowMs).0
                          != RedisCheck(c, RedisRefresh(c, s.redis, k, nowMs), id, limit, nowMs).0)
            <==> StillSummed(c, id, origin, nowMs) && k !in s.tokens
  {
    var k, window := Key(id, origin), CurrentWindow(c, nowMs);
    var memory, redis := MemoryRefresh(c, s.memory, k, nowMs), RedisRefresh(c, s.redis, k, nowMs);
    if origin == window {
      TotalsCountTokens(c, s, id, nowMs);
      CurrentIsNoEarlier(c, id, nowMs);
    } else {
      TotalsAfterRenewal(c, s, id, origin, nowMs);
      var total := MemoryTotal(c, Sweep(memory, Sec(nowMs) * 1000), id, window);
      if StillSummed(c, id, origin, nowMs) && k !in s.tokens {
        assert HeldBy(s, k) == 0;
        assert MemoryCheck(c, memory, id, total, nowMs).0 != RedisCheck(c, redis, id, total, nowMs).0;
      } else if StillSummed(c, id, origin, nowMs) {
        assert k in multiset(s.tokens);
      }
    }
  }

  lemma CurrentIsNoEarlier(c: Config, id: string, nowMs: nat)
    requires c.Valid()
    ensures !StillSummed(c, id, CurrentWindow(c, nowMs), nowMs)
  {
    forall i: nat | 0 < i < c.activeWindows
      ensures Key(id, CurrentWindow(c, nowMs)) != Back(c, id, CurrentWindow(c, nowMs), i)
    {
      AtLeastOnce(i, c.windowSec);
    }
  }

  /**
   * Entries admitted without the limiter start at window 0, which no real clock still sums: they never
   * set it apart.
   */
  lemma FailOpenRenewalAgrees(c: Config, s: State, id: string, limit: int, nowMs: nat)
    requires Inv(c, s) && s.nowMs <= nowMs && Sec(nowMs) >= c.activeWindows * c.windowSec
    ensures var k := Key(id, 0);
            && Enabled(c, s, Renew(id, 0), nowMs)
            && MemoryCheck(c, MemoryRefresh(c, s.memory, k, nowMs), id, limit, nowMs).0
            == RedisCheck(c, RedisRefresh(c, s.redis, k, nowMs), id, limit, nowMs).0
  {
    forall i: nat | 0 < i < c.activeWindows
      ensures Key(id, 0) != Back(c, id, CurrentWindow(c, nowMs), i)
    {
      BackIsActive(c, id, nowMs, i);
    }
    RenewalDivergesExact(c, s, id, 0, nowMs);
  }
}
