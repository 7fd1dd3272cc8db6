/**
 * Whole runs of the limiter: both forms count live admission tokens, so they decide alike, and the
 * number of live calls stays within the limit.
 */
module LimiterRuns {
  import opened Options
  import opened CallLimiter

  /**
   * What a caller does. A token is a slot held in a counter; a release or refresh names the token it
   * acts on, so each token is released at most once and always at its own window. A renewal is the
   * refresh of an entry that holds none, admitted while the limiter was unreachable: it takes a slot
   * in the current window, and the entry holds that from then on.
   */
  datatype Op =
    | Check(id: string, limit: int)
    | Release(token: nat)
    | Refresh(token: nat)
    | Renew(id: string, origin: int)

  datatype Output = Decided(decision: Decision) | Released | Moved(window: int)

  /** Both stores run side by side; `tokens` holds the live tokens with their origin windows. */
  datatype State = State(memory: Memory, redis: Redis, tokens: seq<Key>, nowMs: nat)

  const FRESH := State(map[], map[], [], 0)

  /** A renewed entry's origin is outside the summed range: the source records it at window 0. */
  predicate Enabled(c: Config, s: State, op: Op, nowMs: nat) {
    && s.nowMs <= nowMs
    && (op.Release? || op.Refresh? ==> op.token < |s.tokens|)
    && (op.Renew? ==> op.origin <= Sec(nowMs) && !Active(c, Key(op.id, op.origin), nowMs))
  }

  function TokensAfter(c: Config, tokens: seq<Key>, op: Op, decision: Decision, nowMs: nat): seq<Key>
    requires c.Valid() && (op.Release? || op.Refresh? ==> op.token < |tokens|)
  {
    match op
    case Check(id, _) => if decision.Allowed? then tokens + [Key(id, decision.currentWindow)] else tokens
    case Release(j) => tokens[..j] + tokens[j + 1..]
    case Refresh(j) => tokens[j := Key(tokens[j].id, CurrentWindow(c, nowMs))]
    case Renew(id, origin) =>
      if origin == CurrentWindow(c, nowMs) then tokens else tokens + [Key(id, CurrentWindow(c, nowMs))]
  }

  function MemoryStep(c: Config, s: State, op: Op, nowMs: nat): (Output, Memory)
    requires c.Valid() && Enabled(c, s, op, nowMs)
  {
    match op
    case Check(id, limit) => var (d, m) := MemoryCheck(c, s.memory, id, limit, nowMs); (Decided(d), m)
    case Release(j) => (Released, MemoryDecrement(s.memory, s.tokens[j], nowMs))
    case Refresh(j) => (Moved(CurrentWindow(c, nowMs)), MemoryRefresh(c, s.memory, s.tokens[j], nowMs))
    case Renew(id, origin) => (Moved(CurrentWindow(c, nowMs)), MemoryRefresh(c, s.memory, Key(id, origin), nowMs))
  }

  function RedisStep(c: Config, s: State, op: Op, nowMs: nat): (Output, Redis)
    requires c.Valid() && Enabled(c, s, op, nowMs)
  {
    match op
    case Check(id, limit) => var (d, r) := RedisCheck(c, s.redis, id, limit, nowMs); (Decided(d), r)
    case Release(j) => (Released, RedisDecrement(s.redis, s.tokens[j], nowMs))
    case Refresh(j) => (Moved(CurrentWindow(c, nowMs)), RedisRefresh(c, s.redis, s.tokens[j], nowMs))
    case Renew(id, origin) => (Moved(CurrentWindow(c, nowMs)), RedisRefresh(c, s.redis, Key(id, origin), nowMs))
  }

  /** Tokens follow the memory form's decisions; the theorem is that Redis decides the same. */
  function Next(c: Config, s: State, op: Op, nowMs: nat): State
    requires c.Valid() && Enabled(c, s, op, nowMs)
  {
    var (output, memory) := MemoryStep(c, s, op, nowMs);
    State(memory, RedisStep(c, s, op, nowMs).1,
          TokensAfter(c, s.tokens, op, if output.Decided? then output.decision else Rejected, nowMs), nowMs)
  }

  // ---- The invariants -----------------------------------------------------------------------

  /** The window is still inside the summed range. */
  predicate Active(c: Config, k: Key, nowMs: nat) {
    Sec(nowMs) < k.window + c.activeWindows * c.windowSec
  }

  /** No counter of a window expires while the window can still be summed. */
  predicate OutlivesWindow(c: Config, k: Key, expiresAtMs: nat) {
    expiresAtMs >= (k.window + c.activeWindows * c.windowSec) * 1000
  }

  ghost predicate MemoryInv(c: Config, store: Memory, tokens: seq<Key>, nowMs: nat) {
    && (forall k :: k in store ==> k.window <= Sec(nowMs) && OutlivesWindow(c, k, store[k].expiresAtMs))
    && (forall k :: Active(c, k, nowMs) ==> Count(store, k) == multiset(tokens)[k])
  }

  /** A key without expiry came from a DECR on nothing: it lies outside every later sum. */
  ghost predicate RedisInv(c: Config, store: Redis, tokens: seq<Key>, nowMs: nat) {
    && (forall k :: k in store ==> k.window <= Sec(nowMs))
    && (forall k :: k in store && store[k].expiresAtMs.Some? ==> OutlivesWindow(c, k, store[k].expiresAtMs.value))
    && (forall k :: k in store && store[k].expiresAtMs.None? ==> !Active(c, k, nowMs))
    && (forall k :: Active(c, k, nowMs) ==> RedisGet(store, k, nowMs) == multiset(tokens)[k])
  }

  function NthWindow(c: Config, n: int): int {
    n * c.windowSec
  }

  /** Tokens sit at window boundaries that have begun. */
  ghost predicate TokensInv(c: Config, tokens: seq<Key>, nowMs: nat) {
    forall k :: k in tokens ==> k.window <= Sec(nowMs) && exists n :: k.window == NthWindow(c, n)
  }

  /** The configuration the comments ask for: counters live as long as their window is summed. */
  predicate WellConfigured(c: Config) {
    c.Valid() && c.activeWindows > 0 && c.ttlSec >= c.activeWindows * c.windowSec
  }

  ghost predicate Inv(c: Config, s: State) {
    && WellConfigured(c) && TokensInv(c, s.tokens, s.nowMs)
    && MemoryInv(c, s.memory, s.tokens, s.nowMs) && RedisInv(c, s.redis, s.tokens, s.nowMs)
  }

  // ---- Time passes --------------------------------------------------------------------------

  lemma LaterMemory(c: Config, store: Memory, tokens: seq<Key>, was: nat, nowMs: nat)
    requires MemoryInv(c, store, tokens, was) && was <= nowMs
    ensures MemoryInv(c, store, tokens, nowMs)
  {
    forall k | Active(c, k, nowMs)
      ensures Count(store, k) == multiset(tokens)[k]
    {
      assert Sec(was) <= Sec(nowMs);
      assert Active(c, k, was);
    }
  }

  lemma LaterRedis(c: Config, store: Redis, tokens: seq<Key>, was: nat, nowMs: nat)
    requires RedisInv(c, store, tokens, was) && was <= nowMs
    ensures RedisInv(c, store, tokens, nowMs)
  {
    forall k | Active(c, k, nowMs)
      ensures RedisGet(store, k, nowMs) == multiset(tokens)[k]
    {
      assert Sec(was) <= Sec(nowMs);
      assert Active(c, k, was);
    }
  }

  /** A sweep at (or, floored to the second, just before) `nowMs` drops no active counter. */
  lemma SweepKeeps(c: Config, store: Memory, tokens: seq<Key>, nowMs: nat, sweepMs: nat)
    requires MemoryInv(c, store, tokens, nowMs) && sweepMs <= nowMs
    ensures MemoryInv(c, Sweep(store, sweepMs), tokens, nowMs)
    ensures forall k :: Active(c, k, nowMs) && k in store ==> k in Sweep(store, sweepMs)
  {
    forall k | Active(c, k, nowMs) && k in store
      ensures k in Sweep(store, sweepMs)
    {
      assert OutlivesWindow(c, k, store[k].expiresAtMs);
    }
  }

  // ---- One counter up, one counter down -----------------------------------------------------

  /** Stamping the current window gives it an expiry beyond its active range. */
  lemma StampOutlives(c: Config, id: string, nowMs: nat)
    requires WellConfigured(c)
    ensures var k := Key(id, CurrentWindow(c, nowMs));
            Active(c, k, nowMs) && OutlivesWindow(c, k, Sec(nowMs) * 1000 + c.ttlSec * 1000)
  {
    AtLeastOnce(c.activeWindows, c.windowSec);
  }

  lemma MemoryUp(c: Config, store: Memory, tokens: seq<Key>, id: string, nowMs: nat)
    requires WellConfigured(c) && MemoryInv(c, store, tokens, nowMs)
    ensures var k := Key(id, CurrentWindow(c, nowMs));
            MemoryInv(c, Bump(c, store, k, Sec(nowMs) * 1000), tokens + [k], nowMs)
  {
    StampOutlives(c, id, nowMs);
  }

  lemma RedisUp(c: Config, store: Redis, tokens: seq<Key>, id: string, nowMs: nat)
    requires WellConfigured(c) && RedisInv(c, store, tokens, nowMs)
    ensures var k := Key(id, CurrentWindow(c, nowMs));
            RedisInv(c, RedisExpire(RedisAdd(store, k, 1, nowMs), k, c.ttlSec, nowMs), tokens + [k], nowMs)
  {
    StampOutlives(c, id, nowMs);
    var k := Key(id, CurrentWindow(c, nowMs));
    var up := RedisExpire(RedisAdd(store, k, 1, nowMs), k, c.ttlSec, nowMs);
    assert c.ttlSec > 0;
    assert RedisGet(up, k, nowMs) == RedisGet(store, k, nowMs) + 1;
    forall j | Active(c, j, nowMs) && j != k
      ensures RedisGet(up, j, nowMs) == multiset(tokens + [k])[j]
    {
      assert RedisGet(up, j, nowMs) == RedisGet(store, j, nowMs);
    }
  }

  function Without(tokens: seq<Key>, j: nat): seq<Key>
    requires j < |tokens|
  {
    tokens[..j] + tokens[j + 1..]
  }

  lemma WithoutMultiset(tokens: seq<Key>, j: nat)
    requires j < |tokens|
    ensures multiset(Without(tokens, j)) == multiset(tokens) - multiset{tokens[j]}
  {
    assert tokens == tokens[..j] + [tokens[j]] + tokens[j + 1..];
  }

  lemma MemoryDown(c: Config, store: Memory, tokens: seq<Key>, j: nat, nowMs: nat)
    requires MemoryInv(c, store, tokens, nowMs) && j < |tokens|
    ensures MemoryInv(c, Drop(store, tokens[j]), Without(tokens, j), nowMs)
  {
    WithoutMultiset(tokens, j);
  }

  lemma RedisDown(c: Config, store: Redis, tokens: seq<Key>, j: nat, nowMs: nat)
    requires RedisInv(c, store, tokens, nowMs) && j < |tokens| && tokens[j].window <= Sec(nowMs)
    ensures RedisInv(c, RedisAdd(store, tokens[j], -1, nowMs), Without(tokens, j), nowMs)
  {
    WithoutMultiset(tokens, j);
    var k := tokens[j];
    var down := RedisAdd(store, k, -1, nowMs);
    if Active(c, k, nowMs) {
      assert multiset(tokens)[k] >= 1;
      assert RedisLive(store, k, nowMs);
    }
    forall i | Active(c, i, nowMs)
      ensures RedisGet(down, i, nowMs) == multiset(Without(tokens, j))[i]
    {
      assert i != k ==> RedisGet(down, i, nowMs) == RedisGet(store, i, nowMs);
    }
  }

  // ---- Sums ---------------------------------------------------------------------------------

  lemma {:induction false} SumCongruence(c: Config, a: Key -> int, b: Key -> int, id: string, window: int, n: nat)
    requires forall i: nat :: i < n ==> a(Back(c, id, window, i)) == b(Back(c, id, window, i))
    ensures Sum(c, a, id, window, n) == Sum(c, b, id, window, n)
  {
    if n > 0 {
      SumCongruence(c, a, b, id, window, n - 1);
    }
  }

  lemma BackIsActive(c: Config, id: string, nowMs: nat, i: nat)
    requires c.Valid() && i < c.activeWindows
    ensures Active(c, Back(c, id, CurrentWindow(c, nowMs), i), nowMs)
  {
    Distribute(c.activeWindows, i, c.windowSec);
    AtLeastOnce(c.activeWindows - i, c.windowSec);
  }

  lemma Distribute(a: int, b: int, w: int)
    ensures a * w - b * w == (a - b) * w
  {
  }

  lemma AtLeastOnce(n: nat, w: nat)
    requires n >= 1
    ensures n * w >= w
  {
    assert n * w == (n - 1) * w + w;
  }

  /** Tokens of the windows a check sums. */
  function Summed(c: Config, tokens: seq<Key>, id: string, nowMs: nat): int
    requires c.Valid()
  {
    Sum(c, k => multiset(tokens)[k], id, CurrentWindow(c, nowMs), c.activeWindows)
  }

  lemma TotalsCountTokens(c: Config, s: State, id: string, nowMs: nat)
    requires Inv(c, s) && s.nowMs <= nowMs
    ensures MemoryTotal(c, Sweep(s.memory, Sec(nowMs) * 1000), id, CurrentWindow(c, nowMs))
         == Summed(c, s.tokens, id, nowMs)
    ensures RedisTotal(c, s.redis, id, CurrentWindow(c, nowMs), nowMs) == Summed(c, s.tokens, id, nowMs)
  {
    var window := CurrentWindow(c, nowMs);
    var swept := Sweep(s.memory, Sec(nowMs) * 1000);
    LaterMemory(c, s.memory, s.tokens, s.nowMs, nowMs);
    SweepKeeps(c, s.memory, s.tokens, nowMs, Sec(nowMs) * 1000);
    LaterRedis(c, s.redis, s.tokens, s.nowMs, nowMs);
    forall i: nat | i < c.activeWindows
      ensures Count(swept, Back(c, id, window, i)) == multiset(s.tokens)[Back(c, id, window, i)]
      ensures RedisGet(s.redis, Back(c, id, window, i), nowMs) == multiset(s.tokens)[Back(c, id, window, i)]
    {
      BackIsActive(c, id, nowMs, i);
    }
    SumCongruence(c, k => Count(swept, k), k => multiset(s.tokens)[k], id, window, c.activeWindows);
    SumCongruence(c, k => RedisGet(s.redis, k, nowMs), k => multiset(s.tokens)[k], id, window, c.activeWindows);
  }

  // ---- Bisimulation -------------------------------------------------------------------------

  lemma TokensStayAligned(c: Config, s: State, op: Op, nowMs: nat)
    requires Inv(c, s) && Enabled(c, s, op, nowMs)
    ensures TokensInv(c, Next(c, s, op, nowMs).tokens, nowMs)
  {
    assert CurrentWindow(c, nowMs) == NthWindow(c, Sec(nowMs) / c.windowSec);
    assert Sec(s.nowMs) <= Sec(nowMs);
  }

  lemma CheckAgrees(c: Config, s: State, id: string, limit: int, nowMs: nat)
    requires Inv(c, s) && s.nowMs <= nowMs
    ensures MemoryStep(c, s, Check(id, limit), nowMs).0 == RedisStep(c, s, Check(id, limit), nowMs).0
    ensures var t := Next(c, s, Check(id, limit), nowMs);
            MemoryInv(c, t.memory, t.tokens, nowMs) && RedisInv(c, t.redis, t.tokens, nowMs)
  {
    LaterMemory(c, s.memory, s.tokens, s.nowMs, nowMs);
    LaterRedis(c, s.redis, s.tokens, s.nowMs, nowMs);
    TotalsCountTokens(c, s, id, nowMs);
    SweepKeeps(c, s.memory, s.tokens, nowMs, Sec(nowMs) * 1000);
    MemoryUp(c, Sweep(s.memory, Sec(nowMs) * 1000), s.tokens, id, nowMs);
    RedisUp(c, s.redis, s.tokens, id, nowMs);
  }

  lemma ReleaseAgrees(c: Config, s: State, j: nat, nowMs: nat)
    requires Inv(c, s) && Enabled(c, s, Release(j), nowMs)
    ensures var t := Next(c, s, Release(j), nowMs);
            MemoryInv(c, t.memory, t.tokens, nowMs) && RedisInv(c, t.redis, t.tokens, nowMs)
  {
    LaterMemory(c, s.memory, s.tokens, s.nowMs, nowMs);
    LaterRedis(c, s.redis, s.tokens, s.nowMs, nowMs);
    assert s.tokens[j].window <= Sec(nowMs) by {
      assert s.tokens[j] in s.tokens && Sec(s.nowMs) <= Sec(nowMs);
    }
    SweepKeeps(c, s.memory, s.tokens, nowMs, nowMs);
    MemoryDown(c, Sweep(s.memory, nowMs), s.tokens, j, nowMs);
    RedisDown(c, s.redis, s.tokens, j, nowMs);
  }

  /** Both forms answer alike and both keep counting the same tokens. */
  lemma StepAgrees(c: Config, s: State, op: Op, nowMs: nat)
    requires Inv(c, s) && Enabled(c, s, op, nowMs)
    ensures MemoryStep(c, s, op, nowMs).0 == RedisStep(c, s, op, nowMs).0
    ensures Inv(c, Next(c, s, op, nowMs))
  {
    TokensStayAligned(c, s, op, nowMs);
    match op
    case Check(id, limit) => CheckAgrees(c, s, id, limit, nowMs);
    case Release(j) => ReleaseAgrees(c, s, j, nowMs);
    case Refresh(j) => RefreshAgrees(c, s, j, nowMs);
    case Renew(id, origin) => RenewAgrees(c, s, id, origin, nowMs);
  }

  lemma RefreshAgrees(c: Config, s: State, j: nat, nowMs: nat)
    requires Inv(c, s) && Enabled(c, s, Refresh(j), nowMs)
    ensures var t := Next(c, s, Refresh(j), nowMs);
            MemoryInv(c, t.memory, t.tokens, nowMs) && RedisInv(c, t.redis, t.tokens, nowMs)
  {
    var t := Next(c, s, Refresh(j), nowMs);
    var k, current := s.tokens[j], Key(s.tokens[j].id, CurrentWindow(c, nowMs));
    LaterMemory(c, s.memory, s.tokens, s.nowMs, nowMs);
    LaterRedis(c, s.redis, s.tokens, s.nowMs, nowMs);
    if k == current {
      assert t.tokens == s.tokens;
    } else {
      var up := s.tokens + [current];
      assert up[j] == k;
      assert multiset(Without(up, j)) == multiset(t.tokens) by {
        WithoutMultiset(up, j);
      }
      SweepKeeps(c, s.memory, s.tokens, nowMs, Sec(nowMs) * 1000);
      MemoryUp(c, Sweep(s.memory, Sec(nowMs) * 1000), s.tokens, k.id, nowMs);
      MemoryDown(c, Bump(c, Sweep(s.memory, Sec(nowMs) * 1000), current, Sec(nowMs) * 1000), up, j, nowMs);
      RedisUp(c, s.redis, s.tokens, k.id, nowMs);
      assert k.window <= Sec(nowMs) by {
        assert Sec(s.nowMs) <= Sec(nowMs);
      }
      RedisDown(c, RedisExpire(RedisAdd(s.redis, current, 1, nowMs), current, c.ttlSec, nowMs), up, j, nowMs);
    }
  }

  /** A counter outside the summed range may go down anywhere: memory clamps it, Redis goes negative. */
  lemma RenewAgrees(c: Config, s: State, id: string, origin: int, nowMs: nat)
    requires Inv(c, s) && Enabled(c, s, Renew(id, origin), nowMs)
    ensures var t := Next(c, s, Renew(id, origin), nowMs);
            MemoryInv(c, t.memory, t.tokens, nowMs) && RedisInv(c, t.redis, t.tokens, nowMs)
  {
    LaterMemory(c, s.memory, s.tokens, s.nowMs, nowMs);
    LaterRedis(c, s.redis, s.tokens, s.nowMs, nowMs);
    var current, k := Key(id, CurrentWindow(c, nowMs)), Key(id, origin);
    if k != current {
      SweepKeeps(c, s.memory, s.tokens, nowMs, Sec(nowMs) * 1000);
      MemoryUp(c, Sweep(s.memory, Sec(nowMs) * 1000), s.tokens, id, nowMs);
      MemoryDownOutside(c, Bump(c, Sweep(s.memory, Sec(nowMs) * 1000), current, Sec(nowMs) * 1000),
                        s.tokens + [current], k, nowMs);
      RedisUp(c, s.redis, s.tokens, id, nowMs);
      RedisDownOutside(c, RedisExpire(RedisAdd(s.redis, current, 1, nowMs), current, c.ttlSec, nowMs),
                       s.tokens + [current], k, nowMs);
    }
  }

  lemma MemoryDownOutside(c: Config, store: Memory, tokens: seq<Key>, k: Key, nowMs: nat)
    requires MemoryInv(c, store, tokens, nowMs) && !Active(c, k, nowMs)
    ensures MemoryInv(c, Drop(store, k), tokens, nowMs)
  {
  }

  lemma RedisDownOutside(c: Config, store: Redis, tokens: seq<Key>, k: Key, nowMs: nat)
    requires RedisInv(c, store, tokens, nowMs) && !Active(c, k, nowMs) && k.window <= Sec(nowMs)
    ensures RedisInv(c, RedisAdd(store, k, -1, nowMs), tokens, nowMs)
  {
    var down := RedisAdd(store, k, -1, nowMs);
    forall i | Active(c, i, nowMs)
      ensures RedisGet(down, i, nowMs) == multiset(tokens)[i]
    {
      assert RedisGet(down, i, nowMs) == RedisGet(store, i, nowMs);
    }
  }

  // ---- Runs ---------------------------------------------------------------------------------

  datatype Timed = Timed(op: Op, nowMs: nat)

  ghost predicate IsRun(c: Config, s: State, ops: seq<Timed>)
    requires c.Valid()
    decreases |ops|
  {
    ops == [] || (Enabled(c, s, ops[0].op, ops[0].nowMs) && IsRun(c, Next(c, s, ops[0].op, ops[0].nowMs), ops[1..]))
  }

  ghost function RunEnd(c: Config, s: State, ops: seq<Timed>): State
    requires c.Valid() && IsRun(c, s, ops)
    decreases |ops|
  {
    if ops == [] then s else RunEnd(c, Next(c, s, ops[0].op, ops[0].nowMs), ops[1..])
  }

  ghost function MemoryOutputs(c: Config, s: State, ops: seq<Timed>): seq<Output>
    requires c.Valid() && IsRun(c, s, ops)
    decreases |ops|
  {
    if ops == [] then []
    else [MemoryStep(c, s, ops[0].op, ops[0].nowMs).0] + MemoryOutputs(c, Next(c, s, ops[0].op, ops[0].nowMs), ops[1..])
  }

  ghost function RedisOutputs(c: Config, s: State, ops: seq<Timed>): seq<Output>
    requires c.Valid() && IsRun(c, s, ops)
    decreases |ops|
  {
    if ops == [] then []
    else [RedisStep(c, s, ops[0].op, ops[0].nowMs).0] + RedisOutputs(c, Next(c, s, ops[0].op, ops[0].nowMs), ops[1..])
  }

  /** Over every run the two limiters give the same answers, and each active counter is a token count. */
  lemma {:induction false} LimitersBisimilar(c: Config, s: State, ops: seq<Timed>)
    requires Inv(c, s) && IsRun(c, s, ops)
    ensures MemoryOutputs(c, s, ops) == RedisOutputs(c, s, ops)
    ensures Inv(c, RunEnd(c, s, ops))
    decreases |ops|
  {
    if ops != [] {
      StepAgrees(c, s, ops[0].op, ops[0].nowMs);
      LimitersBisimilar(c, Next(c, s, ops[0].op, ops[0].nowMs), ops[1..]);
    }
  }

  lemma FreshInv(c: Config)
    requires WellConfigured(c)
    ensures Inv(c, FRESH)
  {
  }
}
