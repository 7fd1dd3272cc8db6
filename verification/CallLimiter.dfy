/** The windowed concurrent-call limiter: its in-memory form and its Redis form. */
module CallLimiter {
  import opened Options

  datatype Config = Config(windowSec: nat, activeWindows: nat, ttlSec: nat) {
    predicate Valid() {
      windowSec > 0
    }
  }

  /** One counter: `limiter:{id}:{window}`. */
  datatype Key = Key(id: string, window: int)

  datatype Decision = Allowed(currentWindow: int) | Rejected

  function Sec(nowMs: nat): nat {
    nowMs / 1000
  }

  function CurrentWindow(c: Config, nowMs: nat): (w: nat)
    requires c.Valid()
    ensures Sec(nowMs) < w + c.windowSec && w <= Sec(nowMs)
  {
    Sec(nowMs) - Sec(nowMs) % c.windowSec
  }

  /** The current window is the multiple of the window length, in whole seconds, that the clock is in. */
  lemma CurrentWindowExact(c: Config, nowMs: nat, w: nat)
    requires c.Valid() && w % c.windowSec == 0
    ensures w == CurrentWindow(c, nowMs) <==> w * 1000 <= nowMs < (w + c.windowSec) * 1000
  {
    var cur := CurrentWindow(c, nowMs);
    var q := Sec(nowMs) / c.windowSec;
    assert cur == q * c.windowSec;
    assert w == w / c.windowSec * c.windowSec;
    if w <= Sec(nowMs) < w + c.windowSec {
      SameMultiple(w / c.windowSec, q, c.windowSec, Sec(nowMs));
    }
  }

  lemma MultipleGrows(a: nat, b: nat, m: nat)
    ensures a < b ==> a * m + m <= b * m
  {
    if a < b {
      assert b * m == (b - a - 1) * m + (a + 1) * m;
    }
  }

  lemma SameMultiple(a: nat, b: nat, m: nat, x: nat)
    requires a * m <= x < a * m + m && b * m <= x < b * m + m
    ensures a == b
  {
    MultipleGrows(a, b, m);
    MultipleGrows(b, a, m);
  }

  /** The i-th most recent window. */
  function Back(c: Config, id: string, window: int, i: nat): Key {
    Key(id, window - i * c.windowSec)
  }

  /** Sum of the `n` most recent windows, for any reading of a counter. */
  function Sum(c: Config, count: Key -> int, id: string, window: int, n: nat): int {
    if n == 0 then 0 else count(Back(c, id, window, n - 1)) + Sum(c, count, id, window, n - 1)
  }

  // ---- In-memory form -----------------------------------------------------------------------

  datatype Cell = Cell(count: nat, expiresAtMs: nat)

  type Memory = map<Key, Cell>

  function Sweep(store: Memory, nowMs: nat): Memory {
    map k | k in store && store[k].expiresAtMs > nowMs :: store[k]
  }

  function Count(store: Memory, k: Key): nat {
    if k in store then store[k].count else 0
  }

  function MemoryTotal(c: Config, store: Memory, id: string, window: int): int {
    Sum(c, k => Count(store, k), id, window, c.activeWindows)
  }

  function Bump(c: Config, store: Memory, k: Key, floorMs: nat): Memory {
    store[k := Cell(Count(store, k) + 1, floorMs + c.ttlSec * 1000)]
  }

  /** Clamped at zero; a missing counter is left missing. */
  function Drop(store: Memory, k: Key): Memory {
    if k in store then store[k := store[k].(count := if store[k].count > 0 then store[k].count - 1 else 0)] else store
  }

  function MemoryCheck(c: Config, store: Memory, id: string, limit: int, nowMs: nat): (Decision, Memory)
    requires c.Valid()
  {
    var ms := Sec(nowMs) * 1000;
    var swept := Sweep(store, ms);
    var window := CurrentWindow(c, nowMs);
    if MemoryTotal(c, swept, id, window) >= limit then (Rejected, swept)
    else (Allowed(window), Bump(c, swept, Key(id, window), ms))
  }

  function MemoryDecrement(store: Memory, k: Key, nowMs: nat): Memory {
    Drop(Sweep(store, nowMs), k)
  }

  /** Migration to the current window; current goes up before origin goes down. */
  function MemoryRefresh(c: Config, store: Memory, k: Key, nowMs: nat): Memory
    requires c.Valid()
  {
    var window := CurrentWindow(c, nowMs);
    if k.window == window then store
    else Drop(Bump(c, Sweep(store, Sec(nowMs) * 1000), Key(k.id, window), Sec(nowMs) * 1000), k)
  }

  class MemoryLimiter {
    const config: Config
    var store: Memory

    constructor (config: Config)
      ensures this.config == config && store == map[]
    {
      this.config := config;
      store := map[];
    }

    method SweepExpired(nowMs: nat)
      modifies this
      ensures store == Sweep(old(store), nowMs)
    {
      var expired: seq<Key> := [];
      var rest := store.Keys;
      while rest != {}
        invariant rest <= store.Keys && store == old(store)
        invariant forall k :: k in expired <==> k in store && k !in rest && store[k].expiresAtMs <= nowMs
        decreases |rest|
      {
        var k :| k in rest;
        if store[k].expiresAtMs <= nowMs {
          expired := expired + [k];
        }
        rest := rest - {k};
      }
      for i := 0 to |expired|
        invariant store == map k | k in old(store) && k !in expired[..i] :: old(store)[k]
      {
        assert forall k :: k in expired[..i + 1] <==> k in expired[..i] || k == expired[i];
        store := store - {expired[i]};
      }
      assert expired[..|expired|] == expired;
    }

    method CheckAndIncrement(id: string, limit: int, nowMs: nat) returns (decision: Decision)
      requires config.Valid()
      modifies this
      ensures (decision, store) == MemoryCheck(config, old(store), id, limit, nowMs)
    {
      var ms := Sec(nowMs) * 1000;
      var window := CurrentWindow(config, nowMs);
      SweepExpired(ms);
      var swept := store;
      ghost var count := k => Count(swept, k);
      var total := 0;
      for i := config.activeWindows downto 0
        invariant store == swept
        invariant total == Sum(config, count, id, window, config.activeWindows) - Sum(config, count, id, window, i)
      {
        var k := Back(config, id, window, i);
        if k in store {
          total := total + store[k].count;
        }
      }
      if total >= limit {
        return Rejected;
      }
      var k := Key(id, window);
      var newCount := 1;
      if k in store {
        newCount := store[k].count + 1;
      }
      store := store[k := Cell(newCount, ms + config.ttlSec * 1000)];
      return Allowed(window);
    }

    method Decrement(id: string, originWindow: int, nowMs: nat)
      modifies this
      ensures store == MemoryDecrement(old(store), Key(id, originWindow), nowMs)
    {
      SweepExpired(nowMs);
      Lower(Key(id, originWindow));
    }

    method Lower(k: Key)
      modifies this
      ensures store == Drop(old(store), k)
    {
      if k in store {
        var next := if store[k].count > 0 then store[k].count - 1 else 0;
        store := store[k := Cell(next, store[k].expiresAtMs)];
      }
    }

    method Refresh(id: string, originWindow: int, nowMs: nat) returns (window: int)
      requires config.Valid()
      modifies this
      ensures window == CurrentWindow(config, nowMs)
      ensures store == MemoryRefresh(config, old(store), Key(id, originWindow), nowMs)
    {
      var ms := Sec(nowMs) * 1000;
      window := CurrentWindow(config, nowMs);
      if originWindow == window {
        return;
      }
      SweepExpired(ms);
      var k := Key(id, window);
      var next := 1;
      if k in store {
        next := store[k].count + 1;
      }
      store := store[k := Cell(next, ms + config.ttlSec * 1000)];
      Lower(Key(id, originWindow));
    }
  }

  // ---- Redis form ---------------------------------------------------------------------------

  /** A Redis integer key: it may go negative, and has no expiry until EXPIRE gives it one. */
  datatype RedisCell = RedisCell(count: int, expiresAtMs: Option<nat>)

  type Redis = map<Key, RedisCell>

  predicate RedisLive(store: Redis, k: Key, nowMs: nat) {
    k in store && (store[k].expiresAtMs.Some? ==> store[k].expiresAtMs.value > nowMs)
  }

  function RedisGet(store: Redis, k: Key, nowMs: nat): int {
    if RedisLive(store, k, nowMs) then store[k].count else 0
  }

  /** INCR / DECR: a missing or expired key starts from 0 without an expiry. */
  function RedisAdd(store: Redis, k: Key, delta: int, nowMs: nat): Redis {
    if RedisLive(store, k, nowMs) then store[k := store[k].(count := store[k].count + delta)]
    else store[k := RedisCell(delta, None)]
  }

  function RedisExpire(store: Redis, k: Key, ttlSec: nat, nowMs: nat): Redis {
    if RedisLive(store, k, nowMs) then store[k := store[k].(expiresAtMs := Some(nowMs + ttlSec * 1000))] else store
  }

  function RedisTotal(c: Config, store: Redis, id: string, window: int, nowMs: nat): int {
    Sum(c, k => RedisGet(store, k, nowMs), id, window, c.activeWindows)
  }

  function RedisCheck(c: Config, store: Redis, id: string, limit: int, nowMs: nat): (Decision, Redis)
    requires c.Valid()
  {
    var window := CurrentWindow(c, nowMs);
    if RedisTotal(c, store, id, window, nowMs) >= limit then (Rejected, store)
    else (Allowed(window), RedisExpire(RedisAdd(store, Key(id, window), 1, nowMs), Key(id, window), c.ttlSec, nowMs))
  }

  function RedisDecrement(store: Redis, k: Key, nowMs: nat): Redis {
    RedisAdd(store, k, -1, nowMs)
  }

  function RedisRefresh(c: Config, store: Redis, k: Key, nowMs: nat): Redis
    requires c.Valid()
  {
    var window := CurrentWindow(c, nowMs);
    if k.window == window then store
    else RedisAdd(RedisExpire(RedisAdd(store, Key(k.id, window), 1, nowMs), Key(k.id, window), c.ttlSec, nowMs), k,
                  -1, nowMs)
  }

  class RedisLimiter {
    const config: Config
    var store: Redis

    constructor (config: Config)
      ensures this.config == config && store == map[]
    {
      this.config := config;
      store := map[];
    }

    method Add(k: Key, delta: int, nowMs: nat)
      modifies this
      ensures store == RedisAdd(old(store), k, delta, nowMs)
    {
      if RedisLive(store, k, nowMs) {
        store := store[k := store[k].(count := store[k].count + delta)];
      } else {
        store := store[k := RedisCell(delta, None)];
      }
    }

    method Expire(k: Key, nowMs: nat)
      modifies this
      ensures store == RedisExpire(old(store), k, config.ttlSec, nowMs)
    {
      if RedisLive(store, k, nowMs) {
        store := store[k := store[k].(expiresAtMs := Some(nowMs + config.ttlSec * 1000))];
      }
    }

    /** The window keys to sum, oldest first, the current window last. */
    method WindowKeysFor(id: string, window: int) returns (keys: seq<Key>)
      ensures |keys| == config.activeWindows
      ensures forall j :: 0 <= j < |keys| ==> keys[j] == Back(config, id, window, config.activeWindows - 1 - j)
    {
      keys := [];
      for i := config.activeWindows downto 0
        invariant |keys| == config.activeWindows - i
        invariant forall j :: 0 <= j < |keys| ==> keys[j] == Back(config, id, window, config.activeWindows - 1 - j)
      {
        keys := keys + [Back(config, id, window, i)];
      }
    }

    /** The script increments its last key: with no active window there is none. */
    method CheckAndIncrement(id: string, limit: int, nowMs: nat) returns (decision: Decision)
      requires config.Valid() && config.activeWindows > 0
      modifies this
      ensures (decision, store) == RedisCheck(config, old(store), id, limit, nowMs)
    {
      var window := CurrentWindow(config, nowMs);
      var keys := WindowKeysFor(id, window);
      var before := store;
      ghost var count := k => RedisGet(before, k, nowMs);
      var total := 0;
      for i := 0 to |keys|
        invariant store == before
        invariant total == Sum(config, count, id, window, config.activeWindows)
                         - Sum(config, count, id, window, config.activeWindows - i)
      {
        total := total + RedisGet(store, keys[i], nowMs);
      }
      if total >= limit {
        return Rejected;
      }
      var current := keys[|keys| - 1];
      assert current == Key(id, window);
      Add(current, 1, nowMs);
      Expire(current, nowMs);
      return Allowed(window);
    }

    method Decrement(id: string, originWindow: int, nowMs: nat)
      modifies this
      ensures store == RedisDecrement(old(store), Key(id, originWindow), nowMs)
    {
      Add(Key(id, originWindow), -1, nowMs);
    }

    method Refresh(id: string, originWindow: int, nowMs: nat) returns (window: int)
      requires config.Valid()
      modifies this
      ensures window == CurrentWindow(config, nowMs)
      ensures store == RedisRefresh(config, old(store), Key(id, originWindow), nowMs)
    {
      window := CurrentWindow(config, nowMs);
      if originWindow == window {
        return;
      }
      Add(Key(id, window), 1, nowMs);
      Expire(Key(id, window), nowMs);
      Add(Key(id, originWindow), -1, nowMs);
    }
  }
}
