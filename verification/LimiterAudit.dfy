/** The counter-back-to-zero ledger folded from recorded limiter events. */
module LimiterAudit {
  import opened Options
  import opened CallLimiter

  /** A `None` answer is a call that failed or was interrupted. */
  datatype Event =
    | CheckResult(id: string, decision: Option<Decision>)
    | DecrementResult(id: string, originWindow: int, ok: bool)
    | RefreshResult(id: string, originWindow: int, newWindow: Option<int>)

  datatype Finding =
    | NotBackToZero(key: Key, delta: int)
    | OrphanDecrements(id: string, decrements: int, admissions: int)

  function At(here: Key, k: Key): int {
    if here == k then 1 else 0
  }

  function Admits(e: Event): bool {
    e.CheckResult? && e.decision.Some? && e.decision.value.Allowed?
  }

  function Releases(e: Event): bool {
    e.DecrementResult? && e.ok
  }

  function Migrates(e: Event): bool {
    e.RefreshResult? && e.newWindow.Some? && e.originWindow != e.newWindow.value
  }

  function Effect(e: Event, k: Key): int {
    if Admits(e) then At(Key(e.id, e.decision.value.currentWindow), k)
    else if Releases(e) then -At(Key(e.id, e.originWindow), k)
    else if Migrates(e) then At(Key(e.id, e.newWindow.value), k) - At(Key(e.id, e.originWindow), k)
    else 0
  }

  /** Net change of one counter over the recorded events. */
  function Delta(events: seq<Event>, k: Key): int {
    if events == [] then 0 else Delta(events[..|events| - 1], k) + Effect(events[|events| - 1], k)
  }

  ghost predicate Balanced(events: seq<Event>) {
    forall k :: Delta(events, k) == 0
  }

  function Admissions(events: seq<Event>, id: string): nat {
    if events == [] then 0
    else
      var last := events[|events| - 1];
      Admissions(events[..|events| - 1], id) + if Admits(last) && last.id == id then 1 else 0
  }

  function Decrements(events: seq<Event>, id: string): nat {
    if events == [] then 0
    else
      var last := events[|events| - 1];
      Decrements(events[..|events| - 1], id) + if Releases(last) && last.id == id then 1 else 0
  }

  lemma {:induction false} DeltaConcat(a: seq<Event>, b: seq<Event>, k: Key)
    ensures Delta(a + b, k) == Delta(a, k) + Delta(b, k)
  {
    if b == [] {
      assert a + b == a;
    } else {
      assert (a + b)[..|a + b| - 1] == a + b[..|b| - 1];
      DeltaConcat(a, b[..|b| - 1], k);
    }
  }

  // ---- The audit ----------------------------------------------------------------------------

  /** Numbers under keys, walked in the order the keys first appeared. */
  class Tally<K(==,!new)> {
    var order: seq<K>
    var count: map<K, int>

    ghost predicate Valid()
      reads this
    {
      && (forall k :: k in order <==> k in count)
      && (forall i, j :: 0 <= i < j < |order| ==> order[i] != order[j])
    }

    function Get(k: K): int
      reads this
    {
      if k in count then count[k] else 0
    }

    constructor ()
      ensures Valid() && count == map[]
    {
      order, count := [], map[];
    }

    method Add(k: K, amount: int)
      requires Valid()
      modifies this
      ensures Valid()
      ensures count == old(count)[k := old(Get(k)) + amount]
    {
      if k !in count {
        order := order + [k];
      }
      count := count[k := Get(k) + amount];
    }
  }

  predicate IsLedgerFinding(skip: string -> bool, events: seq<Event>, f: Finding) {
    f.NotBackToZero? && !skip(f.key.id) && f.delta == Delta(events, f.key) != 0
  }

  predicate IsOrphanFinding(skip: string -> bool, events: seq<Event>, f: Finding) {
    && f.OrphanDecrements? && !skip(f.id)
    && f.decrements == Decrements(events, f.id) && f.admissions == Admissions(events, f.id)
    && f.decrements > f.admissions
  }

  ghost predicate Silent(skip: string -> bool, events: seq<Event>) {
    forall f :: !IsLedgerFinding(skip, events, f) && !IsOrphanFinding(skip, events, f)
  }

  predicate NoRepeats<T(==)>(s: seq<T>) {
    forall i, j :: 0 <= i < j < |s| ==> s[i] != s[j]
  }

  lemma Disjoin<T>(a: seq<T>, b: seq<T>)
    requires NoRepeats(a) && NoRepeats(b)
    requires forall x :: x in a ==> x !in b
    ensures NoRepeats(a + b)
  {
    forall i, j | 0 <= i < j < |a + b|
      ensures (a + b)[i] != (a + b)[j]
    {
      if i < |a| <= j {
        assert a[i] in a && b[j - |a|] in b;
      }
    }
  }

  method FoldEvent(ledger: Tally<Key>, admissions: Tally<string>, decrements: Tally<string>, e: Event)
    requires ledger.Valid() && admissions.Valid() && decrements.Valid()
    requires admissions != decrements
    modifies ledger, admissions, decrements
    ensures ledger.Valid() && admissions.Valid() && decrements.Valid()
    ensures forall k :: ledger.Get(k) == old(ledger.Get(k)) + Effect(e, k)
    ensures forall id :: admissions.Get(id) == old(admissions.Get(id)) + if Admits(e) && e.id == id then 1 else 0
    ensures forall id :: decrements.Get(id) == old(decrements.Get(id)) + if Releases(e) && e.id == id then 1 else 0
  {
    match e
    case CheckResult(id, Some(Allowed(window))) =>
      ledger.Add(Key(id, window), 1);
      admissions.Add(id, 1);
    case CheckResult(_, _) =>
    case DecrementResult(id, origin, ok) =>
      if ok {
        ledger.Add(Key(id, origin), -1);
        decrements.Add(id, 1);
      }
    case RefreshResult(id, origin, Some(window)) =>
      if origin != window {
        ledger.Add(Key(id, origin), -1);
        ledger.Add(Key(id, window), 1);
      }
    case RefreshResult(_, _, None) =>
  }

  method LedgerFindings(skip: string -> bool, ghost events: seq<Event>, ledger: Tally<Key>)
    returns (found: seq<Finding>)
    requires ledger.Valid() && forall k :: ledger.Get(k) == Delta(events, k)
    ensures forall f :: f in found <==> IsLedgerFinding(skip, events, f)
    ensures NoRepeats(found)
  {
    found := [];
    for i := 0 to |ledger.order|
      invariant forall f :: f in found <==>
                  (f.NotBackToZero? && f.key in ledger.order[..i] && IsLedgerFinding(skip, events, f))
      invariant NoRepeats(found)
    {
      var k := ledger.order[i];
      assert ledger.order[..i + 1] == ledger.order[..i] + [k];
      if ledger.count[k] != 0 && !skip(k.id) {
        assert forall f :: f in found ==> f.key != k;
        found := found + [NotBackToZero(k, ledger.count[k])];
      }
    }
    assert ledger.order[..|ledger.order|] == ledger.order;
  }

  method OrphanFindings(skip: string -> bool, ghost events: seq<Event>, admissions: Tally<string>,
                        decrements: Tally<string>)
    returns (found: seq<Finding>)
    requires admissions.Valid() && decrements.Valid()
    requires forall id :: admissions.Get(id) == Admissions(events, id)
    requires forall id :: decrements.Get(id) == Decrements(events, id)
    ensures forall f :: f in found <==> IsOrphanFinding(skip, events, f)
    ensures NoRepeats(found)
  {
    found := [];
    for i := 0 to |decrements.order|
      invariant forall f :: f in found <==>
                  (f.OrphanDecrements? && f.id in decrements.order[..i] && IsOrphanFinding(skip, events, f))
      invariant NoRepeats(found)
    {
      var id := decrements.order[i];
      assert decrements.order[..i + 1] == decrements.order[..i] + [id];
      var admits := admissions.Get(id);
      if decrements.count[id] > admits && !skip(id) {
        assert forall f :: f in found ==> f.id != id;
        found := found + [OrphanDecrements(id, decrements.count[id], admits)];
      }
    }
    assert decrements.order[..|decrements.order|] == decrements.order;
  }

  /** Each counter away from zero and each limiter released too often is reported once, and nothing else is. */
  method RunAudit(backToZero: bool, noOrphan: bool, skip: string -> bool, events: seq<Event>)
    returns (found: seq<Finding>)
    ensures forall f :: f in found <==>
              ((backToZero && IsLedgerFinding(skip, events, f)) || (noOrphan && IsOrphanFinding(skip, events, f)))
    ensures NoRepeats(found)
  {
    var ledger := new Tally<Key>();
    var admissions := new Tally<string>();
    var decrements := new Tally<string>();
    for i := 0 to |events|
      invariant ledger.Valid() && admissions.Valid() && decrements.Valid()
      invariant fresh(ledger) && fresh(admissions) && fresh(decrements) && admissions != decrements
      invariant forall k :: ledger.Get(k) == Delta(events[..i], k)
      invariant forall id :: admissions.Get(id) == Admissions(events[..i], id)
      invariant forall id :: decrements.Get(id) == Decrements(events[..i], id)
    {
      assert events[..i + 1][..i] == events[..i];
      FoldEvent(ledger, admissions, decrements, events[i]);
    }
    assert events[..|events|] == events;
    found := [];
    if backToZero {
      found := LedgerFindings(skip, events, ledger);
    }
    if noOrphan {
      var orphans := OrphanFindings(skip, events, admissions, decrements);
      assert forall f :: f in found ==> f.NotBackToZero?;
      assert forall f :: f in orphans ==> f.OrphanDecrements?;
      Disjoin(found, orphans);
      found := found + orphans;
    }
  }
}

/** The ledger over whole limiter runs. */
module LimiterLedger {
  import opened Options
  import opened CallLimiter
  import opened LimiterRuns
  import opened LimiterAudit
  import opened LimiterLimit

  /** A caller's operation, which either completes or fails without touching the store. */
  datatype Recorded = Completed(timed: Timed) | Lost(event: Event)

  predicate SaysNothing(e: Event) {
    !Admits(e) && !LimiterAudit.Releases(e) && !Migrates(e)
  }

  function EventOf(c: Config, s: State, t: Timed): Event
    requires c.Valid() && Enabled(c, s, t.op, t.nowMs)
  {
    match t.op
    case Check(id, limit) => CheckResult(id, Some(MemoryCheck(c, s.memory, id, limit, t.nowMs).0))
    case Release(j) => DecrementResult(s.tokens[j].id, s.tokens[j].window, true)
    case Refresh(j) => RefreshResult(s.tokens[j].id, s.tokens[j].window, Some(CurrentWindow(c, t.nowMs)))
    case Renew(id, origin) => RefreshResult(id, origin, Some(CurrentWindow(c, t.nowMs)))
  }

  ghost predicate IsHistory(c: Config, s: State, history: seq<Recorded>)
    requires c.Valid()
    decreases |history|
  {
    history == [] ||
    match history[0]
    case Completed(t) => Enabled(c, s, t.op, t.nowMs) && IsHistory(c, Next(c, s, t.op, t.nowMs), history[1..])
    case Lost(e) => SaysNothing(e) && IsHistory(c, s, history[1..])
  }

  ghost function End(c: Config, s: State, history: seq<Recorded>): State
    requires c.Valid() && IsHistory(c, s, history)
    decreases |history|
  {
    if history == [] then s
    else
      match history[0]
      case Completed(t) => End(c, Next(c, s, t.op, t.nowMs), history[1..])
      case Lost(_) => End(c, s, history[1..])
  }

  ghost function Events(c: Config, s: State, history: seq<Recorded>): seq<Event>
    requires c.Valid() && IsHistory(c, s, history)
    decreases |history|
  {
    if history == [] then []
    else
      match history[0]
      case Completed(t) => [EventOf(c, s, t)] + Events(c, Next(c, s, t.op, t.nowMs), history[1..])
      case Lost(e) => [e] + Events(c, s, history[1..])
  }

  /** Counters that renewals took down without holding a slot there. */
  ghost function Borrowed(c: Config, s: State, history: seq<Recorded>): seq<Key>
    requires c.Valid() && IsHistory(c, s, history)
    decreases |history|
  {
    if history == [] then []
    else
      match history[0]
      case Completed(t) => BorrowedBy(c, t) + Borrowed(c, Next(c, s, t.op, t.nowMs), history[1..])
      case Lost(_) => Borrowed(c, s, history[1..])
  }

  function BorrowedBy(c: Config, t: Timed): seq<Key>
    requires c.Valid()
  {
    if t.op.Renew? && t.op.origin != CurrentWindow(c, t.nowMs) then [Key(t.op.id, t.op.origin)] else []
  }

  lemma DeltaOfOne(e: Event, k: Key)
    ensures Delta([e], k) == Effect(e, k)
  {
    assert [e][..0] == [];
  }

  function Held(tokens: seq<Key>, k: Key): int {
    multiset(tokens)[k]
  }

  lemma HeldWithout(tokens: seq<Key>, j: nat, k: Key)
    requires j < |tokens|
    ensures Held(Without(tokens, j), k) == Held(tokens, k) - At(tokens[j], k)
  {
    WithoutMultiset(tokens, j);
    assert tokens[j] in multiset(tokens);
  }

  lemma HeldReplaced(tokens: seq<Key>, j: nat, moved: Key, k: Key)
    requires j < |tokens|
    ensures Held(tokens[j := moved], k) == Held(tokens, k) - At(tokens[j], k) + At(moved, k)
  {
    var next := tokens[j := moved];
    assert Without(next, j) == Without(tokens, j);
    HeldWithout(tokens, j, k);
    HeldWithout(next, j, k);
  }

  lemma StepRecorded(c: Config, s: State, t: Timed, k: Key)
    requires c.Valid() && Enabled(c, s, t.op, t.nowMs)
    ensures Held(Next(c, s, t.op, t.nowMs).tokens, k)
         == Held(s.tokens, k) + Effect(EventOf(c, s, t), k) + Held(BorrowedBy(c, t), k)
  {
    match t.op
    case Check(id, limit) =>
      CheckRecorded(c, s, id, limit, t.nowMs, k);
    case Release(j) =>
      MovesRecorded(c, s.tokens, t, k);
    case Refresh(j) =>
      MovesRecorded(c, s.tokens, t, k);
    case Renew(id, origin) =>
      MovesRecorded(c, s.tokens, t, k);
  }

  /** What a release, refresh or renewal does to the tokens is what its event says. */
  lemma MovesRecorded(c: Config, tokens: seq<Key>, t: Timed, k: Key)
    requires c.Valid() && !t.op.Check? && (t.op.Release? || t.op.Refresh? ==> t.op.token < |tokens|)
    ensures var current := CurrentWindow(c, t.nowMs);
            Held(TokensAfter(c, tokens, t.op, Rejected, t.nowMs), k) == Held(tokens, k) + Held(BorrowedBy(c, t), k)
            + match t.op
              case Check(_, _) => 0
              case Release(j) => -At(tokens[j], k)
              case Refresh(j) => if tokens[j].window == current then 0
                  else At(Key(tokens[j].id, current), k) - At(tokens[j], k)
              case Renew(id, origin) => if origin == current then 0
                  else At(Key(id, current), k) - At(Key(id, origin), k)
  {
    match t.op
    case Release(j) =>
      HeldWithout(tokens, j, k);
      assert tokens[..j] + tokens[j + 1..] == Without(tokens, j);
    case Refresh(j) =>
      HeldReplaced(tokens, j, Key(tokens[j].id, CurrentWindow(c, t.nowMs)), k);
    case Renew(id, origin) =>
      HeldMore(tokens, Key(id, CurrentWindow(c, t.nowMs)), k);
      HeldMore([], Key(id, origin), k);
      assert [] + [Key(id, origin)] == [Key(id, origin)];
  }

  lemma HeldConcat(a: seq<Key>, b: seq<Key>, k: Key)
    ensures Held(a + b, k) == Held(a, k) + Held(b, k)
  {
  }

  lemma HeldMore(tokens: seq<Key>, taken: Key, k: Key)
    ensures Held(tokens + [taken], k) == Held(tokens, k) + At(taken, k)
  {
  }

  lemma CheckRecorded(c: Config, s: State, id: string, limit: int, nowMs: nat, k: Key)
    requires c.Valid() && s.nowMs <= nowMs
    ensures var t := Timed(Check(id, limit), nowMs);
            Held(Next(c, s, t.op, nowMs).tokens, k) == Held(s.tokens, k) + Effect(EventOf(c, s, t), k)
  {
    var decision := MemoryCheck(c, s.memory, id, limit, nowMs).0;
    if decision.Allowed? {
      HeldMore(s.tokens, Key(id, decision.currentWindow), k);
    }
  }

  /** The ledger of a run is exactly the change in live tokens, less what was borrowed, counter by counter. */
  lemma {:induction false} LedgerCountsTokens(c: Config, s: State, history: seq<Recorded>, k: Key)
    requires c.Valid() && IsHistory(c, s, history)
    ensures Delta(Events(c, s, history), k)
         == Held(End(c, s, history).tokens, k) - Held(s.tokens, k) - Held(Borrowed(c, s, history), k)
    decreases |history|
  {
    if history != [] {
      var e := Events(c, s, history)[0];
      DeltaConcat([e], Events(c, s, history)[1..], k);
      DeltaOfOne(e, k);
      match history[0] {
        case Completed(t) =>
          StepRecorded(c, s, t, k);
          HeldConcat(BorrowedBy(c, t), Borrowed(c, Next(c, s, t.op, t.nowMs), history[1..]), k);
          LedgerCountsTokens(c, Next(c, s, t.op, t.nowMs), history[1..], k);
        case Lost(_) =>
          LedgerCountsTokens(c, s, history[1..], k);
      }
    }
  }

  /**
   * From a fresh limiter the ledger is back to zero everywhere exactly when every admission was
   * released and no renewal borrowed, or what is held is just what was borrowed.
   */
  lemma BackToZeroExact(c: Config, history: seq<Recorded>)
    requires c.Valid() && IsHistory(c, FRESH, history)
    ensures Balanced(Events(c, FRESH, history))
       <==> multiset(End(c, FRESH, history).tokens) == multiset(Borrowed(c, FRESH, history))
  {
    var events, borrowed := Events(c, FRESH, history), Borrowed(c, FRESH, history);
    var tokens := End(c, FRESH, history).tokens;
    forall k
      ensures Delta(events, k) == Held(tokens, k) - Held(borrowed, k)
    {
      LedgerCountsTokens(c, FRESH, history, k);
    }
    if Balanced(events) {
      forall k
        ensures multiset(tokens)[k] == multiset(borrowed)[k]
      {
        assert Delta(events, k) == 0;
      }
    }
  }

  /** Without renewals that is: exactly when every admission was released. */
  lemma BackToZeroWithoutRenewals(c: Config, history: seq<Recorded>)
    requires c.Valid() && IsHistory(c, FRESH, history) && Borrowed(c, FRESH, history) == []
    ensures Balanced(Events(c, FRESH, history)) <==> End(c, FRESH, history).tokens == []
  {
    BackToZeroExact(c, history);
    var tokens := End(c, FRESH, history).tokens;
    if tokens != [] {
      assert tokens[0] in multiset(tokens);
    }
  }

  /** Between two counts the difference of admissions and releases of one limiter is its live tokens. */
  lemma {:induction false} TotalsConcat(a: seq<Event>, b: seq<Event>, id: string)
    ensures Admissions(a + b, id) == Admissions(a, id) + Admissions(b, id)
    ensures Decrements(a + b, id) == Decrements(a, id) + Decrements(b, id)
  {
    if b == [] {
      assert a + b == a;
    } else {
      assert (a + b)[..|a + b| - 1] == a + b[..|b| - 1];
      TotalsConcat(a, b[..|b| - 1], id);
    }
  }

  lemma LiveOne(k: Key, id: string)
    ensures Live([k], id) == if k.id == id then 1 else 0
  {
    assert [k][..0] == [];
  }

  lemma StepLive(c: Config, s: State, t: Timed, id: string)
    requires c.Valid() && Enabled(c, s, t.op, t.nowMs)
    ensures var e := EventOf(c, s, t);
            Live(Next(c, s, t.op, t.nowMs).tokens, id)
            == Live(s.tokens, id) + Admissions([e], id) - Decrements([e], id) + Live(BorrowedBy(c, t), id)
  {
    var e := EventOf(c, s, t);
    assert [e][..0] == [];
    if !t.op.Check? {
      MovesLive(c, s.tokens, t, id);
    }
  }

  lemma MovesLive(c: Config, tokens: seq<Key>, t: Timed, id: string)
    requires c.Valid() && !t.op.Check? && (t.op.Release? || t.op.Refresh? ==> t.op.token < |tokens|)
    ensures Live(TokensAfter(c, tokens, t.op, Rejected, t.nowMs), id)
         == Live(tokens, id) + Live(BorrowedBy(c, t), id)
            - if t.op.Release? && tokens[t.op.token].id == id then 1 else 0
  {
    match t.op
    case Release(j) =>
      SplitLive(tokens, j, id);
      LiveAppend(tokens[..j], tokens[j + 1..], id);
    case Refresh(j) =>
      var next := tokens[j := Key(tokens[j].id, CurrentWindow(c, t.nowMs))];
      SplitLive(tokens, j, id);
      SplitLive(next, j, id);
      assert next[..j] == tokens[..j] && next[j + 1..] == tokens[j + 1..];
    case Renew(renewed, origin) =>
      LiveOne(Key(renewed, origin), id);
      LiveOne(Key(renewed, CurrentWindow(c, t.nowMs)), id);
      LiveAppend(tokens, [Key(renewed, CurrentWindow(c, t.nowMs))], id);
  }

  lemma SplitLive(tokens: seq<Key>, j: nat, id: string)
    requires j < |tokens|
    ensures Live(tokens, id) == Live(tokens[..j], id) + Live(tokens[j + 1..], id) + if tokens[j].id == id then 1 else 0
  {
    assert tokens == tokens[..j] + ([tokens[j]] + tokens[j + 1..]);
    LiveAppend(tokens[..j], [tokens[j]] + tokens[j + 1..], id);
    LiveAppend([tokens[j]], tokens[j + 1..], id);
    LiveOne(tokens[j], id);
  }

  /** A limiter's admissions and borrowings, less its releases, are its live tokens. */
  lemma {:induction false} NoOrphanDecrements(c: Config, s: State, history: seq<Recorded>, id: string)
    requires c.Valid() && IsHistory(c, s, history)
    ensures Live(s.tokens, id) + Admissions(Events(c, s, history), id) + Live(Borrowed(c, s, history), id)
         == Live(End(c, s, history).tokens, id) + Decrements(Events(c, s, history), id)
    decreases |history|
  {
    if history != [] {
      var e := Events(c, s, history)[0];
      TotalsConcat([e], Events(c, s, history)[1..], id);
      assert [e][..0] == [];
      match history[0] {
        case Completed(t) =>
          StepLive(c, s, t, id);
          LiveAppend(BorrowedBy(c, t), Borrowed(c, Next(c, s, t.op, t.nowMs), history[1..]), id);
          NoOrphanDecrements(c, Next(c, s, t.op, t.nowMs), history[1..], id);
        case Lost(_) =>
          NoOrphanDecrements(c, s, history[1..], id);
      }
    }
  }

  lemma {:induction false} NoneLive(tokens: seq<Key>, id: string)
    requires forall k :: k in tokens ==> k.id != id
    ensures Live(tokens, id) == 0
  {
    if tokens != [] {
      NoneLive(tokens[..|tokens| - 1], id);
    }
  }

  /** The live tokens of a limiter are determined by its counters. */
  lemma {:induction false} SameHeldSameLive(a: seq<Key>, b: seq<Key>, id: string)
    requires forall k: Key :: k.id == id ==> Held(a, k) == Held(b, k)
    ensures Live(a, id) == Live(b, id)
    decreases |a|
  {
    if i: nat :| i < |a| && a[i].id == id {
      assert a[i] in multiset(a) && Held(a, a[i]) == Held(b, a[i]);
      assert a[i] in multiset(b);
      var j: nat :| j < |b| && b[j] == a[i];
      forall k: Key | k.id == id
        ensures Held(Without(a, i), k) == Held(Without(b, j), k)
      {
        HeldWithout(a, i, k);
        HeldWithout(b, j, k);
      }
      SameHeldSameLive(Without(a, i), Without(b, j), id);
      SplitLive(a, i, id);
      SplitLive(b, j, id);
      LiveAppend(a[..i], a[i + 1..], id);
      LiveAppend(b[..j], b[j + 1..], id);
    } else {
      NoneLive(a, id);
      forall k | k in b
        ensures k.id != id
      {
        assert k in multiset(b);
        assert k.id == id ==> Held(a, k) == Held(b, k) > 0;
        assert k.id == id ==> k in multiset(a);
      }
      NoneLive(b, id);
    }
  }

  /**
   * The whole audit: over any run from fresh it is silent exactly when every unskipped counter holds
   * just what was borrowed.
   */
  lemma AuditSilentExact(c: Config, history: seq<Recorded>, skip: string -> bool)
    requires c.Valid() && IsHistory(c, FRESH, history)
    ensures Silent(skip, Events(c, FRESH, history))
       <==> forall k: Key :: !skip(k.id) ==>
           Held(End(c, FRESH, history).tokens, k) == Held(Borrowed(c, FRESH, history), k)
  {
    var events, borrowed := Events(c, FRESH, history), Borrowed(c, FRESH, history);
    var tokens := End(c, FRESH, history).tokens;
    forall k
      ensures Delta(events, k) == Held(tokens, k) - Held(borrowed, k)
    {
      LedgerCountsTokens(c, FRESH, history, k);
    }
    if Silent(skip, events) {
      forall k: Key | !skip(k.id)
        ensures Held(tokens, k) == Held(borrowed, k)
      {
        assert !IsLedgerFinding(skip, events, NotBackToZero(k, Delta(events, k)));
      }
    }
    if forall k: Key :: !skip(k.id) ==> Held(tokens, k) == Held(borrowed, k) {
      forall f
        ensures !IsLedgerFinding(skip, events, f) && !IsOrphanFinding(skip, events, f)
      {
        if f.OrphanDecrements? && !skip(f.id) {
          NoOrphanDecrements(c, FRESH, history, f.id);
          SameHeldSameLive(tokens, borrowed, f.id);
        }
      }
    }
  }

  /** Without renewals: exactly when nothing unskipped is still held. */
  lemma AuditSilentWithoutRenewals(c: Config, history: seq<Recorded>, skip: string -> bool)
    requires c.Valid() && IsHistory(c, FRESH, history) && Borrowed(c, FRESH, history) == []
    ensures Silent(skip, Events(c, FRESH, history)) <==> forall k :: k in End(c, FRESH, history).tokens ==> skip(k.id)
  {
    AuditSilentExact(c, history, skip);
    var tokens := End(c, FRESH, history).tokens;
    assert forall k :: k in tokens <==> Held(tokens, k) > 0 by {
      assert forall k :: k in tokens <==> k in multiset(tokens);
    }
  }
}

/** What one call does to the limiter from admission to teardown. */
module CallAdmission {
  import opened Options
  import opened CallLimiter
  import opened LimiterAudit
  import opened CallModel
  import Cleanup

  /** What the limiter answers to each limiter the route names: `None` is a backend failure. */
  datatype Ask = Ask(id: string, answer: Option<Decision>)

  predicate Turned(a: Ask) {
    a.answer == Some(Rejected)
  }

  /** Admission without a counter is recorded at window 0. */
  function Recorded(a: Ask): LimiterEntry
    requires !Turned(a)
  {
    if a.answer.None? then LimiterEntry(a.id, 0, Some(false))
        else LimiterEntry(a.id, a.answer.value.currentWindow, Some(true))
  }

  /** Entries acquired up to the first rejection. */
  function Acquired(asks: seq<Ask>): seq<LimiterEntry> {
    if asks == [] || Turned(asks[0]) then [] else [Recorded(asks[0])] + Acquired(asks[1..])
  }

  function AcquireEvents(asks: seq<Ask>): seq<Event> {
    if asks == [] then []
    else
      [CheckResult(asks[0].id, asks[0].answer)]
      + if Turned(asks[0]) then [] else AcquireEvents(asks[1..])
  }

  method Acquire(asks: seq<Ask>) returns (entries: seq<LimiterEntry>, rejected: bool)
    ensures entries == Acquired(asks)
    ensures rejected <==> exists i :: 0 <= i < |asks| && Turned(asks[i])
  {
    entries, rejected := [], false;
    for i := 0 to |asks|
      invariant entries + Acquired(asks[i..]) == Acquired(asks)
      invariant forall j :: 0 <= j < i ==> !Turned(asks[j])
    {
      assert asks[i..][1..] == asks[i + 1..];
      match asks[i].answer {
        case Some(Rejected) =>
          return entries, true;
        case Some(Allowed(window)) =>
          entries := entries + [LimiterEntry(asks[i].id, window, Some(true))];
        case None =>
          entries := entries + [LimiterEntry(asks[i].id, 0, Some(false))];
      }
    }
  }

  /** A refresh tick asks for every entry, fail-open ones included; a failed refresh keeps the window. */
  function Refreshed(entries: seq<LimiterEntry>, answers: seq<Option<int>>): (r: seq<LimiterEntry>)
    requires |entries| == |answers|
    ensures |r| == |entries|
  {
    seq(|entries|, i requires 0 <= i < |entries| =>
      entries[i].(originWindow := if answers[i].Some? then answers[i].value else entries[i].originWindow))
  }

  function RefreshEvents(entries: seq<LimiterEntry>, answers: seq<Option<int>>): (r: seq<Event>)
    requires |entries| == |answers|
    ensures |r| == |entries|
  {
    seq(|entries|,
        i requires 0 <= i < |entries| => RefreshResult(entries[i].limiterId, entries[i].originWindow, answers[i]))
  }

  method RefreshAll(entries: seq<LimiterEntry>, answers: seq<Option<int>>) returns (refreshed: seq<LimiterEntry>)
    requires |entries| == |answers|
    ensures refreshed == Refreshed(entries, answers)
  {
    refreshed := entries;
    for i := 0 to |entries|
      invariant |refreshed| == |entries|
      invariant refreshed[..i] == Refreshed(entries, answers)[..i] && refreshed[i..] == entries[i..]
    {
      var window := if answers[i].Some? then answers[i].value else refreshed[i].originWindow;
      refreshed := refreshed[i := refreshed[i].(originWindow := window)];
    }
  }

  function ReleaseEvent(e: Cleanup.SoftEffect): Event {
    DecrementResult(e.limiterId, e.window, true)
  }

  /** The rules' cleanup releases every entry but the fail-open ones, each at its own window. */
  function TeardownEvents(entries: seq<LimiterEntry>): seq<Event> {
    Cleanup.Map(Cleanup.Decrements(entries), ReleaseEvent)
  }

  // ---- What a call's ledger adds up to ------------------------------------------------------

  /** The ledger of one live entry: its token, or the drift of a fail-open entry away from window 0. */
  function Share(e: LimiterEntry, k: Key): int {
    At(Key(e.limiterId, e.originWindow), k) - if HoldsSlot(e) then 0 else At(Key(e.limiterId, 0), k)
  }

  function Shares(entries: seq<LimiterEntry>, k: Key): int {
    if entries == [] then 0 else Shares(entries[..|entries| - 1], k) + Share(entries[|entries| - 1], k)
  }

  lemma {:induction false} SharesConcat(a: seq<LimiterEntry>, b: seq<LimiterEntry>, k: Key)
    ensures Shares(a + b, k) == Shares(a, k) + Shares(b, k)
  {
    if b == [] {
      assert a + b == a;
    } else {
      assert (a + b)[..|a + b| - 1] == a + b[..|b| - 1];
      SharesConcat(a, b[..|b| - 1], k);
    }
  }

  lemma {:induction false} AcquireShares(asks: seq<Ask>, k: Key)
    ensures Delta(AcquireEvents(asks), k) == Shares(Acquired(asks), k)
    ensures forall e :: e in Acquired(asks) && !HoldsSlot(e) ==> e.originWindow == 0
  {
    if asks != [] {
      var e := CheckResult(asks[0].id, asks[0].answer);
      assert [e][..0] == [];
      var rest := if Turned(asks[0]) then [] else AcquireEvents(asks[1..]);
      assert AcquireEvents(asks) == [e] + rest;
      DeltaConcat([e], rest, k);
      if !Turned(asks[0]) {
        AcquireShares(asks[1..], k);
        var first := Recorded(asks[0]);
        assert [first][..0] == [];
        assert Shares([first], k) == Effect(e, k);
        SharesConcat([first], Acquired(asks[1..]), k);
      }
    }
  }

  lemma {:induction false} RefreshShares(entries: seq<LimiterEntry>, answers: seq<Option<int>>, k: Key)
    requires |entries| == |answers|
    ensures Shares(Refreshed(entries, answers), k) == Shares(entries, k) + Delta(RefreshEvents(entries, answers), k)
  {
    if entries != [] {
      var n := |entries| - 1;
      RefreshShares(entries[..n], answers[..n], k);
      assert Refreshed(entries, answers)[..n] == Refreshed(entries[..n], answers[..n]);
      assert RefreshEvents(entries, answers)[..n] == RefreshEvents(entries[..n], answers[..n]);
    }
  }

  /** What the fail-open entries leave behind. */
  function Residue(entries: seq<LimiterEntry>, k: Key): int {
    if entries == [] then 0
    else
      var last := entries[|entries| - 1];
      Residue(entries[..|entries| - 1], k) + if HoldsSlot(last) then 0
          else At(Key(last.limiterId, last.originWindow), k) - At(Key(last.limiterId, 0), k)
  }

  lemma {:induction false} TeardownLeaves(entries: seq<LimiterEntry>, k: Key)
    ensures Shares(entries, k) + Delta(TeardownEvents(entries), k) == Residue(entries, k)
  {
    if entries != [] {
      var n := |entries| - 1;
      TeardownLeaves(entries[..n], k);
      Cleanup.DecrementsSnoc(entries[..n], entries[n]);
      assert entries == entries[..n] + [entries[n]];
      if HoldsSlot(entries[n]) {
        var e := ReleaseEvent(Cleanup.EffectOf(entries[n]));
        assert [e][..0] == [];
        assert TeardownEvents(entries) == TeardownEvents(entries[..n]) + [e];
        DeltaConcat(TeardownEvents(entries[..n]), [e], k);
      } else {
        assert TeardownEvents(entries) == TeardownEvents(entries[..n]);
      }
    }
  }

  lemma {:induction false} ResidueAtOrigin(entries: seq<LimiterEntry>, id: string)
    ensures Residue(entries, Key(id, 0)) <= 0
    ensures Residue(entries, Key(id, 0)) == 0
       <==> forall e :: e in entries && !HoldsSlot(e) && e.limiterId == id ==> e.originWindow == 0
  {
    if entries != [] {
      var n := |entries| - 1;
      ResidueAtOrigin(entries[..n], id);
      assert entries == entries[..n] + [entries[n]];
    }
  }

  lemma {:induction false} NoResidue(entries: seq<LimiterEntry>, k: Key)
    requires forall e :: e in entries && !HoldsSlot(e) ==> e.originWindow == 0
    ensures Residue(entries, k) == 0
  {
    if entries != [] {
      var n := |entries| - 1;
      NoResidue(entries[..n], k);
      assert entries[n] in entries;
    }
  }

  // ---- Whole call lives ---------------------------------------------------------------------

  ghost predicate IsLife(entries: seq<LimiterEntry>, ticks: seq<seq<Option<int>>>) {
    forall i :: 0 <= i < |ticks| ==> |ticks[i]| == |entries|
  }

  function AfterTicks(entries: seq<LimiterEntry>, ticks: seq<seq<Option<int>>>): seq<LimiterEntry>
    requires IsLife(entries, ticks)
    decreases |ticks|
  {
    if ticks == [] then entries else AfterTicks(Refreshed(entries, ticks[0]), ticks[1..])
  }

  function TickEvents(entries: seq<LimiterEntry>, ticks: seq<seq<Option<int>>>): seq<Event>
    requires IsLife(entries, ticks)
    decreases |ticks|
  {
    if ticks == [] then [] else RefreshEvents(entries, ticks[0]) + TickEvents(Refreshed(entries, ticks[0]), ticks[1..])
  }

  function LifeEvents(asks: seq<Ask>, ticks: seq<seq<Option<int>>>): seq<Event>
    requires IsLife(Acquired(asks), ticks)
  {
    AcquireEvents(asks) + TickEvents(Acquired(asks), ticks) + TeardownEvents(AfterTicks(Acquired(asks), ticks))
  }

  lemma {:induction false} TickShares(entries: seq<LimiterEntry>, ticks: seq<seq<Option<int>>>, k: Key)
    requires IsLife(entries, ticks)
    ensures Shares(AfterTicks(entries, ticks), k) == Shares(entries, k) + Delta(TickEvents(entries, ticks), k)
    decreases |ticks|
  {
    if ticks != [] {
      RefreshShares(entries, ticks[0], k);
      TickShares(Refreshed(entries, ticks[0]), ticks[1..], k);
      DeltaConcat(RefreshEvents(entries, ticks[0]), TickEvents(Refreshed(entries, ticks[0]), ticks[1..]), k);
    }
  }

  lemma LifeLeaves(asks: seq<Ask>, ticks: seq<seq<Option<int>>>, k: Key)
    requires IsLife(Acquired(asks), ticks)
    ensures Delta(LifeEvents(asks, ticks), k) == Residue(AfterTicks(Acquired(asks), ticks), k)
  {
    var entries := Acquired(asks);
    var last := AfterTicks(entries, ticks);
    AcquireShares(asks, k);
    TickShares(entries, ticks, k);
    TeardownLeaves(last, k);
    DeltaConcat(AcquireEvents(asks) + TickEvents(entries, ticks), TeardownEvents(last), k);
    DeltaConcat(AcquireEvents(asks), TickEvents(entries, ticks), k);
  }

  lemma BalancedAtEnd(asks: seq<Ask>, ticks: seq<seq<Option<int>>>)
    requires IsLife(Acquired(asks), ticks)
    ensures Balanced(LifeEvents(asks, ticks))
       <==> (forall e :: e in AfterTicks(Acquired(asks), ticks) && !HoldsSlot(e) ==> e.originWindow == 0)
  {
    var last := AfterTicks(Acquired(asks), ticks);
    forall k
      ensures Delta(LifeEvents(asks, ticks), k) == Residue(last, k)
    {
      LifeLeaves(asks, ticks, k);
    }
    if forall e :: e in last && !HoldsSlot(e) ==> e.originWindow == 0 {
      forall k
        ensures Residue(last, k) == 0
      {
        NoResidue(last, k);
      }
    } else {
      var e :| e in last && !HoldsSlot(e) && e.originWindow != 0;
      ResidueAtOrigin(last, e.limiterId);
      assert Residue(last, Key(e.limiterId, 0)) != 0;
      assert Delta(LifeEvents(asks, ticks), Key(e.limiterId, 0)) == Residue(last, Key(e.limiterId, 0));
    }
  }

  /** Where the refresh ticks moved the i-th entry last, if any of them did. */
  function LastMove(ticks: seq<seq<Option<int>>>, i: nat): Option<int>
    requires forall t :: t in ticks ==> i < |t|
  {
    if ticks == [] then None
    else
      var later := LastMove(ticks[1..], i);
      if later.Some? then later else ticks[0][i]
  }

  lemma {:induction false} AfterTicksAt(entries: seq<LimiterEntry>, ticks: seq<seq<Option<int>>>, i: nat)
    requires IsLife(entries, ticks) && i < |entries|
    ensures |AfterTicks(entries, ticks)| == |entries|
    ensures var moved := LastMove(ticks, i);
            AfterTicks(entries, ticks)[i] == if moved.Some? then entries[i].(originWindow := moved.value)
                else entries[i]
    decreases |ticks|
  {
    if ticks != [] {
      assert IsLife(Refreshed(entries, ticks[0]), ticks[1..]);
      AfterTicksAt(Refreshed(entries, ticks[0]), ticks[1..], i);
    }
  }

  lemma {:induction false} AcquiredAt(asks: seq<Ask>, i: nat)
    requires i < |Acquired(asks)|
    ensures i < |asks| && !Turned(asks[i]) && Acquired(asks)[i] == Recorded(asks[i])
  {
    if i > 0 {
      AcquiredAt(asks[1..], i - 1);
    }
  }

  /** The limiter did not answer the i-th question, and a tick moved its entry away from window 0. */
  predicate MovedFailOpen(asks: seq<Ask>, ticks: seq<seq<Option<int>>>, i: nat) {
    && i < |asks| && asks[i].answer.None? && (forall t :: t in ticks ==> i < |t|)
    && var moved := LastMove(ticks, i);
    && moved.Some? && moved.value != 0
  }

  /**
   * A call's whole life balances at every counter exactly when no entry admitted without the limiter
   * was moved by a refresh tick: a tick does not look at the flag, teardown does.
   */
  lemma TeardownBalancesExact(asks: seq<Ask>, ticks: seq<seq<Option<int>>>)
    requires IsLife(Acquired(asks), ticks)
    ensures Balanced(LifeEvents(asks, ticks))
       <==> forall i: nat :: i < |Acquired(asks)| ==> !MovedFailOpen(asks, ticks, i)
  {
    var entries := Acquired(asks);
    var last := AfterTicks(entries, ticks);
    BalancedAtEnd(asks, ticks);
    AfterTicksLength(entries, ticks);
    forall i: nat | i < |entries|
      ensures !HoldsSlot(last[i]) && last[i].originWindow != 0 <==> MovedFailOpen(asks, ticks, i)
    {
      AcquiredAt(asks, i);
      AfterTicksAt(entries, ticks, i);
    }
  }

  lemma {:induction false} AfterTicksLength(entries: seq<LimiterEntry>, ticks: seq<seq<Option<int>>>)
    requires IsLife(entries, ticks)
    ensures |AfterTicks(entries, ticks)| == |entries|
    decreases |ticks|
  {
    if ticks != [] {
      assert IsLife(Refreshed(entries, ticks[0]), ticks[1..]);
      AfterTicksLength(Refreshed(entries, ticks[0]), ticks[1..]);
    }
  }

  /** A call rejected part-way, or torn down before its first refresh, always balances. */
  lemma UnrefreshedBalances(asks: seq<Ask>, k: Key)
    ensures Delta(LifeEvents(asks, []), k) == 0
  {
    AcquireShares(asks, k);
    BalancedAtEnd(asks, []);
  }

  /** One fail-open entry refreshed once: a slot is taken in the new window and never given back. */
  lemma FailOpenRefreshLeaks(id: string, window: int)
    requires window != 0
    ensures var asks, ticks := [Ask(id, None)], [[Some(window)]];
            && |Acquired(asks)| == 1
            && IsLife(Acquired(asks), ticks)
            && Delta(LifeEvents(asks, ticks), Key(id, window)) == 1
            && Delta(LifeEvents(asks, ticks), Key(id, 0)) == -1
  {
    var asks, ticks := [Ask(id, None)], [[Some(window)]];
    assert Acquired(asks) == [LimiterEntry(id, 0, Some(false))];
    assert AfterTicks(Acquired(asks), ticks) == [LimiterEntry(id, window, Some(false))] by {
      assert AfterTicks(Refreshed(Acquired(asks), ticks[0]), []) == Refreshed(Acquired(asks), ticks[0]);
    }
    var last := [LimiterEntry(id, window, Some(false))];
    assert last[..0] == [];
    LifeLeaves(asks, ticks, Key(id, window));
    LifeLeaves(asks, ticks, Key(id, 0));
  }
}
