/** The effects the rules emit when a call ends. */
module Cleanup {
  import opened Options
  import opened CallModel
  import CallLimiter

  datatype SoftEffect = DecrementLimiter(limiterId: string, window: int)
  datatype CriticalEffect = CancelAllTimers | RemoveCall
  datatype BufferedEffect = WriteCdr

  datatype HandlerEffects = HandlerEffects(critical: seq<CriticalEffect>, soft: seq<SoftEffect>,
                                           buffered: seq<BufferedEffect>)

  function Filter<T>(s: seq<T>, keep: T -> bool): seq<T> {
    if s == [] then [] else (if keep(s[0]) then [s[0]] else []) + Filter(s[1..], keep)
  }

  function Map<T, U>(s: seq<T>, f: T -> U): (r: seq<U>)
    ensures |r| == |s|
  {
    seq(|s|, i requires 0 <= i < |s| => f(s[i]))
  }

  function EffectOf(e: LimiterEntry): SoftEffect {
    DecrementLimiter(e.limiterId, e.originWindow)
  }

  function Decrements(entries: seq<LimiterEntry>): seq<SoftEffect> {
    Map(Filter(entries, HoldsSlot), EffectOf)
  }

  /** A call that ends without outstanding BYEs. */
  function TerminateCallEffects(c: Call): HandlerEffects {
    HandlerEffects([CancelAllTimers, RemoveCall], Decrements(c.limiterEntries), [WriteCdr])
  }

  /** The end of a terminating call. */
  function FinalCleanupEffects(c: Call): HandlerEffects {
    HandlerEffects([CancelAllTimers, RemoveCall], Decrements(c.limiterEntries), [])
  }

  function KeyOf(e: SoftEffect): CallLimiter.Key {
    CallLimiter.Key(e.limiterId, e.window)
  }

  lemma Associates<T>(a: seq<T>, b: seq<T>, c: seq<T>)
    ensures a + (b + c) == (a + b) + c
  {
  }

  lemma {:induction false} FilterConcat<T>(a: seq<T>, b: seq<T>, keep: T -> bool)
    ensures Filter(a + b, keep) == Filter(a, keep) + Filter(b, keep)
  {
    if a == [] {
      assert a + b == b;
    } else {
      assert (a + b)[0] == a[0] && (a + b)[1..] == a[1..] + b;
      FilterConcat(a[1..], b, keep);
      Associates(if keep(a[0]) then [a[0]] else [], Filter(a[1..], keep), Filter(b, keep));
    }
  }

  lemma DecrementsSnoc(entries: seq<LimiterEntry>, last: LimiterEntry)
    ensures Decrements(entries + [last]) == Decrements(entries) + if HoldsSlot(last) then [EffectOf(last)] else []
  {
    FilterConcat(entries, [last], HoldsSlot);
    assert [last][1..] == [];
    assert Filter([last], HoldsSlot) == if HoldsSlot(last) then [last] else [];
  }

  /** Filtering and mapping the entries names the counters a purge's loop decrements, in the same order. */
  lemma {:induction false} DecrementsAreReleases(entries: seq<LimiterEntry>)
    ensures Map(Decrements(entries), KeyOf) == ReleaseKeys(entries)
  {
    if entries != [] {
      var n := |entries| - 1;
      DecrementsAreReleases(entries[..n]);
      DecrementsSnoc(entries[..n], entries[n]);
      assert entries == entries[..n] + [entries[n]];
      assert Map(Decrements(entries), KeyOf)
          == Map(Decrements(entries[..n]), KeyOf) + if HoldsSlot(entries[n]) then [KeyOf(EffectOf(entries[n]))] else [];
    }
  }

  /** Of the entries one explicitly failed gives nothing back; any other, flagged or not, its own counter. */
  lemma OneEntryReleases(before: seq<LimiterEntry>, e: LimiterEntry, rest: seq<LimiterEntry>)
    ensures ReleaseKeys(before + [e] + rest)
         == ReleaseKeys(before)
          + (if e.incrementSucceeded == Some(false) then [] else [CallLimiter.Key(e.limiterId, e.originWindow)])
          + ReleaseKeys(rest)
  {
    ReleasesConcat(before, [e]);
    ReleasesConcat(before + [e], rest);
    assert [e][..0] == [];
  }

  lemma {:induction false} ReleasesConcat(a: seq<LimiterEntry>, b: seq<LimiterEntry>)
    ensures ReleaseKeys(a + b) == ReleaseKeys(a) + ReleaseKeys(b)
  {
    if b == [] {
      assert a + b == a;
    } else {
      var n := |b| - 1;
      ReleasesConcat(a, b[..n]);
      assert (a + b)[..|a + b| - 1] == a + b[..n];
      assert (a + b)[|a + b| - 1] == b[n];
    }
  }
}
