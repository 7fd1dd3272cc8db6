/** The terminating state: one safety timer, refreshed at most once per leg. */
module Teardown {
  import opened Options
  import opened CallModel

  /** Timer H and Timer J of section 17.2 of RFC 3261. */
  const TERMINATING_TIMEOUT_MS := 32000

  const ORPHAN_SWEEP_INTERVAL_MS := 60000

  function SafetyId(callRef: string): string {
    "terminating-timeout-" + callRef
  }

  function WithoutTimer(timers: seq<TimerEntry>, id: string): seq<TimerEntry> {
    if timers == [] then []
    else (if timers[0].id != id then [timers[0]] else []) + WithoutTimer(timers[1..], id)
  }

  function ReplaceTimerById(timers: seq<TimerEntry>, entry: TimerEntry): seq<TimerEntry> {
    WithoutTimer(timers, entry.id) + [entry]
  }

  function RefreshedLegs(c: Call): seq<string> {
    if c.terminatingRefreshLegs.Some? then c.terminatingRefreshLegs.value else []
  }

  predicate Entering(prev: Call, next: Call) {
    prev.phase != Terminating && next.phase == Terminating
  }

  predicate Refreshing(prev: Call, next: Call, source: Option<string>) {
    && prev.phase == Terminating && next.phase == Terminating
    && source.Some? && source.value !in RefreshedLegs(next)
  }

  /** The update arms the safety timer. */
  predicate Arms(prev: Call, next: Call, source: Option<string>) {
    Entering(prev, next) || Refreshing(prev, next, source)
  }

  /** What an update stores for the call its function returned. */
  function Updated(callRef: string, prev: Call, next: Call, source: Option<string>, now: int): Call {
    if !Arms(prev, next, source) then next
    else
      next.(timers := ReplaceTimerById(next.timers,
                                       TimerEntry(SafetyId(callRef), TerminatingTimeout, now + TERMINATING_TIMEOUT_MS)),
            terminatingRefreshLegs := Some(if Entering(prev, next) then [] else RefreshedLegs(next) + [source.value]))
  }

  function FindSafety(timers: seq<TimerEntry>): Option<TimerEntry> {
    if timers == [] then None
    else if timers[0].kind == TerminatingTimeout then Some(timers[0])
    else FindSafety(timers[1..])
  }

  /** The deadline the orphan sweep reads back from the call record. */
  function SweepDeadline(c: Call): int {
    var safety := FindSafety(c.timers);
    if safety.Some? then safety.value.fireAt else c.createdAt + TERMINATING_TIMEOUT_MS
  }

  /** The first entry of the safety type, whatever its id. */
  predicate IsFirstSafety(timers: seq<TimerEntry>, i: nat) {
    && i < |timers| && timers[i].kind == TerminatingTimeout
    && forall j :: 0 <= j < i ==> timers[j].kind != TerminatingTimeout
  }

  lemma {:induction false} FindSafetyExact(timers: seq<TimerEntry>)
    ensures FindSafety(timers).None? <==> forall i :: 0 <= i < |timers| ==> timers[i].kind != TerminatingTimeout
    ensures forall i: nat :: IsFirstSafety(timers, i) ==> FindSafety(timers) == Some(timers[i])
  {
    if timers != [] && timers[0].kind != TerminatingTimeout {
      FindSafetyExact(timers[1..]);
      assert forall i: nat :: IsFirstSafety(timers, i) ==> i > 0 && IsFirstSafety(timers[1..], i - 1);
      assert forall i :: 0 < i < |timers| ==> timers[i] == timers[1..][i - 1];
    }
  }

  /** The sweep's deadline is the time in the first safety entry, or else 32 s after the call was created. */
  lemma SweepDeadlineExact(c: Call)
    ensures forall i: nat :: IsFirstSafety(c.timers, i) ==> SweepDeadline(c) == c.timers[i].fireAt
    ensures (forall i :: 0 <= i < |c.timers| ==> c.timers[i].kind != TerminatingTimeout) ==>
              SweepDeadline(c) == c.createdAt + 32000
  {
    FindSafetyExact(c.timers);
  }

  predicate HasId(timers: seq<TimerEntry>, id: string) {
    exists i :: 0 <= i < |timers| && timers[i].id == id
  }

  lemma {:induction false} WithoutTimerSplits(a: seq<TimerEntry>, b: seq<TimerEntry>, id: string)
    ensures WithoutTimer(a + b, id) == WithoutTimer(a, id) + WithoutTimer(b, id)
  {
    if a == [] {
      assert a + b == b;
    } else {
      assert (a + b)[1..] == a[1..] + b;
      WithoutTimerSplits(a[1..], b, id);
    }
  }

  lemma {:induction false} WithoutTimerKeeps(timers: seq<TimerEntry>, id: string, e: TimerEntry)
    ensures e in WithoutTimer(timers, id) <==> e in timers && e.id != id
  {
    if timers != [] {
      WithoutTimerKeeps(timers[1..], id, e);
    }
  }

  lemma {:induction false} WithoutAbsentTimer(timers: seq<TimerEntry>, id: string)
    requires !HasId(timers, id)
    ensures WithoutTimer(timers, id) == timers
  {
    if timers != [] {
      assert timers[0].id != id;
      assert forall i :: 0 <= i < |timers| - 1 ==> timers[1..][i] == timers[i + 1];
      WithoutAbsentTimer(timers[1..], id);
    }
  }

  lemma WithoutOneTimer(timers: seq<TimerEntry>, id: string, i: nat)
    requires i < |timers| && timers[i].id == id
    ensures WithoutTimer(timers, id) == WithoutTimer(timers[..i] + timers[i + 1..], id)
  {
    assert timers == timers[..i] + ([timers[i]] + timers[i + 1..]);
    WithoutTimerSplits(timers[..i], [timers[i]] + timers[i + 1..], id);
    WithoutTimerSplits([timers[i]], timers[i + 1..], id);
    WithoutTimerSplits(timers[..i], timers[i + 1..], id);
  }

  /** Taking out a timer takes out just the entries of its id: the rest stays, and in its order. */
  lemma WithoutTimerExact(timers: seq<TimerEntry>, id: string)
    ensures forall e :: e in WithoutTimer(timers, id) <==> e in timers && e.id != id
    ensures !HasId(timers, id) ==> WithoutTimer(timers, id) == timers
    ensures forall i :: 0 <= i < |timers| && timers[i].id == id ==>
              WithoutTimer(timers, id) == WithoutTimer(timers[..i] + timers[i + 1..], id)
  {
    forall e
      ensures e in WithoutTimer(timers, id) <==> e in timers && e.id != id
    {
      WithoutTimerKeeps(timers, id, e);
    }
    if !HasId(timers, id) {
      WithoutAbsentTimer(timers, id);
    }
    forall i | 0 <= i < |timers| && timers[i].id == id
      ensures WithoutTimer(timers, id) == WithoutTimer(timers[..i] + timers[i + 1..], id)
    {
      WithoutOneTimer(timers, id, i);
    }
  }

  /** After an update that arms the timer the record holds every other timer, and one entry of the call's safety id. */
  lemma ArmedRecordExact(callRef: string, prev: Call, next: Call, source: Option<string>, now: int)
    requires Arms(prev, next, source)
    ensures var timers, safety := Updated(callRef, prev, next, source, now).timers,
                TimerEntry(SafetyId(callRef), TerminatingTimeout, now + 32000);
            && (forall e :: e in timers <==> e == safety || (e in next.timers && e.id != safety.id))
            && |timers| > 0 && timers[|timers| - 1] == safety && !HasId(timers[..|timers| - 1], safety.id)
    ensures Updated(callRef, prev, next, source, now)
              .(timers := next.timers, terminatingRefreshLegs := next.terminatingRefreshLegs) == next
  {
    WithoutTimerExact(next.timers, SafetyId(callRef));
    var safety := TimerEntry(SafetyId(callRef), TerminatingTimeout, now + 32000);
    var timers := Updated(callRef, prev, next, source, now).timers;
    assert timers == WithoutTimer(next.timers, safety.id) + [safety];
    assert timers[..|timers| - 1] == WithoutTimer(next.timers, safety.id);
  }

  // ---- Sweep and timer ----------------------------------------------------------------------

  lemma {:induction false} FindAfterReplace(timers: seq<TimerEntry>, entry: TimerEntry)
    requires entry.kind == TerminatingTimeout
    ensures var foreign := FindSafety(WithoutTimer(timers, entry.id));
            FindSafety(ReplaceTimerById(timers, entry)) == if foreign.Some? then foreign else Some(entry)
  {
    if timers == [] {
      assert [entry][0] == entry;
    } else {
      FindAfterReplace(timers[1..], entry);
      var rest := WithoutTimer(timers[1..], entry.id);
      if timers[0].id != entry.id {
        assert ReplaceTimerById(timers, entry) == [timers[0]] + ReplaceTimerById(timers[1..], entry);
        assert WithoutTimer(timers, entry.id) == [timers[0]] + rest;
        assert WithoutTimer(timers, entry.id)[1..] == rest;
      } else {
        assert WithoutTimer(timers, entry.id) == rest;
      }
    }
  }

  /** The safety entry another part of the program left in the record under an id of its own. */
  function ForeignSafety(callRef: string, c: Call): Option<TimerEntry> {
    FindSafety(WithoutTimer(c.timers, SafetyId(callRef)))
  }

  /**
   * The sweep looks for the entry by type, the timer is armed by id: they agree on the deadline
   * exactly when the first safety entry under another id, if there is one, happens to name it too.
   */
  lemma SweepAgreesExact(callRef: string, prev: Call, next: Call, source: Option<string>, now: int)
    requires Arms(prev, next, source)
    ensures SweepDeadline(Updated(callRef, prev, next, source, now)) == now + TERMINATING_TIMEOUT_MS
       <==> var foreign := ForeignSafety(callRef, next);
            foreign.Some? ==> foreign.value.fireAt == now + TERMINATING_TIMEOUT_MS
  {
    FindAfterReplace(next.timers, TimerEntry(SafetyId(callRef), TerminatingTimeout, now + TERMINATING_TIMEOUT_MS));
  }

  // ---- Runs ---------------------------------------------------------------------------------

  /**
   * A call in `terminating`: its record, the deadline of its live safety timer if there is one, and
   * the time of the next orphan sweep. A purge ends it.
   */
  datatype Closing =
    | Closing(call: Call, armed: Option<int>, nextSweep: int)
    | Purged(call: Call, at: int)

  /**
   * `Handle` is one processed event: the update with the rules' result, then the result's critical
   * effects, among them a cancel-all of the call's timers or not.
   */
  datatype Step =
    | Handle(next: Call, source: Option<string>, cancels: bool, now: int)
    | Fire
    | Sweep

  function LegIds(c: Call): set<string> {
    {c.aLeg.legId} + set i | 0 <= i < |c.bLegs| :: c.bLegs[i].legId
  }

  /** What update functions leave alone: the safety entry, the refresh budget, and existing legs. */
  ghost predicate Respects(callRef: string, c: Call, next: Call) {
    && next.phase == Terminating && next.createdAt == c.createdAt
    && FindSafety(next.timers) == FindSafety(c.timers) && ForeignSafety(callRef, next).None?
    && RefreshedLegs(next) == RefreshedLegs(c)
    && LegIds(c) <= LegIds(next) && |c.bLegs| <= |next.bLegs|
  }

  /** Timers and sweeps come at their time, and nothing is handled after the purge. */
  ghost predicate Arrives(callRef: string, s: Closing, step: Step) {
    && s.Closing?
    && match step
       case Handle(next, source, _, now) =>
         && Respects(callRef, s.call, next)
         && now <= s.nextSweep && (s.armed.Some? ==> now <= s.armed.value)
         && (source.Some? ==> source.value in LegIds(next))
       case Fire => s.armed.Some? && s.armed.value <= s.nextSweep
       case Sweep => s.armed.Some? ==> s.nextSweep <= s.armed.value
  }

  /** The update arms the timer; a cancel-all in the same result comes after it and takes it away again. */
  function ArmedAfter(s: Closing, step: Step): Option<int>
    requires s.Closing? && step.Handle?
  {
    if step.cancels then None
    else if Arms(s.call, step.next, step.source) then Some(step.now + TERMINATING_TIMEOUT_MS)
    else s.armed
  }

  function Apply(callRef: string, s: Closing, step: Step): Closing
    requires s.Closing? && (step.Fire? ==> s.armed.Some?)
  {
    match step
    case Handle(next, source, _, now) =>
      Closing(Updated(callRef, s.call, next, source, now), ArmedAfter(s, step), s.nextSweep)
    case Fire => Purged(s.call, s.armed.value)
    case Sweep =>
      if s.nextSweep >= SweepDeadline(s.call) then Purged(s.call, s.nextSweep)
      else s.(nextSweep := s.nextSweep + ORPHAN_SWEEP_INTERVAL_MS)
  }

  ghost predicate IsRun(callRef: string, s: Closing, steps: seq<Step>)
    decreases |steps|
  {
    steps == [] || (Arrives(callRef, s, steps[0]) && IsRun(callRef, Apply(callRef, s, steps[0]), steps[1..]))
  }

  ghost function Final(callRef: string, s: Closing, steps: seq<Step>): Closing
    requires IsRun(callRef, s, steps)
    decreases |steps|
  {
    if steps == [] then s else Final(callRef, Apply(callRef, s, steps[0]), steps[1..])
  }

  /** The call right after the result that brought it into `terminating`. */
  function Entered(callRef: string, prev: Call, next: Call, source: Option<string>, cancels: bool, t: int,
                   nextSweep: int): Closing {
    Closing(Updated(callRef, prev, next, source, t), if cancels then None else Some(t + TERMINATING_TIMEOUT_MS),
            nextSweep)
  }

  ghost predicate Enters(callRef: string, prev: Call, next: Call, t: int, nextSweep: int) {
    && Entering(prev, next) && ForeignSafety(callRef, next).None?
    && t <= nextSweep <= t + ORPHAN_SWEEP_INTERVAL_MS
  }

  predicate Distinct(s: seq<string>) {
    forall i, j :: 0 <= i < j < |s| ==> s[i] != s[j]
  }

  // ---- The invariant ------------------------------------------------------------------------

  /** A live timer stands at the deadline the sweep reads; legs refresh once each. */
  ghost predicate ClosingInv(s: Closing) {
    && s.call.phase == Terminating
    && Distinct(RefreshedLegs(s.call))
    && (forall id :: id in RefreshedLegs(s.call) ==> id in LegIds(s.call))
    && (s.Closing? ==>
          && SweepDeadline(s.call) <= s.nextSweep + TERMINATING_TIMEOUT_MS
          && (s.armed.Some? ==> s.armed.value == SweepDeadline(s.call)))
  }

  lemma EnterInv(callRef: string, prev: Call, next: Call, source: Option<string>, cancels: bool, t: int, nextSweep: int)
    requires Enters(callRef, prev, next, t, nextSweep)
    ensures var s := Entered(callRef, prev, next, source, cancels, t, nextSweep);
            ClosingInv(s) && SweepDeadline(s.call) == t + TERMINATING_TIMEOUT_MS && RefreshedLegs(s.call) == []
  {
    SweepAgreesExact(callRef, prev, next, source, t);
  }

  /** The record after a handled event: the deadline moves exactly when a leg spends its refresh. */
  lemma HandleMoves(callRef: string, s: Closing, step: Step)
    requires ClosingInv(s) && step.Handle? && Arrives(callRef, s, step)
    ensures var t, arms := Apply(callRef, s, step), Arms(s.call, step.next, step.source);
            && ClosingInv(t)
            && SweepDeadline(t.call) == (if arms then step.now + TERMINATING_TIMEOUT_MS else SweepDeadline(s.call))
            && RefreshedLegs(t.call) == RefreshedLegs(s.call) + if arms then [step.source.value] else []
  {
    if Arms(s.call, step.next, step.source) {
      SweepAgreesExact(callRef, s.call, step.next, step.source, step.now);
    }
  }

  lemma StepKeepsInv(callRef: string, s: Closing, step: Step)
    requires ClosingInv(s) && Arrives(callRef, s, step)
    ensures ClosingInv(Apply(callRef, s, step))
  {
    if step.Handle? {
      HandleMoves(callRef, s, step);
    }
  }

  lemma {:induction false} DistinctWithin(ids: seq<string>, within: set<string>)
    requires Distinct(ids) && forall id :: id in ids ==> id in within
    ensures |ids| <= |within|
  {
    if ids != [] {
      DistinctWithin(ids[1..], within - {ids[0]});
    }
  }

  lemma {:induction false} FewLegIds(bLegs: seq<Leg>)
    ensures |set i | 0 <= i < |bLegs| :: bLegs[i].legId| <= |bLegs|
  {
    var ids := set i | 0 <= i < |bLegs| :: bLegs[i].legId;
    if bLegs == [] {
      assert ids == {};
    } else {
      var n := |bLegs| - 1;
      FewLegIds(bLegs[..n]);
      var fewer := set i | 0 <= i < n :: bLegs[..n][i].legId;
      forall id | id in ids
        ensures id in fewer + {bLegs[n].legId}
      {
        var i :| 0 <= i < |bLegs| && bLegs[i].legId == id;
        assert i < n ==> bLegs[..n][i] == bLegs[i];
      }
      assert ids == fewer + {bLegs[n].legId};
    }
  }

  lemma RefreshesFit(s: Closing)
    requires ClosingInv(s)
    ensures |RefreshedLegs(s.call)| <= 1 + |s.call.bLegs|
  {
    DistinctWithin(RefreshedLegs(s.call), LegIds(s.call));
    FewLegIds(s.call.bLegs);
  }

  // ---- The bound that always holds ----------------------------------------------------------

  /** The sweep that finds the deadline passed, if nothing moves it. */
  function PurgeBy(s: Closing): int {
    if s.Purged? then s.at
    else if SweepDeadline(s.call) <= s.nextSweep then s.nextSweep
    else s.nextSweep + ORPHAN_SWEEP_INTERVAL_MS
  }

  /** Entering costs one timeout and the wait for a sweep; each refreshing leg costs one sweep more. */
  function Latest(t: int, refreshes: nat): int {
    t + TERMINATING_TIMEOUT_MS + ORPHAN_SWEEP_INTERVAL_MS - 1 + ORPHAN_SWEEP_INTERVAL_MS * refreshes
  }

  lemma {:induction false} RunPurgesInTime(callRef: string, t: int, s: Closing, steps: seq<Step>)
    requires ClosingInv(s) && IsRun(callRef, s, steps) && PurgeBy(s) <= Latest(t, |RefreshedLegs(s.call)|)
    ensures var end := Final(callRef, s, steps); ClosingInv(end) && PurgeBy(end) <= Latest(t, |RefreshedLegs(end.call)|)
    decreases |steps|
  {
    if steps != [] {
      StepKeepsInv(callRef, s, steps[0]);
      if steps[0].Handle? {
        HandleMoves(callRef, s, steps[0]);
      }
      RunPurgesInTime(callRef, t, Apply(callRef, s, steps[0]), steps[1..]);
    }
  }

  /**
   * However many events arrive, and whichever of them cancel the call's timers: a call that entered
   * `terminating` at `t` is purged, or its next sweep will purge it, one timeout and one sweep later
   * at most, plus one sweep per leg that refreshed; a live timer always stands at the deadline the
   * sweep reads.
   */
  lemma BoundedTeardown(callRef: string, prev: Call, next: Call, source: Option<string>, cancels: bool, t: int,
                        nextSweep: int, steps: seq<Step>)
    requires Enters(callRef, prev, next, t, nextSweep)
    requires IsRun(callRef, Entered(callRef, prev, next, source, cancels, t, nextSweep), steps)
    ensures var end := Final(callRef, Entered(callRef, prev, next, source, cancels, t, nextSweep), steps);
            && PurgeBy(end) <= Latest(t, |RefreshedLegs(end.call)|) <= Latest(t, 1 + |end.call.bLegs|)
            && (end.Closing? && end.armed.Some? ==> end.armed.value == SweepDeadline(end.call))
  {
    var s := Entered(callRef, prev, next, source, cancels, t, nextSweep);
    EnterInv(callRef, prev, next, source, cancels, t, nextSweep);
    RunPurgesInTime(callRef, t, s, steps);
    RefreshesFit(Final(callRef, s, steps));
  }

  /** A refresh, handled with the next sweep already due, moves the deadline past it. */
  lemma RefreshMoves(callRef: string, s: Closing, id: string)
    requires s.Closing? && ClosingInv(s) && ForeignSafety(callRef, s.call).None? && s.armed.None?
    requires id in LegIds(s.call) && id !in RefreshedLegs(s.call)
    ensures var refresh := Handle(s.call, Some(id), true, s.nextSweep);
            var t := Apply(callRef, s, refresh);
            && Arrives(callRef, s, refresh) && t.Closing? && t.armed.None? && t.nextSweep == s.nextSweep
            && ClosingInv(t) && ForeignSafety(callRef, t.call).None?
            && SweepDeadline(t.call) == s.nextSweep + TERMINATING_TIMEOUT_MS
            && LegIds(t.call) == LegIds(s.call) && RefreshedLegs(t.call) == RefreshedLegs(s.call) + [id]
  {
    HandleMoves(callRef, s, Handle(s.call, Some(id), true, s.nextSweep));
    ForeignAfterReplace(s.call.timers,
                        TimerEntry(SafetyId(callRef), TerminatingTimeout, s.nextSweep + TERMINATING_TIMEOUT_MS));
  }

  /** One leg refreshes just before a sweep that would have purged the call, and cancels the timer it armed. */
  lemma RefreshAtSweep(callRef: string, s: Closing, id: string)
    requires s.Closing? && ClosingInv(s) && ForeignSafety(callRef, s.call).None?
    requires s.armed.None? && SweepDeadline(s.call) <= s.nextSweep
    requires id in LegIds(s.call) && id !in RefreshedLegs(s.call)
    ensures var refresh := Handle(s.call, Some(id), true, s.nextSweep);
            var refreshed := Apply(callRef, s, refresh);
            && Arrives(callRef, s, refresh) && refreshed.Closing? && Arrives(callRef, refreshed, Sweep)
            && var u := Apply(callRef, refreshed, Sweep);
            && u.Closing? && ClosingInv(u) && ForeignSafety(callRef, u.call).None?
            && u.armed.None? && SweepDeadline(u.call) <= u.nextSweep == s.nextSweep + ORPHAN_SWEEP_INTERVAL_MS
            && LegIds(u.call) == LegIds(s.call) && RefreshedLegs(u.call) == RefreshedLegs(s.call) + [id]
  {
    RefreshMoves(callRef, s, id);
  }

  /** The bound is reached: every result cancels the timers, and each leg refreshes just before a sweep. */
  lemma {:induction false} BoundIsTight(callRef: string, s: Closing, ids: seq<string>) returns (steps: seq<Step>)
    requires s.Closing? && ClosingInv(s) && ForeignSafety(callRef, s.call).None?
    requires s.armed.None? && SweepDeadline(s.call) <= s.nextSweep
    requires Distinct(ids) && forall id :: id in ids ==> id in LegIds(s.call) && id !in RefreshedLegs(s.call)
    ensures IsRun(callRef, s, steps)
    ensures var end := Final(callRef, s, steps);
            end.Purged? && end.at == s.nextSweep + ORPHAN_SWEEP_INTERVAL_MS * |ids|
    decreases |ids|
  {
    if ids == [] {
      steps := [Sweep];
      assert steps[1..] == [];
      assert Final(callRef, s, steps) == Final(callRef, Apply(callRef, s, Sweep), []);
    } else {
      var refresh := Handle(s.call, Some(ids[0]), true, s.nextSweep);
      var refreshed := Apply(callRef, s, refresh);
      RefreshAtSweep(callRef, s, ids[0]);
      var rest := BoundIsTight(callRef, Apply(callRef, refreshed, Sweep), ids[1..]);
      RunPrepends(callRef, refreshed, Sweep, rest);
      RunPrepends(callRef, s, refresh, [Sweep] + rest);
      steps := [refresh] + ([Sweep] + rest);
    }
  }

  /** From the entry itself: the next sweep comes just before the first deadline. */
  lemma EntryBoundIsTight(callRef: string, prev: Call, next: Call, source: Option<string>, t: int, ids: seq<string>)
    returns (steps: seq<Step>)
    requires Enters(callRef, prev, next, t, t + TERMINATING_TIMEOUT_MS - 1)
    requires Distinct(ids) && forall id :: id in ids ==> id in LegIds(next)
    ensures var s := Entered(callRef, prev, next, source, true, t, t + TERMINATING_TIMEOUT_MS - 1);
            && IsRun(callRef, s, steps)
            && var end := Final(callRef, s, steps);
            end.Purged? && end.at == Latest(t, |ids|)
  {
    var s := Entered(callRef, prev, next, source, true, t, t + TERMINATING_TIMEOUT_MS - 1);
    EnterInv(callRef, prev, next, source, true, t, t + TERMINATING_TIMEOUT_MS - 1);
    ForeignAfterReplace(next.timers, TimerEntry(SafetyId(callRef), TerminatingTimeout, t + TERMINATING_TIMEOUT_MS));
    var rest := BoundIsTight(callRef, Apply(callRef, s, Sweep), ids);
    RunPrepends(callRef, s, Sweep, rest);
    steps := [Sweep] + rest;
  }

  lemma RunPrepends(callRef: string, s: Closing, step: Step, rest: seq<Step>)
    requires Arrives(callRef, s, step) && IsRun(callRef, Apply(callRef, s, step), rest)
    ensures IsRun(callRef, s, [step] + rest)
    ensures Final(callRef, s, [step] + rest) == Final(callRef, Apply(callRef, s, step), rest)
  {
    assert ([step] + rest)[1..] == rest;
  }

  lemma {:induction false} ForeignAfterReplace(timers: seq<TimerEntry>, entry: TimerEntry)
    ensures WithoutTimer(ReplaceTimerById(timers, entry), entry.id) == WithoutTimer(timers, entry.id)
  {
    if timers == [] {
      assert [entry][1..] == [];
    } else {
      ForeignAfterReplace(timers[1..], entry);
      if timers[0].id != entry.id {
        assert ReplaceTimerById(timers, entry) == [timers[0]] + ReplaceTimerById(timers[1..], entry);
        assert ReplaceTimerById(timers, entry)[1..] == ReplaceTimerById(timers[1..], entry);
      } else {
        assert WithoutTimer(timers, entry.id) == WithoutTimer(timers[1..], entry.id);
      }
    }
  }

  // ---- One timeout per leg ------------------------------------------------------------------

  predicate Within(t: int, s: Closing) {
    s.Closing? ==> SweepDeadline(s.call) <= t + TERMINATING_TIMEOUT_MS * (1 + |RefreshedLegs(s.call)|)
  }

  /** At every point of the run the deadline is within one timeout per refreshing leg beyond the first. */
  ghost predicate AlwaysWithin(callRef: string, t: int, s: Closing, steps: seq<Step>)
    requires IsRun(callRef, s, steps)
    decreases |steps|
  {
    Within(t, s) && (steps != [] ==> AlwaysWithin(callRef, t, Apply(callRef, s, steps[0]), steps[1..]))
  }

  /** The n-th leg to refresh does so within n timeouts. */
  ghost predicate OnTime(callRef: string, t: int, s: Closing, steps: seq<Step>)
    requires IsRun(callRef, s, steps)
    decreases |steps|
  {
    steps != [] ==>
      && (steps[0].Handle? && Arms(s.call, steps[0].next, steps[0].source) ==>
            steps[0].now <= t + TERMINATING_TIMEOUT_MS * (1 + |RefreshedLegs(s.call)|))
      && OnTime(callRef, t, Apply(callRef, s, steps[0]), steps[1..])
  }

  /** The deadline stays within one timeout per leg exactly when the legs refresh on time. */
  lemma {:induction false} TimeoutPerLegExact(callRef: string, t: int, s: Closing, steps: seq<Step>)
    requires ClosingInv(s) && IsRun(callRef, s, steps) && Within(t, s)
    ensures AlwaysWithin(callRef, t, s, steps) <==> OnTime(callRef, t, s, steps)
    decreases |steps|
  {
    if steps != [] {
      var next := Apply(callRef, s, steps[0]);
      StepKeepsInv(callRef, s, steps[0]);
      if steps[0].Handle? {
        HandleMoves(callRef, s, steps[0]);
      }
      if Within(t, next) {
        TimeoutPerLegExact(callRef, t, next, steps[1..]);
      }
    }
  }

  predicate NoCancels(steps: seq<Step>) {
    forall i :: 0 <= i < |steps| && steps[i].Handle? ==> !steps[i].cancels
  }

  /** While no result cancels the timers the live timer itself enforces it. */
  lemma {:induction false} LiveTimerKeepsOnTime(callRef: string, t: int, s: Closing, steps: seq<Step>)
    requires ClosingInv(s) && IsRun(callRef, s, steps) && Within(t, s) && NoCancels(steps)
    requires s.Closing? ==> s.armed.Some?
    ensures OnTime(callRef, t, s, steps) && AlwaysWithin(callRef, t, s, steps)
    decreases |steps|
  {
    if steps != [] {
      var next := Apply(callRef, s, steps[0]);
      StepKeepsInv(callRef, s, steps[0]);
      if steps[0].Handle? {
        HandleMoves(callRef, s, steps[0]);
      }
      assert NoCancels(steps[1..]) by {
        assert forall i :: 0 <= i < |steps| - 1 ==> steps[1..][i] == steps[i + 1];
      }
      LiveTimerKeepsOnTime(callRef, t, next, steps[1..]);
    }
  }

  /**
   * The ordinary path breaks it. The result that begins a termination cancels all timers of the call
   * after the update armed the safety timer: no timer is left, and a leg heard of at 50 s, before
   * the sweep, moves the deadline to 82 s, where two timeouts would be 64 s.
   */
  lemma CancelledTimerLetsLegsLate(callRef: string, prev: Call, next: Call, t: int)
    requires Enters(callRef, prev, next, t, t + ORPHAN_SWEEP_INTERVAL_MS)
    ensures var s := Entered(callRef, prev, next, None, true, t, t + ORPHAN_SWEEP_INTERVAL_MS);
            var late := Handle(s.call, Some(next.aLeg.legId), false, t + 50_000);
            && s.armed.None? && Arrives(callRef, s, late)
            && var end := Apply(callRef, s, late);
            && SweepDeadline(end.call) == t + 82_000 && |RefreshedLegs(end.call)| == 1 && !Within(t, end)
  {
    var s := Entered(callRef, prev, next, None, true, t, t + ORPHAN_SWEEP_INTERVAL_MS);
    EnterInv(callRef, prev, next, None, true, t, t + ORPHAN_SWEEP_INTERVAL_MS);
    ForeignAfterReplace(next.timers, TimerEntry(SafetyId(callRef), TerminatingTimeout, t + TERMINATING_TIMEOUT_MS));
    HandleMoves(callRef, s, Handle(s.call, Some(next.aLeg.legId), false, t + 50_000));
  }

  // ---- Only the entering result cancels -----------------------------------------------------

  /** When the call ends unless something refreshes it. */
  function EndsBy(s: Closing): int {
    if s.Closing? && s.armed.Some? then s.armed.value else PurgeBy(s)
  }

  /**
   * When only the entering result cancels, as the rules have it, the first refresh brings a timer
   * back: the wait for a sweep is paid once, and each leg costs one timeout.
   */
  lemma {:induction false} OneSweepThenTimeouts(callRef: string, bound: int, s: Closing, steps: seq<Step>)
    requires ClosingInv(s) && IsRun(callRef, s, steps) && NoCancels(steps)
    requires EndsBy(s) <= bound + TERMINATING_TIMEOUT_MS * |RefreshedLegs(s.call)|
    ensures var end := Final(callRef, s, steps);
            EndsBy(end) <= bound + TERMINATING_TIMEOUT_MS * |RefreshedLegs(end.call)|
    decreases |steps|
  {
    if steps != [] {
      StepKeepsInv(callRef, s, steps[0]);
      if steps[0].Handle? {
        HandleMoves(callRef, s, steps[0]);
      }
      assert NoCancels(steps[1..]) by {
        assert forall i :: 0 <= i < |steps| - 1 ==> steps[1..][i] == steps[i + 1];
      }
      OneSweepThenTimeouts(callRef, bound, Apply(callRef, s, steps[0]), steps[1..]);
    }
  }

  lemma BegunByTheRules(callRef: string, prev: Call, next: Call, source: Option<string>, t: int, nextSweep: int,
                        steps: seq<Step>)
    requires Enters(callRef, prev, next, t, nextSweep) && NoCancels(steps)
    requires IsRun(callRef, Entered(callRef, prev, next, source, true, t, nextSweep), steps)
    ensures var end := Final(callRef, Entered(callRef, prev, next, source, true, t, nextSweep), steps);
            EndsBy(end) <= Latest(t, 0) + TERMINATING_TIMEOUT_MS * |RefreshedLegs(end.call)|
  {
    EnterInv(callRef, prev, next, source, true, t, nextSweep);
    OneSweepThenTimeouts(callRef, Latest(t, 0), Entered(callRef, prev, next, source, true, t, nextSweep), steps);
  }

  /** A leg that already refreshed cannot move the deadline again, whatever it sends. */
  lemma RefreshedLegCannotExtend(callRef: string, s: Closing, step: Step)
    requires s.Closing? && s.call.phase == Terminating && step.Handle? && Arrives(callRef, s, step)
    requires step.source.Some? && step.source.value in RefreshedLegs(s.call)
    ensures SweepDeadline(Apply(callRef, s, step).call) == SweepDeadline(s.call)
    ensures Apply(callRef, s, step).call == step.next
  {
  }
}
