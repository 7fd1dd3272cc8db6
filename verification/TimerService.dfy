/** The registry of timer fibers: schedule, cancel and cancel-all, each of which may wait for a fiber to end. */
module Timers {
  import opened Options

  datatype Status = Sleeping | Running | Done

  datatype Fiber = Fiber(id: string, callRef: string, wakeAt: int, status: Status)

  /** A fiber is named by its position; `caller` below is the fiber that makes the request, if one does. */
  datatype Entry = Entry(fiber: nat, callRef: string)

  /** A request suspended until the fiber it interrupted has ended. */
  datatype Wait =
    | ToSchedule(prior: nat, id: string, callRef: string, delay: nat)
    | ToCancel(prior: nat, id: string)

  /** A cancel-all under way: the fibers it can know of, the ids still to cancel, and the wait it is in. */
  datatype Round = Round(callRef: string, since: nat, todo: seq<string>, waiting: Option<nat>)

  datatype Timers = Timers(registry: map<string, Entry>, fibers: seq<Fiber>,
                           waits: map<nat, Wait>, rounds: map<nat, Round>) {
    predicate Registered(f: nat) {
      f < |fibers| && fibers[f].id in registry && registry[fibers[f].id].fiber == f
    }

    predicate Alive(f: nat) {
      f < |fibers| && fibers[f].status != Done
    }

    predicate Serves(f: nat, callRef: string) {
      Alive(f) && fibers[f].callRef == callRef
    }

    ghost predicate Interrupted(f: nat) {
      exists w :: w in waits && waits[w].prior == f
    }

    /** The requesting fiber is in its handler. */
    predicate CallerRuns(caller: Option<nat>) {
      caller.Some? ==> caller.value < |fibers| && fibers[caller.value].status == Running
    }
  }

  const START := Timers(map[], [], map[], map[])

  // ---- Steps --------------------------------------------------------------------------------

  /** A fiber ends; its exit hook removes the entry only while the entry still points at it. */
  function Exited(t: Timers, f: nat): Timers
    requires f < |t.fibers|
  {
    t.(registry := if t.Registered(f) then t.registry - {t.fibers[f].id} else t.registry,
       fibers := t.fibers[f := t.fibers[f].(status := Done)])
  }

  function Fired(t: Timers, f: nat): Timers
    requires f < |t.fibers|
  {
    t.(fibers := t.fibers[f := t.fibers[f].(status := Running)])
  }

  function Forked(t: Timers, callRef: string, id: string, wakeAt: int): Timers {
    t.(registry := t.registry[id := Entry(|t.fibers|, callRef)],
       fibers := t.fibers + [Fiber(id, callRef, wakeAt, Sleeping)])
  }

  function Delay(fireAt: int, now: int): nat {
    if fireAt > now then fireAt - now else 0
  }

  /** A fiber under the same id is interrupted and waited for, unless it is the caller's own. */
  function ScheduleBegun(t: Timers, caller: Option<nat>, w: nat, callRef: string, id: string, fireAt: int,
                         now: int): Timers {
    if id in t.registry && Some(t.registry[id].fiber) != caller
    then t.(waits := t.waits[w := ToSchedule(t.registry[id].fiber, id, callRef, Delay(fireAt, now))])
    else Forked(t, callRef, id, now + Delay(fireAt, now))
  }

  /** The caller's own entry is only dropped; any other fiber is interrupted and waited for. */
  function CancelBegun(t: Timers, caller: Option<nat>, w: nat, id: string): Timers {
    if id !in t.registry then t
    else if Some(t.registry[id].fiber) == caller then t.(registry := t.registry - {id})
    else t.(waits := t.waits[w := ToCancel(t.registry[id].fiber, id)])
  }

  /** The wait is over: a schedule forks and registers, a cancel removes whatever the id has now. */
  function Resumed(t: Timers, w: nat, now: int): Timers
    requires w in t.waits
  {
    var u := t.(waits := t.waits - {w},
                rounds := map g | g in t.rounds ::
                  (if t.rounds[g].waiting == Some(w) then t.rounds[g].(waiting := None) else t.rounds[g]));
    match t.waits[w]
    case ToSchedule(_, id, callRef, delay) => Forked(u, callRef, id, now + delay)
    case ToCancel(_, id) => u.(registry := u.registry - {id})
  }

  function RoundBegun(t: Timers, g: nat, callRef: string, ids: seq<string>): Timers {
    t.(rounds := t.rounds[g := Round(callRef, |t.fibers|, ids, None)])
  }

  function RoundNext(t: Timers, caller: Option<nat>, w: nat, g: nat): Timers
    requires g in t.rounds && t.rounds[g].todo != []
  {
    var round := t.rounds[g];
    var u := CancelBegun(t, caller, w, round.todo[0]);
    u.(rounds := u.rounds[g := round.(todo := round.todo[1..], waiting := if w in u.waits then Some(w) else None)])
  }

  class TimerService {
    var registry: map<string, Entry>
    var fibers: seq<Fiber>
    var waits: map<nat, Wait>
    var rounds: map<nat, Round>

    constructor ()
      ensures State() == START
    {
      registry, fibers, waits, rounds := map[], [], map[], map[];
    }

    ghost function State(): Timers
      reads this
    {
      Timers(registry, fibers, waits, rounds)
    }

    method Fork(callRef: string, id: string, wakeAt: int)
      modifies this
      ensures State() == Forked(old(State()), callRef, id, wakeAt)
    {
      registry := registry[id := Entry(|fibers|, callRef)];
      fibers := fibers + [Fiber(id, callRef, wakeAt, Sleeping)];
    }

    /** Up to the wait for the prior fiber, or to the end if there is nothing to wait for. */
    method Schedule(caller: Option<nat>, w: nat, callRef: string, id: string, fireAt: int, now: int)
      modifies this
      ensures State() == ScheduleBegun(old(State()), caller, w, callRef, id, fireAt, now)
    {
      var delayMs := if fireAt - now > 0 then fireAt - now else 0;
      if id in registry && Some(registry[id].fiber) != caller {
        waits := waits[w := ToSchedule(registry[id].fiber, id, callRef, delayMs)];
        return;
      }
      Fork(callRef, id, now + delayMs);
    }

    method Cancel(caller: Option<nat>, w: nat, id: string)
      modifies this`registry, this`waits
      ensures State() == CancelBegun(old(State()), caller, w, id)
    {
      if id !in registry {
        return;
      }
      if Some(registry[id].fiber) == caller {
        registry := registry - {id};
        return;
      }
      waits := waits[w := ToCancel(registry[id].fiber, id)];
    }

    /** What follows the wait, in a schedule or in a cancel. */
    method Resume(w: nat, now: int)
      requires w in waits
      modifies this
      ensures State() == Resumed(old(State()), w, now)
    {
      var wait := waits[w];
      waits := waits - {w};
      rounds := map g | g in rounds :: if rounds[g].waiting == Some(w) then rounds[g].(waiting := None) else rounds[g];
      match wait {
        case ToSchedule(_, id, callRef, delay) => Fork(callRef, id, now + delay);
        case ToCancel(_, id) => registry := registry - {id};
      }
    }

    /** First the ids of the call are collected. */
    method BeginCancelAll(g: nat, callRef: string) returns (ids: seq<string>)
      modifies this`rounds
      ensures forall id :: id in ids <==> id in registry && registry[id].callRef == callRef
      ensures State() == RoundBegun(old(State()), g, callRef, ids)
    {
      ids := [];
      var rest := registry.Keys;
      while rest != {}
        invariant rest <= registry.Keys && rounds == old(rounds)
        invariant forall id :: id in ids <==> id in registry && id !in rest && registry[id].callRef == callRef
        decreases |rest|
      {
        var id :| id in rest;
        if registry[id].callRef == callRef {
          ids := ids + [id];
        }
        rest := rest - {id};
      }
      rounds := rounds[g := Round(callRef, |fibers|, ids, None)];
    }

    /** Then each is cancelled, one after the other. */
    method CancelNext(caller: Option<nat>, w: nat, g: nat)
      requires g in rounds && rounds[g].todo != []
      modifies this`registry, this`waits, this`rounds
      ensures State() == RoundNext(old(State()), caller, w, g)
    {
      var round := rounds[g];
      Cancel(caller, w, round.todo[0]);
      rounds := rounds[g := round.(todo := round.todo[1..], waiting := if w in waits then Some(w) else None)];
    }

    method FiberExit(f: nat)
      requires f < |fibers|
      modifies this`registry, this`fibers
      ensures State() == Exited(old(State()), f)
    {
      var id := fibers[f].id;
      if id in registry && registry[id].fiber == f {
        registry := registry - {id};
      }
      fibers := fibers[f := fibers[f].(status := Done)];
    }
  }

  // ---- Runs ---------------------------------------------------------------------------------

  /** `w` and `g` are fresh names for the wait and the cancel-all a request may begin. */
  datatype Op =
    | Schedule(caller: Option<nat>, w: nat, callRef: string, id: string, fireAt: int, now: int)
    | Cancel(caller: Option<nat>, w: nat, id: string)
    | BeginCancelAll(g: nat, callRef: string, ids: seq<string>)
    | CancelNext(caller: Option<nat>, w: nat, g: nat)
    | EndCancelAll(g: nat)
    | Fire(fiber: nat)
    | Exit(fiber: nat)
    | Resume(w: nat, now: int)

  /** A running fiber may end at any time, a sleeping one when it is interrupted; a wait ends with its fiber. */
  ghost predicate Enabled(t: Timers, op: Op) {
    match op
    case Schedule(caller, w, _, _, _, _) => t.CallerRuns(caller) && w !in t.waits
    case Cancel(caller, w, _) => t.CallerRuns(caller) && w !in t.waits
    case BeginCancelAll(g, callRef, ids) =>
      g !in t.rounds && forall id :: id in ids <==> id in t.registry && t.registry[id].callRef == callRef
    case CancelNext(caller, w, g) =>
      && t.CallerRuns(caller) && w !in t.waits
      && g in t.rounds && t.rounds[g].todo != [] && t.rounds[g].waiting.None?
    case EndCancelAll(g) => Finished(t, g)
    case Fire(f) => f < |t.fibers| && t.fibers[f].status == Sleeping && !t.Interrupted(f)
    case Exit(f) => t.Alive(f) && (t.fibers[f].status == Running || t.Interrupted(f))
    case Resume(w, _) => w in t.waits && t.waits[w].prior < |t.fibers| && !t.Alive(t.waits[w].prior)
  }

  predicate Finished(t: Timers, g: nat) {
    g in t.rounds && t.rounds[g].todo == [] && t.rounds[g].waiting.None?
  }

  function Next(t: Timers, op: Op): Timers {
    match op
    case Schedule(caller, w, callRef, id, fireAt, now) => ScheduleBegun(t, caller, w, callRef, id, fireAt, now)
    case Cancel(caller, w, id) => CancelBegun(t, caller, w, id)
    case BeginCancelAll(g, callRef, ids) => RoundBegun(t, g, callRef, ids)
    case CancelNext(caller, w, g) => if g in t.rounds && t.rounds[g].todo != [] then RoundNext(t, caller, w, g) else t
    case EndCancelAll(g) => t.(rounds := t.rounds - {g})
    case Fire(f) => if f < |t.fibers| then Fired(t, f) else t
    case Exit(f) => if f < |t.fibers| then Exited(t, f) else t
    case Resume(w, now) => if w in t.waits then Resumed(t, w, now) else t
  }

  ghost predicate IsRun(t: Timers, ops: seq<Op>)
    decreases |ops|
  {
    ops == [] || (Enabled(t, ops[0]) && IsRun(Next(t, ops[0]), ops[1..]))
  }

  function RunEnd(t: Timers, ops: seq<Op>): Timers
    decreases |ops|
  {
    if ops == [] then t else RunEnd(Next(t, ops[0]), ops[1..])
  }

  // ---- The invariants -----------------------------------------------------------------------

  /** An entry names a live fiber of its id and call, a wait a fiber of its id. */
  ghost predicate Matched(t: Timers) {
    && (forall id :: id in t.registry ==>
          && t.Alive(t.registry[id].fiber)
          && t.fibers[t.registry[id].fiber].id == id
          && t.fibers[t.registry[id].fiber].callRef == t.registry[id].callRef)
    && (forall w :: w in t.waits ==> t.waits[w].prior < |t.fibers| && t.fibers[t.waits[w].prior].id == t.waits[w].id)
  }

  /** A sleeping fiber has its entry, so that it can be found and cancelled. */
  ghost predicate Covered(t: Timers) {
    forall f: nat :: f < |t.fibers| && t.fibers[f].status == Sleeping ==> t.Registered(f)
  }

  /** While a request waits, the id has the fiber it waits for, or none. */
  ghost predicate Undisturbed(t: Timers) {
    forall w :: w in t.waits && t.waits[w].id in t.registry ==> t.registry[t.waits[w].id].fiber == t.waits[w].prior
  }

  /** No two requests wait on one id, but for cancels. */
  ghost predicate NoOverlap(t: Timers) {
    forall v, w :: v in t.waits && w in t.waits && v != w && t.waits[v].id == t.waits[w].id ==>
      t.waits[v].ToCancel? && t.waits[w].ToCancel?
  }

  ghost predicate Sound(t: Timers) {
    Matched(t) && Covered(t) && Undisturbed(t) && NoOverlap(t)
  }

  /** An entry of the call that was there when the cancel-all began. */
  predicate OlderEntry(t: Timers, round: Round, id: string) {
    id in t.registry && t.registry[id].callRef == round.callRef && t.registry[id].fiber < round.since
  }

  /** A cancel-all has every older entry of its call still before it, or is waiting for its fiber. */
  ghost predicate RoundOk(t: Timers, round: Round) {
    && round.since <= |t.fibers|
    && forall id :: OlderEntry(t, round, id) ==>
         || id in round.todo
         || (round.waiting.Some? && round.waiting.value in t.waits
             && t.waits[round.waiting.value] == ToCancel(t.registry[id].fiber, id))
  }

  ghost predicate RoundsOk(t: Timers) {
    forall g :: g in t.rounds ==> RoundOk(t, t.rounds[g])
  }

  // ---- What a request owes ------------------------------------------------------------------

  ghost predicate WaitedOn(t: Timers, id: string) {
    exists w :: w in t.waits && t.waits[w].id == id
  }

  ghost predicate ScheduleWaits(t: Timers, id: string) {
    exists w :: w in t.waits && t.waits[w].id == id && t.waits[w].ToSchedule?
  }

  /** A cancel that has a fiber to wait for finds no schedule of its id waiting. */
  ghost predicate CancelFits(t: Timers, caller: Option<nat>, id: string) {
    id in t.registry && Some(t.registry[id].fiber) != caller ==> !ScheduleWaits(t, id)
  }

  /** No schedule of an id overlaps another schedule or a cancel of it. */
  ghost predicate Fits(t: Timers, op: Op) {
    match op
    case Schedule(_, _, _, id, _, _) => !WaitedOn(t, id)
    case Cancel(caller, _, id) => CancelFits(t, caller, id)
    case CancelNext(caller, _, g) => g in t.rounds && t.rounds[g].todo != [] ==>
        CancelFits(t, caller, t.rounds[g].todo[0])
    case _ => true
  }

  ghost predicate AllFit(t: Timers, ops: seq<Op>)
    decreases |ops|
  {
    ops == [] || (Fits(t, ops[0]) && AllFit(Next(t, ops[0]), ops[1..]))
  }

  // ---- Each step keeps the registry sound ---------------------------------------------------

  lemma ExitKeepsSound(t: Timers, f: nat)
    requires Sound(t) && t.Alive(f)
    ensures Sound(Exited(t, f))
  {
    var u := Exited(t, f);
    forall g: nat | g < |u.fibers| && u.fibers[g].status == Sleeping
      ensures u.Registered(g)
    {
      assert t.Registered(g);
    }
  }

  lemma FireKeepsSound(t: Timers, f: nat)
    requires Sound(t) && f < |t.fibers| && t.fibers[f].status == Sleeping
    ensures Sound(Fired(t, f))
  {
    var u := Fired(t, f);
    forall g: nat | g < |u.fibers| && u.fibers[g].status == Sleeping
      ensures u.Registered(g)
    {
      assert t.Registered(g);
    }
  }

  /** A new fiber may take an id that no request waits on and no sleeper has. */
  lemma ForkKeepsSound(t: Timers, callRef: string, id: string, wakeAt: int)
    requires Sound(t) && !WaitedOn(t, id)
    requires id in t.registry ==> t.fibers[t.registry[id].fiber].status == Running
    ensures Sound(Forked(t, callRef, id, wakeAt))
  {
    var u := Forked(t, callRef, id, wakeAt);
    forall g: nat | g < |u.fibers| && u.fibers[g].status == Sleeping
      ensures u.Registered(g)
    {
      assert g < |t.fibers| ==> t.Registered(g);
    }
  }

  lemma DropKeepsSound(t: Timers, id: string)
    requires Sound(t) && (id in t.registry ==> t.fibers[t.registry[id].fiber].status == Running)
    ensures Sound(t.(registry := t.registry - {id}))
  {
    var u := t.(registry := t.registry - {id});
    forall g: nat | g < |u.fibers| && u.fibers[g].status == Sleeping
      ensures u.Registered(g)
    {
      assert t.Registered(g);
    }
  }

  lemma WaitKeepsSound(t: Timers, w: nat, wait: Wait)
    requires Sound(t) && w !in t.waits && wait.id in t.registry && wait.prior == t.registry[wait.id].fiber
    requires if wait.ToSchedule? then !WaitedOn(t, wait.id) else !ScheduleWaits(t, wait.id)
    ensures Sound(t.(waits := t.waits[w := wait]))
  {
    assert forall f: nat :: t.(waits := t.waits[w := wait]).Registered(f) <==> t.Registered(f);
  }

  lemma ScheduleKeepsSound(t: Timers, caller: Option<nat>, w: nat, callRef: string, id: string, fireAt: int, now: int)
    requires Sound(t) && t.CallerRuns(caller) && w !in t.waits && !WaitedOn(t, id)
    ensures Sound(ScheduleBegun(t, caller, w, callRef, id, fireAt, now))
  {
    if id in t.registry && Some(t.registry[id].fiber) != caller {
      WaitKeepsSound(t, w, ToSchedule(t.registry[id].fiber, id, callRef, Delay(fireAt, now)));
    } else {
      ForkKeepsSound(t, callRef, id, now + Delay(fireAt, now));
    }
  }

  lemma CancelKeepsSound(t: Timers, caller: Option<nat>, w: nat, id: string)
    requires Sound(t) && t.CallerRuns(caller) && w !in t.waits && CancelFits(t, caller, id)
    ensures Sound(CancelBegun(t, caller, w, id))
  {
    if id in t.registry {
      if Some(t.registry[id].fiber) == caller {
        DropKeepsSound(t, id);
      } else {
        WaitKeepsSound(t, w, ToCancel(t.registry[id].fiber, id));
      }
    }
  }

  /** When the awaited fiber has ended the id is free. */
  lemma ResumeFindsFree(t: Timers, w: nat)
    requires Sound(t) && w in t.waits && !t.Alive(t.waits[w].prior)
    ensures t.waits[w].id !in t.registry
  {
  }

  lemma ResumeKeepsSound(t: Timers, w: nat, now: int)
    requires Sound(t) && Enabled(t, Resume(w, now))
    ensures Sound(Resumed(t, w, now))
  {
    ResumeFindsFree(t, w);
    var u := Resumed(t, w, now);
    var rest := t.(waits := t.waits - {w}, rounds := u.rounds);
    assert Sound(rest) by {
      assert forall f: nat :: rest.Registered(f) <==> t.Registered(f);
    }
    match t.waits[w]
    case ToSchedule(_, id, callRef, delay) =>
      assert !WaitedOn(rest, id);
      ForkKeepsSound(rest, callRef, id, now + delay);
    case ToCancel(_, id) =>
      DropKeepsSound(rest, id);
  }

  lemma StepKeepsSound(t: Timers, op: Op)
    requires Sound(t) && Enabled(t, op) && Fits(t, op)
    ensures Sound(Next(t, op))
  {
    match op
    case Schedule(caller, w, callRef, id, fireAt, now) => ScheduleKeepsSound(t, caller, w, callRef, id, fireAt, now);
    case Cancel(caller, w, id) => CancelKeepsSound(t, caller, w, id);
    case CancelNext(caller, w, g) =>
      CancelKeepsSound(t, caller, w, t.rounds[g].todo[0]);
      RoundsDoNotMatter(CancelBegun(t, caller, w, t.rounds[g].todo[0]), Next(t, op).rounds);
    case BeginCancelAll(_, _, _) => RoundsDoNotMatter(t, Next(t, op).rounds);
    case EndCancelAll(_) => RoundsDoNotMatter(t, Next(t, op).rounds);
    case Fire(f) => FireKeepsSound(t, f);
    case Exit(f) => ExitKeepsSound(t, f);
    case Resume(w, now) => ResumeKeepsSound(t, w, now);
  }

  lemma RoundsDoNotMatter(t: Timers, rounds: map<nat, Round>)
    requires Sound(t)
    ensures Sound(t.(rounds := rounds))
  {
    assert forall f: nat :: t.(rounds := rounds).Registered(f) <==> t.Registered(f);
  }

  // ---- Each step keeps the rounds -----------------------------------------------------------

  /** Entries only go, or come with a new fiber; waits that a round is in stay. */
  lemma RoundStays(t: Timers, u: Timers, round: Round)
    requires RoundOk(t, round) && |t.fibers| <= |u.fibers|
    requires forall id :: id in u.registry ==>
               u.registry[id].fiber >= |t.fibers| || (id in t.registry && u.registry[id] == t.registry[id])
    requires round.waiting.Some? && round.waiting.value in t.waits ==>
               round.waiting.value in u.waits && u.waits[round.waiting.value] == t.waits[round.waiting.value]
    ensures RoundOk(u, round)
  {
  }

  lemma ResumeKeepsRound(t: Timers, w: nat, now: int, g: nat)
    requires Sound(t) && Enabled(t, Resume(w, now)) && g in t.rounds && RoundOk(t, t.rounds[g])
    ensures RoundOk(Resumed(t, w, now), Resumed(t, w, now).rounds[g])
  {
    ResumeFindsFree(t, w);
    var u := Resumed(t, w, now);
    if t.rounds[g].waiting != Some(w) {
      RoundStays(t, u, t.rounds[g]);
    }
  }

  lemma CancelNextKeepsRounds(t: Timers, caller: Option<nat>, w: nat, g: nat)
    requires RoundsOk(t) && Enabled(t, CancelNext(caller, w, g))
    ensures RoundsOk(RoundNext(t, caller, w, g))
  {
    var u := RoundNext(t, caller, w, g);
    var round := t.rounds[g];
    assert round.todo == [round.todo[0]] + round.todo[1..];
    assert RoundOk(t, round);
    forall h | h in u.rounds
      ensures RoundOk(u, u.rounds[h])
    {
      if h != g {
        RoundStays(t, u, t.rounds[h]);
      }
    }
  }

  lemma StepKeepsRounds(t: Timers, op: Op)
    requires Sound(t) && RoundsOk(t) && Enabled(t, op)
    ensures RoundsOk(Next(t, op))
  {
    var u := Next(t, op);
    if op.CancelNext? {
      CancelNextKeepsRounds(t, op.caller, op.w, op.g);
    } else {
      forall g | g in u.rounds
        ensures RoundOk(u, u.rounds[g])
      {
        if op.Resume? {
          ResumeKeepsRound(t, op.w, op.now, g);
        } else if !(op.BeginCancelAll? && op.g == g) {
          assert RoundOk(t, t.rounds[g]);
          RoundStays(t, u, t.rounds[g]);
        }
      }
    }
  }

  /** Over every run whose requests fit, the registry stays sound and every cancel-all on course. */
  lemma {:induction false} RunKeepsSound(t: Timers, ops: seq<Op>)
    requires Sound(t) && RoundsOk(t) && IsRun(t, ops) && AllFit(t, ops)
    ensures Sound(RunEnd(t, ops)) && RoundsOk(RunEnd(t, ops))
    decreases |ops|
  {
    if ops != [] {
      StepKeepsSound(t, ops[0]);
      StepKeepsRounds(t, ops[0]);
      RunKeepsSound(Next(t, ops[0]), ops[1..]);
    }
  }

  lemma StartSound()
    ensures Sound(START) && RoundsOk(START)
  {
  }

  // ---- Exactly when requests fit ------------------------------------------------------------

  /** Steps that no new request takes part in. */
  predicate Quiet(ops: seq<Op>) {
    forall i :: 0 <= i < |ops| ==> ops[i].Fire? || ops[i].Exit? || ops[i].Resume?
  }

  /** However the waits and fibers under way end, no sleeping fiber loses its entry. */
  ghost predicate StaysCovered(t: Timers) {
    forall ops :: Quiet(ops) && IsRun(t, ops) ==> Covered(RunEnd(t, ops))
  }

  lemma {:induction false} QuietKeepsSound(t: Timers, ops: seq<Op>)
    requires Sound(t) && Quiet(ops) && IsRun(t, ops)
    ensures Sound(RunEnd(t, ops))
    decreases |ops|
  {
    if ops != [] {
      StepKeepsSound(t, ops[0]);
      assert Quiet(ops[1..]) by {
        assert forall i :: 0 <= i < |ops| - 1 ==> ops[1..][i] == ops[i + 1];
      }
      QuietKeepsSound(Next(t, ops[0]), ops[1..]);
    }
  }

  lemma Prepend(t: Timers, op: Op, rest: seq<Op>)
    requires Enabled(t, op) && (op.Fire? || op.Exit? || op.Resume?) && Quiet(rest) && IsRun(Next(t, op), rest)
    ensures Quiet([op] + rest) && IsRun(t, [op] + rest) && RunEnd(t, [op] + rest) == RunEnd(Next(t, op), rest)
  {
    assert ([op] + rest)[1..] == rest;
  }

  /** A wait over an id whose entry is a sleeper forked meanwhile takes that entry away. */
  lemma ResumeUncovers(t: Timers, w: nat, f: nat) returns (ops: seq<Op>)
    requires w in t.waits && t.waits[w].prior < |t.fibers| && t.waits[w].prior != f
    requires f < |t.fibers| && t.fibers[f].status == Sleeping && t.fibers[f].id == t.waits[w].id
    ensures Quiet(ops) && IsRun(t, ops) && !Covered(RunEnd(t, ops))
  {
    var prior := t.waits[w].prior;
    var u := if t.Alive(prior) then Exited(t, prior) else t;
    var resumed := Resumed(u, w, 0);
    assert !resumed.Registered(f) && resumed.fibers[f].status == Sleeping;
    assert IsRun(resumed, []) && RunEnd(resumed, []) == resumed;
    Prepend(u, Resume(w, 0), []);
    ops := [Resume(w, 0)] + [];
    if t.Alive(prior) {
      assert t.Interrupted(prior);
      Prepend(t, Exit(prior), ops);
      ops := [Exit(prior)] + ops;
    }
  }

  /** Two waits on one id, one of them a schedule's: it may resume first, and the other takes its entry away. */
  lemma OverlapUncovers(t: Timers, v: nat, w: nat) returns (ops: seq<Op>)
    requires Matched(t) && v in t.waits && w in t.waits && v != w
    requires t.waits[v].id == t.waits[w].id && t.waits[v].ToSchedule?
    ensures Quiet(ops) && IsRun(t, ops) && !Covered(RunEnd(t, ops))
  {
    var prior := t.waits[v].prior;
    var u := if t.Alive(prior) then Exited(t, prior) else t;
    var resumed := Resumed(u, v, 0);
    ops := ResumeUncovers(resumed, w, |u.fibers|);
    Prepend(u, Resume(v, 0), ops);
    ops := [Resume(v, 0)] + ops;
    if t.Alive(prior) {
      assert t.Interrupted(prior);
      Prepend(t, Exit(prior), ops);
      ops := [Exit(prior)] + ops;
    }
  }

  /**
   * Of the waits under way: no sleeping fiber can lose its entry exactly when no schedule of an id
   * overlaps another schedule or a cancel of it.
   */
  lemma WaitsExact(t: Timers)
    requires Matched(t) && Covered(t) && Undisturbed(t)
    ensures StaysCovered(t) <==> NoOverlap(t)
  {
    if NoOverlap(t) {
      forall ops | Quiet(ops) && IsRun(t, ops)
        ensures Covered(RunEnd(t, ops))
      {
        QuietKeepsSound(t, ops);
      }
    } else {
      var v, w :| v in t.waits && w in t.waits && v != w && t.waits[v].id == t.waits[w].id
        && !(t.waits[v].ToCancel? && t.waits[w].ToCancel?);
      var ops: seq<Op>;
      if t.waits[v].ToSchedule? {
        ops := OverlapUncovers(t, v, w);
      } else {
        ops := OverlapUncovers(t, w, v);
      }
    }
  }

  /** A schedule that finds a wait on its id. */
  lemma ScheduleOverlaps(t: Timers, op: Op) returns (ops: seq<Op>)
    requires Sound(t) && op.Schedule? && Enabled(t, op) && WaitedOn(t, op.id)
    ensures Quiet(ops) && IsRun(Next(t, op), ops) && !Covered(RunEnd(Next(t, op), ops))
  {
    var u := Next(t, op);
    var w :| w in t.waits && t.waits[w].id == op.id;
    if op.w in u.waits {
      ops := OverlapUncovers(u, op.w, w);
    } else {
      ops := ResumeUncovers(u, w, |t.fibers|);
    }
  }

  /** A cancel with a fiber to wait for, that finds a schedule of its id waiting. */
  lemma CancelOverlaps(t: Timers, caller: Option<nat>, c: nat, id: string, u: Timers) returns (ops: seq<Op>)
    requires Sound(t) && c !in t.waits && !CancelFits(t, caller, id)
    requires u == CancelBegun(t, caller, c, id).(rounds := u.rounds)
    ensures Quiet(ops) && IsRun(u, ops) && !Covered(RunEnd(u, ops))
  {
    var w :| w in t.waits && t.waits[w].id == id && t.waits[w].ToSchedule?;
    ops := OverlapUncovers(u, w, c);
  }

  /** A request is safe, however things go on, exactly when it fits. */
  lemma RequestExact(t: Timers, op: Op)
    requires Sound(t) && Enabled(t, op) && (op.Schedule? || op.Cancel? || op.CancelNext?)
    ensures StaysCovered(Next(t, op)) <==> Fits(t, op)
  {
    if Fits(t, op) {
      StepKeepsSound(t, op);
      WaitsExact(Next(t, op));
    } else {
      var ops: seq<Op>;
      if op.Schedule? {
        ops := ScheduleOverlaps(t, op);
      } else if op.Cancel? {
        ops := CancelOverlaps(t, op.caller, op.w, op.id, Next(t, op));
      } else {
        ops := CancelOverlaps(t, op.caller, op.w, t.rounds[op.g].todo[0], Next(t, op));
      }
    }
  }

  // ---- What the registry guarantees ---------------------------------------------------------

  /** After any run whose requests fit at most one fiber of an id sleeps: it is the one the registry knows. */
  lemma OneSleeperPerId(ops: seq<Op>, f: nat, g: nat)
    requires IsRun(START, ops) && AllFit(START, ops)
    requires var t := RunEnd(START, ops);
             && f < |t.fibers| && g < |t.fibers| && t.fibers[f].id == t.fibers[g].id
             && t.fibers[f].status == Sleeping && t.fibers[g].status == Sleeping
    ensures f == g
  {
    StartSound();
    RunKeepsSound(START, ops);
    var t := RunEnd(START, ops);
    assert t.Registered(f) && t.Registered(g);
  }

  /** The exit of a superseded fiber leaves its successor's entry alone, also after rescheduling itself. */
  lemma SupersededExitIsHarmless(t: Timers, f: nat, w: nat, callRef: string, fireAt: int, now: int)
    requires t.Registered(f) && t.fibers[f].status == Running
    ensures var id, successor := t.fibers[f].id, |t.fibers|;
            var after := Exited(ScheduleBegun(t, Some(f), w, callRef, id, fireAt, now), f);
            && id in after.registry && after.registry[id] == Entry(successor, callRef)
            && after.fibers[successor].status == Sleeping
            && after.fibers[successor].wakeAt >= now && after.fibers[successor].wakeAt >= fireAt
  {
  }

  /** A timer that cancels itself keeps running, and its exit finds nothing to remove. */
  lemma SelfCancelIsHarmless(t: Timers, f: nat, w: nat)
    requires t.Registered(f) && t.fibers[f].status == Running
    ensures var id := t.fibers[f].id;
            var cancelled := CancelBegun(t, Some(f), w, id);
            && id !in cancelled.registry && cancelled.fibers == t.fibers && cancelled.waits == t.waits
            && Exited(cancelled, f).registry == cancelled.registry
  {
  }

  /** A schedule that had to wait ends with its own fiber registered and every other of the id out of the way. */
  lemma RescheduleReplaces(t: Timers, w: nat, now: int)
    requires Sound(t) && Enabled(t, Resume(w, now)) && t.waits[w].ToSchedule?
    ensures var wait, after := t.waits[w], Resumed(t, w, now);
            && wait.id in after.registry && after.registry[wait.id] == Entry(|t.fibers|, wait.callRef)
            && after.fibers[|t.fibers|].wakeAt == now + wait.delay
            && (forall f: nat :: f < |t.fibers| && t.fibers[f].id == wait.id && after.Alive(f) ==>
                t.fibers[f].status == Running)
            && (forall other :: other != wait.id && other in t.registry ==>
                other in after.registry && after.registry[other] == t.registry[other])
  {
    ResumeFindsFree(t, w);
    assert forall f: nat :: f < |t.fibers| && t.fibers[f].status == Sleeping ==> t.Registered(f);
  }

  /**
   * When a cancel-all is through, no fiber of the call that was there when it began is registered or
   * asleep; what still runs of them had been superseded. Whatever sleeps was scheduled meanwhile.
   */
  lemma CancelAllSilences(t: Timers, g: nat)
    requires Sound(t) && RoundsOk(t) && Finished(t, g)
    ensures var round := t.rounds[g];
            && (forall id :: id in t.registry && t.registry[id].callRef == round.callRef ==>
                t.registry[id].fiber >= round.since)
            && (forall f: nat :: f < round.since && t.Serves(f, round.callRef) ==>
                  t.fibers[f].status == Running && !t.Registered(f))
  {
    assert RoundOk(t, t.rounds[g]);
    forall f: nat | f < t.rounds[g].since && t.Serves(f, t.rounds[g].callRef)
      ensures t.fibers[f].status == Running && !t.Registered(f)
    {
      assert t.fibers[f].status == Sleeping ==> t.Registered(f);
    }
  }

  ghost predicate Silent(t: Timers, callRef: string) {
    && (forall id :: id in t.registry ==> t.registry[id].callRef != callRef)
    && (forall f: nat :: f < |t.fibers| && t.fibers[f].callRef == callRef ==> t.fibers[f].status != Sleeping)
  }

  /** It leaves the call silent exactly when nothing scheduled meanwhile is still registered. */
  lemma CancelAllExact(t: Timers, g: nat)
    requires Sound(t) && RoundsOk(t) && Finished(t, g)
    ensures var round := t.rounds[g];
            Silent(t, round.callRef)
            <==> forall f: nat :: round.since <= f < |t.fibers| && t.fibers[f].callRef == round.callRef ==>
                !t.Registered(f)
  {
    var round := t.rounds[g];
    CancelAllSilences(t, g);
    if forall f: nat :: round.since <= f < |t.fibers| && t.fibers[f].callRef == round.callRef ==> !t.Registered(f) {
      forall id | id in t.registry
        ensures t.registry[id].callRef != round.callRef
      {
        assert t.Registered(t.registry[id].fiber);
      }
      assert forall f: nat :: f < |t.fibers| && t.fibers[f].status == Sleeping ==> t.Registered(f);
    }
  }

  // ---- Runs that show what the conditions are for -------------------------------------------

  lemma {:induction false} RunsOn(t: Timers, ops: seq<Op>, states: seq<Timers>)
    requires |states| == |ops| + 1 && states[0] == t
    requires forall i :: 0 <= i < |ops| ==> Enabled(states[i], ops[i]) && states[i + 1] == Next(states[i], ops[i])
    ensures IsRun(t, ops) && RunEnd(t, ops) == states[|ops|]
    ensures (forall i :: 0 <= i < |ops| ==> Fits(states[i], ops[i])) ==> AllFit(t, ops)
    decreases |ops|
  {
    if ops != [] {
      assert states[1..][0] == states[1];
      RunsOn(states[1], ops[1..], states[1..]);
    }
  }

  /** `id` is scheduled once. */
  function OneTimer(callRef: string, id: string, wakeAt: int, status: Status): Timers {
    Timers(map[id := Entry(0, callRef)], [Fiber(id, callRef, wakeAt, status)], map[], map[])
  }

  /** Its handler is running; a schedule and a cancel-all both wait for it. */
  function BothWait(callRef: string, id: string): Timers {
    OneTimer(callRef, id, 10, Running).(
      waits := map[0 := ToSchedule(0, id, callRef, 19), 1 := ToCancel(0, id)],
      rounds := map[0 := Round(callRef, 1, [], Some(1))])
  }

  lemma BothComeToWait(callRef: string, id: string)
    ensures var ops := [Schedule(None, 0, callRef, id, 10, 0), Fire(0), Schedule(None, 0, callRef, id, 30, 11),
                        BeginCancelAll(0, callRef, [id]), CancelNext(None, 1, 0)];
            IsRun(START, ops) && RunEnd(START, ops) == BothWait(callRef, id)
  {
    var ops := [Schedule(None, 0, callRef, id, 10, 0), Fire(0), Schedule(None, 0, callRef, id, 30, 11),
                BeginCancelAll(0, callRef, [id]), CancelNext(None, 1, 0)];
    var one, running := OneTimer(callRef, id, 10, Sleeping), OneTimer(callRef, id, 10, Running);
    var waiting := running.(waits := map[0 := ToSchedule(0, id, callRef, 19)]);
    var begun := waiting.(rounds := map[0 := Round(callRef, 1, [id], None)]);
    assert [id][1..] == [];
    assert Next(begun, ops[4]).rounds == BothWait(callRef, id).rounds;
    RunsOn(START, ops, [START, one, running, waiting, begun, BothWait(callRef, id)]);
  }

  /** The cancel-all is through, nothing is registered, and the fiber forked meanwhile sleeps. */
  function Lost(callRef: string, id: string): Timers {
    Timers(map[], [Fiber(id, callRef, 10, Done), Fiber(id, callRef, 31, Sleeping)],
           map[], map[0 := Round(callRef, 1, [], None)])
  }

  /**
   * One schedule of an id and a cancel-all, both waiting for the same running handler: the schedule
   * resumes first, the cancel then removes the new entry. The cancel-all is through, the new fiber
   * sleeps unregistered, and one more schedule gives the id a second sleeper.
   */
  lemma OverlappingCancelLosesTimer(callRef: string, id: string)
    ensures var ops, t := [Exit(0), Resume(0, 12), Resume(1, 12)], Lost(callRef, id);
            && IsRun(BothWait(callRef, id), ops) && RunEnd(BothWait(callRef, id), ops) == t
            && Finished(t, 0) && !Covered(t)
            && var again := Schedule(None, 0, callRef, id, 40, 13);
            && Enabled(t, again)
            && Next(t, again).fibers == t.fibers + [Fiber(id, callRef, 40, Sleeping)]
  {
    var both, lost := BothWait(callRef, id), Lost(callRef, id);
    var ended := both.(registry := map[], fibers := [Fiber(id, callRef, 10, Done)]);
    var forked := Timers(map[id := Entry(1, callRef)], lost.fibers, map[1 := ToCancel(0, id)], both.rounds);
    assert Exited(both, 0).registry == map[];
    assert Resumed(ended, 0, 12).waits == map[1 := ToCancel(0, id)];
    assert Resumed(ended, 0, 12).rounds == both.rounds;
    assert Resumed(forked, 1, 12).registry == map[] && Resumed(forked, 1, 12).waits == map[];
    assert Resumed(forked, 1, 12).rounds == lost.rounds;
    RunsOn(both, [Exit(0), Resume(0, 12), Resume(1, 12)], [both, ended, forked, lost]);
    assert lost.fibers[1].status == Sleeping && !lost.Registered(1);
  }

  /**
   * A request waits for nothing but its fiber's end. Should that fiber in turn wait for the request,
   * as a handler's own request does if it is not recognised as the fiber's, neither ever comes: over
   * every run in which the fiber does not end first, the request is still waiting and the fiber alive.
   */
  lemma {:induction false} MutualWaitNeverEnds(t: Timers, w: nat, ops: seq<Op>)
    requires w in t.waits && t.Alive(t.waits[w].prior) && IsRun(t, ops)
    requires forall i :: 0 <= i < |ops| ==> ops[i] != Exit(t.waits[w].prior)
    ensures var end := RunEnd(t, ops);
            w in end.waits && end.waits[w] == t.waits[w] && end.Alive(t.waits[w].prior)
    ensures forall now :: !Enabled(RunEnd(t, ops), Resume(w, now))
    decreases |ops|
  {
    if ops != [] {
      assert forall i :: 0 <= i < |ops| - 1 ==> ops[1..][i] == ops[i + 1];
      MutualWaitNeverEnds(Next(t, ops[0]), w, ops[1..]);
    }
  }

  /** A handler that rescheduled itself runs on, unregistered, while its successor sleeps. */
  function Superseded(callRef: string, id: string): Timers {
    Timers(map[id := Entry(1, callRef)], [Fiber(id, callRef, 0, Running), Fiber(id, callRef, 10, Sleeping)],
           map[], map[])
  }

  lemma HandlerReschedules(callRef: string, id: string)
    ensures var ops := [Schedule(None, 0, callRef, id, 0, 0), Fire(0), Schedule(Some(0), 0, callRef, id, 10, 0)];
            IsRun(START, ops) && AllFit(START, ops) && RunEnd(START, ops) == Superseded(callRef, id)
  {
    var ops := [Schedule(None, 0, callRef, id, 0, 0), Fire(0), Schedule(Some(0), 0, callRef, id, 10, 0)];
    var one := OneTimer(callRef, id, 0, Sleeping);
    RunsOn(START, ops, [START, one, Fired(one, 0), Superseded(callRef, id)]);
  }

  /** Another's cancel-all waits for the successor. */
  function SuccessorAwaited(callRef: string, id: string): Timers {
    Superseded(callRef, id).(waits := map[0 := ToCancel(1, id)], rounds := map[0 := Round(callRef, 2, [], Some(0))])
  }

  lemma CancelAllFindsSuccessor(callRef: string, id: string)
    ensures var start, ops := Superseded(callRef, id), [BeginCancelAll(0, callRef, [id]), CancelNext(None, 0, 0)];
            IsRun(start, ops) && AllFit(start, ops) && RunEnd(start, ops) == SuccessorAwaited(callRef, id)
  {
    var start, ops := Superseded(callRef, id), [BeginCancelAll(0, callRef, [id]), CancelNext(None, 0, 0)];
    var begun := start.(rounds := map[0 := Round(callRef, 2, [id], None)]);
    assert [id][1..] == [];
    assert RoundNext(begun, None, 0, 0).rounds == SuccessorAwaited(callRef, id).rounds;
    RunsOn(start, ops, [start, begun, SuccessorAwaited(callRef, id)]);
  }

  /** It silences the call, all requests having fitted, and the handler is still there. */
  lemma SupersededHandlerSurvives(callRef: string, id: string)
    ensures var start, ops := SuccessorAwaited(callRef, id), [Exit(1), Resume(0, 1)];
            var t := RunEnd(start, ops);
            && IsRun(start, ops) && AllFit(start, ops) && Finished(t, 0)
            && t.registry == map[]
            && t.fibers == [Fiber(id, callRef, 0, Running), Fiber(id, callRef, 10, Done)]
  {
    var waiting, ops := SuccessorAwaited(callRef, id), [Exit(1), Resume(0, 1)];
    var fibers := [Fiber(id, callRef, 0, Running), Fiber(id, callRef, 10, Done)];
    var ended := waiting.(registry := map[], fibers := fibers);
    var through := Timers(map[], fibers, map[], map[0 := Round(callRef, 2, [], None)]);
    assert waiting.Interrupted(1) by {
      assert 0 in waiting.waits && waiting.waits[0].prior == 1;
    }
    assert Exited(waiting, 1).registry == map[];
    assert Resumed(ended, 0, 1).rounds == through.rounds && Resumed(ended, 0, 1).waits == map[];
    RunsOn(waiting, ops, [waiting, ended, through]);
  }

  // ---- Wake times ---------------------------------------------------------------------------

  /** Everything that was in the registry and slept stays as it was, but for the entry of `id`. */
  predicate OthersStay(t: Timers, u: Timers, id: string) {
    && |t.fibers| <= |u.fibers| && u.fibers[..|t.fibers|] == t.fibers
    && u.registry - {id} == t.registry - {id}
  }

  /** The newest fiber sleeps until `wakeAt`, registered for its call. */
  predicate SleepsUntil(t: Timers, u: Timers, callRef: string, id: string, wakeAt: int) {
    && OthersStay(t, u, id)
    && u.fibers == t.fibers + [Fiber(id, callRef, wakeAt, Sleeping)]
    && u.Registered(|t.fibers|) && u.registry[id].callRef == callRef
  }

  /** With no fiber to wait for, a schedule sleeps until the timer's time, or wakes at once if that has passed. */
  lemma ScheduledWakes(t: Timers, caller: Option<nat>, w: nat, callRef: string, id: string, fireAt: int, now: int)
    requires id in t.registry ==> Some(t.registry[id].fiber) == caller
    ensures SleepsUntil(t, ScheduleBegun(t, caller, w, callRef, id, fireAt, now), callRef, id,
                        if fireAt > now then fireAt else now)
  {
  }

  /** A wait is what it was until it is resumed. */
  lemma {:induction false} WaitLasts(t: Timers, ops: seq<Op>, w: nat)
    requires w in t.waits && IsRun(t, ops)
    requires forall op :: op in ops && op.Resume? ==> op.w != w
    ensures w in RunEnd(t, ops).waits && RunEnd(t, ops).waits[w] == t.waits[w]
    decreases |ops|
  {
    if ops != [] {
      assert ops[0] in ops;
      WaitLasts(Next(t, ops[0]), ops[1..], w);
    }
  }

  /**
   * A schedule that first waited for a prior fiber, whatever ran meanwhile: the wait adds itself to
   * the delay. A timer still due when it was asked for is late by just the time waited.
   */
  lemma ScheduledWakesLate(t: Timers, caller: Option<nat>, w: nat, callRef: string, id: string, fireAt: int, now: int,
                           ops: seq<Op>, later: int)
    requires id in t.registry && Some(t.registry[id].fiber) != caller
    requires IsRun(ScheduleBegun(t, caller, w, callRef, id, fireAt, now), ops)
    requires forall op :: op in ops && op.Resume? ==> op.w != w
    ensures var u := RunEnd(ScheduleBegun(t, caller, w, callRef, id, fireAt, now), ops);
            && w in u.waits
            && SleepsUntil(u, Resumed(u, w, later), callRef, id,
                           if fireAt > now then fireAt + (later - now) else later)
  {
    WaitLasts(ScheduleBegun(t, caller, w, callRef, id, fireAt, now), ops, w);
  }
}
