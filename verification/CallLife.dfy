/** Whole runs of the call table: generations determine content, and a purge leaves nothing behind. */
module CallLife {
  import opened Options
  import opened CallModel
  import opened Addresses
  import opened CallTable
  import KvStore
  import Cleanup
  import Teardown

  // ---- The submissions of one life ----------------------------------------------------------

  /** What a put writes: a generation and the bytes stored under it. */
  datatype Version = Version(gen: nat, body: CallTable.Body)

  /** What was submitted for a call since its last delete. */
  function Life(log: seq<Submission>, callRef: string): seq<Version> {
    if log == [] then []
    else
      var last := log[|log| - 1];
      if last.callRef != callRef then Life(log[..|log| - 1], callRef)
      else if last.Del? then []
      else Life(log[..|log| - 1], callRef) + [Version(last.callGen, last.body)]
  }

  lemma LifeAppend(log: seq<Submission>, p: Submission, callRef: string)
    ensures Life(log + [p], callRef)
         == if p.callRef != callRef then Life(log, callRef)
            else if p.Del? then []
            else Life(log, callRef) + [Version(p.callGen, p.body)]
  {
    assert (log + [p])[..|log|] == log;
  }

  /** Within one life generations never decrease, and one generation is one body. */
  predicate GenerationsDetermine(vs: seq<Version>) {
    && (forall i, j :: 0 <= i < j < |vs| ==> vs[i].gen <= vs[j].gen)
    && (forall i, j :: 0 <= i < j < |vs| && vs[i].gen == vs[j].gen ==> vs[i].body == vs[j].body)
  }

  predicate UpTo(vs: seq<Version>, gen: nat) {
    forall i :: 0 <= i < |vs| ==> vs[i].gen <= gen
  }

  predicate OneBody(vs: seq<Version>, gen: nat, body: CallTable.Body) {
    forall i :: 0 <= i < |vs| && vs[i].gen == gen ==> vs[i].body == body
  }

  lemma AppendVersion(vs: seq<Version>, gen: nat, body: CallTable.Body)
    requires GenerationsDetermine(vs) && UpTo(vs, gen) && OneBody(vs, gen, body)
    ensures var more := vs + [Version(gen, body)];
            GenerationsDetermine(more) && UpTo(more, gen) && OneBody(more, gen, body)
  {
  }

  /** Submitting a version again leaves one body to its generation. */
  lemma SubmittedIsOneBody(vs: seq<Version>, x: Version)
    requires GenerationsDetermine(vs) && x in vs
    ensures OneBody(vs, x.gen, x.body)
  {
    var j :| 0 <= j < |vs| && vs[j] == x;
    forall i | 0 <= i < |vs| && vs[i].gen == x.gen
      ensures vs[i].body == x.body
    {
      assert i < j || i == j || j < i;
    }
  }

  lemma NothingNewer(vs: seq<Version>, gen: nat, newer: nat, body: CallTable.Body)
    requires UpTo(vs, gen) && gen < newer
    ensures UpTo(vs, newer) && OneBody(vs, newer, body)
  {
  }

  /** The versions of a call's life are encodings of its records, each under the record's own generation. */
  ghost predicate Faithful(vs: seq<Version>, callRef: string) {
    forall x :: x in vs ==> x.gen == GenOf(x.body.call) && x.body.call.topology.Some? && x.body.call.callRef == callRef
  }

  /** Submitted generations are at most the record's, and a cached body is a submitted encoding. */
  ghost predicate LifeOk(v: View, callRef: string) {
    var vs := Life(v.submitted, callRef);
    && GenerationsDetermine(vs) && Faithful(vs, callRef)
    && (callRef !in v.calls ==> callRef !in v.cache)
    && (callRef in v.calls ==>
          var c := v.calls[callRef].value;
          c.callRef == callRef && c.topology.Some? && UpTo(vs, GenOf(c)))
    && (callRef in v.cache ==>
          var cached := v.cache[callRef];
          cached.body == Encoded(cached.call.value) && Version(GenOf(cached.call.value), cached.body) in vs)
  }

  ghost predicate GenInv(v: View) {
    forall r :: LifeOk(v, r)
  }

  /** Every SIP key leads to a live call that has that key. */
  ghost predicate SipInv(v: View) {
    forall k :: k in v.sipIndex ==> v.sipIndex[k] in v.calls && k in SipKeys(v.calls[v.sipIndex[k]].value)
  }

  // ---- Runs ---------------------------------------------------------------------------------

  datatype Op =
    | Create(obj: CallObj)
    | Lock(callRef: string)
    | Update(callRef: string, next: CallObj, source: Option<string>, now: int)
    | Flush(callRef: string)
    | FlushOne(callRef: string)
    | Remove(callRef: string)
    | Purge(callRef: string)
    | CancelTimers(callRef: string)
    | Load(callRef: string, obj: CallObj)
    | DropStuck(callRef: string)
    | Restart

  ghost predicate Step(self: string, v: View, op: Op, w: View) {
    match op
    case Create(obj) => CreateStep(v, obj, w)
    case Lock(r) => w == v.(semaphores := v.semaphores + {r})
    case Update(r, next, source, now) => UpdateStep(v, r, next, source, now, w)
    case Flush(r) => FlushStep(self, v, r, w)
    case FlushOne(r) => FlushOneStep(self, v, r, w)
    case Remove(r) => RemoveStep(self, v, r, w)
    case Purge(r) => PurgeStep(self, v, r, w)
    case CancelTimers(r) => CancelTimersStep(v, r, w)
    case Load(r, obj) => LoadStep(v, r, obj, w)
    case DropStuck(r) => Life(v.submitted, r) != [] && StuckStep(self, v, r, StoredCall(v, r), w)
    case Restart => w == v.(calls := map[], sipIndex := map[], semaphores := {}, cache := map[], armed := map[])
  }

  /** The record that storage holds for a call: what its life submitted last. */
  function StoredCall(v: View, callRef: string): Call
    requires Life(v.submitted, callRef) != []
  {
    var vs := Life(v.submitted, callRef);
    vs[|vs| - 1].body.call
  }

  ghost predicate Grows(prev: Call, next: Call) {
    forall k :: k in SipKeys(prev) ==> k in SipKeys(next)
  }

  /**
   * What callers owe. A created call is new, in storage too, and carries a topology. An update hands
   * back a generation not below what was submitted, and only adds legs and dialogs. What is loaded or
   * dropped is what storage holds, after a restart: an active call, or one in teardown.
   */
  ghost predicate Allowed(v: View, op: Op) {
    match op
    case Create(obj) => obj.value.callRef !in v.calls && Life(v.submitted, obj.value.callRef) == []
        && obj.value.topology.Some?
    case Update(r, next, _, _) => r in v.calls ==>
      && next.value.callRef == r && next.value.topology.Some?
      && UpTo(Life(v.submitted, r), GenOf(next.value)) && Grows(v.calls[r].value, next.value)
    case Load(r, obj) =>
      r !in v.calls && Life(v.submitted, r) != [] && obj.value == StoredCall(v, r) && obj.value.phase == Active
    case DropStuck(r) => r !in v.calls && Life(v.submitted, r) != [] && StoredCall(v, r).phase == Terminating
    case _ => true
  }

  ghost predicate IsRun(self: string, views: seq<View>, ops: seq<Op>) {
    && |views| == |ops| + 1
    && forall i :: 0 <= i < |ops| ==> Allowed(views[i], ops[i]) && Step(self, views[i], ops[i], views[i + 1])
  }

  lemma LifeUpdated(v: View, w: View, r: string)
    requires LifeOk(v, r) && w.submitted == v.submitted && w.cache == v.cache && r in v.calls && r in w.calls
    requires var c := w.calls[r].value;
             c.callRef == r && c.topology.Some? && UpTo(Life(v.submitted, r), GenOf(c))
    ensures LifeOk(w, r)
  {
  }

  lemma FaithfulAppend(vs: seq<Version>, c: Call, callRef: string)
    requires Faithful(vs, callRef) && c.topology.Some? && c.callRef == callRef
    ensures Faithful(vs + [Version(GenOf(c), Encoded(c))], callRef)
  {
  }

  /** A bumped record is submitted under a generation no earlier submission of this life has. */
  lemma LifeBumped(self: string, v: View, r: string, w: View, cached: bool)
    requires LifeOk(v, r) && r in v.calls && r in w.calls
    requires var c := w.calls[r].value;
             c == Bumped(v.calls[r].value) && w.submitted == v.submitted + [PutFor(self, r, c, Encoded(c))]
    requires if cached then r in w.cache && w.cache[r] == Cached(w.calls[r], Encoded(w.calls[r].value))
             else (r in w.cache <==> r in v.cache) && (r in w.cache ==> w.cache[r] == v.cache[r])
    ensures LifeOk(w, r)
  {
    var c := w.calls[r].value;
    var vs := Life(v.submitted, r);
    LifeAppend(v.submitted, PutFor(self, r, c, Encoded(c)), r);
    NothingNewer(vs, GenOf(v.calls[r].value), GenOf(c), Encoded(c));
    AppendVersion(vs, GenOf(c), Encoded(c));
    FaithfulAppend(vs, c, r);
  }

  lemma LifeResubmitted(self: string, v: View, r: string, w: View)
    requires LifeOk(v, r) && r in v.calls && IsHit(v, r)
    requires FlushStep(self, v, r, w)
    ensures LifeOk(w, r)
  {
    var c, body := v.calls[r].value, v.cache[r].body;
    var vs := Life(v.submitted, r);
    LifeAppend(v.submitted, PutFor(self, r, c, body), r);
    SubmittedIsOneBody(vs, Version(GenOf(c), body));
    AppendVersion(vs, GenOf(c), body);
    FaithfulAppend(vs, c, r);
  }

  lemma LifeEnded(v: View, r: string, w: View)
    requires r !in w.calls && r !in w.cache && w.submitted != []
    requires var last := w.submitted[|w.submitted| - 1]; last.Del? && last.callRef == r
    ensures LifeOk(w, r)
  {
  }

  function OpRef(op: Op): string
    requires !op.Restart?
  {
    if op.Create? then op.obj.value.callRef else op.callRef
  }

  /** Records, dedup entries and submissions of one call are unaffected by operations on another. */
  ghost predicate Untouched(v: View, w: View, r: string) {
    && (r in w.calls <==> r in v.calls) && (r in w.calls ==> w.calls[r] == v.calls[r])
    && (r in w.cache <==> r in v.cache) && (r in w.cache ==> w.cache[r] == v.cache[r])
  }

  lemma OtherUntouched(self: string, v: View, op: Op, w: View, r: string)
    requires !op.Restart? && Step(self, v, op, w) && r != OpRef(op)
    ensures Untouched(v, w, r)
  {
    match op
    case Create(_) =>
    case Lock(_) =>
    case Update(_, _, _, _) =>
    case Flush(_) =>
    case FlushOne(_) =>
    case Remove(_) =>
    case Purge(_) =>
    case CancelTimers(_) =>
    case Load(_, _) =>
    case DropStuck(_) =>
    case Restart =>
  }

  lemma SubmitsAtMostOne(self: string, v: View, op: Op, w: View)
    requires Step(self, v, op, w)
    ensures w.submitted == v.submitted
      || (|w.submitted| == |v.submitted| + 1 && w.submitted == v.submitted + [w.submitted[|v.submitted|]]
          && !op.Restart? && w.submitted[|v.submitted|].callRef == OpRef(op))
  {
    match op
    case Create(_) =>
    case Lock(_) =>
    case Update(_, _, _, _) =>
    case Flush(_) =>
    case FlushOne(_) =>
    case Remove(_) =>
    case Purge(_) =>
    case CancelTimers(_) =>
    case Load(_, _) =>
    case DropStuck(_) =>
    case Restart =>
  }

  lemma OtherLife(self: string, v: View, op: Op, w: View, r: string)
    requires !op.Restart? && LifeOk(v, r) && Step(self, v, op, w) && r != OpRef(op)
    ensures LifeOk(w, r)
  {
    OtherUntouched(self, v, op, w, r);
    SubmitsAtMostOne(self, v, op, w);
    OtherLifeKept(v, w, r);
  }

  lemma OtherLifeKept(v: View, w: View, r: string)
    requires LifeOk(v, r) && Untouched(v, w, r)
    requires w.submitted == v.submitted
      || (|w.submitted| == |v.submitted| + 1 && w.submitted == v.submitted + [w.submitted[|v.submitted|]]
          && w.submitted[|v.submitted|].callRef != r)
    ensures LifeOk(w, r)
  {
    if w.submitted != v.submitted {
      LifeAppend(v.submitted, w.submitted[|v.submitted|], r);
    }
  }

  lemma StepKeepsGenInv(self: string, v: View, op: Op, w: View)
    requires GenInv(v) && Allowed(v, op) && Step(self, v, op, w)
    ensures GenInv(w)
  {
    forall x
      ensures LifeOk(w, x)
    {
      assert LifeOk(v, x);
      if op.Restart? {
        assert x !in w.calls && x !in w.cache;
      } else if x != OpRef(op) {
        OtherLife(self, v, op, w, x);
      } else {
        OwnLife(self, v, op, w);
      }
    }
  }

  /** The version submitted last carries the highest generation. */
  lemma LoadedUpTo(vs: seq<Version>, callRef: string)
    requires vs != [] && GenerationsDetermine(vs) && Faithful(vs, callRef)
    ensures var c := vs[|vs| - 1].body.call; c.callRef == callRef && c.topology.Some? && UpTo(vs, GenOf(c))
  {
    assert vs[|vs| - 1] in vs;
  }

  lemma OwnLife(self: string, v: View, op: Op, w: View)
    requires !op.Restart? && LifeOk(v, OpRef(op))
    requires Allowed(v, op) && Step(self, v, op, w)
    ensures LifeOk(w, OpRef(op))
  {
    match op
    case Create(_) | Lock(_) | CancelTimers(_) =>
    case Load(r, obj) =>
      LoadedUpTo(Life(v.submitted, r), r);
    case DropStuck(r) =>
      LifeEnded(v, r, w);
    case Update(r, next, source, now) =>
      if r in v.calls {
        LifeUpdated(v, w, r);
      }
    case Flush(r) =>
      if r in v.calls {
        if IsHit(v, r) {
          LifeResubmitted(self, v, r, w);
        } else {
          LifeBumped(self, v, r, w, true);
        }
      }
    case FlushOne(r) =>
      LifeBumped(self, v, r, w, false);
    case Remove(r) =>
      LifeEnded(v, r, w);
    case Purge(r) =>
      if r in v.calls {
        LifeEnded(v, r, w);
      }
  }

  const START := View(map[], map[], {}, map[], map[], [], [], [])

  /**
   * Over every run, within each life of a call: submitted generations never decrease, two submissions
   * with one generation carry one body, and a dedup hit would submit the encoding of the record in memory.
   */
  lemma {:induction false} GenerationDeterminesContent(self: string, views: seq<View>, ops: seq<Op>)
    requires IsRun(self, views, ops)
    requires GenInv(views[0])
    ensures forall i :: 0 <= i <= |ops| ==> GenInv(views[i])
    decreases |ops|
  {
    if ops != [] {
      var n := |ops| - 1;
      GenerationDeterminesContent(self, views[..n + 1], ops[..n]);
      assert GenInv(views[n]) by {
        assert views[..n + 1][n] == views[n];
      }
      StepKeepsGenInv(self, views[n], ops[n], views[n + 1]);
      forall i | 0 <= i <= |ops|
        ensures GenInv(views[i])
      {
        if i <= n {
          assert views[..n + 1][i] == views[i];
        }
      }
    }
  }

  lemma StartInv()
    ensures GenInv(START) && SipInv(START)
  {
  }

  /** A whole-table flush is a run of single flushes, so it keeps all of this; likewise a sweep of purges. */
  lemma TrailsAreRuns(self: string, trail: seq<View>, refs: seq<string>)
    requires FlushTrail(self, trail, refs) || PurgeTrail(self, trail, refs)
    requires GenInv(trail[0])
    ensures GenInv(trail[|refs|]) && (SipInv(trail[0]) ==> SipInv(trail[|refs|]))
  {
    var ops := TrailOps(self, trail, refs);
    GenerationDeterminesContent(self, trail, ops);
    if SipInv(trail[0]) {
      RunKeepsSipInv(self, trail, ops);
    }
  }

  lemma TrailOps(self: string, trail: seq<View>, refs: seq<string>) returns (ops: seq<Op>)
    requires FlushTrail(self, trail, refs) || PurgeTrail(self, trail, refs)
    ensures |ops| == |refs| && IsRun(self, trail, ops)
  {
    if FlushTrail(self, trail, refs) {
      ops := seq(|refs|, i requires 0 <= i < |refs| => FlushOne(refs[i]));
    } else {
      ops := seq(|refs|, i requires 0 <= i < |refs| => Purge(refs[i]));
    }
  }

  /** The records differ in the generation of their topology at most. */
  predicate OnlyGenMoves(c: Call, d: Call) {
    && d.(topology := c.topology) == c
    && (c.topology.Some? <==> d.topology.Some?)
    && (c.topology.Some? ==> d.topology.value.(gen := c.topology.value.gen) == c.topology.value)
  }

  /** Hit or miss, what a flush submits is the encoding of the record it leaves in memory. */
  lemma FlushSubmitsCurrent(self: string, v: View, r: string, w: View)
    requires GenInv(v) && r in v.calls && FlushStep(self, v, r, w)
    ensures r in w.calls && w.submitted == v.submitted + [PutFor(self, r, w.calls[r].value, Encoded(w.calls[r].value))]
    ensures GenOf(w.calls[r].value) == GenOf(v.calls[r].value) + if IsHit(v, r) then 0 else 1
    ensures OnlyGenMoves(v.calls[r].value, w.calls[r].value)
  {
    assert LifeOk(v, r);
  }

  /** The version a flush submits. */
  function Flushed(v: View, r: string): Version
    requires r in v.calls
  {
    var c := v.calls[r].value;
    if IsHit(v, r) then Version(GenOf(c), v.cache[r].body) else Version(GenOf(Bumped(c)), Encoded(Bumped(c)))
  }

  lemma FlushAppends(self: string, v: View, r: string, w: View)
    requires r in v.calls && FlushStep(self, v, r, w)
    ensures Life(w.submitted, r) == Life(v.submitted, r) + [Flushed(v, r)]
  {
    var c := v.calls[r].value;
    if IsHit(v, r) {
      LifeAppend(v.submitted, PutFor(self, r, c, v.cache[r].body), r);
    } else {
      LifeAppend(v.submitted, PutFor(self, r, Bumped(c), Encoded(Bumped(c))), r);
    }
  }

  /**
   * The flush after an update, exactly: one generation stays one body, and generations do not go
   * back, if and only if the stored record's generation is not below the last submitted one, or it
   * is one below and the bumped record is what was submitted.
   */
  lemma UpdateThenFlushExact(self: string, v: View, u: View, w: View, r: string, next: CallObj,
                             source: Option<string>, now: int)
    requires LifeOk(v, r) && r in v.calls && next.value.topology.Some?
    requires UpdateStep(v, r, next, source, now, u) && FlushStep(self, u, r, w)
    ensures var vs, c := Life(v.submitted, r), u.calls[r].value;
            GenerationsDetermine(Life(w.submitted, r))
            <==> (vs != [] ==>
                    var last := vs[|vs| - 1];
                    last.gen <= GenOf(c)
                    || (!IsHit(u, r) && last.gen == GenOf(c) + 1 && last.body == Encoded(Bumped(c))))
  {
    var vs, x := Life(v.submitted, r), Flushed(u, r);
    FlushAppends(self, u, r, w);
    if IsHit(u, r) {
      SubmittedIsOneBody(vs, x);
    }
    AppendExact(vs, x);
  }

  /** One more version fits exactly when it is newer than the last, or the last again. */
  lemma AppendExact(vs: seq<Version>, x: Version)
    requires GenerationsDetermine(vs)
    ensures GenerationsDetermine(vs + [x]) <==> (vs != [] ==> vs[|vs| - 1].gen < x.gen || vs[|vs| - 1] == x)
  {
    var all, n := vs + [x], |vs|;
    if vs != [] && (vs[n - 1].gen < x.gen || vs[n - 1] == x) {
      forall i, j | 0 <= i < j < |all|
        ensures all[i].gen <= all[j].gen && (all[i].gen == all[j].gen ==> all[i].body == all[j].body)
      {
        if j == n && i < n - 1 {
          assert vs[i].gen <= vs[n - 1].gen && (vs[i].gen == vs[n - 1].gen ==> vs[i].body == vs[n - 1].body);
        }
      }
    }
    if GenerationsDetermine(all) && vs != [] {
      assert all[n - 1] == vs[n - 1] && all[n] == x;
    }
  }

  /**
   * What an update must not do: a record taken before a whole-table
   * flush and stored after it makes the next flush reuse that flush's generation for other content.
   */
  lemma StaleRecordReusesGeneration(self: string, v0: View, v1: View, v2: View, v3: View, r: string, next: CallObj)
    requires r in v0.calls && r !in v0.cache && Life(v0.submitted, r) == []
    requires v0.calls[r].value.phase == Active && next.value.phase == Active
    requires GenOf(next.value) == GenOf(v0.calls[r].value)
    requires next.value.topology.Some? && v0.calls[r].value.topology.Some? && next.value.rest != v0.calls[r].value.rest
    requires FlushOneStep(self, v0, r, v1) && UpdateStep(v1, r, next, None, 0, v2) && FlushStep(self, v2, r, v3)
    ensures var vs := Life(v3.submitted, r);
            |vs| == 2 && vs[0].gen == vs[1].gen && vs[0].body != vs[1].body
  {
    var first := Bumped(v0.calls[r].value);
    LifeAppend(v0.submitted, PutFor(self, r, first, Encoded(first)), r);
    FlushAppends(self, v2, r, v3);
  }

  /** A second flush with no update in between submits the same put again and changes nothing else. */
  lemma SecondFlushRepeats(self: string, v: View, u: View, w: View, r: string)
    requires LifeOk(v, r) && r in v.calls && FlushStep(self, v, r, u) && FlushStep(self, u, r, w)
    ensures w == u.(submitted := u.submitted + [u.submitted[|u.submitted| - 1]])
  {
  }

  /** Without a topology every submission has generation 0, whatever it carries. */
  lemma NoTopologyNoGeneration(self: string, v: View, r: string, w: View)
    requires r in v.calls && v.calls[r].value.topology.None? && FlushStep(self, v, r, w)
    ensures w.submitted[|w.submitted| - 1].Put? && w.submitted[|w.submitted| - 1].callGen == 0
    ensures w.calls[r].value == v.calls[r].value
  {
  }

  // ---- The safety timer ---------------------------------------------------------------------

  /** The call's safety timer is live and stands at the deadline the sweep reads from the record. */
  ghost predicate TimerLive(v: View, r: string) {
    && r in v.calls && Teardown.SafetyId(r) in v.armed
    && v.armed[Teardown.SafetyId(r)] == Armed(r, Teardown.SweepDeadline(v.calls[r].value))
  }

  /**
   * After a processed result the safety timer is live exactly when the result carries no cancel-all,
   * and armed it or kept one that was live: the effects run after the update that armed it.
   */
  lemma ProcessedTimerExact(v: View, r: string, next: CallObj, source: Option<string>, cancels: bool, now: int, w: View)
    requires r in v.calls && ProcessedStep(v, r, next, source, cancels, now, w)
    requires Teardown.ForeignSafety(r, next.value).None?
    requires !Teardown.Arms(v.calls[r].value, next.value, source) ==>
               Teardown.SweepDeadline(next.value) == Teardown.SweepDeadline(v.calls[r].value)
    ensures TimerLive(w, r) <==> !cancels && (Teardown.Arms(v.calls[r].value, next.value, source) || TimerLive(v, r))
  {
    if Teardown.Arms(v.calls[r].value, next.value, source) {
      Teardown.SweepAgreesExact(r, v.calls[r].value, next.value, source, now);
    }
  }

  // ---- Totality of a purge ------------------------------------------------------------------

  lemma {:induction false} SameTagsSameKeys(a: seq<Leg>, b: seq<Leg>)
    requires |a| == |b|
    requires forall i :: 0 <= i < |a| ==>
         a[i].callId == b[i].callId && a[i].fromTag == b[i].fromTag && a[i].dialogs == b[i].dialogs
    ensures BLegSipKeys(a) == BLegSipKeys(b) && BLegKeys(a) == BLegKeys(b)
  {
    if a != [] {
      SameTagsSameKeys(a[1..], b[1..]);
    }
  }

  /** Forcing dispositions and promoting the phase changes no key of the call. */
  lemma PromotionKeepsKeys(c: Call)
    ensures SipKeys(Promoted(c)) == SipKeys(c) && IndexKeys(Promoted(c)) == IndexKeys(c)
    ensures Promoted(c).limiterEntries == c.limiterEntries && Promoted(c).topology == c.topology
  {
    SameTagsSameKeys(Promoted(c).bLegs, c.bLegs);
    assert forall ds :: PinnedKeys(Promoted(c).aLeg, ds) == PinnedKeys(c.aLeg, ds) by {
      forall ds
        ensures PinnedKeys(Promoted(c).aLeg, ds) == PinnedKeys(c.aLeg, ds)
      {
        SamePinned(Promoted(c).aLeg, c.aLeg, ds);
      }
    }
  }

  lemma {:induction false} SamePinned(a: Leg, b: Leg, dialogs: seq<Dialog>)
    requires a.callId == b.callId && a.fromTag == b.fromTag
    ensures PinnedKeys(a, dialogs) == PinnedKeys(b, dialogs)
    decreases |dialogs|
  {
    if dialogs != [] {
      SamePinned(a, b, dialogs[1..]);
    }
  }

  lemma BumpKeepsKeys(c: Call)
    ensures SipKeys(Bumped(c)) == SipKeys(c)
  {
  }

  /** Entries that stay lead to records that stay and keep their keys. */
  lemma KeysSurvive(v: View, w: View)
    requires SipInv(v)
    requires forall k :: k in w.sipIndex ==>
         k in v.sipIndex && w.sipIndex[k] == v.sipIndex[k] && w.sipIndex[k] in w.calls
    requires forall r :: r in v.calls && r in w.calls ==> Grows(v.calls[r].value, w.calls[r].value)
    ensures SipInv(w)
  {
  }

  lemma DroppingKeepsSipInv(v: View, r: string, w: View)
    requires SipInv(v) && r in v.calls
    requires w.calls == v.calls - {r} && w.sipIndex == DropKeys(v.sipIndex, SipKeys(v.calls[r].value))
    ensures SipInv(w)
  {
    assert forall k :: k in w.sipIndex ==> k !in SipKeys(v.calls[r].value) && v.sipIndex[k] != r;
    KeysSurvive(v, w);
  }

  lemma ReplacingKeepsSipInv(v: View, r: string, w: View)
    requires SipInv(v) && r in v.calls && r in w.calls && Grows(v.calls[r].value, w.calls[r].value)
    requires w.calls == v.calls[r := w.calls[r]] && w.sipIndex == v.sipIndex
    ensures SipInv(w)
  {
    KeysSurvive(v, w);
  }

  lemma CreatingKeepsSipInv(v: View, obj: CallObj, w: View)
    requires SipInv(v) && obj.value.callRef !in v.calls && CreateStep(v, obj, w)
    ensures SipInv(w)
  {
  }

  lemma StepKeepsSipInv(self: string, v: View, op: Op, w: View)
    requires GenInv(v) && SipInv(v) && Allowed(v, op) && Step(self, v, op, w)
    ensures SipInv(w)
  {
    match op
    case Create(obj) =>
      CreatingKeepsSipInv(v, obj, w);
    case Load(r, obj) =>
      assert LifeOk(v, r);
      LoadedUpTo(Life(v.submitted, r), r);
      CreatingKeepsSipInv(v, obj, w);
    case Lock(_) | CancelTimers(_) | DropStuck(_) | Restart =>
    case Update(r, next, source, now) =>
      if r in v.calls {
        assert SipKeys(w.calls[r].value) == SipKeys(next.value);
        ReplacingKeepsSipInv(v, r, w);
      }
    case Flush(r) =>
      if r in v.calls && !IsHit(v, r) {
        BumpKeepsKeys(v.calls[r].value);
        ReplacingKeepsSipInv(v, r, w);
      }
    case FlushOne(r) =>
      BumpKeepsKeys(v.calls[r].value);
      ReplacingKeepsSipInv(v, r, w);
    case Remove(r) =>
      if r in v.calls {
        DroppingKeepsSipInv(v, r, w);
      } else {
        assert w.calls == v.calls;
      }
    case Purge(r) =>
      if r in v.calls {
        PromotionKeepsKeys(v.calls[r].value);
        DroppingKeepsSipInv(v, r, w);
      }
  }

  lemma {:induction false} RunKeepsSipInv(self: string, views: seq<View>, ops: seq<Op>)
    requires IsRun(self, views, ops) && GenInv(views[0]) && SipInv(views[0])
    ensures SipInv(views[|ops|])
    decreases |ops|
  {
    if ops != [] {
      var n := |ops| - 1;
      RunKeepsSipInv(self, views[..n + 1], ops[..n]);
      assert views[..n + 1][n] == views[n];
      GenerationDeterminesContent(self, views[..n + 1], ops[..n]);
      StepKeepsSipInv(self, views[n], ops[n], views[n + 1]);
    }
  }

  ghost predicate LeadsTo(idx: map<string, string>, key: string, callRef: string) {
    key in idx && idx[key] == callRef
  }

  /** A call that is created or loaded is found by each of its SIP keys, and no other key has changed. */
  lemma IndexedOnEntry(v: View, obj: CallObj, w: View)
    requires CreateStep(v, obj, w) || LoadStep(v, obj.value.callRef, obj, w)
    ensures forall k :: k in SipKeys(obj.value) ==> LeadsTo(w.sipIndex, k, obj.value.callRef)
    ensures forall k, r :: k !in SipKeys(obj.value) ==> (LeadsTo(w.sipIndex, k, r) <==> LeadsTo(v.sipIndex, k, r))
  {
  }

  /** The operation takes the key away from the call: it ends the call, drops the key or gives it to another. */
  predicate TakesKey(v: View, op: Op, r: string, k: string) {
    match op
    case Create(obj) => obj.value.callRef != r && k in SipKeys(obj.value)
    case Load(_, obj) => obj.value.callRef != r && k in SipKeys(obj.value)
    case Remove(x) => x in v.calls && k in SipKeys(v.calls[x].value)
    case Purge(x) => x in v.calls && k in SipKeys(v.calls[x].value)
    case Restart => true
    case _ => false
  }

  ghost predicate NeverTaken(views: seq<View>, ops: seq<Op>, r: string, k: string) {
    |views| == |ops| + 1 && forall i :: 0 <= i < |ops| ==> !TakesKey(views[i], ops[i], r, k)
  }

  /** Over any run a key that leads to a call does so until an operation takes it. */
  lemma {:induction false} KeyStays(self: string, views: seq<View>, ops: seq<Op>, r: string, k: string)
    requires IsRun(self, views, ops) && LeadsTo(views[0].sipIndex, k, r) && NeverTaken(views, ops, r, k)
    ensures LeadsTo(views[|ops|].sipIndex, k, r)
    decreases |ops|
  {
    if ops != [] {
      var n := |ops| - 1;
      assert views[..n + 1][n] == views[n];
      KeyStays(self, views[..n + 1], ops[..n], r, k);
      KeyStep(self, views[n], ops[n], views[n + 1], r, k);
    }
  }

  /** And then it does so no longer. */
  lemma KeyStep(self: string, v: View, op: Op, w: View, r: string, k: string)
    requires Step(self, v, op, w)
    ensures TakesKey(v, op, r, k) ==> !LeadsTo(w.sipIndex, k, r)
    ensures !TakesKey(v, op, r, k) && LeadsTo(v.sipIndex, k, r) ==> LeadsTo(w.sipIndex, k, r)
  {
    match op
    case Purge(x) =>
      if x in v.calls {
        PromotionKeepsKeys(v.calls[x].value);
      }
    case _ =>
  }

  /** No SIP key is left exactly when every key still leading to the call is one the call has now. */
  lemma PurgeClearsKeysExact(self: string, v: View, r: string, w: View)
    requires r in v.calls && PurgeStep(self, v, r, w)
    ensures (forall k :: !LeadsTo(w.sipIndex, k, r))
       <==> (forall k :: LeadsTo(v.sipIndex, k, r) ==> k in SipKeys(v.calls[r].value))
  {
    PromotionKeepsKeys(v.calls[r].value);
    assert forall k :: LeadsTo(w.sipIndex, k, r) <==> LeadsTo(v.sipIndex, k, r) && k !in SipKeys(v.calls[r].value);
  }

  /** After any run, ending a call, by the rules or by the sweep, leaves nothing of it in memory. */
  lemma PurgeIsTotal(self: string, views: seq<View>, ops: seq<Op>, r: string, w: View)
    requires IsRun(self, views, ops) && views[0] == START && r in views[|ops|].calls
    requires PurgeStep(self, views[|ops|], r, w) || RemoveStep(self, views[|ops|], r, w)
    ensures r !in w.calls && r !in w.semaphores && r !in w.cache
    ensures forall k :: !LeadsTo(w.sipIndex, k, r)
    ensures forall id :: id in w.armed ==> w.armed[id].callRef != r
    ensures var v := views[|ops|];
            |w.submitted| == |v.submitted| + 1 && w.submitted[|v.submitted|].Del?
            && w.submitted[|v.submitted|].callRef == r
  {
    var v := views[|ops|];
    StartInv();
    RunKeepsSipInv(self, views, ops);
    PromotionKeepsKeys(v.calls[r].value);
  }

  /** No operation but creating or loading a call makes a SIP key lead to it. */
  lemma {:induction false} NoKeysAdded(self: string, views: seq<View>, ops: seq<Op>, r: string, keys: seq<string>)
    requires |views| == |ops| + 1 && forall i :: 0 <= i < |ops| ==> Step(self, views[i], ops[i], views[i + 1])
    requires forall i :: 0 <= i < |ops| && (ops[i].Create? || ops[i].Load?) ==> !Indexes(ops[i], r)
    requires forall k :: LeadsTo(views[0].sipIndex, k, r) ==> k in keys
    ensures forall k :: LeadsTo(views[|ops|].sipIndex, k, r) ==> k in keys
    decreases |ops|
  {
    if ops != [] {
      var n := |ops| - 1;
      NoKeysAdded(self, views[..n + 1], ops[..n], r, keys);
      assert views[..n + 1][n] == views[n];
      StepAddsNoKeys(self, views[n], ops[n], views[n + 1], r);
    }
  }

  predicate Indexes(op: Op, r: string)
    requires op.Create? || op.Load?
  {
    op.obj.value.callRef == r
  }

  lemma StepAddsNoKeys(self: string, v: View, op: Op, w: View, r: string)
    requires Step(self, v, op, w) && (op.Create? || op.Load? ==> !Indexes(op, r))
    ensures forall k :: LeadsTo(w.sipIndex, k, r) ==> LeadsTo(v.sipIndex, k, r)
  {
    match op
    case Create(_) =>
    case Load(_, _) =>
    case Remove(_) =>
    case Purge(_) =>
    case _ =>
  }

  /** The last part of a purge, with the keys of the record the purge began with. */
  ghost predicate DropStep(v: View, r: string, c: Call, w: View) {
    w == v.(calls := v.calls - {r}, semaphores := v.semaphores - {r}, cache := v.cache - {r},
            sipIndex := DropKeys(v.sipIndex, SipKeys(Promoted(c))))
  }

  /**
   * A purge that other fibers interleave with: whatever they do between its first step and the one
   * that drops the call, short of creating or loading it again, nothing of it is left in memory; a
   * timer is left exactly when one is armed at that moment.
   */
  lemma InterruptedPurgeIsTotal(self: string, views: seq<View>, ops: seq<Op>, r: string, w: View)
    requires IsRun(self, views, ops) && SipInv(views[0]) && r in views[0].calls
    requires forall i :: 0 <= i < |ops| && (ops[i].Create? || ops[i].Load?) ==> !Indexes(ops[i], r)
    requires DropStep(views[|ops|], r, views[0].calls[r].value, w)
    ensures r !in w.calls && r !in w.semaphores && r !in w.cache
    ensures forall k :: !LeadsTo(w.sipIndex, k, r)
    ensures (exists id :: id in w.armed && w.armed[id].callRef == r)
       <==> (exists id :: id in views[|ops|].armed && views[|ops|].armed[id].callRef == r)
  {
    var c := views[0].calls[r].value;
    PromotionKeepsKeys(c);
    NoKeysAdded(self, views, ops, r, SipKeys(c));
  }

  /** The end of a call touches no other, but for SIP keys the two share. */
  lemma PurgeSparesOthers(self: string, v: View, r: string, w: View, other: string)
    requires r in v.calls && other != r && (PurgeStep(self, v, r, w) || RemoveStep(self, v, r, w))
    ensures other in w.calls <==> other in v.calls
    ensures other in v.calls ==> w.calls[other] == v.calls[other]
    ensures forall k :: LeadsTo(v.sipIndex, k, other) ==>
              (LeadsTo(w.sipIndex, k, other) <==> k !in SipKeys(v.calls[r].value))
    ensures forall id :: id in v.armed && v.armed[id].callRef == other ==> id in w.armed
  {
    PromotionKeepsKeys(v.calls[r].value);
  }

  /**
   * The purged record is `terminated` unless an unresolved b-leg shares the a-leg's id, and the slots
   * given back are exactly those the rule path would give back, by the natural primary only.
   */
  lemma PurgeResolvesAndReleases(self: string, v: View, r: string, w: View)
    requires r in v.calls && PurgeStep(self, v, r, w)
    ensures var c := v.calls[r].value;
            && |w.cdrs| == |v.cdrs| + 1 && w.cdrs[..|v.cdrs|] == v.cdrs
            && w.cdrs[|v.cdrs|].(aLeg := c.aLeg, bLegs := c.bLegs, phase := c.phase) == c
            && (c.phase != Terminating ==> w.cdrs[|v.cdrs|] == c)
            && (c.phase == Terminating ==>
                  (w.cdrs[|v.cdrs|].phase == Terminated
                   <==> forall i :: 0 <= i < |c.bLegs| && c.bLegs[i].legId == c.aLeg.legId ==> LegResolved(c.bLegs[i])))
            && w.decremented == v.decremented
                 + if c.phase == Terminating && PartitionOf(self, r) == Home(KvStore.Pri, self)
                   then ReleaseKeys(c.limiterEntries) else []
  {
    ForceResolvesExact(v.calls[r].value);
  }

  /**
   * A purge decrements exactly the counters, in the order, that the rules' final cleanup of the same
   * call would have named, whether or not the purge could resolve all legs.
   */
  lemma PurgeMatchesCleanup(self: string, r: string, c: Call)
    requires c.phase == Terminating && PartitionOf(self, r).role == KvStore.Pri
    ensures DecrementsOf(self, r, c) == Cleanup.Map(Cleanup.FinalCleanupEffects(Promoted(c)).soft, Cleanup.KeyOf)
    ensures Cleanup.FinalCleanupEffects(c).soft == Cleanup.TerminateCallEffects(c).soft
  {
    Cleanup.DecrementsAreReleases(c.limiterEntries);
  }
}
