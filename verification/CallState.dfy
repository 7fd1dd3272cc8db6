/** The per-worker call table: update, flush, removal, force-purge and orphan sweep. */
module CallTable {
  import opened Options
  import opened CallModel
  import opened Addresses
  import opened PartitionRefs
  import KvStore
  import CallLimiter
  import Teardown

  /** One immutable call record in memory; the dedup gate compares records by identity. */
  class CallObj {
    const value: Call

    constructor (value: Call)
      ensures this.value == value
    {
      this.value := value;
    }
  }

  /** The encoded bytes of a call; the codec loses nothing. */
  datatype Body = Encoded(call: Call)

  datatype Cached = Cached(call: CallObj, body: Body)

  /** A live timer: whose call it fires for, and when. */
  datatype Armed = Armed(callRef: string, fireAt: int)

  datatype Submission =
    | Put(role: KvStore.Partition, primary: string, callRef: string, body: Body, indexes: seq<string>,
          callGen: nat, peer: Option<string>, direction: Direction)
    | Del(role: KvStore.Partition, primary: string, callRef: string, indexes: seq<string>,
          peer: Option<string>, direction: Direction)

  datatype View = View(
    calls: map<string, CallObj>,
    sipIndex: map<string, string>,
    semaphores: set<string>,
    cache: map<string, Cached>,
    armed: map<string, Armed>,
    submitted: seq<Submission>,
    cdrs: seq<Call>,
    decremented: seq<CallLimiter.Key>)

  function GenOf(c: Call): nat {
    if c.topology.Some? then c.topology.value.gen else 0
  }

  /** The generation moves before the record is encoded; a record without topology has none. */
  function Bumped(c: Call): Call {
    if c.topology.Some? then c.(topology := Some(c.topology.value.(gen := c.topology.value.gen + 1))) else c
  }

  function PutFor(self: string, callRef: string, c: Call, body: Body): Submission {
    var home := PartitionOf(self, callRef);
    Put(home.role, home.primary, callRef, body, IndexKeys(c), GenOf(c),
        PropagatePeerFor(self, home, c.topology), DirectionFor(home.role))
  }

  function DelFor(self: string, callRef: string, c: Option<Call>): Submission {
    var home := PartitionOf(self, callRef);
    Del(home.role, home.primary, callRef, if c.Some? then IndexKeys(c.value) else [],
        PropagatePeerFor(self, home, if c.Some? then c.value.topology else None), DirectionFor(home.role))
  }

  function SetKeys(idx: map<string, string>, keys: seq<string>, callRef: string): map<string, string> {
    idx + map k | k in keys :: callRef
  }

  function DropKeys(idx: map<string, string>, keys: seq<string>): map<string, string> {
    idx - set k | k in keys
  }

  function CancelAll(armed: map<string, Armed>, callRef: string): map<string, Armed> {
    map id | id in armed && armed[id].callRef != callRef :: armed[id]
  }

  /** A force-purge resolves the legs of a terminating call and takes any other call as it is. */
  function Promoted(c: Call): Call {
    if c.phase != Terminating then c
    else
      var forced := ForcedAll(c);
      if IsFullyResolved(forced) then forced.(phase := Terminated) else forced
  }

  /** Only the natural primary gives limiter slots back, and only for a call that was terminating. */
  function DecrementsOf(self: string, callRef: string, c: Call): seq<CallLimiter.Key> {
    if c.phase == Terminating && PartitionOf(self, callRef).role == KvStore.Pri
    then ReleaseKeys(c.limiterEntries)
    else []
  }

  /** Where a message is looked up: in memory by tag, then by Call-ID alone, then in storage likewise. */
  function Resolved(sipIndex: map<string, string>, stored: map<string, string>, callId: string,
                    tag: string): Option<string> {
    if SipKey(callId, tag) in sipIndex then Some(sipIndex[SipKey(callId, tag)])
    else if callId in sipIndex then Some(sipIndex[callId])
    else if LegKey(callId, tag) in stored then Some(stored[LegKey(callId, tag)])
    else if "leg:" + callId in stored then Some(stored["leg:" + callId])
    else None
  }

  predicate IsOrphan(c: Call, now: int) {
    c.phase == Terminated || (c.phase == Terminating && now >= Teardown.SweepDeadline(c))
  }

  // ---- Steps --------------------------------------------------------------------------------

  ghost predicate CreateStep(v: View, obj: CallObj, w: View) {
    w == v.(calls := v.calls[obj.value.callRef := obj],
            sipIndex := SetKeys(v.sipIndex, SipKeys(obj.value), obj.value.callRef))
  }

  /** The timers an update leaves. */
  function ArmedBy(v: View, callRef: string, next: CallObj, source: Option<string>, now: int): map<string, Armed> {
    if callRef in v.calls && Teardown.Arms(v.calls[callRef].value, next.value, source)
    then v.armed[Teardown.SafetyId(callRef) := Armed(callRef, now + Teardown.TERMINATING_TIMEOUT_MS)]
    else v.armed
  }

  /** `next` is what the update function returned for the record in memory. */
  ghost predicate UpdateStep(v: View, callRef: string, next: CallObj, source: Option<string>, now: int, w: View) {
    if callRef !in v.calls then w == v
    else
      var prev := v.calls[callRef].value;
      var arms := Teardown.Arms(prev, next.value, source);
      && callRef in w.calls
      && w.calls[callRef].value == Teardown.Updated(callRef, prev, next.value, source, now)
      && (!arms ==> w.calls[callRef] == next)
      && w == v.(calls := v.calls[callRef := w.calls[callRef]],
                 armed := ArmedBy(v, callRef, next, source, now))
  }

  predicate IsHit(v: View, callRef: string)
    requires callRef in v.calls
  {
    callRef in v.cache && v.cache[callRef].call == v.calls[callRef]
  }

  /** A hit submits the cached body again; a miss bumps, encodes and caches. */
  ghost predicate FlushStep(self: string, v: View, callRef: string, w: View) {
    if callRef !in v.calls then w == v
    else if IsHit(v, callRef) then
      w == v.(submitted := v.submitted + [PutFor(self, callRef, v.calls[callRef].value, v.cache[callRef].body)])
    else
      && callRef in w.calls
      && var obj := w.calls[callRef];
      && obj.value == Bumped(v.calls[callRef].value)
      && w == v.(calls := v.calls[callRef := obj],
                 cache := v.cache[callRef := Cached(obj, Encoded(obj.value))],
                 submitted := v.submitted + [PutFor(self, callRef, obj.value, Encoded(obj.value))])
  }

  /** One call of a whole-table flush: always bumped and encoded, the dedup cache left alone. */
  ghost predicate FlushOneStep(self: string, v: View, callRef: string, w: View) {
    && callRef in v.calls && callRef in w.calls
    && var obj := w.calls[callRef];
    && obj.value == Bumped(v.calls[callRef].value)
    && w == v.(calls := v.calls[callRef := obj],
               submitted := v.submitted + [PutFor(self, callRef, obj.value, Encoded(obj.value))])
  }

  ghost predicate RemoveStep(self: string, v: View, callRef: string, w: View) {
    var call := if callRef in v.calls then Some(v.calls[callRef].value) else None;
    w == v.(calls := v.calls - {callRef}, semaphores := v.semaphores - {callRef}, cache := v.cache - {callRef},
            armed := CancelAll(v.armed, callRef),
            sipIndex := if call.Some? then DropKeys(v.sipIndex, SipKeys(call.value)) else v.sipIndex,
            submitted := v.submitted + [DelFor(self, callRef, call)])
  }

  ghost predicate PurgeStep(self: string, v: View, callRef: string, w: View) {
    if callRef !in v.calls then w == v
    else
      var call := v.calls[callRef].value;
      w == v.(calls := v.calls - {callRef}, semaphores := v.semaphores - {callRef}, cache := v.cache - {callRef},
              armed := CancelAll(v.armed, callRef),
              sipIndex := DropKeys(v.sipIndex, SipKeys(Promoted(call))),
              submitted := v.submitted + [DelFor(self, callRef, Some(Promoted(call)))],
              cdrs := v.cdrs + [Promoted(call)],
              decremented := v.decremented + DecrementsOf(self, callRef, call))
  }

  /** A call found in storage comes into memory with its SIP keys. */
  ghost predicate LoadStep(v: View, callRef: string, obj: CallObj, w: View) {
    w == v.(calls := v.calls[callRef := obj], sipIndex := SetKeys(v.sipIndex, SipKeys(obj.value), obj.value.callRef))
  }

  /** A delete without a peer: nobody else hears of it. */
  function StuckDelFor(self: string, callRef: string, c: Call): Submission {
    var home := PartitionOf(self, callRef);
    Del(home.role, home.primary, callRef, IndexKeys(c), None, DirectionFor(home.role))
  }

  /** A call found in storage in teardown: its transactions died with the process, so it is dropped. */
  ghost predicate StuckStep(self: string, v: View, callRef: string, c: Call, w: View) {
    w == v.(submitted := v.submitted + [StuckDelFor(self, callRef, c)])
  }

  ghost predicate CancelTimersStep(v: View, callRef: string, w: View) {
    w == v.(armed := CancelAll(v.armed, callRef))
  }

  /** One processed result: the update, and after it a cancel-all if the result carries one. */
  ghost predicate ProcessedStep(v: View, callRef: string, next: CallObj, source: Option<string>, cancels: bool,
                                now: int, w: View) {
    var armed := ArmedBy(v, callRef, next, source, now);
    && UpdateStep(v, callRef, next, source, now, w.(armed := armed))
    && w.armed == if cancels then CancelAll(armed, callRef) else armed
  }

  /** Views passed through while `refs` are flushed one by one. */
  ghost predicate FlushTrail(self: string, trail: seq<View>, refs: seq<string>) {
    |trail| == |refs| + 1 && forall i :: 0 <= i < |refs| ==> FlushOneStep(self, trail[i], refs[i], trail[i + 1])
  }

  ghost predicate PurgeTrail(self: string, trail: seq<View>, refs: seq<string>) {
    |trail| == |refs| + 1 && forall i :: 0 <= i < |refs| ==> PurgeStep(self, trail[i], refs[i], trail[i + 1])
  }

  ghost predicate Lists(refs: seq<string>, members: set<string>) {
    Teardown.Distinct(refs) && forall r :: r in refs <==> r in members
  }

  lemma FlushTrailGrows(self: string, trail: seq<View>, refs: seq<string>, r: string, w: View)
    requires FlushTrail(self, trail, refs) && FlushOneStep(self, trail[|refs|], r, w)
    ensures FlushTrail(self, trail + [w], refs + [r])
  {
    forall i | 0 <= i < |refs| + 1
      ensures FlushOneStep(self, (trail + [w])[i], (refs + [r])[i], (trail + [w])[i + 1])
    {
      assert i < |refs| ==> FlushOneStep(self, trail[i], refs[i], trail[i + 1]);
    }
  }

  lemma PurgeTrailGrows(self: string, trail: seq<View>, refs: seq<string>, r: string, w: View)
    requires PurgeTrail(self, trail, refs) && PurgeStep(self, trail[|refs|], r, w)
    ensures PurgeTrail(self, trail + [w], refs + [r])
  {
    forall i | 0 <= i < |refs| + 1
      ensures PurgeStep(self, (trail + [w])[i], (refs + [r])[i], (trail + [w])[i + 1])
    {
      assert i < |refs| ==> PurgeStep(self, trail[i], refs[i], trail[i + 1]);
    }
  }

  lemma ListsOneMore(refs: seq<string>, members: set<string>, r: string)
    requires Lists(refs, members) && r !in members
    ensures Lists(refs + [r], members + {r})
  {
  }

  /** A whole-table flush with `rest` still to do. */
  ghost predicate FlushUnderway(self: string, all: set<string>, rest: set<string>, refs: seq<string>,
                                trail: seq<View>, v: View) {
    && v.calls.Keys == all && rest <= all && Lists(refs, all - rest)
    && FlushTrail(self, trail, refs) && trail[|refs|] == v
  }

  lemma FlushProgresses(self: string, all: set<string>, rest: set<string>, refs: seq<string>, trail: seq<View>,
                        v: View, r: string, w: View)
    requires FlushUnderway(self, all, rest, refs, trail, v) && r in rest && FlushOneStep(self, v, r, w)
    ensures FlushUnderway(self, all, rest - {r}, refs + [r], trail + [w], w)
  {
    assert w.calls.Keys == all;
    FlushTrailGrows(self, trail, refs, r, w);
    ListsOneMore(refs, all - rest, r);
    assert all - (rest - {r}) == all - rest + {r};
  }

  method PinnedSipKeys(aLeg: Leg) returns (keys: seq<string>)
    ensures keys == PinnedKeys(aLeg, aLeg.dialogs)
  {
    keys := [];
    for i := 0 to |aLeg.dialogs|
      invariant keys + PinnedKeys(aLeg, aLeg.dialogs[i..]) == PinnedKeys(aLeg, aLeg.dialogs)
    {
      assert aLeg.dialogs[i..][1..] == aLeg.dialogs[i + 1..];
      Regroup(keys, PinnedKey(aLeg, aLeg.dialogs[i]), PinnedKeys(aLeg, aLeg.dialogs[i + 1..]));
      ghost var next := keys + PinnedKey(aLeg, aLeg.dialogs[i]);
      var tag := aLeg.dialogs[i].localTag;
      if tag != "" && tag != aLeg.fromTag {
        keys := keys + [SipKey(aLeg.callId, tag)];
      }
      assert keys == next;
    }
  }

  method DialogTagKeys(bLeg: Leg) returns (keys: seq<string>)
    ensures keys == DialogSipKeys(bLeg.callId, bLeg.dialogs)
  {
    keys := [];
    for i := 0 to |bLeg.dialogs|
      invariant keys + DialogSipKeys(bLeg.callId, bLeg.dialogs[i..]) == DialogSipKeys(bLeg.callId, bLeg.dialogs)
    {
      assert bLeg.dialogs[i..][1..] == bLeg.dialogs[i + 1..];
      Regroup(keys, DialogSipKey(bLeg.callId, bLeg.dialogs[i]), DialogSipKeys(bLeg.callId, bLeg.dialogs[i + 1..]));
      ghost var next := keys + DialogSipKey(bLeg.callId, bLeg.dialogs[i]);
      var tag := bLeg.dialogs[i].remoteTag;
      if tag != "" {
        keys := keys + [SipKey(bLeg.callId, tag)];
      }
      assert keys == next;
    }
  }

  /** The walk that indexing, removal and force-purge share. */
  method SipKeyWalk(c: Call) returns (keys: seq<string>)
    ensures keys == SipKeys(c)
  {
    keys := [SipKey(c.aLeg.callId, c.aLeg.fromTag)];
    var pinned := PinnedSipKeys(c.aLeg);
    keys := keys + pinned;
    ghost var before := keys;
    for i := 0 to |c.bLegs|
      invariant keys + BLegSipKeys(c.bLegs[i..]) == before + BLegSipKeys(c.bLegs)
    {
      var b := c.bLegs[i];
      var leg := [SipKey(b.callId, b.fromTag)];
      leg := leg + [b.callId];
      var tags := DialogTagKeys(b);
      leg := leg + tags;
      assert c.bLegs[i..][1..] == c.bLegs[i + 1..];
      Regroup(keys, leg, BLegSipKeys(c.bLegs[i + 1..]));
      keys := keys + leg;
    }
  }

  class CallState {
    const self: string
    var calls: map<string, CallObj>
    var sipIndex: map<string, string>
    var semaphores: set<string>
    var flushCache: map<string, Cached>
    var armed: map<string, Armed>
    var submitted: seq<Submission>
    var cdrs: seq<Call>
    var decremented: seq<CallLimiter.Key>

    constructor (self: string)
      ensures this.self == self && State() == View(map[], map[], {}, map[], map[], [], [], [])
    {
      this.self := self;
      calls, sipIndex, semaphores, flushCache, armed := map[], map[], {}, map[], map[];
      submitted, cdrs, decremented := [], [], [];
    }

    ghost function State(): View
      reads this
    {
      View(calls, sipIndex, semaphores, flushCache, armed, submitted, cdrs, decremented)
    }

    method IndexCall(c: Call)
      modifies this`sipIndex
      ensures sipIndex == SetKeys(old(sipIndex), SipKeys(c), c.callRef)
    {
      var keys := SipKeyWalk(c);
      ghost var was := sipIndex;
      for i := 0 to |keys|
        invariant forall k :: k in sipIndex <==> k in was || k in keys[..i]
        invariant forall k :: k in sipIndex ==> sipIndex[k] == if k in keys[..i] then c.callRef else was[k]
      {
        assert keys[..i + 1] == keys[..i] + [keys[i]];
        sipIndex := sipIndex[keys[i] := c.callRef];
      }
      assert keys[..|keys|] == keys;
    }

    method UnindexCall(c: Call)
      modifies this`sipIndex
      ensures sipIndex == DropKeys(old(sipIndex), SipKeys(c))
    {
      var keys := SipKeyWalk(c);
      for i := 0 to |keys|
        invariant sipIndex == DropKeys(old(sipIndex), keys[..i])
      {
        assert keys[..i + 1] == keys[..i] + [keys[i]];
        sipIndex := sipIndex - {keys[i]};
      }
      assert keys[..|keys|] == keys;
    }

    method Create(obj: CallObj)
      modifies this
      ensures CreateStep(old(State()), obj, State())
    {
      calls := calls[obj.value.callRef := obj];
      IndexCall(obj.value);
    }

    method GetSemaphore(callRef: string)
      modifies this`semaphores
      ensures semaphores == old(semaphores) + {callRef}
    {
      semaphores := semaphores + {callRef};
    }

    /** Every transition into `terminating` installs the safety timer with the mutation. */
    method Update(callRef: string, fn: CallObj -> CallObj, source: Option<string>, now: int)
      modifies this
      ensures callRef !in old(calls) ==> State() == old(State())
      ensures callRef in old(calls) ==> UpdateStep(old(State()), callRef, fn(old(calls)[callRef]), source, now, State())
    {
      if callRef !in calls {
        return;
      }
      var prev := calls[callRef];
      var next := fn(prev);
      var p, n := prev.value, next.value;
      var entering := p.phase != Terminating && n.phase == Terminating;
      var legs := if n.terminatingRefreshLegs.Some? then n.terminatingRefreshLegs.value else [];
      var refreshing := !entering && p.phase == Terminating && n.phase == Terminating && source.Some?
          && source.value !in legs;
      if !entering && !refreshing {
        calls := calls[callRef := next];
        return;
      }
      var safety := TimerEntry(Teardown.SafetyId(callRef), TerminatingTimeout, now + Teardown.TERMINATING_TIMEOUT_MS);
      if entering {
        legs := [];
      } else {
        legs := legs + [source.value];
      }
      var withTimer := new CallObj(n.(timers := Teardown.ReplaceTimerById(n.timers, safety),
                                      terminatingRefreshLegs := Some(legs)));
      calls := calls[callRef := withTimer];
      armed := armed[safety.id := Armed(callRef, safety.fireAt)];
    }

    /** `stored` is the index in storage. */
    method ResolveFromSipKey(callId: string, tag: string, stored: map<string, string>) returns (found: Option<string>)
      ensures found == Resolved(sipIndex, stored, callId, tag)
    {
      if SipKey(callId, tag) in sipIndex {
        return Some(sipIndex[SipKey(callId, tag)]);
      }
      if callId in sipIndex {
        return Some(sipIndex[callId]);
      }
      if LegKey(callId, tag) in stored {
        return Some(stored[LegKey(callId, tag)]);
      }
      if "leg:" + callId in stored {
        return Some(stored["leg:" + callId]);
      }
      found := None;
    }

    method CancelTimers(callRef: string)
      modifies this`armed
      ensures CancelTimersStep(old(State()), callRef, State())
    {
      armed := CancelAll(armed, callRef);
    }

    /** The state update comes before any effect of the result. */
    method ProcessResult(callRef: string, result: CallObj, source: Option<string>, cancels: bool, now: int)
      requires callRef in calls
      modifies this
      ensures ProcessedStep(old(State()), callRef, result, source, cancels, now, State())
    {
      Update(callRef, _ => result, source, now);
      if cancels {
        CancelTimers(callRef);
      }
    }

    /** A call not in memory is looked for in storage; what is found in teardown is deleted, not loaded. */
    method LoadCall(callRef: string, stored: Option<Call>) returns (call: Option<CallObj>)
      modifies this
      ensures callRef in old(calls) ==> call == Some(old(calls)[callRef]) && State() == old(State())
      ensures callRef !in old(calls) && stored.None? ==> call == None && State() == old(State())
      ensures callRef !in old(calls) && stored.Some? ==>
                match stored.value.phase
                case Active => call.Some? && call.value.value == stored.value
                    && LoadStep(old(State()), callRef, call.value, State())
                case Terminating => call == None && StuckStep(self, old(State()), callRef, stored.value, State())
                case Terminated => call == None && State() == old(State())
    {
      if callRef in calls {
        return Some(calls[callRef]);
      }
      if stored.None? || stored.value.phase == Terminated {
        return None;
      }
      if stored.value.phase == Terminating {
        var home := PartitionOf(self, callRef);
        var indexes := CallIndexKeys(stored.value);
        submitted := submitted + [Del(home.role, home.primary, callRef, indexes, None, DirectionFor(home.role))];
        return None;
      }
      var obj := new CallObj(stored.value);
      calls := calls[callRef := obj];
      IndexCall(stored.value);
      return Some(obj);
    }

    method FlushToRedis(callRef: string)
      modifies this
      ensures FlushStep(self, old(State()), callRef, State())
    {
      if callRef !in calls {
        return;
      }
      var call := calls[callRef];
      var home := PartitionOf(self, callRef);
      if callRef in flushCache && flushCache[callRef].call == call {
        var indexes := CallIndexKeys(call.value);
        submitted := submitted
            + [Put(home.role, home.primary, callRef, flushCache[callRef].body, indexes, GenOf(call.value),
                                      PropagatePeerFor(self, home, call.value.topology), DirectionFor(home.role))];
        return;
      }
      var bumped := call;
      if call.value.topology.Some? {
        bumped := new CallObj(Bumped(call.value));
        calls := calls[callRef := bumped];
      }
      var body := Encoded(bumped.value);
      flushCache := flushCache[callRef := Cached(bumped, body)];
      var indexes := CallIndexKeys(bumped.value);
      submitted := submitted + [Put(home.role, home.primary, callRef, body, indexes, GenOf(bumped.value),
                                    PropagatePeerFor(self, home, bumped.value.topology), DirectionFor(home.role))];
      assert calls == old(calls)[callRef := bumped];
    }

    method FlushOne(callRef: string)
      requires callRef in calls
      modifies this
      ensures FlushOneStep(self, old(State()), callRef, State())
    {
      var call := calls[callRef];
      var bumped := call;
      if call.value.topology.Some? {
        bumped := new CallObj(Bumped(call.value));
        calls := calls[callRef := bumped];
      }
      var home := PartitionOf(self, callRef);
      var indexes := CallIndexKeys(bumped.value);
      submitted := submitted
          + [Put(home.role, home.primary, callRef, Encoded(bumped.value), indexes, GenOf(bumped.value),
                                    PropagatePeerFor(self, home, bumped.value.topology), DirectionFor(home.role))];
      assert calls == old(calls)[callRef := bumped];
    }

    /** Each call in the table is flushed once; `trail` records the views in between. */
    method FlushAllCalls() returns (refs: seq<string>, ghost trail: seq<View>)
      modifies this
      ensures Lists(refs, old(calls).Keys)
      ensures FlushTrail(self, trail, refs) && trail[0] == old(State()) && trail[|refs|] == State()
    {
      refs, trail := [], [State()];
      var rest := calls.Keys;
      ghost var all := calls.Keys;
      while rest != {}
        invariant FlushUnderway(self, all, rest, refs, trail, State()) && trail[0] == old(State())
        decreases |rest|
      {
        var r :| r in rest;
        ghost var before := State();
        FlushOne(r);
        FlushProgresses(self, all, rest, refs, trail, before, r, State());
        refs, trail, rest := refs + [r], trail + [State()], rest - {r};
      }
      assert all - rest == all;
    }

    /** Nothing of the call stays in memory: timers, record, semaphore, dedup entry, SIP keys. */
    method Forget(callRef: string, c: Option<Call>)
      modifies this`calls, this`semaphores, this`flushCache, this`armed, this`sipIndex
      ensures calls == old(calls) - {callRef} && semaphores == old(semaphores) - {callRef}
      ensures flushCache == old(flushCache) - {callRef} && armed == CancelAll(old(armed), callRef)
      ensures sipIndex == if c.Some? then DropKeys(old(sipIndex), SipKeys(c.value)) else old(sipIndex)
    {
      armed := CancelAll(armed, callRef);
      calls := calls - {callRef};
      semaphores := semaphores - {callRef};
      flushCache := flushCache - {callRef};
      if c.Some? {
        UnindexCall(c.value);
      }
    }

    method SubmitDelete(callRef: string, c: Option<Call>)
      modifies this`submitted
      ensures submitted == old(submitted) + [DelFor(self, callRef, c)]
    {
      var home := PartitionOf(self, callRef);
      var indexes := [];
      var topology := None;
      if c.Some? {
        indexes := CallIndexKeys(c.value);
        topology := c.value.topology;
      }
      submitted := submitted + [Del(home.role, home.primary, callRef, indexes,
                                    PropagatePeerFor(self, home, topology), DirectionFor(home.role))];
    }

    method Remove(callRef: string)
      modifies this
      ensures RemoveStep(self, old(State()), callRef, State())
    {
      var call := None;
      if callRef in calls {
        call := Some(calls[callRef].value);
      }
      Forget(callRef, call);
      SubmitDelete(callRef, call);
    }

    method DecrementAll(entries: seq<LimiterEntry>)
      modifies this`decremented
      ensures decremented == old(decremented) + ReleaseKeys(entries)
    {
      for i := 0 to |entries|
        invariant decremented == old(decremented) + ReleaseKeys(entries[..i])
      {
        assert entries[..i + 1][..i] == entries[..i];
        if entries[i].incrementSucceeded != Some(false) {
          decremented := decremented + [CallLimiter.Key(entries[i].limiterId, entries[i].originWindow)];
        }
      }
      assert entries[..|entries|] == entries;
    }

    method ForcePurgeOne(callRef: string)
      modifies this
      ensures PurgeStep(self, old(State()), callRef, State())
    {
      if callRef !in calls {
        return;
      }
      var original := calls[callRef].value;
      var promoted := original;
      var wasTerminating := original.phase == Terminating;
      if wasTerminating {
        promoted := ForceDispositions(original);
        if IsFullyResolved(promoted) {
          promoted := promoted.(phase := Terminated);
        }
      }
      cdrs := cdrs + [promoted];
      var home := PartitionOf(self, callRef);
      if wasTerminating && home.role == KvStore.Pri {
        DecrementAll(promoted.limiterEntries);
      }
      Forget(callRef, Some(promoted));
      SubmitDelete(callRef, Some(promoted));
    }

    /** Which calls a sweep would recover. */
    method Orphans(now: int) returns (refs: seq<string>)
      ensures Lists(refs, set r | r in calls && IsOrphan(calls[r].value, now))
    {
      refs := [];
      var rest := calls.Keys;
      while rest != {}
        invariant rest <= calls.Keys
        invariant Lists(refs, set r | r in calls && r !in rest && IsOrphan(calls[r].value, now))
        decreases |rest|
      {
        var r :| r in rest;
        var c := calls[r].value;
        ghost var seen := set x | x in calls && x !in rest && IsOrphan(calls[x].value, now);
        assert (set x | x in calls && x !in rest - {r} && IsOrphan(calls[x].value, now))
            == if IsOrphan(c, now) then seen + {r} else seen;
        if c.phase == Terminated || (c.phase == Terminating && now >= Teardown.SweepDeadline(c)) {
          ListsOneMore(refs, seen, r);
          refs := refs + [r];
        }
        rest := rest - {r};
      }
    }

    method SweepOnce(now: int) returns (refs: seq<string>, ghost trail: seq<View>)
      modifies this
      ensures Lists(refs, set r | r in old(calls) && IsOrphan(old(calls)[r].value, now))
      ensures PurgeTrail(self, trail, refs) && trail[0] == old(State()) && trail[|refs|] == State()
      ensures calls == map r | r in old(calls) && !IsOrphan(old(calls)[r].value, now) :: old(calls)[r]
      ensures forall r :: r in old(calls) ==>
                match old(calls)[r].value.phase
                case Active => r in calls
                case Terminating => r in calls <==> now < Teardown.SweepDeadline(old(calls)[r].value)
                case Terminated => r !in calls
      ensures forall r :: r in calls ==> r in old(calls) && calls[r] == old(calls)[r]
    {
      refs := Orphans(now);
      trail := [State()];
      for i := 0 to |refs|
        invariant PurgeTrail(self, trail, refs[..i]) && trail[0] == old(State()) && trail[i] == State()
        invariant calls == old(calls) - set r | r in refs[..i]
      {
        assert refs[..i + 1] == refs[..i] + [refs[i]];
        assert refs[i] !in refs[..i];
        ForcePurgeOne(refs[i]);
        PurgeTrailGrows(self, trail, refs[..i], refs[i], State());
        trail := trail + [State()];
      }
      assert refs[..|refs|] == refs;
    }
  }
}
