/** Wire frames, and the server tick that turns a channel pull into frames. */
module ReplicationProtocol {
  import opened Options
  import opened Positions
  import opened KvStore

  datatype Frame =
    | Data(pos: Pos, op: Op, partition: Partition, callRef: string, body: Option<Body>, callGen: nat,
           indexes: seq<string>)
    | Noop(pos: Pos)

  /**
   * The generation comes from the sidecar, then from the body, then 0; index keys can only come from
   * a body that is still there.
   */
  function BuildDataFrame(e: PulledEntry): Frame {
    var key := e.slot.member.key;
    var callGen := if e.callGen.Some? then e.callGen.value else if e.body.Some? then e.body.value.topologyGen else 0;
    Data(e.pos, e.slot.member.op, key.partition, key.callRef, e.body, callGen,
         if e.body.Some? then e.body.value.indexKeys else [])
  }

  /** A replication connection alternates between pulling and idling at the same cursor. */
  datatype ReplogTick = Pulling(cursor: Pos) | Idle(cursor: Pos)

  function DataFrames(kv: Kv, ch: Channel, slots: seq<Slot>): (frames: seq<Frame>)
    requires forall i :: 0 <= i < |slots| ==> slots[i] in ch.scores
    ensures |frames| == |slots|
  {
    if slots == [] then []
    else [BuildDataFrame(ReadEntry(kv, ch, slots[0]))] + DataFrames(kv, ch, slots[1..])
  }

  /** A partial batch is followed by a noop at the head of that same pull. */
  function TickFrames(kv: Kv, ch: Channel, slots: seq<Slot>, chunkSize: nat, head: Pos): seq<Frame>
    requires forall i :: 0 <= i < |slots| ==> slots[i] in ch.scores
  {
    DataFrames(kv, ch, slots) + if |slots| < chunkSize then [Noop(head)] else []
  }

  function NextTick(ch: Channel, cursor: Pos, slots: seq<Slot>, chunkSize: nat): ReplogTick
    requires forall i :: 0 <= i < |slots| ==> slots[i] in ch.scores
  {
    var next := if slots == [] then cursor else PosOf(ch, slots[|slots| - 1]);
    if |slots| < chunkSize then Idle(next) else Pulling(next)
  }
}

/** The serving half of the replication stream. */
module ReplLogServer {
  import opened Positions
  import opened KvStore
  import opened ReplicationProtocol
  import KvBackend

  class ReplLogServer {
    const kv: KvBackend.KvBackend
    const caller: string
    const chunkSize: nat
    var tick: ReplogTick

    constructor (kv: KvBackend.KvBackend, caller: string, since: Pos, chunkSize: nat)
      ensures this.kv == kv && this.caller == caller && this.chunkSize == chunkSize && tick == Pulling(since)
    {
      this.kv, this.caller, this.chunkSize, tick := kv, caller, chunkSize, Pulling(since);
    }

    /** One paginate step. `slots` and `head` name the pull that was served. */
    method Step() returns (frames: seq<Frame>, ghost slots: seq<Slot>, ghost head: Pos)
      requires ChannelValid(ChannelTo(kv.State(), caller))
      modifies this`tick
      ensures old(tick).Idle? ==> frames == [] && tick == Pulling(old(tick).cursor)
      ensures old(tick).Pulling? ==>
                var ch := ChannelTo(kv.State(), caller);
                && IsPull(ch, old(tick).cursor, chunkSize, slots) && IsHead(ch, head)
                && frames == TickFrames(kv.State(), ch, slots, chunkSize, head)
                && tick == NextTick(ch, old(tick).cursor, slots, chunkSize)
    {
      frames, slots, head := [], [], ORIGIN;
      if tick.Idle? {
        tick := Pulling(tick.cursor);
        return;
      }
      var entries, pulledHead := kv.ChannelPullBatch(caller, tick.cursor, chunkSize);
      slots, head := KvBackend.SlotsOf(entries), pulledHead;
      ghost var ch := ChannelTo(kv.State(), caller);
      frames := BuildFrames(entries, ch);
      var next := tick.cursor;
      if |entries| > 0 {
        next := entries[|entries| - 1].pos;
      }
      var state := Pulling(next);
      if |entries| < chunkSize {
        frames := frames + [Noop(pulledHead)];
        state := Idle(next);
      }
      tick := state;
    }

    method BuildFrames(entries: seq<PulledEntry>, ghost ch: Channel) returns (frames: seq<Frame>)
      requires forall i :: 0 <= i < |entries| ==>
                 entries[i].slot in ch.scores && entries[i] == ReadEntry(kv.State(), ch, entries[i].slot)
      ensures frames == DataFrames(kv.State(), ch, KvBackend.SlotsOf(entries))
    {
      frames := [];
      ghost var slots := KvBackend.SlotsOf(entries);
      for i := 0 to |entries|
        invariant frames == DataFrames(kv.State(), ch, slots[..i])
      {
        DataFramesSnoc(kv.State(), ch, slots[..i], slots[i]);
        assert slots[..i] + [slots[i]] == slots[..i + 1];
        frames := frames + [BuildDataFrame(entries[i])];
      }
      assert slots[..|entries|] == slots;
    }
  }

  lemma {:induction false} DataFramesSnoc(kv: Kv, ch: Channel, slots: seq<Slot>, last: Slot)
    requires forall i :: 0 <= i < |slots| ==> slots[i] in ch.scores
    requires last in ch.scores
    ensures DataFrames(kv, ch, slots + [last]) == DataFrames(kv, ch, slots) + [BuildDataFrame(ReadEntry(kv, ch, last))]
  {
    if slots != [] {
      DataFramesSnoc(kv, ch, slots[1..], last);
      assert (slots + [last])[1..] == slots[1..] + [last];
    }
  }
}

/** The puller-side write path: frames are applied to local storage and to nothing else. */
module EchoApply {
  import opened Options
  import opened Positions
  import opened KvStore
  import opened ReplicationProtocol
  import KvBackend

  /** A source's `pri` lands in my `bak:{source}`, a source's `bak` in my own `pri`. */
  function TargetKey(self: string, source: string, partition: Partition, callRef: string): BodyKey {
    if partition == Pri then BodyKey(Bak, source, callRef) else BodyKey(Pri, self, callRef)
  }

  predicate IsDelete(f: Frame)
    requires f.Data?
  {
    f.op == Delete || f.body.None?
  }

  /** The content gate: an update whose generation the local sidecar has already reached is skipped. */
  predicate Gated(bodies: map<BodyKey, Entry>, key: BodyKey, f: Frame)
    requires f.Data?
  {
    key in bodies && f.callGen <= bodies[key].sidecar
  }

  function ApplyFrame(kv: Kv, self: string, source: string, f: Frame): Kv
    requires f.Data?
  {
    var key := TargetKey(self, source, f.partition, f.callRef);
    if IsDelete(f) then DeleteLocal(kv, key, f.indexes)
    else if Gated(kv.bodies, key, f) then kv
    else SetLocal(kv, key, f.body.value, f.callGen, f.indexes)
  }

  class ReplicationApply {
    const self: string
    const source: string
    const localKv: KvBackend.KvBackend

    constructor (self: string, source: string, localKv: KvBackend.KvBackend)
      ensures this.self == self && this.source == source && this.localKv == localKv
    {
      this.self, this.source, this.localKv := self, source, localKv;
    }

    method Apply(f: Frame)
      requires f.Data?
      modifies localKv
      ensures localKv.State() == ApplyFrame(old(localKv.State()), self, source, f)
      ensures localKv.channels == old(localKv.channels)
    {
      var key := BodyKey(Pri, self, f.callRef);
      if f.partition == Pri {
        key := BodyKey(Bak, source, f.callRef);
      }
      if f.op == Delete || f.body.None? {
        localKv.ApplyReplicaDelete(key, f.indexes);
        return;
      }
      var local := localKv.BodyGet(key);
      if local.Some? && f.callGen <= local.value.sidecar {
        return;
      }
      localKv.ApplyReplicaUpdate(key, f.body.value, f.callGen, f.indexes);
    }
  }

  /** Applying a frame a second time changes nothing: a crash before the watermark moves is harmless. */
  lemma ReapplyIsNoop(kv: Kv, self: string, source: string, f: Frame)
    requires f.Data?
    ensures ApplyFrame(ApplyFrame(kv, self, source, f), self, source, f) == ApplyFrame(kv, self, source, f)
  {
    var once := ApplyFrame(kv, self, source, f);
    var twice := ApplyFrame(once, self, source, f);
    assert twice.idx == once.idx;
    assert twice.bodies == once.bodies;
  }

  /** Applying never touches an outgoing channel, and changes no body but the frame's target. */
  lemma ApplyIsLocal(kv: Kv, self: string, source: string, f: Frame, other: BodyKey)
    requires f.Data?
    ensures ApplyFrame(kv, self, source, f).channels == kv.channels
    ensures other != TargetKey(self, source, f.partition, f.callRef) ==>
              var bodies := ApplyFrame(kv, self, source, f).bodies;
              (other in bodies <==> other in kv.bodies) && (other in bodies ==> bodies[other] == kv.bodies[other])
  {
  }

  /**
   * Frames are documented to carry the call's index keys on deletes as well. A delete frame read
   * after the tombstone has no body to take them from: it names no index, so it removes the
   * replica's index entries exactly when the call had none there.
   */
  lemma DeleteFrameLeavesIndexes(src: Kv, ch: Channel, slot: Slot, replica: Kv, self: string, source: string)
    requires slot in ch.scores && slot.member.key !in src.bodies
    ensures var f := BuildDataFrame(ReadEntry(src, ch, slot));
            var after := ApplyFrame(replica, self, source, f);
            && IsDelete(f) && f.indexes == []
            && after.idx == replica.idx
            && TargetKey(self, source, f.partition, f.callRef) !in after.bodies
  {
    assert RemoveIndexes(replica.idx, []) == replica.idx;
  }

  /**
   * What an applied update leaves in the index, key by key: a key is deleted later only if the
   * deleting frame still carried it.
   */
  lemma IndexClearedIff(kv: Kv, self: string, source: string, update: Frame, del: Frame, key: string)
    requires update.Data? && !IsDelete(update) && key in update.indexes
    requires del.Data? && IsDelete(del) && del.partition == update.partition && del.callRef == update.callRef
    requires !Gated(kv.bodies, TargetKey(self, source, update.partition, update.callRef), update)
    ensures var after := ApplyFrame(ApplyFrame(kv, self, source, update), self, source, del);
            (key !in after.idx <==> key in del.indexes) && (key in after.idx ==> after.idx[key] == update.callRef)
  {
  }

  /**
   * The 4-byte sidecar bounds what the gate can compare: a replica holding generation 2^32 - 1 skips
   * every later update whose generation was read back from a wrapped sidecar.
   */
  lemma SidecarWrapSkips(kv: Kv, self: string, source: string, f: Frame)
    requires f.Data? && !IsDelete(f) && f.callGen < SIDECAR_MODULUS
    requires var key := TargetKey(self, source, f.partition, f.callRef);
             key in kv.bodies && kv.bodies[key].sidecar == SIDECAR_MODULUS - 1
    ensures ApplyFrame(kv, self, source, f) == kv
  {
  }
}

/** The long-lived pull loop of one source peer. */
module PullerFiber {
  import opened Options
  import opened Positions
  import opened KvStore
  import opened ReplicationProtocol
  import opened EchoApply
  import opened Powers
  import KvBackend

  datatype FiberState = Discovered | Connecting | Streaming | ErroredRetry | ErroredFailed | Disappeared
  datatype ErrorKind = Transport | Parse
  datatype ViewError = ViewError(kind: ErrorKind, at: nat)

  datatype PeerView = PeerView(
    fiberState: FiberState,
    watermark: Pos,
    everCaughtUp: bool,
    lastFrameAt: nat,
    lastError: Option<ViewError>,
    entriesApplied: nat,
    noopsReceived: nat)

  const INITIAL_VIEW := PeerView(Discovered, ORIGIN, false, 0, None, 0, 0)

  function Max(a: Pos, b: Pos): Pos {
    if Before(a, b) then b else a
  }

  /** What one frame does to the shared view. */
  function OnFrame(view: PeerView, f: Frame, nowMs: nat): PeerView {
    var moved := view.(watermark := Max(view.watermark, f.pos), lastFrameAt := nowMs, lastError := None);
    match f
    case Data(_, _, _, _, _, _, _) =>
      moved.(entriesApplied := view.entriesApplied + if Before(view.watermark, f.pos) then 1 else 0)
    case Noop(_) =>
      moved.(everCaughtUp := true, noopsReceived := view.noopsReceived + 1)
  }

  /** What one frame does to the local store: data above the watermark is applied, the rest is not. */
  function OnFrameStore(kv: Kv, self: string, source: string, watermark: Pos, f: Frame): Kv {
    if f.Data? && Before(watermark, f.pos) then ApplyFrame(kv, self, source, f) else kv
  }

  function BackoffMs(initialMs: nat, maxMs: nat, attempt: nat): nat {
    var exponential := initialMs * Pow2(if attempt < 30 then attempt else 30);
    if exponential < maxMs then exponential else maxMs
  }

  class PullerFiber {
    const self: string
    const peer: string
    const kv: KvBackend.KvBackend
    const apply: ReplicationApply
    const initialBackoffMs: nat
    const maxBackoffMs: nat
    const failedThresholdMs: nat
    var view: PeerView
    var attempt: nat
    var firstErrorAtMs: Option<nat>

    constructor (self: string, peer: string, kv: KvBackend.KvBackend, view: PeerView,
                 initialBackoffMs: nat, maxBackoffMs: nat, failedThresholdMs: nat)
      ensures this.self == self && this.peer == peer && this.kv == kv && this.view == view
      ensures apply.self == self && apply.source == peer && apply.localKv == kv
      ensures attempt == 0 && firstErrorAtMs == None
    {
      this.self, this.peer, this.kv, this.view := self, peer, kv, view;
      this.initialBackoffMs, this.maxBackoffMs := initialBackoffMs, maxBackoffMs;
      this.failedThresholdMs := failedThresholdMs;
      attempt, firstErrorAtMs := 0, None;
      apply := new ReplicationApply(self, peer, kv);
    }

    predicate Valid() {
      apply.self == self && apply.source == peer && apply.localKv == kv
    }

    /** Apply first, then advance the watermark: the crash window lies between the two. */
    method ApplyOne(f: Frame, nowMs: nat)
      requires Valid()
      modifies this`view, kv
      ensures view == OnFrame(old(view), f, nowMs)
      ensures kv.State() == OnFrameStore(old(kv.State()), self, peer, old(view).watermark, f)
    {
      var cur := view;
      var isNewer := CompareGenCounter(f.pos, cur.watermark) > 0;
      var watermark := cur.watermark;
      if isNewer {
        watermark := f.pos;
      }
      if f.Data? {
        var applied := cur.entriesApplied;
        if isNewer {
          apply.Apply(f);
          applied := applied + 1;
        }
        view := view.(watermark := watermark, lastFrameAt := nowMs, entriesApplied := applied, lastError := None);
      } else {
        view := view.(watermark := watermark, everCaughtUp := true, lastFrameAt := nowMs,
                      noopsReceived := cur.noopsReceived + 1, lastError := None);
      }
    }

    /** Top of the loop: the stream opens at the preserved watermark. */
    method Connect() returns (since: Pos)
      modifies this`view
      ensures since == old(view).watermark && view == old(view).(fiberState := Streaming)
    {
      view := view.(fiberState := Connecting);
      since := view.watermark;
      view := view.(fiberState := Streaming);
    }

    /**
     * Bottom of the loop: a failed and a cleanly ended stream are both connection losses. Neither
     * `attempt` nor `firstErrorAtMs` is ever reset, although the header comment says a working
     * connection recovers the budget.
     */
    method ConnectionLost(parseError: bool, nowMs: nat) returns (backoffMs: nat)
      modifies this`view, this`attempt, this`firstErrorAtMs
      ensures attempt == old(attempt) + 1
      ensures backoffMs == BackoffMs(initialBackoffMs, maxBackoffMs, old(attempt))
      ensures firstErrorAtMs == Some(old(if firstErrorAtMs.Some? then firstErrorAtMs.value else nowMs))
      ensures view == old(view).(
                fiberState := if nowMs - firstErrorAtMs.value >= failedThresholdMs then ErroredFailed else ErroredRetry,
                lastError := Some(ViewError(if parseError then Parse else Transport, nowMs)))
    {
      if firstErrorAtMs.None? {
        firstErrorAtMs := Some(nowMs);
      }
      var failedFor := nowMs - firstErrorAtMs.value;
      var state := ErroredRetry;
      if failedFor >= failedThresholdMs {
        state := ErroredFailed;
      }
      view := view.(fiberState := state, lastError := Some(ViewError(if parseError then Parse else Transport, nowMs)));
      backoffMs := BackoffMs(initialBackoffMs, maxBackoffMs, attempt);
      attempt := attempt + 1;
    }
  }

  /** With no reset, delays never shrink over the life of the fiber and stay within the cap. */
  lemma {:induction false} BackoffNeverShrinks(initialMs: nat, maxMs: nat, earlier: nat, later: nat)
    requires earlier <= later
    ensures BackoffMs(initialMs, maxMs, earlier) <= BackoffMs(initialMs, maxMs, later) <= maxMs
  {
    var a, b := if earlier < 30 then earlier else 30, if later < 30 then later else 30;
    Pow2Grows(a, b);
    Scale(initialMs, Pow2(a), Pow2(b));
  }

  lemma BackoffSettles(initialMs: nat, maxMs: nat, attempt: nat)
    requires attempt >= 30
    ensures BackoffMs(initialMs, maxMs, attempt) == BackoffMs(initialMs, maxMs, 30)
  {
  }

  /** The delay starts at the initial one, doubles with each loss up to the 30th, and never passes the cap. */
  lemma BackoffDoubles(initialMs: nat, maxMs: nat, attempt: nat)
    requires attempt < 30
    ensures BackoffMs(initialMs, maxMs, 0) == if initialMs < maxMs then initialMs else maxMs
    ensures var delay := BackoffMs(initialMs, maxMs, attempt);
            BackoffMs(initialMs, maxMs, attempt + 1) == if 2 * delay < maxMs then 2 * delay else maxMs
  {
    var e := initialMs * Pow2(attempt);
    assert BackoffMs(initialMs, maxMs, attempt) == if e < maxMs then e else maxMs;
    TwiceAsLong(initialMs, Pow2(attempt));
    assert BackoffMs(initialMs, maxMs, attempt + 1) == if 2 * e < maxMs then 2 * e else maxMs;
  }

  lemma TwiceAsLong(ms: nat, factor: nat)
    ensures ms * (2 * factor) == 2 * (ms * factor)
  {
  }
}
