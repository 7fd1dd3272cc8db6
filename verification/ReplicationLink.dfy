/**
 * One direction of replication: what holds between a source's store and channel, and a replica that
 * has consumed the channel up to some watermark.
 */
module ReplicationLink {
  import opened Options
  import opened Positions
  import opened KvStore
  import opened ReplicationProtocol
  import opened EchoApply
  import opened PullerFiber
  import opened PartitionedStorage

  /** `scope` holds the keys, named as in the source's store, that only the source writes. */
  datatype Link = Link(src: string, dst: string, scope: iset<BodyKey>)

  function Target(k: BodyKey): BodyKey {
    k.(partition := if k.partition == Pri then Bak else Pri)
  }

  predicate Owned(l: Link, k: BodyKey) {
    k.owner == OwnerFor(k.partition, l.src, l.dst)
  }

  /** The partition flip on the wire fields lands on the flipped body key. */
  lemma TargetIsFlip(l: Link, k: BodyKey)
    requires Owned(l, k)
    ensures TargetKey(l.dst, l.src, k.partition, k.callRef) == Target(k)
  {
  }

  predicate Synced(src: map<BodyKey, Entry>, dst: map<BodyKey, Entry>, k: BodyKey) {
    && (k in src <==> Target(k) in dst)
    && (k in src ==> src[k] == dst[Target(k)])
  }

  predicate Above(ch: Channel, s: Slot, wm: Pos) {
    s in ch.scores && Before(wm, PosOf(ch, s))
  }

  ghost predicate Pending(ch: Channel, k: BodyKey, wm: Pos) {
    exists s :: Above(ch, s, wm) && s.member.key == k
  }

  ghost predicate DeletePending(ch: Channel, k: BodyKey, wm: Pos) {
    exists s :: Above(ch, s, wm) && s.member == Member(Delete, k)
  }

  /** A replica entry the gate may safely compare with the source's: older, or the same. */
  predicate Compatible(replica: Entry, source: Entry) {
    replica.sidecar < source.sidecar || replica == source
  }

  /** Above the watermark, the last member stamped for a live key is an update. */
  ghost predicate Ordered(src: map<BodyKey, Entry>, ch: Channel, k: BodyKey, wm: Pos) {
    k in src ==>
      forall s :: Above(ch, s, wm) && s.member == Member(Delete, k) ==>
                    exists t :: Above(ch, t, PosOf(ch, s)) && t.member == Member(Update, k)
  }

  /**
   * A key matches or has a member to come, of which the last is an update if it is live; and a copy
   * the gate may not compare has its delete to come.
   */
  ghost predicate KeyOk(src: map<BodyKey, Entry>, ch: Channel, dst: map<BodyKey, Entry>, k: BodyKey, wm: Pos) {
    && (Synced(src, dst, k) || Pending(ch, k, wm))
    && Ordered(src, ch, k, wm)
    && (Target(k) in dst ==> (k in src && Compatible(dst[Target(k)], src[k])) || DeletePending(ch, k, wm))
  }

  ghost predicate SourceOk(l: Link, src: Kv, gen: nat) {
    var ch := ChannelTo(src, l.dst);
    && ChannelValid(ch)
    && (forall g :: g in ch.counters ==> g <= gen)
    && (forall k :: k in l.scope ==> Owned(l, k))
    && (forall k :: k in l.scope && k in src.bodies ==> src.bodies[k].sidecar < SIDECAR_MODULUS)
    && (forall s :: s in ch.scores ==> Owned(l, s.member.key))
  }

  function Top(ch: Channel, gen: nat): Pos {
    Pos(gen, CounterOf(ch, gen))
  }

  ghost predicate ReplicaOk(l: Link, src: Kv, gen: nat, dst: map<BodyKey, Entry>, wm: Pos) {
    var ch := ChannelTo(src, l.dst);
    && AtMost(wm, Top(ch, gen))
    && forall k :: k in l.scope ==> KeyOk(src.bodies, ch, dst, k, wm)
  }

  /** The replica is fine now, and after every prefix of the frames still in flight. */
  ghost predicate Settles(l: Link, src: Kv, gen: nat, dst: Kv, wm: Pos, frames: seq<Frame>)
    decreases |frames|
  {
    && ReplicaOk(l, src, gen, dst.bodies, wm)
    && (frames != [] ==>
          Settles(l, src, gen, OnFrameStore(dst, l.dst, l.src, wm, frames[0]), Max(wm, frames[0].pos), frames[1..]))
  }

  function WatermarkAfter(wm: Pos, frames: seq<Frame>): Pos
    decreases |frames|
  {
    if frames == [] then wm else WatermarkAfter(Max(wm, frames[0].pos), frames[1..])
  }

  function StoreAfter(l: Link, dst: Kv, wm: Pos, frames: seq<Frame>): Kv
    decreases |frames|
  {
    if frames == [] then dst
    else StoreAfter(l, OnFrameStore(dst, l.dst, l.src, wm, frames[0]), Max(wm, frames[0].pos), frames[1..])
  }

  // ---- Watermark facts ----------------------------------------------------------------------

  /** Every stamped position is at most the top. */
  lemma StampedAtMostTop(l: Link, src: Kv, gen: nat, s: Slot)
    requires SourceOk(l, src, gen) && s in ChannelTo(src, l.dst).scores
    ensures AtMost(PosOf(ChannelTo(src, l.dst), s), Top(ChannelTo(src, l.dst), gen))
  {
  }

  /**
   * A replica that was fine at an older watermark stays fine there: what makes a crash before the
   * watermark moves safe.
   */
  lemma OlderWatermark(l: Link, src: Kv, gen: nat, was: map<BodyKey, Entry>, dst: map<BodyKey, Entry>, newer: Pos,
                       older: Pos)
    requires ReplicaOk(l, src, gen, dst, newer) && ReplicaOk(l, src, gen, was, older) && AtMost(older, newer)
    ensures ReplicaOk(l, src, gen, dst, older)
  {
    var ch := ChannelTo(src, l.dst);
    forall k | k in l.scope
      ensures KeyOk(src.bodies, ch, dst, k, older)
    {
      assert KeyOk(src.bodies, ch, dst, k, newer) && KeyOk(src.bodies, ch, was, k, older);
      assert forall s :: Above(ch, s, newer) ==> Above(ch, s, older);
    }
  }

  /** A replica whose watermark has passed every member equals the source on the whole scope. */
  lemma DrainedIsSynced(l: Link, src: Kv, gen: nat, dst: map<BodyKey, Entry>, wm: Pos)
    requires ReplicaOk(l, src, gen, dst, wm)
    requires forall s :: !Above(ChannelTo(src, l.dst), s, wm)
    ensures forall k :: k in l.scope ==> Synced(src.bodies, dst, k)
  {
    forall k | k in l.scope
      ensures Synced(src.bodies, dst, k)
    {
      assert KeyOk(src.bodies, ChannelTo(src, l.dst), dst, k, wm);
    }
  }

  // ---- Delivering the next member -----------------------------------------------------------

  /** `s` is the first member above the watermark. */
  ghost predicate IsNext(ch: Channel, wm: Pos, s: Slot) {
    Above(ch, s, wm) && forall t :: Above(ch, t, wm) ==> AtMost(PosOf(ch, s), PosOf(ch, t))
  }

  lemma OthersStayAbove(ch: Channel, wm: Pos, s: Slot, t: Slot)
    requires ChannelValid(ch) && IsNext(ch, wm, s) && Above(ch, t, wm) && t != s
    ensures Above(ch, t, PosOf(ch, s))
  {
    assert PosOf(ch, t) != PosOf(ch, s);
  }

  lemma OrderedLater(src: map<BodyKey, Entry>, ch: Channel, k: BodyKey, wm: Pos, later: Pos)
    requires Ordered(src, ch, k, wm) && AtMost(wm, later)
    ensures Ordered(src, ch, k, later)
  {
    assert forall s :: Above(ch, s, later) ==> Above(ch, s, wm);
  }

  /** A key the member does not name: neither its replica entry nor its pending members change. */
  lemma DeliverOther(src: map<BodyKey, Entry>, ch: Channel, dst: map<BodyKey, Entry>, after: map<BodyKey, Entry>,
                     wm: Pos, s: Slot, k: BodyKey)
    requires ChannelValid(ch) && IsNext(ch, wm, s) && KeyOk(src, ch, dst, k, wm) && s.member.key != k
    requires Target(k) in after <==> Target(k) in dst
    requires Target(k) in dst ==> after[Target(k)] == dst[Target(k)]
    ensures KeyOk(src, ch, after, k, PosOf(ch, s))
  {
    var p := PosOf(ch, s);
    OrderedLater(src, ch, k, wm, p);
    if Pending(ch, k, wm) {
      var t :| Above(ch, t, wm) && t.member.key == k;
      OthersStayAbove(ch, wm, s, t);
    }
    if DeletePending(ch, k, wm) {
      var t :| Above(ch, t, wm) && t.member == Member(Delete, k);
      OthersStayAbove(ch, wm, s, t);
    }
  }

  /** A delete, or an update whose body is already gone: the replica entry goes. */
  lemma DeliverDelete(src: map<BodyKey, Entry>, ch: Channel, after: map<BodyKey, Entry>, wm: Pos, s: Slot)
    requires IsNext(ch, wm, s) && Ordered(src, ch, s.member.key, wm)
    requires s.member.op == Delete || s.member.key !in src
    requires Target(s.member.key) !in after
    ensures KeyOk(src, ch, after, s.member.key, PosOf(ch, s))
  {
    OrderedLater(src, ch, s.member.key, wm, PosOf(ch, s));
    if s.member.key in src {
      assert Above(ch, s, wm);
    }
  }

  /** An update with a live body: applied, or skipped by the gate. */
  lemma DeliverUpdate(src: map<BodyKey, Entry>, ch: Channel, dst: map<BodyKey, Entry>, after: map<BodyKey, Entry>,
                      wm: Pos, s: Slot)
    requires ChannelValid(ch) && IsNext(ch, wm, s)
    requires var k := s.member.key;
             && KeyOk(src, ch, dst, k, wm)
             && s.member.op == Update && k in src
             && Target(k) in after
             && (after[Target(k)] == src[k]
                 || (Target(k) in dst && after[Target(k)] == dst[Target(k)]
                     && src[k].sidecar <= dst[Target(k)].sidecar))
    ensures KeyOk(src, ch, after, s.member.key, PosOf(ch, s))
  {
    var k, p := s.member.key, PosOf(ch, s);
    OrderedLater(src, ch, k, wm, p);
    if after[Target(k)] != src[k] {
      assert !Compatible(dst[Target(k)], src[k]);
      var d :| Above(ch, d, wm) && d.member == Member(Delete, k);
      OthersStayAbove(ch, wm, s, d);
      assert DeletePending(ch, k, p);
    }
  }

  lemma DeliverKey(l: Link, src: Kv, gen: nat, dst: Kv, wm: Pos, s: Slot, k: BodyKey)
    requires SourceOk(l, src, gen) && ReplicaOk(l, src, gen, dst.bodies, wm)
    requires IsNext(ChannelTo(src, l.dst), wm, s)
    requires k in l.scope
    ensures var ch := ChannelTo(src, l.dst);
            var f := BuildDataFrame(ReadEntry(src, ch, s));
            KeyOk(src.bodies, ch, ApplyFrame(dst, l.dst, l.src, f).bodies, k, PosOf(ch, s))
  {
    var ch := ChannelTo(src, l.dst);
    var f := BuildDataFrame(ReadEntry(src, ch, s));
    var after := ApplyFrame(dst, l.dst, l.src, f).bodies;
    var key := s.member.key;
    TargetIsFlip(l, key);
    assert KeyOk(src.bodies, ch, dst.bodies, k, wm);
    if key != k {
      assert Target(key) != Target(k);
      DeliverOther(src.bodies, ch, dst.bodies, after, wm, s, k);
    } else if IsDelete(f) {
      DeliverDelete(src.bodies, ch, after, wm, s);
    } else {
      DeliverUpdate(src.bodies, ch, dst.bodies, after, wm, s);
    }
  }

  lemma DeliverNext(l: Link, src: Kv, gen: nat, dst: Kv, wm: Pos, s: Slot)
    requires SourceOk(l, src, gen) && ReplicaOk(l, src, gen, dst.bodies, wm)
    requires IsNext(ChannelTo(src, l.dst), wm, s)
    ensures var ch := ChannelTo(src, l.dst);
            var f := BuildDataFrame(ReadEntry(src, ch, s));
            && Max(wm, f.pos) == PosOf(ch, s)
            && ReplicaOk(l, src, gen, OnFrameStore(dst, l.dst, l.src, wm, f).bodies, PosOf(ch, s))
  {
    forall k | k in l.scope
      ensures var ch := ChannelTo(src, l.dst);
              var f := BuildDataFrame(ReadEntry(src, ch, s));
              KeyOk(src.bodies, ch, ApplyFrame(dst, l.dst, l.src, f).bodies, k, PosOf(ch, s))
    {
      DeliverKey(l, src, gen, dst, wm, s, k);
    }
    StampedAtMostTop(l, src, gen, s);
  }

  // ---- A whole pulled batch -----------------------------------------------------------------

  lemma {:induction false} BatchSettles(l: Link, src: Kv, gen: nat, dst: Kv, wm: Pos, slots: seq<Slot>, limit: nat)
    requires SourceOk(l, src, gen) && ReplicaOk(l, src, gen, dst.bodies, wm)
    requires IsPull(ChannelTo(src, l.dst), wm, limit, slots)
    ensures var ch := ChannelTo(src, l.dst);
            var frames := DataFrames(src, ch, slots);
            && Settles(l, src, gen, dst, wm, frames)
            && WatermarkAfter(wm, frames) == (if slots == [] then wm else PosOf(ch, slots[|slots| - 1]))
            && ReplicaOk(l, src, gen, StoreAfter(l, dst, wm, frames).bodies, WatermarkAfter(wm, frames))
    decreases |slots|
  {
    var ch := ChannelTo(src, l.dst);
    if slots != [] {
      var s, rest := slots[0], slots[1..];
      FirstIsLeast(ch, wm, limit, slots);
      DeliverNext(l, src, gen, dst, wm, s);
      var f := BuildDataFrame(ReadEntry(src, ch, s));
      PullTail(ch, wm, limit, slots);
      BatchSettles(l, src, gen, OnFrameStore(dst, l.dst, l.src, wm, f), PosOf(ch, s), rest, limit - 1);
      assert DataFrames(src, ch, slots)[1..] == DataFrames(src, ch, rest);
    }
  }

  lemma FirstIsLeast(ch: Channel, wm: Pos, limit: nat, slots: seq<Slot>)
    requires IsPull(ch, wm, limit, slots) && slots != []
    ensures IsNext(ch, wm, slots[0])
  {
  }

  lemma PullTail(ch: Channel, wm: Pos, limit: nat, slots: seq<Slot>)
    requires IsPull(ch, wm, limit, slots) && slots != []
    ensures IsPull(ch, PosOf(ch, slots[0]), limit - 1, slots[1..])
  {
    var p, rest := PosOf(ch, slots[0]), slots[1..];
    forall t | t in ch.scores && Before(p, PosOf(ch, t)) && t !in rest
      ensures |rest| == limit - 1 && forall i :: 0 <= i < |rest| ==> Before(PosOf(ch, rest[i]), PosOf(ch, t))
    {
      assert t !in slots by {
        assert t != slots[0];
        assert forall i :: 0 < i < |slots| ==> slots[i] == rest[i - 1];
      }
    }
  }

  /** A noop carries the head of a drained pull, so it never moves a watermark past the data before it. */
  lemma NoopIsBehind(ch: Channel, wm: Pos, limit: nat, slots: seq<Slot>, head: Pos)
    requires IsPull(ch, wm, limit, slots) && IsHead(ch, head) && |slots| < limit
    ensures AtMost(head, if slots == [] then wm else PosOf(ch, slots[|slots| - 1]))
  {
    if head != ORIGIN && Before(wm, head) {
      var s :| s in ch.scores && PosOf(ch, s) == head;
      assert s in slots;
    }
  }

  lemma {:induction false} SettlesAppend(l: Link, src: Kv, gen: nat, dst: Kv, wm: Pos, frames: seq<Frame>,
                                         more: seq<Frame>)
    requires Settles(l, src, gen, dst, wm, frames)
    requires Settles(l, src, gen, StoreAfter(l, dst, wm, frames), WatermarkAfter(wm, frames), more)
    ensures Settles(l, src, gen, dst, wm, frames + more)
    ensures WatermarkAfter(wm, frames + more) == WatermarkAfter(WatermarkAfter(wm, frames), more)
    ensures StoreAfter(l, dst, wm, frames + more)
         == StoreAfter(l, StoreAfter(l, dst, wm, frames), WatermarkAfter(wm, frames), more)
    decreases |frames|
  {
    if frames == [] {
      assert frames + more == more;
    } else {
      assert (frames + more)[1..] == frames[1..] + more;
      SettlesAppend(l, src, gen, OnFrameStore(dst, l.dst, l.src, wm, frames[0]), Max(wm, frames[0].pos), frames[1..],
                    more);
    }
  }

  lemma {:induction false} SettlesAtEnd(l: Link, src: Kv, gen: nat, dst: Kv, wm: Pos, frames: seq<Frame>)
    requires Settles(l, src, gen, dst, wm, frames)
    ensures ReplicaOk(l, src, gen, StoreAfter(l, dst, wm, frames).bodies, WatermarkAfter(wm, frames))
    decreases |frames|
  {
    if frames != [] {
      SettlesAtEnd(l, src, gen, OnFrameStore(dst, l.dst, l.src, wm, frames[0]), Max(wm, frames[0].pos), frames[1..]);
    }
  }

  lemma DataSettles(l: Link, src: Kv, gen: nat, dst: Kv, wm: Pos, frames: seq<Frame>, slots: seq<Slot>, chunkSize: nat)
    requires SourceOk(l, src, gen) && Settles(l, src, gen, dst, wm, frames)
    requires IsPull(ChannelTo(src, l.dst), WatermarkAfter(wm, frames), chunkSize, slots)
    ensures var ch := ChannelTo(src, l.dst);
            var more := frames + DataFrames(src, ch, slots);
            && Settles(l, src, gen, dst, wm, more)
            && WatermarkAfter(wm, more) == NextTick(ch, WatermarkAfter(wm, frames), slots, chunkSize).cursor
  {
    SettlesAtEnd(l, src, gen, dst, wm, frames);
    BatchSettles(l, src, gen, StoreAfter(l, dst, wm, frames), WatermarkAfter(wm, frames), slots, chunkSize);
    SettlesAppend(l, src, gen, dst, wm, frames, DataFrames(src, ChannelTo(src, l.dst), slots));
  }

  /** Appending one served tick keeps every prefix fine and moves the cursor as the server does. */
  lemma TickSettles(l: Link, src: Kv, gen: nat, dst: Kv, wm: Pos, frames: seq<Frame>, slots: seq<Slot>,
                    chunkSize: nat, head: Pos)
    requires SourceOk(l, src, gen) && Settles(l, src, gen, dst, wm, frames)
    requires var ch := ChannelTo(src, l.dst);
             IsPull(ch, WatermarkAfter(wm, frames), chunkSize, slots) && IsHead(ch, head)
    ensures var ch := ChannelTo(src, l.dst);
            var tick := frames + TickFrames(src, ch, slots, chunkSize, head);
            && Settles(l, src, gen, dst, wm, tick)
            && WatermarkAfter(wm, tick) == NextTick(ch, WatermarkAfter(wm, frames), slots, chunkSize).cursor
  {
    var ch := ChannelTo(src, l.dst);
    var more := frames + DataFrames(src, ch, slots);
    DataSettles(l, src, gen, dst, wm, frames, slots, chunkSize);
    if |slots| < chunkSize {
      NoopIsBehind(ch, WatermarkAfter(wm, frames), chunkSize, slots, head);
      SettlesAtEnd(l, src, gen, dst, wm, more);
      NoopSettles(l, src, gen, StoreAfter(l, dst, wm, more), WatermarkAfter(wm, more), head);
      SettlesAppend(l, src, gen, dst, wm, more, [Noop(head)]);
      assert frames + TickFrames(src, ch, slots, chunkSize, head) == more + [Noop(head)];
    } else {
      assert frames + TickFrames(src, ch, slots, chunkSize, head) == more;
    }
  }

  lemma NoopSettles(l: Link, src: Kv, gen: nat, dst: Kv, wm: Pos, head: Pos)
    requires ReplicaOk(l, src, gen, dst.bodies, wm) && AtMost(head, wm)
    ensures Settles(l, src, gen, dst, wm, [Noop(head)]) && WatermarkAfter(wm, [Noop(head)]) == wm
  {
    assert Max(wm, head) == wm;
  }

  // ---- Source writes ------------------------------------------------------------------------

  /** The writer's discipline on a live key: the generation grows, or nothing changed. */
  predicate Disciplined(src: map<BodyKey, Entry>, k: BodyKey, e: Option<Entry>) {
    e.Some? ==> e.value.sidecar < SIDECAR_MODULUS && (k in src ==> Compatible(src[k], e.value))
  }

  /** `after` is `src` with one stamped write to `k`: an entry, or a tombstone. */
  ghost predicate IsWrite(l: Link, src: Kv, after: Kv, gen: nat, k: BodyKey, e: Option<Entry>) {
    && after.bodies == (if e.Some? then src.bodies[k := e.value] else src.bodies - {k})
    && ChannelTo(after, l.dst) == Stamp(ChannelTo(src, l.dst), gen, Member(if e.Some? then Update else Delete, k))
  }

  /** The stamped member ends up above everything, and members of other keys stay where they were. */
  lemma StampIsOnTop(ch: Channel, gen: nat, m: Member, wm: Pos)
    requires ChannelValid(ch) && (forall g :: g in ch.counters ==> g <= gen)
    ensures var after := Stamp(ch, gen, m);
            && PosOf(after, Slot(gen, m)) == Top(after, gen)
            && (forall s :: s in ch.scores && s != Slot(gen, m) ==> Above(after, Slot(gen, m), PosOf(after, s)))
            && (AtMost(wm, Top(ch, gen)) ==> Above(after, Slot(gen, m), wm))
            && (forall s, p :: s != Slot(gen, m) ==> (Above(after, s, p) <==> Above(ch, s, p)))
  {
  }

  lemma WriteKeepsOrder(src: map<BodyKey, Entry>, after: map<BodyKey, Entry>, ch: Channel, gen: nat,
                        m: Member, k: BodyKey, wm: Pos)
    requires ChannelValid(ch) && (forall g :: g in ch.counters ==> g <= gen)
    requires Ordered(src, ch, k, wm)
    requires k != m.key ==> (k in after <==> k in src)
    requires m.key in after <==> m.op == Update
    ensures Ordered(after, Stamp(ch, gen, m), k, wm)
  {
    StampIsOnTop(ch, gen, m, wm);
    var ch' := Stamp(ch, gen, m);
    if k in after {
      forall s | Above(ch', s, wm) && s.member == Member(Delete, k)
        ensures exists t :: Above(ch', t, PosOf(ch', s)) && t.member == Member(Update, k)
      {
        if k == m.key {
          assert Above(ch', Slot(gen, m), PosOf(ch', s));
        } else {
          assert Above(ch, s, wm);
          var t :| Above(ch, t, PosOf(ch, s)) && t.member == Member(Update, k);
          assert Above(ch', t, PosOf(ch', s));
        }
      }
    }
  }

  lemma WriteKeepsKey(src: map<BodyKey, Entry>, ch: Channel, dst: map<BodyKey, Entry>, gen: nat, wm: Pos,
                      w: BodyKey, e: Option<Entry>, k: BodyKey)
    requires ChannelValid(ch) && (forall g :: g in ch.counters ==> g <= gen)
    requires AtMost(wm, Top(ch, gen)) && KeyOk(src, ch, dst, k, wm)
    requires k == w ==> Disciplined(src, w, e)
    ensures var m := Member(if e.Some? then Update else Delete, w);
            KeyOk(if e.Some? then src[w := e.value] else src - {w}, Stamp(ch, gen, m), dst, k, wm)
  {
    var m := Member(if e.Some? then Update else Delete, w);
    var ch' := Stamp(ch, gen, m);
    StampIsOnTop(ch, gen, m, wm);
    WriteKeepsOrder(src, if e.Some? then src[w := e.value] else src - {w}, ch, gen, m, k, wm);
    if DeletePending(ch, k, wm) {
      var d :| Above(ch, d, wm) && d.member == Member(Delete, k);
      assert Above(ch', d, wm);
      assert DeletePending(ch', k, wm);
    }
    if k == w {
      assert Above(ch', Slot(gen, m), wm);
      assert Pending(ch', k, wm);
    } else if Pending(ch, k, wm) {
      var s :| Above(ch, s, wm) && s.member.key == k;
      assert Above(ch', s, wm);
    }
  }

  lemma WriteKeepsSource(l: Link, src: Kv, after: Kv, gen: nat, w: BodyKey, e: Option<Entry>)
    requires SourceOk(l, src, gen) && IsWrite(l, src, after, gen, w, e) && Owned(l, w)
    requires w in l.scope ==> Disciplined(src.bodies, w, e)
    ensures SourceOk(l, after, gen)
  {
    var ch, m := ChannelTo(src, l.dst), Member(if e.Some? then Update else Delete, w);
    StampKeepsChannelValid(ch, gen, m);
  }

  lemma WriteKeepsReplica(l: Link, src: Kv, after: Kv, gen: nat, w: BodyKey, e: Option<Entry>,
                          dst: map<BodyKey, Entry>, wm: Pos)
    requires SourceOk(l, src, gen) && IsWrite(l, src, after, gen, w, e)
    requires w in l.scope ==> Disciplined(src.bodies, w, e)
    requires ReplicaOk(l, src, gen, dst, wm)
    ensures ReplicaOk(l, after, gen, dst, wm)
  {
    forall k | k in l.scope
      ensures KeyOk(after.bodies, ChannelTo(after, l.dst), dst, k, wm)
    {
      WriteKeepsKey(src.bodies, ChannelTo(src, l.dst), dst, gen, wm, w, e, k);
    }
  }

  /** A source write preserves the invariant for the replica and for every frame already in flight. */
  lemma {:induction false} WriteKeepsSettles(l: Link, src: Kv, after: Kv, gen: nat, w: BodyKey, e: Option<Entry>,
                                            dst: Kv, wm: Pos, frames: seq<Frame>)
    requires SourceOk(l, src, gen) && IsWrite(l, src, after, gen, w, e)
    requires w in l.scope ==> Disciplined(src.bodies, w, e)
    requires Settles(l, src, gen, dst, wm, frames)
    ensures Settles(l, after, gen, dst, wm, frames)
    decreases |frames|
  {
    WriteKeepsReplica(l, src, after, gen, w, e, dst.bodies, wm);
    if frames != [] {
      WriteKeepsSettles(l, src, after, gen, w, e,
                        OnFrameStore(dst, l.dst, l.src, wm, frames[0]), Max(wm, frames[0].pos), frames[1..]);
    }
  }

  /** A restarted source stamps under a greater gen; nothing already stamped or in flight is affected. */
  lemma {:induction false} RestartKeepsSettles(l: Link, src: Kv, gen: nat, newer: nat, dst: Kv, wm: Pos,
                                               frames: seq<Frame>)
    requires SourceOk(l, src, gen) && gen < newer && Settles(l, src, gen, dst, wm, frames)
    ensures SourceOk(l, src, newer) && Settles(l, src, newer, dst, wm, frames)
    decreases |frames|
  {
    if frames != [] {
      RestartKeepsSettles(l, src, gen, newer,
                          OnFrameStore(dst, l.dst, l.src, wm, frames[0]), Max(wm, frames[0].pos), frames[1..]);
    }
  }

  // ---- Deletes the channel does not record --------------------------------------------------

  /** The replica, now and after every prefix of the frames in flight, has no copy or a delete of it to come. */
  ghost predicate NoCopyLeft(ch: Channel, from: string, to: string, k: BodyKey, dst: Kv, wm: Pos, frames: seq<Frame>)
    decreases |frames|
  {
    && (Target(k) in dst.bodies ==> DeletePending(ch, k, wm))
    && (frames != [] ==>
          NoCopyLeft(ch, from, to, k, OnFrameStore(dst, to, from, wm, frames[0]), Max(wm, frames[0].pos), frames[1..]))
  }

  /** `after` is `src` without the body of `k`, and nothing stamped. */
  ghost predicate IsForgotten(l: Link, src: Kv, after: Kv, k: BodyKey) {
    after.bodies == src.bodies - {k} && ChannelTo(after, l.dst) == ChannelTo(src, l.dst)
  }

  lemma ForgetKeepsKey(src: map<BodyKey, Entry>, ch: Channel, dst: map<BodyKey, Entry>, w: BodyKey, k: BodyKey, wm: Pos)
    requires KeyOk(src, ch, dst, k, wm)
    requires k == w && Target(w) in dst ==> DeletePending(ch, w, wm)
    ensures KeyOk(src - {w}, ch, dst, k, wm)
  {
    if k == w && Target(w) in dst {
      var d :| Above(ch, d, wm) && d.member == Member(Delete, w);
      assert d.member.key == w;
    }
  }

  /** A local delete the replica is not told of is safe where it has nothing to be told. */
  lemma {:induction false} ForgetKeepsSettles(l: Link, src: Kv, after: Kv, gen: nat, w: BodyKey, dst: Kv, wm: Pos,
                                              frames: seq<Frame>)
    requires SourceOk(l, src, gen) && IsForgotten(l, src, after, w)
    requires Settles(l, src, gen, dst, wm, frames)
    requires w in l.scope ==> NoCopyLeft(ChannelTo(src, l.dst), l.src, l.dst, w, dst, wm, frames)
    ensures SourceOk(l, after, gen) && Settles(l, after, gen, dst, wm, frames)
    decreases |frames|
  {
    var ch := ChannelTo(src, l.dst);
    forall k | k in l.scope
      ensures KeyOk(after.bodies, ch, dst.bodies, k, wm)
    {
      assert KeyOk(src.bodies, ch, dst.bodies, k, wm);
      ForgetKeepsKey(src.bodies, ch, dst.bodies, w, k, wm);
    }
    if frames != [] {
      ForgetKeepsSettles(l, src, after, gen, w,
                         OnFrameStore(dst, l.dst, l.src, wm, frames[0]), Max(wm, frames[0].pos), frames[1..]);
    }
  }

  // ---- Fewer claims -------------------------------------------------------------------------

  /** What holds for a scope holds for each part of it. */
  lemma {:induction false} NarrowScope(l: Link, part: Link, src: Kv, gen: nat, dst: Kv, wm: Pos, frames: seq<Frame>)
    requires part.src == l.src && part.dst == l.dst && forall k :: k in part.scope ==> k in l.scope
    requires SourceOk(l, src, gen) && Settles(l, src, gen, dst, wm, frames)
    ensures SourceOk(part, src, gen) && Settles(part, src, gen, dst, wm, frames)
    decreases |frames|
  {
    if frames != [] {
      NarrowScope(l, part, src, gen, OnFrameStore(dst, l.dst, l.src, wm, frames[0]), Max(wm, frames[0].pos),
                  frames[1..]);
    }
  }

  // ---- Changes elsewhere in the replica's store ---------------------------------------------

  ghost predicate AgreeOnScope(l: Link, a: map<BodyKey, Entry>, b: map<BodyKey, Entry>) {
    forall k :: k in l.scope ==>
        (Target(k) in a <==> Target(k) in b) && (Target(k) in a ==> a[Target(k)] == b[Target(k)])
  }

  lemma ApplyKeepsAgreement(l: Link, a: Kv, b: Kv, wm: Pos, f: Frame)
    requires AgreeOnScope(l, a.bodies, b.bodies)
    ensures AgreeOnScope(l, OnFrameStore(a, l.dst, l.src, wm, f).bodies, OnFrameStore(b, l.dst, l.src, wm, f).bodies)
  {
  }

  lemma {:induction false} UnrelatedChangeKeepsSettles(l: Link, src: Kv, gen: nat, dst: Kv, other: Kv, wm: Pos,
                                                       frames: seq<Frame>)
    requires Settles(l, src, gen, dst, wm, frames) && AgreeOnScope(l, dst.bodies, other.bodies)
    ensures Settles(l, src, gen, other, wm, frames)
    decreases |frames|
  {
    var ch := ChannelTo(src, l.dst);
    forall k | k in l.scope
      ensures KeyOk(src.bodies, ch, other.bodies, k, wm)
    {
      assert KeyOk(src.bodies, ch, dst.bodies, k, wm);
    }
    if frames != [] {
      ApplyKeepsAgreement(l, dst, other, wm, frames[0]);
      UnrelatedChangeKeepsSettles(l, src, gen, OnFrameStore(dst, l.dst, l.src, wm, frames[0]),
                                  OnFrameStore(other, l.dst, l.src, wm, frames[0]),
                                  Max(wm, frames[0].pos), frames[1..]);
    }
  }

  /** The same for the source's store: only the scope and this channel matter. */
  ghost predicate SameSource(l: Link, src: Kv, other: Kv) {
    && ChannelTo(other, l.dst) == ChannelTo(src, l.dst)
    && forall k :: k in l.scope ==>
        (k in other.bodies <==> k in src.bodies) && (k in src.bodies ==> other.bodies[k] == src.bodies[k])
  }

  lemma {:induction false} UnrelatedSourceChange(l: Link, src: Kv, other: Kv, gen: nat, dst: Kv, wm: Pos,
                                                 frames: seq<Frame>)
    requires SourceOk(l, src, gen) && Settles(l, src, gen, dst, wm, frames) && SameSource(l, src, other)
    ensures SourceOk(l, other, gen) && Settles(l, other, gen, dst, wm, frames)
    decreases |frames|
  {
    var ch := ChannelTo(src, l.dst);
    forall k | k in l.scope
      ensures KeyOk(other.bodies, ch, dst.bodies, k, wm)
    {
      assert KeyOk(src.bodies, ch, dst.bodies, k, wm);
    }
    if frames != [] {
      UnrelatedSourceChange(l, src, other, gen, OnFrameStore(dst, l.dst, l.src, wm, frames[0]),
                            Max(wm, frames[0].pos), frames[1..]);
    }
  }

  // ---- One round is enough ------------------------------------------------------------------

  /** From any reachable replica, one drained pull delivered without interruption brings it in sync. */
  lemma OneRoundSyncs(l: Link, src: Kv, gen: nat, dst: Kv, wm: Pos, slots: seq<Slot>, limit: nat)
    requires SourceOk(l, src, gen) && ReplicaOk(l, src, gen, dst.bodies, wm)
    requires IsPull(ChannelTo(src, l.dst), wm, limit, slots) && |slots| < limit
    ensures var frames := DataFrames(src, ChannelTo(src, l.dst), slots);
            forall k :: k in l.scope ==> Synced(src.bodies, StoreAfter(l, dst, wm, frames).bodies, k)
  {
    var ch := ChannelTo(src, l.dst);
    var frames := DataFrames(src, ch, slots);
    BatchSettles(l, src, gen, dst, wm, slots, limit);
    var end := WatermarkAfter(wm, frames);
    assert forall i :: 0 <= i < |slots| ==> AtMost(PosOf(ch, slots[i]), end);
    assert forall s :: s in slots ==> !Above(ch, s, end);
    DrainedIsSynced(l, src, gen, StoreAfter(l, dst, wm, frames).bodies, end);
  }
}
