/** The SIP index entries of a replica: what a takeover finds a call by. */
module ReplicaIndexes {
  import opened Options
  import opened Positions
  import opened KvStore
  import opened ReplicationProtocol
  import opened EchoApply
  import opened PullerFiber
  import opened PartitionedStorage
  import opened ReplicationLink
  import opened Cluster

  predicate LeadsTo(idx: map<string, string>, x: string, callRef: string) {
    x in idx && idx[x] == callRef
  }

  /** Once the next member, an update of a live call that the gate lets through, is served and delivered. */
  lemma NextUpdateIsIndexed(l: Link, src: Kv, gen: nat, dst: Kv, wm: Pos, s: Slot)
    requires SourceOk(l, src, gen) && IsNext(ChannelTo(src, l.dst), wm, s) && s.member.op == Update
    requires var k := s.member.key;
             k in src.bodies && (Target(k) in dst.bodies ==> dst.bodies[Target(k)].sidecar < src.bodies[k].sidecar)
    ensures var k, ch := s.member.key, ChannelTo(src, l.dst);
            var after := StoreAfter(l, dst, wm, DataFrames(src, ch, [s]));
            forall x :: x in src.bodies[k].body.indexKeys ==> LeadsTo(after.idx, x, k.callRef)
  {
    var ch := ChannelTo(src, l.dst);
    TargetIsFlip(l, s.member.key);
    var frames := DataFrames(src, ch, [s]);
    assert frames[1..] == [];
    assert StoreAfter(l, dst, wm, frames)
        == StoreAfter(l, OnFrameStore(dst, l.dst, l.src, wm, frames[0]), Max(wm, frames[0].pos), []);
  }

  // ---- An index key of one call -------------------------------------------------------------

  /** No body but that of `k` names the index key. */
  predicate StorePrivate(bodies: map<BodyKey, Entry>, k: BodyKey, x: string) {
    forall j :: j in bodies && j != k ==> x !in bodies[j].body.indexKeys
  }

  /** If the body of `k` names the index key, it leads to the call. */
  predicate Indexed(kv: Kv, k: BodyKey, x: string) {
    k in kv.bodies && x in kv.bodies[k].body.indexKeys ==> LeadsTo(kv.idx, x, k.callRef)
  }

  /** A frame for `k` carries its body's index keys; any other does not name this one. */
  predicate FramePrivate(self: string, source: string, f: Frame, k: BodyKey, x: string) {
    f.Data? ==>
      if TargetKey(self, source, f.partition, f.callRef) == k then f.body.Some? ==> f.indexes == f.body.value.indexKeys
      else x !in f.indexes && (f.body.Some? ==> x !in f.body.value.indexKeys)
  }

  ghost predicate IndexInv(c: Config, s: Cluster, k: BodyKey, x: string) {
    && StorePrivate(s.a.kv.bodies, k, x)
    && StorePrivate(s.b.kv.bodies, Target(k), x)
    && Indexed(s.b.kv, Target(k), x)
    && (forall f :: f in Inflight(s.b.conn) ==> FramePrivate(c.b, c.a, f, Target(k), x))
    && (forall f :: f in Inflight(s.a.conn) ==> FramePrivate(c.a, c.b, f, k, x))
  }

  /** No other call's write names the index key. */
  predicate PrivateStep(c: Config, step: Step, k: BodyKey, x: string) {
    match step.action
    case Put(partition, callRef, body, _) =>
      (step.byA && KeyAtA(c, partition, callRef) == k) || x !in body.indexKeys
    case Refresh(_, _, indexes) => step.byA || x !in indexes
    case Remove(_, _, indexes) => step.byA || x !in indexes
    case Forget(_, _, indexes) => step.byA || x !in indexes
    case _ => true
  }

  lemma ApplyKeepsPrivate(kv: Kv, self: string, source: string, wm: Pos, f: Frame, k: BodyKey, x: string)
    requires StorePrivate(kv.bodies, k, x) && FramePrivate(self, source, f, k, x)
    ensures StorePrivate(OnFrameStore(kv, self, source, wm, f).bodies, k, x)
    ensures Indexed(kv, k, x) ==> Indexed(OnFrameStore(kv, self, source, wm, f), k, x)
  {
  }

  lemma {:induction false} ServedFramesPrivate(kv: Kv, ch: Channel, slots: seq<Slot>, to: string, from: string,
                                                k: BodyKey, x: string)
    requires forall i :: 0 <= i < |slots| ==> slots[i] in ch.scores
    requires forall s :: s in ch.scores ==> s.member.key.owner == OwnerFor(s.member.key.partition, from, to)
    requires StorePrivate(kv.bodies, k, x)
    ensures forall f :: f in DataFrames(kv, ch, slots) ==> FramePrivate(to, from, f, Target(k), x)
  {
    if slots != [] {
      ServedFramesPrivate(kv, ch, slots[1..], to, from, k, x);
    }
  }

  // ---- The owner's side ---------------------------------------------------------------------

  lemma OwnerStep(c: Config, s: Cluster, action: Action, k: BodyKey, x: string)
    requires Inv(c, s) && k.callRef in c.ownedByA && k.owner == OwnerFor(k.partition, c.a, c.b)
    requires Enabled(c, s, action) && PrivateStep(c, Step(true, action), k, x) && IndexInv(c, s, k, x)
    ensures IndexInv(c, Next(c, s, action), k, x)
  {
    match action
    case Deliver(_) =>
      ApplyKeepsPrivate(s.a.kv, c.a, c.b, s.a.view.watermark, Inflight(s.a.conn)[0], k, x);
    case Crash =>
      ApplyKeepsPrivate(s.a.kv, c.a, c.b, s.a.view.watermark, Inflight(s.a.conn)[0], k, x);
    case Serve(slots, head, chunkSize) =>
      ServedFramesPrivate(s.b.kv, ChannelTo(s.b.kv, c.a), slots, c.a, c.b, Target(k), x);
      assert Target(Target(k)) == k;
    case Put(_, _, _, _) =>
    case Refresh(_, _, _) =>
    case Remove(_, _, _) =>
    case Forget(_, _, _) =>
    case _ =>
  }

  /** The same steps by the peer, for which `k` is a replica. */
  lemma PeerStep(c: Config, s: Cluster, action: Action, k: BodyKey, x: string)
    requires Inv(c, s) && k.callRef in c.ownedByA && k.owner == OwnerFor(k.partition, c.a, c.b)
    requires Enabled(c.Swap(), s.Swap(), action) && PrivateStep(c, Step(false, action), k, x) && IndexInv(c, s, k, x)
    ensures IndexInv(c, Next(c.Swap(), s.Swap(), action).Swap(), k, x)
  {
    match action
    case Deliver(_) =>
      ApplyKeepsPrivate(s.b.kv, c.b, c.a, s.b.view.watermark, Inflight(s.b.conn)[0], Target(k), x);
    case Crash =>
      ApplyKeepsPrivate(s.b.kv, c.b, c.a, s.b.view.watermark, Inflight(s.b.conn)[0], Target(k), x);
    case Serve(slots, head, chunkSize) =>
      ServedFramesPrivate(s.a.kv, ChannelTo(s.a.kv, c.b), slots, c.b, c.a, k, x);
    case Put(partition, callRef, _, _) =>
      assert callRef != k.callRef;
    case Refresh(_, callRef, _) =>
      assert callRef != k.callRef;
    case Remove(_, callRef, _) =>
      assert callRef != k.callRef;
    case Forget(_, callRef, _) =>
      assert callRef != k.callRef;
    case _ =>
  }

  ghost predicate PrivateRun(c: Config, steps: seq<Step>, k: BodyKey, x: string) {
    forall i :: 0 <= i < |steps| ==> PrivateStep(c, steps[i], k, x)
  }

  lemma {:induction false} RunKeepsIndexInv(c: Config, s: Cluster, steps: seq<Step>, k: BodyKey, x: string)
    requires c == c.Nothing() && Inv(c, s) && k.callRef in c.ownedByA && k.owner == OwnerFor(k.partition, c.a, c.b)
    requires IsRun(c, s, steps) && PrivateRun(c, steps, k, x) && IndexInv(c, s, k, x)
    ensures IndexInv(c, RunEnd(c, s, steps), k, x)
    decreases |steps|
  {
    if steps != [] {
      if steps[0].byA {
        OwnerStep(c, s, steps[0].action, k, x);
      } else {
        PeerStep(c, s, steps[0].action, k, x);
      }
      StepKeepsInv(c, s, steps[0]);
      assert forall i :: 0 <= i < |steps| - 1 ==> steps[1..][i] == steps[i + 1];
      RunKeepsIndexInv(c, StepNext(c, s, steps[0]), steps[1..], k, x);
    }
  }

  /** Two fresh workers. */
  lemma StartIsIndexed(c: Config, s: Cluster, k: BodyKey, x: string)
    requires s.a == FRESH.(gen := s.a.gen) && s.b == FRESH.(gen := s.b.gen)
    ensures IndexInv(c, s, k, x)
  {
  }

  /**
   * After any run, once the peer has drained: each index key of a live call of which nothing went
   * unrecorded, and which no other call names, leads to the call there. A takeover finds it.
   */
  lemma TakeoverFindsCall(c: Config, s: Cluster, steps: seq<Step>, k: BodyKey, x: string)
    requires Inv(c, s) && k in c.Out().scope && IndexInv(c, s, k, x)
    requires IsRun(c, s, steps) && Recorded(c, s, steps, k.callRef) && PrivateRun(c, steps, k, x)
    requires var t := RunEnd(c, s, steps);
             Drained(c, t) && k in t.a.kv.bodies && x in t.a.kv.bodies[k].body.indexKeys
    ensures LeadsTo(RunEnd(c, s, steps).b.kv.idx, x, k.callRef)
  {
    var d := c.Nothing();
    InvOfNothing(c, s);
    SameRuns(c, d, s, steps);
    RunKeepsIndexInv(d, s, steps, k, x);
    Convergence(c, s, steps, k);
  }
}
