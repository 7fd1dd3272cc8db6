/**
 * Two workers replicating to each other: every interleaving of call writes, served pulls, deliveries,
 * lost connections, crashes inside an apply, and restarts.
 */
module Cluster {
  import opened Options
  import opened Positions
  import opened KvStore
  import opened ReplicationProtocol
  import opened EchoApply
  import opened PullerFiber
  import opened PartitionedStorage
  import opened ReplicationLink
  import EpochCounter

  datatype Connection = Down | Up(tick: ReplogTick, inflight: seq<Frame>)

  /** `kv`, `gen`: the worker as a source. `view`, `conn`, `acked`: its puller of the other worker. */
  datatype Node = Node(kv: Kv, gen: nat, view: PeerView, conn: Connection, acked: seq<Pos>)

  datatype Cluster = Cluster(a: Node, b: Node) {
    function Swap(): Cluster {
      Cluster(b, a)
    }
  }

  /**
   * Names, the call refs each worker alone writes, and of these the stray ones: calls on which
   * nothing is claimed, so that what befalls them does not touch the claims on the others.
   */
  datatype Config = Config(a: string, b: string, ownedByA: iset<string>, ownedByB: iset<string>,
                           strayA: iset<string>, strayB: iset<string>) {
    function Swap(): Config {
      Config(b, a, ownedByB, ownedByA, strayB, strayA)
    }

    ghost predicate Valid() {
      && a != b && a != "" && b != ""
      && forall r :: !(r in ownedByA && r in ownedByB)
    }

    /** The link from `a` to `b`. */
    ghost function Out(): Link {
      Link(a, b, iset k: BodyKey |
                   k.callRef in ownedByA && k.callRef !in strayA && k.owner == OwnerFor(k.partition, a, b))
    }

    /** No claim on any call: what is left is who owns what. */
    ghost function Nothing(): Config {
      Config(a, b, ownedByA, ownedByB, ownedByA, ownedByB)
    }

    /** Every claim is on one call of `a`. */
    ghost function Only(callRef: string): Config {
      Config(a, b, ownedByA, ownedByB, (iset r | r in ownedByA && r != callRef), ownedByB)
    }
  }

  function Inflight(conn: Connection): seq<Frame> {
    if conn.Up? then conn.inflight else []
  }

  /**
   * What worker `a` (or the network serving its puller) does in one step. `Forget` is the delete
   * without a peer that a worker issues for a call it finds stuck in teardown after a crash. A
   * restarted worker pulls from `seed`: the origin, or the head its bootstrap recorded.
   */
  datatype Action =
    | Put(partition: Partition, callRef: string, body: Body, callGen: nat)
    | Refresh(partition: Partition, callRef: string, indexes: seq<string>)
    | Remove(partition: Partition, callRef: string, indexes: seq<string>)
    | Forget(partition: Partition, callRef: string, indexes: seq<string>)
    | Restart(gen: nat, seed: Pos)
    | Connect
    | Serve(slots: seq<Slot>, head: Pos, chunkSize: nat)
    | Wake
    | Deliver(nowMs: nat)
    | Crash
    | Lose

  function KeyAtA(c: Config, partition: Partition, callRef: string): BodyKey {
    BodyKey(partition, OwnerFor(partition, c.a, c.b), callRef)
  }

  ghost predicate Enabled(c: Config, s: Cluster, action: Action) {
    match action
    case Put(partition, callRef, body, callGen) =>
      && callRef in c.ownedByA && callGen < SIDECAR_MODULUS
      && Disciplined(s.a.kv.bodies, KeyAtA(c, partition, callRef), Some(Entry(body, Sidecar(callGen))))
    case Refresh(_, callRef, _) => callRef in c.ownedByA
    case Remove(_, callRef, _) => callRef in c.ownedByA
    case Forget(_, callRef, _) => callRef in c.ownedByA
    case Restart(gen, seed) => s.a.gen < gen && AtMost(seed, Top(ChannelTo(s.b.kv, c.a), s.b.gen))
    case Connect => s.a.conn.Down?
    case Serve(slots, head, chunkSize) =>
      && s.a.conn.Up? && s.a.conn.tick.Pulling?
      && IsPull(ChannelTo(s.b.kv, c.a), s.a.conn.tick.cursor, chunkSize, slots)
      && IsHead(ChannelTo(s.b.kv, c.a), head)
    case Wake => s.a.conn.Up? && s.a.conn.tick.Idle?
    case Deliver(_) => Inflight(s.a.conn) != []
    case Crash => Inflight(s.a.conn) != []
    case Lose => s.a.conn.Up?
  }

  function Next(c: Config, s: Cluster, action: Action): Cluster
    requires action.Serve? ==> forall i :: 0 <= i < |action.slots| ==> action.slots[i] in ChannelTo(s.b.kv, c.a).scores
  {
    var a := s.a;
    match action
    case Put(partition, callRef, body, callGen) =>
      s.(a := a.(kv := PutCall(a.kv, c.a, a.gen, partition, OwnerFor(partition, c.a, c.b), callRef,
                               body, body.indexKeys, callGen, Some(c.b))))
    case Refresh(partition, callRef, indexes) =>
      s.(a := a.(kv := RefreshCall(a.kv, c.a, a.gen, partition, OwnerFor(partition, c.a, c.b), callRef, indexes,
                                   Some(c.b))))
    case Remove(partition, callRef, indexes) =>
      s.(a := a.(kv := DeleteCall(a.kv, c.a, a.gen, partition, OwnerFor(partition, c.a, c.b), callRef, indexes,
                                  Some(c.b))))
    case Forget(partition, callRef, indexes) =>
      s.(a := a.(kv := DeleteCall(a.kv, c.a, a.gen, partition, OwnerFor(partition, c.a, c.b), callRef, indexes, None)))
    case Restart(gen, seed) =>
      Cluster(a.(gen := gen, view := INITIAL_VIEW.(watermark := seed), conn := Down, acked := []), s.b.(conn := Down))
    case Connect =>
      s.(a := a.(view := a.view.(fiberState := Streaming), conn := Up(Pulling(a.view.watermark), [])))
    case Serve(slots, head, chunkSize) =>
      if a.conn.Down? then s else
      var ch := ChannelTo(s.b.kv, c.a);
      s.(a := a.(conn := Up(NextTick(ch, a.conn.tick.cursor, slots, chunkSize),
                            a.conn.inflight + TickFrames(s.b.kv, ch, slots, chunkSize, head))))
    case Wake =>
      if a.conn.Down? then s else s.(a := a.(conn := a.conn.(tick := Pulling(a.conn.tick.cursor))))
    case Deliver(nowMs) =>
      if Inflight(a.conn) == [] then s else
      var f := a.conn.inflight[0];
      s.(a := a.(kv := OnFrameStore(a.kv, c.a, c.b, a.view.watermark, f),
                 view := OnFrame(a.view, f, nowMs),
                 conn := a.conn.(inflight := a.conn.inflight[1..]),
                 acked := if f.Data? && Before(a.view.watermark, f.pos) then a.acked + [f.pos] else a.acked))
    case Crash =>
      if Inflight(a.conn) == [] then s else
      s.(a := a.(kv := OnFrameStore(a.kv, c.a, c.b, a.view.watermark, a.conn.inflight[0]), conn := Down))
    case Lose =>
      s.(a := a.(view := a.view.(fiberState := ErroredRetry), conn := Down))
  }

  datatype Step = Step(byA: bool, action: Action)

  ghost predicate StepEnabled(c: Config, s: Cluster, step: Step) {
    if step.byA then Enabled(c, s, step.action) else Enabled(c.Swap(), s.Swap(), step.action)
  }

  ghost function StepNext(c: Config, s: Cluster, step: Step): Cluster
    requires StepEnabled(c, s, step)
  {
    if step.byA then Next(c, s, step.action) else Next(c.Swap(), s.Swap(), step.action).Swap()
  }

  ghost predicate IsRun(c: Config, s: Cluster, steps: seq<Step>)
    decreases |steps|
  {
    steps == [] || (StepEnabled(c, s, steps[0]) && IsRun(c, StepNext(c, s, steps[0]), steps[1..]))
  }

  ghost function RunEnd(c: Config, s: Cluster, steps: seq<Step>): Cluster
    requires IsRun(c, s, steps)
    decreases |steps|
  {
    if steps == [] then s else RunEnd(c, StepNext(c, s, steps[0]), steps[1..])
  }

  // ---- The invariant ------------------------------------------------------------------------

  predicate FrameOwned(f: Frame, refs: iset<string>) {
    f.Data? ==> f.callRef in refs
  }

  /** The link from `a` to `b`: the channel, the frames on their way, and the replica at `b`. */
  ghost predicate HalfInv(c: Config, s: Cluster) {
    var l := c.Out();
    && SourceOk(l, s.a.kv, s.a.gen)
    && (forall slot :: slot in ChannelTo(s.a.kv, c.b).scores ==> slot.member.key.callRef in c.ownedByA)
    && Settles(l, s.a.kv, s.a.gen, s.b.kv, s.b.view.watermark, Inflight(s.b.conn))
    && (s.b.conn.Up? ==> WatermarkAfter(s.b.view.watermark, s.b.conn.inflight) == s.b.conn.tick.cursor)
    && (forall f :: f in Inflight(s.b.conn) ==> FrameOwned(f, c.ownedByA))
  }

  ghost predicate Inv(c: Config, s: Cluster) {
    c.Valid() && HalfInv(c, s) && HalfInv(c.Swap(), s.Swap())
  }

  const FRESH := Node(EMPTY_KV, 0, INITIAL_VIEW, Down, [])

  lemma InitInv(c: Config, s: Cluster)
    requires c.Valid()
    requires s.a == FRESH.(gen := s.a.gen) && s.b == FRESH.(gen := s.b.gen)
    ensures Inv(c, s)
  {
  }

  // ---- `a` acts as the source of its own link -----------------------------------------------

  lemma CallWriteKeepsOut(c: Config, s: Cluster, after: Cluster, k: BodyKey, e: Option<Entry>)
    requires Inv(c, s) && k.callRef in c.ownedByA && k.owner == OwnerFor(k.partition, c.a, c.b)
    requires IsWrite(c.Out(), s.a.kv, after.a.kv, s.a.gen, k, e)
    requires k in c.Out().scope ==> Disciplined(s.a.kv.bodies, k, e)
    requires after == s.(a := s.a.(kv := after.a.kv))
    ensures HalfInv(c, after)
  {
    var l := c.Out();
    WriteKeepsSource(l, s.a.kv, after.a.kv, s.a.gen, k, e);
    WriteKeepsSettles(l, s.a.kv, after.a.kv, s.a.gen, k, e, s.b.kv, s.b.view.watermark, Inflight(s.b.conn));
  }

  /** The same write as seen by the other link, for which `a` is the replica. */
  lemma CallWriteKeepsIn(c: Config, s: Cluster, after: Cluster, k: BodyKey, e: Option<Entry>)
    requires Inv(c, s) && k.callRef in c.ownedByA
    requires IsWrite(c.Out(), s.a.kv, after.a.kv, s.a.gen, k, e)
    requires after == s.(a := s.a.(kv := after.a.kv))
    ensures HalfInv(c.Swap(), after.Swap())
  {
    var l := c.Swap().Out();
    assert AgreeOnScope(l, s.a.kv.bodies, after.a.kv.bodies);
    UnrelatedChangeKeepsSettles(l, s.b.kv, s.b.gen, s.a.kv, after.a.kv, s.a.view.watermark, Inflight(s.a.conn));
  }

  lemma CallWriteKeepsInv(c: Config, s: Cluster, action: Action)
    requires Inv(c, s) && Enabled(c, s, action) && (action.Put? || action.Refresh? || action.Remove?)
    ensures Inv(c, Next(c, s, action))
  {
    var after := Next(c, s, action);
    var k := KeyAtA(c, action.partition, action.callRef);
    var e := if action.Put? then Some(Entry(action.body, Sidecar(action.callGen)))
             else if action.Refresh? && k in s.a.kv.bodies
             then Some(Entry(s.a.kv.bodies[k].body, Sidecar(s.a.kv.bodies[k].sidecar)))
             else None;
    if action.Refresh? && k !in s.a.kv.bodies {
      assert after == s;
    } else {
      CallWriteKeepsOut(c, s, after, k, e);
      CallWriteKeepsIn(c, s, after, k, e);
    }
  }

  /** `b` has nothing of the call that no stamped delete will remove. */
  ghost predicate NothingLeft(c: Config, s: Cluster, partition: Partition, callRef: string) {
    NoCopyLeft(ChannelTo(s.a.kv, c.b), c.a, c.b, KeyAtA(c, partition, callRef),
               s.b.kv, s.b.view.watermark, Inflight(s.b.conn))
  }

  /**
   * As far as calls are claimed on: a forgotten one left nothing at the peer, and pulling from a
   * restart's seed misses nothing of any. Every other action is free.
   */
  ghost predicate Clean(c: Config, s: Cluster, action: Action) {
    match action
    case Forget(partition, callRef, _) => callRef !in c.strayA ==> NothingLeft(c, s, partition, callRef)
    case Restart(_, seed) =>
      forall k :: k in c.Swap().Out().scope ==> KeyOk(s.b.kv.bodies, ChannelTo(s.b.kv, c.a), s.a.kv.bodies, k, seed)
    case _ => true
  }

  lemma ForgetKeepsInv(c: Config, s: Cluster, action: Action)
    requires Inv(c, s) && action.Forget? && Enabled(c, s, action) && Clean(c, s, action)
    ensures Inv(c, Next(c, s, action))
  {
    var after := Next(c, s, action);
    var k := KeyAtA(c, action.partition, action.callRef);
    var l := c.Swap().Out();
    ForgetKeepsSettles(c.Out(), s.a.kv, after.a.kv, s.a.gen, k, s.b.kv, s.b.view.watermark, Inflight(s.b.conn));
    assert AgreeOnScope(l, s.a.kv.bodies, after.a.kv.bodies);
    UnrelatedChangeKeepsSettles(l, s.b.kv, s.b.gen, s.a.kv, after.a.kv, s.a.view.watermark, Inflight(s.a.conn));
  }

  lemma RestartKeepsInv(c: Config, s: Cluster, gen: nat, seed: Pos)
    requires Inv(c, s) && Enabled(c, s, Restart(gen, seed)) && Clean(c, s, Restart(gen, seed))
    ensures Inv(c, Next(c, s, Restart(gen, seed)))
  {
    var after := Next(c, s, Restart(gen, seed));
    assert Settles(c.Out(), s.a.kv, s.a.gen, s.b.kv, s.b.view.watermark, []);
    RestartKeepsSettles(c.Out(), s.a.kv, s.a.gen, gen, s.b.kv, s.b.view.watermark, []);
    assert HalfInv(c.Swap(), after.Swap());
  }

  // ---- `a` acts as the replica of the other link --------------------------------------------

  /** Applying a frame of `b`'s calls leaves `a`'s own calls and its outgoing channel alone. */
  lemma ApplyKeepsOut(c: Config, s: Cluster, f: Frame, after: Cluster)
    requires Inv(c, s) && FrameOwned(f, c.ownedByB)
    requires after.a.kv == OnFrameStore(s.a.kv, c.a, c.b, s.a.view.watermark, f)
    requires after.a.gen == s.a.gen && after.b == s.b
    ensures HalfInv(c, after)
  {
    var l := c.Out();
    assert SameSource(l, s.a.kv, after.a.kv);
    UnrelatedSourceChange(l, s.a.kv, after.a.kv, s.a.gen, s.b.kv, s.b.view.watermark, Inflight(s.b.conn));
  }

  lemma DeliverKeepsInv(c: Config, s: Cluster, nowMs: nat)
    requires Inv(c, s) && Enabled(c, s, Deliver(nowMs))
    ensures Inv(c, Next(c, s, Deliver(nowMs)))
  {
    var f := s.a.conn.inflight[0];
    var after := Next(c, s, Deliver(nowMs));
    assert f in Inflight(s.a.conn);
    ApplyKeepsOut(c, s, f, after);
    assert Settles(c.Swap().Out(), s.b.kv, s.b.gen, after.a.kv, after.a.view.watermark, after.a.conn.inflight);
    assert forall g :: g in after.a.conn.inflight ==> g in s.a.conn.inflight;
  }

  lemma CrashKeepsInv(c: Config, s: Cluster)
    requires Inv(c, s) && Enabled(c, s, Crash)
    ensures Inv(c, Next(c, s, Crash))
  {
    var f := s.a.conn.inflight[0];
    var after := Next(c, s, Crash);
    var l, wm := c.Swap().Out(), s.a.view.watermark;
    assert f in Inflight(s.a.conn);
    ApplyKeepsOut(c, s, f, after);
    assert Settles(l, s.b.kv, s.b.gen, after.a.kv, Max(wm, f.pos), s.a.conn.inflight[1..]);
    OlderWatermark(l, s.b.kv, s.b.gen, s.a.kv.bodies, after.a.kv.bodies, Max(wm, f.pos), wm);
  }

  lemma ServeKeepsInv(c: Config, s: Cluster, action: Action)
    requires Inv(c, s) && action.Serve? && Enabled(c, s, action)
    ensures Inv(c, Next(c, s, action))
  {
    var after := Next(c, s, action);
    var l, ch := c.Swap().Out(), ChannelTo(s.b.kv, c.a);
    TickSettles(l, s.b.kv, s.b.gen, s.a.kv, s.a.view.watermark, s.a.conn.inflight, action.slots, action.chunkSize,
                action.head);
    DataFramesOwned(s.b.kv, ch, action.slots, c.ownedByB);
    assert HalfInv(c.Swap(), after.Swap());
  }

  lemma {:induction false} DataFramesOwned(kv: Kv, ch: Channel, slots: seq<Slot>, refs: iset<string>)
    requires forall i :: 0 <= i < |slots| ==> slots[i] in ch.scores
    requires forall s :: s in ch.scores ==> s.member.key.callRef in refs
    ensures forall f :: f in DataFrames(kv, ch, slots) ==> FrameOwned(f, refs)
  {
    if slots != [] {
      DataFramesOwned(kv, ch, slots[1..], refs);
    }
  }

  ghost predicate StepClean(c: Config, s: Cluster, step: Step) {
    if step.byA then Clean(c, s, step.action) else Clean(c.Swap(), s.Swap(), step.action)
  }

  lemma ActionKeepsInv(c: Config, s: Cluster, action: Action)
    requires Inv(c, s) && Enabled(c, s, action) && Clean(c, s, action)
    ensures Inv(c, Next(c, s, action))
  {
    match action
    case Put(_, _, _, _) => CallWriteKeepsInv(c, s, action);
    case Refresh(_, _, _) => CallWriteKeepsInv(c, s, action);
    case Remove(_, _, _) => CallWriteKeepsInv(c, s, action);
    case Forget(_, _, _) => ForgetKeepsInv(c, s, action);
    case Restart(gen, seed) => RestartKeepsInv(c, s, gen, seed);
    case Serve(_, _, _) => ServeKeepsInv(c, s, action);
    case Deliver(nowMs) => DeliverKeepsInv(c, s, nowMs);
    case Crash => CrashKeepsInv(c, s);
    case Connect =>
    case Wake =>
    case Lose =>
  }

  lemma StepKeepsInv(c: Config, s: Cluster, step: Step)
    requires Inv(c, s) && StepEnabled(c, s, step) && StepClean(c, s, step)
    ensures Inv(c, StepNext(c, s, step))
  {
    if step.byA {
      ActionKeepsInv(c, s, step.action);
    } else {
      assert c.Swap().Swap() == c && s.Swap().Swap() == s;
      ActionKeepsInv(c.Swap(), s.Swap(), step.action);
    }
  }

  // ---- Whole runs ---------------------------------------------------------------------------

  /** The run is clean for every call claimed on. */
  ghost predicate CleanRun(c: Config, s: Cluster, steps: seq<Step>)
    requires IsRun(c, s, steps)
    decreases |steps|
  {
    steps == [] || (StepClean(c, s, steps[0]) && CleanRun(c, StepNext(c, s, steps[0]), steps[1..]))
  }

  lemma {:induction false} RunKeepsInv(c: Config, s: Cluster, steps: seq<Step>)
    requires Inv(c, s) && IsRun(c, s, steps) && CleanRun(c, s, steps)
    ensures Inv(c, RunEnd(c, s, steps))
    decreases |steps|
  {
    if steps != [] {
      StepKeepsInv(c, s, steps[0]);
      RunKeepsInv(c, StepNext(c, s, steps[0]), steps[1..]);
    }
  }

  /** `b`'s puller has consumed everything `a`'s channel records. */
  ghost predicate Drained(c: Config, s: Cluster) {
    forall slot :: !Above(ChannelTo(s.a.kv, c.b), slot, s.b.view.watermark)
  }

  lemma ClaimedCallsConverge(c: Config, s: Cluster, steps: seq<Step>)
    requires Inv(c, s) && IsRun(c, s, steps) && CleanRun(c, s, steps)
    ensures var t := RunEnd(c, s, steps);
            && (forall k :: k in c.Out().scope ==>
                  Synced(t.a.kv.bodies, t.b.kv.bodies, k) || Pending(ChannelTo(t.a.kv, c.b), k, t.b.view.watermark))
            && (Drained(c, t) ==> forall k :: k in c.Out().scope ==> Synced(t.a.kv.bodies, t.b.kv.bodies, k))
  {
    RunKeepsInv(c, s, steps);
    var t := RunEnd(c, s, steps);
    forall k | k in c.Out().scope
      ensures KeyOk(t.a.kv.bodies, ChannelTo(t.a.kv, c.b), t.b.kv.bodies, k, t.b.view.watermark)
    {
    }
    if Drained(c, t) {
      DrainedIsSynced(c.Out(), t.a.kv, t.a.gen, t.b.kv.bodies, t.b.view.watermark);
    }
  }

  // ---- One call at a time -------------------------------------------------------------------

  /** A claim on all calls is a claim on each. */
  lemma InvOfEach(c: Config, s: Cluster, callRef: string)
    requires Inv(c, s) && callRef in c.ownedByA && callRef !in c.strayA
    ensures Inv(c.Only(callRef), s)
  {
    var d := c.Only(callRef);
    NarrowScope(c.Out(), d.Out(), s.a.kv, s.a.gen, s.b.kv, s.b.view.watermark, Inflight(s.b.conn));
    NarrowScope(c.Swap().Out(), d.Swap().Out(), s.b.kv, s.b.gen, s.a.kv, s.a.view.watermark, Inflight(s.a.conn));
  }

  lemma InvOfNothing(c: Config, s: Cluster)
    requires Inv(c, s)
    ensures Inv(c.Nothing(), s)
  {
    var d := c.Nothing();
    NarrowScope(c.Out(), d.Out(), s.a.kv, s.a.gen, s.b.kv, s.b.view.watermark, Inflight(s.b.conn));
    NarrowScope(c.Swap().Out(), d.Swap().Out(), s.b.kv, s.b.gen, s.a.kv, s.a.view.watermark, Inflight(s.a.conn));
  }

  /** What is claimed does not matter to what can happen. */
  lemma {:induction false} SameRuns(c: Config, d: Config, s: Cluster, steps: seq<Step>)
    requires d == c.(strayA := d.strayA, strayB := d.strayB)
    ensures IsRun(c, s, steps) <==> IsRun(d, s, steps)
    ensures IsRun(c, s, steps) ==> RunEnd(c, s, steps) == RunEnd(d, s, steps)
    decreases |steps|
  {
    if steps != [] && StepEnabled(c, s, steps[0]) {
      SameRuns(c, d, StepNext(c, s, steps[0]), steps[1..]);
    }
  }

  /**
   * Nothing of this call went unrecorded: each delete of it without a peer found nothing left at the
   * peer, and no restart of the peer seeded its puller past something it missed of it. Of other
   * calls, and of the owner's own restarts, nothing is asked.
   */
  ghost predicate Recorded(c: Config, s: Cluster, steps: seq<Step>, callRef: string)
    requires IsRun(c, s, steps)
  {
    SameRuns(c, c.Only(callRef), s, steps);
    CleanRun(c.Only(callRef), s, steps)
  }

  /**
   * Convergence: after any run, whatever befell other calls, a call of `a` of which nothing went
   * unrecorded matches on `b` or has a member above `b`'s watermark; so once the watermark has
   * reached the head, presence, body and generation agree.
   */
  lemma Convergence(c: Config, s: Cluster, steps: seq<Step>, k: BodyKey)
    requires Inv(c, s) && k in c.Out().scope
    requires IsRun(c, s, steps) && Recorded(c, s, steps, k.callRef)
    ensures var t := RunEnd(c, s, steps);
            && (Synced(t.a.kv.bodies, t.b.kv.bodies, k) || Pending(ChannelTo(t.a.kv, c.b), k, t.b.view.watermark))
            && (Drained(c, t) ==> Synced(t.a.kv.bodies, t.b.kv.bodies, k))
  {
    var d := c.Only(k.callRef);
    InvOfEach(c, s, k.callRef);
    SameRuns(c, d, s, steps);
    ClaimedCallsConverge(d, s, steps);
    assert k in d.Out().scope;
  }

  /** The steps by which a worker itself writes one of its calls. */
  predicate WritesCall(step: Step, byA: bool, callRef: string) {
    && step.byA == byA
    && (step.action.Put? || step.action.Refresh? || step.action.Remove? || step.action.Forget?)
    && step.action.callRef == callRef
  }

  /** No echo: only `a`'s own writes change one of `a`'s calls on `a`. */
  lemma OnlyOwnerWrites(c: Config, s: Cluster, step: Step, k: BodyKey)
    requires Inv(c, s) && StepEnabled(c, s, step)
    requires k.callRef in c.ownedByA && !WritesCall(step, true, k.callRef)
    ensures var t := StepNext(c, s, step);
            (k in t.a.kv.bodies <==> k in s.a.kv.bodies)
                && (k in s.a.kv.bodies ==> t.a.kv.bodies[k] == s.a.kv.bodies[k])
  {
    if step.byA && (step.action.Deliver? || step.action.Crash?) {
      assert s.a.conn.inflight[0] in Inflight(s.a.conn);
      assert FrameOwned(s.a.conn.inflight[0], c.ownedByB);
    }
  }

  ghost predicate NoWriteTo(steps: seq<Step>, callRef: string) {
    forall i :: 0 <= i < |steps| ==> !WritesCall(steps[i], true, callRef)
  }

  lemma {:induction false} UntouchedOverRun(c: Config, s: Cluster, steps: seq<Step>, k: BodyKey)
    requires Inv(c, s) && IsRun(c, s, steps) && CleanRun(c, s, steps)
    requires k.callRef in c.ownedByA && NoWriteTo(steps, k.callRef)
    ensures k in RunEnd(c, s, steps).a.kv.bodies <==> k in s.a.kv.bodies
    decreases |steps|
  {
    if steps != [] {
      StepKeepsInv(c, s, steps[0]);
      OnlyOwnerWrites(c, s, steps[0], k);
      assert NoWriteTo(steps[1..], k.callRef) by {
        assert forall i :: 0 <= i < |steps| - 1 ==> steps[1..][i] == steps[i + 1];
      }
      UntouchedOverRun(c, StepNext(c, s, steps[0]), steps[1..], k);
    }
  }

  /**
   * A delete is never undone, with a peer, or without one where nothing was left: whatever both
   * workers do afterwards, short of `a` writing the call again, it stays gone on `a`, and it is gone
   * on `b` once `b` has drained. `b`'s channel back to `a` never mentions it.
   */
  lemma DeleteIsFinal(c: Config, s: Cluster, delete: Action, rest: seq<Step>)
    requires Inv(c, s) && (delete.Remove? || delete.Forget?) && Enabled(c, s, delete)
    requires delete.callRef !in c.strayA && Clean(c.Only(delete.callRef), s, delete)
    requires var deleted := Next(c, s, delete);
             IsRun(c, deleted, rest) && Recorded(c, deleted, rest, delete.callRef) && NoWriteTo(rest, delete.callRef)
    ensures var callRef, k := delete.callRef, KeyAtA(c, delete.partition, delete.callRef);
            var t := RunEnd(c, Next(c, s, delete), rest);
            && k !in t.a.kv.bodies
            && (Drained(c, t) ==> Target(k) !in t.b.kv.bodies)
            && (forall slot :: slot in ChannelTo(t.b.kv, c.a).scores ==> slot.member.key.callRef != callRef)
  {
    var d, deleted := c.Only(delete.callRef), Next(c, s, delete);
    var k := KeyAtA(c, delete.partition, delete.callRef);
    InvOfEach(c, s, delete.callRef);
    SameRuns(c, d, deleted, rest);
    ActionKeepsInv(d, s, delete);
    AfterDelete(d, deleted, rest, k);
  }

  lemma AfterDelete(c: Config, s: Cluster, rest: seq<Step>, k: BodyKey)
    requires Inv(c, s) && k in c.Out().scope && k !in s.a.kv.bodies
    requires IsRun(c, s, rest) && CleanRun(c, s, rest) && NoWriteTo(rest, k.callRef)
    ensures var t := RunEnd(c, s, rest);
            && k !in t.a.kv.bodies
            && (Drained(c, t) ==> Target(k) !in t.b.kv.bodies)
            && (forall slot :: slot in ChannelTo(t.b.kv, c.a).scores ==> slot.member.key.callRef != k.callRef)
  {
    UntouchedOverRun(c, s, rest, k);
    RunKeepsInv(c, s, rest);
    ClaimedCallsConverge(c, s, rest);
  }

  /** A later boot, by its restart count or else by its clock, may always restart, at the origin at least. */
  lemma LaterBootMayRestart(c: Config, s: Cluster, rc: nat, ms: nat, laterRc: nat, laterMs: nat)
    requires ms < 0x1_0000_0000_0000 && laterMs < 0x1_0000_0000_0000
    requires s.a.gen == EpochCounter.PackGen(EpochCounter.Whole(rc), EpochCounter.Whole(ms))
    ensures var gen := EpochCounter.PackGen(EpochCounter.Whole(laterRc), EpochCounter.Whole(laterMs));
            Enabled(c, s, Restart(gen, ORIGIN)) <==> rc < laterRc || (rc == laterRc && ms < laterMs)
  {
    EpochCounter.LaterBootIsGreater(rc, ms, laterRc, laterMs);
  }

  // ---- Effectively once ---------------------------------------------------------------------

  /** Acknowledged data frames come in strictly increasing position order, none above the watermark. */
  ghost predicate AckedInOrder(n: Node) {
    && (forall i, j :: 0 <= i < j < |n.acked| ==> Before(n.acked[i], n.acked[j]))
    && (forall i :: 0 <= i < |n.acked| ==> AtMost(n.acked[i], n.view.watermark))
  }

  predicate NotRestarted(step: Step) {
    !(step.byA && step.action.Restart?)
  }

  /** One step of anyone, `a`'s own restart excepted: the watermark and the caught-up flag only rise. */
  lemma StepAdvances(c: Config, s: Cluster, step: Step)
    requires StepEnabled(c, s, step) && AckedInOrder(s.a)
    ensures AckedInOrder(StepNext(c, s, step).a)
    ensures NotRestarted(step) ==>
              var t := StepNext(c, s, step);
              && AtMost(s.a.view.watermark, t.a.view.watermark)
              && s.a.acked <= t.a.acked
              && (s.a.view.everCaughtUp ==> t.a.view.everCaughtUp)
  {
    var t := StepNext(c, s, step);
    if step.byA && step.action.Deliver? {
      var f := s.a.conn.inflight[0];
      assert t.a.view.watermark == Max(s.a.view.watermark, f.pos);
    }
  }

  lemma {:induction false} EffectivelyOnce(c: Config, s: Cluster, steps: seq<Step>)
    requires IsRun(c, s, steps) && AckedInOrder(s.a)
    requires forall i :: 0 <= i < |steps| ==> NotRestarted(steps[i])
    ensures var t := RunEnd(c, s, steps);
            && AckedInOrder(t.a) && s.a.acked <= t.a.acked
            && AtMost(s.a.view.watermark, t.a.view.watermark)
            && (s.a.view.everCaughtUp ==> t.a.view.everCaughtUp)
    decreases |steps|
  {
    if steps != [] {
      StepAdvances(c, s, steps[0]);
      assert forall i :: 0 <= i < |steps| - 1 ==> steps[1..][i] == steps[i + 1];
      EffectivelyOnce(c, StepNext(c, s, steps[0]), steps[1..]);
    }
  }

  /** A crash between apply and watermark leaves a store on which the same frame applies as a no-op. */
  lemma CrashThenReapply(c: Config, s: Cluster)
    requires Enabled(c, s, Crash)
    ensures var f := s.a.conn.inflight[0];
            var crashed := Next(c, s, Crash);
            && crashed.a.view == s.a.view
            && OnFrameStore(crashed.a.kv, c.a, c.b, crashed.a.view.watermark, f) == crashed.a.kv
  {
    var f := s.a.conn.inflight[0];
    if f.Data? {
      ReapplyIsNoop(s.a.kv, c.a, c.b, f);
    }
  }

  // ---- What the hypotheses are for ----------------------------------------------------------

  /**
   * Without the generation discipline the gate starves an update for good: `b` holds the newer
   * generation of an earlier body, has acknowledged everything, and differs from `a`.
   */
  lemma UndisciplinedPutIsSkipped(stale: Body, newer: Body, callRef: string)
    requires stale != newer
    ensures var k := BodyKey(Pri, "a", callRef);
            var first := PutCall(EMPTY_KV, "a", 1, Pri, "a", callRef, stale, [], 7, Some("b"));
            var second := PutCall(first, "a", 1, Pri, "a", callRef, newer, [], 7, Some("b"));
            var replica := ApplyFrame(EMPTY_KV, "b", "a",
                                      BuildDataFrame(ReadEntry(first, ChannelTo(first, "b"),
                                                               Slot(1, Member(Update, k)))));
            var after := ApplyFrame(replica, "b", "a",
                                    BuildDataFrame(ReadEntry(second, ChannelTo(second, "b"),
                                                             Slot(1, Member(Update, k)))));
            !Disciplined(first.bodies, k, Some(Entry(newer, 7))) && !Synced(second.bodies, after.bodies, k)
  {
    var k := BodyKey(Pri, "a", callRef);
    var first := PutCall(EMPTY_KV, "a", 1, Pri, "a", callRef, stale, [], 7, Some("b"));
    var f := BuildDataFrame(ReadEntry(first, ChannelTo(first, "b"), Slot(1, Member(Update, k))));
    var replica := ApplyFrame(EMPTY_KV, "b", "a", f);
    assert replica.bodies == map[Target(k) := Entry(stale, 7)];
  }
}
