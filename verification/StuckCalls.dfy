/** What the channel does not record: deletes without a peer, and what a restarted peer's seed skips. */
module StuckCalls {
  import opened Options
  import opened Positions
  import opened KvStore
  import opened ReplicationProtocol
  import opened EchoApply
  import opened PullerFiber
  import opened PartitionedStorage
  import opened ReplicationLink
  import opened Cluster

  ghost predicate Matches(c: Config, s: Cluster, k: BodyKey) {
    Synced(s.a.kv.bodies, s.b.kv.bodies, k) || Pending(ChannelTo(s.a.kv, c.b), k, s.b.view.watermark)
  }

  /** Each claimed key of the call matches. */
  ghost predicate CallMatches(c: Config, s: Cluster, callRef: string) {
    forall k :: k in c.Only(callRef).Out().scope ==> Matches(c, s, k)
  }

  /** The ordinary case: a call its peer has caught up on, a crash of its owner, and the recovery's delete. */
  lemma StuckCallLeavesCopy(c: Config, s: Cluster, partition: Partition, callRef: string, indexes: seq<string>,
                             gen: nat, seed: Pos)
    requires Inv(c, s) && Drained(c, s) && Enabled(c, s, Restart(gen, seed))
    requires callRef in c.ownedByA && callRef !in c.strayA && KeyAtA(c, partition, callRef) in s.a.kv.bodies
    ensures var k := KeyAtA(c, partition, callRef);
            var t := Next(c, Next(c, s, Restart(gen, seed)), Forget(partition, callRef, indexes));
            && k !in t.a.kv.bodies && Target(k) in t.b.kv.bodies
            && t.b.kv.bodies[Target(k)] == s.a.kv.bodies[k]
            && !Matches(c, t, k)
  {
    var k := KeyAtA(c, partition, callRef);
    assert k in c.Out().scope;
    DrainedIsSynced(c.Out(), s.a.kv, s.a.gen, s.b.kv.bodies, s.b.view.watermark);
    assert forall slot :: !Above(ChannelTo(s.a.kv, c.b), slot, s.b.view.watermark);
  }

  // ---- Draining -----------------------------------------------------------------------------

  function Waiting(ch: Channel, wm: Pos): set<Slot> {
    set s | s in ch.scores && Before(wm, PosOf(ch, s))
  }

  lemma {:induction false} HasFirst(ch: Channel, slots: set<Slot>) returns (first: Slot)
    requires slots != {} && slots <= ch.scores.Keys
    ensures first in slots && forall s :: s in slots ==> AtMost(PosOf(ch, first), PosOf(ch, s))
    decreases |slots|
  {
    first :| first in slots;
    var rest := slots - {first};
    if rest != {} {
      var other := HasFirst(ch, rest);
      assert forall s :: s in slots ==> s == first || s in rest;
      if Before(PosOf(ch, other), PosOf(ch, first)) {
        first := other;
      }
    }
  }

  lemma {:induction false} HasLast(ch: Channel, slots: set<Slot>) returns (last: Slot)
    requires slots != {} && slots <= ch.scores.Keys
    ensures last in slots && forall s :: s in slots ==> AtMost(PosOf(ch, s), PosOf(ch, last))
    decreases |slots|
  {
    last :| last in slots;
    var rest := slots - {last};
    if rest != {} {
      var other := HasLast(ch, rest);
      assert forall s :: s in slots ==> s == last || s in rest;
      if Before(PosOf(ch, last), PosOf(ch, other)) {
        last := other;
      }
    }
  }

  lemma HeadExists(ch: Channel) returns (head: Pos)
    ensures IsHead(ch, head)
  {
    head := ORIGIN;
    if ch.scores.Keys != {} {
      var last := HasLast(ch, ch.scores.Keys);
      head := PosOf(ch, last);
    }
  }

  /** `b` is connected at its watermark with nothing in flight. */
  predicate AtRest(s: Cluster) {
    s.b.conn == Up(Pulling(s.b.view.watermark), [])
  }

  ghost function Both(c: Config, s: Cluster, first: Step, second: Step): Cluster
    requires StepEnabled(c, s, first) && StepEnabled(c, StepNext(c, s, first), second)
  {
    StepNext(c, StepNext(c, s, first), second)
  }

  lemma FirstIsPull(ch: Channel, wm: Pos, slot: Slot)
    requires ScoresDiffer(ch) && IsNext(ch, wm, slot)
    ensures IsPull(ch, wm, 1, [slot])
  {
    forall t | t in ch.scores && Before(wm, PosOf(ch, t)) && t !in [slot]
      ensures Before(PosOf(ch, slot), PosOf(ch, t))
    {
      assert Above(ch, t, wm);
      assert PosOf(ch, slot) == PosOf(ch, t) ==> slot == t;
    }
  }

  /** One member is served and delivered. */
  lemma DrainOne(c: Config, s: Cluster) returns (serve: Step, deliver: Step, slot: Slot)
    requires c.Valid() && ScoresDiffer(ChannelTo(s.a.kv, c.b)) && AtRest(s)
    requires Waiting(ChannelTo(s.a.kv, c.b), s.b.view.watermark) != {}
    ensures IsNext(ChannelTo(s.a.kv, c.b), s.b.view.watermark, slot)
    ensures !serve.byA && serve.action.Serve? && !deliver.byA && deliver.action.Deliver?
    ensures StepEnabled(c, s, serve) && StepEnabled(c, StepNext(c, s, serve), deliver)
    ensures var ch, t := ChannelTo(s.a.kv, c.b), Both(c, s, serve, deliver);
            && t.a == s.a && AtRest(t) && t.b.view.watermark == PosOf(ch, slot)
            && t.b.kv == ApplyFrame(s.b.kv, c.b, c.a, BuildDataFrame(ReadEntry(s.a.kv, ch, slot)))
  {
    var ch, wm := ChannelTo(s.a.kv, c.b), s.b.view.watermark;
    slot := HasFirst(ch, Waiting(ch, wm));
    assert forall s :: Above(ch, s, wm) ==> s in Waiting(ch, wm);
    FirstIsPull(ch, wm, slot);
    var head := HeadExists(ch);
    serve, deliver := Step(false, Serve([slot], head, 1)), Step(false, Deliver(0));
    var served := StepNext(c, s, serve);
    var f := BuildDataFrame(ReadEntry(s.a.kv, ch, slot));
    assert DataFrames(s.a.kv, ch, [slot]) == [f] by {
      assert [slot][1..] == [];
    }
    assert served.b.conn == Up(Pulling(PosOf(ch, slot)), [f]);
    assert [f][1..] == [];
  }

  /** Only `b`'s puller moves. */
  predicate PullsOnly(steps: seq<Step>) {
    forall i :: 0 <= i < |steps| ==> !steps[i].byA && (steps[i].action.Serve? || steps[i].action.Deliver?)
  }

  lemma Prepend(c: Config, s: Cluster, step: Step, rest: seq<Step>)
    requires StepEnabled(c, s, step) && IsRun(c, StepNext(c, s, step), rest)
    ensures IsRun(c, s, [step] + rest)
    ensures RunEnd(c, s, [step] + rest) == RunEnd(c, StepNext(c, s, step), rest)
    ensures StepClean(c, s, step) && CleanRun(c, StepNext(c, s, step), rest) ==> CleanRun(c, s, [step] + rest)
  {
    assert ([step] + rest)[1..] == rest;
  }

  predicate OwnedSlots(c: Config, ch: Channel) {
    forall slot :: slot in ch.scores ==> slot.member.key.owner == OwnerFor(slot.member.key.partition, c.a, c.b)
  }

  /** A copy that the live body cannot replace, and no delete of it to come. */
  ghost predicate Starved(c: Config, s: Cluster, k: BodyKey) {
    && Owned(c.Out(), k) && OwnedSlots(c, ChannelTo(s.a.kv, c.b))
    && k in s.a.kv.bodies && Target(k) in s.b.kv.bodies
    && s.b.kv.bodies[Target(k)] != s.a.kv.bodies[k]
    && s.a.kv.bodies[k].sidecar <= s.b.kv.bodies[Target(k)].sidecar
    && !DeletePending(ChannelTo(s.a.kv, c.b), k, s.b.view.watermark)
  }

  /** No update of the key lies above the position. */
  ghost predicate NoUpdateAbove(ch: Channel, k: BodyKey, p: Pos) {
    forall t :: Above(ch, t, p) ==> t.member != Member(Update, k)
  }

  /** A live body whose copy went, or will go, with no update to bring it back. */
  ghost predicate Doomed(c: Config, s: Cluster, k: BodyKey) {
    var ch, wm := ChannelTo(s.a.kv, c.b), s.b.view.watermark;
    && Owned(c.Out(), k) && OwnedSlots(c, ch) && k in s.a.kv.bodies
    && ((Target(k) !in s.b.kv.bodies && NoUpdateAbove(ch, k, wm))
        || exists d :: Above(ch, d, wm) && d.member == Member(Delete, k) && NoUpdateAbove(ch, k, PosOf(ch, d)))
  }

  lemma DrainOneDooms(c: Config, s: Cluster, t: Cluster, slot: Slot, k: BodyKey)
    requires Doomed(c, s, k) && ScoresDiffer(ChannelTo(s.a.kv, c.b))
    requires IsNext(ChannelTo(s.a.kv, c.b), s.b.view.watermark, slot)
    requires t.a == s.a && t.b.view.watermark == PosOf(ChannelTo(s.a.kv, c.b), slot)
    requires t.b.kv == ApplyFrame(s.b.kv, c.b, c.a, BuildDataFrame(ReadEntry(s.a.kv, ChannelTo(s.a.kv, c.b), slot)))
    ensures Doomed(c, t, k)
  {
    var ch, wm := ChannelTo(s.a.kv, c.b), s.b.view.watermark;
    var p := PosOf(ch, slot);
    TargetIsFlip(c.Out(), slot.member.key);
    if d :| Above(ch, d, wm) && d.member == Member(Delete, k) && NoUpdateAbove(ch, k, PosOf(ch, d)) {
      if d != slot {
        assert PosOf(ch, d) != p;
        assert Above(ch, d, p);
      }
    } else {
      assert slot.member != Member(Update, k);
      assert forall x :: Above(ch, x, p) ==> Above(ch, x, wm);
      if slot.member.key != k {
        assert Target(slot.member.key) != Target(k);
      }
    }
  }

  lemma DrainOneStarves(c: Config, s: Cluster, t: Cluster, slot: Slot, k: BodyKey)
    requires Starved(c, s, k) && IsNext(ChannelTo(s.a.kv, c.b), s.b.view.watermark, slot)
    requires t.a == s.a && t.b.view.watermark == PosOf(ChannelTo(s.a.kv, c.b), slot)
    requires t.b.kv == ApplyFrame(s.b.kv, c.b, c.a, BuildDataFrame(ReadEntry(s.a.kv, ChannelTo(s.a.kv, c.b), slot)))
    ensures Starved(c, t, k)
  {
    var ch, wm := ChannelTo(s.a.kv, c.b), s.b.view.watermark;
    TargetIsFlip(c.Out(), slot.member.key);
    assert slot.member != Member(Delete, k);
    assert forall d :: Above(ch, d, PosOf(ch, slot)) ==> Above(ch, d, wm);
    if slot.member.key != k {
      assert Target(slot.member.key) != Target(k);
    }
  }

  /** From rest, some run of the puller alone drains the channel: convergence can always be reached. */
  lemma {:induction false} CanDrain(c: Config, s: Cluster, k: BodyKey) returns (steps: seq<Step>)
    requires c.Valid() && ScoresDiffer(ChannelTo(s.a.kv, c.b)) && AtRest(s)
    ensures PullsOnly(steps) && IsRun(c, s, steps) && CleanRun(c, s, steps)
    ensures Drained(c, RunEnd(c, s, steps)) && RunEnd(c, s, steps).a == s.a
    ensures Starved(c, s, k) ==> Starved(c, RunEnd(c, s, steps), k)
    ensures Doomed(c, s, k) ==> Doomed(c, RunEnd(c, s, steps), k)
    decreases |Waiting(ChannelTo(s.a.kv, c.b), s.b.view.watermark)|
  {
    var ch, wm := ChannelTo(s.a.kv, c.b), s.b.view.watermark;
    if Waiting(ch, wm) == {} {
      steps := [];
      assert forall slot :: Above(ch, slot, wm) ==> slot in Waiting(ch, wm);
    } else {
      var serve, deliver, slot := DrainOne(c, s);
      var t := Both(c, s, serve, deliver);
      FewerWaiting(ch, wm, slot);
      var rest := CanDrain(c, t, k);
      Prepend(c, StepNext(c, s, serve), deliver, rest);
      Prepend(c, s, serve, [deliver] + rest);
      steps := [serve] + ([deliver] + rest);
      if Starved(c, s, k) {
        DrainOneStarves(c, s, t, slot, k);
      }
      if Doomed(c, s, k) {
        DrainOneDooms(c, s, t, slot, k);
      }
    }
  }

  lemma FewerWaiting(ch: Channel, wm: Pos, slot: Slot)
    requires IsNext(ch, wm, slot)
    ensures |Waiting(ch, PosOf(ch, slot))| < |Waiting(ch, wm)|
  {
    var fewer, more := Waiting(ch, PosOf(ch, slot)), Waiting(ch, wm);
    assert slot in more && slot !in fewer;
    assert fewer <= more - {slot};
    Fewer(fewer, more - {slot});
  }

  lemma {:induction false} Fewer(a: set<Slot>, b: set<Slot>)
    requires a <= b
    ensures |a| <= |b|
    decreases |a|
  {
    if a != {} {
      var x :| x in a;
      Fewer(a - {x}, b - {x});
    }
  }

  // ---- Exactly when what is not recorded is safe --------------------------------------------

  /**
   * Whatever happens next, as long as no more of it goes unrecorded, the call matches at the peer or
   * has a member to come.
   */
  ghost predicate AlwaysConverges(c: Config, s: Cluster, callRef: string) {
    forall steps :: IsRun(c, s, steps) && Recorded(c, s, steps, callRef) ==>
        CallMatches(c, RunEnd(c, s, steps), callRef)
  }

  /** A run of the one-call configuration that ends in a mismatch. */
  ghost predicate Fails(c: Config, s: Cluster, k: BodyKey, steps: seq<Step>) {
    IsRun(c, s, steps) && CleanRun(c, s, steps) && !Matches(c, RunEnd(c, s, steps), k)
  }

  lemma FailureShows(c: Config, s: Cluster, k: BodyKey, steps: seq<Step>)
    requires k in c.Out().scope && Fails(c.Only(k.callRef), s, k, steps)
    ensures !AlwaysConverges(c, s, k.callRef)
  {
    SameRuns(c, c.Only(k.callRef), s, steps);
    assert k in c.Only(k.callRef).Out().scope;
    assert IsRun(c, s, steps) && Recorded(c, s, steps, k.callRef);
    assert !CallMatches(c, RunEnd(c, s, steps), k.callRef);
  }

  lemma InvConverges(c: Config, s: Cluster, callRef: string)
    requires Inv(c.Only(callRef), s)
    ensures AlwaysConverges(c, s, callRef)
  {
    var d := c.Only(callRef);
    forall steps | IsRun(c, s, steps) && Recorded(c, s, steps, callRef)
      ensures CallMatches(c, RunEnd(c, s, steps), callRef)
    {
      SameRuns(c, d, s, steps);
      ClaimedCallsConverge(d, s, steps);
    }
  }

  lemma FailsLater(c: Config, s: Cluster, step: Step, k: BodyKey, rest: seq<Step>)
    requires StepEnabled(c, s, step) && StepClean(c, s, step) && Fails(c, StepNext(c, s, step), k, rest)
    ensures Fails(c, s, k, [step] + rest)
  {
    Prepend(c, s, step, rest);
  }

  /** Once the puller has drained, a starved or doomed call is seen not to match. */
  lemma DrainShows(c: Config, s: Cluster, k: BodyKey) returns (steps: seq<Step>)
    requires c.Valid() && ScoresDiffer(ChannelTo(s.a.kv, c.b)) && (Starved(c, s, k) || Doomed(c, s, k))
    ensures Fails(c, s, k, steps)
  {
    var lose, connect := Step(false, Lose), Step(false, Connect);
    var down := if s.b.conn.Up? then StepNext(c, s, lose) else s;
    var rested := StepNext(c, down, connect);
    var rest := CanDrain(c, rested, k);
    FailsLater(c, down, connect, k, rest);
    steps := [connect] + rest;
    if s.b.conn.Up? {
      FailsLater(c, s, lose, k, steps);
      steps := [lose] + steps;
    }
  }

  /** The call is gone at `a`, and the channel is in order. */
  ghost predicate Gone(c: Config, s: Cluster, k: BodyKey) {
    && c.Valid() && Owned(c.Out(), k) && k.callRef in c.ownedByA && k !in s.a.kv.bodies
    && ChannelValid(ChannelTo(s.a.kv, c.b)) && OwnedSlots(c, ChannelTo(s.a.kv, c.b))
  }

  /** The generation of a new life's first flush; without a topology there is none. */
  function FirstGen(copy: Entry): nat {
    if copy.sidecar > 0 then 1 else 0
  }

  /** A reused reference: its first update is skipped by the gate, and the old copy stays. */
  lemma ReuseStarves(c: Config, s: Cluster, k: BodyKey) returns (steps: seq<Step>)
    requires Gone(c, s, k) && Target(k) in s.b.kv.bodies
    requires !DeletePending(ChannelTo(s.a.kv, c.b), k, s.b.view.watermark)
    ensures Fails(c, s, k, steps)
  {
    var copy := s.b.kv.bodies[Target(k)];
    var gen := FirstGen(copy);
    var newer := Body(copy.body.payload + "x", gen, []);
    var put := Step(true, Put(k.partition, k.callRef, newer, gen));
    assert KeyAtA(c, k.partition, k.callRef) == k;
    var u := StepNext(c, s, put);
    PutStarves(c, s, u, k, newer, gen);
    var rest := DrainShows(c, u, k);
    FailsLater(c, s, put, k, rest);
    steps := [put] + rest;
  }

  lemma PutStarves(c: Config, s: Cluster, u: Cluster, k: BodyKey, newer: Body, gen: nat)
    requires Gone(c, s, k) && Target(k) in s.b.kv.bodies && gen == FirstGen(s.b.kv.bodies[Target(k)])
    requires !DeletePending(ChannelTo(s.a.kv, c.b), k, s.b.view.watermark)
    requires |newer.payload| > |s.b.kv.bodies[Target(k)].body.payload|
    requires u == s.(a := s.a.(kv := WriteUpdate(s.a.kv, c.b, s.a.gen, k, newer, gen, newer.indexKeys)))
    ensures Starved(c, u, k) && ChannelValid(ChannelTo(u.a.kv, c.b))
  {
    var ch, wm := ChannelTo(s.a.kv, c.b), s.b.view.watermark;
    var ch' := ChannelTo(u.a.kv, c.b);
    assert ch' == Stamp(ch, s.a.gen, Member(Update, k));
    StampKeepsChannelValid(ch, s.a.gen, Member(Update, k));
    assert forall d :: Above(ch', d, wm) && d.member == Member(Delete, k) ==> Above(ch, d, wm);
  }

  /** Frames on their way are delivered up to the copy, and the copy stays. */
  lemma {:induction false} CopyRemains(c: Config, s: Cluster, k: BodyKey) returns (steps: seq<Step>)
    requires Gone(c, s, k)
    requires !NoCopyLeft(ChannelTo(s.a.kv, c.b), c.a, c.b, k, s.b.kv, s.b.view.watermark, Inflight(s.b.conn))
    ensures Fails(c, s, k, steps)
    decreases |Inflight(s.b.conn)|
  {
    if Target(k) in s.b.kv.bodies && !DeletePending(ChannelTo(s.a.kv, c.b), k, s.b.view.watermark) {
      steps := ReuseStarves(c, s, k);
    } else {
      var deliver := Step(false, Deliver(0));
      var rest := CopyRemains(c, StepNext(c, s, deliver), k);
      FailsLater(c, s, deliver, k, rest);
      steps := [deliver] + rest;
    }
  }

  /**
   * A delete without a peer keeps the call's convergence, over every later run, exactly when the peer
   * neither has a copy of it nor one on the way, but for copies a stamped delete will still remove.
   * Each stuck call is judged by itself.
   */
  lemma ForgetExact(c: Config, s: Cluster, forget: Action)
    requires Inv(c, s) && forget.Forget? && Enabled(c, s, forget) && forget.callRef !in c.strayA
    ensures AlwaysConverges(c, Next(c, s, forget), forget.callRef)
         <==> NothingLeft(c, s, forget.partition, forget.callRef)
  {
    var k, d := KeyAtA(c, forget.partition, forget.callRef), c.Only(forget.callRef);
    var t := Next(c, s, forget);
    InvOfEach(c, s, forget.callRef);
    if NothingLeft(c, s, forget.partition, forget.callRef) {
      ForgetKeepsInv(d, s, forget);
      InvConverges(c, t, forget.callRef);
    } else {
      var steps := CopyRemains(d, t, k);
      FailureShows(c, t, k, steps);
    }
  }

  // ---- A restarted peer ---------------------------------------------------------------------

  /** Pulling from the seed misses nothing of the call. */
  ghost predicate SeedCovers(c: Config, s: Cluster, callRef: string, seed: Pos) {
    forall k :: k in c.Only(callRef).Out().scope ==>
        KeyOk(s.a.kv.bodies, ChannelTo(s.a.kv, c.b), s.b.kv.bodies, k, seed)
  }

  /** A key that is not fine at the watermark of a restarted peer: some run shows it. */
  lemma UncoveredShows(c: Config, s: Cluster, k: BodyKey) returns (steps: seq<Step>)
    requires c.Valid() && Owned(c.Out(), k) && k.callRef in c.ownedByA && s.b.conn.Down?
    requires ChannelValid(ChannelTo(s.a.kv, c.b)) && OwnedSlots(c, ChannelTo(s.a.kv, c.b))
    requires !KeyOk(s.a.kv.bodies, ChannelTo(s.a.kv, c.b), s.b.kv.bodies, k, s.b.view.watermark)
    ensures Fails(c, s, k, steps)
  {
    var ch, wm := ChannelTo(s.a.kv, c.b), s.b.view.watermark;
    if !Matches(c, s, k) {
      steps := [];
    } else if !Ordered(s.a.kv.bodies, ch, k, wm) {
      var d :| Above(ch, d, wm) && d.member == Member(Delete, k)
        && !exists t :: Above(ch, t, PosOf(ch, d)) && t.member == Member(Update, k);
      assert NoUpdateAbove(ch, k, PosOf(ch, d));
      steps := DrainShows(c, s, k);
    } else if k !in s.a.kv.bodies {
      steps := ReuseStarves(c, s, k);
    } else {
      steps := DrainShows(c, s, k);
    }
  }

  /**
   * A restart of the peer keeps the call's convergence, over every later run, exactly when pulling
   * from its seed misses nothing of the call: it matches or has a member above the seed, and no
   * delete it still needs lies at or below.
   */
  lemma RestartExact(c: Config, s: Cluster, gen: nat, seed: Pos, callRef: string)
    requires Inv(c, s) && callRef in c.ownedByA && callRef !in c.strayA
    requires StepEnabled(c, s, Step(false, Restart(gen, seed)))
    ensures AlwaysConverges(c, StepNext(c, s, Step(false, Restart(gen, seed))), callRef)
         <==> SeedCovers(c, s, callRef, seed)
  {
    var d, restart := c.Only(callRef), Step(false, Restart(gen, seed));
    var t := StepNext(c, s, restart);
    InvOfEach(c, s, callRef);
    if SeedCovers(c, s, callRef, seed) {
      assert d.Swap().Swap() == d;
      StepKeepsInv(d, s, restart);
      InvConverges(c, t, callRef);
    } else {
      var k :| k in d.Out().scope && !KeyOk(s.a.kv.bodies, ChannelTo(s.a.kv, c.b), s.b.kv.bodies, k, seed);
      var steps := UncoveredShows(d, t, k);
      FailureShows(c, t, k, steps);
    }
  }

  /** A seed at or below the old watermark covers every call whose order the channel still records from there. */
  lemma SeedBelowCovers(c: Config, s: Cluster, callRef: string, seed: Pos)
    requires Inv(c, s) && callRef in c.ownedByA && callRef !in c.strayA && AtMost(seed, s.b.view.watermark)
    requires forall k :: k in c.Only(callRef).Out().scope ==> Ordered(s.a.kv.bodies, ChannelTo(s.a.kv, c.b), k, seed)
    ensures SeedCovers(c, s, callRef, seed)
  {
    var ch, wm := ChannelTo(s.a.kv, c.b), s.b.view.watermark;
    assert forall x :: Above(ch, x, wm) ==> Above(ch, x, seed);
    forall k | k in c.Only(callRef).Out().scope
      ensures KeyOk(s.a.kv.bodies, ch, s.b.kv.bodies, k, seed)
    {
      assert k in c.Out().scope;
      assert KeyOk(s.a.kv.bodies, ch, s.b.kv.bodies, k, wm);
    }
  }
}
