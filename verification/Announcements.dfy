/** Who is told of a call: in terms of its reference and its record alone, and what the telling leaves in a channel. */
module Announcements {
  import opened Options
  import opened Positions
  import opened KvStore
  import opened CallModel
  import opened Addresses
  import opened PartitionRefs
  import opened CallTable
  import opened CallLife
  import opened CallStore
  import PartitionedStorage
  import CallRefs

  /** The worker named by the reference, when that is another than this one. */
  function OtherPrimary(self: string, callRef: string): Option<string> {
    var parsed := CallRefs.Parse(callRef);
    if parsed.Some? && parsed.value.primary != self then Some(parsed.value.primary) else None
  }

  predicate NamesBackup(self: string, topology: Option<Topology>) {
    topology.Some? && topology.value.bak != "" && topology.value.bak != self
  }

  /**
   * A call of another worker is reported to that worker, as the backup's copy of it; one of this
   * worker's own to the backup its record names, if that is another worker, and to nobody otherwise.
   */
  predicate Announces(self: string, p: Submission, topology: Option<Topology>) {
    var other := OtherPrimary(self, p.callRef);
    if other.Some? then
      p.peer == other && p.role == Bak && p.primary == other.value && p.direction == Reverse
    else
      && p.role == Pri && p.primary == self && p.direction == Forward
      && p.peer == if NamesBackup(self, topology) then Some(topology.value.bak) else None
  }

  // ---- Single steps -------------------------------------------------------------------------

  /** What a step submitted, when it submitted something. */
  function Newest(w: View): Submission
    requires w.submitted != []
  {
    w.submitted[|w.submitted| - 1]
  }

  ghost predicate SubmitsOne(v: View, w: View) {
    |w.submitted| == |v.submitted| + 1 && w.submitted[..|v.submitted|] == v.submitted
  }

  /** A put reports the record that is left in memory, in full. */
  predicate Reports(self: string, p: Submission, c: Call) {
    && p.Put? && Announces(self, p, c.topology)
    && p.body == Encoded(c) && p.indexes == IndexKeys(c)
    && p.callGen == if c.topology.Some? then c.topology.value.gen else 0
  }

  predicate ReportsEnd(self: string, p: Submission, c: Call) {
    p.Del? && Announces(self, p, c.topology) && p.indexes == IndexKeys(c)
  }

  /** Hit or miss, in the course of the day or in a whole-table flush. */
  lemma FlushReports(self: string, v: View, r: string, w: View)
    requires GenInv(v) && r in v.calls && (FlushStep(self, v, r, w) || FlushOneStep(self, v, r, w))
    ensures SubmitsOne(v, w) && r in w.calls && Newest(w).callRef == r && Reports(self, Newest(w), w.calls[r].value)
  {
    if FlushStep(self, v, r, w) {
      FlushSubmitsCurrent(self, v, r, w);
    }
  }

  lemma EndReports(self: string, v: View, r: string, w: View)
    requires r in v.calls && (RemoveStep(self, v, r, w) || PurgeStep(self, v, r, w))
    ensures SubmitsOne(v, w) && Newest(w).callRef == r && ReportsEnd(self, Newest(w), v.calls[r].value)
  {
    PromotionKeepsKeys(v.calls[r].value);
  }

  /** Without a record only the reference can tell whom to notify, and no index key is known. */
  lemma UnknownRemoveReports(self: string, v: View, r: string, w: View)
    requires r !in v.calls && RemoveStep(self, v, r, w)
    ensures SubmitsOne(v, w)
    ensures var p := Newest(w); p.callRef == r && p.Del? && Announces(self, p, None) && p.indexes == []
  {
  }

  /** A call found in teardown is deleted at its own key without telling anybody. */
  lemma StuckReportsNobody(self: string, v: View, r: string, w: View)
    requires Life(v.submitted, r) != [] && StuckStep(self, v, r, StoredCall(v, r), w)
    ensures SubmitsOne(v, w)
    ensures var p := Newest(w);
            && p.callRef == r && p.Del? && p.peer == None && p.indexes == IndexKeys(StoredCall(v, r))
            && Announces(self, p.(peer := OtherPrimary(self, r)), None)
  {
  }

  // ---- Whole runs ---------------------------------------------------------------------------

  predicate Submits(v: View, op: CallLife.Op) {
    match op
    case Flush(r) => r in v.calls
    case FlushOne(_) => true
    case Purge(r) => r in v.calls
    case Remove(_) => true
    case DropStuck(_) => true
    case _ => false
  }

  lemma StepSubmitsExact(self: string, v: View, op: CallLife.Op, w: View)
    requires CallLife.Step(self, v, op, w)
    ensures if Submits(v, op) then SubmitsOne(v, w) && Newest(w).callRef == OpRef(op) else w.submitted == v.submitted
  {
    match op
    case Flush(_) =>
    case FlushOne(_) =>
    case Purge(_) =>
    case Remove(_) =>
    case DropStuck(_) =>
    case _ =>
  }

  /**
   * Every submission of every run: a put reports the record just left in memory, the delete of a call
   * in memory reports its end, both to the worker that reference and record name.
   */
  lemma RunAnnounces(self: string, views: seq<View>, ops: seq<CallLife.Op>, i: nat)
    requires IsRun(self, views, ops) && views[0] == START && i < |ops| && Submits(views[i], ops[i])
    ensures var r, v, w := OpRef(ops[i]), views[i], views[i + 1];
            && SubmitsOne(v, w) && Newest(w).callRef == r
            && (Newest(w).Put? ==> r in w.calls && Reports(self, Newest(w), w.calls[r].value))
            && (Newest(w).Del? && r in v.calls ==> ReportsEnd(self, Newest(w), v.calls[r].value))
            && (Newest(w).Put? <==> ops[i].Flush? || ops[i].FlushOne?)
  {
    StartInv();
    GenerationDeterminesContent(self, views, ops);
    var v, w := views[i], views[i + 1];
    StepSubmitsExact(self, v, ops[i], w);
    match ops[i]
    case Flush(r) =>
      FlushReports(self, v, r, w);
    case FlushOne(r) =>
      FlushReports(self, v, r, w);
    case Purge(r) =>
      EndReports(self, v, r, w);
    case Remove(r) =>
      if r in v.calls {
        EndReports(self, v, r, w);
      }
    case DropStuck(_) =>
  }

  // ---- In the channel -----------------------------------------------------------------------

  /** The member stands above everything else in the channel. */
  ghost predicate OnTop(ch: Channel, slot: Slot) {
    && slot in ch.scores
    && forall s :: s in ch.scores && s != slot ==> Before(PosOf(ch, s), PosOf(ch, slot))
  }

  /** A valid channel of one incarnation. */
  ghost predicate OfIncarnation(ch: Channel, gen: nat) {
    ChannelValid(ch) && forall s :: s in ch.scores ==> s.gen == gen
  }

  lemma StampIsOnTop(ch: Channel, gen: nat, member: Member)
    requires OfIncarnation(ch, gen)
    ensures OfIncarnation(Stamp(ch, gen, member), gen) && OnTop(Stamp(ch, gen, member), Slot(gen, member))
  {
    StampKeepsChannelValid(ch, gen, member);
  }

  lemma {:induction false} ReplayOfIncarnation(pack: Packer, self: string, gen: nat, log: seq<Submission>, q: string)
    ensures OfIncarnation(ChannelTo(Replay(pack, self, gen, log), q), gen)
  {
    if log != [] {
      var n := |log| - 1;
      ReplayOfIncarnation(pack, self, gen, log[..n], q);
      SubmitOfIncarnation(pack, self, gen, Replay(pack, self, gen, log[..n]), log[n], q);
    }
  }

  lemma SubmitOfIncarnation(pack: Packer, self: string, gen: nat, kv: Kv, p: Submission, q: string)
    requires OfIncarnation(ChannelTo(kv, q), gen)
    ensures OfIncarnation(ChannelTo(Submit(pack, self, gen, kv, p), q), gen)
  {
    if p.peer == Some(q) && q != "" {
      var key := BodyKey(p.role, PartitionedStorage.OwnerFor(p.role, self, q), p.callRef);
      StampIsOnTop(ChannelTo(kv, q), gen, Member(OpOf(p), key));
    }
  }

  /** How many of the submissions tell this worker. */
  function Told(log: seq<Submission>, q: string): nat {
    if log == [] then 0
    else Told(log[..|log| - 1], q) + if log[|log| - 1].peer == Some(q) && q != "" then 1 else 0
  }

  /** The channel's counter counts just the submissions that tell its worker, and the last one stands at the count. */
  lemma {:induction false} CounterCountsTold(pack: Packer, self: string, gen: nat, log: seq<Submission>, q: string)
    ensures CounterOf(ChannelTo(Replay(pack, self, gen, log), q), gen) == Told(log, q)
    ensures log != [] && log[|log| - 1].peer == Some(q) && q != "" ==>
              exists s :: s in ChannelTo(Replay(pack, self, gen, log), q).scores
                  && PosOf(ChannelTo(Replay(pack, self, gen, log), q), s) == Pos(gen, Told(log, q))
  {
    if log != [] {
      var n := |log| - 1;
      var p := log[n];
      CounterCountsTold(pack, self, gen, log[..n], q);
      if p.peer == Some(q) && q != "" {
        var key := BodyKey(p.role, PartitionedStorage.OwnerFor(p.role, self, q), p.callRef);
        var ch := ChannelTo(Replay(pack, self, gen, log), q);
        assert ch == Stamp(ChannelTo(Replay(pack, self, gen, log[..n]), q), gen, Member(OpOf(p), key));
        assert Slot(gen, Member(OpOf(p), key)) in ch.scores;
      }
    }
  }

  function OpOf(p: Submission): KvStore.Op {
    if p.Put? then KvStore.Update else KvStore.Delete
  }

  /**
   * A reported change, carried out: its member, under the key this worker itself reads, is on top of
   * the channel to the worker told, and the body there is the one reported, or gone.
   */
  lemma ReportIsStamped(pack: Packer, self: string, gen: nat, kv: Kv, p: Submission, topology: Option<Topology>)
    requires Announces(self, p, topology) && p.peer.Some? && OfIncarnation(ChannelTo(kv, p.peer.value), gen)
    ensures var after, key := Submit(pack, self, gen, kv, p), OwnKey(self, p.callRef);
            && key == BodyKey(p.role, p.primary, p.callRef)
            && OnTop(ChannelTo(after, p.peer.value), Slot(gen, Member(OpOf(p), key)))
            && (p.Del? ==> key !in after.bodies && forall x :: x in p.indexes ==> x !in after.idx)
            && (p.Put? ==> key in after.bodies && after.bodies[key].body.payload == pack(p.body.call)
                           && after.bodies[key].sidecar == p.callGen % SIDECAR_MODULUS
                           && forall x :: x in p.indexes ==> x in after.idx && after.idx[x] == p.callRef)
  {
    if p.role == Bak {
      CallRefs.ParseDerive(p.callRef);
    }
    var key := OwnKey(self, p.callRef);
    StampIsOnTop(ChannelTo(kv, p.peer.value), gen, Member(OpOf(p), key));
  }

  /**
   * After any run, the end of a call this worker is the primary of stands, once the submissions were
   * carried out, on top of the channel to the backup: every replica that drains it loses its copy.
   */
  lemma EndedCallIsTombstoned(pack: Packer, self: string, gen: nat, views: seq<View>, ops: seq<CallLife.Op>, i: nat,
                              q: string)
    requires IsRun(self, views, ops) && views[0] == START && i < |ops| && (ops[i].Remove? || ops[i].Purge?)
    requires var r := ops[i].callRef;
             && r in views[i].calls && OtherPrimary(self, r) == None
             && NamesBackup(self, views[i].calls[r].value.topology) && q == views[i].calls[r].value.topology.value.bak
    ensures var after, key := Replay(pack, self, gen, views[i + 1].submitted), BodyKey(Pri, self, ops[i].callRef);
            key !in after.bodies && OnTop(ChannelTo(after, q), Slot(gen, Member(Delete, key)))
  {
    RunAnnounces(self, views, ops, i);
    ReportedIsStamped(pack, self, gen, views[i], views[i + 1], views[i].calls[ops[i].callRef].value.topology);
  }

  lemma ReportedIsStamped(pack: Packer, self: string, gen: nat, v: View, w: View, topology: Option<Topology>)
    requires SubmitsOne(v, w) && Announces(self, Newest(w), topology) && Newest(w).peer.Some?
    ensures var p := Newest(w);
            var after, key := Replay(pack, self, gen, w.submitted), OwnKey(self, p.callRef);
            && key == BodyKey(p.role, p.primary, p.callRef)
            && OnTop(ChannelTo(after, p.peer.value), Slot(gen, Member(OpOf(p), key)))
            && (p.Del? ==> key !in after.bodies)
            && (p.Put? ==> key in after.bodies && after.bodies[key].body.payload == pack(p.body.call))
  {
    var p := Newest(w);
    ReplayOfIncarnation(pack, self, gen, v.submitted, p.peer.value);
    ReportIsStamped(pack, self, gen, Replay(pack, self, gen, v.submitted), p, topology);
  }

  /** The same for the other role: a call another worker is the primary of is reported back to that worker. */
  lemma ChangeIsReportedHome(pack: Packer, self: string, gen: nat, views: seq<View>, ops: seq<CallLife.Op>, i: nat)
    requires IsRun(self, views, ops) && views[0] == START && i < |ops| && Submits(views[i], ops[i])
    requires !ops[i].DropStuck? && OtherPrimary(self, OpRef(ops[i])).Some?
    ensures var home, r := OtherPrimary(self, OpRef(ops[i])).value, OpRef(ops[i]);
            var after, key := Replay(pack, self, gen, views[i + 1].submitted), BodyKey(Bak, home, r);
            var op := if ops[i].Flush? || ops[i].FlushOne? then KvStore.Update else KvStore.Delete;
            && OnTop(ChannelTo(after, home), Slot(gen, Member(op, key)))
            && (key in after.bodies <==> op == KvStore.Update)
  {
    RunAnnounces(self, views, ops, i);
    if ops[i].Remove? && ops[i].callRef !in views[i].calls {
      UnknownRemoveReports(self, views[i], ops[i].callRef, views[i + 1]);
    }
    var p, r := Newest(views[i + 1]), OpRef(ops[i]);
    var topology :=
      if p.Put? then views[i + 1].calls[r].value.topology
      else if r in views[i].calls then views[i].calls[r].value.topology else None;
    ReportedIsStamped(pack, self, gen, views[i], views[i + 1], topology);
  }
}
