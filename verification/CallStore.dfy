/** From the call table to replication: submissions, replayed into the store, meet the link's discipline. */
module CallStore {
  import opened Options
  import opened KvStore
  import opened CallModel
  import opened Addresses
  import opened CallTable
  import opened CallLife
  import PartitionedStorage
  import ReplicationLink
  import Cluster

  /** Any byte encoding of calls; decoding reads back generation and index keys. */
  type Packer = Call -> string

  function Wire(pack: Packer, b: CallTable.Body): KvStore.Body {
    KvStore.Body(pack(b.call), GenOf(b.call), IndexKeys(b.call))
  }

  function EntryOf(pack: Packer, version: Version): Entry {
    Entry(Wire(pack, version.body), Sidecar(version.gen))
  }

  function Submit(pack: Packer, self: string, gen: nat, kv: Kv, p: Submission): Kv {
    match p
    case Put(role, primary, callRef, body, indexes, callGen, peer, _) =>
      PartitionedStorage.PutCall(kv, self, gen, role, primary, callRef, Wire(pack, body), indexes, callGen, peer)
    case Del(role, primary, callRef, indexes, peer, _) =>
      PartitionedStorage.DeleteCall(kv, self, gen, role, primary, callRef, indexes, peer)
  }

  /** The store after the submissions were carried out in order. */
  function Replay(pack: Packer, self: string, gen: nat, log: seq<Submission>): Kv {
    if log == [] then EMPTY_KV
    else Submit(pack, self, gen, Replay(pack, self, gen, log[..|log| - 1]), log[|log| - 1])
  }

  /** A submission addresses this worker's own key, whether or not it names a peer. */
  predicate Routed(self: string, p: Submission) {
    && Home(p.role, p.primary) == PartitionOf(self, p.callRef)
    && (p.peer.Some? ==> PartitionedStorage.OwnerFor(p.role, self, p.peer.value) == p.primary)
  }

  lemma {:induction false} RunIsRouted(self: string, views: seq<View>, ops: seq<CallLife.Op>)
    requires IsRun(self, views, ops) && views[0] == START
    ensures forall p :: p in views[|ops|].submitted ==> Routed(self, p)
    decreases |ops|
  {
    if ops != [] {
      var n := |ops| - 1;
      RunIsRouted(self, views[..n + 1], ops[..n]);
      assert views[..n + 1][n] == views[n];
      StepIsRouted(self, views[n], ops[n], views[n + 1]);
    }
  }

  lemma DeleteIsRouted(self: string, callRef: string, c: Option<Call>)
    ensures Routed(self, DelFor(self, callRef, c))
  {
  }

  lemma StuckDeleteIsRouted(self: string, callRef: string, c: Call)
    ensures Routed(self, StuckDelFor(self, callRef, c))
  {
  }

  lemma PutIsRouted(self: string, callRef: string, c: Call, body: CallTable.Body)
    ensures Routed(self, PutFor(self, callRef, c, body))
  {
  }

  lemma StepIsRouted(self: string, v: View, op: CallLife.Op, w: View)
    requires CallLife.Step(self, v, op, w) && forall p :: p in v.submitted ==> Routed(self, p)
    ensures forall p :: p in w.submitted ==> Routed(self, p)
  {
    SubmitsAtMostOne(self, v, op, w);
    if w.submitted != v.submitted {
      assert Routed(self, w.submitted[|v.submitted|]) by {
        NewestIsRouted(self, v, op, w);
      }
    }
  }

  lemma NewestIsRouted(self: string, v: View, op: CallLife.Op, w: View)
    requires CallLife.Step(self, v, op, w) && |w.submitted| > |v.submitted|
    ensures Routed(self, w.submitted[|v.submitted|])
  {
    match op
    case Create(_) =>
    case Lock(_) =>
    case CancelTimers(_) =>
    case Load(_, _) =>
    case Restart =>
    case DropStuck(r) =>
      StuckDeleteIsRouted(self, r, StoredCall(v, r));
    case Update(_, _, _, _) =>
    case Flush(r) =>
      PutIsRouted(self, r, w.calls[r].value, if IsHit(v, r) then v.cache[r].body else w.cache[r].body);
    case FlushOne(r) =>
      PutIsRouted(self, r, w.calls[r].value, Encoded(w.calls[r].value));
    case Remove(r) =>
      DeleteIsRouted(self, r, if r in v.calls then Some(v.calls[r].value) else None);
    case Purge(r) =>
      DeleteIsRouted(self, r, Some(Promoted(v.calls[r].value)));
  }

  ghost predicate StoreMatches(pack: Packer, self: string, kv: Kv, log: seq<Submission>, r: string) {
    var vs, key := Life(log, r), OwnKey(self, r);
    && (key in kv.bodies <==> vs != [])
    && (vs != [] ==> kv.bodies[key] == EntryOf(pack, vs[|vs| - 1]))
  }

  /** The body stored for a call is its last submission's, and there is none once it was deleted. */
  lemma {:induction false} ReplayHoldsLastPut(pack: Packer, self: string, gen: nat, log: seq<Submission>, r: string)
    requires forall p :: p in log ==> Routed(self, p)
    ensures StoreMatches(pack, self, Replay(pack, self, gen, log), log, r)
  {
    if log != [] {
      var n := |log| - 1;
      ReplayHoldsLastPut(pack, self, gen, log[..n], r);
      SubmitMatches(pack, self, gen, Replay(pack, self, gen, log[..n]), log[..n], log[n], r);
      assert log == log[..n] + [log[n]];
    }
  }

  lemma SubmitMatches(pack: Packer, self: string, gen: nat, kv: Kv, log: seq<Submission>, p: Submission, r: string)
    requires Routed(self, p) && StoreMatches(pack, self, kv, log, r)
    ensures StoreMatches(pack, self, Submit(pack, self, gen, kv, p), log + [p], r)
  {
    LifeAppend(log, p, r);
    assert OwnKey(self, p.callRef) == BodyKey(p.role, p.primary, p.callRef);
  }

  /**
   * Every write a run of the call table makes is one the replication link asks of its source: within
   * a life of a call, a greater generation or the very same entry.
   */
  lemma RunsAreDisciplined(pack: Packer, self: string, gen: nat, views: seq<View>, ops: seq<CallLife.Op>, i: nat,
                           p: Submission)
    requires IsRun(self, views, ops) && views[0] == START && i < |ops|
    requires views[i + 1].submitted == views[i].submitted + [p] && p.Put? && p.callGen < SIDECAR_MODULUS
    ensures ReplicationLink.Disciplined(Replay(pack, self, gen, views[i].submitted).bodies, OwnKey(self, p.callRef),
                                        Some(EntryOf(pack, Version(p.callGen, p.body))))
  {
    var r := p.callRef;
    var before := views[i].submitted;
    LifeAppend(before, p, r);
    DeterminedAt(self, views, ops, i + 1, r);
    StoredAt(pack, self, gen, views, ops, i, r);
    LastTwoCompatible(pack, Life(before, r), Version(p.callGen, p.body));
  }

  lemma DeterminedAt(self: string, views: seq<View>, ops: seq<CallLife.Op>, i: nat, r: string)
    requires IsRun(self, views, ops) && views[0] == START && i <= |ops|
    ensures GenerationsDetermine(Life(views[i].submitted, r))
  {
    StartInv();
    GenerationDeterminesContent(self, views, ops);
    assert LifeOk(views[i], r);
  }

  lemma StoredAt(pack: Packer, self: string, gen: nat, views: seq<View>, ops: seq<CallLife.Op>, i: nat, r: string)
    requires IsRun(self, views, ops) && views[0] == START && i <= |ops|
    ensures StoreMatches(pack, self, Replay(pack, self, gen, views[i].submitted), views[i].submitted, r)
  {
    RunIsRouted(self, views[..i + 1], ops[..i]);
    ReplayHoldsLastPut(pack, self, gen, views[i].submitted, r);
  }

  lemma LastTwoCompatible(pack: Packer, vs: seq<Version>, next: Version)
    requires GenerationsDetermine(vs + [next]) && next.gen < SIDECAR_MODULUS
    ensures vs != [] ==> ReplicationLink.Compatible(EntryOf(pack, vs[|vs| - 1]), EntryOf(pack, next))
  {
    if vs != [] {
      var all := vs + [next];
      assert all[|vs| - 1] == vs[|vs| - 1] && all[|vs|] == next;
    }
  }

  // ---- Driving a worker of the cluster ------------------------------------------------------

  /** The action of a worker that a submission becomes. */
  function ActionOf(pack: Packer, p: Submission): Cluster.Action {
    match p
    case Put(role, _, callRef, body, _, callGen, _, _) => Cluster.Put(role, callRef, Wire(pack, body), callGen)
    case Del(role, _, callRef, indexes, peer, _) =>
      if peer.Some? then Cluster.Remove(role, callRef, indexes) else Cluster.Forget(role, callRef, indexes)
  }

  /** A submission of one of worker `a`'s calls that `b` backs up; only deletes may go without a peer. */
  predicate ForLink(c: Cluster.Config, p: Submission) {
    && p.callRef in c.ownedByA
    && (p.peer == Some(c.b) || (p.Del? && p.peer.None?))
    && PartitionedStorage.OwnerFor(p.role, c.a, c.b) == p.primary
  }

  /** The worker's store holds, for each of its calls, what the call table submitted last. */
  ghost predicate HoldsSubmitted(pack: Packer, c: Cluster.Config, kv: Kv, log: seq<Submission>) {
    forall r :: r in c.ownedByA ==> StoreMatches(pack, c.a, kv, log, r)
  }

  lemma SubmissionMatches(pack: Packer, c: Cluster.Config, s: Cluster.Cluster, log: seq<Submission>, p: Submission,
                          r: string)
    requires c.Valid() && Routed(c.a, p) && ForLink(c, p) && StoreMatches(pack, c.a, s.a.kv, log, r)
    ensures StoreMatches(pack, c.a, Cluster.Next(c, s, ActionOf(pack, p)).a.kv, log + [p], r)
  {
    LifeAppend(log, p, r);
    assert OwnKey(c.a, p.callRef) == BodyKey(p.role, p.primary, p.callRef);
  }

  lemma SubmissionEnabled(pack: Packer, c: Cluster.Config, s: Cluster.Cluster, log: seq<Submission>, p: Submission)
    requires Routed(c.a, p) && ForLink(c, p) && StoreMatches(pack, c.a, s.a.kv, log, p.callRef)
    requires p.Put? ==>
         p.callGen < SIDECAR_MODULUS && GenerationsDetermine(Life(log, p.callRef) + [Version(p.callGen, p.body)])
    ensures Cluster.Enabled(c, s, ActionOf(pack, p))
  {
    if p.Put? {
      LastTwoCompatible(pack, Life(log, p.callRef), Version(p.callGen, p.body));
      assert Cluster.KeyAtA(c, p.role, p.callRef) == OwnKey(c.a, p.callRef);
    }
  }

  lemma SubmissionHeld(pack: Packer, c: Cluster.Config, s: Cluster.Cluster, log: seq<Submission>, p: Submission)
    requires c.Valid() && Routed(c.a, p) && ForLink(c, p) && HoldsSubmitted(pack, c, s.a.kv, log)
    ensures HoldsSubmitted(pack, c, Cluster.Next(c, s, ActionOf(pack, p)).a.kv, log + [p])
  {
    forall r | r in c.ownedByA
      ensures StoreMatches(pack, c.a, Cluster.Next(c, s, ActionOf(pack, p)).a.kv, log + [p], r)
    {
      SubmissionMatches(pack, c, s, log, p, r);
    }
  }

  lemma RoutedAt(self: string, views: seq<View>, ops: seq<CallLife.Op>, i: nat, p: Submission)
    requires IsRun(self, views, ops) && views[0] == START && i < |ops| && p in views[i + 1].submitted
    ensures Routed(self, p)
  {
    RunIsRouted(self, views[..i + 2], ops[..i + 1]);
    assert views[..i + 2][i + 1] == views[i + 1];
  }

  /**
   * In any state of the cluster whose store holds what the call table submitted so far, the next
   * submission of the table is an enabled action, and the store holds it afterwards.
   */
  lemma RunDrivesLink(pack: Packer, views: seq<View>, ops: seq<CallLife.Op>, i: nat, p: Submission,
                      c: Cluster.Config, s: Cluster.Cluster)
    requires c.Valid() && IsRun(c.a, views, ops) && views[0] == START && i < |ops|
    requires views[i + 1].submitted == views[i].submitted + [p] && (p.Put? ==> p.callGen < SIDECAR_MODULUS)
    requires ForLink(c, p) && HoldsSubmitted(pack, c, s.a.kv, views[i].submitted)
    ensures Cluster.Enabled(c, s, ActionOf(pack, p))
    ensures HoldsSubmitted(pack, c, Cluster.Next(c, s, ActionOf(pack, p)).a.kv, views[i + 1].submitted)
  {
    var before, r := views[i].submitted, p.callRef;
    assert p in views[i + 1].submitted;
    RoutedAt(c.a, views, ops, i, p);
    SubmissionHeld(pack, c, s, before, p);
    if p.Put? {
      LifeAppend(before, p, r);
      DeterminedAt(c.a, views, ops, i + 1, r);
    }
    SubmissionEnabled(pack, c, s, before, p);
  }
}
