/**
 * Boot-time bootstrap: a worker scans a peer's `bak:{self}` partition while the peer keeps writing,
 * and seeds its puller with the channel head recorded before the scan.
 */
module Bootstrap {
  import opened Options
  import opened Positions
  import opened KvStore
  import opened PartitionedStorage
  import opened ReplicationProtocol
  import opened ReplicationLink
  import KvBackend
  import PullerFiber

  /** One scanned call, or the terminal head. */
  datatype Event = Scanned(callRef: string, body: Option<Body>) | Head(head: Pos)

  /** Entries are written unconditionally, with generation and indexes read back from the body. */
  function ApplyEvent(kv: Kv, self: string, e: Event): Kv {
    if e.Scanned? && e.body.Some?
    then SetLocal(kv, BodyKey(Pri, self, e.callRef), e.body.value, e.body.value.topologyGen, e.body.value.indexKeys)
    else kv
  }

  /**
   * An imported call stands in this worker's own partition under the generation its body was written
   * with, each of its index keys leads to it, and nothing else has changed.
   */
  lemma ImportLeaves(kv: Kv, self: string, callRef: string, body: Body)
    ensures var after, key := ApplyEvent(kv, self, Scanned(callRef, Some(body))), BodyKey(Pri, self, callRef);
            && after.bodies == kv.bodies[key := Entry(body, body.topologyGen % 0x1_0000_0000)]
            && (forall x :: x in body.indexKeys ==> x in after.idx && after.idx[x] == callRef)
            && (forall x :: x !in body.indexKeys ==>
                  (x in after.idx <==> x in kv.idx) && (x in after.idx ==> after.idx[x] == kv.idx[x]))
            && after.channels == kv.channels
  {
  }

  class PerPeerBootstrap {
    const self: string
    const kv: KvBackend.KvBackend
    var entriesImported: nat
    var head: Option<Pos>
    var seeded: Option<Pos>

    constructor (self: string, kv: KvBackend.KvBackend)
      ensures this.self == self && this.kv == kv && entriesImported == 0 && head == None && seeded == None
    {
      this.self, this.kv := self, kv;
      entriesImported, head, seeded := 0, None, None;
    }

    /**
     * A body-less entry still counts as imported; an entry whose write the store refuses is skipped
     * and does not. The head event seeds the puller's watermark.
     */
    method OnEvent(e: Event, refused: bool)
      modifies this, kv
      ensures kv.State() == if e.Scanned? && e.body.Some? && refused
                            then old(kv.State())
                            else ApplyEvent(old(kv.State()), self, e)
      ensures entriesImported == old(entriesImported) + if e.Scanned? && !(e.body.Some? && refused) then 1 else 0
      ensures e.Head? ==> head == seeded == Some(e.head)
      ensures e.Scanned? ==> head == old(head) && seeded == old(seeded)
    {
      if e.Scanned? {
        if e.body.Some? && refused {
          return;
        }
        if e.body.Some? {
          kv.ApplyReplicaUpdate(BodyKey(Pri, self, e.callRef), e.body.value, e.body.value.topologyGen,
                                e.body.value.indexKeys);
        }
        entriesImported := entriesImported + 1;
      } else {
        head := Some(e.head);
        seeded := Some(e.head);
      }
    }
  }

  // ---- One bootstrap attempt as a state machine ---------------------------------------------

  /**
   * `unread` are the call refs the scan still owes: those live since it began. The scan is not
   * atomic, so it may also pick up or miss anything that came or went meanwhile.
   */
  datatype Phase =
    | Idle
    | Scanning(head: Pos, unread: set<string>, inflight: seq<Event>, closed: bool)
    | Seeded(watermark: Pos)

  datatype Boot = Boot(peer: Kv, peerGen: nat, local: Kv, phase: Phase)

  datatype Config = Config(self: string, peer: string) {
    /** The peer's copies of this worker's own calls, whoever wrote them first. */
    ghost function Takeover(): Link {
      Link(peer, self, iset k: BodyKey | k.partition == Bak && k.owner == self)
    }
  }

  datatype Action =
    | PeerWrite(key: BodyKey, entry: Option<Entry>)
    | Read(callRef: string)
    | CloseScan
    | Receive

  function PeerKey(c: Config, callRef: string): BodyKey {
    BodyKey(Bak, c.self, callRef)
  }

  function LocalKey(c: Config, callRef: string): BodyKey {
    BodyKey(Pri, c.self, callRef)
  }

  /** What bodies and sidecars written by `CallState` look like. */
  predicate WellStamped(e: Entry) {
    e.sidecar == e.body.topologyGen < SIDECAR_MODULUS
  }

  ghost predicate Enabled(c: Config, b: Boot, action: Action) {
    match action
    case PeerWrite(key, entry) =>
      && key.owner == OwnerFor(key.partition, c.peer, c.self)
      && Disciplined(b.peer.bodies, key, entry) && (entry.Some? ==> WellStamped(entry.value))
    case Read(callRef) => b.phase.Scanning? && !b.phase.closed && PeerKey(c, callRef) in b.peer.bodies
    case CloseScan => b.phase.Scanning? && !b.phase.closed && b.phase.unread == {}
    case Receive => b.phase.Scanning? && b.phase.inflight != []
  }

  function Next(c: Config, b: Boot, action: Action): Boot {
    match action
    case PeerWrite(key, entry) =>
      var peer := if entry.Some?
                  then PutCall(b.peer, c.peer, b.peerGen, key.partition, key.owner, key.callRef,
                               entry.value.body, entry.value.body.indexKeys, entry.value.sidecar, Some(c.self))
                  else DeleteCall(b.peer, c.peer, b.peerGen, key.partition, key.owner, key.callRef, [], Some(c.self));
      var phase := if b.phase.Scanning? && entry.None? && key == PeerKey(c, key.callRef)
                   then b.phase.(unread := b.phase.unread - {key.callRef}) else b.phase;
      b.(peer := peer, phase := phase)
    case Read(callRef) =>
      if !b.phase.Scanning? || PeerKey(c, callRef) !in b.peer.bodies then b else
      b.(phase := b.phase.(unread := b.phase.unread - {callRef},
                           inflight := b.phase.inflight
                               + [Scanned(callRef, Some(b.peer.bodies[PeerKey(c, callRef)].body))]))
    case CloseScan =>
      if !b.phase.Scanning? then b else
      b.(phase := b.phase.(inflight := b.phase.inflight + [Head(b.phase.head)], closed := true))
    case Receive =>
      if !b.phase.Scanning? || b.phase.inflight == [] then b else
      var e := b.phase.inflight[0];
      b.(local := ApplyEvent(b.local, c.self, e),
         phase := if e.Head? then Seeded(e.head) else b.phase.(inflight := b.phase.inflight[1..]))
  }

  /** The head is recorded, and the scan begins to owe every call live at that moment. */
  function Open(c: Config, b: Boot, head: Pos): Boot {
    b.(phase := Scanning(head, set k | k in b.peer.bodies && k == PeerKey(c, k.callRef) :: k.callRef, [], false))
  }

  function Imported(kv: Kv, self: string, events: seq<Event>): Kv
    decreases |events|
  {
    if events == [] then kv else Imported(ApplyEvent(kv, self, events[0]), self, events[1..])
  }

  lemma {:induction false} ImportedSnoc(kv: Kv, self: string, events: seq<Event>, e: Event)
    ensures Imported(kv, self, events + [e]) == ApplyEvent(Imported(kv, self, events), self, e)
    decreases |events|
  {
    if events == [] {
      assert events + [e] == [e];
    } else {
      assert (events + [e])[1..] == events[1..] + [e];
      ImportedSnoc(ApplyEvent(kv, self, events[0]), self, events[1..], e);
    }
  }

  /** The entries on their way, as far as they are heads, are the recorded head. */
  predicate HeadLast(phase: Phase)
    requires phase.Scanning?
  {
    && (forall i :: 0 <= i < |phase.inflight| && phase.inflight[i].Head? ==>
          phase.closed && i == |phase.inflight| - 1 && phase.inflight[i].head == phase.head)
    && (phase.closed ==> phase.unread == {} && phase.inflight != [] && phase.inflight[|phase.inflight| - 1].Head?)
  }

  ghost predicate PeerOk(c: Config, b: Boot) {
    && SourceOk(c.Takeover(), b.peer, b.peerGen)
    && (forall k :: k in b.peer.bodies && k.partition == Bak && k.owner == c.self ==> WellStamped(b.peer.bodies[k]))
  }

  /** A scanned-or-owed key: in sync, about to be pulled, or still to be read. */
  ghost predicate ScanKeyOk(c: Config, b: Boot, imported: map<BodyKey, Entry>, callRef: string)
    requires b.phase.Scanning?
  {
    var ch, k := ChannelTo(b.peer, c.self), PeerKey(c, callRef);
    if callRef in b.phase.unread then k in b.peer.bodies && Ordered(b.peer.bodies, ch, k, b.phase.head)
    else KeyOk(b.peer.bodies, ch, imported, k, b.phase.head)
  }

  ghost predicate BootInv(c: Config, b: Boot) {
    match b.phase
    case Idle => false
    case Scanning(head, unread, inflight, closed) =>
      && PeerOk(c, b) && HeadLast(b.phase)
      && AtMost(head, Top(ChannelTo(b.peer, c.self), b.peerGen))
      && forall r: string :: ScanKeyOk(c, b, Imported(b.local, c.self, inflight).bodies, r)
    case Seeded(watermark) =>
      && PeerOk(c, b)
      && ReplicaOk(c.Takeover(), b.peer, b.peerGen, b.local.bodies, watermark)
  }

  /** Every own call the worker already holds is live at the peer. */
  ghost predicate NoStaleLocal(c: Config, b: Boot) {
    forall r: string :: LocalKey(c, r) in b.local.bodies ==> PeerKey(c, r) in b.peer.bodies
  }

  /** The peer as it stands before an attempt: a sound channel and well-stamped copies. */
  ghost predicate Ready(c: Config, b: Boot, head: Pos) {
    && PeerOk(c, b) && IsHead(ChannelTo(b.peer, c.self), head) && c.self != c.peer && c.self != ""
  }

  lemma OpenInv(c: Config, b: Boot, head: Pos)
    requires Ready(c, b, head) && NoStaleLocal(c, b)
    ensures BootInv(c, Open(c, b, head))
  {
    var scan := Open(c, b, head);
    var ch := ChannelTo(b.peer, c.self);
    forall r: string
      ensures ScanKeyOk(c, scan, b.local.bodies, r)
    {
      if PeerKey(c, r) in b.peer.bodies {
        assert r in scan.phase.unread;
      } else {
        assert r !in scan.phase.unread;
        assert Target(PeerKey(c, r)) == LocalKey(c, r);
      }
    }
    if head != ORIGIN {
      var s :| s in ch.scores && PosOf(ch, s) == head;
      StampedAtMostTop(c.Takeover(), b.peer, b.peerGen, s);
    }
  }

  lemma PeerWriteIsWrite(c: Config, b: Boot, action: Action)
    requires action.PeerWrite? && Enabled(c, b, action) && c.self != ""
    ensures IsWrite(c.Takeover(), b.peer, Next(c, b, action).peer, b.peerGen, action.key, action.entry)
  {
  }

  lemma PeerWriteKeepsInv(c: Config, b: Boot, action: Action)
    requires BootInv(c, b) && action.PeerWrite? && Enabled(c, b, action) && c.self != ""
    ensures BootInv(c, Next(c, b, action))
  {
    var after := Next(c, b, action);
    var l := c.Takeover();
    PeerWriteIsWrite(c, b, action);
    WriteKeepsSource(l, b.peer, after.peer, b.peerGen, action.key, action.entry);
    if b.phase.Seeded? {
      WriteKeepsReplica(l, b.peer, after.peer, b.peerGen, action.key, action.entry, b.local.bodies, b.phase.watermark);
    } else {
      var imported := Imported(b.local, c.self, b.phase.inflight).bodies;
      forall r: string
        ensures ScanKeyOk(c, after, imported, r)
      {
        PeerWriteKeepsScanKey(c, b, action, imported, r);
      }
    }
  }

  lemma PeerWriteKeepsScanKey(c: Config, b: Boot, action: Action, imported: map<BodyKey, Entry>, r: string)
    requires b.phase.Scanning? && BootInv(c, b) && action.PeerWrite? && Enabled(c, b, action) && c.self != ""
    requires ScanKeyOk(c, b, imported, r)
    ensures ScanKeyOk(c, Next(c, b, action), imported, r)
  {
    var after := Next(c, b, action);
    var ch, k := ChannelTo(b.peer, c.self), PeerKey(c, r);
    PeerWriteIsWrite(c, b, action);
    if r !in b.phase.unread {
      assert k in c.Takeover().scope;
      WriteKeepsKey(b.peer.bodies, ch, imported, b.peerGen, b.phase.head, action.key, action.entry, k);
    } else if action.key == k && action.entry.None? {
      StampIsOnTop(ch, b.peerGen, Member(Delete, k), b.phase.head);
      assert Above(ChannelTo(after.peer, c.self), Slot(b.peerGen, Member(Delete, k)), b.phase.head);
    }
  }

  lemma ReadKeepsInv(c: Config, b: Boot, callRef: string)
    requires BootInv(c, b) && Enabled(c, b, Read(callRef))
    ensures BootInv(c, Next(c, b, Read(callRef)))
  {
    var after := Next(c, b, Read(callRef));
    var e := Scanned(callRef, Some(b.peer.bodies[PeerKey(c, callRef)].body));
    ImportedSnoc(b.local, c.self, b.phase.inflight, e);
    var before := Imported(b.local, c.self, b.phase.inflight).bodies;
    var imported := Imported(b.local, c.self, after.phase.inflight).bodies;
    forall r: string
      ensures ScanKeyOk(c, after, imported, r)
    {
      assert ScanKeyOk(c, b, before, r);
      assert Target(PeerKey(c, r)) == LocalKey(c, r);
      if r == callRef {
        assert Synced(b.peer.bodies, imported, PeerKey(c, r));
      }
    }
  }

  lemma CloseKeepsInv(c: Config, b: Boot)
    requires BootInv(c, b) && Enabled(c, b, CloseScan)
    ensures BootInv(c, Next(c, b, CloseScan))
  {
    ImportedSnoc(b.local, c.self, b.phase.inflight, Head(b.phase.head));
    var after := Next(c, b, CloseScan);
    forall r: string
      ensures ScanKeyOk(c, after, Imported(b.local, c.self, after.phase.inflight).bodies, r)
    {
      assert ScanKeyOk(c, b, Imported(b.local, c.self, b.phase.inflight).bodies, r);
    }
  }

  lemma ReceiveKeepsInv(c: Config, b: Boot)
    requires BootInv(c, b) && Enabled(c, b, Receive)
    ensures BootInv(c, Next(c, b, Receive))
  {
    var after := Next(c, b, Receive);
    if b.phase.inflight[0].Head? {
      assert b.phase.inflight[1..] == [];
      assert Imported(b.local, c.self, b.phase.inflight) == Imported(after.local, c.self, []) == after.local;
      var l := c.Takeover();
      forall k | k in l.scope
        ensures KeyOk(b.peer.bodies, ChannelTo(b.peer, c.self), after.local.bodies, k, b.phase.head)
      {
        assert k == PeerKey(c, k.callRef);
        assert ScanKeyOk(c, b, Imported(b.local, c.self, b.phase.inflight).bodies, k.callRef);
      }
    } else {
      forall r: string
        ensures ScanKeyOk(c, after, Imported(after.local, c.self, after.phase.inflight).bodies, r)
      {
        assert ScanKeyOk(c, b, Imported(b.local, c.self, b.phase.inflight).bodies, r);
      }
    }
  }

  lemma ActionKeepsInv(c: Config, b: Boot, action: Action)
    requires BootInv(c, b) && Enabled(c, b, action) && c.self != ""
    ensures BootInv(c, Next(c, b, action))
  {
    match action
    case PeerWrite(_, _) => PeerWriteKeepsInv(c, b, action);
    case Read(callRef) => ReadKeepsInv(c, b, callRef);
    case CloseScan => CloseKeepsInv(c, b);
    case Receive => ReceiveKeepsInv(c, b);
  }

  ghost predicate IsRun(c: Config, b: Boot, actions: seq<Action>)
    decreases |actions|
  {
    actions == [] || (Enabled(c, b, actions[0]) && IsRun(c, Next(c, b, actions[0]), actions[1..]))
  }

  function RunEnd(c: Config, b: Boot, actions: seq<Action>): Boot
    decreases |actions|
  {
    if actions == [] then b else RunEnd(c, Next(c, b, actions[0]), actions[1..])
  }

  lemma {:induction false} RunKeepsInv(c: Config, b: Boot, actions: seq<Action>)
    requires BootInv(c, b) && IsRun(c, b, actions) && c.self != ""
    ensures BootInv(c, RunEnd(c, b, actions))
    decreases |actions|
  {
    if actions != [] {
      ActionKeepsInv(c, b, actions[0]);
      RunKeepsInv(c, Next(c, b, actions[0]), actions[1..]);
    }
  }

  // ---- The result, and exactly when it holds ------------------------------------------------

  /** The worker's own partition equals the peer's copy of it. */
  ghost predicate OwnCallsMatch(c: Config, peer: Kv, local: Kv) {
    forall r: string :: Synced(peer.bodies, local.bodies, PeerKey(c, r))
  }

  /** Every way to seed from `b` and then drain the channel once ends with the partitions equal. */
  ghost predicate AlwaysRecovers(c: Config, b: Boot, head: Pos) {
    forall actions, slots, limit: nat ::
      IsRun(c, Open(c, b, head), actions) && RunEnd(c, Open(c, b, head), actions).phase.Seeded? &&
      SeededPull(c, RunEnd(c, Open(c, b, head), actions), slots, limit) ==>
        OwnCallsMatch(c, RunEnd(c, Open(c, b, head), actions).peer,
                      AfterPull(c, RunEnd(c, Open(c, b, head), actions), slots))
  }

  /** A drained pull from the seeded watermark. */
  ghost predicate SeededPull(c: Config, b: Boot, slots: seq<Slot>, limit: nat)
    requires b.phase.Seeded?
  {
    IsPull(ChannelTo(b.peer, c.self), b.phase.watermark, limit, slots) && |slots| < limit
  }

  ghost function AfterPull(c: Config, b: Boot, slots: seq<Slot>): Kv
    requires b.phase.Seeded? && forall i :: 0 <= i < |slots| ==> slots[i] in ChannelTo(b.peer, c.self).scores
  {
    StoreAfter(c.Takeover(), b.local, b.phase.watermark,
               DataFrames(b.peer, ChannelTo(b.peer, c.self), slots))
  }

  lemma SeededRecovers(c: Config, b: Boot, head: Pos, actions: seq<Action>, slots: seq<Slot>, limit: nat)
    requires Ready(c, b, head) && NoStaleLocal(c, b)
    requires IsRun(c, Open(c, b, head), actions)
    requires var end := RunEnd(c, Open(c, b, head), actions); end.phase.Seeded? && SeededPull(c, end, slots, limit)
    ensures var end := RunEnd(c, Open(c, b, head), actions);
            OwnCallsMatch(c, end.peer, AfterPull(c, end, slots))
  {
    var end := RunEnd(c, Open(c, b, head), actions);
    OpenInv(c, b, head);
    RunKeepsInv(c, Open(c, b, head), actions);
    var l := c.Takeover();
    OneRoundSyncs(l, end.peer, end.peerGen, end.local, end.phase.watermark, slots, limit);
    assert forall r: string :: PeerKey(c, r) in l.scope;
  }

  /** A bootstrap never deletes: whatever the partition held before stays. */
  lemma {:induction false} LocalKeysSurvive(c: Config, b: Boot, actions: seq<Action>)
    ensures b.local.bodies.Keys <= RunEnd(c, b, actions).local.bodies.Keys
    decreases |actions|
  {
    if actions != [] {
      LocalKeysSurvive(c, Next(c, b, actions[0]), actions[1..]);
    }
  }

  /** An undisturbed attempt: read what is owed, close, receive. */
  lemma {:induction false} QuietRun(c: Config, b: Boot) returns (actions: seq<Action>)
    requires b.phase.Scanning? && HeadLast(b.phase)
    requires forall r :: r in b.phase.unread ==> PeerKey(c, r) in b.peer.bodies
    ensures IsRun(c, b, actions)
    ensures RunEnd(c, b, actions).phase == Seeded(b.phase.head) && RunEnd(c, b, actions).peer == b.peer
    decreases if b.phase.closed then 0 else 1, |b.phase.unread|, |b.phase.inflight|
  {
    var first := if b.phase.closed then Receive
                 else if b.phase.unread == {} then CloseScan
                 else var r :| r in b.phase.unread; Read(r);
    var next := Next(c, b, first);
    if next.phase.Seeded? {
      actions := [first];
      assert RunEnd(c, next, []) == next;
    } else {
      assert first.Read? ==> |next.phase.unread| < |b.phase.unread|;
      var rest := QuietRun(c, next);
      actions := [first] + rest;
      assert actions[1..] == rest;
    }
  }

  lemma StaleLocalSurvives(c: Config, b: Boot, head: Pos)
    requires Ready(c, b, head) && !NoStaleLocal(c, b)
    ensures !AlwaysRecovers(c, b, head)
  {
    var scan := Open(c, b, head);
    var actions := QuietRun(c, scan);
    var end := RunEnd(c, scan, actions);
    LocalKeysSurvive(c, scan, actions);
    var r: string :| LocalKey(c, r) in b.local.bodies && PeerKey(c, r) !in b.peer.bodies;
    assert SeededPull(c, end, [], 1);
    assert AfterPull(c, end, []) == end.local;
    assert !Synced(end.peer.bodies, end.local.bodies, PeerKey(c, r));
  }

  /**
   * Bootstrap leaves no gap exactly when the worker's own partition holds no call that was gone from
   * the peer when the head was recorded. An empty partition qualifies. A retry after a partly
   * imported attempt, or a store that outlived the process, may not: a call deleted in between is
   * neither scanned nor pulled, and stays.
   */
  lemma BootstrapExact(c: Config, b: Boot, head: Pos)
    requires Ready(c, b, head)
    ensures AlwaysRecovers(c, b, head) <==> NoStaleLocal(c, b)
  {
    if NoStaleLocal(c, b) {
      forall actions, slots, limit: nat |
        IsRun(c, Open(c, b, head), actions) && RunEnd(c, Open(c, b, head), actions).phase.Seeded? &&
        SeededPull(c, RunEnd(c, Open(c, b, head), actions), slots, limit)
        ensures OwnCallsMatch(c, RunEnd(c, Open(c, b, head), actions).peer,
                              AfterPull(c, RunEnd(c, Open(c, b, head), actions), slots))
      {
        SeededRecovers(c, b, head, actions, slots, limit);
      }
    } else {
      StaleLocalSurvives(c, b, head);
    }
  }

  /** The peer is as ready for a second attempt as it was for the first: nothing lies above a new head. */
  lemma ReadyAgain(c: Config, b: Boot, head: Pos)
    requires PeerOk(c, b) && IsHead(ChannelTo(b.peer, c.self), head) && c.self != c.peer && c.self != ""
    ensures Ready(c, b.(phase := Phase.Idle), head)
  {
  }

  /**
   * A retry after a partial attempt is such a case: one call is read and imported into an empty
   * partition, the attempt breaks off, the peer deletes the call, and whatever head the second
   * attempt records, it may end with the deleted call still there.
   */
  lemma RetryKeepsDeleted(c: Config, b: Boot, head: Pos, r: string, again: Pos) returns (actions: seq<Action>)
    requires Ready(c, b, head) && PeerKey(c, r) in b.peer.bodies
    requires forall x: string :: LocalKey(c, x) !in b.local.bodies
    ensures IsRun(c, Open(c, b, head), actions)
    ensures var broken := RunEnd(c, Open(c, b, head), actions);
            broken.phase.Scanning? &&
            (IsHead(ChannelTo(broken.peer, c.self), again) ==> !AlwaysRecovers(c, broken.(phase := Phase.Idle), again))
  {
    var scan := Open(c, b, head);
    var k := PeerKey(c, r);
    var read, delete := Next(c, scan, Read(r)), PeerWrite(k, None);
    var received := Next(c, read, Receive);
    var broken := Next(c, received, delete);
    actions := [Read(r), Receive, delete];
    assert actions[1..] == [Receive, delete] && [Receive, delete][1..] == [delete] && [delete][1..] == [];
    OpenInv(c, b, head);
    ActionKeepsInv(c, scan, Read(r));
    ActionKeepsInv(c, read, Receive);
    ActionKeepsInv(c, received, delete);
    assert RunEnd(c, scan, actions) == broken by {
      assert RunEnd(c, broken, []) == broken;
      assert RunEnd(c, received, [delete]) == RunEnd(c, broken, []);
      assert RunEnd(c, read, [Receive, delete]) == RunEnd(c, received, [delete]);
    }
    assert IsRun(c, received, [delete]);
    assert IsRun(c, read, [Receive, delete]);
    if IsHead(ChannelTo(broken.peer, c.self), again) {
      ReadyAgain(c, broken, again);
      assert LocalKey(c, r) in broken.local.bodies && k !in broken.peer.bodies;
      StaleLocalSurvives(c, broken.(phase := Phase.Idle), again);
    }
  }

  // ---- The other partition on the same channel ----------------------------------------------

  lemma {:induction false} BootLeavesOthers(c: Config, b: Boot, actions: seq<Action>, k: BodyKey)
    requires k.partition == Bak
    ensures var end := RunEnd(c, b, actions);
            (k in end.local.bodies <==> k in b.local.bodies)
                && (k in b.local.bodies ==> end.local.bodies[k] == b.local.bodies[k])
    decreases |actions|
  {
    if actions != [] {
      BootLeavesOthers(c, Next(c, b, actions[0]), actions[1..], k);
    }
  }

  lemma {:induction false} PullLeavesUnmentioned(l: Link, src: Kv, dst: Kv, wm: Pos, slots: seq<Slot>, k: BodyKey)
    requires var ch := ChannelTo(src, l.dst);
             forall i :: 0 <= i < |slots| ==>
                 slots[i] in ch.scores && Owned(l, slots[i].member.key) && slots[i].member.key != k
    requires Owned(l, k)
    ensures var after := StoreAfter(l, dst, wm, DataFrames(src, ChannelTo(src, l.dst), slots)).bodies;
            (Target(k) in after <==> Target(k) in dst.bodies)
                && (Target(k) in dst.bodies ==> after[Target(k)] == dst.bodies[Target(k)])
    decreases |slots|
  {
    if slots != [] {
      var ch := ChannelTo(src, l.dst);
      var f := BuildDataFrame(ReadEntry(src, ch, slots[0]));
      TargetIsFlip(l, slots[0].member.key);
      assert Target(slots[0].member.key) != Target(k);
      assert DataFrames(src, ch, slots)[1..] == DataFrames(src, ch, slots[1..]);
      PullLeavesUnmentioned(l, src, PullerFiber.OnFrameStore(dst, l.dst, l.src, wm, f), PullerFiber.Max(wm, f.pos),
                            slots[1..], k);
    }
  }

  /**
   * The seeded watermark also skips the peer's own calls, whose backup copies the scan does not
   * cover: such a copy comes out of bootstrap and drain exactly as it went in, unless the peer wrote
   * the call after the head.
   */
  lemma ForwardCopyUntouched(c: Config, b: Boot, actions: seq<Action>, slots: seq<Slot>, limit: nat, r: string)
    requires var end := RunEnd(c, b, actions);
             && end.phase.Seeded? && SeededPull(c, end, slots, limit)
             && (forall s :: s in ChannelTo(end.peer, c.self).scores ==>
                 s.member.key.owner == OwnerFor(s.member.key.partition, c.peer, c.self))
             && !Pending(ChannelTo(end.peer, c.self), BodyKey(Pri, c.peer, r), end.phase.watermark)
    ensures var end := RunEnd(c, b, actions);
            var k := BodyKey(Pri, c.peer, r);
            Synced(end.peer.bodies, AfterPull(c, end, slots).bodies, k) <==> Synced(end.peer.bodies, b.local.bodies, k)
  {
    var end := RunEnd(c, b, actions);
    var k := BodyKey(Pri, c.peer, r);
    var l, ch := c.Takeover(), ChannelTo(end.peer, c.self);
    BootLeavesOthers(c, b, actions, Target(k));
    forall i | 0 <= i < |slots|
      ensures slots[i].member.key != k
    {
      assert Above(ch, slots[i], end.phase.watermark);
    }
    PullLeavesUnmentioned(l, end.peer, end.local, end.phase.watermark, slots, k);
  }
}
