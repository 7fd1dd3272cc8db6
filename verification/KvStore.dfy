/**
 * One worker's replication store as a value: call bodies with their generation sidecar, SIP index
 * entries, and one outgoing channel per peer.
 */
module KvStore {
  import opened Options
  import opened Positions

  datatype Partition = Pri | Bak
  datatype BodyKey = BodyKey(partition: Partition, owner: string, callRef: string)

  /** A call body: opaque payload, plus what the codec can read back out of it. */
  datatype Body = Body(payload: string, topologyGen: nat, indexKeys: seq<string>)

  /** A body and the 4-byte generation sidecar that is written and deleted with it. */
  datatype Entry = Entry(body: Body, sidecar: nat)

  datatype Op = Update | Delete
  datatype Member = Member(op: Op, key: BodyKey)

  /** A member of the sorted set of one `(channel, entryGen)` bucket. */
  datatype Slot = Slot(gen: nat, member: Member)

  /** `counters[g]` is the bucket counter, `scores` the bucket-scoped sorted sets. */
  datatype Channel = Channel(counters: map<nat, nat>, scores: map<Slot, nat>)

  datatype Kv = Kv(bodies: map<BodyKey, Entry>, idx: map<string, string>, channels: map<string, Channel>)

  const SIDECAR_MODULUS: nat := 0x1_0000_0000

  const EMPTY_CHANNEL := Channel(map[], map[])

  const EMPTY_KV := Kv(map[], map[], map[])

  /** The unsigned 32-bit wrap of the sidecar encoding. */
  function Sidecar(callGen: nat): (r: nat)
    ensures r < SIDECAR_MODULUS
    ensures callGen < SIDECAR_MODULUS ==> r == callGen
  {
    callGen % SIDECAR_MODULUS
  }

  function ChannelTo(kv: Kv, peer: string): Channel {
    if peer in kv.channels then kv.channels[peer] else EMPTY_CHANNEL
  }

  function CounterOf(ch: Channel, gen: nat): nat {
    if gen in ch.counters then ch.counters[gen] else 0
  }

  function PosOf(ch: Channel, slot: Slot): Pos
    requires slot in ch.scores
  {
    Pos(slot.gen, ch.scores[slot])
  }

  // ---- Writes -------------------------------------------------------------------------------

  /** Counter + 1, then ZADD: a member already in the bucket has its score replaced. */
  function Stamp(ch: Channel, gen: nat, member: Member): Channel {
    var counter := CounterOf(ch, gen) + 1;
    Channel(ch.counters[gen := counter], ch.scores[Slot(gen, member) := counter])
  }

  function SetIndexes(idx: map<string, string>, keys: seq<string>, callRef: string): map<string, string> {
    idx + map k | k in keys :: callRef
  }

  function RemoveIndexes(idx: map<string, string>, keys: seq<string>): map<string, string> {
    idx - set k | k in keys
  }

  /** Local write of body, sidecar and indexes; touches no channel. */
  function SetLocal(kv: Kv, key: BodyKey, body: Body, callGen: nat, indexes: seq<string>): Kv {
    kv.(bodies := kv.bodies[key := Entry(body, Sidecar(callGen))],
        idx := SetIndexes(kv.idx, indexes, key.callRef))
  }

  /** Local delete of body, sidecar and the named indexes; touches no channel. */
  function DeleteLocal(kv: Kv, key: BodyKey, indexes: seq<string>): Kv {
    kv.(bodies := kv.bodies - {key}, idx := RemoveIndexes(kv.idx, indexes))
  }

  function WriteUpdate(kv: Kv, peer: string, gen: nat, key: BodyKey, body: Body, callGen: nat,
                       indexes: seq<string>): Kv {
    SetLocal(kv, key, body, callGen, indexes).(
      channels := kv.channels[peer := Stamp(ChannelTo(kv, peer), gen, Member(Update, key))])
  }

  function WriteTombstone(kv: Kv, peer: string, gen: nat, key: BodyKey, indexes: seq<string>): Kv {
    DeleteLocal(kv, key, indexes).(
      channels := kv.channels[peer := Stamp(ChannelTo(kv, peer), gen, Member(Delete, key))])
  }

  // ---- Channel invariant and head -----------------------------------------------------------

  /** Scores are 1..counter, and no two members of a bucket share one. */
  ghost predicate ChannelValid(ch: Channel) {
    ScoresCounted(ch) && ScoresDiffer(ch)
  }

  predicate ScoresCounted(ch: Channel) {
    forall s :: s in ch.scores ==> s.gen in ch.counters && 1 <= ch.scores[s] <= ch.counters[s.gen]
  }

  ghost predicate ScoresDiffer(ch: Channel) {
    forall s, t :: s in ch.scores && t in ch.scores && PosOf(ch, s) == PosOf(ch, t) ==> s == t
  }

  lemma StampKeepsChannelValid(ch: Channel, gen: nat, member: Member)
    requires ChannelValid(ch)
    ensures ChannelValid(Stamp(ch, gen, member))
  {
    var ch' := Stamp(ch, gen, member);
    var top := Slot(gen, member);
    forall s, t | s in ch'.scores && t in ch'.scores && PosOf(ch', s) == PosOf(ch', t)
      ensures s == t
    {
      assert s != top ==> PosOf(ch', s) == PosOf(ch, s);
      assert t != top ==> PosOf(ch', t) == PosOf(ch, t);
    }
  }

  /** The head of a channel: the greatest stamped position, or the origin when nothing was stamped. */
  ghost predicate IsHead(ch: Channel, head: Pos) {
    && (forall s :: s in ch.scores ==> AtMost(PosOf(ch, s), head))
    && (head == ORIGIN || exists s :: s in ch.scores && PosOf(ch, s) == head)
  }

  // ---- Pull ---------------------------------------------------------------------------------

  /** What one atomic pull returns: the first `limit` members above `since`, in position order. */
  ghost predicate IsPull(ch: Channel, since: Pos, limit: nat, slots: seq<Slot>) {
    && |slots| <= limit
    && (forall i :: 0 <= i < |slots| ==> slots[i] in ch.scores && Before(since, PosOf(ch, slots[i])))
    && (forall i, j :: 0 <= i < j < |slots| ==> Before(PosOf(ch, slots[i]), PosOf(ch, slots[j])))
    && (forall s :: s in ch.scores && Before(since, PosOf(ch, s)) && s !in slots ==>
          |slots| == limit && forall i :: 0 <= i < |slots| ==> Before(PosOf(ch, slots[i]), PosOf(ch, s)))
  }

  /** With equal prefixes, the next member of one batch cannot lie before the next of the other. */
  lemma PullNotBehind(ch: Channel, since: Pos, limit: nat, a: seq<Slot>, b: seq<Slot>, n: nat)
    requires IsPull(ch, since, limit, a) && IsPull(ch, since, limit, b)
    requires n < |a| && n < |b| && forall i :: 0 <= i < n ==> a[i] == b[i]
    ensures AtMost(PosOf(ch, b[n]), PosOf(ch, a[n]))
  {
    assert forall k :: 0 <= k < n ==> b[k] == a[k] && Before(PosOf(ch, a[k]), PosOf(ch, a[n]));
    assert forall k :: n < k < |b| ==> Before(PosOf(ch, b[n]), PosOf(ch, b[k]));
  }

  lemma SamePosition(ch: Channel, s: Slot, t: Slot)
    requires ScoresDiffer(ch) && s in ch.scores && t in ch.scores
    requires AtMost(PosOf(ch, s), PosOf(ch, t)) && AtMost(PosOf(ch, t), PosOf(ch, s))
    ensures s == t
  {
  }

  lemma PullNext(ch: Channel, since: Pos, limit: nat, a: seq<Slot>, b: seq<Slot>, n: nat)
    requires ScoresDiffer(ch) && IsPull(ch, since, limit, a) && IsPull(ch, since, limit, b)
    requires n < |a| && n < |b| && a[..n] == b[..n]
    ensures a[n] == b[n]
  {
    assert forall i :: 0 <= i < n ==> a[i] == a[..n][i] == b[..n][i] == b[i];
    PullNotBehind(ch, since, limit, a, b, n);
    PullNotBehind(ch, since, limit, b, a, n);
    SamePosition(ch, a[n], b[n]);
  }

  /** Sequences that agree wherever they agreed so far agree throughout. */
  lemma {:induction false} InLockStep(a: seq<Slot>, b: seq<Slot>, n: nat)
    requires n <= |a| && n <= |b|
    requires forall i :: 0 <= i < n && a[..i] == b[..i] ==> a[i] == b[i]
    ensures a[..n] == b[..n]
  {
    if n > 0 {
      InLockStep(a, b, n - 1);
      assert a[..n] == a[..n - 1] + [a[n - 1]];
      assert b[..n] == b[..n - 1] + [b[n - 1]];
    }
  }

  lemma PullPrefix(ch: Channel, since: Pos, limit: nat, a: seq<Slot>, b: seq<Slot>, n: nat)
    requires ScoresDiffer(ch) && IsPull(ch, since, limit, a) && IsPull(ch, since, limit, b)
    requires n <= |a| && n <= |b|
    ensures a[..n] == b[..n]
  {
    forall i | 0 <= i < n && a[..i] == b[..i]
      ensures a[i] == b[i]
    {
      PullNext(ch, since, limit, a, b, i);
    }
    InLockStep(a, b, n);
  }

  lemma BeyondPrefix(ch: Channel, a: seq<Slot>, b: seq<Slot>)
    requires forall i :: 0 <= i < |b| ==> b[i] in ch.scores
    requires forall i, j :: 0 <= i < j < |b| ==> Before(PosOf(ch, b[i]), PosOf(ch, b[j]))
    requires forall i :: 0 <= i < |a| && i < |b| ==> a[i] == b[i]
    ensures |a| < |b| ==> b[|a|] !in a
  {
    assert forall k :: 0 <= k < |a| < |b| ==> a[k] == b[k] && Before(PosOf(ch, b[k]), PosOf(ch, b[|a|]));
  }

  lemma PullNoLonger(ch: Channel, since: Pos, limit: nat, a: seq<Slot>, b: seq<Slot>)
    requires ChannelValid(ch) && IsPull(ch, since, limit, a) && IsPull(ch, since, limit, b)
    ensures |b| <= |a|
  {
    var n := if |a| < |b| then |a| else |b|;
    PullPrefix(ch, since, limit, a, b, n);
    assert forall i :: 0 <= i < n ==> a[i] == a[..n][i] == b[..n][i] == b[i];
    BeyondPrefix(ch, a, b);
  }

  /** The pull contract determines the batch. */
  lemma PullUnique(ch: Channel, since: Pos, limit: nat, a: seq<Slot>, b: seq<Slot>)
    requires ChannelValid(ch) && IsPull(ch, since, limit, a) && IsPull(ch, since, limit, b)
    ensures a == b
  {
    PullNoLonger(ch, since, limit, a, b);
    PullNoLonger(ch, since, limit, b, a);
    PullPrefix(ch, since, limit, a, b, |a|);
    assert a[..|a|] == a && b[..|b|] == b;
  }

  /** One member of a pulled batch, with the body and sidecar read at pull time. */
  datatype PulledEntry = PulledEntry(slot: Slot, pos: Pos, body: Option<Body>, callGen: Option<nat>)

  function ReadEntry(kv: Kv, ch: Channel, slot: Slot): PulledEntry
    requires slot in ch.scores
  {
    var key := slot.member.key;
    if key in kv.bodies
    then PulledEntry(slot, PosOf(ch, slot), Some(kv.bodies[key].body), Some(kv.bodies[key].sidecar))
    else PulledEntry(slot, PosOf(ch, slot), None, None)
  }
}
