/** The call-facing storage operations, with and without a replication peer. */
module PartitionedStorage {
  import opened Options
  import opened KvStore
  import KvBackend

  /** The owner segment a channel derives for a body key: `pri` is the writer's, `bak` the peer's. */
  function OwnerFor(partition: Partition, self: string, peer: string): string {
    if partition == Pri then self else peer
  }

  predicate HasPeer(peer: Option<string>) {
    peer.Some? && peer.value != ""
  }

  function PutCall(kv: Kv, self: string, gen: nat, role: Partition, owner: string, callRef: string,
                   body: Body, indexes: seq<string>, callGen: nat, peer: Option<string>): Kv {
    if HasPeer(peer)
    then WriteUpdate(kv, peer.value, gen, BodyKey(role, OwnerFor(role, self, peer.value), callRef), body, callGen,
                     indexes)
    else SetLocal(kv, BodyKey(role, owner, callRef), body, callGen, indexes)
  }

  /** Re-stamps the stored body and generation; a refresh of a missing body is dropped. */
  function RefreshCall(kv: Kv, self: string, gen: nat, role: Partition, owner: string, callRef: string,
                       indexes: seq<string>, peer: Option<string>): Kv {
    var key := BodyKey(role, owner, callRef);
    if HasPeer(peer) && key in kv.bodies
    then PutCall(kv, self, gen, role, owner, callRef, kv.bodies[key].body, indexes, kv.bodies[key].sidecar, peer)
    else kv
  }

  function DeleteCall(kv: Kv, self: string, gen: nat, role: Partition, owner: string, callRef: string,
                      indexes: seq<string>, peer: Option<string>): Kv {
    if HasPeer(peer)
    then WriteTombstone(kv, peer.value, gen, BodyKey(role, OwnerFor(role, self, peer.value), callRef), indexes)
    else DeleteLocal(kv, BodyKey(role, owner, callRef), indexes)
  }

  /** The caller's own key is the one the channel derives for the peer, if it names one. */
  predicate AtOwnKey(self: string, role: Partition, owner: string, peer: Option<string>) {
    HasPeer(peer) ==> OwnerFor(role, self, peer.value) == owner
  }

  /** Of the channels only the peer's moves, and it only when a peer is named. */
  predicate StampsOnly(kv: Kv, after: Kv, gen: nat, peer: Option<string>, member: Member) {
    if HasPeer(peer)
    then after.channels == kv.channels[peer.value := Stamp(ChannelTo(kv, peer.value), gen, member)]
    else after.channels == kv.channels
  }

  /**
   * What a write leaves, with or without a peer: this one body with its generation, its index keys
   * leading to the call, every other body and index key as it was.
   */
  lemma PutLeaves(kv: Kv, self: string, gen: nat, role: Partition, owner: string, callRef: string, body: Body,
                  indexes: seq<string>, callGen: nat, peer: Option<string>)
    requires AtOwnKey(self, role, owner, peer)
    ensures var after, key := PutCall(kv, self, gen, role, owner, callRef, body, indexes, callGen, peer),
                BodyKey(role, owner, callRef);
            && after.bodies == kv.bodies[key := Entry(body, callGen % 0x1_0000_0000)]
            && (forall x :: x in indexes ==> x in after.idx && after.idx[x] == callRef)
            && (forall x :: x !in indexes ==>
                  (x in after.idx <==> x in kv.idx) && (x in after.idx ==> after.idx[x] == kv.idx[x]))
            && StampsOnly(kv, after, gen, peer, Member(Update, key))
  {
  }

  lemma DeleteLeaves(kv: Kv, self: string, gen: nat, role: Partition, owner: string, callRef: string,
                     indexes: seq<string>, peer: Option<string>)
    requires AtOwnKey(self, role, owner, peer)
    ensures var after, key := DeleteCall(kv, self, gen, role, owner, callRef, indexes, peer),
                BodyKey(role, owner, callRef);
            && after.bodies == kv.bodies - {key}
            && (forall x :: x in after.idx <==> x in kv.idx && x !in indexes)
            && (forall x :: x in after.idx ==> after.idx[x] == kv.idx[x])
            && StampsOnly(kv, after, gen, peer, Member(Delete, key))
  {
  }

  /**
   * A refresh announces the stored body again and leaves it as it is; without a peer, or without a
   * body, it does nothing at all.
   */
  lemma RefreshLeaves(kv: Kv, self: string, gen: nat, role: Partition, owner: string, callRef: string,
                      indexes: seq<string>, peer: Option<string>)
    requires AtOwnKey(self, role, owner, peer)
    requires var key := BodyKey(role, owner, callRef); key in kv.bodies ==> kv.bodies[key].sidecar < SIDECAR_MODULUS
    ensures var after, key := RefreshCall(kv, self, gen, role, owner, callRef, indexes, peer),
                BodyKey(role, owner, callRef);
            && after.bodies == kv.bodies
            && (after == kv || (HasPeer(peer) && key in kv.bodies))
            && (HasPeer(peer) && key in kv.bodies ==>
                  && StampsOnly(kv, after, gen, peer, Member(Update, key))
                  && forall x :: x in indexes ==> x in after.idx && after.idx[x] == callRef)
  {
  }

  class PartitionedStorage {
    const kv: KvBackend.KvBackend
    const self: string
    const gen: nat

    constructor (kv: KvBackend.KvBackend, self: string, gen: nat)
      ensures this.kv == kv && this.self == self && this.gen == gen
    {
      this.kv, this.self, this.gen := kv, self, gen;
    }

    method Put(role: Partition, owner: string, callRef: string, body: Body, indexes: seq<string>,
               callGen: nat, peer: Option<string>)
      modifies kv
      ensures kv.State() == PutCall(old(kv.State()), self, gen, role, owner, callRef, body, indexes, callGen, peer)
    {
      if peer.None? || peer.value == "" {
        kv.ApplyReplicaUpdate(BodyKey(role, owner, callRef), body, callGen, indexes);
        return;
      }
      var channelOwner := if role == Pri then self else peer.value;
      var counter := kv.ChannelWriteUpdate(peer.value, gen, BodyKey(role, channelOwner, callRef), body, callGen,
                                           indexes);
    }

    method Refresh(role: Partition, owner: string, callRef: string, indexes: seq<string>, peer: Option<string>)
      modifies kv
      ensures kv.State() == RefreshCall(old(kv.State()), self, gen, role, owner, callRef, indexes, peer)
    {
      if peer.None? || peer.value == "" {
        return;
      }
      var existing := kv.BodyGet(BodyKey(role, owner, callRef));
      if existing.None? {
        return;
      }
      var channelOwner := if role == Pri then self else peer.value;
      var counter := kv.ChannelWriteUpdate(peer.value, gen, BodyKey(role, channelOwner, callRef),
                                           existing.value.body, existing.value.sidecar, indexes);
    }

    method Delete(role: Partition, owner: string, callRef: string, indexes: seq<string>, peer: Option<string>)
      modifies kv
      ensures kv.State() == DeleteCall(old(kv.State()), self, gen, role, owner, callRef, indexes, peer)
    {
      if peer.None? || peer.value == "" {
        kv.ApplyReplicaDelete(BodyKey(role, owner, callRef), indexes);
        return;
      }
      var channelOwner := if role == Pri then self else peer.value;
      var counter := kv.ChannelWriteTombstone(peer.value, gen, BodyKey(role, channelOwner, callRef), indexes);
    }
  }
}
