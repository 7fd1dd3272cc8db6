/** From bootstrap back to replication: a recovered worker's own link. */
module Recovery {
  import opened Options
  import opened Positions
  import opened KvStore
  import opened PartitionedStorage
  import opened ReplicationLink
  import opened Cluster
  import Bootstrap

  /** The restarted worker's channel, as its earlier incarnations left it. */
  ghost predicate OlderChannel(c: Config, s: Cluster) {
    var ch := ChannelTo(s.a.kv, c.b);
    && ChannelValid(ch) && (forall g :: g in ch.counters ==> g < s.a.gen) && s.b.view.watermark.gen < s.a.gen
    && (forall slot :: slot in ch.scores ==> slot.member.key.callRef in c.ownedByA && Owned(c.Out(), slot.member.key))
  }

  /** The worker's calls live in its own partition, and their copies with the peer, nowhere else. */
  ghost predicate AtHome(c: Config, s: Cluster) {
    forall r :: r in c.ownedByA ==>
      && BodyKey(Bak, c.b, r) !in s.a.kv.bodies && BodyKey(Pri, c.b, r) !in s.b.kv.bodies
      && (BodyKey(Pri, c.a, r) in s.a.kv.bodies ==> s.a.kv.bodies[BodyKey(Pri, c.a, r)].sidecar < SIDECAR_MODULUS)
  }

  /**
   * Where bootstrap left the worker's partition equal to the peer's copies, its own link satisfies
   * the replication invariant exactly when no delete the peer has yet to pull is the last word on a
   * call that bootstrap brought back.
   */
  lemma RecoveredLinkExact(b: Bootstrap.Config, c: Config, s: Cluster)
    requires c.Valid() && b.self == c.a && b.peer == c.b
    requires Bootstrap.OwnCallsMatch(b, s.b.kv, s.a.kv)
    requires OlderChannel(c, s) && AtHome(c, s) && s.b.conn.Down?
    ensures HalfInv(c, s)
       <==> forall k :: k in c.Out().scope ==> Ordered(s.a.kv.bodies, ChannelTo(s.a.kv, c.b), k, s.b.view.watermark)
  {
    var l, ch, wm := c.Out(), ChannelTo(s.a.kv, c.b), s.b.view.watermark;
    forall k | k in l.scope
      ensures KeyOk(s.a.kv.bodies, ch, s.b.kv.bodies, k, wm) <==> Ordered(s.a.kv.bodies, ch, k, wm)
    {
      assert Synced(s.b.kv.bodies, s.a.kv.bodies, Bootstrap.PeerKey(b, k.callRef));
      assert Target(Bootstrap.PeerKey(b, k.callRef)) == BodyKey(Pri, c.a, k.callRef);
      if k.partition == Bak {
        assert k == BodyKey(Bak, c.b, k.callRef) && Target(k) == BodyKey(Pri, c.b, k.callRef);
      }
    }
  }
}
