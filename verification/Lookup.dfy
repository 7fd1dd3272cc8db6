/** From a SIP message to its call: the in-memory index first, then the one in storage. */
module Lookup {
  import opened Options
  import opened KvStore
  import opened CallModel
  import opened Addresses
  import opened CallTable
  import opened CallLife
  import opened CallStore
  import Announcements

  /** Puts carry the index keys of the record they store. */
  predicate PutsIndexed(log: seq<Submission>) {
    forall p :: p in log && p.Put? ==> p.indexes == IndexKeys(p.body.call)
  }

  lemma {:induction false} RunIsIndexed(self: string, views: seq<View>, ops: seq<CallLife.Op>)
    requires IsRun(self, views, ops) && views[0] == START
    ensures PutsIndexed(views[|ops|].submitted)
    decreases |ops|
  {
    if ops != [] {
      var n := |ops| - 1;
      RunIsIndexed(self, views[..n + 1], ops[..n]);
      assert views[..n + 1][n] == views[n];
      Announcements.StepSubmitsExact(self, views[n], ops[n], views[n + 1]);
      if Announcements.Submits(views[n], ops[n]) {
        Announcements.RunAnnounces(self, views, ops, n);
        assert views[n + 1].submitted == views[n].submitted + [Announcements.Newest(views[n + 1])];
      }
    }
  }

  /** No submission of another call names the index key. */
  predicate NotNamedByOthers(log: seq<Submission>, r: string, x: string) {
    forall p :: p in log && p.callRef != r ==> x !in p.indexes
  }

  /** An index key of the record stored last leads to its call in storage. */
  lemma {:induction false} StoredIndexLeads(pack: Packer, self: string, gen: nat, log: seq<Submission>, r: string,
                                            x: string)
    requires PutsIndexed(log) && NotNamedByOthers(log, r, x)
    requires var vs := Life(log, r); vs != [] && x in IndexKeys(vs[|vs| - 1].body.call)
    ensures LeadsTo(Replay(pack, self, gen, log).idx, x, r)
  {
    var n := |log| - 1;
    assert log[n] in log;
    if log[n].callRef != r {
      StoredIndexLeads(pack, self, gen, log[..n], r, x);
    }
  }

  /** In memory the key leads to no other call. */
  ghost predicate NotHeldByOthers(sipIndex: map<string, string>, r: string, key: string) {
    forall other :: LeadsTo(sipIndex, key, other) ==> other == r
  }

  /** The stored record has a leg that is addressed by this Call-ID and tag. */
  predicate HasLeg(c: Call, callId: string, tag: string) {
    var key := callId + "|" + tag;
    key == c.aLeg.callId + "|" + c.aLeg.fromTag || exists i :: 0 <= i < |c.bLegs| && IsBLegKey(c.bLegs[i], key)
  }

  /**
   * After any run, a message for a leg of the record a call submitted last finds the call, whether or
   * not the call is in memory and whether or not the leg was there when it was indexed in memory: a
   * leg that was added later is found through storage. All that is asked is that no other call has
   * the same keys.
   */
  lemma FlushedLegIsFound(pack: Packer, self: string, gen: nat, views: seq<View>, ops: seq<CallLife.Op>, r: string,
                          callId: string, tag: string)
    requires IsRun(self, views, ops) && views[0] == START && Life(views[|ops|].submitted, r) != []
    requires HasLeg(StoredCall(views[|ops|], r), callId, tag)
    requires var v := views[|ops|];
             && NotNamedByOthers(v.submitted, r, LegKey(callId, tag))
             && NotHeldByOthers(v.sipIndex, r, callId + "|" + tag) && NotHeldByOthers(v.sipIndex, r, callId)
    ensures var v := views[|ops|];
            Resolved(v.sipIndex, Replay(pack, self, gen, v.submitted).idx, callId, tag) == Some(r)
  {
    var v, c, key := views[|ops|], StoredCall(views[|ops|], r), callId + "|" + tag;
    RunIsIndexed(self, views, ops);
    IndexKeysExact(c, key);
    assert LegKey(callId, tag) == "leg:" + key;
    StoredIndexLeads(pack, self, gen, v.submitted, r, LegKey(callId, tag));
    assert key in v.sipIndex ==> LeadsTo(v.sipIndex, key, v.sipIndex[key]);
    assert callId in v.sipIndex ==> LeadsTo(v.sipIndex, callId, v.sipIndex[callId]);
  }

  /** A tag not known yet, as a new branch of the far end brings one, is found by the b-leg's Call-ID alone. */
  lemma NewTagIsFound(pack: Packer, self: string, gen: nat, views: seq<View>, ops: seq<CallLife.Op>, r: string,
                      b: Leg, tag: string)
    requires IsRun(self, views, ops) && views[0] == START && Life(views[|ops|].submitted, r) != []
    requires b in StoredCall(views[|ops|], r).bLegs
    requires var v := views[|ops|];
             && NotNamedByOthers(v.submitted, r, "leg:" + b.callId)
             && NotHeldByOthers(Replay(pack, self, gen, v.submitted).idx, r, LegKey(b.callId, tag))
             && NotHeldByOthers(v.sipIndex, r, b.callId + "|" + tag) && NotHeldByOthers(v.sipIndex, r, b.callId)
    ensures var v := views[|ops|];
            Resolved(v.sipIndex, Replay(pack, self, gen, v.submitted).idx, b.callId, tag) == Some(r)
  {
    var v, c, key := views[|ops|], StoredCall(views[|ops|], r), b.callId + "|" + tag;
    var idx := Replay(pack, self, gen, v.submitted).idx;
    RunIsIndexed(self, views, ops);
    assert IsBLegKey(b, b.callId);
    IndexKeysExact(c, b.callId);
    StoredIndexLeads(pack, self, gen, v.submitted, r, "leg:" + b.callId);
    assert key in v.sipIndex ==> LeadsTo(v.sipIndex, key, v.sipIndex[key]);
    assert b.callId in v.sipIndex ==> LeadsTo(v.sipIndex, b.callId, v.sipIndex[b.callId]);
    assert LegKey(b.callId, tag) in idx ==> LeadsTo(idx, LegKey(b.callId, tag), idx[LegKey(b.callId, tag)]);
  }

  /** What memory answers is a live call that has the key, by tag or by Call-ID. */
  lemma MemoryAnswersTruly(self: string, views: seq<View>, ops: seq<CallLife.Op>, stored: map<string, string>,
                           callId: string, tag: string)
    requires IsRun(self, views, ops) && views[0] == START
    requires callId + "|" + tag in views[|ops|].sipIndex || callId in views[|ops|].sipIndex
    ensures var v := views[|ops|];
            var found := Resolved(v.sipIndex, stored, callId, tag);
            && found.Some? && found.value in v.calls
            && var keys := SipKeys(v.calls[found.value].value);
               callId + "|" + tag in keys || callId in keys
  {
    StartInv();
    RunKeepsSipInv(self, views, ops);
  }
}
