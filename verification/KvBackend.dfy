/** The in-memory storage backend: the mutable store every replication path reads and writes. */
module KvBackend {
  import opened Options
  import opened Positions
  import opened KvStore

  class KvBackend {
    var bodies: map<BodyKey, Entry>
    var idx: map<string, string>
    var channels: map<string, Channel>

    constructor ()
      ensures State() == EMPTY_KV
    {
      bodies, idx, channels := map[], map[], map[];
    }

    function State(): Kv
      reads this
    {
      Kv(bodies, idx, channels)
    }

    method BodyGet(key: BodyKey) returns (entry: Option<Entry>)
      ensures entry == if key in bodies then Some(bodies[key]) else None
    {
      if key in bodies {
        entry := Some(bodies[key]);
      } else {
        entry := None;
      }
    }

    method SetIndexKeys(keys: seq<string>, callRef: string)
      modifies this`idx
      ensures idx == SetIndexes(old(idx), keys, callRef)
    {
      for i := 0 to |keys|
        invariant idx == SetIndexes(old(idx), keys[..i], callRef)
      {
        assert forall k :: k in keys[..i + 1] <==> k in keys[..i] || k == keys[i];
        idx := idx[keys[i] := callRef];
      }
      assert keys[..|keys|] == keys;
    }

    method RemoveIndexKeys(keys: seq<string>)
      modifies this`idx
      ensures idx == RemoveIndexes(old(idx), keys)
    {
      for i := 0 to |keys|
        invariant idx == RemoveIndexes(old(idx), keys[..i])
      {
        assert forall k :: k in keys[..i + 1] <==> k in keys[..i] || k == keys[i];
        idx := idx - {keys[i]};
      }
      assert keys[..|keys|] == keys;
    }

    method ApplyReplicaUpdate(key: BodyKey, body: Body, callGen: nat, indexes: seq<string>)
      modifies this
      ensures State() == SetLocal(old(State()), key, body, callGen, indexes)
    {
      bodies := bodies[key := Entry(body, Sidecar(callGen))];
      SetIndexKeys(indexes, key.callRef);
    }

    method ApplyReplicaDelete(key: BodyKey, indexes: seq<string>)
      modifies this
      ensures State() == DeleteLocal(old(State()), key, indexes)
    {
      bodies := bodies - {key};
      RemoveIndexKeys(indexes);
    }

    /** INCR the bucket counter, then ZADD the member with the new counter as its score. */
    method Bump(peer: string, entryGen: nat, member: Member) returns (counter: nat)
      modifies this`channels
      ensures channels == old(channels)[peer := Stamp(old(ChannelTo(State(), peer)), entryGen, member)]
      ensures counter == CounterOf(channels[peer], entryGen) == CounterOf(old(ChannelTo(State(), peer)), entryGen) + 1
    {
      var ch := EMPTY_CHANNEL;
      if peer in channels {
        ch := channels[peer];
      }
      counter := 1;
      if entryGen in ch.counters {
        counter := ch.counters[entryGen] + 1;
      }
      ch := ch.(counters := ch.counters[entryGen := counter]);
      ch := ch.(scores := ch.scores[Slot(entryGen, member) := counter]);
      channels := channels[peer := ch];
    }

    method ChannelWriteUpdate(peer: string, entryGen: nat, key: BodyKey, body: Body, callGen: nat, indexes: seq<string>)
      returns (counter: nat)
      modifies this
      ensures State() == WriteUpdate(old(State()), peer, entryGen, key, body, callGen, indexes)
      ensures counter == CounterOf(ChannelTo(State(), peer), entryGen)
    {
      bodies := bodies[key := Entry(body, Sidecar(callGen))];
      SetIndexKeys(indexes, key.callRef);
      counter := Bump(peer, entryGen, Member(Update, key));
    }

    method ChannelWriteTombstone(peer: string, entryGen: nat, key: BodyKey, indexes: seq<string>)
      returns (counter: nat)
      modifies this
      ensures State() == WriteTombstone(old(State()), peer, entryGen, key, indexes)
      ensures counter == CounterOf(ChannelTo(State(), peer), entryGen)
    {
      bodies := bodies - {key};
      RemoveIndexKeys(indexes);
      counter := Bump(peer, entryGen, Member(Delete, key));
    }

    /** The head tuple, computed over every bucket before any filtering. */
    method ComputeHead(ch: Channel) returns (head: Pos)
      ensures IsHead(ch, head)
    {
      head := ORIGIN;
      var rest := ch.scores.Keys;
      while rest != {}
        invariant rest <= ch.scores.Keys
        invariant forall s :: s in ch.scores && s !in rest ==> AtMost(PosOf(ch, s), head)
        invariant head == ORIGIN || exists s :: s in ch.scores && PosOf(ch, s) == head
        decreases |rest|
      {
        var s :| s in rest;
        var score := ch.scores[s];
        if s.gen > head.gen || (s.gen == head.gen && score > head.counter) {
          head := Pos(s.gen, score);
          assert PosOf(ch, s) == head;
        }
        rest := rest - {s};
      }
    }

    /** Ascending order of a set of bucket gens (or scores). */
    method SortAscending(s: set<nat>) returns (r: seq<nat>)
      ensures forall i, j :: 0 <= i < j < |r| ==> r[i] < r[j]
      ensures forall x :: x in r <==> x in s
    {
      r := [];
      var rest := s;
      while rest != {}
        invariant forall i, j :: 0 <= i < j < |r| ==> r[i] < r[j]
        invariant forall x :: x in s <==> x in r || x in rest
        invariant forall x, y :: x in r && y in rest ==> x < y
        decreases |rest|
      {
        HasLeast(rest);
        var m :| IsLeast(rest, m);
        assert forall i :: 0 <= i < |r| ==> r[i] in r && r[i] < m;
        r := r + [m];
        rest := rest - {m};
      }
    }

    /** The members of one bucket above a counter, ordered by score. */
    method SortedBucket(ch: Channel, gen: nat, minCounter: nat) returns (r: seq<Slot>)
      requires ScoresDiffer(ch)
      ensures forall s :: s in r <==> s in ch.scores && s.gen == gen && ch.scores[s] > minCounter
      ensures forall i, j :: 0 <= i < j < |r| ==> r[i] in r && r[j] in r && ch.scores[r[i]] < ch.scores[r[j]]
    {
      var slots := set s | s in ch.scores && s.gen == gen && ch.scores[s] > minCounter;
      var scores := SortAscending(set s | s in slots :: ch.scores[s]);
      r := [];
      for i := 0 to |scores|
        invariant |r| == i
        invariant forall k :: 0 <= k < i ==> r[k] in slots && ch.scores[r[k]] == scores[k]
      {
        assert scores[i] in scores;
        var s :| s in slots && ch.scores[s] == scores[i];
        r := r + [s];
      }
      forall s | s in slots
        ensures s in r
      {
        assert ch.scores[s] in scores;
        var k :| 0 <= k < |scores| && scores[k] == ch.scores[s];
        assert PosOf(ch, r[k]) == PosOf(ch, s);
      }
    }

    /**
     * Atomic pull: buckets in ascending gen order, each in score order, stopping at `limit`; bodies
     * and sidecars are read now, not when the member was stamped.
     */
    method ChannelPullBatch(peer: string, since: Pos, limit: nat) returns (entries: seq<PulledEntry>, head: Pos)
      requires ChannelValid(ChannelTo(State(), peer))
      ensures IsHead(ChannelTo(State(), peer), head)
      ensures IsPull(ChannelTo(State(), peer), since, limit, SlotsOf(entries))
      ensures forall i :: 0 <= i < |entries| ==>
                entries[i] == ReadEntry(State(), ChannelTo(State(), peer), SlotsOf(entries)[i])
    {
      var ch := EMPTY_CHANNEL;
      if peer in channels {
        ch := channels[peer];
      }
      head := ComputeHead(ch);
      var gens := SortAscending(set s | s in ch.scores :: s.gen);
      var slots := WalkBuckets(ch, since, limit, gens);
      entries := ReadSlots(ch, slots);
      assert SlotsOf(entries) == slots;
    }

    method ReadSlots(ch: Channel, slots: seq<Slot>) returns (entries: seq<PulledEntry>)
      requires forall i :: 0 <= i < |slots| ==> slots[i] in ch.scores
      ensures |entries| == |slots|
      ensures forall i :: 0 <= i < |slots| ==> entries[i] == ReadEntry(State(), ch, slots[i])
    {
      entries := [];
      for i := 0 to |slots|
        invariant |entries| == i
        invariant forall k :: 0 <= k < i ==> entries[k] == ReadEntry(State(), ch, slots[k])
      {
        var entry := BodyGet(slots[i].member.key);
        if entry.Some? {
          entries := entries
              + [PulledEntry(slots[i], PosOf(ch, slots[i]), Some(entry.value.body), Some(entry.value.sidecar))];
        } else {
          entries := entries + [PulledEntry(slots[i], PosOf(ch, slots[i]), None, None)];
        }
      }
    }

    method WalkBuckets(ch: Channel, since: Pos, limit: nat, gens: seq<nat>) returns (slots: seq<Slot>)
      requires ChannelValid(ch)
      requires forall i, j :: 0 <= i < j < |gens| ==> gens[i] < gens[j]
      requires forall s :: s in ch.scores ==> s.gen in gens
      ensures IsPull(ch, since, limit, slots)
    {
      slots := [];
      var g := 0;
      ghost var done: set<nat> := {};
      while g < |gens| && |slots| < limit
        invariant 0 <= g <= |gens|
        invariant forall x :: x in done <==> x in gens[..g]
        invariant PullOver(ch, since, limit, slots, done)
      {
        assert forall x :: x in gens[..g + 1] <==> x in gens[..g] || x == gens[g];
        slots := TakeBucket(ch, since, limit, gens[g], slots, done);
        done := done + {gens[g]};
        g := g + 1;
      }
      FullPull(ch, since, limit, slots, done, gens[g..]);
    }

    /** One bucket of the walk: skipped below the cursor's gen, otherwise taken in score order up to `limit`. */
    method TakeBucket(ch: Channel, since: Pos, limit: nat, gen: nat, taken: seq<Slot>, ghost done: set<nat>)
      returns (slots: seq<Slot>)
      requires ChannelValid(ch) && PullOver(ch, since, limit, taken, done) && |taken| < limit
      requires forall x :: x in done ==> x < gen
      ensures PullOver(ch, since, limit, slots, done + {gen})
    {
      slots := taken;
      if gen >= since.gen {
        var minCounter := if gen == since.gen then since.counter else 0;
        var bucket := SortedBucket(ch, gen, minCounter);
        var i := 0;
        while i < |bucket| && |slots| < limit
          invariant 0 <= i <= |bucket| && |slots| <= limit
          invariant slots == taken + bucket[..i]
        {
          slots := slots + [bucket[i]];
          i := i + 1;
        }
        ExtendPull(ch, since, limit, gen, taken, done, bucket, i);
      }
    }
  }

  function SlotsOf(entries: seq<PulledEntry>): (slots: seq<Slot>)
    ensures |slots| == |entries| && forall i :: 0 <= i < |slots| ==> slots[i] == entries[i].slot
  {
    seq(|entries|, i requires 0 <= i < |entries| => entries[i].slot)
  }

  /** The pull contract restricted to the buckets in `gens`. */
  ghost predicate PullOver(ch: Channel, since: Pos, limit: nat, slots: seq<Slot>, gens: set<nat>) {
    && |slots| <= limit
    && (forall i :: 0 <= i < |slots| ==>
        slots[i] in ch.scores && Before(since, PosOf(ch, slots[i])) && slots[i].gen in gens)
    && (forall i, j :: 0 <= i < j < |slots| ==> Before(PosOf(ch, slots[i]), PosOf(ch, slots[j])))
    && (forall s :: s in ch.scores && Before(since, PosOf(ch, s)) && s !in slots && s.gen in gens ==>
          |slots| == limit && forall i :: 0 <= i < |slots| ==> Before(PosOf(ch, slots[i]), PosOf(ch, s)))
  }

  lemma ExtendPull(ch: Channel, since: Pos, limit: nat, gen: nat, taken: seq<Slot>, done: set<nat>, bucket: seq<Slot>,
                   n: nat)
    requires PullOver(ch, since, limit, taken, done) && |taken| < limit && n <= |bucket|
    requires forall x :: x in done ==> x < gen
    requires since.gen <= gen
    requires forall s :: s in bucket <==> s in ch.scores && s.gen == gen && Before(since, PosOf(ch, s))
    requires forall i, j :: 0 <= i < j < |bucket| ==> Before(PosOf(ch, bucket[i]), PosOf(ch, bucket[j]))
    requires |taken| + n <= limit && (n < |bucket| ==> |taken| + n == limit)
    ensures PullOver(ch, since, limit, taken + bucket[..n], done + {gen})
  {
    var slots := taken + bucket[..n];
    forall s | s in ch.scores && Before(since, PosOf(ch, s)) && s !in slots && s.gen in done + {gen}
      ensures |slots| == limit && forall i :: 0 <= i < |slots| ==> Before(PosOf(ch, slots[i]), PosOf(ch, s))
    {
      assert s !in taken && s !in bucket[..n];
      assert s.gen == gen;
      var k :| 0 <= k < |bucket| && bucket[k] == s;
      assert n <= k;
    }
  }

  lemma FullPull(ch: Channel, since: Pos, limit: nat, slots: seq<Slot>, done: set<nat>, rest: seq<nat>)
    requires PullOver(ch, since, limit, slots, done)
    requires forall s :: s in ch.scores ==> s.gen in done || s.gen in rest
    requires forall x, y :: x in done && y in rest ==> x < y
    requires rest != [] ==> |slots| == limit
    ensures IsPull(ch, since, limit, slots)
  {
  }

  predicate IsLeast(s: set<nat>, m: nat) {
    m in s && forall x :: x in s ==> m <= x
  }

  lemma {:induction false} HasLeast(s: set<nat>)
    requires s != {}
    ensures exists m :: IsLeast(s, m)
  {
    var m :| m in s;
    if !IsLeast(s, m) {
      var y :| y in s && y < m;
      var rest := s - {m};
      assert y in rest;
      HasLeast(rest);
      var n :| IsLeast(rest, n);
      assert forall x :: x in s ==> x == m || x in rest;
      assert IsLeast(s, n);
    }
  }
}
