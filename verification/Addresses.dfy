/** Role, owner, replica peer and direction of one worker for one call, as used by the storage layer. */
module PartitionRefs {
  import opened Options
  import opened KvStore

  datatype PartitionRef = PartitionRef(wPri: string, wBak: Option<string>, self: string)

  datatype Direction = Forward | Reverse

  function RoleOf(ref: PartitionRef): Partition {
    if ref.wPri == ref.self then Pri else Bak
  }

  function OwnerOf(ref: PartitionRef): string {
    if ref.wPri == ref.self then ref.self else ref.wPri
  }

  function ReplicaPeerOf(ref: PartitionRef): Option<string> {
    if ref.wPri == ref.self then
      if ref.wBak.None? || |ref.wBak.value| == 0 || ref.wBak.value == ref.self then None else ref.wBak
    else if |ref.wPri| > 0 then Some(ref.wPri)
    else None
  }

  function DirectionOf(ref: PartitionRef): Direction {
    if ref.wPri == ref.self then Forward else Reverse
  }
}

/** Where a call is stored, to whom its writes go and where they land. */
module Addresses {
  import opened Options
  import opened KvStore
  import opened PartitionRefs
  import PartitionedStorage
  import CallModel
  import CallRefs
  import EchoApply

  datatype Home = Home(role: Partition, primary: string)

  /** A reference that does not parse is taken to be this worker's own. */
  function PartitionOf(self: string, callRef: string): Home {
    var parsed := CallRefs.Parse(callRef);
    if parsed.None? then Home(Pri, self)
    else Home(if parsed.value.primary == self then Pri else Bak, parsed.value.primary)
  }

  function PropagatePeerFor(self: string, home: Home, topology: Option<CallModel.Topology>): Option<string> {
    if home.role == Pri then
      if topology.Some? && |topology.value.bak| > 0 && topology.value.bak != self
      then Some(topology.value.bak)
      else None
    else if |home.primary| > 0 then Some(home.primary)
    else None
  }

  function DirectionFor(role: Partition): Direction {
    if role == Pri then Forward else Reverse
  }

  /** The key this worker's own reads and writes use. */
  function OwnKey(self: string, callRef: string): BodyKey {
    var home := PartitionOf(self, callRef);
    BodyKey(home.role, home.primary, callRef)
  }

  /** The key the outgoing channel derives for a write of `self` towards `peer`. */
  function ChannelKey(self: string, peer: string, callRef: string): BodyKey {
    var role := PartitionOf(self, callRef).role;
    BodyKey(role, PartitionedStorage.OwnerFor(role, self, peer), callRef)
  }

  /** Where the peer's partition flip puts that write. */
  function LandingKey(self: string, peer: string, callRef: string): BodyKey {
    EchoApply.TargetKey(peer, self, PartitionOf(self, callRef).role, callRef)
  }

  function PeerOf(self: string, callRef: string, topology: Option<CallModel.Topology>): Option<string> {
    PropagatePeerFor(self, PartitionOf(self, callRef), topology)
  }

  /** The two derivations of role, owner, peer and direction agree on every self-describing reference. */
  lemma RoutingAgrees(self: string, callRef: string, topology: Option<CallModel.Topology>)
    requires CallRefs.Parse(callRef).Some?
    ensures var home := PartitionOf(self, callRef);
            var ref := PartitionRef(
              CallRefs.Parse(callRef).value.primary, if topology.Some? then Some(topology.value.bak) else None, self);
            && home == Home(RoleOf(ref), OwnerOf(ref))
            && PropagatePeerFor(self, home, topology) == ReplicaPeerOf(ref)
            && DirectionFor(home.role) == DirectionOf(ref)
  {
  }

  /** A worker never names itself as the peer, and a chosen peer is a real name. */
  lemma PeerIsOther(self: string, callRef: string, topology: Option<CallModel.Topology>)
    requires PeerOf(self, callRef, topology).Some?
    ensures PeerOf(self, callRef, topology).value != self && PeerOf(self, callRef, topology).value != ""
  {
  }

  /** What is stamped in the channel is the very key this worker reads: legacy references included. */
  lemma SenderReadsWhatItStamps(self: string, callRef: string, topology: Option<CallModel.Topology>)
    requires PeerOf(self, callRef, topology).Some?
    ensures ChannelKey(self, PeerOf(self, callRef, topology).value, callRef) == OwnKey(self, callRef)
  {
  }

  /**
   * The write lands on the key the receiver itself reads exactly when the reference names its
   * primary: both sides take a legacy reference for their own.
   */
  lemma ReceiverReadsWhatLands(self: string, callRef: string, topology: Option<CallModel.Topology>)
    requires PeerOf(self, callRef, topology).Some?
    ensures var peer := PeerOf(self, callRef, topology).value;
            LandingKey(self, peer, callRef) == OwnKey(peer, callRef) <==> CallRefs.Parse(callRef).Some?
  {
    if CallRefs.Parse(callRef).Some? {
      CallRefs.ParseDerive(callRef);
    }
  }

  /**
   * Takeover and back: a call that reached its backup goes, on the backup's next write, to the
   * primary again, onto the key the primary started from.
   */
  lemma TakeoverReturnsHome(primary: string, backup: string, parts: CallRefs.Parts, topology: CallModel.Topology)
    requires CallRefs.WellFormed(parts) && parts.primary == primary
    requires topology.bak == backup && backup != "" && backup != primary
    ensures var callRef := CallRefs.Derive(parts.primary, parts.callId, parts.fromTag);
            && PeerOf(primary, callRef, Some(topology)) == Some(backup)
            && LandingKey(primary, backup, callRef) == OwnKey(backup, callRef)
            && PeerOf(backup, callRef, Some(topology)) == Some(primary)
            && LandingKey(backup, primary, callRef) == OwnKey(primary, callRef)
            && OwnKey(primary, callRef) != OwnKey(backup, callRef)
  {
    CallRefs.DeriveParseExact(parts);
  }

  /** At most one worker holds a self-describing call as primary. */
  lemma SinglePrimary(a: string, b: string, callRef: string)
    requires CallRefs.Parse(callRef).Some?
    requires PartitionOf(a, callRef).role == Pri && PartitionOf(b, callRef).role == Pri
    ensures a == b
  {
  }

  /** A legacy call on the wire: the backup keeps it under `bak` but looks for it under its own `pri`. */
  lemma LegacyCallIsLost(self: string, backup: string, callId: string, fromTag: string)
    requires '|' !in callId && '|' !in fromTag && backup != self && backup != ""
    ensures var callRef, topology := callId + "|" + fromTag, CallModel.Topology(self, backup, 1);
            && PeerOf(self, callRef, Some(topology)) == Some(backup)
            && LandingKey(self, backup, callRef) == BodyKey(Bak, self, callRef)
            && OwnKey(backup, callRef) == BodyKey(Pri, backup, callRef)
  {
    CallRefs.LegacyDoesNotParse(callId, fromTag);
  }
}

/** The textual form of channel members: `U:{partition}:{owner}:call:{callRef}`. */
module MemberText {
  import opened Options
  import opened KvStore

  datatype MemberParts = MemberParts(op: Op, partition: Partition, callRef: string)

  const MARKER := ":call:"

  function PartitionText(p: Partition): string {
    if p == Pri then "pri" else "bak"
  }

  function BodyKeyText(k: BodyKey): string {
    PartitionText(k.partition) + ":" + k.owner + MARKER + k.callRef
  }

  function MemberText(m: Member): string {
    (if m.op == Update then "U:" else "D:") + BodyKeyText(m.key)
  }

  predicate MarkerAt(s: string, i: nat) {
    i + |MARKER| <= |s| && s[i..i + |MARKER|] == MARKER
  }

  lemma MarkerShifts(s: string, j: nat)
    requires 0 < j && s != ""
    ensures MarkerAt(s, j) <==> MarkerAt(s[1..], j - 1)
  {
    if j + |MARKER| <= |s| {
      assert s[1..][j - 1..j - 1 + |MARKER|] == s[j..j + |MARKER|];
    }
  }

  /** First position of the marker in `s`, or |s|. */
  function FindMarker(s: string): (i: nat)
    ensures i <= |s| && (i < |s| ==> MarkerAt(s, i))
    ensures forall j: nat :: j < i ==> !MarkerAt(s, j)
  {
    if s == "" || MarkerAt(s, 0) then 0
    else
      var i := 1 + FindMarker(s[1..]);
      assert (i < |s| ==> MarkerAt(s, i)) && forall j: nat :: j < i ==> !MarkerAt(s, j) by {
        forall j: nat | 0 < j <= i
          ensures MarkerAt(s, j) <==> MarkerAt(s[1..], j - 1)
        {
          MarkerShifts(s, j);
        }
      }
      i
  }

  /** First position of a colon in `s`, or |s|. */
  function FindColon(s: string): (i: nat)
    ensures i <= |s| && ':' !in s[..i] && (i < |s| ==> s[i] == ':')
  {
    if s == "" || s[0] == ':' then 0 else 1 + FindColon(s[1..])
  }

  function ParseMember(member: string): Option<MemberParts> {
    if |member| < 3 || member[1] != ':' || (member[0] != 'U' && member[0] != 'D') then None
    else
      var op := if member[0] == 'D' then Delete else Update;
      var key := member[2..];
      var colon := FindColon(key);
      if colon < 1 || colon == |key| || (key[..colon] != "pri" && key[..colon] != "bak") then None
      else
        var rest := key[colon + 1..];
        var mark := FindMarker(rest);
        if mark == |rest| then None
        else
          var callRef := rest[mark + |MARKER|..];
          if |callRef| == 0 then None
          else Some(MemberParts(op, if key[..colon] == "pri" then Pri else Bak, callRef))
  }

  /** Text parses back to the member's parts exactly when the call is named and the owner hides no marker. */
  lemma ParseMemberExact(m: Member)
    ensures var k := m.key;
            ParseMember(MemberText(m)) == Some(MemberParts(m.op, k.partition, k.callRef))
            <==> k.callRef != "" && FindMarker(k.owner + MARKER + k.callRef) == |k.owner|
  {
    var k := m.key;
    var text, body := MemberText(m), BodyKeyText(k);
    assert text[2..] == body;
    var name, rest := PartitionText(k.partition), k.owner + MARKER + k.callRef;
    assert body == name + ":" + rest;
    assert FindColon(body) == 3 by {
      assert body[0] != ':' && body[1] != ':' && body[2] != ':' && body[3] == ':';
    }
    assert body[4..] == rest && body[..3] == name;
    assert rest[|k.owner| + |MARKER|..] == k.callRef;
  }

  /** The form itself, on one member of each kind. */
  lemma FormOfMembers(callRef: string)
    ensures MemberText(Member(Update, BodyKey(Pri, "w1", callRef))) == "U:pri:w1:call:" + callRef
    ensures MemberText(Member(Delete, BodyKey(Bak, "w2", callRef))) == "D:bak:w2:call:" + callRef
  {
  }

  lemma MarkerStartsWithColon(s: string)
    ensures forall i :: 0 <= i < |s| && MarkerAt(s, i) ==> s[i] == ':'
  {
    assert forall i :: 0 <= i < |s| && MarkerAt(s, i) ==> s[i] == s[i..i + |MARKER|][0];
  }

  /** Owner names without a colon, as worker ordinals are, always round-trip. */
  lemma OrdinalsRoundTrip(m: Member)
    requires ':' !in m.key.owner && m.key.callRef != ""
    ensures ParseMember(MemberText(m)) == Some(MemberParts(m.op, m.key.partition, m.key.callRef))
  {
    var k := m.key;
    var rest := k.owner + MARKER + k.callRef;
    var mark := FindMarker(rest);
    assert rest[|k.owner|..|k.owner| + |MARKER|] == MARKER;
    assert MarkerAt(rest, |k.owner|);
    MarkerStartsWithColon(rest);
    ParseMemberExact(m);
  }
}
