/** Self-describing call references: `{primary}|{callId}|{fromTag}`. */
module CallRefs {
  import opened Options

  datatype Parts = Parts(primary: string, callId: string, fromTag: string)

  function Derive(primary: string, callId: string, fromTag: string): string {
    primary + "|" + callId + "|" + fromTag
  }

  /** First position of `c` in `s`, or |s| when there is none. */
  function Find(s: string, c: char): (i: nat)
    ensures i <= |s|
    ensures c !in s[..i]
    ensures i < |s| ==> s[i] == c
  {
    if s == "" || s[0] == c then 0 else 1 + Find(s[1..], c)
  }

  /** Legacy two-segment references parse to nothing. */
  function Parse(ref: string): Option<Parts> {
    var i := Find(ref, '|');
    if i == 0 || i == |ref| then None
    else
      var rest := ref[i + 1..];
      var j := Find(rest, '|');
      if j == 0 || j + 1 >= |rest| then None else Some(Parts(ref[..i], rest[..j], rest[j + 1..]))
  }

  predicate WellFormed(p: Parts) {
    p.primary != "" && '|' !in p.primary && p.callId != "" && '|' !in p.callId && p.fromTag != ""
  }

  lemma {:induction false} FindFirst(a: string, c: char, b: string)
    requires c !in a
    ensures Find(a + [c] + b, c) == |a|
  {
    if a != [] {
      assert (a + [c] + b)[1..] == a[1..] + [c] + b;
      FindFirst(a[1..], c, b);
    }
  }

  /** Whatever parses is well formed and derives back to the very same reference. */
  lemma ParseDerive(ref: string)
    requires Parse(ref).Some?
    ensures var p := Parse(ref).value; WellFormed(p) && Derive(p.primary, p.callId, p.fromTag) == ref
  {
    var i := Find(ref, '|');
    var rest := ref[i + 1..];
    var j := Find(rest, '|');
    assert ref == ref[..i] + ['|'] + rest;
    assert rest == rest[..j] + ['|'] + rest[j + 1..];
  }

  /** Deriving then parsing gives the segments back exactly when they are well formed. */
  lemma DeriveParseExact(p: Parts)
    ensures Parse(Derive(p.primary, p.callId, p.fromTag)) == Some(p) <==> WellFormed(p)
  {
    var ref := Derive(p.primary, p.callId, p.fromTag);
    if Parse(ref) == Some(p) {
      ParseDerive(ref);
    }
    if WellFormed(p) {
      var rest := p.callId + ['|'] + p.fromTag;
      assert ref == p.primary + ['|'] + rest;
      FindFirst(p.primary, '|', rest);
      FindFirst(p.callId, '|', p.fromTag);
      assert ref[|p.primary| + 1..] == rest;
      assert rest[|p.callId| + 1..] == p.fromTag;
      assert ref[..|p.primary|] == p.primary && rest[..|p.callId|] == p.callId;
    }
  }

  /** Two-segment references, the format before the primary was encoded, do not parse. */
  lemma LegacyDoesNotParse(callId: string, fromTag: string)
    requires '|' !in callId && '|' !in fromTag
    ensures Parse(callId + "|" + fromTag) == None
  {
    var ref := callId + ['|'] + fromTag;
    FindFirst(callId, '|', fromTag);
    assert ref[|callId| + 1..] == fromTag;
  }
}

/** The call record: legs, dialogs, disposition helpers and index keys. */
module CallModel {
  import opened Options
  import opened CallRefs
  import CallLimiter

  datatype LegState = Trying | Early | Confirmed | LegTerminated

  datatype ByeDisposition = ByeSent | ByeReceived | ByeConfirmed | ByeTimeout | Cancelled | LegRejected | NoBye

  datatype Dialog = Dialog(localTag: string, remoteTag: string)

  datatype Leg = Leg(
    legId: string,
    callId: string,
    fromTag: string,
    state: LegState,
    byeDisposition: Option<ByeDisposition>,
    dialogs: seq<Dialog>)

  datatype TimerType = TerminatingTimeout | OtherTimer(name: string)
  datatype TimerEntry = TimerEntry(id: string, kind: TimerType, fireAt: int)

  datatype LimiterEntry = LimiterEntry(limiterId: string, originWindow: int, incrementSucceeded: Option<bool>)

  /** An older replicated entry has no flag; only an explicit false marks a fail-open admission. */
  predicate HoldsSlot(e: LimiterEntry) {
    e.incrementSucceeded != Some(false)
  }

  /** Counters a call's end gives back, in the order its entries were acquired. */
  function ReleaseKeys(entries: seq<LimiterEntry>): seq<CallLimiter.Key> {
    if entries == [] then []
    else
      var last := entries[|entries| - 1];
      ReleaseKeys(entries[..|entries| - 1])
      + if HoldsSlot(last) then [CallLimiter.Key(last.limiterId, last.originWindow)] else []
  }

  datatype Topology = Topology(pri: string, bak: string, gen: nat)

  datatype CallPhase = Active | Terminating | Terminated

  datatype Call = Call(
    callRef: string,
    phase: CallPhase,
    aLeg: Leg,
    bLegs: seq<Leg>,
    callbackContext: Option<string>,
    limiterEntries: seq<LimiterEntry>,
    timers: seq<TimerEntry>,
    createdAt: int,
    topology: Option<Topology>,
    terminatingRefreshLegs: Option<seq<string>>,
    rest: string)

  // ---- Legs ---------------------------------------------------------------------------------

  function UpdateLeg(c: Call, legId: string, fn: Leg -> Leg): Call {
    if c.aLeg.legId == legId then c.(aLeg := fn(c.aLeg))
    else c.(bLegs := seq(|c.bLegs|, i requires 0 <= i < |c.bLegs| =>
                         if c.bLegs[i].legId == legId then fn(c.bLegs[i]) else c.bLegs[i]))
  }

  function SetByeDisposition(c: Call, legId: string, d: ByeDisposition): Call {
    UpdateLeg(c, legId, (l: Leg) => l.(byeDisposition := Some(d)))
  }

  /** A leg that never established needs no BYE; any other needs a terminal disposition. */
  predicate LegResolved(l: Leg) {
    || (l.state == Trying && l.byeDisposition.None?)
    || (l.byeDisposition.Some? && l.byeDisposition.value != ByeSent)
  }

  predicate IsFullyResolved(c: Call) {
    LegResolved(c.aLeg) && forall i :: 0 <= i < |c.bLegs| ==> LegResolved(c.bLegs[i])
  }

  predicate Outstanding(l: Leg) {
    l.byeDisposition.None? || l.byeDisposition == Some(ByeSent)
  }

  function Legs(c: Call): seq<Leg> {
    [c.aLeg] + c.bLegs
  }

  /** What forcing every outstanding leg does to one leg: it is found by its id. */
  function Forced(l: Leg): Leg {
    if Outstanding(l) then l.(byeDisposition := Some(ByeTimeout)) else l
  }

  /** Some leg of this id is still outstanding. */
  predicate SomeOutstanding(legs: seq<Leg>, id: string) {
    exists i :: 0 <= i < |legs| && legs[i].legId == id && Outstanding(legs[i])
  }

  /** A leg after the dispositions of the ids seen in `legs` were forced. */
  function ForcedBy(legs: seq<Leg>, l: Leg): Leg {
    if SomeOutstanding(legs, l.legId) then l.(byeDisposition := Some(ByeTimeout)) else l
  }

  /** The call after the first `n` legs of its snapshot were looked at; a-leg ids shadow b-leg ids. */
  function ForcedUpTo(c: Call, n: nat): Call
    requires n <= |Legs(c)|
  {
    var seen := Legs(c)[..n];
    c.(aLeg := ForcedBy(seen, c.aLeg),
       bLegs := seq(|c.bLegs|, i requires 0 <= i < |c.bLegs| =>
         if c.bLegs[i].legId == c.aLeg.legId then c.bLegs[i] else ForcedBy(seen, c.bLegs[i])))
  }

  lemma OneMoreSeen(legs: seq<Leg>, n: nat, id: string)
    requires n < |legs|
    ensures SomeOutstanding(legs[..n + 1], id)
         <==> SomeOutstanding(legs[..n], id) || (legs[n].legId == id && Outstanding(legs[n]))
  {
    var seen, more := legs[..n], legs[..n + 1];
    assert more == seen + [legs[n]];
    if i :| 0 <= i < |more| && more[i].legId == id && Outstanding(more[i]) {
      assert i < n ==> seen[i] == more[i];
    }
    if i :| 0 <= i < |seen| && seen[i].legId == id && Outstanding(seen[i]) {
      assert more[i] == seen[i];
    }
    assert more[n] == legs[n];
  }

  lemma ForcedExtends(c: Call, n: nat)
    requires n < |Legs(c)|
    ensures var l, forced := Legs(c)[n], ForcedUpTo(c, n);
            ForcedUpTo(c, n + 1) == if Outstanding(l) then SetByeDisposition(forced, l.legId, ByeTimeout) else forced
  {
    var l, forced := Legs(c)[n], ForcedUpTo(c, n);
    var next := if Outstanding(l) then SetByeDisposition(forced, l.legId, ByeTimeout) else forced;
    OneMoreSeen(Legs(c), n, c.aLeg.legId);
    forall i | 0 <= i < |c.bLegs|
      ensures next.bLegs[i] == ForcedUpTo(c, n + 1).bLegs[i]
    {
      OneMoreSeen(Legs(c), n, c.bLegs[i].legId);
    }
    assert next.bLegs == ForcedUpTo(c, n + 1).bLegs;
  }

  function ForcedAll(c: Call): Call {
    ForcedUpTo(c, |Legs(c)|)
  }

  /** The disposition loop of a force-purge. */
  method ForceDispositions(c: Call) returns (promoted: Call)
    ensures promoted == ForcedAll(c)
  {
    var legs := Legs(c);
    promoted := c;
    assert c == ForcedUpTo(c, 0);
    for i := 0 to |legs|
      invariant promoted == ForcedUpTo(c, i)
    {
      ForcedExtends(c, i);
      if legs[i].byeDisposition.None? || legs[i].byeDisposition == Some(ByeSent) {
        promoted := SetByeDisposition(promoted, legs[i].legId, ByeTimeout);
      }
    }
  }

  /**
   * The loop reaches a fully resolved call exactly when no unresolved b-leg shares the a-leg's id:
   * such a leg is never found by its id.
   */
  lemma ForceResolvesExact(c: Call)
    ensures IsFullyResolved(ForcedAll(c))
       <==> forall i :: 0 <= i < |c.bLegs| && c.bLegs[i].legId == c.aLeg.legId ==> LegResolved(c.bLegs[i])
  {
    var legs, promoted := Legs(c), ForcedAll(c);
    assert legs[..|legs|] == legs;
    assert legs[0] == c.aLeg;
    assert LegResolved(promoted.aLeg) by {
      if Outstanding(c.aLeg) {
        assert SomeOutstanding(legs, c.aLeg.legId);
      }
    }
    forall i | 0 <= i < |c.bLegs|
      ensures LegResolved(promoted.bLegs[i]) <==> (c.bLegs[i].legId == c.aLeg.legId ==> LegResolved(c.bLegs[i]))
    {
      assert legs[i + 1] == c.bLegs[i];
      if Outstanding(c.bLegs[i]) {
        assert SomeOutstanding(legs, c.bLegs[i].legId);
      }
    }
  }

  /** With distinct leg ids every leg keeps its disposition unless it was outstanding. */
  lemma ForceTouchesOnlyOutstanding(c: Call)
    requires forall i, j :: 0 <= i < j < |Legs(c)| ==> Legs(c)[i].legId != Legs(c)[j].legId
    ensures var promoted := ForcedAll(c);
            && promoted == c.(aLeg := Forced(c.aLeg), bLegs := promoted.bLegs)
            && forall i :: 0 <= i < |c.bLegs| ==> promoted.bLegs[i] == Forced(c.bLegs[i])
  {
    var legs := Legs(c);
    assert legs[..|legs|] == legs;
    forall i | 0 <= i < |legs|
      ensures ForcedBy(legs, legs[i]) == Forced(legs[i])
    {
      assert SomeOutstanding(legs, legs[i].legId) <==> Outstanding(legs[i]);
    }
    assert legs[0] == c.aLeg;
    assert forall i :: 0 <= i < |c.bLegs| ==> legs[i + 1] == c.bLegs[i] && c.bLegs[i].legId != legs[0].legId;
  }

  // ---- Index keys ---------------------------------------------------------------------------

  function LegKey(callId: string, tag: string): string {
    "leg:" + callId + "|" + tag
  }

  function DialogKey(callId: string, d: Dialog): seq<string> {
    if d.remoteTag != "" then [LegKey(callId, d.remoteTag)] else []
  }

  function DialogKeys(callId: string, dialogs: seq<Dialog>): seq<string> {
    if dialogs == [] then [] else DialogKey(callId, dialogs[0]) + DialogKeys(callId, dialogs[1..])
  }

  function BLegKeys(bLegs: seq<Leg>): seq<string> {
    if bLegs == [] then []
    else
      [LegKey(bLegs[0].callId, bLegs[0].fromTag), "leg:" + bLegs[0].callId]
      + DialogKeys(bLegs[0].callId, bLegs[0].dialogs) + BLegKeys(bLegs[1..])
  }

  function IndexKeys(c: Call): seq<string> {
    [LegKey(c.aLeg.callId, c.aLeg.fromTag)] + BLegKeys(c.bLegs)
    + if c.callbackContext.Some? then ["ctx:" + c.callbackContext.value] else []
  }

  lemma Regroup(a: seq<string>, b: seq<string>, c: seq<string>)
    ensures a + b + c == a + (b + c)
  {
  }

  method DialogIndexKeys(callId: string, dialogs: seq<Dialog>) returns (keys: seq<string>)
    ensures keys == DialogKeys(callId, dialogs)
  {
    keys := [];
    for j := 0 to |dialogs|
      invariant keys + DialogKeys(callId, dialogs[j..]) == DialogKeys(callId, dialogs)
    {
      assert dialogs[j..][1..] == dialogs[j + 1..];
      Regroup(keys, DialogKey(callId, dialogs[j]), DialogKeys(callId, dialogs[j + 1..]));
      ghost var next := keys + DialogKey(callId, dialogs[j]);
      var bTag := dialogs[j].remoteTag;
      if bTag != "" {
        keys := keys + [LegKey(callId, bTag)];
      }
      assert keys == next;
    }
  }

  method CallIndexKeys(c: Call) returns (keys: seq<string>)
    ensures keys == IndexKeys(c)
  {
    keys := [LegKey(c.aLeg.callId, c.aLeg.fromTag)];
    for i := 0 to |c.bLegs|
      invariant keys + BLegKeys(c.bLegs[i..]) == [LegKey(c.aLeg.callId, c.aLeg.fromTag)] + BLegKeys(c.bLegs)
    {
      var b := c.bLegs[i];
      keys := keys + [LegKey(b.callId, b.fromTag)];
      keys := keys + ["leg:" + b.callId];
      var more := DialogIndexKeys(b.callId, b.dialogs);
      keys := keys + more;
    }
    if c.callbackContext.Some? {
      keys := keys + ["ctx:" + c.callbackContext.value];
    }
  }

  // ---- The schema-tolerant walk -------------------------------------------------------------

  /** A decoded value of unknown shape. */
  datatype Json =
    | Null
    | Bool(b: bool)
    | Num(n: int)
    | Str(s: string)
    | Arr(items: seq<Json>)
    | Obj(fields: map<string, Json>)

  /** Non-null and of type object: arrays are objects too, with none of these fields. */
  predicate IsObject(j: Json) {
    j.Obj? || j.Arr?
  }

  function Field(j: Json, name: string): Option<Json> {
    if j.Obj? && name in j.fields then Some(j.fields[name]) else None
  }

  function StrField(j: Json, name: string): Option<string> {
    var f := Field(j, name);
    if f.Some? && f.value.Str? then Some(f.value.s) else None
  }

  function ObjField(j: Json, name: string): Option<Json> {
    var f := Field(j, name);
    if f.Some? && IsObject(f.value) then f else None
  }

  function ArrField(j: Json, name: string): seq<Json> {
    var f := Field(j, name);
    if f.Some? && f.value.Arr? then f.value.items else []
  }

  function UnknownDialogKey(callId: string, d: Json): seq<string> {
    var sip := ObjField(d, "sip");
    var tag := if sip.Some? then StrField(sip.value, "remoteTag") else None;
    if tag.Some? && tag.value != "" then [LegKey(callId, tag.value)] else []
  }

  function UnknownDialogKeys(callId: string, dialogs: seq<Json>): seq<string> {
    if dialogs == [] then [] else UnknownDialogKey(callId, dialogs[0]) + UnknownDialogKeys(callId, dialogs[1..])
  }

  function UnknownPair(j: Json): seq<string> {
    var callId, fromTag := StrField(j, "callId"), StrField(j, "fromTag");
    if callId.Some? && fromTag.Some? then [LegKey(callId.value, fromTag.value)] else []
  }

  function UnknownLegKeys(b: Json): seq<string> {
    var callId := StrField(b, "callId");
    UnknownPair(b)
    + if callId.Some? then ["leg:" + callId.value] + UnknownDialogKeys(callId.value, ArrField(b, "dialogs")) else []
  }

  function UnknownBLegKeys(bLegs: seq<Json>): seq<string> {
    if bLegs == [] then [] else UnknownLegKeys(bLegs[0]) + UnknownBLegKeys(bLegs[1..])
  }

  function UnknownIndexKeys(state: Json): seq<string> {
    var aLeg, ctx := ObjField(state, "aLeg"), StrField(state, "callbackContext");
    (if aLeg.Some? then UnknownPair(aLeg.value) else [])
    + UnknownBLegKeys(ArrField(state, "bLegs"))
    + if ctx.Some? then ["ctx:" + ctx.value] else []
  }

  method UnknownDialog(callId: string, d: Json) returns (keys: seq<string>)
    ensures keys == UnknownDialogKey(callId, d)
  {
    keys := [];
    if !IsObject(d) {
      return;
    }
    var sip := Field(d, "sip");
    if sip.Some? && IsObject(sip.value) {
      var tag := Field(sip.value, "remoteTag");
      if tag.Some? && tag.value.Str? && |tag.value.s| > 0 {
        keys := [LegKey(callId, tag.value.s)];
      }
    }
  }

  method UnknownDialogs(callId: string, dialogs: seq<Json>) returns (keys: seq<string>)
    ensures keys == UnknownDialogKeys(callId, dialogs)
  {
    keys := [];
    for i := 0 to |dialogs|
      invariant keys + UnknownDialogKeys(callId, dialogs[i..]) == UnknownDialogKeys(callId, dialogs)
    {
      assert dialogs[i..][1..] == dialogs[i + 1..];
      var more := UnknownDialog(callId, dialogs[i]);
      Regroup(keys, more, UnknownDialogKeys(callId, dialogs[i + 1..]));
      keys := keys + more;
    }
  }

  method UnknownLeg(b: Json) returns (keys: seq<string>)
    ensures keys == UnknownLegKeys(b)
  {
    keys := [];
    if !IsObject(b) {
      return;
    }
    var callId, fromTag := Field(b, "callId"), Field(b, "fromTag");
    if callId.Some? && callId.value.Str? && fromTag.Some? && fromTag.value.Str? {
      keys := keys + [LegKey(callId.value.s, fromTag.value.s)];
    }
    if callId.Some? && callId.value.Str? {
      keys := keys + ["leg:" + callId.value.s];
    }
    var dialogs := Field(b, "dialogs");
    if dialogs.Some? && dialogs.value.Arr? && callId.Some? && callId.value.Str? {
      var more := UnknownDialogs(callId.value.s, dialogs.value.items);
      keys := keys + more;
    }
  }

  method UnknownLegs(items: seq<Json>) returns (keys: seq<string>)
    ensures keys == UnknownBLegKeys(items)
  {
    keys := [];
    for i := 0 to |items|
      invariant keys + UnknownBLegKeys(items[i..]) == UnknownBLegKeys(items)
    {
      assert items[i..][1..] == items[i + 1..];
      var more := UnknownLeg(items[i]);
      Regroup(keys, more, UnknownBLegKeys(items[i + 1..]));
      keys := keys + more;
    }
  }

  method UnknownALeg(aLeg: Json) returns (keys: seq<string>)
    ensures keys == UnknownPair(aLeg)
  {
    keys := [];
    var callId, fromTag := Field(aLeg, "callId"), Field(aLeg, "fromTag");
    if callId.Some? && callId.value.Str? && fromTag.Some? && fromTag.value.Str? {
      keys := [LegKey(callId.value.s, fromTag.value.s)];
    }
  }

  /** Total over every value: a missing or wrong-typed field is skipped, never an error. */
  method CallIndexKeysFromUnknown(state: Json) returns (keys: seq<string>)
    ensures keys == UnknownIndexKeys(state)
  {
    keys := [];
    if !IsObject(state) {
      return;
    }
    var aLeg := Field(state, "aLeg");
    if aLeg.Some? && IsObject(aLeg.value) {
      keys := UnknownALeg(aLeg.value);
    }
    var bLegs := Field(state, "bLegs");
    if bLegs.Some? && bLegs.value.Arr? {
      var more := UnknownLegs(bLegs.value.items);
      keys := keys + more;
    }
    var ctx := Field(state, "callbackContext");
    if ctx.Some? && ctx.value.Str? {
      keys := keys + ["ctx:" + ctx.value.s];
    }
  }

  // ---- Agreement of the two walks -----------------------------------------------------------

  predicate EncodesDialog(j: Json, d: Dialog) {
    && var sip := Field(j, "sip");
    && sip.Some? && sip.value.Obj? && StrField(sip.value, "remoteTag") == Some(d.remoteTag)
  }

  predicate EncodesLeg(j: Json, l: Leg) {
    && StrField(j, "callId") == Some(l.callId)
    && StrField(j, "fromTag") == Some(l.fromTag)
    && var dialogs := Field(j, "dialogs");
    && dialogs.Some? && dialogs.value.Arr? && |dialogs.value.items| == |l.dialogs|
    && forall i :: 0 <= i < |l.dialogs| ==> EncodesDialog(dialogs.value.items[i], l.dialogs[i])
  }

  /** The value is a decoded call: these fields are as in `c`, any others may be there too. */
  predicate Encodes(j: Json, c: Call) {
    && var aLeg := Field(j, "aLeg");
    && aLeg.Some? && EncodesLeg(aLeg.value, c.aLeg)
    && var bLegs := Field(j, "bLegs");
    && bLegs.Some? && bLegs.value.Arr? && |bLegs.value.items| == |c.bLegs|
    && (forall i :: 0 <= i < |c.bLegs| ==> EncodesLeg(bLegs.value.items[i], c.bLegs[i]))
    && StrField(j, "callbackContext") == c.callbackContext
  }

  lemma {:induction false} DialogKeysAgree(callId: string, js: seq<Json>, dialogs: seq<Dialog>)
    requires |js| == |dialogs| && forall i :: 0 <= i < |js| ==> EncodesDialog(js[i], dialogs[i])
    ensures UnknownDialogKeys(callId, js) == DialogKeys(callId, dialogs)
  {
    if js != [] {
      assert EncodesDialog(js[0], dialogs[0]);
      DialogKeysAgree(callId, js[1..], dialogs[1..]);
    }
  }

  lemma LegKeysAgree(j: Json, l: Leg)
    requires EncodesLeg(j, l)
    ensures UnknownLegKeys(j) == [LegKey(l.callId, l.fromTag), "leg:" + l.callId] + DialogKeys(l.callId, l.dialogs)
  {
    DialogKeysAgree(l.callId, ArrField(j, "dialogs"), l.dialogs);
  }

  lemma {:induction false} BLegKeysAgree(js: seq<Json>, bLegs: seq<Leg>)
    requires |js| == |bLegs| && forall i :: 0 <= i < |js| ==> EncodesLeg(js[i], bLegs[i])
    ensures UnknownBLegKeys(js) == BLegKeys(bLegs)
  {
    if js != [] {
      LegKeysAgree(js[0], bLegs[0]);
      BLegKeysAgree(js[1..], bLegs[1..]);
    }
  }

  /** The tolerant walk over a decoded call lists the typed walk's keys, in the same order. */
  lemma IndexKeysAgree(j: Json, c: Call)
    requires Encodes(j, c)
    ensures UnknownIndexKeys(j) == IndexKeys(c)
  {
    BLegKeysAgree(ArrField(j, "bLegs"), c.bLegs);
  }

  // ---- In-memory SIP keys -------------------------------------------------------------------

  function SipKey(callId: string, tag: string): string {
    callId + "|" + tag
  }

  /** The B2BUA's own a-leg tags. */
  function PinnedKey(aLeg: Leg, d: Dialog): seq<string> {
    if d.localTag != "" && d.localTag != aLeg.fromTag then [SipKey(aLeg.callId, d.localTag)] else []
  }

  function PinnedKeys(aLeg: Leg, dialogs: seq<Dialog>): seq<string>
    decreases |dialogs|
  {
    if dialogs == [] then [] else PinnedKey(aLeg, dialogs[0]) + PinnedKeys(aLeg, dialogs[1..])
  }

  function DialogSipKey(callId: string, d: Dialog): seq<string> {
    if d.remoteTag != "" then [SipKey(callId, d.remoteTag)] else []
  }

  function DialogSipKeys(callId: string, dialogs: seq<Dialog>): seq<string> {
    if dialogs == [] then [] else DialogSipKey(callId, dialogs[0]) + DialogSipKeys(callId, dialogs[1..])
  }

  function BLegSipKeys(bLegs: seq<Leg>): seq<string> {
    if bLegs == [] then []
    else
      [SipKey(bLegs[0].callId, bLegs[0].fromTag), bLegs[0].callId]
      + DialogSipKeys(bLegs[0].callId, bLegs[0].dialogs) + BLegSipKeys(bLegs[1..])
  }

  /** Keys of the in-memory SIP index, in the order they are set and removed. */
  function SipKeys(c: Call): seq<string> {
    [SipKey(c.aLeg.callId, c.aLeg.fromTag)] + PinnedKeys(c.aLeg, c.aLeg.dialogs) + BLegSipKeys(c.bLegs)
  }

  function Stored(keys: seq<string>): (r: seq<string>)
    ensures |r| == |keys|
  {
    seq(|keys|, i requires 0 <= i < |keys| => "leg:" + keys[i])
  }

  lemma StoredConcat(a: seq<string>, b: seq<string>)
    ensures Stored(a + b) == Stored(a) + Stored(b)
  {
  }

  lemma OneStored(callId: string, tag: string)
    ensures Stored([SipKey(callId, tag)]) == [LegKey(callId, tag)]
  {
    assert "leg:" + SipKey(callId, tag) == LegKey(callId, tag);
  }

  lemma {:induction false} DialogKeysStored(callId: string, dialogs: seq<Dialog>)
    ensures DialogKeys(callId, dialogs) == Stored(DialogSipKeys(callId, dialogs))
  {
    if dialogs != [] {
      DialogKeysStored(callId, dialogs[1..]);
      StoredConcat(DialogSipKey(callId, dialogs[0]), DialogSipKeys(callId, dialogs[1..]));
      OneStored(callId, dialogs[0].remoteTag);
    }
  }

  lemma {:induction false} BLegKeysStored(bLegs: seq<Leg>)
    ensures BLegKeys(bLegs) == Stored(BLegSipKeys(bLegs))
  {
    if bLegs != [] {
      var b := bLegs[0];
      BLegKeysStored(bLegs[1..]);
      DialogKeysStored(b.callId, b.dialogs);
      OneStored(b.callId, b.fromTag);
      var own, more := [SipKey(b.callId, b.fromTag), b.callId], DialogSipKeys(b.callId, b.dialogs);
      assert Stored(own) == [LegKey(b.callId, b.fromTag), "leg:" + b.callId];
      StoredConcat(own, more);
      StoredConcat(own + more, BLegSipKeys(bLegs[1..]));
    }
  }

  /**
   * Stored and in-memory indexes list the same legs in the same order, but for the pinned a-leg tags:
   * those resolve only on a worker that already holds the call in memory.
   */
  lemma StoredIndexOmitsPinned(c: Call)
    ensures IndexKeys(c)
         == Stored([SipKey(c.aLeg.callId, c.aLeg.fromTag)] + BLegSipKeys(c.bLegs))
          + if c.callbackContext.Some? then ["ctx:" + c.callbackContext.value] else []
  {
    BLegKeysStored(c.bLegs);
    assert LegKey(c.aLeg.callId, c.aLeg.fromTag) == "leg:" + SipKey(c.aLeg.callId, c.aLeg.fromTag);
  }

  // ---- The keys, one by one -----------------------------------------------------------------

  /** The B2BUA's own tag in some a-leg dialog, if it is not the caller's. */
  predicate IsPinnedKey(aLeg: Leg, dialogs: seq<Dialog>, key: string) {
    exists j :: 0 <= j < |dialogs| && dialogs[j].localTag != "" && dialogs[j].localTag != aLeg.fromTag
                && key == aLeg.callId + "|" + dialogs[j].localTag
  }

  /** The far end's tag in some dialog. */
  predicate IsDialogKey(callId: string, dialogs: seq<Dialog>, key: string) {
    exists j :: 0 <= j < |dialogs| && dialogs[j].remoteTag != "" && key == callId + "|" + dialogs[j].remoteTag
  }

  /** A b-leg is found by its own tag, by the far end's tag in any of its dialogs, and without a tag. */
  predicate IsBLegKey(b: Leg, key: string) {
    key == b.callId + "|" + b.fromTag || key == b.callId || IsDialogKey(b.callId, b.dialogs, key)
  }

  lemma {:induction false} PinnedKeysExact(aLeg: Leg, dialogs: seq<Dialog>, key: string)
    ensures key in PinnedKeys(aLeg, dialogs) <==> IsPinnedKey(aLeg, dialogs, key)
    decreases |dialogs|
  {
    if dialogs != [] {
      PinnedKeysExact(aLeg, dialogs[1..], key);
      assert IsPinnedKey(aLeg, dialogs, key) <==>
             key in PinnedKey(aLeg, dialogs[0]) || IsPinnedKey(aLeg, dialogs[1..], key) by {
        assert forall j :: 1 <= j < |dialogs| ==> dialogs[j] == dialogs[1..][j - 1];
        assert forall j :: 0 <= j < |dialogs| - 1 ==> dialogs[1..][j] == dialogs[j + 1];
      }
    }
  }

  lemma {:induction false} DialogSipKeysExact(callId: string, dialogs: seq<Dialog>, key: string)
    ensures key in DialogSipKeys(callId, dialogs) <==> IsDialogKey(callId, dialogs, key)
  {
    if dialogs != [] {
      DialogSipKeysExact(callId, dialogs[1..], key);
      assert IsDialogKey(callId, dialogs, key) <==>
             key in DialogSipKey(callId, dialogs[0]) || IsDialogKey(callId, dialogs[1..], key) by {
        assert forall j :: 1 <= j < |dialogs| ==> dialogs[j] == dialogs[1..][j - 1];
        assert forall j :: 0 <= j < |dialogs| - 1 ==> dialogs[1..][j] == dialogs[j + 1];
      }
    }
  }

  lemma {:induction false} BLegSipKeysExact(bLegs: seq<Leg>, key: string)
    ensures key in BLegSipKeys(bLegs) <==> exists i :: 0 <= i < |bLegs| && IsBLegKey(bLegs[i], key)
  {
    if bLegs != [] {
      BLegSipKeysExact(bLegs[1..], key);
      DialogSipKeysExact(bLegs[0].callId, bLegs[0].dialogs, key);
      assert forall i :: 1 <= i < |bLegs| ==> bLegs[i] == bLegs[1..][i - 1];
      assert forall i :: 0 <= i < |bLegs| - 1 ==> bLegs[1..][i] == bLegs[i + 1];
    }
  }

  /** The SIP keys of a call are those by which any of its legs may be addressed, and no others. */
  lemma SipKeysExact(c: Call, key: string)
    ensures key in SipKeys(c)
       <==> || key == c.aLeg.callId + "|" + c.aLeg.fromTag
            || IsPinnedKey(c.aLeg, c.aLeg.dialogs, key)
            || exists i :: 0 <= i < |c.bLegs| && IsBLegKey(c.bLegs[i], key)
  {
    PinnedKeysExact(c.aLeg, c.aLeg.dialogs, key);
    BLegSipKeysExact(c.bLegs, key);
  }

  /** The stored index has them too, but for the pinned ones, and the callback context. */
  lemma IndexKeysExact(c: Call, key: string)
    ensures "leg:" + key in IndexKeys(c)
       <==> key == c.aLeg.callId + "|" + c.aLeg.fromTag || exists i :: 0 <= i < |c.bLegs| && IsBLegKey(c.bLegs[i], key)
    ensures "ctx:" + key in IndexKeys(c) <==> c.callbackContext == Some(key)
  {
    var keys := [SipKey(c.aLeg.callId, c.aLeg.fromTag)] + BLegSipKeys(c.bLegs);
    StoredIndexOmitsPinned(c);
    BLegSipKeysExact(c.bLegs, key);
    StoredExact(keys, key);
    assert ("ctx:" + key)[0] == 'c' && ("leg:" + key)[0] == 'l';
    assert c.callbackContext.Some? ==> ("ctx:" + c.callbackContext.value)[0] == 'c';
    assert ("ctx:" + key)[4..] == key;
    assert c.callbackContext.Some? ==> ("ctx:" + c.callbackContext.value)[4..] == c.callbackContext.value;
  }

  lemma StoredExact(keys: seq<string>, key: string)
    ensures "leg:" + key in Stored(keys) <==> key in keys
    ensures "ctx:" + key !in Stored(keys)
  {
    assert ("leg:" + key)[4..] == key;
    forall i | 0 <= i < |keys|
      ensures Stored(keys)[i] == "leg:" + key <==> keys[i] == key
      ensures Stored(keys)[i] != "ctx:" + key
    {
      assert ("leg:" + keys[i])[4..] == keys[i];
      assert ("leg:" + keys[i])[0] == 'l' && ("ctx:" + key)[0] == 'c';
    }
    if key in keys {
      var i :| 0 <= i < |keys| && keys[i] == key;
      assert Stored(keys)[i] == "leg:" + key;
    }
  }

  // ---- Dispositions, one by one -------------------------------------------------------------

  /**
   * A leg is done when its BYE was answered, received, timed out or never needed, or when it never
   * got beyond trying and nobody asked for a BYE; forcing changes just the legs still waiting.
   */
  lemma ResolvedExact(l: Leg)
    ensures LegResolved(l) <==>
            match l.byeDisposition
            case None => l.state == Trying
            case Some(d) => d in {ByeReceived, ByeConfirmed, ByeTimeout, Cancelled, LegRejected, NoBye}
    ensures Forced(l) == match l.byeDisposition
                         case None => l.(byeDisposition := Some(ByeTimeout))
                         case Some(ByeSent) => l.(byeDisposition := Some(ByeTimeout))
                         case Some(_) => l
  {
  }

  // ---- What the tolerant walk finds in any value --------------------------------------------

  predicate HasStr(j: Json, name: string, s: string) {
    j.Obj? && name in j.fields && j.fields[name] == Str(s)
  }

  predicate DialogHasTag(d: Json, tag: string) {
    d.Obj? && "sip" in d.fields && HasStr(d.fields["sip"], "remoteTag", tag)
  }

  predicate SomeDialogHasTag(dialogs: seq<Json>, tag: string) {
    exists i :: 0 <= i < |dialogs| && DialogHasTag(dialogs[i], tag)
  }

  lemma KeysDiffer(callId: string, tag: string, other: string)
    ensures LegKey(callId, tag) == LegKey(callId, other) ==> tag == other
    ensures LegKey(callId, tag) != "leg:" + callId
  {
    assert LegKey(callId, tag)[4 + |callId| + 1..] == tag;
    assert LegKey(callId, other)[4 + |callId| + 1..] == other;
    assert |LegKey(callId, tag)| == 4 + |callId| + 1 + |tag|;
  }

  lemma {:induction false} UnknownDialogKeysExact(callId: string, dialogs: seq<Json>, tag: string)
    ensures LegKey(callId, tag) in UnknownDialogKeys(callId, dialogs) <==> tag != "" && SomeDialogHasTag(dialogs, tag)
  {
    if dialogs != [] {
      UnknownDialogKeysExact(callId, dialogs[1..], tag);
      var d := dialogs[0];
      var first := if ObjField(d, "sip").Some? then StrField(ObjField(d, "sip").value, "remoteTag") else None;
      if first.Some? {
        KeysDiffer(callId, tag, first.value);
      }
      assert SomeDialogHasTag(dialogs, tag) <==> DialogHasTag(d, tag) || SomeDialogHasTag(dialogs[1..], tag) by {
        assert forall i :: 1 <= i < |dialogs| ==> dialogs[i] == dialogs[1..][i - 1];
        assert forall i :: 0 <= i < |dialogs| - 1 ==> dialogs[1..][i] == dialogs[i + 1];
      }
    }
  }

  /** Of a leg with a Call-ID every tag that is a string is found, whatever else is missing or of another type. */
  lemma UnknownLegExact(b: Json, callId: string, tag: string)
    requires HasStr(b, "callId", callId)
    ensures "leg:" + callId in UnknownLegKeys(b)
    ensures LegKey(callId, tag) in UnknownLegKeys(b)
       <==> HasStr(b, "fromTag", tag) || (tag != "" && SomeDialogHasTag(ArrField(b, "dialogs"), tag))
  {
    UnknownDialogKeysExact(callId, ArrField(b, "dialogs"), tag);
    KeysDiffer(callId, tag, tag);
    var fromTag := StrField(b, "fromTag");
    if fromTag.Some? {
      KeysDiffer(callId, tag, fromTag.value);
    }
    assert UnknownLegKeys(b)
        == UnknownPair(b) + (["leg:" + callId] + UnknownDialogKeys(callId, ArrField(b, "dialogs")));
  }

  lemma {:induction false} LegsWalkedApart(a: seq<Json>, b: seq<Json>)
    ensures UnknownBLegKeys(a + b) == UnknownBLegKeys(a) + UnknownBLegKeys(b)
  {
    if a == [] {
      assert a + b == b;
    } else {
      assert (a + b)[0] == a[0] && (a + b)[1..] == a[1..] + b;
      LegsWalkedApart(a[1..], b);
      Regroup(UnknownLegKeys(a[0]), UnknownBLegKeys(a[1..]), UnknownBLegKeys(b));
    }
  }

  lemma OddLegHasNoKeys(odd: Json)
    requires StrField(odd, "callId").None?
    ensures UnknownLegKeys(odd) == []
  {
  }

  lemma OneMoreLeg(leg: Json, rest: seq<Json>)
    ensures UnknownBLegKeys([leg] + rest) == UnknownLegKeys(leg) + UnknownBLegKeys(rest)
  {
    var all := [leg] + rest;
    assert all[0] == leg && all[1..] == rest;
  }

  /** A leg of another shape gives nothing, and takes nothing from the legs around it. */
  lemma OddLegSpoilsNoOther(before: seq<Json>, odd: Json, rest: seq<Json>)
    requires StrField(odd, "callId").None?
    ensures UnknownBLegKeys(before + ([odd] + rest)) == UnknownBLegKeys(before) + UnknownBLegKeys(rest)
  {
    OddLegHasNoKeys(odd);
    OneMoreLeg(odd, rest);
    LegsWalkedApart(before, [odd] + rest);
    var none: seq<string> := UnknownLegKeys(odd);
    assert none + UnknownBLegKeys(rest) == UnknownBLegKeys(rest);
  }
}
