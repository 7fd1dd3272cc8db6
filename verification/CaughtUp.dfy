/** When a puller may call itself caught up, and what it counts on the way. */
module CaughtUp {
  import opened Options
  import opened Positions
  import opened KvStore
  import opened ReplicationProtocol
  import opened PullerFiber
  import opened ReplicationLink
  import opened Cluster

  // ---- One served tick ----------------------------------------------------------------------

  function ViewAfter(view: PeerView, frames: seq<Frame>, nowMs: nat): PeerView
    decreases |frames|
  {
    if frames == [] then view else ViewAfter(OnFrame(view, frames[0], nowMs), frames[1..], nowMs)
  }

  /** Data alone never makes a puller caught up, and a watermark never goes back. */
  lemma {:induction false} DataLeavesFlag(view: PeerView, frames: seq<Frame>, nowMs: nat)
    requires forall f :: f in frames ==> f.Data?
    ensures ViewAfter(view, frames, nowMs).everCaughtUp == view.everCaughtUp
    ensures ViewAfter(view, frames, nowMs).noopsReceived == view.noopsReceived
    decreases |frames|
  {
    if frames != [] {
      DataLeavesFlag(OnFrame(view, frames[0], nowMs), frames[1..], nowMs);
    }
  }

  lemma {:induction false} OnlyData(kv: Kv, ch: Channel, slots: seq<Slot>)
    requires forall i :: 0 <= i < |slots| ==> slots[i] in ch.scores
    ensures forall f :: f in DataFrames(kv, ch, slots) ==> f.Data?
  {
    if slots != [] {
      OnlyData(kv, ch, slots[1..]);
    }
  }

  lemma {:induction false} ViewAfterSnoc(view: PeerView, frames: seq<Frame>, last: Frame, nowMs: nat)
    ensures ViewAfter(view, frames + [last], nowMs) == OnFrame(ViewAfter(view, frames, nowMs), last, nowMs)
    decreases |frames|
  {
    if frames == [] {
      assert frames + [last] == [last];
      assert ViewAfter(view, [last], nowMs) == ViewAfter(OnFrame(view, last, nowMs), [], nowMs);
    } else {
      assert (frames + [last])[1..] == frames[1..] + [last];
      ViewAfterSnoc(OnFrame(view, frames[0], nowMs), frames[1..], last, nowMs);
    }
  }

  /**
   * A tick delivered without loss makes the puller caught up exactly when the pull was not cut short
   * by the chunk size, and then the watermark has reached that pull's head.
   */
  lemma TickCatchesUpExact(kv: Kv, ch: Channel, since: Pos, slots: seq<Slot>, chunkSize: nat, head: Pos,
                           view: PeerView, nowMs: nat)
    requires IsPull(ch, since, chunkSize, slots) && IsHead(ch, head) && !view.everCaughtUp
    ensures var after := ViewAfter(view, TickFrames(kv, ch, slots, chunkSize, head), nowMs);
            && (after.everCaughtUp <==> |slots| < chunkSize)
            && (after.everCaughtUp ==> AtMost(head, after.watermark))
  {
    var data := DataFrames(kv, ch, slots);
    OnlyData(kv, ch, slots);
    DataLeavesFlag(view, data, nowMs);
    if |slots| < chunkSize {
      ViewAfterSnoc(view, data, Noop(head), nowMs);
    } else {
      assert data + [] == data;
    }
  }

  /** The server pauses exactly after the tick that ended with a noop, and then its cursor has everything behind it. */
  lemma TickIdlesExact(kv: Kv, ch: Channel, cursor: Pos, slots: seq<Slot>, chunkSize: nat, head: Pos)
    requires ScoresDiffer(ch) && IsPull(ch, cursor, chunkSize, slots)
    ensures var next := NextTick(ch, cursor, slots, chunkSize);
            && (next.Idle? <==> Noop(head) in TickFrames(kv, ch, slots, chunkSize, head))
            && (next.Idle? ==> forall s :: !Above(ch, s, next.cursor))
            && AtMost(cursor, next.cursor)
  {
    OnlyData(kv, ch, slots);
    var next := NextTick(ch, cursor, slots, chunkSize);
    assert forall i :: 0 <= i < |slots| ==> AtMost(PosOf(ch, slots[i]), next.cursor);
    if |slots| < chunkSize {
      forall s | Above(ch, s, cursor)
        ensures !Above(ch, s, next.cursor)
      {
        assert s in slots;
      }
      assert forall s :: Above(ch, s, next.cursor) ==> Above(ch, s, cursor);
    }
  }

  // ---- Whole runs ---------------------------------------------------------------------------

  /** The step delivers a noop to `a`'s puller. */
  ghost predicate DeliversNoop(s: Cluster, step: Step) {
    step.byA && step.action.Deliver? && Inflight(s.a.conn) != [] && Inflight(s.a.conn)[0].Noop?
  }

  ghost function NoopsDelivered(c: Config, s: Cluster, steps: seq<Step>): nat
    requires IsRun(c, s, steps)
    decreases |steps|
  {
    if steps == [] then 0
    else (if DeliversNoop(s, steps[0]) then 1 else 0) + NoopsDelivered(c, StepNext(c, s, steps[0]), steps[1..])
  }

  lemma StepCounts(c: Config, s: Cluster, step: Step)
    requires StepEnabled(c, s, step) && NotRestarted(step)
    ensures var v, w := s.a.view, StepNext(c, s, step).a.view;
            && w.noopsReceived == v.noopsReceived + (if DeliversNoop(s, step) then 1 else 0)
            && (w.everCaughtUp <==> v.everCaughtUp || DeliversNoop(s, step))
            && w.entriesApplied - v.entriesApplied == |StepNext(c, s, step).a.acked| - |s.a.acked|
  {
    match step.action
    case Deliver(_) =>
    case Serve(_, _, _) =>
    case _ =>
  }

  /**
   * Over any run, its own restarts aside, a puller is caught up exactly when it was before or a noop
   * was delivered; it counts the noops, and as applied exactly the data frames it acknowledged.
   */
  lemma {:induction false} CaughtUpExact(c: Config, s: Cluster, steps: seq<Step>)
    requires IsRun(c, s, steps) && forall i :: 0 <= i < |steps| ==> NotRestarted(steps[i])
    ensures var v, end := s.a.view, RunEnd(c, s, steps);
            && (end.a.view.everCaughtUp <==> v.everCaughtUp || NoopsDelivered(c, s, steps) > 0)
            && end.a.view.noopsReceived == v.noopsReceived + NoopsDelivered(c, s, steps)
            && end.a.view.entriesApplied - v.entriesApplied == |end.a.acked| - |s.a.acked|
    decreases |steps|
  {
    if steps != [] {
      StepCounts(c, s, steps[0]);
      assert forall i :: 0 <= i < |steps| - 1 ==> steps[1..][i] == steps[i + 1];
      CaughtUpExact(c, StepNext(c, s, steps[0]), steps[1..]);
    }
  }

  /** A fresh puller, or a restarted one, starts out not caught up; from then on it takes a noop. */
  lemma FreshPullerNeedsNoop(c: Config, s: Cluster, steps: seq<Step>, seed: Pos)
    requires s.a.view == INITIAL_VIEW.(watermark := seed)
    requires IsRun(c, s, steps) && forall i :: 0 <= i < |steps| ==> NotRestarted(steps[i])
    ensures RunEnd(c, s, steps).a.view.everCaughtUp <==> NoopsDelivered(c, s, steps) > 0
  {
    CaughtUpExact(c, s, steps);
  }
}
