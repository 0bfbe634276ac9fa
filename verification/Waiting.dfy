/** Task records, and the time that one task queues while another is served. */
module Waiting {
  import opened Sums
  import opened Wrappers

  /** One task record. A missing `scheduledTime` is kept apart from time 0, as the scripts do in one place. */
  datatype Record = Record(taskId: int, node: Option<string>, platform: Option<string>,
                           scheduled: Option<real>, arrived: real, done: real, queued: real)
  {
    /** _num(rec, "scheduledTime") */
    function Scheduled(): real {
      if scheduled.Some? then scheduled.value else 0.0
    }

    /** The key of the per-task read: none without a node and a platform. */
    function Key(): Option<string> {
      if node.None? || node.value == "" || platform.None? || platform.value == "" then None
      else Some(node.value + ":" + platform.value)
    }

    /** The key of the externality read, which prints whatever is there. */
    function PrintedKey(): string {
      Printed(node) + ":" + Printed(platform)
    }
  }

  function Printed(s: Option<string>): string {
    if s.Some? then s.value else "None"
  }

  /** How long two intervals run together. */
  function Overlap(a0: real, a1: real, b0: real, b1: real): real {
    var lo, hi := if a0 < b0 then b0 else a0, if b1 < a1 then b1 else a1;
    if hi - lo > 0.0 then hi - lo else 0.0
  }

  /** Overlap is the length shared: an interval shares all of itself, splitting either one splits what is shared, and
      intervals apart share nothing. */
  lemma OverlapIsLength(a0: real, a1: real, b0: real, b1: real, c: real)
    requires a0 <= a1 && b0 <= c <= b1
    ensures Overlap(a0, a1, a0, a1) == a1 - a0
    ensures Overlap(a0, a1, b0, b1) == Overlap(b0, b1, a0, a1)
    ensures Overlap(a0, a1, b0, b1) == Overlap(a0, a1, b0, c) + Overlap(a0, a1, c, b1)
    ensures Overlap(a0, a1, b0, b1) > 0.0 <==> (a0 < b1 && b0 < a1 && a0 < a1 && b0 < b1)
  {
  }

  /** The time r queued while p was being served. */
  function Wait(p: Record, r: Record): real {
    Overlap(p.arrived, p.done, r.Scheduled(), r.arrived)
  }

  predicate SameBatch(p: Record, r: Record) {
    p.scheduled.Some? && p.Scheduled() == r.Scheduled()
  }

  // ----- waiting, pair by pair -----

  function SameKey(p: Record, r: Record): bool {
    p.Key().Some? && p.Key() == r.Key()
  }

  /** Behind any task of the same platform. */
  function AnyPair(p: Record, r: Record): real {
    if SameKey(p, r) then Wait(p, r) else 0.0
  }

  /** Behind a task committed by the same decode. */
  function BatchPair(p: Record, r: Record): real {
    if SameKey(p, r) && SameBatch(p, r) then Wait(p, r) else 0.0
  }

  /** Behind a task of an earlier commit. */
  function EarlierPair(p: Record, r: Record): real {
    if SameKey(p, r) && p.Scheduled() < r.Scheduled() then Wait(p, r) else 0.0
  }

  /** Behind a task that was never scheduled, when both read as time 0. */
  function UnscheduledPair(p: Record, r: Record): real {
    if SameKey(p, r) && p.scheduled.None? && p.Scheduled() == r.Scheduled() then Wait(p, r) else 0.0
  }

  /** Behind a task of a later commit that was served first. */
  function LaterPair(p: Record, r: Record): real {
    if SameKey(p, r) && p.Scheduled() > r.Scheduled() then Wait(p, r) else 0.0
  }

  /** Behind a task that no decode committed together with r. */
  function OtherPair(p: Record, r: Record): real {
    if SameKey(p, r) && !SameBatch(p, r) then Wait(p, r) else 0.0
  }

  /** All waiting outside the own batch is behind an earlier commit, behind a task that was never scheduled, or behind a
      later commit. */
  lemma WaitingSplits(recs: seq<Record>)
    ensures DoubleSum(recs, recs, OtherPair)
         == DoubleSum(recs, recs, EarlierPair) + DoubleSum(recs, recs, UnscheduledPair)
          + DoubleSum(recs, recs, LaterPair)
  {
    var notLater := (p: Record, r: Record) => EarlierPair(p, r) + UnscheduledPair(p, r);
    DoubleSumPlus(recs, recs, notLater, EarlierPair, UnscheduledPair);
    DoubleSumPlus(recs, recs, OtherPair, notLater, LaterPair);
  }

  /** First come, first served: what is committed later does not start earlier. */
  ghost predicate FirstCome(recs: seq<Record>) {
    forall p, r | p in recs && r in recs && SameKey(p, r) && p.Scheduled() > r.Scheduled() :: p.arrived >= r.arrived
  }

  lemma NoWaitBehindLaterStart(p: Record, r: Record)
    requires p.arrived >= r.arrived
    ensures Wait(p, r) == 0.0
  {
  }

  ghost predicate NoneWait(recs: seq<Record>, pair: (Record, Record) -> real) {
    forall p, r | p in recs && r in recs :: pair(p, r) == 0.0
  }

  /** On first-come platforms nothing waits behind a later commit. */
  lemma FirstComeNoneLater(recs: seq<Record>)
    requires FirstCome(recs)
    ensures NoneWait(recs, LaterPair)
  {
    forall p, r | p in recs && r in recs
      ensures LaterPair(p, r) == 0.0
    {
      if SameKey(p, r) && p.Scheduled() > r.Scheduled() {
        NoWaitBehindLaterStart(p, r);
      }
    }
  }
}
