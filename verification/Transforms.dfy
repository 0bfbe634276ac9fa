/** Any sequence of surges and jitters, from a workload in good order. */
module Transforms {
  import Jitter
  import Surge
  import opened Timeline

  datatype Step = Surge(switch: real, k: real) | Jitter(u: nat -> real)

  ghost predicate Proper(step: Step) {
    match step
    case Surge(_, k) => k >= 1.0
    case Jitter(u) => Jitter.Stream(u)
  }

  datatype Run = Done(events: seq<Event>) | Failed

  /** One transform with the checks it makes; surge compresses, jitter shifts with the default cap. */
  ghost function Apply(ev: seq<Event>, step: Step): Run {
    match step
    case Surge(switch, k) =>
      if k < 1.0 || !Sorted(Surge.Moved(ev, switch, k)) then Failed else Done(Surge.Moved(ev, switch, k))
    case Jitter(u) =>
      if !Jitter.JitterKeepsOrder(ev, u) then Failed else Done(Jitter.Move(ev, u, Jitter.CAP, Jitter.GAP_FRAC))
  }

  ghost function ApplyAll(ev: seq<Event>, steps: seq<Step>): Run
    decreases |steps|
  {
    if steps == [] then Done(ev)
    else
      var r := Apply(ev, steps[0]);
      if r.Failed? then Failed else ApplyAll(r.events, steps[1..])
  }

  lemma StepStaysOrderly(ev: seq<Event>, step: Step)
    requires Orderly(ev) && Proper(step)
    ensures Apply(ev, step).Done? && Orderly(Apply(ev, step).events) && SameGroups(Apply(ev, step).events, ev)
  {
    match step
    case Surge(switch, k) => Surge.SurgeOrderly(ev, switch, k);
    case Jitter(u) => Jitter.JitterOrderly(ev, u, Jitter.CAP, Jitter.GAP_FRAC);
  }

  /** None of the fail-loud checks can fire along the way, and the events keep their order and their groups. */
  lemma {:induction false} RunsStayOrderly(ev: seq<Event>, steps: seq<Step>)
    requires Orderly(ev) && forall i | 0 <= i < |steps| :: Proper(steps[i])
    ensures ApplyAll(ev, steps).Done?
    ensures Orderly(ApplyAll(ev, steps).events) && SameGroups(ApplyAll(ev, steps).events, ev)
    decreases |steps|
  {
    if steps != [] {
      hide Apply, Orderly, Proper;
      StepStaysOrderly(ev, steps[0]);
      RunsStayOrderly(Apply(ev, steps[0]).events, steps[1..]);
    }
  }
}
