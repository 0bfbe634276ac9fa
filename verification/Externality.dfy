/** The shaped label's externality term: the future waiting that a plan's added work inflicts, platform by platform. */
module Externality {
  import opened Reals
  import opened Sums
  import opened Wrappers

  /** A platform, by its id. */
  datatype Platform = Platform(id: int)

  /** task id -> (node id, platform id) */
  type Plan = map<nat, (int, Platform)>

  /** The captured state of one dataset, as far as the term needs it. */
  datatype Context = Context(
    platformTypeOf: map<Platform, string>,
    backlogCounts: map<(string, Platform), int>,
    taskTypeNames: seq<string>,
    drain: map<(string, string), real>,
    lam: map<Platform, real>,
    seededBacklog: Option<map<Platform, real>>)
  {
    function DrainOf(taskType: string, pid: Platform): Result<real> {
      if pid !in platformTypeOf then Err
      else if (taskType, platformTypeOf[pid]) !in drain then Err
      else Ok(drain[(taskType, platformTypeOf[pid])])
    }

    /** Seconds that task t adds to the platform it is placed on. */
    function Work(t: nat, pid: Platform): Result<real> {
      if t >= |taskTypeNames| then Err else DrainOf(taskTypeNames[t], pid)
    }

    function Lambda(pid: Platform): real {
      if pid in lam then lam[pid] else 0.0
    }
  }

  function ValueOr(r: Result<real>): real {
    if r.Ok? then r.value else 0.0
  }

  function Lookup(m: map<Platform, real>): Platform -> real {
    pid => if pid in m then m[pid] else 0.0
  }

  // ----- what the dictionaries are meant to hold -----

  function Platforms(plan: Plan): set<Platform> {
    set t | t in plan :: plan[t].1
  }

  ghost predicate Priced(plan: Plan, ctx: Context) {
    forall t | t in plan :: ctx.Work(t, plan[t].1).Ok?
  }

  function WorkOn(plan: Plan, ctx: Context, pid: Platform): nat -> real {
    (t: nat) => if t in plan && plan[t].1 == pid then ValueOr(ctx.Work(t, pid)) else 0.0
  }

  /** A_p(plan) */
  ghost function Added(plan: Plan, ctx: Context): Platform -> real {
    pid => SetSum(plan.Keys, WorkOn(plan, ctx, pid))
  }

  ghost predicate BacklogPriced(ctx: Context) {
    ctx.seededBacklog.Some? ||
    forall q | q in ctx.backlogCounts && ctx.backlogCounts[q] > 0 :: ctx.DrainOf(q.0, q.1).Ok?
  }

  function QueuedOn(ctx: Context, pid: Platform): ((string, Platform)) -> real {
    (q: (string, Platform)) =>
      if q in ctx.backlogCounts && q.1 == pid && ctx.backlogCounts[q] > 0
      then Times(ctx.backlogCounts[q] as real, ValueOr(ctx.DrainOf(q.0, pid)))
      else 0.0
  }

  /** B_p */
  ghost function Backlog(ctx: Context): Platform -> real {
    pid =>
      if ctx.seededBacklog.Some? then Lookup(ctx.seededBacklog.value)(pid)
      else SetSum(ctx.backlogCounts.Keys, QueuedOn(ctx, pid))
  }

  /** The waiting inflicted by a seconds of new work behind b seconds of backlog. */
  function Charge(lam: real, b: real, a: real): real {
    if a <= 0.0 || lam <= 0.0 then 0.0 else 0.5 * lam * ((b + a) * (b + a) - b * b)
  }

  /** What stands before the new work waits for none of it; what comes while it and the backlog are served waits on
      average for half of it, and for all of it behind the backlog. */
  lemma ChargeIs(lam: real, b: real, a: real)
    requires lam >= 0.0 && a >= 0.0
    ensures 2.0 * Charge(lam, b, a) == Times(lam, Times(a, a)) + 2.0 * Times(lam, Times(a, b))
  {
    if lam > 0.0 && a > 0.0 {
      assert (b + a) * (b + a) - b * b == a * a + 2.0 * (a * b);
      assert lam * (a * a + 2.0 * (a * b)) == lam * (a * a) + 2.0 * (lam * (a * b));
    } else if lam == 0.0 {
      assert Times(0.0, Times(a, a)) == 0.0 && Times(0.0, Times(a, b)) == 0.0;
    } else {
      assert Times(lam, Times(0.0, 0.0)) == 0.0 && Times(0.0, b) == 0.0 && Times(lam, 0.0) == 0.0;
    }
  }

  ghost function ChargeOn(ctx: Context, backlog: Platform -> real, added: Platform -> real): Platform -> real {
    pid => Charge(ctx.Lambda(pid), backlog(pid), added(pid))
  }

  /** The externality of a plan on top of any backlog. */
  ghost function ExternalityOn(plan: Plan, ctx: Context, backlog: Platform -> real): real {
    SetSum(Platforms(plan), ChargeOn(ctx, backlog, Added(plan, ctx)))
  }

  // ----- the loops -----

  /** out holds the work of the tasks visited so far, platform by platform. */
  ghost predicate AddedSoFar(out: map<Platform, real>, plan: Plan, ctx: Context, todo: set<nat>) {
    forall pid :: Lookup(out)(pid) == SetSum(plan.Keys - todo, WorkOn(plan, ctx, pid))
  }

  lemma AddedNext(out: map<Platform, real>, plan: Plan, ctx: Context, todo: set<nat>, t: nat)
    requires todo <= plan.Keys && t in todo && AddedSoFar(out, plan, ctx, todo)
    requires ctx.Work(t, plan[t].1).Ok?
    ensures AddedSoFar(out[plan[t].1 := Lookup(out)(plan[t].1) + ctx.Work(t, plan[t].1).value], plan, ctx, todo - {t})
  {
    var done := plan.Keys - todo;
    assert plan.Keys - (todo - {t}) == done + {t};
    forall pid
      ensures SetSum(done + {t}, WorkOn(plan, ctx, pid)) == Lookup(out)(pid) + WorkOn(plan, ctx, pid)(t)
    {
      SetSumAdd(done, t, WorkOn(plan, ctx, pid));
    }
  }

  method AddedSeconds(plan: Plan, ctx: Context) returns (r: Result<map<Platform, real>>)
    ensures r.Ok? <==> Priced(plan, ctx)
    ensures r.Ok? ==> r.value.Keys == Platforms(plan)
    ensures r.Ok? ==> forall pid :: Lookup(r.value)(pid) == Added(plan, ctx)(pid)
  {
    var out: map<Platform, real> := map[];
    var todo := plan.Keys;
    assert plan.Keys - todo == {};
    while todo != {}
      invariant todo <= plan.Keys
      invariant forall t | t in plan && t !in todo :: ctx.Work(t, plan[t].1).Ok?
      invariant out.Keys == set t | t in plan && t !in todo :: plan[t].1
      invariant AddedSoFar(out, plan, ctx, todo)
    {
      var t :| t in todo;
      var pid := plan[t].1;
      var work := ctx.Work(t, pid);
      if work.Err? {
        return Err;
      }
      AddedNext(out, plan, ctx, todo, t);
      out := out[pid := Lookup(out)(pid) + work.value];
      todo := todo - {t};
    }
    assert plan.Keys - todo == plan.Keys;
    return Ok(out);
  }

  lemma QueuedNext(ctx: Context, todo: set<(string, Platform)>, q: (string, Platform), pid: Platform)
    requires todo <= ctx.backlogCounts.Keys && q in todo
    ensures SetSum(ctx.backlogCounts.Keys - (todo - {q}), QueuedOn(ctx, pid))
         == SetSum(ctx.backlogCounts.Keys - todo, QueuedOn(ctx, pid)) + QueuedOn(ctx, pid)(q)
  {
    var done := ctx.backlogCounts.Keys - todo;
    assert ctx.backlogCounts.Keys - (todo - {q}) == done + {q};
    SetSumAdd(done, q, QueuedOn(ctx, pid));
  }

  method BacklogSeconds(ctx: Context) returns (r: Result<map<Platform, real>>)
    ensures r.Ok? <==> BacklogPriced(ctx)
    ensures r.Ok? ==> forall pid :: Lookup(r.value)(pid) == Backlog(ctx)(pid)
  {
    if ctx.seededBacklog.Some? {
      return Ok(ctx.seededBacklog.value);
    }
    hide Times;
    var out: map<Platform, real> := map[];
    var todo := ctx.backlogCounts.Keys;
    while todo != {}
      invariant todo <= ctx.backlogCounts.Keys
      invariant forall q | q in ctx.backlogCounts && q !in todo && ctx.backlogCounts[q] > 0 :: ctx.DrainOf(q.0, q.1).Ok?
      invariant forall pid :: Lookup(out)(pid) == SetSum(ctx.backlogCounts.Keys - todo, QueuedOn(ctx, pid))
    {
      var q :| q in todo;
      var count := ctx.backlogCounts[q];
      ghost var before := out;
      if count > 0 {
        var seconds := ctx.DrainOf(q.0, q.1);
        if seconds.Err? {
          return Err;
        }
        out := out[q.1 := Lookup(out)(q.1) + Times(count as real, seconds.value)];
      }
      forall pid
        ensures Lookup(out)(pid) == SetSum(ctx.backlogCounts.Keys - (todo - {q}), QueuedOn(ctx, pid))
      {
        QueuedNext(ctx, todo, q, pid);
        assert Lookup(before)(pid) == SetSum(ctx.backlogCounts.Keys - todo, QueuedOn(ctx, pid));
      }
      todo := todo - {q};
    }
    assert ctx.backlogCounts.Keys - todo == ctx.backlogCounts.Keys;
    return Ok(out);
  }

  method ExternalitySeconds(plan: Plan, ctx: Context) returns (r: Result<real>)
    ensures r.Ok? <==> Priced(plan, ctx) && BacklogPriced(ctx)
    ensures r.Ok? ==> r.value == ExternalityOn(plan, ctx, Backlog(ctx))
  {
    var backlog := BacklogSeconds(ctx);
    if backlog.Err? {
      return Err;
    }
    var added := AddedSeconds(plan, ctx);
    if added.Err? {
      return Err;
    }
    hide Charge;
    ghost var charge := ChargeOn(ctx, Backlog(ctx), Added(plan, ctx));
    var total := 0.0;
    var todo := added.value.Keys;
    while todo != {}
      invariant todo <= Platforms(plan)
      invariant total + SetSum(todo, charge) == SetSum(Platforms(plan), charge)
    {
      var pid :| pid in todo;
      SetSumRemove(todo, pid, charge);
      assert Lookup(added.value)(pid) == Added(plan, ctx)(pid);
      assert Lookup(backlog.value)(pid) == Backlog(ctx)(pid);
      total := total + Charge(ctx.Lambda(pid), Lookup(backlog.value)(pid), added.value[pid]);
      todo := todo - {pid};
    }
    return Ok(total);
  }

  // ----- laws -----

  /** Work is never negative: measured drains are rejected unless positive, the default clock adds up durations. */
  ghost predicate NonNegativeWork(plan: Plan, ctx: Context) {
    forall t | t in plan :: ValueOr(ctx.Work(t, plan[t].1)) >= 0.0
  }

  ghost predicate TasksDisjoint(p: Plan, q: Plan) {
    forall t | t in p :: t !in q
  }

  function Plus(f: Platform -> real, g: Platform -> real): Platform -> real {
    x => f(x) + g(x)
  }

  lemma AddedNonNegative(plan: Plan, ctx: Context, pid: Platform)
    requires NonNegativeWork(plan, ctx)
    ensures Added(plan, ctx)(pid) >= 0.0
    ensures pid !in Platforms(plan) ==> Added(plan, ctx)(pid) == 0.0
  {
    SetSumNonNegative(plan.Keys, WorkOn(plan, ctx, pid));
  }

  /** The work of two task-disjoint plans adds up. */
  lemma AddedUnion(p: Plan, q: Plan, ctx: Context, pid: Platform)
    requires TasksDisjoint(p, q)
    ensures Added(p + q, ctx)(pid) == Added(p, ctx)(pid) + Added(q, ctx)(pid)
  {
    var both := p + q;
    assert both.Keys == p.Keys + q.Keys;
    SetSumUnion(p.Keys, q.Keys, WorkOn(both, ctx, pid));
    SetSumCongruent(p.Keys, WorkOn(both, ctx, pid), WorkOn(p, ctx, pid));
    SetSumCongruent(q.Keys, WorkOn(both, ctx, pid), WorkOn(q, ctx, pid));
  }

  lemma PlatformsUnion(p: Plan, q: Plan)
    requires TasksDisjoint(p, q)
    ensures Platforms(p + q) == Platforms(p) + Platforms(q)
  {
    forall pid | pid in Platforms(p) + Platforms(q)
      ensures pid in Platforms(p + q)
    {
      if pid in Platforms(p) {
        var t :| t in p && p[t].1 == pid;
        assert t in p + q && (p + q)[t].1 == pid;
      } else {
        var t :| t in q && q[t].1 == pid;
        assert t in p + q && (p + q)[t].1 == pid;
      }
    }
  }

  /** Charging a platform in two steps, the second behind the first, costs the same as at once. */
  lemma ChargeSplits(lam: real, b: real, a1: real, a2: real)
    requires a1 >= 0.0 && a2 >= 0.0
    ensures Charge(lam, b, a1 + a2) == Charge(lam, b, a1) + Charge(lam, b + a1, a2)
  {
    if lam > 0.0 && a1 > 0.0 && a2 > 0.0 {
      var x, y, z := (b + (a1 + a2)) * (b + (a1 + a2)), (b + a1) * (b + a1), b * b;
      assert (b + a1 + a2) * (b + a1 + a2) == x;
      var h := 0.5 * lam;
      assert h * (x - z) == h * (y - z) + h * (x - y);
    } else if lam > 0.0 && a1 == 0.0 {
      assert b + a1 == b && a1 + a2 == a2;
    } else if lam > 0.0 {
      assert a1 + a2 == a1;
    }
  }

  lemma ExternalityPadded(plan: Plan, ctx: Context, backlog: Platform -> real, s: set<Platform>)
    requires NonNegativeWork(plan, ctx) && Platforms(plan) <= s
    ensures ExternalityOn(plan, ctx, backlog) == SetSum(s, ChargeOn(ctx, backlog, Added(plan, ctx)))
  {
    hide Charge;
    forall pid | pid in s && pid !in Platforms(plan)
      ensures ChargeOn(ctx, backlog, Added(plan, ctx))(pid) == 0.0
    {
      AddedNonNegative(plan, ctx, pid);
      ChargeNothing(ctx.Lambda(pid), backlog(pid));
    }
    SetSumPad(Platforms(plan), s, ChargeOn(ctx, backlog, Added(plan, ctx)));
  }

  lemma ChargeNothing(lam: real, b: real)
    ensures Charge(lam, b, 0.0) == 0.0
  {
  }

  lemma CommitOnPlatform(p: Plan, q: Plan, ctx: Context, backlog: Platform -> real, pid: Platform)
    requires TasksDisjoint(p, q)
    requires NonNegativeWork(p, ctx) && NonNegativeWork(q, ctx)
    ensures ChargeOn(ctx, backlog, Added(p + q, ctx))(pid)
         == ChargeOn(ctx, backlog, Added(p, ctx))(pid) + ChargeOn(ctx, Plus(backlog, Added(p, ctx)), Added(q, ctx))(pid)
  {
    hide Charge, Added, NonNegativeWork, TasksDisjoint, Platforms;
    AddedUnion(p, q, ctx, pid);
    AddedNonNegative(p, ctx, pid);
    AddedNonNegative(q, ctx, pid);
    ChargeSplits(ctx.Lambda(pid), backlog(pid), Added(p, ctx)(pid), Added(q, ctx)(pid));
  }

  lemma WorkUnion(p: Plan, q: Plan, ctx: Context)
    requires NonNegativeWork(p, ctx) && NonNegativeWork(q, ctx)
    ensures NonNegativeWork(p + q, ctx)
  {
  }

  /** Committing p and then q behind it costs exactly what committing both at once does. */
  lemma CommitInTwoSteps(p: Plan, q: Plan, ctx: Context, backlog: Platform -> real)
    requires TasksDisjoint(p, q)
    requires NonNegativeWork(p, ctx) && NonNegativeWork(q, ctx)
    ensures ExternalityOn(p + q, ctx, backlog)
         == ExternalityOn(p, ctx, backlog) + ExternalityOn(q, ctx, Plus(backlog, Added(p, ctx)))
  {
    hide ExternalityOn, ChargeOn, Added, Plus, NonNegativeWork, Platforms, TasksDisjoint;
    var s := Platforms(p) + Platforms(q);
    var behind := Plus(backlog, Added(p, ctx));
    PlatformsUnion(p, q);
    WorkUnion(p, q, ctx);
    ExternalityPadded(p + q, ctx, backlog, s);
    ExternalityPadded(p, ctx, backlog, s);
    ExternalityPadded(q, ctx, behind, s);
    forall pid | pid in s
      ensures ChargeOn(ctx, backlog, Added(p + q, ctx))(pid)
           == ChargeOn(ctx, backlog, Added(p, ctx))(pid) + ChargeOn(ctx, behind, Added(q, ctx))(pid)
    {
      CommitOnPlatform(p, q, ctx, backlog, pid);
    }
    SetSumPlus(s, ChargeOn(ctx, backlog, Added(p + q, ctx)),
               ChargeOn(ctx, backlog, Added(p, ctx)), ChargeOn(ctx, behind, Added(q, ctx)));
  }

  /** So the order in which two task-disjoint plans are committed does not matter. */
  lemma CommitOrderIrrelevant(p: Plan, q: Plan, ctx: Context, backlog: Platform -> real)
    requires TasksDisjoint(p, q)
    requires NonNegativeWork(p, ctx) && NonNegativeWork(q, ctx)
    ensures ExternalityOn(p, ctx, backlog) + ExternalityOn(q, ctx, Plus(backlog, Added(p, ctx)))
         == ExternalityOn(q, ctx, backlog) + ExternalityOn(p, ctx, Plus(backlog, Added(q, ctx)))
  {
    assert p + q == q + p;
    assert TasksDisjoint(q, p);
    hide ExternalityOn, Added, Plus, NonNegativeWork, TasksDisjoint;
    CommitInTwoSteps(p, q, ctx, backlog);
    CommitInTwoSteps(q, p, ctx, backlog);
  }

  /** What the second plan pays for standing behind the first: lambda times the product of their work. */
  ghost function Crossing(p: Plan, q: Plan, ctx: Context): Platform -> real {
    pid => CrossCharge(ctx.Lambda(pid), Added(p, ctx)(pid), Added(q, ctx)(pid))
  }

  function CrossCharge(lam: real, a1: real, a2: real): real {
    if a1 <= 0.0 || a2 <= 0.0 || lam <= 0.0 then 0.0 else lam * (a1 * a2)
  }

  lemma ChargeBehind(lam: real, b: real, a1: real, a2: real)
    requires a1 >= 0.0 && a2 >= 0.0
    ensures Charge(lam, b + a1, a2) == Charge(lam, b, a2) + CrossCharge(lam, a1, a2)
  {
    if lam > 0.0 && a2 > 0.0 && a1 > 0.0 {
      assert (b + a1 + a2) * (b + a1 + a2) - (b + a1) * (b + a1)
          == (b + a2) * (b + a2) - b * b + 2.0 * (a1 * a2);
      var d := (b + a2) * (b + a2) - b * b;
      assert 0.5 * lam * (d + 2.0 * (a1 * a2)) == 0.5 * lam * d + lam * (a1 * a2);
    } else if lam > 0.0 && a2 > 0.0 {
      assert b + a1 == b;
    }
  }

  lemma CrossChargeSign(lam: real, a1: real, a2: real)
    ensures CrossCharge(lam, a1, a2) >= 0.0
    ensures CrossCharge(lam, a1, a2) > 0.0 <==> lam > 0.0 && a1 > 0.0 && a2 > 0.0
  {
    if lam > 0.0 && a1 > 0.0 && a2 > 0.0 {
      var product := a1 * a2;
      assert product > 0.0;
      assert lam * product > 0.0;
    }
  }

  /** A platform with arrivals on which both plans put work. */
  ghost predicate Collide(p: Plan, q: Plan, ctx: Context, pid: Platform) {
    ctx.Lambda(pid) > 0.0 && Added(p, ctx)(pid) > 0.0 && Added(q, ctx)(pid) > 0.0
  }

  lemma CrossingSign(p: Plan, q: Plan, ctx: Context, pid: Platform)
    ensures Crossing(p, q, ctx)(pid) >= 0.0
    ensures Crossing(p, q, ctx)(pid) > 0.0 <==> Collide(p, q, ctx, pid)
  {
    hide Added, CrossCharge;
    CrossChargeSign(ctx.Lambda(pid), Added(p, ctx)(pid), Added(q, ctx)(pid));
  }

  lemma StandingBehindOn(p: Plan, q: Plan, ctx: Context, backlog: Platform -> real, pid: Platform)
    requires NonNegativeWork(p, ctx) && NonNegativeWork(q, ctx)
    ensures ChargeOn(ctx, Plus(backlog, Added(p, ctx)), Added(q, ctx))(pid)
         == ChargeOn(ctx, backlog, Added(q, ctx))(pid) + Crossing(p, q, ctx)(pid)
  {
    hide Charge, CrossCharge, Added, NonNegativeWork, Platforms;
    AddedNonNegative(p, ctx, pid);
    AddedNonNegative(q, ctx, pid);
    ChargeBehind(ctx.Lambda(pid), backlog(pid), Added(p, ctx)(pid), Added(q, ctx)(pid));
  }

  lemma StandingBehind(p: Plan, q: Plan, ctx: Context, backlog: Platform -> real)
    requires NonNegativeWork(p, ctx) && NonNegativeWork(q, ctx)
    ensures ExternalityOn(q, ctx, Plus(backlog, Added(p, ctx)))
         == ExternalityOn(q, ctx, backlog) + SetSum(Platforms(q), Crossing(p, q, ctx))
  {
    forall pid | pid in Platforms(q)
      ensures ChargeOn(ctx, Plus(backlog, Added(p, ctx)), Added(q, ctx))(pid)
           == ChargeOn(ctx, backlog, Added(q, ctx))(pid) + Crossing(p, q, ctx)(pid)
    {
      StandingBehindOn(p, q, ctx, backlog, pid);
    }
    hide ChargeOn, Crossing, Added, Plus;
    SetSumPlus(Platforms(q), ChargeOn(ctx, Plus(backlog, Added(p, ctx)), Added(q, ctx)),
               ChargeOn(ctx, backlog, Added(q, ctx)), Crossing(p, q, ctx));
  }

  /** Two plans together cost at least what they cost apart, and more exactly when they meet on some served platform. */
  lemma Superadditive(p: Plan, q: Plan, ctx: Context, backlog: Platform -> real)
    requires TasksDisjoint(p, q)
    requires NonNegativeWork(p, ctx) && NonNegativeWork(q, ctx)
    ensures ExternalityOn(p + q, ctx, backlog) >= ExternalityOn(p, ctx, backlog) + ExternalityOn(q, ctx, backlog)
    ensures ExternalityOn(p + q, ctx, backlog) == ExternalityOn(p, ctx, backlog) + ExternalityOn(q, ctx, backlog)
      <==> forall pid :: !Collide(p, q, ctx, pid)
  {
    CommitInTwoSteps(p, q, ctx, backlog);
    StandingBehind(p, q, ctx, backlog);
    hide ExternalityOn, CrossCharge, Charge, Added, NonNegativeWork, Platforms, TasksDisjoint;
    forall pid
      ensures Crossing(p, q, ctx)(pid) >= 0.0
      ensures Crossing(p, q, ctx)(pid) > 0.0 <==> Collide(p, q, ctx, pid)
    {
      CrossingSign(p, q, ctx, pid);
    }
    forall pid | pid !in Platforms(q)
      ensures !Collide(p, q, ctx, pid)
    {
      AddedNonNegative(q, ctx, pid);
    }
    SetSumNonNegative(Platforms(q), Crossing(p, q, ctx));
  }

  lemma ChargeNonNegative(lam: real, b: real, a: real)
    requires b >= 0.0
    ensures Charge(lam, b, a) >= 0.0
  {
    if a > 0.0 && lam > 0.0 {
      var d := (b + a) * (b + a) - b * b;
      assert d == a * (2.0 * b + a);
      var s := 2.0 * b + a;
      PositiveTimes(a, s);
      PositiveTimes(lam, d);
      assert 0.5 * lam * d == 0.5 * (lam * d);
    }
  }

  /** On top of a real backlog the externality is never negative. */
  lemma ExternalityNonNegative(plan: Plan, ctx: Context, backlog: Platform -> real)
    requires forall pid :: backlog(pid) >= 0.0
    ensures ExternalityOn(plan, ctx, backlog) >= 0.0
  {
    hide Charge;
    forall pid | pid in Platforms(plan)
      ensures ChargeOn(ctx, backlog, Added(plan, ctx))(pid) >= 0.0
    {
      ChargeNonNegative(ctx.Lambda(pid), backlog(pid), Added(plan, ctx)(pid));
    }
    SetSumNonNegative(Platforms(plan), ChargeOn(ctx, backlog, Added(plan, ctx)));
  }
}
