/** The plan that the reactive shortest-queue scheduler makes from a snapshot, one task at a time. */
module Scheduler {
  import opened Balance
  import opened Externality
  import opened NestedPools
  import opened Sorting

  datatype Candidate = Candidate(queueKey: string, node: int, platform: Platform, queueLength: int, initialized: bool)

  datatype Task = Task(traceId: int, candidates: seq<Candidate>)

  datatype Outcome = Planned(plan: Plan) | NoCosimId(traceId: int) | NoCandidates(traceId: int)

  type Depths = map<string, int>

  // ----- one task -----

  /** depth.setdefault for every candidate: the first recorded length of a queue stays. */
  function Seed(depth: Depths, candidates: seq<Candidate>): (r: Depths)
    ensures forall k | k in depth :: k in r && r[k] == depth[k]
    ensures forall c | c in candidates :: c.queueKey in r
    decreases candidates
  {
    if candidates == [] then depth
    else
      var c := candidates[0];
      Seed(if c.queueKey in depth then depth else depth[c.queueKey := c.queueLength], candidates[1..])
  }

  function Initialized(candidates: seq<Candidate>): (r: seq<Candidate>)
    ensures forall c | c in r :: c in candidates && c.initialized
  {
    if candidates == [] then []
    else (if candidates[0].initialized then [candidates[0]] else []) + Initialized(candidates[1..])
  }

  /** The warm replicas, or all of them when none is warm. */
  function Pool(candidates: seq<Candidate>): (r: seq<Candidate>)
    ensures forall c | c in r :: c in candidates
    ensures candidates != [] ==> r != []
  {
    var warm := Initialized(candidates);
    if warm != [] then warm else candidates
  }

  lemma {:induction false} InitializedAre(candidates: seq<Candidate>, c: Candidate)
    ensures c in Initialized(candidates) <==> c in candidates && c.initialized
  {
    if candidates != [] {
      InitializedAre(candidates[1..], c);
      assert candidates == [candidates[0]] + candidates[1..];
    }
  }

  /** The rule chooses among the warm candidates if there is one, and among all of them otherwise. */
  lemma PoolIsWarmFirst(candidates: seq<Candidate>, c: Candidate)
    ensures c in Pool(candidates)
      <==> c in candidates && (c.initialized || forall d | d in candidates :: !d.initialized)
  {
    InitializedAre(candidates, c);
    var warm := Initialized(candidates);
    if warm != [] {
      InitializedAre(candidates, warm[0]);
    } else {
      forall d | d in candidates
        ensures !d.initialized
      {
        InitializedAre(candidates, d);
      }
    }
  }

  /** (depth, node id, platform id) of c comes strictly before that of d */
  predicate Before(depth: Depths, c: Candidate, d: Candidate)
    requires c.queueKey in depth && d.queueKey in depth
  {
    var x, y := depth[c.queueKey], depth[d.queueKey];
    x < y || (x == y && (c.node < d.node || (c.node == d.node && c.platform.id < d.platform.id)))
  }

  ghost predicate Minimal(pool: seq<Candidate>, depth: Depths, c: Candidate)
    requires c.queueKey in depth && forall d | d in pool :: d.queueKey in depth
  {
    forall d | d in pool :: !Before(depth, d, c)
  }

  /** min(pool, key = (depth, node id, platform id)): the first least candidate. */
  function Shortest(pool: seq<Candidate>, depth: Depths): (r: Candidate)
    requires pool != [] && forall d | d in pool :: d.queueKey in depth
    ensures r in pool && Minimal(pool, depth, r)
  {
    if |pool| == 1 then pool[0]
    else
      var front, last := pool[..|pool| - 1], pool[|pool| - 1];
      assert forall d | d in pool :: d in front || d == last;
      var best := Shortest(front, depth);
      if Before(depth, last, best) then last else best
  }

  // ----- the whole pass -----

  /** The scheduler's running state: queue depths, the choices in order, and the plan. */
  datatype State = State(depth: Depths, run: seq<string>, plan: Plan)

  ghost predicate Ready(tasks: seq<Task>, cosimIdOf: map<int, nat>) {
    forall t | t in tasks :: t.traceId in cosimIdOf && t.candidates != []
  }

  function Choice(depth: Depths, task: Task): Candidate
    requires task.candidates != []
  {
    Shortest(Pool(task.candidates), Seed(depth, task.candidates))
  }

  function Place(s: State, task: Task, cosimId: nat): State
    requires task.candidates != []
  {
    var c := Choice(s.depth, task);
    var depth := Seed(s.depth, task.candidates);
    State(depth[c.queueKey := depth[c.queueKey] + 1], s.run + [c.queueKey], s.plan[cosimId := (c.node, c.platform)])
  }

  function Pass(tasks: seq<Task>, cosimIdOf: map<int, nat>): State
    requires Ready(tasks, cosimIdOf)
  {
    if tasks == [] then State(map[], [], map[])
    else
      var task := tasks[|tasks| - 1];
      assert task in tasks;
      Place(Pass(tasks[..|tasks| - 1], cosimIdOf), task, cosimIdOf[task.traceId])
  }

  lemma ReadyByTask(tasks: seq<Task>, task: Task, cosimIdOf: map<int, nat>)
    ensures Ready([], cosimIdOf)
    ensures Ready([task], cosimIdOf) <==> task.traceId in cosimIdOf && task.candidates != []
    ensures task in tasks && Ready(tasks, cosimIdOf) ==> Ready([task], cosimIdOf)
  {
    assert task in [task];
  }

  lemma ReadySameTasks(a: seq<Task>, b: seq<Task>, cosimIdOf: map<int, nat>)
    requires forall t :: t in a <==> t in b
    ensures Ready(a, cosimIdOf) <==> Ready(b, cosimIdOf)
  {
  }

  lemma PassNext(front: seq<Task>, task: Task, cosimIdOf: map<int, nat>)
    requires Ready(front, cosimIdOf) && Ready([task], cosimIdOf)
    ensures task.candidates != [] && task.traceId in cosimIdOf && Ready(front + [task], cosimIdOf)
    ensures Pass(front + [task], cosimIdOf) == Place(Pass(front, cosimIdOf), task, cosimIdOf[task.traceId])
    ensures Pass(front + [task], cosimIdOf).run
         == Pass(front, cosimIdOf).run + [Choice(Pass(front, cosimIdOf).depth, task).queueKey]
  {
    assert task in [task];
    assert (front + [task])[..|front|] == front;
  }

  function ByTraceId(): (Task, Task) -> bool {
    (s: Task, t: Task) => s.traceId <= t.traceId
  }

  /** Ascending trace id, which is arrival order. */
  function Arrival(tasks: seq<Task>): (r: seq<Task>)
    ensures multiset(r) == multiset(tasks)
    ensures forall i, j | 0 <= i < j < |r| :: r[i].traceId <= r[j].traceId
  {
    var r := Sort(tasks, ByTraceId());
    assert forall i, j | 0 <= i < j < |r| :: ByTraceId()(r[i], r[j]);
    r
  }

  lemma ArrivalMembers(tasks: seq<Task>)
    ensures forall t :: t in Arrival(tasks) <==> t in tasks
  {
    assert forall t :: t in Arrival(tasks) <==> t in multiset(Arrival(tasks));
  }

  /** The length recorded for queue k the first time it is listed. */
  function FirstLength(candidates: seq<Candidate>): string -> int {
    k => if candidates == [] then 0
         else if candidates[0].queueKey == k then candidates[0].queueLength
         else FirstLength(candidates[1..])(k)
  }

  ghost predicate Listed(candidates: seq<Candidate>, k: string) {
    exists c :: c in candidates && c.queueKey == k
  }

  lemma {:induction false} FirstLengthIsFirst(candidates: seq<Candidate>, k: string) returns (i: nat)
    requires Listed(candidates, k)
    ensures i < |candidates| && candidates[i].queueKey == k && FirstLength(candidates)(k) == candidates[i].queueLength
    ensures forall j | 0 <= j < i :: candidates[j].queueKey != k
  {
    i := 0;
    if candidates[0].queueKey != k {
      assert candidates == [candidates[0]] + candidates[1..];
      var n := FirstLengthIsFirst(candidates[1..], k);
      i := n + 1;
    }
  }

  lemma {:induction false} SeedValue(depth: Depths, candidates: seq<Candidate>, k: string)
    ensures k in Seed(depth, candidates) <==> k in depth || Listed(candidates, k)
    ensures k in Seed(depth, candidates) && k !in depth ==> Seed(depth, candidates)[k] == FirstLength(candidates)(k)
    decreases candidates
  {
    if candidates != [] {
      var c := candidates[0];
      SeedValue(if c.queueKey in depth then depth else depth[c.queueKey := c.queueLength], candidates[1..], k);
      assert candidates == [c] + candidates[1..];
      if c.queueKey == k {
        assert c in candidates;
      }
    }
  }

  /** What the scheduler takes for the depth of queue k: what it knows, or else the first length listed. */
  function Known(depth: Depths, candidates: seq<Candidate>, k: string): int {
    if k in depth then depth[k] else FirstLength(candidates)(k)
  }

  function KnownDepths(depth: Depths, candidates: seq<Candidate>): string -> int {
    k => Known(depth, candidates, k)
  }

  /** (depth, node id, platform id) of c is at most that of d. */
  predicate NotAfter(depthOf: string -> int, c: Candidate, d: Candidate) {
    var x, y := depthOf(c.queueKey), depthOf(d.queueKey);
    x < y || (x == y && (c.node < d.node || (c.node == d.node && c.platform.id <= d.platform.id)))
  }

  /** The candidate is warm if any is, and comes no later than any candidate that is as warm. */
  ghost predicate LeastOf(candidates: seq<Candidate>, depthOf: string -> int, c: Candidate) {
    && c in candidates && (c.initialized || forall d | d in candidates :: !d.initialized)
    && forall d | d in candidates && (d.initialized || !c.initialized) :: NotAfter(depthOf, c, d)
  }

  lemma SeededIsKnown(depth: Depths, candidates: seq<Candidate>)
    ensures forall k :: k in Seed(depth, candidates) <==> k in depth || Listed(candidates, k)
    ensures forall k | k in Seed(depth, candidates) :: Seed(depth, candidates)[k] == Known(depth, candidates, k)
  {
    hide Listed, FirstLength;
    forall k
      ensures k in Seed(depth, candidates) <==> k in depth || Listed(candidates, k)
      ensures k in Seed(depth, candidates) ==> Seed(depth, candidates)[k] == Known(depth, candidates, k)
    {
      SeedValue(depth, candidates, k);
    }
  }

  lemma ChoiceIsLeast(depth: Depths, task: Task)
    requires task.candidates != []
    ensures LeastOf(task.candidates, KnownDepths(depth, task.candidates), Choice(depth, task))
  {
    var seeded, c := Seed(depth, task.candidates), Choice(depth, task);
    assert c in Pool(task.candidates);
    PoolIsWarmFirst(task.candidates, c);
    hide Pool, Shortest, Known, FirstLength, Seed;
    forall d | d in task.candidates && (d.initialized || !c.initialized)
      ensures NotAfter(KnownDepths(depth, task.candidates), c, d)
    {
      PoolIsWarmFirst(task.candidates, d);
      ChoiceNotBehind(depth, task, d);
    }
  }

  lemma ChoiceNotBehind(depth: Depths, task: Task, d: Candidate)
    requires task.candidates != [] && d in Pool(task.candidates)
    ensures NotAfter(KnownDepths(depth, task.candidates), Choice(depth, task), d)
  {
    var seeded, c := Seed(depth, task.candidates), Choice(depth, task);
    assert !Before(seeded, d, c);
    SeedValue(depth, task.candidates, c.queueKey);
    SeedValue(depth, task.candidates, d.queueKey);
  }

  /** The queues after a turn: one deeper for the chosen one, the first recorded length for those listed for the first
      time, as before for all others. */
  ghost predicate OneDeeper(depth: Depths, candidates: seq<Candidate>, chosen: string, next: Depths) {
    && (forall k :: k in next <==> k in depth || Listed(candidates, k))
    && (forall k | k in next :: next[k] == Known(depth, candidates, k) + if k == chosen then 1 else 0)
  }

  lemma TurnDeepens(depth: Depths, candidates: seq<Candidate>, chosen: string)
    requires chosen in Seed(depth, candidates)
    ensures var seeded := Seed(depth, candidates);
      OneDeeper(depth, candidates, chosen, seeded[chosen := seeded[chosen] + 1])
  {
    SeededIsKnown(depth, candidates);
    hide Seed, Known, Listed;
  }

  /** One turn of the loop. If some candidate is warm the chosen one is warm and comes no later than any warm one;
      otherwise it comes no later than any candidate. The plan gains this one entry and the candidate's queue becomes
      one deeper. */
  method PlaceOne(depth: Depths, plan: Plan, task: Task, cosimId: nat, ghost run: seq<string>)
      returns (chosen: Candidate, depth': Depths, plan': Plan)
    requires task.candidates != []
    ensures chosen in task.candidates
    ensures (exists d :: d in task.candidates && d.initialized) ==> chosen.initialized
    ensures forall d | d in task.candidates && (d.initialized || !chosen.initialized) ::
      NotAfter(KnownDepths(depth, task.candidates), chosen, d)
    ensures plan' == plan[cosimId := (chosen.node, chosen.platform)]
    ensures OneDeeper(depth, task.candidates, chosen.queueKey, depth')
    ensures State(depth', run + [chosen.queueKey], plan') == Place(State(depth, run, plan), task, cosimId)
  {
    hide Seed, Shortest, Before, NotAfter, Pool, OneDeeper;
    depth' := Seed(depth, task.candidates);
    chosen := Shortest(Pool(task.candidates), depth');
    ChoiceIsLeast(depth, task);
    TurnDeepens(depth, task.candidates, chosen.queueKey);
    plan' := plan[cosimId := (chosen.node, chosen.platform)];
    depth' := depth'[chosen.queueKey := depth'[chosen.queueKey] + 1];
  }

  lemma PassNone(cosimIdOf: map<int, nat>)
    ensures Ready([], cosimIdOf) && Pass([], cosimIdOf) == State(map[], [], map[])
  {
  }

  // ----- what the depths mean -----

  function Seen(tasks: seq<Task>): seq<Candidate> {
    if tasks == [] then [] else Seen(tasks[..|tasks| - 1]) + tasks[|tasks| - 1].candidates
  }

  lemma {:induction false} FirstLengthAppend(a: seq<Candidate>, b: seq<Candidate>, k: string)
    ensures Listed(a, k) ==> FirstLength(a + b)(k) == FirstLength(a)(k)
    ensures !Listed(a, k) ==> FirstLength(a + b)(k) == FirstLength(b)(k)
    ensures Listed(a + b, k) <==> Listed(a, k) || Listed(b, k)
  {
    if a == [] {
      assert a + b == b;
    } else {
      assert (a + b)[1..] == a[1..] + b;
      FirstLengthAppend(a[1..], b, k);
      assert a[0] in a && a[0] in a + b;
      assert a == [a[0]] + a[1..];
      assert a + b == [a[0]] + (a + b)[1..];
    }
  }

  /** The ledger of queue k: its first recorded length plus the tasks already placed on it. */
  ghost predicate Ledger(s: State, seen: seq<Candidate>, k: string) {
    && (k in s.depth <==> Listed(seen, k))
    && (k in s.depth ==> s.depth[k] == Final(s.run, FirstLength(seen), k))
    && (k !in s.depth ==> Load(s.run, k) == 0)
  }

  lemma LedgerNext(s: State, seen: seq<Candidate>, task: Task, cosimId: nat, k: string)
    requires task.candidates != [] && Ledger(s, seen, k)
    ensures Ledger(Place(s, task, cosimId), seen + task.candidates, k)
  {
    SeedValue(s.depth, task.candidates, k);
    FirstLengthAppend(seen, task.candidates, k);
    hide Seed, FirstLength, Listed, Shortest;
    var next := Place(s, task, cosimId);
    assert next.run[..|next.run| - 1] == s.run;
  }

  /** At every moment the depths are the recorded lengths plus what the scheduler itself has placed. */
  lemma {:induction false} DepthLedger(tasks: seq<Task>, cosimIdOf: map<int, nat>, k: string)
    requires Ready(tasks, cosimIdOf)
    ensures Ledger(Pass(tasks, cosimIdOf), Seen(tasks), k)
    ensures |Pass(tasks, cosimIdOf).run| == |tasks|
  {
    if tasks != [] {
      var front, task := tasks[..|tasks| - 1], tasks[|tasks| - 1];
      assert forall t | t in front :: t in tasks;
      assert task in tasks;
      DepthLedger(front, cosimIdOf, k);
      LedgerNext(Pass(front, cosimIdOf), Seen(front), task, cosimIdOf[task.traceId], k);
    }
  }

  // ----- the run is greedy -----

  /** The queues of the warm candidates, or of all when none is warm. */
  function PoolKeys(task: Task): set<string> {
    set c | c in Pool(task.candidates) :: c.queueKey
  }

  function PoolsOf(tasks: seq<Task>): seq<set<string>> {
    seq(|tasks|, i requires 0 <= i < |tasks| => PoolKeys(tasks[i]))
  }

  /** The chosen queue is a shallowest one of the pool, by the depths at that moment. */
  lemma ChoiceIsShallowest(depth: Depths, task: Task)
    requires task.candidates != []
    ensures var seeded := Seed(depth, task.candidates);
      var k := Choice(depth, task).queueKey;
      k in PoolKeys(task) && forall j | j in PoolKeys(task) :: j in seeded && seeded[k] <= seeded[j]
  {
    var seeded := Seed(depth, task.candidates);
    var c := Choice(depth, task);
    forall j | j in PoolKeys(task)
      ensures j in seeded && seeded[c.queueKey] <= seeded[j]
    {
      var d :| d in Pool(task.candidates) && d.queueKey == j;
      assert !Before(seeded, d, c);
    }
  }

  /** Starting depths: the lengths recorded when a queue is first listed. */
  function Start(tasks: seq<Task>): string -> int {
    FirstLength(Seen(tasks))
  }

  /** base holds the first recorded length of every queue listed so far. */
  ghost predicate Agrees(base: string -> int, seen: seq<Candidate>) {
    forall k | Listed(seen, k) :: base(k) == FirstLength(seen)(k)
  }

  lemma StartAgrees(tasks: seq<Task>)
    ensures Agrees(Start(tasks), Seen(tasks))
  {
  }

  lemma AgreesBefore(base: string -> int, seen: seq<Candidate>, more: seq<Candidate>)
    requires Agrees(base, seen + more)
    ensures Agrees(base, seen)
  {
    hide Listed, FirstLength;
    forall k | Listed(seen, k)
      ensures base(k) == FirstLength(seen)(k)
    {
      FirstLengthAppend(seen, more, k);
    }
  }

  /** After listing the queues offered their depths are again first recorded length plus placements. */
  lemma SeededDepth(s: State, seen: seq<Candidate>, task: Task, j: string)
    requires Ledger(s, seen, j) && Listed(task.candidates, j)
    ensures j in Seed(s.depth, task.candidates)
    ensures Seed(s.depth, task.candidates)[j] == Final(s.run, FirstLength(seen + task.candidates), j)
    ensures Listed(seen + task.candidates, j)
  {
    hide Seed, FirstLength, Listed;
    SeedValue(s.depth, task.candidates, j);
    FirstLengthAppend(seen, task.candidates, j);
  }

  lemma PoolListed(task: Task, j: string)
    requires j in PoolKeys(task)
    ensures Listed(task.candidates, j)
  {
    var c :| c in Pool(task.candidates) && c.queueKey == j;
    assert c in task.candidates;
  }

  lemma SeenNext(front: seq<Task>, task: Task)
    ensures Seen(front + [task]) == Seen(front) + task.candidates
    ensures PoolsOf(front + [task]) == PoolsOf(front) + [PoolKeys(task)]
  {
    assert (front + [task])[..|front|] == front;
  }

  lemma NextIsGreedy(front: seq<Task>, task: Task, cosimIdOf: map<int, nat>, base: string -> int)
    requires Ready(front, cosimIdOf) && task.candidates != [] && Agrees(base, Seen(front) + task.candidates)
    requires Greedy(Pass(front, cosimIdOf).run, PoolsOf(front), base)
    ensures var s := Pass(front, cosimIdOf);
      Greedy(s.run + [Choice(s.depth, task).queueKey], PoolsOf(front + [task]), base)
  {
    var s := Pass(front, cosimIdOf);
    var k := Choice(s.depth, task).queueKey;
    hide Choice, Pass, PoolKeys, Seed, Seen, Greedy, PoolsOf, FirstLength, Listed, Ready;
    ChoiceIsShallowest(s.depth, task);
    forall j | j in PoolKeys(task)
      ensures j in Seed(s.depth, task.candidates) && Seed(s.depth, task.candidates)[j] == Final(s.run, base, j)
    {
      PoolListed(task, j);
      DepthLedger(front, cosimIdOf, j);
      SeededDepth(s, Seen(front), task, j);
    }
    GreedyNext(s.run, PoolsOf(front), base, k, PoolKeys(task));
    SeenNext(front, task);
  }

  lemma SplitLast(front: seq<Task>, task: Task, cosimIdOf: map<int, nat>)
    requires Ready(front + [task], cosimIdOf)
    ensures Ready(front, cosimIdOf) && Ready([task], cosimIdOf) && task.candidates != []
  {
    assert forall t | t in front :: t in front + [task];
    assert task in front + [task];
  }

  /** Every task goes to a queue of its own pool that is shallowest at its turn, in recorded lengths plus placements. */
  lemma {:induction false} PassIsGreedy(tasks: seq<Task>, cosimIdOf: map<int, nat>, base: string -> int)
    requires Ready(tasks, cosimIdOf) && Agrees(base, Seen(tasks))
    ensures Greedy(Pass(tasks, cosimIdOf).run, PoolsOf(tasks), base)
  {
    if tasks != [] {
      hide Choice, Place, Pass, PoolKeys, PoolsOf, Ready, Greedy, Agrees, Seen;
      var front, task := tasks[..|tasks| - 1], tasks[|tasks| - 1];
      assert tasks == front + [task];
      SplitLast(front, task, cosimIdOf);
      SeenNext(front, task);
      AgreesBefore(base, Seen(front), task.candidates);
      PassIsGreedy(front, cosimIdOf, base);
      NextIsGreedy(front, task, cosimIdOf, base);
      PassNext(front, task, cosimIdOf);
    }
  }

  // ----- what the plan holds -----

  function CosimIds(tasks: seq<Task>, cosimIdOf: map<int, nat>): (ids: seq<nat>)
    requires Ready(tasks, cosimIdOf)
    ensures |ids| == |tasks| && forall i | 0 <= i < |ids| :: ids[i] == cosimIdOf[tasks[i].traceId]
  {
    seq(|tasks|, i requires 0 <= i < |tasks| => assert tasks[i] in tasks; cosimIdOf[tasks[i].traceId])
  }

  function DepthsAfter(base: string -> int, run: seq<string>): string -> int {
    k => Final(run, base, k)
  }

  /** Entry i of the plan is the least candidate of task i, by the depths that the earlier tasks leave. */
  ghost predicate TakesLeast(task: Task, id: nat, i: nat, base: string -> int, run: seq<string>, plan: Plan)
    requires i < |run|
  {
    exists c ::
      && LeastOf(task.candidates, DepthsAfter(base, run[..i]), c)
      && run[i] == c.queueKey && id in plan && plan[id] == (c.node, c.platform)
  }

  ghost predicate EachTakesLeast(tasks: seq<Task>, ids: seq<nat>, base: string -> int, run: seq<string>, plan: Plan) {
    && |run| == |ids| == |tasks|
    && forall i | 0 <= i < |tasks| :: TakesLeast(tasks[i], ids[i], i, base, run, plan)
  }

  lemma LeastSameDepths(candidates: seq<Candidate>, f: string -> int, g: string -> int, c: Candidate)
    requires LeastOf(candidates, f, c) && forall k | Listed(candidates, k) :: f(k) == g(k)
    ensures LeastOf(candidates, g, c)
  {
    assert Listed(candidates, c.queueKey);
    forall d | d in candidates && (d.initialized || !c.initialized)
      ensures NotAfter(g, c, d)
    {
      assert Listed(candidates, d.queueKey) && NotAfter(f, c, d);
    }
  }

  /** What the scheduler knows about the queues offered is recorded length plus placements. */
  lemma KnownIsFinal(front: seq<Task>, task: Task, cosimIdOf: map<int, nat>, base: string -> int, k: string)
    requires Ready(front, cosimIdOf) && Agrees(base, Seen(front) + task.candidates) && Listed(task.candidates, k)
    ensures KnownDepths(Pass(front, cosimIdOf).depth, task.candidates)(k)
         == DepthsAfter(base, Pass(front, cosimIdOf).run)(k)
  {
    hide Pass, Seed, Seen, FirstLength, Listed;
    var s := Pass(front, cosimIdOf);
    DepthLedger(front, cosimIdOf, k);
    SeededDepth(s, Seen(front), task, k);
    SeedValue(s.depth, task.candidates, k);
  }

  lemma NextTakesLeast(front: seq<Task>, task: Task, cosimIdOf: map<int, nat>, base: string -> int, id: nat)
    requires Ready(front, cosimIdOf) && task.candidates != [] && Agrees(base, Seen(front) + task.candidates)
    requires |Pass(front, cosimIdOf).run| == |front|
    ensures var s := Place(Pass(front, cosimIdOf), task, id);
      |s.run| == |front| + 1 && TakesLeast(task, id, |front|, base, s.run, s.plan)
  {
    var was := Pass(front, cosimIdOf);
    var c, s := Choice(was.depth, task), Place(was, task, id);
    hide Pass, Choice, Seed, Seen, FirstLength, Listed, LeastOf;
    ChoiceIsLeast(was.depth, task);
    forall k | Listed(task.candidates, k)
      ensures KnownDepths(was.depth, task.candidates)(k) == DepthsAfter(base, was.run)(k)
    {
      KnownIsFinal(front, task, cosimIdOf, base, k);
    }
    LeastSameDepths(task.candidates, KnownDepths(was.depth, task.candidates), DepthsAfter(base, was.run), c);
    assert s.run[..|front|] == was.run;
  }

  lemma StillTakesLeast(task: Task, id: nat, i: nat, base: string -> int, s: State, k: string, other: nat,
                        place: (int, Platform))
    requires i < |s.run| && TakesLeast(task, id, i, base, s.run, s.plan) && id != other
    ensures TakesLeast(task, id, i, base, s.run + [k], s.plan[other := place])
  {
    hide LeastOf;
    assert (s.run + [k])[..i] == s.run[..i];
  }

  lemma EachTakesNext(front: seq<Task>, before: seq<nat>, base: string -> int, was: State, task: Task, id: nat,
                      k: string, place: (int, Platform))
    requires EachTakesLeast(front, before, base, was.run, was.plan) && id !in before
    requires TakesLeast(task, id, |front|, base, was.run + [k], was.plan[id := place])
    ensures EachTakesLeast(front + [task], before + [id], base, was.run + [k], was.plan[id := place])
  {
    hide TakesLeast;
    var tasks, ids := front + [task], before + [id];
    forall i | 0 <= i < |tasks|
      ensures TakesLeast(tasks[i], ids[i], i, base, was.run + [k], was.plan[id := place])
    {
      if i < |front| {
        assert before[i] in before;
        StillTakesLeast(front[i], before[i], i, base, was, k, id, place);
      }
    }
  }

  /** Over the whole batch: every entry is a warm candidate if its task has one, and no candidate as warm has a smaller
      (depth, node id, platform id), where depth is the first recorded length plus the placements of earlier tasks. */
  lemma {:induction false} PlanTakesLeast(tasks: seq<Task>, cosimIdOf: map<int, nat>, base: string -> int)
    requires Ready(tasks, cosimIdOf) && Agrees(base, Seen(tasks))
    requires AllDifferent(CosimIds(tasks, cosimIdOf))
    ensures var s := Pass(tasks, cosimIdOf);
      EachTakesLeast(tasks, CosimIds(tasks, cosimIdOf), base, s.run, s.plan)
  {
    if tasks != [] {
      var n := |tasks| - 1;
      var front, task := tasks[..n], tasks[n];
      assert tasks == front + [task];
      SplitLast(front, task, cosimIdOf);
      IdsNext(front, task, cosimIdOf);
      var before, id := CosimIds(front, cosimIdOf), cosimIdOf[task.traceId];
      DifferentFront(before, id);
      hide *;
      SeenNext(front, task);
      AgreesBefore(base, Seen(front), task.candidates);
      PlanTakesLeast(front, cosimIdOf, base);
      var was, c := Pass(front, cosimIdOf), Choice(Pass(front, cosimIdOf).depth, task);
      DepthLedger(front, cosimIdOf, "");
      NextTakesLeast(front, task, cosimIdOf, base, id);
      PassNext(front, task, cosimIdOf);
      EachTakesNext(front, before, base, was, task, id, c.queueKey, (c.node, c.platform));
    }
  }

  ghost predicate AllDifferent(ids: seq<nat>) {
    forall i, j | 0 <= i < j < |ids| :: ids[i] != ids[j]
  }

  lemma DifferentFront(before: seq<nat>, id: nat)
    requires AllDifferent(before + [id])
    ensures AllDifferent(before) && id !in before
  {
    var ids := before + [id];
    assert forall i | 0 <= i < |before| :: ids[i] == before[i] && ids[i] != ids[|before|];
  }

  lemma IdsNext(front: seq<Task>, task: Task, cosimIdOf: map<int, nat>)
    requires Ready(front + [task], cosimIdOf) && Ready(front, cosimIdOf) && task.traceId in cosimIdOf
    ensures CosimIds(front + [task], cosimIdOf) == CosimIds(front, cosimIdOf) + [cosimIdOf[task.traceId]]
  {
    hide Ready;
  }

  /** The plan in ascending trace id, or an error that names a task that lacks a co-sim id or candidates. */
  method ShortestQueuePlan(tasks: seq<Task>, cosimIdOf: map<int, nat>) returns (r: Outcome)
    ensures r.Planned? <==> Ready(tasks, cosimIdOf)
    ensures r.Planned? ==> Ready(Arrival(tasks), cosimIdOf) && r.plan == Pass(Arrival(tasks), cosimIdOf).plan
    ensures r.Planned? && AllDifferent(CosimIds(Arrival(tasks), cosimIdOf)) ==>
      var order := Arrival(tasks);
      exists run :: EachTakesLeast(order, CosimIds(order, cosimIdOf), Start(order), run, r.plan)
    ensures r.NoCosimId? ==> r.traceId !in cosimIdOf
    ensures !r.Planned? ==> exists t :: t in tasks && t.traceId == r.traceId && !Ready([t], cosimIdOf)
  {
    hide Seed, Shortest, Pool, Pass, Place, Choice, Ready, Arrival, EachTakesLeast, Start, AllDifferent, CosimIds;
    var order := Arrival(tasks);
    ArrivalMembers(tasks);
    ReadySameTasks(tasks, order, cosimIdOf);
    var depth: Depths := map[];
    var plan: Plan := map[];
    PassNone(cosimIdOf);
    for i := 0 to |order|
      invariant Ready(order[..i], cosimIdOf)
      invariant depth == Pass(order[..i], cosimIdOf).depth
      invariant plan == Pass(order[..i], cosimIdOf).plan
    {
      var task := order[i];
      assert task in order;
      ReadyByTask(tasks, task, cosimIdOf);
      if task.traceId !in cosimIdOf {
        return NoCosimId(task.traceId);
      }
      if task.candidates == [] {
        return NoCandidates(task.traceId);
      }
      PassNext(order[..i], task, cosimIdOf);
      var _, depth', plan' := PlaceOne(depth, plan, task, cosimIdOf[task.traceId], Pass(order[..i], cosimIdOf).run);
      depth, plan := depth', plan';
      assert order[..i + 1] == order[..i] + [task];
    }
    assert order[..|order|] == order;
    if AllDifferent(CosimIds(order, cosimIdOf)) {
      StartAgrees(order);
      PlanTakesLeast(order, cosimIdOf, Start(order));
    }
    return Planned(plan);
  }

  // ----- what the plan is worth -----

  ghost predicate SharedPool(tasks: seq<Task>, pool: set<string>) {
    forall t | t in tasks :: PoolKeys(t) == pool
  }

  /** With one pool for all tasks, every queue that received a task ends at most one above every other queue. */
  lemma PlanIsLevel(tasks: seq<Task>, cosimIdOf: map<int, nat>, pool: set<string>)
    requires Ready(tasks, cosimIdOf) && SharedPool(tasks, pool)
    ensures Within(Pass(tasks, cosimIdOf).run, pool)
    ensures Level(Pass(tasks, cosimIdOf).run, Start(tasks), pool)
  {
    hide Pass, PoolKeys, Level, Ready;
    PassIsGreedy(tasks, cosimIdOf, Start(tasks));
    GreedyIsLevel(Pass(tasks, cosimIdOf).run, PoolsOf(tasks), Start(tasks), pool);
    AllowedIsWithin(Pass(tasks, cosimIdOf).run, PoolsOf(tasks), pool);
  }

  /** Where every later pool takes in an earlier one or shares nothing with it, the plan meets the least total queue
      depth of all assignments of the tasks to queues of their pools. */
  lemma PlanIsOptimal(tasks: seq<Task>, cosimIdOf: map<int, nat>, other: seq<string>)
    requires Ready(tasks, cosimIdOf) && Nested(PoolsOf(tasks)) && Allowed(other, PoolsOf(tasks))
    ensures DepthMet(Pass(tasks, cosimIdOf).run, Start(tasks)) <= DepthMet(other, Start(tasks))
  {
    hide Pass, PoolKeys, PoolsOf, Greedy, Ready, Nested, Allowed, DepthMet;
    PassIsGreedy(tasks, cosimIdOf, Start(tasks));
    GreedyMeetsLeast(Pass(tasks, cosimIdOf).run, PoolsOf(tasks), other, Start(tasks));
  }

  /** One pool for all is such a case. */
  lemma SharedIsNested(tasks: seq<Task>, pool: set<string>)
    requires SharedPool(tasks, pool)
    ensures Nested(PoolsOf(tasks))
  {
    hide PoolKeys;
  }
}
