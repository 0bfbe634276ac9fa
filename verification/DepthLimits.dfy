/** For which candidate pools the shortest-queue rule always meets the least total depth, whatever the queues. */
module DepthLimits {
  import opened Balance
  import opened Externality
  import opened NestedPools
  import opened Scheduler

  /** Which pools may come after which within a batch. */
  type Succession = (set<string>, set<string>) -> bool

  /** A batch in arrival order whose pools follow each other as allowed. */
  ghost predicate Arrives(tasks: seq<Task>, may: Succession) {
    forall i, j | 0 <= i < j < |tasks| ::
      tasks[i].traceId < tasks[j].traceId && may(PoolKeys(tasks[i]), PoolKeys(tasks[j]))
  }

  /** No assignment of the tasks to queues of their pools meets less depth than the rule's plan. */
  ghost predicate MeetsLeast(tasks: seq<Task>, cosimIdOf: map<int, nat>)
    requires Ready(tasks, cosimIdOf)
  {
    forall other | Allowed(other, PoolsOf(tasks)) ::
      DepthMet(Pass(tasks, cosimIdOf).run, Start(tasks)) <= DepthMet(other, Start(tasks))
  }

  // ----- tasks with all candidates warm -----

  lemma {:induction false} AllWarm(candidates: seq<Candidate>)
    requires forall c | c in candidates :: c.initialized
    ensures Pool(candidates) == candidates
  {
    if candidates != [] {
      assert candidates[0] in candidates && forall c | c in candidates[1..] :: c in candidates;
      AllWarm(candidates[1..]);
      assert candidates == [candidates[0]] + candidates[1..];
    }
  }

  lemma {:induction false} LengthListed(candidates: seq<Candidate>, k: string, length: int)
    requires Listed(candidates, k)
    requires forall c | c in candidates && c.queueKey == k :: c.queueLength == length
    ensures FirstLength(candidates)(k) == length
  {
    assert candidates == [candidates[0]] + candidates[1..];
    if candidates[0].queueKey != k {
      LengthListed(candidates[1..], k, length);
    }
  }

  /** A task that offers the queues and platforms of a list with the given lengths, all warm. */
  function WarmTask(traceId: int, offers: seq<(string, Platform)>, length: string -> int): Task {
    Task(traceId, seq(|offers|, i requires 0 <= i < |offers| =>
      Candidate(offers[i].0, 0, offers[i].1, length(offers[i].0), true)))
  }

  lemma WarmOffers(traceId: int, offers: seq<(string, Platform)>, length: string -> int)
    ensures var task := WarmTask(traceId, offers, length);
      && PoolKeys(task) == (set o | o in offers :: o.0)
      && Reports(task, length)
      && (forall c | c in task.candidates :: (c.queueKey, c.platform) in offers)
      && (offers != [] ==> task.candidates != [])
  {
    var task := WarmTask(traceId, offers, length);
    AllWarm(task.candidates);
    forall o | o in offers
      ensures o.0 in PoolKeys(task)
    {
      var i :| 0 <= i < |offers| && offers[i] == o;
      assert task.candidates[i] in task.candidates;
    }
  }

  /** Every candidate of the task reports this length for its queue. */
  ghost predicate Reports(task: Task, length: string -> int) {
    forall c | c in task.candidates :: c.queueLength == length(c.queueKey)
  }

  lemma {:induction false} SeenOffers(tasks: seq<Task>, t: Task, c: Candidate)
    ensures c in Seen(tasks) ==> exists s :: s in tasks && c in s.candidates
    ensures t in tasks && c in t.candidates ==> c in Seen(tasks)
  {
    if tasks != [] {
      var front := tasks[..|tasks| - 1];
      assert tasks == front + [tasks[|tasks| - 1]];
      SeenOffers(front, t, c);
    }
  }

  lemma PoolIsListed(tasks: seq<Task>, t: Task, k: string)
    requires t in tasks && k in PoolKeys(t)
    ensures Listed(Seen(tasks), k)
  {
    var c :| c in Pool(t.candidates) && c.queueKey == k;
    SeenOffers(tasks, t, c);
  }

  /** If all tasks report the same lengths, those are the starting depths. */
  lemma StartIsReported(tasks: seq<Task>, length: string -> int, t: Task, k: string)
    requires forall s | s in tasks :: Reports(s, length)
    requires t in tasks && k in PoolKeys(t)
    ensures Start(tasks)(k) == length(k)
  {
    var c :| c in Pool(t.candidates) && c.queueKey == k;
    SeenOffers(tasks, t, c);
    forall d | d in Seen(tasks)
      ensures d.queueLength == length(d.queueKey)
    {
      SeenOffers(tasks, t, d);
    }
    LengthListed(Seen(tasks), k, length(k));
  }

  // ----- the condition -----

  /** A set as a list, in some order. */
  lemma {:induction false} Listing<T>(s: set<T>) returns (l: seq<T>)
    ensures forall x :: x in l <==> x in s
    decreases |s|
  {
    l := [];
    if s != {} {
      var x :| x in s;
      var rest := Listing(s - {x});
      l := rest + [x];
    }
  }

  /** A task with exactly this pool, all of whose candidates report these lengths. */
  ghost predicate IsOffer(task: Task, traceId: int, pool: set<string>, length: string -> int) {
    task.traceId == traceId && task.candidates != [] && PoolKeys(task) == pool && Reports(task, length)
  }

  lemma Offering(traceId: int, pool: set<string>, length: string -> int) returns (task: Task)
    requires pool != {}
    ensures IsOffer(task, traceId, pool, length)
  {
    var k :| k in pool;
    var all := set x | x in pool :: (x, Platform(0));
    var offers := Listing(all);
    assert (k, Platform(0)) in offers;
    WarmOffers(traceId, offers, length);
    task := WarmTask(traceId, offers, length);
    forall x
      ensures x in PoolKeys(task) <==> x in pool
    {
      assert x in pool <==> (x, Platform(0)) in all;
    }
  }

  /** One task for each pool, numbered in order. */
  ghost predicate AreOffers(tasks: seq<Task>, pools: seq<set<string>>, length: string -> int) {
    |tasks| == |pools| && forall i | 0 <= i < |tasks| :: IsOffer(tasks[i], i, pools[i], length)
  }

  lemma {:induction false} OfferAll(pools: seq<set<string>>, length: string -> int) returns (tasks: seq<Task>)
    requires forall i | 0 <= i < |pools| :: pools[i] != {}
    ensures AreOffers(tasks, pools, length)
  {
    tasks := [];
    if pools != [] {
      hide IsOffer;
      var n := |pools| - 1;
      var front := OfferAll(pools[..n], length);
      var last := Offering(n, pools[n], length);
      tasks := front + [last];
    }
  }

  function Numbered(tasks: seq<Task>): map<int, nat> {
    map t | t in tasks && t.traceId >= 0 :: t.traceId := t.traceId
  }

  lemma OffersFit(tasks: seq<Task>, pools: seq<set<string>>, length: string -> int, may: Succession)
    requires AreOffers(tasks, pools, length) && forall i, j | 0 <= i < j < |pools| :: may(pools[i], pools[j])
    ensures Ready(tasks, Numbered(tasks)) && PoolsOf(tasks) == pools && Arrives(tasks, may)
  {
    hide PoolKeys, Reports;
  }

  lemma StartOfOffers(tasks: seq<Task>, pools: seq<set<string>>, length: string -> int)
    requires AreOffers(tasks, pools, length)
    ensures forall i, k | 0 <= i < |pools| && k in pools[i] :: Start(tasks)(k) == length(k)
    ensures Agrees(Start(tasks), Seen(tasks))
  {
    hide PoolKeys, Reports;
    forall i, k | 0 <= i < |pools| && k in pools[i]
      ensures Start(tasks)(k) == length(k)
    {
      assert IsOffer(tasks[i], i, pools[i], length);
      StartIsReported(tasks, length, tasks[i], k);
    }
  }

  /** A pool followed twice by one that overlaps it without taking it in: three warm tasks for which the rule meets more
      depth than necessary. */
  lemma OverlapFails(pools: seq<set<string>>, a: string, b: string, may: Succession)
      returns (tasks: seq<Task>, cosimIdOf: map<int, nat>)
    requires Overlapping(pools, a, b) && forall i, j | 0 <= i < j < |pools| :: may(pools[i], pools[j])
    ensures Ready(tasks, cosimIdOf) && Arrives(tasks, may) && PoolsOf(tasks) == pools
    ensures forall i, k | 0 <= i < |pools| && k in pools[i] :: Start(tasks)(k) == Tempting(a, b)(k)
    ensures DepthMet([b, a, a], Start(tasks)) < DepthMet(Pass(tasks, cosimIdOf).run, Start(tasks))
    ensures !MeetsLeast(tasks, cosimIdOf)
  {
    tasks := OfferAll(pools, Tempting(a, b));
    cosimIdOf := Numbered(tasks);
    hide *;
    OffersFit(tasks, pools, Tempting(a, b), may);
    StartOfOffers(tasks, pools, Tempting(a, b));
    PassIsGreedy(tasks, cosimIdOf, Start(tasks));
    OverlapMisleads(pools, a, b, Start(tasks), Pass(tasks, cosimIdOf).run);
    LessWasPossible(tasks, cosimIdOf, [b, a, a]);
  }

  lemma LessWasPossible(tasks: seq<Task>, cosimIdOf: map<int, nat>, other: seq<string>)
    requires Ready(tasks, cosimIdOf) && Allowed(other, PoolsOf(tasks))
    requires DepthMet(other, Start(tasks)) < DepthMet(Pass(tasks, cosimIdOf).run, Start(tasks))
    ensures !MeetsLeast(tasks, cosimIdOf)
  {
  }

  /** The rule meets the least total depth for every batch and all queue depths exactly when each pool that may follow
      another takes it in or shares nothing with it. A pool that may follow another may also follow itself. */
  lemma RuleMeetsLeastExactly(may: Succession)
    requires forall p, q | may(p, q) :: may(q, q)
    ensures (forall tasks, cosimIdOf | Ready(tasks, cosimIdOf) && Arrives(tasks, may) :: MeetsLeast(tasks, cosimIdOf))
      <==> forall p, q | may(p, q) :: Widens(p, q)
  {
    if forall p, q | may(p, q) :: Widens(p, q) {
      forall tasks, cosimIdOf | Ready(tasks, cosimIdOf) && Arrives(tasks, may)
        ensures MeetsLeast(tasks, cosimIdOf)
      {
        NestedMeetsLeast(tasks, cosimIdOf, may);
      }
    } else {
      var p, q :| may(p, q) && !Widens(p, q);
      var a :| a in p && a in q;
      var b :| b in p && b !in q;
      var tasks, cosimIdOf := OverlapFails([p, q, q], a, b, may);
    }
  }

  lemma NestedMeetsLeast(tasks: seq<Task>, cosimIdOf: map<int, nat>, may: Succession)
    requires forall p, q | may(p, q) :: Widens(p, q)
    requires Ready(tasks, cosimIdOf) && Arrives(tasks, may)
    ensures MeetsLeast(tasks, cosimIdOf)
  {
    hide PoolKeys, Pass, DepthMet, Widens;
    assert Nested(PoolsOf(tasks));
    forall other | Allowed(other, PoolsOf(tasks))
      ensures DepthMet(Pass(tasks, cosimIdOf).run, Start(tasks)) <= DepthMet(other, Start(tasks))
    {
      PlanIsOptimal(tasks, cosimIdOf, other);
    }
  }
}
