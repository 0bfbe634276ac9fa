/** The min-marginal greedy plan over a table of measured plans, and what its regret can tell. */
module MinMarginal {
  import opened Reals
  import opened Wrappers

  /** A node and a platform on it. */
  datatype Placement = Placement(node: int, platform: int)

  type Plan = map<nat, Placement>

  datatype Row = Row(plan: Plan, rtt: real)

  /** The dictionary from plans to response times: its items in insertion order. */
  type Table = seq<Row>

  ghost predicate Keyed(table: Table) {
    forall i, j | 0 <= i < j < |table| :: table[i].plan != table[j].plan
  }

  // ----- load_lut: the best response time of every plan -----

  function Lookup(table: Table, plan: Plan): Option<real> {
    if table == [] then None
    else if table[|table| - 1].plan == plan then Some(table[|table| - 1].rtt)
    else Lookup(table[..|table| - 1], plan)
  }

  /** One line of the file: None if it is blank, broken or without a plan or a response time. */
  type Line = Option<Row>

  /** The least response time recorded for the plan. */
  function Least(lines: seq<Line>, plan: Plan): Option<real> {
    if lines == [] then None
    else
      var sofar, last := Least(lines[..|lines| - 1], plan), lines[|lines| - 1];
      if last.None? then sofar else Better(sofar, last.value, plan)
  }

  function Better(sofar: Option<real>, r: Row, plan: Plan): Option<real> {
    if r.plan == plan && (sofar.None? || r.rtt < sofar.value) then Some(r.rtt) else sofar
  }

  /** It is the response time of some usable line with the plan, and no such line has less; there is none exactly if no
      usable line has the plan. */
  lemma {:induction false} LeastIsLeast(lines: seq<Line>, plan: Plan)
    ensures Least(lines, plan).None? <==> forall i | 0 <= i < |lines| && lines[i].Some? :: lines[i].value.plan != plan
    ensures Least(lines, plan).Some? ==>
      && (exists i :: 0 <= i < |lines| && lines[i] == Some(Row(plan, Least(lines, plan).value)))
      && forall i | 0 <= i < |lines| && lines[i].Some? && lines[i].value.plan == plan ::
           Least(lines, plan).value <= lines[i].value.rtt
  {
    if lines != [] {
      var n := |lines| - 1;
      var front, last := lines[..n], lines[n];
      LeastIsLeast(front, plan);
      assert forall i | 0 <= i < n :: front[i] == lines[i];
      var was, now := Least(front, plan), Least(lines, plan);
      if was.Some? && now == was {
        var i :| 0 <= i < |front| && front[i] == Some(Row(plan, was.value));
        assert lines[i] == Some(Row(plan, now.value));
      } else if now.Some? {
        assert lines[n] == Some(Row(plan, now.value));
      }
    }
  }

  lemma {:induction false} LookupRow(table: Table, plan: Plan) returns (i: nat)
    ensures Lookup(table, plan).None? ==> forall j | 0 <= j < |table| :: table[j].plan != plan
    ensures Lookup(table, plan).Some? ==> i < |table| && table[i] == Row(plan, Lookup(table, plan).value)
  {
    i := 0;
    if table != [] {
      var front := table[..|table| - 1];
      if table[|table| - 1].plan == plan {
        i := |table| - 1;
      } else {
        i := LookupRow(front, plan);
        assert forall j | 0 <= j < |front| :: table[j] == front[j];
      }
    }
  }

  lemma {:induction false} LookupAt(table: Table, i: nat)
    requires Keyed(table) && i < |table|
    ensures Lookup(table, table[i].plan) == Some(table[i].rtt)
  {
    if i < |table| - 1 {
      LookupAt(table[..|table| - 1], i);
    }
  }

  /** None exactly for a file without a usable line. */
  method LoadTable(lines: seq<Line>) returns (r: Option<Table>)
    ensures r.None? <==> forall i | 0 <= i < |lines| :: lines[i].None?
    ensures r.Some? ==> Keyed(r.value) && r.value != []
    ensures r.Some? ==> forall plan :: Lookup(r.value, plan) == Least(lines, plan)
  {
    var table: Table := [];
    for i := 0 to |lines|
      invariant Keyed(table)
      invariant table == [] <==> forall j | 0 <= j < i :: lines[j].None?
      invariant forall plan :: Lookup(table, plan) == Least(lines[..i], plan)
    {
      assert lines[..i + 1][..i] == lines[..i];
      if lines[i].None? {
        continue;
      }
      table := AddRecord(table, lines[i].value);
    }
    assert lines[..|lines|] == lines;
    return if table == [] then None else Some(table);
  }

  /** if key not in lut or rt < lut[key]: lut[key] = rt */
  method AddRecord(table: Table, r: Row) returns (out: Table)
    requires Keyed(table)
    ensures Keyed(out) && out != []
    ensures forall plan :: Lookup(out, plan) == Better(Lookup(table, plan), r, plan)
  {
    out := table;
    var found := Lookup(table, r.plan);
    ghost var i := LookupRow(table, r.plan);
    if found.None? {
      LookupAppended(table, r);
      out := table + [r];
    } else if r.rtt < found.value {
      var j := IndexOf(table, r.plan);
      LookupReplaced(table, j, r.rtt);
      out := table[j := r];
    }
  }

  lemma LookupAppended(table: Table, r: Row)
    ensures forall plan :: Lookup(table + [r], plan) == if plan == r.plan then Some(r.rtt) else Lookup(table, plan)
  {
    assert (table + [r])[..|table|] == table;
  }

  lemma {:induction false} LookupReplaced(table: Table, j: nat, rtt: real)
    requires Keyed(table) && j < |table|
    ensures Keyed(table[j := Row(table[j].plan, rtt)])
    ensures var after := table[j := Row(table[j].plan, rtt)];
      forall plan :: Lookup(after, plan) == if plan == table[j].plan then Some(rtt) else Lookup(table, plan)
  {
    var after := table[j := Row(table[j].plan, rtt)];
    forall plan
      ensures Lookup(after, plan) == if plan == table[j].plan then Some(rtt) else Lookup(table, plan)
    {
      LookupReplacedAt(table, j, rtt, plan);
    }
  }

  lemma {:induction false} LookupReplacedAt(table: Table, j: nat, rtt: real, plan: Plan)
    requires Keyed(table) && j < |table|
    ensures Lookup(table[j := Row(table[j].plan, rtt)], plan)
         == if plan == table[j].plan then Some(rtt) else Lookup(table, plan)
  {
    var after, n := table[j := Row(table[j].plan, rtt)], |table| - 1;
    if j < n {
      assert after[..n] == table[..n][j := Row(table[j].plan, rtt)];
      LookupReplacedAt(table[..n], j, rtt, plan);
    } else {
      assert after[..n] == table[..n];
    }
  }

  method IndexOf(table: Table, plan: Plan) returns (j: nat)
    requires Lookup(table, plan).Some?
    ensures j < |table| && table[j].plan == plan
  {
    ghost var k := LookupRow(table, plan);
    j := 0;
    while table[j].plan != plan
      invariant j <= k
      decreases |table| - j
    {
      j := j + 1;
    }
  }

  // ----- the marginals -----

  /** The best response time seen so far with a task at a place. */
  datatype Cell = Cell(place: Placement, best: real)

  /** if rtt < marg[t][pl]: marg[t][pl] = rtt, where a place not seen yet counts as infinite and is added at the end. */
  function Lower(col: seq<Cell>, place: Placement, rtt: real): seq<Cell> {
    if col == [] then [Cell(place, rtt)]
    else if col[0].place == place then (if rtt < col[0].best then [Cell(place, rtt)] + col[1..] else col)
    else [col[0]] + Lower(col[1..], place, rtt)
  }

  /** The marginals of one task after all rows. */
  function Column(table: Table, t: nat): seq<Cell> {
    if table == [] then []
    else
      var col, last := Column(table[..|table| - 1], t), table[|table| - 1];
      if t in last.plan then Lower(col, last.plan[t], last.rtt) else col
  }

  /** The first least cell, as min(…, key=…) picks it. */
  function FirstLeast(col: seq<Cell>): (c: Cell)
    requires col != []
    ensures c in col && forall d | d in col :: c.best <= d.best
  {
    if |col| == 1 then col[0]
    else
      var c, last := FirstLeast(col[..|col| - 1]), col[|col| - 1];
      assert forall d | d in col :: d in col[..|col| - 1] || d == last;
      if last.best < c.best then last else c
  }

  function Tasks(table: Table): set<nat> {
    set i, t | 0 <= i < |table| && t in table[i].plan :: t
  }

  predicate Puts(row: Row, t: nat, place: Placement) {
    t in row.plan && row.plan[t] == place
  }

  function At(col: seq<Cell>, place: Placement): Option<real> {
    if col == [] then None else if col[0].place == place then Some(col[0].best) else At(col[1..], place)
  }

  predicate Once(col: seq<Cell>) {
    col == [] || (At(col[1..], col[0].place).None? && Once(col[1..]))
  }

  lemma {:induction false} LowerAt(col: seq<Cell>, place: Placement, rtt: real, q: Placement)
    ensures At(Lower(col, place, rtt), q)
      == if q != place then At(col, q)
         else if At(col, q).Some? && At(col, q).value <= rtt then At(col, q) else Some(rtt)
  {
    if col != [] && col[0].place != place {
      assert Lower(col, place, rtt)[1..] == Lower(col[1..], place, rtt);
      LowerAt(col[1..], place, rtt, q);
    } else if col != [] {
      assert rtt < col[0].best ==> Lower(col, place, rtt)[1..] == col[1..];
    } else {
      assert Lower(col, place, rtt)[1..] == [];
    }
  }

  lemma {:induction false} LowerOnce(col: seq<Cell>, place: Placement, rtt: real)
    requires Once(col)
    ensures Once(Lower(col, place, rtt)) && Lower(col, place, rtt) != []
  {
    if col != [] && col[0].place != place {
      assert Lower(col, place, rtt)[1..] == Lower(col[1..], place, rtt);
      LowerOnce(col[1..], place, rtt);
      LowerAt(col[1..], place, rtt, col[0].place);
    } else if col != [] {
      assert rtt < col[0].best ==> Lower(col, place, rtt)[1..] == col[1..];
    } else {
      assert Lower(col, place, rtt)[1..] == [];
    }
  }

  lemma {:induction false} CellAt(col: seq<Cell>, i: nat)
    requires Once(col) && i < |col|
    ensures At(col, col[i].place) == Some(col[i].best)
  {
    if i > 0 {
      CellAt(col[1..], i - 1);
    }
  }

  lemma {:induction false} AtCell(col: seq<Cell>, place: Placement)
    requires At(col, place).Some?
    ensures Cell(place, At(col, place).value) in col
  {
    if col[0].place != place {
      AtCell(col[1..], place);
    }
  }

  /** The marginal is the least response time over the plans that put it there. */
  ghost predicate IsMarginal(table: Table, t: nat, place: Placement, best: real) {
    && (exists i :: 0 <= i < |table| && Puts(table[i], t, place) && table[i].rtt == best)
    && (forall i | 0 <= i < |table| && Puts(table[i], t, place) :: best <= table[i].rtt)
  }

  lemma {:induction false} ColumnMarginals(table: Table, t: nat, place: Placement)
    ensures Once(Column(table, t))
    ensures match At(Column(table, t), place)
            case Some(best) => IsMarginal(table, t, place, best)
            case None => forall i | 0 <= i < |table| :: !Puts(table[i], t, place)
  {
    if table != [] {
      var front, last := table[..|table| - 1], table[|table| - 1];
      ColumnMarginals(front, t, place);
      if t in last.plan {
        LowerOnce(Column(front, t), last.plan[t], last.rtt);
        LowerAt(Column(front, t), last.plan[t], last.rtt, place);
      }
      MarginalNext(table, t, place);
    }
  }

  lemma MarginalNext(table: Table, t: nat, place: Placement)
    requires table != []
    ensures var front, last := table[..|table| - 1], table[|table| - 1];
      && (forall b :: IsMarginal(front, t, place, b) ==>
            IsMarginal(table, t, place, if Puts(last, t, place) && last.rtt < b then last.rtt else b))
      && ((forall i | 0 <= i < |front| :: !Puts(front[i], t, place)) && Puts(last, t, place) ==>
            IsMarginal(table, t, place, last.rtt))
      && ((forall i | 0 <= i < |front| :: !Puts(front[i], t, place)) && !Puts(last, t, place) ==>
            forall i | 0 <= i < |table| :: !Puts(table[i], t, place))
  {
    var front, last := table[..|table| - 1], table[|table| - 1];
    assert table == front + [last] && table[|front|] == last;
    forall b | IsMarginal(front, t, place, b)
      ensures IsMarginal(table, t, place, if Puts(last, t, place) && last.rtt < b then last.rtt else b)
    {
      var i :| 0 <= i < |front| && Puts(front[i], t, place) && front[i].rtt == b;
      assert table[i] == front[i];
    }
  }

  // ----- the greedy plan -----

  lemma {:induction false} ColumnCovers(table: Table, t: nat)
    ensures Column(table, t) != [] <==> t in Tasks(table)
  {
    if table != [] {
      var front, last := table[..|table| - 1], table[|table| - 1];
      ColumnCovers(front, t);
      assert table == front + [last];
      if t in last.plan {
        ColumnMarginals(front, t, last.plan[t]);
        LowerOnce(Column(front, t), last.plan[t], last.rtt);
      }
      assert t in Tasks(table) <==> t in Tasks(front) || t in last.plan by {
        TasksNext(table, t);
      }
    }
  }

  lemma TasksNext(table: Table, t: nat)
    requires table != []
    ensures t in Tasks(table) <==> t in Tasks(table[..|table| - 1]) || t in table[|table| - 1].plan
  {
    var front, n := table[..|table| - 1], |table| - 1;
    if t in Tasks(table) {
      var i :| 0 <= i < |table| && t in table[i].plan;
      assert i < n ==> t in front[i].plan;
    }
    if t in Tasks(front) {
      var i :| 0 <= i < |front| && t in front[i].plan;
      assert t in table[i].plan;
    }
  }

  function Greedy(table: Table): Plan {
    map t | t in Tasks(table) :: (ColumnCovers(table, t); FirstLeast(Column(table, t)).place)
  }

  /** Every choice is made by a plan that is best among all plans that place its task at all. */
  lemma ChoiceIsBest(table: Table, t: nat) returns (i: nat)
    requires t in Tasks(table)
    ensures i < |table| && Puts(table[i], t, Greedy(table)[t])
    ensures forall j | 0 <= j < |table| && t in table[j].plan :: table[i].rtt <= table[j].rtt
  {
    ColumnCovers(table, t);
    var col := Column(table, t);
    var c := FirstLeast(col);
    var n :| 0 <= n < |col| && col[n] == c;
    ColumnMarginals(table, t, c.place);
    CellAt(col, n);
    i :| 0 <= i < |table| && Puts(table[i], t, c.place) && table[i].rtt == c.best;
    forall j | 0 <= j < |table| && t in table[j].plan
      ensures c.best <= table[j].rtt
    {
      var place := table[j].plan[t];
      ColumnMarginals(table, t, place);
      assert Puts(table[j], t, place);
      AtCell(col, place);
    }
  }

  // ----- regret -----

  function Opt(table: Table): (opt: real)
    requires table != []
    ensures exists i :: 0 <= i < |table| && table[i].rtt == opt
    ensures forall i | 0 <= i < |table| :: opt <= table[i].rtt
  {
    var last := table[|table| - 1].rtt;
    if |table| == 1 then last
    else
      var front := table[..|table| - 1];
      var sofar := Opt(front);
      assert forall i | 0 <= i < |front| :: front[i] == table[i];
      if last < sofar then last else sofar
  }

  /** (lut[k] - opt) / opt for the greedy plan k; None if the optimum is not positive or the plan was not measured. */
  function Regret(table: Table): Option<real>
    requires table != []
  {
    var opt, found := Opt(table), Lookup(table, Greedy(table));
    if opt <= 0.0 || found.None? then None else Some((found.value - opt) / opt)
  }

  /** Every plan places the same tasks. */
  ghost predicate SameCover(table: Table) {
    forall i, j | 0 <= i < |table| && 0 <= j < |table| :: table[i].plan.Keys == table[j].plan.Keys
  }

  ghost predicate Optimal(table: Table, i: nat) {
    i < |table| && forall j | 0 <= j < |table| :: table[i].rtt <= table[j].rtt
  }

  lemma CoverIsTasks(table: Table, i: nat)
    requires SameCover(table) && i < |table|
    ensures table[i].plan.Keys == Tasks(table)
  {
    forall t
      ensures t in table[i].plan.Keys <==> t in Tasks(table)
    {
      if t in Tasks(table) {
        var j :| 0 <= j < |table| && t in table[j].plan;
        assert t in table[j].plan.Keys;
      }
    }
  }

  /** Every choice of the greedy plan is the placement that some optimal plan makes for that task. */
  lemma ChoiceIsOptimal(table: Table, t: nat) returns (i: nat)
    requires SameCover(table) && t in Tasks(table)
    ensures Optimal(table, i) && Puts(table[i], t, Greedy(table)[t])
  {
    i := ChoiceIsBest(table, t);
    forall j | 0 <= j < |table|
      ensures table[i].rtt <= table[j].rtt
    {
      CoverIsTasks(table, j);
      assert t in table[j].plan.Keys;
    }
  }

  /** The regret is what the greedy plan costs on top of the optimum, as a share of the optimum: a regret of 1 means
      twice the optimal response time. */
  lemma RegretIsShare(table: Table)
    requires table != []
    ensures Regret(table).None? <==> Opt(table) <= 0.0 || Lookup(table, Greedy(table)).None?
    ensures Regret(table).Some? ==> Lookup(table, Greedy(table)) == Some(Times(1.0 + Regret(table).value, Opt(table)))
  {
    hide Opt, Greedy, Lookup, Times;
    var opt, found := Opt(table), Lookup(table, Greedy(table));
    if opt > 0.0 && found.Some? {
      OnTopOf(found.value, opt);
    }
  }

  lemma OnTopOf(x: real, opt: real)
    requires opt > 0.0
    ensures Times(1.0 + (x - opt) / opt, opt) == x
  {
    var r := (x - opt) / opt;
    assert r * opt == x - opt;
  }

  lemma RegretSign(table: Table)
    requires table != []
    ensures Regret(table).Some? ==> Regret(table).value >= 0.0
    ensures Regret(table).Some? ==> (Regret(table).value == 0.0 <==> Lookup(table, Greedy(table)) == Some(Opt(table)))
  {
    var i := LookupRow(table, Greedy(table));
    if Regret(table).Some? {
      RatioSign(Lookup(table, Greedy(table)).value - Opt(table), Opt(table));
    }
  }

  lemma RatioSign(d: real, opt: real)
    requires d >= 0.0 && opt > 0.0
    ensures d / opt >= 0.0 && (d / opt == 0.0 <==> d == 0.0)
  {
  }

  ghost predicate UniqueOptimum(table: Table, i: nat) {
    Optimal(table, i) && forall j | Optimal(table, j) :: j == i
  }

  lemma UniqueOptimumIsGreedy(table: Table, i: nat)
    requires SameCover(table) && UniqueOptimum(table, i)
    ensures Greedy(table) == table[i].plan
  {
    CoverIsTasks(table, i);
    hide Column, Tasks;
    assert Greedy(table).Keys == Tasks(table);
    forall t | t in Tasks(table)
      ensures t in table[i].plan && Greedy(table)[t] == table[i].plan[t]
    {
      var j := ChoiceIsOptimal(table, t);
      assert t in table[i].plan.Keys;
    }
    assert forall t :: t in table[i].plan <==> t in table[i].plan.Keys;
  }

  lemma OptimalIsOpt(table: Table, i: nat)
    requires i < |table|
    ensures Optimal(table, i) <==> table[i].rtt == Opt(table)
  {
    var j :| 0 <= j < |table| && table[j].rtt == Opt(table);
  }

  /** No regret means that the greedy plan was measured and is optimal. */
  lemma RegretZero(table: Table)
    requires table != [] && Keyed(table) && Opt(table) > 0.0
    ensures Regret(table) == Some(0.0) <==> exists i: nat :: Optimal(table, i) && table[i].plan == Greedy(table)
  {
    hide Opt, Lookup, Greedy;
    RegretSign(table);
    if Regret(table) == Some(0.0) {
      var i := LookupRow(table, Greedy(table));
      OptimalIsOpt(table, i);
    }
    if i: nat :| Optimal(table, i) && table[i].plan == Greedy(table) {
      LookupAt(table, i);
      OptimalIsOpt(table, i);
    }
  }

  /** With a single optimal plan the greedy plan is that plan, so it is in the table and has no regret. */
  lemma UniqueOptimumHasNoRegret(table: Table, i: nat)
    requires Keyed(table) && SameCover(table) && UniqueOptimum(table, i)
    ensures Greedy(table) == table[i].plan
    ensures Regret(table) == if Opt(table) <= 0.0 then None else Some(0.0)
  {
    hide Opt, Lookup;
    UniqueOptimumIsGreedy(table, i);
    LookupAt(table, i);
    OptimalIsOpt(table, i);
    RegretSign(table);
  }

  // ----- exactly when there is no regret -----

  /** Some row puts task t at q before any row puts it at p. */
  ghost predicate SeenBefore(table: Table, t: nat, q: Placement, p: Placement) {
    exists j :: 0 <= j < |table| && Puts(table[j], t, q) && forall l | 0 <= l <= j :: !Puts(table[l], t, p)
  }

  /** For no task is another optimal plan's placement seen before this plan's. */
  ghost predicate SeenFirst(table: Table, i: nat)
    requires i < |table|
  {
    forall t, o: nat, q | t in table[i].plan && Optimal(table, o) && Puts(table[o], t, q) && q != table[i].plan[t] ::
      !SeenBefore(table, t, q, table[i].plan[t])
  }

  lemma {:induction false} LowerPlaces(col: seq<Cell>, place: Placement, rtt: real)
    ensures var after := Lower(col, place, rtt);
      && |after| == (if At(col, place).Some? then |col| else |col| + 1)
      && (forall n | 0 <= n < |col| :: after[n].place == col[n].place)
      && (At(col, place).None? ==> after[|col|].place == place)
  {
    if col != [] && col[0].place != place {
      LowerPlaces(col[1..], place, rtt);
    }
  }

  /** A column lists the places in the order in which the rows first use them. */
  lemma {:induction false} ColumnOrder(table: Table, t: nat, a: nat, b: nat)
    requires a < b < |Column(table, t)|
    ensures SeenBefore(table, t, Column(table, t)[a].place, Column(table, t)[b].place)
  {
    var front, last := table[..|table| - 1], table[|table| - 1];
    var col, q, p := Column(front, t), Column(table, t)[a].place, Column(table, t)[b].place;
    assert forall l | 0 <= l < |front| :: table[l] == front[l];
    if t in last.plan {
      LowerPlaces(col, last.plan[t], last.rtt);
    }
    if b < |col| {
      ColumnOrder(front, t, a, b);
    } else {
      ColumnMarginals(front, t, p);
      ColumnMarginals(front, t, q);
      CellAt(col, a);
    }
  }

  lemma SeenOnce(table: Table, t: nat, q: Placement, p: Placement)
    requires SeenBefore(table, t, q, p)
    ensures !SeenBefore(table, t, p, q)
  {
  }

  lemma {:induction false} FirstLeastFirst(col: seq<Cell>) returns (n: nat)
    requires col != []
    ensures n < |col| && col[n] == FirstLeast(col)
    ensures forall m | 0 <= m < n :: col[n].best < col[m].best
  {
    n := 0;
    if |col| > 1 {
      var front := col[..|col| - 1];
      n := FirstLeastFirst(front);
      assert forall m | 0 <= m < |front| :: col[m] == front[m];
      if col[|col| - 1].best < front[n].best {
        n := |col| - 1;
        assert forall m | 0 <= m < n :: front[m] in front;
      }
    }
  }

  /** The placement that an optimal plan makes has the least cell of its column. */
  lemma OptimalCell(table: Table, i: nat, t: nat) returns (n: nat)
    requires SameCover(table) && Optimal(table, i) && t in table[i].plan
    ensures n < |Column(table, t)| && Column(table, t)[n] == Cell(table[i].plan[t], table[i].rtt)
  {
    var col, p := Column(table, t), table[i].plan[t];
    ColumnMarginals(table, t, p);
    assert Puts(table[i], t, p);
    AtCell(col, p);
    n :| 0 <= n < |col| && col[n] == Cell(p, At(col, p).value);
  }

  /** Among the placements of the optimal plans, the greedy choice is the one seen first. */
  lemma ChoiceSeenFirst(table: Table, i: nat, t: nat)
    requires SameCover(table) && Optimal(table, i) && t in table[i].plan
    ensures t in Tasks(table)
    ensures Greedy(table)[t] != table[i].plan[t] ==> SeenBefore(table, t, Greedy(table)[t], table[i].plan[t])
  {
    hide Column, FirstLeast, SeenBefore, IsMarginal;
    assert t in Tasks(table);
    ColumnCovers(table, t);
    var col := Column(table, t);
    var n := OptimalCell(table, i, t);
    var g := FirstLeastFirst(col);
    var o := ChoiceIsOptimal(table, t);
    var h := OptimalCell(table, o, t);
    assert table[o].rtt == table[i].rtt;
    if col[g].place != col[n].place {
      ColumnMarginals(table, t, col[g].place);
      LeastNotAfter(col, g, h, n);
      ColumnOrder(table, t, g, n);
    }
  }

  lemma LeastNotAfter(col: seq<Cell>, g: nat, h: nat, n: nat)
    requires g < |col| && h < |col| && n < |col| && col[g] == FirstLeast(col)
    requires forall m | 0 <= m < g :: col[g].best < col[m].best
    requires col[h].best == col[n].best && col[h].place == col[g].place && col[n].place != col[g].place && Once(col)
    ensures g < n
  {
    CellAt(col, g);
    CellAt(col, h);
  }

  /** An optimal plan is the greedy plan exactly if all its placements are seen first. */
  lemma GreedyIsSeenFirst(table: Table, i: nat)
    requires SameCover(table) && Optimal(table, i)
    ensures Greedy(table) == table[i].plan <==> SeenFirst(table, i)
  {
    hide SeenBefore;
    CoverIsTasks(table, i);
    assert Greedy(table).Keys == table[i].plan.Keys;
    forall t | t in table[i].plan
      ensures t in Greedy(table)
      ensures Greedy(table)[t] != table[i].plan[t] ==> SeenBefore(table, t, Greedy(table)[t], table[i].plan[t])
    {
      ChoiceSeenFirst(table, i, t);
    }
    if SeenFirst(table, i) {
      forall t | t in table[i].plan
        ensures Greedy(table)[t] == table[i].plan[t]
      {
        var o := ChoiceIsOptimal(table, t);
      }
    }
    if Greedy(table) == table[i].plan {
      forall t, o: nat, q | t in table[i].plan && Optimal(table, o) && Puts(table[o], t, q) && q != table[i].plan[t]
        ensures !SeenBefore(table, t, q, table[i].plan[t])
      {
        ChoiceSeenFirst(table, o, t);
        SeenOnce(table, t, table[i].plan[t], q);
      }
    }
  }

  /** On a table of plans for the same tasks with a positive optimum there is no regret exactly if all placements of
      some optimal plan are seen before those of every other one. */
  lemma NoRegretExactly(table: Table)
    requires table != [] && Keyed(table) && SameCover(table) && Opt(table) > 0.0
    ensures Regret(table) == Some(0.0) <==> exists i: nat :: Optimal(table, i) && SeenFirst(table, i)
  {
    hide Opt, Regret, Greedy, SeenFirst, Keyed, SameCover;
    RegretZero(table);
    forall i: nat | Optimal(table, i)
      ensures Greedy(table) == table[i].plan <==> SeenFirst(table, i)
    {
      GreedyIsSeenFirst(table, i);
    }
  }

  /** A positive regret, or a greedy plan that was not measured, always comes from an exact tie of optimal plans. */
  lemma RegretNeedsTies(table: Table)
    requires table != [] && Keyed(table) && SameCover(table) && Opt(table) > 0.0
    requires Regret(table) != Some(0.0)
    ensures exists i: nat, j: nat :: i != j && Optimal(table, i) && Optimal(table, j)
  {
    var i :| 0 <= i < |table| && table[i].rtt == Opt(table);
    assert Optimal(table, i);
    if UniqueOptimum(table, i) {
      UniqueOptimumHasNoRegret(table, i);
    }
  }

  /** Ties can meet: two plans of response time 1 are optimal, the greedy plan mixes them into one of response
      time 5. */
  lemma TiesCanMeet(a: Placement, b: Placement)
    requires a != b
    ensures var table := [Row(map[0 := a, 1 := b], 5.0), Row(map[0 := a, 1 := a], 1.0), Row(map[0 := b, 1 := b], 1.0)];
      Keyed(table) && SameCover(table) && Greedy(table) == map[0 := a, 1 := b] && Regret(table) == Some(4.0)
  {
    var table := [Row(map[0 := a, 1 := b], 5.0), Row(map[0 := a, 1 := a], 1.0), Row(map[0 := b, 1 := b], 1.0)];
    hide Greedy, Regret, Keyed, SameCover;
    KeyedThree(a, b);
    MixedGreedy(a, b);
    FirstRowRegret(table);
  }

  lemma FirstRowRegret(table: Table)
    requires |table| == 3 && Keyed(table) && Greedy(table) == table[0].plan
    requires table[0].rtt == 5.0 && table[1].rtt == table[2].rtt == 1.0
    ensures Regret(table) == Some(4.0)
  {
    hide Greedy, Lookup, Opt, Keyed;
    LookupAt(table, 0);
    OptimalIsOpt(table, 1);
    assert Optimal(table, 1);
  }

  lemma MixedGreedy(a: Placement, b: Placement)
    requires a != b
    ensures var table := [Row(map[0 := a, 1 := b], 5.0), Row(map[0 := a, 1 := a], 1.0), Row(map[0 := b, 1 := b], 1.0)];
      Greedy(table) == map[0 := a, 1 := b]
  {
    var r0, r1, r2 := Row(map[0 := a, 1 := b], 5.0), Row(map[0 := a, 1 := a], 1.0), Row(map[0 := b, 1 := b], 1.0);
    var table := [r0, r1, r2];
    ThreeTasks(table);
    MixedColumns(a, b);
    hide Column, Tasks, FirstLeast;
    FirstOfTwo(Cell(a, 1.0), Cell(b, 1.0));
    FirstOfTwo(Cell(b, 1.0), Cell(a, 1.0));
    GreedyIs(table, r0.plan);
  }

  lemma MixedColumns(a: Placement, b: Placement)
    requires a != b
    ensures var table := [Row(map[0 := a, 1 := b], 5.0), Row(map[0 := a, 1 := a], 1.0), Row(map[0 := b, 1 := b], 1.0)];
      Column(table, 0) == [Cell(a, 1.0), Cell(b, 1.0)] && Column(table, 1) == [Cell(b, 1.0), Cell(a, 1.0)]
  {
    hide Column, Lower;
    var r0, r1, r2 := Row(map[0 := a, 1 := b], 5.0), Row(map[0 := a, 1 := a], 1.0), Row(map[0 := b, 1 := b], 1.0);
    ThreeColumns(r0, r1, r2, 0);
    ThreeColumns(r0, r1, r2, 1);
    LowerTwice(a, b);
    LowerBack(a, b);
  }

  lemma GreedyIs(table: Table, plan: Plan)
    requires forall t :: t in plan <==> t in Tasks(table)
    requires forall t | t in plan :: Column(table, t) != [] && FirstLeast(Column(table, t)).place == plan[t]
    ensures Greedy(table) == plan
  {
  }

  lemma LowerTwice(a: Placement, b: Placement)
    requires a != b
    ensures Lower(Lower([Cell(a, 5.0)], a, 1.0), b, 1.0) == [Cell(a, 1.0), Cell(b, 1.0)]
  {
  }

  lemma LowerBack(a: Placement, b: Placement)
    requires a != b
    ensures Lower(Lower([Cell(b, 5.0)], a, 1.0), b, 1.0) == [Cell(b, 1.0), Cell(a, 1.0)]
  {
    assert Lower([Cell(b, 5.0)], a, 1.0) == [Cell(b, 5.0), Cell(a, 1.0)];
  }

  lemma FirstOfTwo(c: Cell, d: Cell)
    requires c.best == d.best
    ensures FirstLeast([c, d]) == c
  {
    assert [c, d][..1] == [c];
  }

  lemma KeyedThree(a: Placement, b: Placement)
    requires a != b
    ensures var table := [Row(map[0 := a, 1 := b], 5.0), Row(map[0 := a, 1 := a], 1.0), Row(map[0 := b, 1 := b], 1.0)];
      Keyed(table) && SameCover(table)
  {
    var p, q, r: Plan := map[0 := a, 1 := b], map[0 := a, 1 := a], map[0 := b, 1 := b];
    assert p[1] != q[1] && p[0] != r[0] && q[0] != r[0];
    assert p.Keys == q.Keys == r.Keys;
  }

  lemma ThreeColumns(r0: Row, r1: Row, r2: Row, t: nat)
    requires t in r0.plan && t in r1.plan && t in r2.plan
    ensures Column([r0, r1, r2], t)
      == Lower(Lower([Cell(r0.plan[t], r0.rtt)], r1.plan[t], r1.rtt), r2.plan[t], r2.rtt)
  {
    assert [r0, r1, r2][..2] == [r0, r1] && [r0, r1][..1] == [r0] && [r0][..0] == [];
    assert Column([r0], t) == Lower([], r0.plan[t], r0.rtt);
  }

  lemma ThreeTasks(table: Table)
    requires |table| == 3 && forall i | 0 <= i < 3 :: forall t :: t in table[i].plan <==> t == 0 || t == 1
    ensures forall t :: t in Tasks(table) <==> t == 0 || t == 1
  {
    assert 0 in table[0].plan && 1 in table[0].plan;
  }

  // ----- the method -----

  /** marg[t], where a task not met yet has no marginals. */
  function Cells(marg: map<nat, seq<Cell>>, t: nat): seq<Cell> {
    if t in marg then marg[t] else []
  }

  ghost predicate HoldsColumns(marg: map<nat, seq<Cell>>, table: Table) {
    (forall t | t in marg :: marg[t] != []) && forall t :: Cells(marg, t) == Column(table, t)
  }

  /** One row lowers the marginals of its tasks, in any order. */
  method AddRow(marg: map<nat, seq<Cell>>, row: Row) returns (out: map<nat, seq<Cell>>)
    requires forall t | t in marg :: marg[t] != []
    ensures forall t | t in out :: out[t] != []
    ensures forall t | t in row.plan :: Cells(out, t) == Lower(Cells(marg, t), row.plan[t], row.rtt)
    ensures forall t | t !in row.plan :: Cells(out, t) == Cells(marg, t)
  {
    hide Lower;
    out := marg;
    var todo := row.plan.Keys;
    while todo != {}
      invariant todo <= row.plan.Keys && forall t | t in out :: out[t] != []
      invariant forall t | t in row.plan && t !in todo :: Cells(out, t) == Lower(Cells(marg, t), row.plan[t], row.rtt)
      invariant forall t | t !in row.plan || t in todo :: Cells(out, t) == Cells(marg, t)
    {
      var t :| t in todo;
      LowerFilled(Cells(out, t), row.plan[t], row.rtt);
      out := out[t := Lower(Cells(out, t), row.plan[t], row.rtt)];
      todo := todo - {t};
    }
  }

  lemma LowerFilled(col: seq<Cell>, place: Placement, rtt: real)
    ensures Lower(col, place, rtt) != []
  {
  }

  method Marginals(table: Table) returns (marg: map<nat, seq<Cell>>)
    ensures HoldsColumns(marg, table)
  {
    hide Lower;
    marg := map[];
    for i := 0 to |table|
      invariant HoldsColumns(marg, table[..i])
    {
      assert table[..i + 1][..i] == table[..i];
      marg := AddRow(marg, table[i]);
    }
    assert table[..|table|] == table;
  }

  method GreedyRegret(table: Table) returns (regret: Option<real>)
    requires table != []
    ensures regret == Regret(table)
  {
    hide Greedy, Lookup, Opt;
    var opt := Opt(table);
    if opt <= 0.0 {
      return None;
    }
    var marg := Marginals(table);
    var plan := map t | t in marg :: FirstLeast(marg[t]).place;
    PlanIsGreedy(marg, table, plan);
    var found := Lookup(table, plan);
    if found.None? {
      return None;
    }
    return Some((found.value - opt) / opt);
  }

  lemma PlanIsGreedy(marg: map<nat, seq<Cell>>, table: Table, plan: Plan)
    requires HoldsColumns(marg, table) && plan == map t | t in marg :: FirstLeast(marg[t]).place
    ensures plan == Greedy(table)
  {
    forall t: nat
      ensures t in plan <==> t in Greedy(table)
      ensures t in plan ==> plan[t] == Greedy(table)[t]
    {
      ColumnCovers(table, t);
      assert Cells(marg, t) == Column(table, t);
    }
  }
}
