/**
 * The budget ladder: spend is measured after a call and checked before the next, so what holds
 * over every interleaving of checks and ledger writes is a bounded overshoot.
 */
module Budget {
  import opened Wrappers

  type VentureId = string
  type AgentId = nat
  type TaskId = string
  type CallId = nat
  type PartyId = nat
  type Time = int

  datatype Action = Pause | Slow

  datatype Caps = Caps(monthly: real, softPct: int, agentDaily: real, taskCeiling: real) {
    /** The table's CHECK constraints. */
    predicate Valid() { monthly > 0.0 && 0 < softPct < 100 && agentDaily > 0.0 && taskCeiling > 0.0 }
  }

  datatype Reversal = Reversal(at: Time, actor: PartyId)

  datatype Budget = Budget(caps: Caps, action: Action, reversed: Option<Reversal>)

  /** A ledger row; a failed call may carry no cost, and a call outside any task no task. */
  datatype Row = Row(venture: VentureId, agent: AgentId, task: Option<TaskId>, start: Time, cost: Option<real>)

  /** `date_trunc('month', t)` and `date_trunc('day', t)` in the database's time zone. */
  datatype Calendar = Calendar(month: Time -> Time, day: Time -> Time)

  ghost predicate Lawful(cal: Calendar) {
    forall s, t :: s <= t ==> cal.month(s) <= cal.month(t) && cal.day(s) <= cal.day(t)
  }

  /** What a cap is on: a venture's month, one of its tasks within the month, one of its agents within the day. */
  datatype Scope =
    | Month(venture: VentureId)
    | Task(venture: VentureId, task: TaskId)
    | Day(venture: VentureId, agent: AgentId)
  {
    predicate Covers(venture: VentureId, agent: AgentId, task: Option<TaskId>) {
      this.venture == venture &&
      match this
      case Month(_) => true
      case Task(_, t) => task == Some(t)
      case Day(_, a) => agent == a
    }

    /** The start of the window: the month, and for an agent also the day. */
    function Since(cal: Calendar, now: Time): Time {
      if Day? && cal.day(now) > cal.month(now) then cal.day(now) else cal.month(now)
    }

    function Cap(caps: Caps): real {
      match this
      case Month(_) => caps.monthly
      case Task(_, _) => caps.taskCeiling
      case Day(_, _) => caps.agentDaily
    }
  }

  function Counted(row: Row, scope: Scope, since: Time): real {
    if scope.Covers(row.venture, row.agent, row.task) && row.start >= since && row.cost.Some? then row.cost.value
    else 0.0
  }

  /** `COALESCE(SUM(usd_cost) FILTER (...), 0)`. */
  function Spent(ledger: seq<Row>, scope: Scope, since: Time): real {
    if ledger == [] then 0.0
    else Spent(ledger[..|ledger| - 1], scope, since) + Counted(ledger[|ledger| - 1], scope, since)
  }

  datatype Rung = TaskCeiling | AgentDailyCap | HardCap

  datatype BudgetState = BudgetState(monthToDate: real, softCapped: bool, hardCapped: bool)

  /** The ladder: narrowest scope first, and the hard cap before the soft. An unbudgeted venture is unmetered. */
  function Ladder(budget: Option<Budget>, taskSpend: real, agentToday: real, monthToDate: real)
    : Result<Option<BudgetState>, Rung>
  {
    if budget.None? then Ok(None)
    else
      var b := budget.value;
      if taskSpend >= b.caps.taskCeiling then Err(TaskCeiling)
      else if agentToday >= b.caps.agentDaily then Err(AgentDailyCap)
      else
        var hard := monthToDate >= b.caps.monthly && b.reversed.None?;
        if hard && b.action == Pause then Err(HardCap)
        else Ok(Some(BudgetState(monthToDate, monthToDate >= SoftCap(b.caps), hard)))
  }

  function SoftCap(caps: Caps): real { caps.monthly * caps.softPct as real / 100.0 }

  lemma SoftCapIsLower(caps: Caps)
    requires caps.Valid()
    ensures SoftCap(caps) <= caps.monthly
  {
    var cap, rest := caps.monthly, 100.0 - caps.softPct as real;
    assert 0.0 <= cap * rest;
    assert cap * caps.softPct as real == cap * 100.0 - cap * rest;
  }

  /** A venture that only slows at its hard cap is by then past its soft cap, so it never auto-executes there. */
  lemma HardCappedIsSoftCapped(b: Budget, taskSpend: real, agentToday: real, monthToDate: real)
    requires b.caps.Valid()
    ensures var r := Ladder(Some(b), taskSpend, agentToday, monthToDate);
            r.Ok? && r.value.Some? && r.value.value.hardCapped ==> b.action == Slow && r.value.value.softCapped
  {
    SoftCapIsLower(b.caps);
  }

  // ------------------------------------------------ calls in flight

  datatype Call = Call(venture: VentureId, agent: AgentId, task: TaskId)

  datatype Office = Office(budgets: map<VentureId, Budget>, ledger: seq<Row>, inFlight: map<CallId, Call>) {
    function BudgetOf(venture: VentureId): Option<Budget> {
      if venture in budgets then Some(budgets[venture]) else None
    }
  }

  datatype Move =
    | Start(id: CallId, call: Call)
    | Finish(id: CallId, start: Time, cost: Option<real>)
    | Lose(id: CallId)
    | Reverse(venture: VentureId, actor: PartyId, role: string)
    | Configure(venture: VentureId, caps: Caps)

  function Evaluated(cal: Calendar, s: Office, call: Call, now: Time): Result<Option<BudgetState>, Rung> {
    Ladder(s.BudgetOf(call.venture),
           Spent(s.ledger, Task(call.venture, call.task), cal.month(now)),
           Spent(s.ledger, Day(call.venture, call.agent), Day(call.venture, call.agent).Since(cal, now)),
           Spent(s.ledger, Month(call.venture), cal.month(now)))
  }

  function Reversed(budgets: map<VentureId, Budget>, venture: VentureId, r: Reversal): map<VentureId, Budget> {
    if venture in budgets then budgets[venture := budgets[venture].(reversed := Some(r))] else budgets
  }

  /** Re-applying a Pack changes the caps and nothing else of an existing row. */
  function Configured(budgets: map<VentureId, Budget>, venture: VentureId, caps: Caps): map<VentureId, Budget> {
    if !caps.Valid() then budgets
    else if venture in budgets then budgets[venture := budgets[venture].(caps := caps)]
    else budgets[venture := Budget(caps, Pause, None)]
  }

  function Step(cal: Calendar, s: Office, m: Move, now: Time): Office {
    match m
    case Start(id, call) =>
      if id in s.inFlight || Evaluated(cal, s, call, now).Err? then s else s.(inFlight := s.inFlight[id := call])
    case Finish(id, start, cost) =>
      if id !in s.inFlight then s else
        var call := s.inFlight[id];
        s.(ledger := s.ledger + [Row(call.venture, call.agent, Some(call.task), start, cost)],
           inFlight := s.inFlight - {id})
    case Lose(id) => s.(inFlight := s.inFlight - {id})
    case Reverse(venture, actor, role) =>
      if role != "ivan" then s else s.(budgets := Reversed(s.budgets, venture, Reversal(now, actor)))
    case Configure(venture, caps) => s.(budgets := Configured(s.budgets, venture, caps))
  }

  function Run(cal: Calendar, s: Office, run: seq<(Move, Time)>): Office
    decreases |run|
  {
    if run == [] then s else Run(cal, Step(cal, s, run[0].0, run[0].1), run[1..])
  }

  ghost predicate Ordered(from: Time, run: seq<(Move, Time)>)
    decreases |run|
  {
    run != [] ==> from <= run[0].1 && Ordered(run[0].1, run[1..])
  }

  function End(from: Time, run: seq<(Move, Time)>): Time {
    if run == [] then from else run[|run| - 1].1
  }

  // ------------------------------------------------ what the ladder and the acts do, in the stored columns

  /** A ledger row adds its cost to a scope's spend when it is the scope's and starts in the window, or nothing. */
  lemma SpentCounts(ledger: seq<Row>, row: Row, venture: VentureId, agent: AgentId, task: TaskId, since: Time)
    ensures var mine := row.venture == venture && row.start >= since;
            var cost := if row.cost.Some? then row.cost.value else 0.0;
            && Spent(ledger + [row], Month(venture), since)
               == Spent(ledger, Month(venture), since) + (if mine then cost else 0.0)
            && Spent(ledger + [row], Task(venture, task), since)
               == Spent(ledger, Task(venture, task), since) + (if mine && row.task == Some(task) then cost else 0.0)
            && Spent(ledger + [row], Day(venture, agent), since)
               == Spent(ledger, Day(venture, agent), since) + (if mine && row.agent == agent then cost else 0.0)
    ensures Spent([], Month(venture), since) == 0.0 && Spent([], Task(venture, task), since) == 0.0
            && Spent([], Day(venture, agent), since) == 0.0
  {
    assert (ledger + [row])[..|ledger|] == ledger;
  }

  /** The three windows: month and task since the month began, an agent since the later of month and day. */
  function TaskSpend(cal: Calendar, s: Office, call: Call, now: Time): real {
    Spent(s.ledger, Task(call.venture, call.task), cal.month(now))
  }

  function AgentSpend(cal: Calendar, s: Office, call: Call, now: Time): real {
    Spent(s.ledger, Day(call.venture, call.agent),
          if cal.day(now) > cal.month(now) then cal.day(now) else cal.month(now))
  }

  function MonthSpend(cal: Calendar, s: Office, call: Call, now: Time): real {
    Spent(s.ledger, Month(call.venture), cal.month(now))
  }

  lemma SoftCapInFigures(caps: Caps, spend: real)
    ensures spend >= SoftCap(caps) <==> spend * 100.0 >= caps.monthly * caps.softPct as real
  {
    var product := caps.monthly * caps.softPct as real;
    assert SoftCap(caps) == product / 100.0;
  }

  /**
   * A call is let through exactly under its task's ceiling, its agent's daily cap, and its venture's
   * monthly cap unless that was reversed or only slows; a refusal names the narrowest cap reached.
   */
  lemma LetThroughIff(cal: Calendar, s: Office, call: Call, now: Time)
    requires call.venture in s.budgets
    ensures var b, r := s.budgets[call.venture], Evaluated(cal, s, call, now);
            var task, agent := TaskSpend(cal, s, call, now), AgentSpend(cal, s, call, now);
            var month := MonthSpend(cal, s, call, now);
            && (r.Ok? <==> task < b.caps.taskCeiling && agent < b.caps.agentDaily
                           && (month < b.caps.monthly || b.reversed.Some? || b.action == Slow))
            && (r == Err(TaskCeiling) <==> task >= b.caps.taskCeiling)
            && (r == Err(AgentDailyCap) <==> task < b.caps.taskCeiling && agent >= b.caps.agentDaily)
            && (r.Ok? ==>
                  && r.value.Some? && r.value.value.monthToDate == month
                  && (r.value.value.softCapped <==> month * 100.0 >= b.caps.monthly * b.caps.softPct as real)
                  && (r.value.value.hardCapped <==> month >= b.caps.monthly && b.reversed.None?))
  {
    SoftCapInFigures(s.budgets[call.venture].caps, MonthSpend(cal, s, call, now));
  }

  /** A call starts when it is let through or its venture has no budget, and its row is written when it ends. */
  lemma CallsTakeEffect(cal: Calendar, s: Office, id: CallId, call: Call, start: Time, cost: Option<real>, now: Time)
    requires id !in s.inFlight
    ensures var begun := Step(cal, s, Start(id, call), now);
            && begun.budgets == s.budgets && begun.ledger == s.ledger
            && (call.venture !in s.budgets ==> begun.inFlight == s.inFlight[id := call])
            && begun.inFlight == (if Evaluated(cal, s, call, now).Ok? then s.inFlight[id := call] else s.inFlight)
            && (Evaluated(cal, s, call, now).Ok? ==>
                  var done := Step(cal, begun, Finish(id, start, cost), now);
                  && done.budgets == s.budgets && done.inFlight == s.inFlight
                  && done.ledger == s.ledger + [Row(call.venture, call.agent, Some(call.task), start, cost)])
  {
  }

  /** Only the founder role reverses, and says who and when; re-applying a Pack changes the caps and nothing else. */
  lemma BudgetsTakeEffect(cal: Calendar, s: Office, venture: VentureId, actor: PartyId, role: string, caps: Caps,
                          now: Time)
    ensures var after := Step(cal, s, Reverse(venture, actor, role), now);
            && after.ledger == s.ledger && after.inFlight == s.inFlight && after.budgets.Keys == s.budgets.Keys
            && (forall v :: v in s.budgets ==>
                  after.budgets[v] == if v == venture && role == "ivan"
                                      then s.budgets[v].(reversed := Some(Reversal(now, actor))) else s.budgets[v])
    ensures var after := Step(cal, s, Configure(venture, caps), now);
            var valid := caps.monthly > 0.0 && 0 < caps.softPct < 100 && caps.agentDaily > 0.0
                         && caps.taskCeiling > 0.0;
            && after.ledger == s.ledger && after.inFlight == s.inFlight
            && after.budgets.Keys == s.budgets.Keys + (if valid then {venture} else {})
            && (forall v :: v in s.budgets ==>
                  after.budgets[v] == if v == venture && valid then s.budgets[v].(caps := caps) else s.budgets[v])
            && (valid && venture !in s.budgets ==> after.budgets[venture] == Budget(caps, Pause, None))
  {
  }

  // ------------------------------------------------ the overshoot bound

  function Flying(s: Office, scope: Scope): set<CallId> {
    set id | id in s.inFlight && scope.Covers(s.inFlight[id].venture, s.inFlight[id].agent, Some(s.inFlight[id].task))
  }

  /** What `n` calls of at most `c` each can still add. */
  function Exposure(c: real, n: nat): real {
    if n == 0 then 0.0 else Exposure(c, n - 1) + c
  }

  predicate CostWithin(cost: Option<real>, c: real) { cost.Some? ==> 0.0 <= cost.value <= c }

  ghost predicate NoNegativeCosts(ledger: seq<Row>) {
    forall i :: 0 <= i < |ledger| && ledger[i].cost.Some? ==> 0.0 <= ledger[i].cost.value
  }

  /** The scope's cap is enforced and at most `cap`; a month's only when its venture pauses and was not reversed. */
  predicate Enforced(s: Office, scope: Scope, cap: real) {
    && scope.venture in s.budgets
    && scope.Cap(s.budgets[scope.venture].caps) <= cap
    && (scope.Month? ==> s.budgets[scope.venture].action == Pause && s.budgets[scope.venture].reversed.None?)
  }

  /** Throughout the run the cap is enforced, a call costs at most `c`, and at most `k` are in flight in the scope. */
  ghost predicate Bounded(cal: Calendar, s: Office, run: seq<(Move, Time)>, scope: Scope, cap: real, c: real, k: nat)
    decreases |run|
  {
    run != [] ==>
      var next := Step(cal, s, run[0].0, run[0].1);
      && Enforced(s, scope, cap)
      && (run[0].0.Finish? ==> CostWithin(run[0].0.cost, c))
      && |Flying(next, scope)| <= k
      && Bounded(cal, next, run[1..], scope, cap, c, k)
  }

  /** Spent, plus what is in flight, is under the cap plus `k` calls. */
  ghost predicate Within(cal: Calendar, s: Office, now: Time, scope: Scope, cap: real, c: real, k: nat) {
    Spent(s.ledger, scope, scope.Since(cal, now)) + Exposure(c, |Flying(s, scope)|) < cap + Exposure(c, k)
  }

  lemma {:induction false} LaterWindowsHoldLess(ledger: seq<Row>, scope: Scope, since: Time, later: Time)
    requires NoNegativeCosts(ledger) && since <= later
    ensures Spent(ledger, scope, later) <= Spent(ledger, scope, since)
  {
    if ledger != [] {
      LaterWindowsHoldLess(ledger[..|ledger| - 1], scope, since, later);
    }
  }

  lemma {:induction false} ExposureGrows(c: real, m: nat, n: nat)
    requires 0.0 <= c && m <= n
    ensures Exposure(c, m) <= Exposure(c, n)
    ensures Exposure(c, n + 1) == Exposure(c, n) + c
  {
    if m < n {
      ExposureGrows(c, m, n - 1);
    }
  }

  lemma {:induction false} ExposureIsAProduct(c: real, n: nat)
    ensures Exposure(c, n) == n as real * c
  {
    if n > 0 {
      ExposureIsAProduct(c, n - 1);
      assert n as real * c == (n - 1) as real * c + c;
    }
  }

  lemma TimePasses(cal: Calendar, s: Office, before: Time, now: Time, scope: Scope, cap: real, c: real, k: nat)
    requires Lawful(cal) && NoNegativeCosts(s.ledger) && before <= now && Within(cal, s, before, scope, cap, c, k)
    ensures Within(cal, s, now, scope, cap, c, k)
  {
    LaterWindowsHoldLess(s.ledger, scope, scope.Since(cal, before), scope.Since(cal, now));
  }

  lemma StartKeepsWithin(cal: Calendar, s: Office, id: CallId, call: Call, now: Time, scope: Scope, cap: real, c: real,
                         k: nat)
    requires 0.0 <= c && Enforced(s, scope, cap) && Within(cal, s, now, scope, cap, c, k)
    requires |Flying(Step(cal, s, Start(id, call), now), scope)| <= k
    ensures Within(cal, Step(cal, s, Start(id, call), now), now, scope, cap, c, k)
  {
    var next := Step(cal, s, Start(id, call), now);
    if next != s {
      if scope.Covers(call.venture, call.agent, Some(call.task)) {
        assert Spent(s.ledger, scope, scope.Since(cal, now)) < cap;
        ExposureGrows(c, |Flying(next, scope)|, k);
      } else {
        assert Flying(next, scope) == Flying(s, scope);
      }
    }
  }

  lemma FinishKeepsWithin(cal: Calendar, s: Office, id: CallId, start: Time, cost: Option<real>, now: Time,
                          scope: Scope, cap: real, c: real, k: nat)
    requires 0.0 <= c && CostWithin(cost, c) && Within(cal, s, now, scope, cap, c, k)
    ensures Within(cal, Step(cal, s, Finish(id, start, cost), now), now, scope, cap, c, k)
  {
    if id in s.inFlight {
      var next := Step(cal, s, Finish(id, start, cost), now);
      assert next.ledger[..|s.ledger|] == s.ledger;
      assert Flying(next, scope) == Flying(s, scope) - {id};
      if id in Flying(s, scope) {
        ExposureGrows(c, 0, |Flying(next, scope)|);
      }
    }
  }

  lemma LosingLands(s: Office, id: CallId, scope: Scope)
    ensures |Flying(s.(inFlight := s.inFlight - {id}), scope)| <= |Flying(s, scope)|
  {
    assert Flying(s.(inFlight := s.inFlight - {id}), scope) == Flying(s, scope) - {id};
  }

  lemma LoseKeepsWithin(cal: Calendar, s: Office, id: CallId, now: Time, scope: Scope, cap: real, c: real, k: nat)
    requires 0.0 <= c && Within(cal, s, now, scope, cap, c, k)
    ensures Within(cal, Step(cal, s, Lose(id), now), now, scope, cap, c, k)
  {
    LosingLands(s, id, scope);
    ExposureGrows(c, |Flying(s.(inFlight := s.inFlight - {id}), scope)|, |Flying(s, scope)|);
  }

  lemma BudgetsDoNotFly(cal: Calendar, s: Office, budgets: map<VentureId, Budget>, now: Time, scope: Scope, cap: real,
                        c: real, k: nat)
    requires Within(cal, s, now, scope, cap, c, k)
    ensures Within(cal, s.(budgets := budgets), now, scope, cap, c, k)
  {
    assert Flying(s.(budgets := budgets), scope) == Flying(s, scope);
  }

  lemma StepKeepsWithin(cal: Calendar, s: Office, m: Move, now: Time, scope: Scope, cap: real, c: real, k: nat)
    requires 0.0 <= c && Enforced(s, scope, cap) && Within(cal, s, now, scope, cap, c, k)
    requires (m.Finish? ==> CostWithin(m.cost, c)) && |Flying(Step(cal, s, m, now), scope)| <= k
    ensures Within(cal, Step(cal, s, m, now), now, scope, cap, c, k)
  {
    match m
    case Start(id, call) => StartKeepsWithin(cal, s, id, call, now, scope, cap, c, k);
    case Finish(id, start, cost) => FinishKeepsWithin(cal, s, id, start, cost, now, scope, cap, c, k);
    case Lose(id) => LoseKeepsWithin(cal, s, id, now, scope, cap, c, k);
    case _ => BudgetsDoNotFly(cal, s, Step(cal, s, m, now).budgets, now, scope, cap, c, k);
  }

  lemma StepKeepsCosts(cal: Calendar, s: Office, m: Move, now: Time, c: real)
    requires NoNegativeCosts(s.ledger) && (m.Finish? ==> CostWithin(m.cost, c))
    ensures NoNegativeCosts(Step(cal, s, m, now).ledger)
  {
  }

  /**
   * The ladder's real promise, on every interleaving of checks and ledger writes and across month
   * and day boundaries: with at most `k` calls in flight in a scope, each costing at most `c`, the
   * scope's spend in its window stays under its cap plus `k * c`.
   */
  lemma {:induction false} OvershootIsBounded(cal: Calendar, s: Office, from: Time, run: seq<(Move, Time)>,
                                              scope: Scope, cap: real, c: real, k: nat)
    requires Lawful(cal) && 0.0 <= c && NoNegativeCosts(s.ledger) && Within(cal, s, from, scope, cap, c, k)
    requires Ordered(from, run) && Bounded(cal, s, run, scope, cap, c, k)
    ensures Within(cal, Run(cal, s, run), End(from, run), scope, cap, c, k)
    ensures Spent(Run(cal, s, run).ledger, scope, scope.Since(cal, End(from, run))) < cap + k as real * c
    decreases |run|
  {
    ExposureIsAProduct(c, k);
    if run == [] {
      ExposureGrows(c, 0, |Flying(s, scope)|);
    } else {
      var m, now := run[0].0, run[0].1;
      TimePasses(cal, s, from, now, scope, cap, c, k);
      StepKeepsWithin(cal, s, m, now, scope, cap, c, k);
      StepKeepsCosts(cal, s, m, now, c);
      OvershootIsBounded(cal, Step(cal, s, m, now), now, run[1..], scope, cap, c, k);
      assert run[1..] != [] ==> run[1..][|run[1..]| - 1] == run[|run| - 1];
    }
  }

  /** A new ledger with nothing in flight is where such runs begin, under any positive cap. */
  lemma NothingSpentIsWithin(cal: Calendar, budgets: map<VentureId, Budget>, now: Time, scope: Scope, cap: real,
                             c: real, k: nat)
    requires 0.0 < cap && 0.0 <= c
    ensures NoNegativeCosts([]) && Within(cal, Office(budgets, [], map[]), now, scope, cap, c, k)
  {
    assert Flying(Office(budgets, [], map[]), scope) == {};
    ExposureGrows(c, 0, k);
  }

  /** One call at a time: while it runs, the spend recorded so far is still below the cap. */
  lemma {:induction false} SerialCallsStartBelowTheCap(cal: Calendar, s: Office, from: Time, run: seq<(Move, Time)>,
                                                       scope: Scope, cap: real, c: real)
    requires Lawful(cal) && 0.0 <= c && NoNegativeCosts(s.ledger) && Within(cal, s, from, scope, cap, c, 1)
    requires Ordered(from, run) && Bounded(cal, s, run, scope, cap, c, 1)
    requires Flying(Run(cal, s, run), scope) != {}
    ensures Spent(Run(cal, s, run).ledger, scope, scope.Since(cal, End(from, run))) < cap
  {
    OvershootIsBounded(cal, s, from, run, scope, cap, c, 1);
    ExposureGrows(c, 1, |Flying(Run(cal, s, run), scope)|);
  }

  // ------------------------------------------------ reversal

  /** Nothing clears a reversal: once lifted, the monthly cap halts no call in this month or any later one. */
  lemma {:induction false} ReversalIsForGood(cal: Calendar, s: Office, run: seq<(Move, Time)>, call: Call, now: Time)
    requires call.venture in s.budgets && s.budgets[call.venture].reversed.Some?
    ensures var end := Run(cal, s, run);
            && Evaluated(cal, end, call, now) != Err(HardCap)
            && (Evaluated(cal, end, call, now).Ok? ==>
                  Evaluated(cal, end, call, now).value.Some? && !Evaluated(cal, end, call, now).value.value.hardCapped)
    decreases |run|
  {
    if run != [] {
      ReversalIsForGood(cal, Step(cal, s, run[0].0, run[0].1), run[1..], call, now);
    }
  }

  /** Until somebody holding the founder role reverses it, the cap of a pausing venture is never lifted. */
  lemma {:induction false} OnlyIvanLiftsTheCap(cal: Calendar, s: Office, run: seq<(Move, Time)>, venture: VentureId)
    requires venture in s.budgets && s.budgets[venture].reversed.None?
    requires forall i :: 0 <= i < |run| && run[i].0.Reverse? && run[i].0.venture == venture ==> run[i].0.role != "ivan"
    ensures var end := Run(cal, s, run);
            && venture in end.budgets && end.budgets[venture].reversed.None?
            && end.budgets[venture].action == s.budgets[venture].action
    decreases |run|
  {
    if run != [] {
      OnlyIvanLiftsTheCap(cal, Step(cal, s, run[0].0, run[0].1), run[1..], venture);
    }
  }

  // ------------------------------------------------ the tables as the broker updates them

  class BudgetLadder {
    var budgets: map<VentureId, Budget>
    var ledger: seq<Row>

    constructor ()
      ensures budgets == map[] && ledger == []
    {
      budgets, ledger := map[], [];
    }

    /** One pass over the ledger sums all three windows. */
    method Evaluate(cal: Calendar, call: Call, now: Time) returns (r: Result<Option<BudgetState>, Rung>)
      ensures r == Evaluated(cal, Office(budgets, ledger, map[]), call, now)
    {
      if call.venture !in budgets {
        return Ok(None);
      }
      var b := budgets[call.venture];
      var task, agent, month := Task(call.venture, call.task), Day(call.venture, call.agent), Month(call.venture);
      var taskSpend, agentToday, monthToDate := 0.0, 0.0, 0.0;
      for i := 0 to |ledger|
        invariant taskSpend == Spent(ledger[..i], task, cal.month(now))
        invariant agentToday == Spent(ledger[..i], agent, agent.Since(cal, now))
        invariant monthToDate == Spent(ledger[..i], month, cal.month(now))
      {
        var row := ledger[i];
        assert ledger[..i + 1][..i] == ledger[..i];
        if row.venture == call.venture && row.start >= cal.month(now) && row.cost.Some? {
          monthToDate := monthToDate + row.cost.value;
          if row.task == Some(call.task) {
            taskSpend := taskSpend + row.cost.value;
          }
          if row.agent == call.agent && row.start >= cal.day(now) {
            agentToday := agentToday + row.cost.value;
          }
        }
      }
      assert ledger[..|ledger|] == ledger;
      if taskSpend >= b.caps.taskCeiling {
        return Err(TaskCeiling);
      }
      if agentToday >= b.caps.agentDaily {
        return Err(AgentDailyCap);
      }
      var hardCapped := monthToDate >= b.caps.monthly;
      if hardCapped && b.reversed.None? && b.action == Pause {
        return Err(HardCap);
      }
      return Ok(Some(BudgetState(monthToDate, monthToDate >= b.caps.monthly * b.caps.softPct as real / 100.0,
                                 hardCapped && b.reversed.None?)));
    }

    method WriteCall(row: Row)
      modifies this`ledger
      ensures ledger == old(ledger) + [row]
    {
      ledger := ledger + [row];
    }

    /** False when the actor is refused; a venture with no budget row is left without one. */
    method ReverseHardCap(venture: VentureId, actor: PartyId, role: string, now: Time) returns (ok: bool)
      modifies this`budgets
      ensures ok <==> role == "ivan"
      ensures budgets == if ok then Reversed(old(budgets), venture, Reversal(now, actor)) else old(budgets)
    {
      if role != "ivan" {
        return false;
      }
      if venture in budgets {
        budgets := budgets[venture := budgets[venture].(reversed := Some(Reversal(now, actor)))];
      }
      return true;
    }
  }
}
