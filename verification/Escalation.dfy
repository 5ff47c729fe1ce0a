/**
 * Escalations: raised, received by the human they were routed to, answered, and sometimes
 * expired. Every call is split where the broker commits: a read with its checks, a guarded
 * update, and an audit event written on another connection. Any number of calls interleave.
 */
module Escalation {
  import opened Text
  import opened Wrappers
  import Humans

  type EscalationId = nat
  type CallId = nat
  type PartyId = nat
  type Time = int

  const OVERDUE_AFTER: Time := 4 * 3600

  datatype Path = Operational | Governance

  const GOVERNANCE_ONLY: set<string> :=
    {"capacity_shortfall", "certification", "revocation", "incident", "grant", "appointment"}

  datatype Stamp = Stamp(at: Time, actor: PartyId)

  datatype Answer = Answer(at: Time, actor: PartyId, text: string)

  datatype Record = Record(venture: string, department: Option<string>, path: Path, kind: string, reason: string,
                           raisedAt: Time, raisedBy: PartyId, routedTo: string, routedHuman: Option<PartyId>,
                           received: Option<Stamp>, answered: Option<Answer>,
                           expiresAt: Option<Time>, expiredAt: Option<Time>) {
    /** The page's rule: receipt stops the clock, not the answer. */
    predicate IsOverdue(now: Time) { received.None? && now - raisedAt >= OVERDUE_AFTER }

    /** The sweep's rule, as its query spells it. */
    predicate ListedOverdue(now: Time) {
      received.None? && answered.None? && raisedAt <= now - OVERDUE_AFTER
    }

    predicate Waiting() { received.None? }

    predicate Expirable(now: Time) {
      expiresAt.Some? && expiresAt.value <= now && received.None? && answered.None? && expiredAt.None?
    }
  }

  type Records = map<EscalationId, Record>

  datatype Kind = WasRaised | WasReceived | WasAnswered | WasExpired

  /** The claim an audit event makes: that this happened to this escalation. */
  datatype Claim = Claim(kind: Kind, id: EscalationId)

  datatype Event = Event(claim: Claim, actor: PartyId, text: string)

  // ------------------------------------------------ reads and their checks

  datatype Refusal = WrongPath | NoReason | NobodyNamed | SeatVacant | EmptyAnswer | NoSuchEscalation
                   | NotAPerson | NotTheRecipient | Raiser | NotReceived

  datatype Named = Named(human: PartyId, name: string)

  /** Who the desk could route to: named active recipients by venture and department, and whoever holds the seat. */
  datatype Directory = Directory(recipients: map<(string, string), Named>, seat: Option<string>)

  datatype Request = Request(kind: string, path: Path, venture: string, department: Option<string>, reason: string,
                             raisedBy: PartyId)

  datatype Route = Route(name: string, human: Option<PartyId>)

  /** An exact department match, or the venture default for an escalation that names none; never a fallback. */
  function RecipientFor(d: Directory, venture: string, department: Option<string>): Option<Named> {
    var key := (venture, if department.Some? then department.value else "*");
    if key in d.recipients then Some(d.recipients[key]) else None
  }

  function RouteOf(d: Directory, r: Request): Result<Route, Refusal> {
    if r.kind in GOVERNANCE_ONLY && r.path == Operational then Err(WrongPath)
    else if Blank(r.reason) then Err(NoReason)
    else if r.path == Governance then
      match RecipientFor(d, r.venture, r.department)
      case None => Err(NobodyNamed)
      case Some(named) => if Blank(named.name) then Err(NobodyNamed) else Ok(Route(named.name, Some(named.human)))
    else if d.seat.None? || Blank(d.seat.value) then Err(SeatVacant)
    else Ok(Route(d.seat.value, None))
  }

  /** A person, the one it was routed to, and not the one who raised it. */
  function OnlyTheRoutedHuman(r: Record, me: Humans.Human): Option<Refusal> {
    if me.origin != Humans.Person then Some(NotAPerson)
    else if r.routedHuman != Some(me.id) then Some(NotTheRecipient)
    else if me.id == r.raisedBy then Some(Raiser)
    else None
  }

  function ReceiptRefusal(records: Records, id: EscalationId, me: Humans.Human): Option<Refusal> {
    if id !in records then Some(NoSuchEscalation) else OnlyTheRoutedHuman(records[id], me)
  }

  function AnswerRefusal(records: Records, id: EscalationId, me: Humans.Human, text: string): Option<Refusal> {
    if Blank(text) then Some(EmptyAnswer)
    else if id !in records then Some(NoSuchEscalation)
    else if OnlyTheRoutedHuman(records[id], me).Some? then OnlyTheRoutedHuman(records[id], me)
    else if records[id].received.None? then Some(NotReceived)
    else None
  }

  // ------------------------------------------------ guarded updates

  function Raised(records: Records, id: EscalationId, r: Request, to: Route, now: Time): Records {
    records[id := Record(r.venture, r.department, r.path, r.kind, Strip(r.reason), now, r.raisedBy, to.name, to.human,
                         None, None, None, None)]
  }

  /** The row after the receipt's guarded update, and whether it took effect. */
  function Received(records: Records, id: EscalationId, actor: PartyId, now: Time): (Records, bool) {
    if id !in records || records[id].received.Some? then (records, false)
    else (records[id := records[id].(received := Some(Stamp(now, actor)))], true)
  }

  function Answered(records: Records, id: EscalationId, actor: PartyId, text: string, now: Time): (Records, bool) {
    if id !in records || records[id].answered.Some? then (records, false)
    else (records[id := records[id].(answered := Some(Answer(now, actor, text)))], true)
  }

  /** Every overdue deadline, expired at the deadline and not at the moment the sweep got there. */
  function Expired(records: Records, now: Time): Records {
    map id | id in records ::
      if records[id].Expirable(now) then records[id].(expiredAt := records[id].expiresAt) else records[id]
  }

  function ExpiryEvents(records: Records, now: Time): map<Claim, Event> {
    map id | id in records && records[id].Expirable(now) ::
      Claim(WasExpired, id) := Event(Claim(WasExpired, id), records[id].raisedBy, "")
  }

  // ------------------------------------------------ the interleaved machine

  /** Where a call stands: checked and about to update, or done updating and owing its events. */
  datatype Call =
    | ToReceive(id: EscalationId, me: PartyId)
    | ToAnswer(id: EscalationId, me: PartyId, text: string)
    | Owing(events: map<Claim, Event>)

  datatype Desk = Desk(records: Records, log: seq<Event>, calls: map<CallId, Call>, lost: multiset<Claim>)

  datatype Move =
    | Raise(call: CallId, id: EscalationId, request: Request, directory: Directory)
    | ReadForReceipt(call: CallId, id: EscalationId, me: Humans.Human)
    | ReadForAnswer(call: CallId, id: EscalationId, me: Humans.Human, text: string)
    | Update(call: CallId)
    | WriteEvent(call: CallId, claim: Claim)
    | Sweep(call: CallId)
    | SetDeadline(id: EscalationId, at: Time)
    | Crash(call: CallId)

  function Owes(took: bool, e: Event): Call {
    Owing(if took then map[e.claim := e] else map[])
  }

  /** One atomic step; a step that is not enabled, or that a check refuses, changes nothing. */
  function Step(s: Desk, m: Move, now: Time): Desk {
    match m
    case Raise(call, id, request, directory) =>
      if call in s.calls || id in s.records || RouteOf(directory, request).Err? then s
      else s.(records := Raised(s.records, id, request, RouteOf(directory, request).value, now),
              calls := s.calls[call := Owes(true, Event(Claim(WasRaised, id), request.raisedBy, ""))])
    case ReadForReceipt(call, id, me) =>
      if call in s.calls || ReceiptRefusal(s.records, id, me).Some? then s
      else s.(calls := s.calls[call := ToReceive(id, me.id)])
    case ReadForAnswer(call, id, me, text) =>
      if call in s.calls || AnswerRefusal(s.records, id, me, text).Some? then s
      else s.(calls := s.calls[call := ToAnswer(id, me.id, text)])
    case Update(call) =>
      if call !in s.calls then s else (
        match s.calls[call]
        case ToReceive(id, me) =>
          var (records, took) := Received(s.records, id, me, now);
          s.(records := records, calls := s.calls[call := Owes(took, Event(Claim(WasReceived, id), me, ""))])
        case ToAnswer(id, me, text) =>
          var (records, took) := Answered(s.records, id, me, Strip(text), now);
          s.(records := records, calls := s.calls[call := Owes(took, Event(Claim(WasAnswered, id), me, Strip(text)))])
        case Owing(_) => s)
    case WriteEvent(call, claim) =>
      if call !in s.calls || !s.calls[call].Owing? || claim !in s.calls[call].events then s
      else s.(log := s.log + [s.calls[call].events[claim]],
              calls := s.calls[call := Owing(s.calls[call].events - {claim})])
    case Sweep(call) =>
      if call in s.calls then s
      else s.(records := Expired(s.records, now), calls := s.calls[call := Owing(ExpiryEvents(s.records, now))])
    case SetDeadline(id, at) =>
      if id !in s.records || s.records[id].expiredAt.Some? then s
      else s.(records := s.records[id := s.records[id].(expiresAt := Some(at))])
    case Crash(call) =>
      if call !in s.calls then s
      else s.(calls := s.calls - {call},
              lost := s.lost + (if s.calls[call].Owing? then multiset(s.calls[call].events.Keys) else multiset{}))
  }

  function Run(s: Desk, moves: seq<(Move, Time)>): Desk
    decreases |moves|
  {
    if moves == [] then s else Run(Step(s, moves[0].0, moves[0].1), moves[1..])
  }

  ghost predicate Ordered(from: Time, moves: seq<(Move, Time)>)
    decreases |moves|
  {
    moves != [] ==> from <= moves[0].1 && Ordered(moves[0].1, moves[1..])
  }

  // ------------------------------------------------ conservation of claims

  /** Whether the table says what the claim says. */
  predicate Holds(records: Records, c: Claim) {
    c.id in records &&
    match c.kind
    case WasRaised => true
    case WasReceived => records[c.id].received.Some?
    case WasAnswered => records[c.id].answered.Some?
    case WasExpired => records[c.id].expiredAt.Some?
  }

  function Written(log: seq<Event>, c: Claim): nat {
    if log == [] then 0 else Written(log[..|log| - 1], c) + (if log[|log| - 1].claim == c then 1 else 0)
  }

  predicate OwesClaim(call: Call, c: Claim) { call.Owing? && c in call.events }

  /** The calls that have made the update and not yet written its event. */
  function Owed(calls: map<CallId, Call>, c: Claim): set<CallId> {
    set call | call in calls && OwesClaim(calls[call], c)
  }

  function Bit(b: bool): nat { if b then 1 else 0 }

  /** Written, still owed, or lost to a crash: together exactly one event per fact on record. */
  ghost predicate Conserved(s: Desk) {
    forall c :: Balanced(s, c)
  }

  ghost predicate Balanced(s: Desk, c: Claim) {
    Written(s.log, c) + |Owed(s.calls, c)| + s.lost[c] == Bit(Holds(s.records, c))
  }

  lemma OwedAfterUpdate(calls: map<CallId, Call>, call: CallId, next: Call, c: Claim)
    ensures |Owed(calls[call := next], c)|
            == |Owed(calls, c)| - Bit(call in calls && OwesClaim(calls[call], c)) + Bit(OwesClaim(next, c))
  {
    var before, after := Owed(calls, c), Owed(calls[call := next], c);
    assert after - {call} == before - {call};
    assert |after| == |after - {call}| + Bit(call in after);
    assert |before| == |before - {call}| + Bit(call in before);
  }

  lemma OwedAfterCrash(calls: map<CallId, Call>, call: CallId, c: Claim)
    requires call in calls
    ensures |Owed(calls - {call}, c)| == |Owed(calls, c)| - Bit(OwesClaim(calls[call], c))
  {
    assert Owed(calls - {call}, c) == Owed(calls, c) - {call};
  }

  lemma WrittenAfterAppend(log: seq<Event>, e: Event, c: Claim)
    ensures Written(log + [e], c) == Written(log, c) + Bit(e.claim == c)
  {
    assert (log + [e])[..|log|] == log;
  }

  /** Events are filed under the claim they make. */
  ghost predicate WellFiled(s: Desk) {
    forall call :: call in s.calls && s.calls[call].Owing? ==>
      forall c :: c in s.calls[call].events ==> s.calls[call].events[c].claim == c
  }

  /** A call that takes over a claim just as the table comes to hold it keeps the balance. */
  lemma TakeOverBalances(s: Desk, records: Records, call: CallId, next: Call, c: Claim)
    requires Balanced(s, c) && !(call in s.calls && OwesClaim(s.calls[call], c))
    requires Bit(Holds(records, c)) == Bit(Holds(s.records, c)) + Bit(OwesClaim(next, c))
    ensures Balanced(s.(records := records, calls := s.calls[call := next]), c)
  {
    OwedAfterUpdate(s.calls, call, next, c);
  }

  lemma UpdateBalances(s: Desk, call: CallId, now: Time, c: Claim)
    requires Balanced(s, c) && call in s.calls
    ensures Balanced(Step(s, Update(call), now), c)
  {
    match s.calls[call]
    case ToReceive(id, me) =>
      var (records, took) := Received(s.records, id, me, now);
      TakeOverBalances(s, records, call, Owes(took, Event(Claim(WasReceived, id), me, "")), c);
    case ToAnswer(id, me, text) =>
      var (records, took) := Answered(s.records, id, me, Strip(text), now);
      TakeOverBalances(s, records, call, Owes(took, Event(Claim(WasAnswered, id), me, Strip(text))), c);
    case Owing(_) =>
  }

  lemma WriteBalances(s: Desk, call: CallId, claim: Claim, now: Time, c: Claim)
    requires Balanced(s, c) && WellFiled(s)
    ensures Balanced(Step(s, WriteEvent(call, claim), now), c)
  {
    if call in s.calls && OwesClaim(s.calls[call], claim) {
      OwedAfterUpdate(s.calls, call, Owing(s.calls[call].events - {claim}), c);
      WrittenAfterAppend(s.log, s.calls[call].events[claim], c);
    }
  }

  lemma SweepBalances(s: Desk, call: CallId, now: Time, c: Claim)
    requires Balanced(s, c)
    ensures Balanced(Step(s, Sweep(call), now), c)
  {
    if call !in s.calls {
      TakeOverBalances(s, Expired(s.records, now), call, Owing(ExpiryEvents(s.records, now)), c);
    }
  }

  lemma CrashBalances(s: Desk, call: CallId, now: Time, c: Claim)
    requires Balanced(s, c)
    ensures Balanced(Step(s, Crash(call), now), c)
  {
    if call in s.calls {
      OwedAfterCrash(s.calls, call, c);
    }
  }

  lemma OpeningBalances(s: Desk, m: Move, now: Time, c: Claim)
    requires Balanced(s, c) && (m.Raise? || m.ReadForReceipt? || m.ReadForAnswer? || m.SetDeadline?)
    ensures Balanced(Step(s, m, now), c)
  {
    var s' := Step(s, m, now);
    if s' != s && !m.SetDeadline? {
      TakeOverBalances(s, s'.records, m.call, s'.calls[m.call], c);
      assert s' == s.(records := s'.records, calls := s.calls[m.call := s'.calls[m.call]]);
    }
  }

  lemma StepConserves(s: Desk, m: Move, now: Time)
    requires Conserved(s) && WellFiled(s)
    ensures Conserved(Step(s, m, now)) && WellFiled(Step(s, m, now))
  {
    forall c ensures Balanced(Step(s, m, now), c) {
      assert Balanced(s, c);
      match m
      case Update(call) => if call in s.calls { UpdateBalances(s, call, now, c); }
      case WriteEvent(call, claim) => WriteBalances(s, call, claim, now, c);
      case Sweep(call) => SweepBalances(s, call, now, c);
      case Crash(call) => CrashBalances(s, call, now, c);
      case _ => OpeningBalances(s, m, now, c);
    }
  }

  /** Whatever the interleaving and whichever calls die, each fact on record has its one event accounted for. */
  lemma {:induction false} ClaimsAreConserved(s: Desk, moves: seq<(Move, Time)>)
    requires Conserved(s) && WellFiled(s)
    ensures Conserved(Run(s, moves)) && WellFiled(Run(s, moves))
    decreases |moves|
  {
    if moves != [] {
      StepConserves(s, moves[0].0, moves[0].1);
      ClaimsAreConserved(Step(s, moves[0].0, moves[0].1), moves[1..]);
    }
  }

  function EmptyDesk(): Desk { Desk(map[], [], map[], multiset{}) }

  /** From the empty tables on, then, every desk any interleaving reaches has each fact's one event accounted for. */
  lemma {:induction false} ReachableDesksConserve(moves: seq<(Move, Time)>)
    ensures Conserved(Run(EmptyDesk(), moves))
  {
    forall c ensures Balanced(EmptyDesk(), c) {
      assert Owed(EmptyDesk().calls, c) == {};
    }
    ClaimsAreConserved(EmptyDesk(), moves);
  }

  /** Exactly once: a fact never has two events, and once nobody owes one and no call has died it has one. */
  lemma {:induction false} EventsAreExactlyOnce(s: Desk, moves: seq<(Move, Time)>, c: Claim)
    requires Conserved(s) && WellFiled(s)
    ensures var end := Run(s, moves);
            && Written(end.log, c) <= Bit(Holds(end.records, c))
            && (Owed(end.calls, c) == {} && end.lost[c] == 0 ==> Written(end.log, c) == Bit(Holds(end.records, c)))
  {
    ClaimsAreConserved(s, moves);
    assert Balanced(Run(s, moves), c);
  }

  // ------------------------------------------------ facts on record never change

  predicate Kept<T(==)>(before: Option<T>, after: Option<T>) { before.Some? ==> after == before }

  predicate Extends(r: Record, later: Record) {
    && Kept(r.received, later.received) && Kept(r.answered, later.answered) && Kept(r.expiredAt, later.expiredAt)
    && later == r.(received := later.received, answered := later.answered, expiresAt := later.expiresAt,
                   expiredAt := later.expiredAt)
  }

  ghost predicate AllExtend(records: Records, later: Records) {
    forall id :: id in records ==> id in later && Extends(records[id], later[id])
  }

  lemma StepExtends(s: Desk, m: Move, now: Time)
    ensures AllExtend(s.records, Step(s, m, now).records)
  {
  }

  /** What was raised, and a receipt, an answer or an expiry once recorded, stand for good. */
  lemma {:induction false} FactsStand(s: Desk, moves: seq<(Move, Time)>)
    ensures AllExtend(s.records, Run(s, moves).records)
    decreases |moves|
  {
    if moves != [] {
      var next := Step(s, moves[0].0, moves[0].1);
      StepExtends(s, moves[0].0, moves[0].1);
      FactsStand(next, moves[1..]);
      forall id | id in s.records
        ensures id in Run(s, moves).records && Extends(s.records[id], Run(s, moves).records[id])
      {
        assert Extends(s.records[id], next.records[id]);
      }
    }
  }

  // ------------------------------------------------ what every record satisfies

  /**
   * Received and answered, if at all, by the routed human and not the raiser, in that order;
   * expired, if at all, at its own deadline and before any receipt.
   */
  ghost predicate Sound(r: Record, now: Time) {
    && r.raisedAt <= now
    && (r.routedHuman.Some? <==> r.path == Governance) && (r.kind in GOVERNANCE_ONLY ==> r.path == Governance)
    && (r.received.Some? ==> r.raisedAt <= r.received.value.at <= now
                             && r.routedHuman == Some(r.received.value.actor) && r.received.value.actor != r.raisedBy)
    && (r.answered.Some? ==> r.received.Some? && r.received.value.at <= r.answered.value.at <= now
                             && r.answered.value.actor == r.received.value.actor && r.answered.value.text != "")
    && (r.expiredAt.Some? ==> r.expiredAt == r.expiresAt && r.expiredAt.value <= now
                              && (r.received.Some? ==> r.expiredAt.value <= r.received.value.at))
  }

  /** A call between its read and its update still satisfies what the read checked. */
  ghost predicate Checked(records: Records, call: Call) {
    match call
    case ToReceive(id, me) => id in records && records[id].routedHuman == Some(me) && me != records[id].raisedBy
    case ToAnswer(id, me, text) =>
      id in records && records[id].routedHuman == Some(me) && me != records[id].raisedBy
      && records[id].received.Some? && !Blank(text)
    case Owing(events) => forall c :: c in events ==> events[c].claim == c && Truthful(records, events[c])
  }

  /** The event says who did it and what they said, as the table has it. */
  ghost predicate Truthful(records: Records, e: Event) {
    Holds(records, e.claim) &&
    var r := records[e.claim.id];
    match e.claim.kind
    case WasRaised => e.actor == r.raisedBy
    case WasReceived => e.actor == r.received.value.actor
    case WasAnswered => e.actor == r.answered.value.actor && e.text == r.answered.value.text
    case WasExpired => e.actor == r.raisedBy
  }

  ghost predicate AllSound(s: Desk, now: Time) {
    && (forall id :: id in s.records ==> Sound(s.records[id], now))
    && (forall call :: call in s.calls ==> Checked(s.records, s.calls[call]))
    && (forall e :: e in s.log ==> Truthful(s.records, e))
  }

  lemma ExtensionKeepsCalls(records: Records, later: Records, call: Call)
    requires AllExtend(records, later) && Checked(records, call)
    ensures Checked(later, call)
  {
    if call.Owing? {
      forall c | c in call.events ensures Truthful(later, call.events[c]) {
        assert Extends(records[c.id], later[c.id]);
      }
    }
  }

  lemma ExtensionKeepsEvents(records: Records, later: Records, e: Event)
    requires AllExtend(records, later) && Truthful(records, e)
    ensures Truthful(later, e)
  {
    assert Extends(records[e.claim.id], later[e.claim.id]);
  }

  lemma ReceivingKeepsSound(records: Records, id: EscalationId, me: PartyId, before: Time, now: Time, k: EscalationId)
    requires k in records && Sound(records[k], before) && before <= now && Checked(records, ToReceive(id, me))
    ensures Sound(Received(records, id, me, now).0[k], now)
  {
  }

  lemma AnsweringKeepsSound(records: Records, id: EscalationId, me: PartyId, text: string, before: Time, now: Time,
                            k: EscalationId)
    requires k in records && Sound(records[k], before) && before <= now && Checked(records, ToAnswer(id, me, text))
    ensures Sound(Answered(records, id, me, Strip(text), now).0[k], now)
  {
  }

  lemma UpdateKeepsRecordSound(s: Desk, call: CallId, before: Time, now: Time, id: EscalationId)
    requires id in s.records && Sound(s.records[id], before) && before <= now
    requires call in s.calls && Checked(s.records, s.calls[call])
    ensures Sound(Step(s, Update(call), now).records[id], now)
  {
    match s.calls[call]
    case ToReceive(k, me) => ReceivingKeepsSound(s.records, k, me, before, now, id);
    case ToAnswer(k, me, text) => AnsweringKeepsSound(s.records, k, me, text, before, now, id);
    case Owing(_) =>
  }

  lemma ExpiringKeepsSound(records: Records, before: Time, now: Time, k: EscalationId)
    requires k in records && Sound(records[k], before) && before <= now
    ensures Sound(Expired(records, now)[k], now)
  {
  }

  lemma DeadlineKeepsSound(s: Desk, m: Move, before: Time, now: Time, id: EscalationId)
    requires id in s.records && Sound(s.records[id], before) && before <= now && m.SetDeadline?
    ensures Sound(Step(s, m, now).records[id], now)
  {
  }

  lemma RaisingIsSound(d: Directory, records: Records, id: EscalationId, r: Request, now: Time)
    requires RouteOf(d, r).Ok?
    ensures Sound(Raised(records, id, r, RouteOf(d, r).value, now)[id], now)
  {
  }

  lemma StepKeepsRecordSound(s: Desk, m: Move, before: Time, now: Time, id: EscalationId)
    requires AllSound(s, before) && before <= now && id in Step(s, m, now).records
    ensures Sound(Step(s, m, now).records[id], now)
  {
    if id !in s.records {
      RaisingIsSound(m.directory, s.records, id, m.request, now);
      return;
    }
    assert Sound(s.records[id], before);
    match m
    case Update(call) => if call in s.calls { UpdateKeepsRecordSound(s, call, before, now, id); }
    case Sweep(_) => ExpiringKeepsSound(s.records, before, now, id);
    case SetDeadline(_, _) => DeadlineKeepsSound(s, m, before, now, id);
    case _ => assert Step(s, m, now).records[id] == s.records[id];
  }

  lemma UpdateOpensChecked(s: Desk, call: CallId, now: Time)
    requires call in s.calls && Checked(s.records, s.calls[call])
    ensures Checked(Step(s, Update(call), now).records, Step(s, Update(call), now).calls[call])
  {
  }

  lemma SweepOpensChecked(records: Records, now: Time)
    ensures Checked(Expired(records, now), Owing(ExpiryEvents(records, now)))
  {
  }

  /** The call a move touches is checked when the move is done. */
  lemma StepOpensChecked(s: Desk, m: Move, now: Time, call: CallId)
    requires AllSound(s, now) && call in Step(s, m, now).calls
    requires call !in s.calls || Step(s, m, now).calls[call] != s.calls[call]
    ensures Checked(Step(s, m, now).records, Step(s, m, now).calls[call])
  {
    match m
    case Update(_) =>
      assert Checked(s.records, s.calls[call]);
      UpdateOpensChecked(s, call, now);
    case WriteEvent(_, _) => assert Checked(s.records, s.calls[call]);
    case Sweep(_) => SweepOpensChecked(s.records, now);
    case _ =>
  }

  lemma StepKeepsSound(s: Desk, m: Move, before: Time, now: Time)
    requires AllSound(s, before) && before <= now
    ensures AllSound(Step(s, m, now), now)
  {
    var s' := Step(s, m, now);
    StepExtends(s, m, now);
    forall id | id in s'.records ensures Sound(s'.records[id], now) {
      StepKeepsRecordSound(s, m, before, now, id);
    }
    assert AllSound(s, now);
    forall call | call in s'.calls ensures Checked(s'.records, s'.calls[call]) {
      if call in s.calls && s'.calls[call] == s.calls[call] {
        ExtensionKeepsCalls(s.records, s'.records, s.calls[call]);
      } else {
        StepOpensChecked(s, m, now, call);
      }
    }
    forall e | e in s'.log ensures Truthful(s'.records, e) {
      if e in s.log {
        ExtensionKeepsEvents(s.records, s'.records, e);
      } else {
        assert Checked(s.records, s.calls[m.call]);
      }
    }
  }

  /** On every interleaving every record stays sound and every event, written or owed, stays truthful. */
  lemma {:induction false} RecordsStaySound(s: Desk, moves: seq<(Move, Time)>, from: Time)
    requires AllSound(s, from) && Ordered(from, moves)
    ensures AllSound(Run(s, moves), if moves == [] then from else moves[|moves| - 1].1)
    decreases |moves|
  {
    if moves != [] {
      StepKeepsSound(s, moves[0].0, from, moves[0].1);
      RecordsStaySound(Step(s, moves[0].0, moves[0].1), moves[1..], moves[0].1);
    }
  }

  /** So from the empty tables on every record is sound and every event truthful. */
  lemma {:induction false} ReachableDesksAreSound(moves: seq<(Move, Time)>, from: Time)
    requires Ordered(from, moves)
    ensures AllSound(Run(EmptyDesk(), moves), if moves == [] then from else moves[|moves| - 1].1)
  {
    RecordsStaySound(EmptyDesk(), moves, from);
  }

  /**
   * The page's overdue flag and the sweep's overdue query, written apart, flag the same records
   * of every reachable table. A governance decision never travelled the operational path, and
   * what did travel it nobody ever receives, because it is routed to a title and no human.
   */
  lemma {:induction false} OverdueRulesAgree(s: Desk, moves: seq<(Move, Time)>, from: Time,
                                             id: EscalationId, now: Time)
    requires AllSound(s, from) && Ordered(from, moves) && id in Run(s, moves).records
    ensures var r := Run(s, moves).records[id];
            && (r.IsOverdue(now) <==> r.ListedOverdue(now))
            && (r.IsOverdue(now) <==> r.received.None? && r.raisedAt + 14400 <= now)
            && (r.kind in GOVERNANCE_ONLY ==> r.path == Governance)
            && (r.path == Operational ==> r.Waiting())
  {
    RecordsStaySound(s, moves, from);
    assert Sound(Run(s, moves).records[id], if moves == [] then from else moves[|moves| - 1].1);
  }

  // ------------------------------------------------ the desk as one caller at a time drives it

  /** One call's three steps with nobody in between. */
  function Alone(records: Records, log: seq<Event>, read: Move, claim: Claim, now: Time): Desk {
    var begun := Step(Desk(records, log, map[], multiset{}), read, now);
    Step(Step(begun, Update(0), now), WriteEvent(0, claim), now)
  }

  /** `later` is `log` followed by each of `events`, once, in some order. */
  ghost predicate ExtendsByEach(log: seq<Event>, later: seq<Event>, events: map<Claim, Event>) {
    && log <= later
    && (forall i :: |log| <= i < |later| ==> later[i].claim in events && later[i] == events[later[i].claim])
    && (forall c :: Written(later, c) == Written(log, c) + Bit(c in events))
  }

  lemma OneMoreEvent(log: seq<Event>, later: seq<Event>, events: map<Claim, Event>, e: Event)
    requires ExtendsByEach(log, later, events) && e.claim !in events
    ensures ExtendsByEach(log, later + [e], events[e.claim := e])
  {
    forall c ensures Written(later + [e], c) == Written(later, c) + Bit(e.claim == c) {
      WrittenAfterAppend(later, e, c);
    }
  }

  // ------------------------------------------------ what each act does, in the stored columns

  /** Where an escalation may go, and that it goes to the human named there or to the seat's title. */
  lemma RoutedIff(d: Directory, r: Request)
    ensures var key := (r.venture, if r.department.None? then "*" else r.department.value);
            && (RouteOf(d, r).Ok? <==>
                  && !AllBlank(r.reason)
                  && (r.path == Operational ==>
                        && r.kind !in {"capacity_shortfall", "certification", "revocation", "incident", "grant",
                                       "appointment"}
                        && d.seat.Some? && !AllBlank(d.seat.value))
                  && (r.path == Governance ==> key in d.recipients && !AllBlank(d.recipients[key].name)))
            && (RouteOf(d, r).Ok? && r.path == Governance ==>
                  RouteOf(d, r).value == Route(d.recipients[key].name, Some(d.recipients[key].human)))
            && (RouteOf(d, r).Ok? && r.path == Operational ==> RouteOf(d, r).value == Route(d.seat.value, None))
  {
    BlankIffAllBlank(r.reason);
    if r.path == Operational && d.seat.Some? {
      BlankIffAllBlank(d.seat.value);
    }
    if RecipientFor(d, r.venture, r.department).Some? {
      BlankIffAllBlank(RecipientFor(d, r.venture, r.department).value.name);
    }
  }

  /** What was raised is on record as it was put, by whom and when, waiting on whom it was routed to. */
  lemma RaisingTakesEffect(d: Directory, records: Records, log: seq<Event>, id: EscalationId, r: Request, now: Time)
    requires id !in records
    ensures var end := Alone(records, log, Raise(0, id, r, d), Claim(WasRaised, id), now);
            if RouteOf(d, r).Err? then end.records == records && end.log == log
            else
              && end.log == log + [Event(Claim(WasRaised, id), r.raisedBy, "")]
              && end.records == records[id := Record(r.venture, r.department, r.path, r.kind, Strip(r.reason), now,
                                                     r.raisedBy, RouteOf(d, r).value.name, RouteOf(d, r).value.human,
                                                     None, None, None, None)]
  {
  }

  /** The person it was routed to, unless they raised it, may receive it and, having received it, answer it in words. */
  predicate MayAct(records: Records, id: EscalationId, me: Humans.Human) {
    && id in records && me.origin == Humans.Person
    && records[id].routedHuman.Some? && records[id].routedHuman.value == me.id && records[id].raisedBy != me.id
  }

  lemma DeskOpensIff(records: Records, id: EscalationId, me: Humans.Human, text: string)
    ensures ReceiptRefusal(records, id, me).None? <==> MayAct(records, id, me)
    ensures AnswerRefusal(records, id, me, text).None? <==>
            MayAct(records, id, me) && records[id].received.Some? && !AllBlank(text)
  {
    BlankIffAllBlank(text);
  }

  /** A refusal, to raise, to receive or to answer, names something that is so. */
  lemma RefusalsAreTrue(d: Directory, r: Request, records: Records, id: EscalationId, me: Humans.Human, text: string)
    ensures RouteOf(d, r) == Err(WrongPath) ==> r.path == Operational && r.kind in GOVERNANCE_ONLY
    ensures RouteOf(d, r) == Err(NoReason) ==> AllBlank(r.reason)
    ensures RouteOf(d, r) == Err(NobodyNamed) ==>
              r.path == Governance
              && var key := (r.venture, if r.department.None? then "*" else r.department.value);
                 key !in d.recipients || AllBlank(d.recipients[key].name)
    ensures RouteOf(d, r) == Err(SeatVacant) ==> r.path == Operational && (d.seat.None? || AllBlank(d.seat.value))
    ensures RouteOf(d, r).Err? ==> RouteOf(d, r).error in {WrongPath, NoReason, NobodyNamed, SeatVacant}
    ensures AnswerRefusal(records, id, me, text) == Some(EmptyAnswer) <==> AllBlank(text)
    ensures AnswerRefusal(records, id, me, text) == Some(NotReceived) <==>
            !AllBlank(text) && MayAct(records, id, me) && records[id].received.None?
    ensures !AllBlank(text) && ReceiptRefusal(records, id, me).Some? ==>
              AnswerRefusal(records, id, me, text) == ReceiptRefusal(records, id, me)
    ensures match ReceiptRefusal(records, id, me)
            case None => true
            case Some(NoSuchEscalation) => id !in records
            case Some(NotAPerson) => me.origin != Humans.Person
            case Some(NotTheRecipient) => id in records && records[id].routedHuman != Some(me.id)
            case Some(Raiser) => id in records && records[id].raisedBy == me.id
            case Some(_) => false
  {
    BlankIffAllBlank(text);
    BlankIffAllBlank(r.reason);
    if d.seat.Some? {
      BlankIffAllBlank(d.seat.value);
    }
    if RecipientFor(d, r.venture, r.department).Some? {
      BlankIffAllBlank(RecipientFor(d, r.venture, r.department).value.name);
    }
  }

  /** The first receipt, expired or not, stamps the actor and the moment and says so once; nothing else changes. */
  lemma ReceivingTakesEffect(records: Records, log: seq<Event>, id: EscalationId, me: Humans.Human, now: Time)
    ensures var end := Alone(records, log, ReadForReceipt(0, id, me), Claim(WasReceived, id), now);
            if MayAct(records, id, me) && records[id].received.None?
            then end.records == records[id := records[id].(received := Some(Stamp(now, me.id)))]
                 && end.log == log + [Event(Claim(WasReceived, id), me.id, "")]
            else end.records == records && end.log == log
  {
    DeskOpensIff(records, id, me, "");
  }

  /** The first answer after a receipt is recorded in the actor's words and said once; nothing else changes. */
  lemma AnsweringTakesEffect(records: Records, log: seq<Event>, id: EscalationId, me: Humans.Human, text: string,
                             now: Time)
    ensures var end := Alone(records, log, ReadForAnswer(0, id, me, text), Claim(WasAnswered, id), now);
            if MayAct(records, id, me) && records[id].received.Some? && !AllBlank(text) && records[id].answered.None?
            then end.records == records[id := records[id].(answered := Some(Answer(now, me.id, Strip(text))))]
                 && end.log == log + [Event(Claim(WasAnswered, id), me.id, Strip(text))]
            else end.records == records && end.log == log
  {
    DeskOpensIff(records, id, me, text);
  }

  /** A sweep expires, at its deadline, exactly what is past one unreceived, unanswered and unexpired, and says so. */
  lemma SweepingTakesEffect(records: Records, now: Time)
    ensures Expired(records, now).Keys == records.Keys
    ensures forall id :: id in records ==>
              var r := records[id];
              var due := r.expiresAt.Some? && r.expiresAt.value <= now && r.received.None? && r.answered.None?
                         && r.expiredAt.None?;
              && Expired(records, now)[id] == (if due then r.(expiredAt := r.expiresAt) else r)
              && (Claim(WasExpired, id) in ExpiryEvents(records, now) <==> due)
              && (due ==>
                    ExpiryEvents(records, now)[Claim(WasExpired, id)] == Event(Claim(WasExpired, id), r.raisedBy, ""))
    ensures forall c :: c in ExpiryEvents(records, now) ==> c.kind == WasExpired && c.id in records
  {
  }

  /** The sweep as one step of the machine: the rows expire at once, and it owes an event for each. */
  lemma SweepStepTakesEffect(s: Desk, call: CallId, now: Time)
    requires call !in s.calls
    ensures var after := Step(s, Sweep(call), now);
            && after == s.(records := after.records, calls := after.calls) && after.records == Expired(s.records, now)
            && after.calls == s.calls[call := Owing(ExpiryEvents(s.records, now))]
  {
  }

  /** A crash ends the call, loses the events it owed and undoes nothing it had done. */
  lemma CrashTakesEffect(s: Desk, call: CallId, now: Time)
    requires call in s.calls
    ensures var after := Step(s, Crash(call), now);
            && after.records == s.records && after.log == s.log && call !in after.calls
            && (forall c :: c in s.calls && c != call ==> c in after.calls && after.calls[c] == s.calls[c])
            && (forall c :: after.lost[c]
                            == s.lost[c] + if s.calls[call].Owing? && c in s.calls[call].events then 1 else 0)
  {
  }

  /** The page's rule and the sweep's part exactly over an overdue escalation answered and never received. */
  lemma OverdueRulesPart(r: Record, now: Time)
    ensures (r.IsOverdue(now) <==> r.ListedOverdue(now)) <==>
            r.received.Some? || r.answered.None? || now - r.raisedAt < 14400
  {
  }

  /** A deadline is put on what has not expired, and nothing else changes. */
  lemma DeadlineTakesEffect(s: Desk, id: EscalationId, at: Time, now: Time)
    ensures var after := Step(s, SetDeadline(id, at), now);
            && after == s.(records := after.records) && after.records.Keys == s.records.Keys
            && (forall e :: e in s.records && e != id ==> after.records[e] == s.records[e])
            && (id in s.records ==>
                  after.records[id] == s.records[id].(expiresAt := if s.records[id].expiredAt.None? then Some(at)
                                                                   else s.records[id].expiresAt))
  {
  }

  class EscalationDesk {
    var records: Records
    var log: seq<Event>

    constructor ()
      ensures records == map[] && log == []
    {
      records, log := map[], [];
    }

    method RaiseEscalation(d: Directory, id: EscalationId, request: Request, now: Time)
      returns (r: Result<Record, Refusal>)
      requires id !in records
      modifies this
      ensures r.Err? ==> RouteOf(d, request) == Err(r.error)
      ensures r.Ok? ==> id in records && r.value == records[id]
      ensures var end := Alone(old(records), old(log), Raise(0, id, request, d), Claim(WasRaised, id), now);
              records == end.records && log == end.log
    {
      if request.kind in GOVERNANCE_ONLY && request.path == Operational {
        return Err(WrongPath);
      }
      if Strip(request.reason) == "" {
        return Err(NoReason);
      }
      var route: Route;
      if request.path == Governance {
        var named := RecipientFor(d, request.venture, request.department);
        if named.None? {
          return Err(NobodyNamed);
        }
        route := Route(named.value.name, Some(named.value.human));
        if Strip(route.name) == "" {
          return Err(NobodyNamed);
        }
      } else {
        if d.seat.None? || Strip(d.seat.value) == "" {
          return Err(SeatVacant);
        }
        route := Route(d.seat.value, None);
      }
      records := records[id := Record(request.venture, request.department, request.path, request.kind,
                                      Strip(request.reason), now, request.raisedBy, route.name, route.human,
                                      None, None, None, None)];
      log := log + [Event(Claim(WasRaised, id), request.raisedBy, "")];
      return Ok(records[id]);
    }

    /** Idempotent on the first receipt: a second one writes neither a stamp nor an event. */
    method RecordReceipt(id: EscalationId, me: Humans.Human, now: Time) returns (r: Result<Record, Refusal>)
      modifies this
      ensures r.Err? ==> ReceiptRefusal(old(records), id, me) == Some(r.error)
      ensures r.Ok? ==> id in records && r.value == records[id] && r.value.received.Some?
      ensures var end := Alone(old(records), old(log), ReadForReceipt(0, id, me), Claim(WasReceived, id), now);
              records == end.records && log == end.log
    {
      if id !in records {
        return Err(NoSuchEscalation);
      }
      var refusal := OnlyTheRoutedHuman(records[id], me);
      if refusal.Some? {
        return Err(refusal.value);
      }
      var received := false;
      if records[id].received.None? {
        records := records[id := records[id].(received := Some(Stamp(now, me.id)))];
        received := true;
      }
      if received {
        log := log + [Event(Claim(WasReceived, id), me.id, "")];
      }
      return Ok(records[id]);
    }

    /** Refused empty and before a receipt; a second answer changes nothing and says nothing. */
    method RecordAnswer(id: EscalationId, me: Humans.Human, text: string, now: Time)
      returns (r: Result<Record, Refusal>)
      modifies this
      ensures r.Err? ==> AnswerRefusal(old(records), id, me, text) == Some(r.error)
      ensures r.Ok? ==> id in records && r.value == records[id] && r.value.answered.Some?
      ensures var end := Alone(old(records), old(log), ReadForAnswer(0, id, me, text), Claim(WasAnswered, id), now);
              records == end.records && log == end.log
    {
      if Strip(text) == "" {
        return Err(EmptyAnswer);
      }
      if id !in records {
        return Err(NoSuchEscalation);
      }
      var refusal := OnlyTheRoutedHuman(records[id], me);
      if refusal.Some? {
        return Err(refusal.value);
      }
      if records[id].received.None? {
        return Err(NotReceived);
      }
      var answeredNow := false;
      if records[id].answered.None? {
        records := records[id := records[id].(answered := Some(Answer(now, me.id, Strip(text))))];
        answeredNow := true;
      }
      if answeredNow {
        log := log + [Event(Claim(WasAnswered, id), me.id, Strip(text))];
      }
      return Ok(records[id]);
    }

    /** One update for every deadline passed, then one event for each row it changed. */
    method ExpireOverdueEscalations(now: Time) returns (expired: set<EscalationId>)
      modifies this
      ensures records == Expired(old(records), now)
      ensures expired == set id | id in old(records) && old(records)[id].Expirable(now)
      ensures ExtendsByEach(old(log), log, ExpiryEvents(old(records), now))
    {
      var noticed := ExpiryEvents(records, now);
      expired := set id | id in records && records[id].Expirable(now);
      records := map id | id in records ::
        if id in expired then records[id].(expiredAt := records[id].expiresAt) else records[id];
      var left := noticed.Keys;
      while left != {}
        invariant left <= noticed.Keys && records == Expired(old(records), now)
        invariant ExtendsByEach(old(log), log, noticed - left)
        decreases left
      {
        var claim :| claim in left;
        OneMoreEvent(old(log), log, noticed - left, noticed[claim]);
        assert (noticed - left)[claim := noticed[claim]] == noticed - (left - {claim});
        log := log + [noticed[claim]];
        left := left - {claim};
      }
      assert noticed - left == noticed;
    }
  }
}
