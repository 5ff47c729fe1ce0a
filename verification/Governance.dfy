/**
 * Governance as a state machine: every act that changes the tables is one committed step, and
 * these are the properties of all runs of them.
 */
module Governance {
  import opened Wrappers
  import opened Versions
  import opened Instructions
  import opened Tables
  import opened Certification
  import opened Grants
  import Simulation
  import Humans

  datatype Act =
    | RecordResult(key: CertKey, report: Report)
    | CertifyForSimulation(venture: VentureId, department: Department, forge: ForgeId, me: Humans.Human, reason: string)
    | RecomputeStaleness(forge: ForgeId, only: Option<ModuleId>)
    | Author(forge: ForgeId, mod: ModuleId, draft: Draft)
    | Declare(venture: VentureId, me: Humans.Human, reason: string)
    | Leave(venture: VentureId, me: Humans.Human, reason: string)
    | IssueLadder(agent: AgentId, forge: ForgeId, mod: ModuleId, venture: VentureId, planned: Option<Tier>)
    | RetireReplaced(venture: VentureId)
    | IssueBootstrap(agent: AgentId, forge: ForgeId, mod: ModuleId, venture: VentureId, tier: Tier, revoked: bool)
    | Activate(venture: VentureId, covered: set<GrantId>)
    | Retire(ids: set<GrantId>, me: Humans.Human, reason: string)
    | Deactivate(venture: VentureId, me: Humans.Human, reason: string)
    | Appoint(agent: AgentId, department: Department)
    | SetIdentity(agent: AgentId, active: bool)
    | MoveAgent(agent: AgentId, department: Department)
    | Register(registry: Registry)

  /** One committed act, or the refusal that left every table alone. */
  ghost function Step(s: Gov, act: Act, now: Time): Result<Gov, Refusal> {
    match act
    case RecordResult(key, report) => Recorded(s, key, report, now)
    case CertifyForSimulation(venture, department, forge, me, reason) =>
      CertifiedForSimulation(s, venture, department, forge, me, reason, now)
    case RecomputeStaleness(forge, only) => Recomputed(s, forge, only, now)
    case Author(forge, mod, draft) =>
      var h, registered := RowsOf(s.instructions, (forge, mod)), (forge, mod) in s.registry.modules;
      if Objection(h, registered, draft).Some? then Err(NotAuthored(Objection(h, registered, draft).value))
      else Ok(s.(instructions := s.instructions[(forge, mod) := Authored(h, registered, draft, now)]))
    case Declare(venture, me, reason) => Simulation.Declared(s, venture, me, reason, now)
    case Leave(venture, me, reason) => Simulation.Left(s, venture, me, reason, now)
    case IssueLadder(agent, forge, mod, venture, planned) => LadderIssued(s, agent, forge, mod, venture, planned, now)
    case RetireReplaced(venture) => Ok(s.(grants := ReplacedRetired(s.grants, venture, now)))
    case IssueBootstrap(agent, forge, mod, venture, tier, revoked) =>
      BootstrapIssued(s, agent, forge, mod, venture, tier, revoked, now)
    case Activate(venture, covered) => Ok(Activated(s, venture, covered, now))
    case Retire(ids, me, reason) => Retired(s, ids, me, reason, now)
    case Deactivate(venture, me, reason) => Deactivated(s, venture, me, reason)
    case Appoint(agent, department) =>
      if agent in s.agents then Err(AlreadyGranted) else Ok(s.(agents := s.agents[agent := Agent(department, true)]))
    case SetIdentity(agent, active) =>
      if agent !in s.agents then Err(NoSuchAgent)
      else Ok(s.(agents := s.agents[agent := s.agents[agent].(active := active)]))
    case MoveAgent(agent, department) =>
      if agent !in s.agents then Err(NoSuchAgent)
      else Ok(s.(agents := s.agents[agent := s.agents[agent].(department := department)]))
    case Register(registry) => Ok(s.(registry := registry))
  }

  ghost function Next(s: Gov, act: Act, now: Time): Gov {
    if Step(s, act, now).Ok? then Step(s, act, now).value else s
  }

  type Acts = seq<(Act, Time)>

  ghost function Run(s: Gov, acts: Acts): Gov {
    if acts == [] then s else
      var n := |acts| - 1;
      Next(Run(s, acts[..n]), acts[n].0, acts[n].1)
  }

  /** An appointment adds one active agent of the department, if there is none by that id. */
  lemma AppointingTakesEffect(s: Gov, agent: AgentId, department: Department, now: Time)
    ensures var after := Next(s, Appoint(agent, department), now);
            && after == s.(agents := after.agents) && after.agents.Keys == s.agents.Keys + {agent}
            && (forall a :: a in s.agents ==> after.agents[a] == s.agents[a])
            && (agent !in s.agents ==> after.agents[agent].department == department && after.agents[agent].active)
  {
  }

  /** An identity set is the one agent's standing and nobody's department. */
  lemma IdentityTakesEffect(s: Gov, agent: AgentId, active: bool, now: Time)
    ensures var after := Next(s, SetIdentity(agent, active), now);
            && after == s.(agents := after.agents) && after.agents.Keys == s.agents.Keys
            && forall a :: a in s.agents ==>
                 && after.agents[a].department == s.agents[a].department
                 && after.agents[a].active == if a == agent then active else s.agents[a].active
  {
  }

  /** A move is the one agent's department and nobody's standing. */
  lemma MovingTakesEffect(s: Gov, agent: AgentId, department: Department, now: Time)
    ensures var after := Next(s, MoveAgent(agent, department), now);
            && after == s.(agents := after.agents) && after.agents.Keys == s.agents.Keys
            && forall a :: a in s.agents ==>
                 && after.agents[a].active == s.agents[a].active
                 && after.agents[a].department == if a == agent then department else s.agents[a].department
  {
  }

  /** Authoring adds to one module's history what the instructions say it adds, and the registry is replaced whole. */
  lemma PublishingTakesEffect(s: Gov, forge: ForgeId, mod: ModuleId, draft: Draft, registry: Registry, now: Time)
    ensures Step(s, Author(forge, mod, draft), now).Ok? <==>
            Objection(RowsOf(s.instructions, (forge, mod)), (forge, mod) in s.registry.modules, draft).None?
    ensures var after := Next(s, Author(forge, mod, draft), now);
            && after == s.(instructions := after.instructions)
            && RowsOf(after.instructions, (forge, mod))
               == Authored(RowsOf(s.instructions, (forge, mod)), (forge, mod) in s.registry.modules, draft, now)
            && (forall k :: k != (forge, mod) ==> RowsOf(after.instructions, k) == RowsOf(s.instructions, k))
    ensures var after := Next(s, Register(registry), now);
            after.registry == registry && after == s.(registry := after.registry)
  {
  }

  // ------------------------------------------------ every reachable row is sound

  /** No verdict is how a row says nobody earned it, and a digest is one only a test can have. */
  predicate Attributed(c: Cert) {
    && (c.verdict.None? <==> c.basis in {Bootstrap, Simulation})
    && (c.model.digest.Some? ==> c.basis == Tested && c.model.digest.value != "")
  }

  predicate RowSound(s: Gov, key: CertKey)
    requires key in s.certs
  {
    var c := s.certs[key];
    && Checks(key, c) && Attributed(c) && c.id < s.nextId
    && (c.simulationRef.Some? ==> c.simulationRef.value in s.sims)
  }

  ghost predicate UniqueIds(certs: map<CertKey, Cert>) {
    forall k, l :: k in certs && l in certs && certs[k].id == certs[l].id ==> k == l
  }

  ghost predicate SoundCerts(s: Gov) {
    (forall key :: key in s.certs ==> RowSound(s, key)) && UniqueIds(s.certs)
  }

  ghost predicate SoundSims(s: Gov) {
    Simulation.OneLive(s.sims) && forall d :: d in s.sims ==> d < s.nextId
  }

  ghost predicate SoundGrants(s: Gov) {
    && (forall g :: g in s.grants ==> s.grants[g].agent in s.agents)
    && (forall g :: g in s.grants && g.LadderGrant? ==> s.grants[g].Is(g.agent, g.forge, g.mod, g.venture))
    && (forall n: nat :: OtherGrant(n) in s.grants ==> n < s.nextId)
  }

  ghost predicate Sound(s: Gov) { SoundCerts(s) && SoundSims(s) && SoundGrants(s) }

  /** A sound row put at a key, under the key's own id or a new one. */
  lemma PuttingKeepsCertsSound(s: Gov, key: CertKey, row: Cert)
    requires SoundCerts(s) && Checks(key, row) && Attributed(row)
    requires row.simulationRef.Some? ==> row.simulationRef.value in s.sims
    requires row.id == if key in s.certs then s.certs[key].id else s.nextId
    ensures SoundCerts(s.(certs := s.certs[key := row], nextId := s.nextId + 1))
  {
    var after := s.(certs := s.certs[key := row], nextId := s.nextId + 1);
    forall k | k in after.certs ensures RowSound(after, k) {
      if k != key {
        assert RowSound(s, k);
      }
    }
    forall k, l | k in after.certs && l in after.certs && after.certs[k].id == after.certs[l].id ensures k == l {
      if k in s.certs {
        assert RowSound(s, k);
      }
      if l in s.certs {
        assert RowSound(s, l);
      }
    }
  }

  lemma ProposedIsSound(key: CertKey, r: Report, id: CertId, now: Time)
    requires StateForVerdict(r.verdict).Some?
    requires !r.attester.Somebody?
    ensures Attributed(Proposed(r, id, now)) && Proposed(r, id, now).simulationRef.None?
  {
  }

  lemma ChecksIgnoreIdentity(key: CertKey, c: Cert, id: CertId, issuedAt: Time)
    ensures Checks(key, c.(id := id, issuedAt := issuedAt)) == Checks(key, c)
    ensures Attributed(c.(id := id, issuedAt := issuedAt)) == Attributed(c)
  {
  }

  lemma RecordKeepsSound(s: Gov, key: CertKey, r: Report, now: Time)
    requires Sound(s) && Recorded(s, key, r, now).Ok?
    ensures Sound(Recorded(s, key, r, now).value)
  {
    var after := Recorded(s, key, r, now).value;
    if Writes(s, key, r.verdict) {
      var row := after.certs[key];
      ProposedIsSound(key, r, s.nextId, now);
      ChecksIgnoreIdentity(key, Proposed(r, s.nextId, now), row.id, row.issuedAt);
      PuttingKeepsCertsSound(s, key, row);
      assert SoundGrants(after);
    }
  }

  lemma SimulationRowIsSound(standing: Option<Cert>, id: CertId, hash: Hash, version: Version,
                             declaration: SimulationId, reason: string, now: Time)
    requires standing.Some? ==> Attributed(standing.value)
    ensures var row := SimulationRow(standing, id, hash, version, declaration, reason, now);
            && Attributed(row) && row.simulationRef == Some(declaration)
            && row.id == if standing.Some? then standing.value.id else id
  {
  }

  lemma CertifyKeepsSound(s: Gov, venture: VentureId, department: Department, forge: ForgeId, me: Humans.Human,
                          reason: string, now: Time)
    requires Sound(s) && CertifiedForSimulation(s, venture, department, forge, me, reason, now).Ok?
    ensures Sound(CertifiedForSimulation(s, venture, department, forge, me, reason, now).value)
  {
    var key := UnitB(department, forge);
    var row := PermittedRow(s, venture, department, forge, me, reason, now);
    if key in s.certs {
      assert RowSound(s, key);
    }
    SimulationRowIsSound(CertAt(s.certs, key), s.nextId,
                         DepartmentBasis(s, forge, DepartmentModules(s, venture, department, forge)),
                         s.registry.forges[forge], Simulation.Current(s.sims, venture).value, reason, now);
    DepartmentWrittenKeepsSound(s, department, forge, row);
  }

  lemma DepartmentWrittenKeepsSound(s: Gov, department: Department, forge: ForgeId, row: Cert)
    requires Sound(s) && DepartmentWritten(s, department, forge, row).Ok? && Attributed(row)
    requires row.simulationRef.Some? ==> row.simulationRef.value in s.sims
    requires row.id == if UnitB(department, forge) in s.certs then s.certs[UnitB(department, forge)].id else s.nextId
    ensures Sound(DepartmentWritten(s, department, forge, row).value)
  {
    PuttingKeepsCertsSound(s, UnitB(department, forge), row);
    assert SoundGrants(DepartmentWritten(s, department, forge, row).value);
  }

  lemma SweepKeepsSound(s: Gov, forge: ForgeId, only: Option<ModuleId>, now: Time)
    requires Sound(s) && Recomputed(s, forge, only, now).Ok?
    ensures Sound(Recomputed(s, forge, only, now).value)
  {
  }

  lemma DeclaringKeepsSound(s: Gov, venture: VentureId, me: Humans.Human, reason: string, now: Time)
    requires Sound(s) && Simulation.Declared(s, venture, me, reason, now).Ok?
    ensures Sound(Simulation.Declared(s, venture, me, reason, now).value)
  {
    var sims := Simulation.Declared(s, venture, me, reason, now).value.sims;
    assert forall d, v :: Simulation.IsCurrent(sims, d, v) ==>
             (if d == s.nextId then v == venture else Simulation.IsCurrent(s.sims, d, v));
  }

  lemma LeavingKeepsSound(s: Gov, venture: VentureId, me: Humans.Human, reason: string, now: Time)
    requires Sound(s) && Simulation.Left(s, venture, me, reason, now).Ok?
    ensures Sound(Simulation.Left(s, venture, me, reason, now).value)
  {
    var sims := Simulation.Left(s, venture, me, reason, now).value.sims;
    assert forall d, v :: Simulation.IsCurrent(sims, d, v) ==> Simulation.IsCurrent(s.sims, d, v);
  }

  lemma IssuesKeepSound(s: Gov, act: Act, now: Time)
    requires Sound(s) && (act.IssueLadder? || act.IssueBootstrap?)
    ensures Sound(Next(s, act, now))
  {
    var after := Next(s, act, now);
    assert SoundCerts(after) by {
      forall key | key in after.certs ensures RowSound(after, key) {
        assert RowSound(s, key);
      }
    }
  }

  /** The same grants under the same keys, whatever else changed about them. */
  ghost predicate SameKeys(grants: map<GrantId, Grant>, later: map<GrantId, Grant>) {
    && later.Keys == grants.Keys
    && forall g :: g in grants ==> later[g].Is(grants[g].agent, grants[g].forge, grants[g].mod, grants[g].venture)
  }

  lemma SameKeysKeepSound(s: Gov, later: map<GrantId, Grant>)
    requires Sound(s) && SameKeys(s.grants, later)
    ensures Sound(s.(grants := later))
  {
    var after := s.(grants := later);
    forall key | key in after.certs ensures RowSound(after, key) {
      assert RowSound(s, key);
    }
    forall g | g in later && g.LadderGrant? ensures later[g].Is(g.agent, g.forge, g.mod, g.venture) {
      assert s.grants[g].Is(g.agent, g.forge, g.mod, g.venture);
    }
  }

  lemma GrantsKeepTheirKeys(s: Gov, venture: VentureId, covered: set<GrantId>, ids: set<GrantId>, now: Time)
    ensures SameKeys(s.grants, ReplacedRetired(s.grants, venture, now))
    ensures SameKeys(s.grants, Activated(s, venture, covered, now).grants)
    ensures SameKeys(s.grants, WithRetired(s.grants, ids, now))
    ensures SameKeys(s.grants, WithDeactivated(s.grants, venture))
  {
  }

  lemma GrantsStaySound(s: Gov, venture: VentureId, covered: set<GrantId>, ids: set<GrantId>, now: Time)
    requires Sound(s)
    ensures Sound(s.(grants := ReplacedRetired(s.grants, venture, now)))
    ensures Sound(Activated(s, venture, covered, now))
    ensures Sound(s.(grants := WithRetired(s.grants, ids, now)))
    ensures Sound(s.(grants := WithDeactivated(s.grants, venture)))
  {
    GrantsKeepTheirKeys(s, venture, covered, ids, now);
    SameKeysKeepSound(s, ReplacedRetired(s.grants, venture, now));
    SameKeysKeepSound(s, Activated(s, venture, covered, now).grants);
    SameKeysKeepSound(s, WithRetired(s.grants, ids, now));
    SameKeysKeepSound(s, WithDeactivated(s.grants, venture));
  }

  lemma RosterActsKeepSound(s: Gov, act: Act, now: Time)
    requires Sound(s) && (act.Author? || act.Appoint? || act.SetIdentity? || act.MoveAgent? || act.Register?)
    ensures Sound(Next(s, act, now))
  {
    var after := Next(s, act, now);
    forall key | key in after.certs ensures RowSound(after, key) {
      assert RowSound(s, key);
    }
  }

  lemma StepKeepsSound(s: Gov, act: Act, now: Time)
    requires Sound(s)
    ensures Sound(Next(s, act, now))
  {
    if Step(s, act, now).Ok? {
      match act
      case RecordResult(key, report) => RecordKeepsSound(s, key, report, now);
      case CertifyForSimulation(venture, department, forge, me, reason) =>
        CertifyKeepsSound(s, venture, department, forge, me, reason, now);
      case RecomputeStaleness(forge, only) => SweepKeepsSound(s, forge, only, now);
      case Declare(venture, me, reason) => DeclaringKeepsSound(s, venture, me, reason, now);
      case Leave(venture, me, reason) => LeavingKeepsSound(s, venture, me, reason, now);
      case Author(_, _, _) => RosterActsKeepSound(s, act, now);
      case Appoint(_, _) => RosterActsKeepSound(s, act, now);
      case SetIdentity(_, _) => RosterActsKeepSound(s, act, now);
      case MoveAgent(_, _) => RosterActsKeepSound(s, act, now);
      case Register(_) => RosterActsKeepSound(s, act, now);
      case IssueLadder(_, _, _, _, _) => IssuesKeepSound(s, act, now);
      case IssueBootstrap(_, _, _, _, _, _) => IssuesKeepSound(s, act, now);
      case RetireReplaced(venture) => GrantsStaySound(s, venture, {}, {}, now);
      case Activate(venture, covered) => GrantsStaySound(s, venture, covered, {}, now);
      case Retire(ids, _, _) => GrantsStaySound(s, "", {}, ids, now);
      case Deactivate(venture, _, _) => GrantsStaySound(s, venture, {}, {}, now);
    }
  }

  lemma {:induction false} RowsStaySound(s: Gov, acts: Acts)
    requires Sound(s)
    ensures Sound(Run(s, acts))
  {
    if acts != [] {
      var n := |acts| - 1;
      RowsStaySound(s, acts[..n]);
      StepKeepsSound(Run(s, acts[..n]), acts[n].0, acts[n].1);
    }
  }

  /**
   * In every reachable state the rows with no verdict are exactly the certifications nobody earned,
   * whoever asked for them and whatever rubric they claim.
   */
  lemma UnearnedRowsSaySo(s: Gov, acts: Acts, key: CertKey)
    requires Sound(s) && key in Run(s, acts).certs
    ensures var c := Run(s, acts).certs[key];
            && (c.verdict.None? <==> c.basis == Bootstrap || c.basis == Simulation)
            && (c.basis == Simulation <==> c.simulationRef.Some?) && (c.basis == Attested <==> c.attestationRef.Some?)
            && (c.state == Certified ==> c.hash.Some? && c.apiVersion.Some? && c.tier.Some?)
            && (c.basis == Tested && c.state in {Certified, Provisional} ==>
                  c.agentModel.Some? && Given(c.model.digest) && c.model.temperature.Some? && c.model.maxTokens.Some?)
  {
    RowsStaySound(s, acts);
    assert RowSound(Run(s, acts), key);
  }

  /**
   * In every reachable state a certified row says what it was earned against and on, so resolving a
   * call never meets a certified unit that names no model or no tier: those two rungs are never reached.
   */
  lemma TwoRungsAreUnreachable(s: Gov, acts: Acts, ask: Ask, g: GrantId)
    requires Sound(s) && Candidate(Run(s, acts), ask, g)
    ensures Decide(Run(s, acts), ask, g) !in {Err(NamesNoModel), Err(UncertifiedTier)}
  {
    RowsStaySound(s, acts);
    var end := Run(s, acts);
    var key := UnitA(ask.agent, ask.forge, ask.mod);
    if key in end.certs {
      assert RowSound(end, key);
    }
  }

  // ------------------------------------------------ what is not an answer replaces nothing

  /** A recorded TIMEOUT, IN_PROGRESS or NOT_RUN that finds a standing row. */
  predicate Unanswered(s: Gov, act: Act) {
    act.RecordResult? && act.report.verdict in NOT_AN_ANSWER && act.key in s.certs
  }

  /** The run with every such act struck out. */
  ghost function Erased(s: Gov, acts: Acts): Acts {
    if acts == [] then [] else
      var n := |acts| - 1;
      Erased(s, acts[..n]) + (if Unanswered(Run(s, acts[..n]), acts[n].0) then [] else [acts[n]])
  }

  lemma RunSnoc(s: Gov, acts: Acts, act: (Act, Time))
    ensures Run(s, acts + [act]) == Next(Run(s, acts), act.0, act.1)
  {
    assert (acts + [act])[..|acts|] == acts;
  }

  /** Erasing every non-answer that met a standing row changes no table, whatever else the run did. */
  lemma {:induction false} NonAnswersAreInvisible(s: Gov, acts: Acts)
    ensures Run(s, Erased(s, acts)) == Run(s, acts)
  {
    if acts != [] {
      var n := |acts| - 1;
      NonAnswersAreInvisible(s, acts[..n]);
      if Unanswered(Run(s, acts[..n]), acts[n].0) {
        assert Next(Run(s, acts[..n]), acts[n].0, acts[n].1) == Run(s, acts[..n]);
        assert Erased(s, acts) == Erased(s, acts[..n]);
      } else {
        RunSnoc(s, Erased(s, acts[..n]), acts[n]);
      }
    }
  }

  // ------------------------------------------------ the last answer rules

  /** The act's result for the key would be written over the tables it meets. */
  predicate Accepts(s: Gov, act: Act, key: CertKey) {
    act.RecordResult? && act.key == key && Accepted(s, key, act.report)
  }

  predicate Answers(s: Gov, act: Act, key: CertKey) {
    Accepts(s, act, key) && act.report.verdict !in NOT_AN_ANSWER
  }

  /** The position of the last accepted answer for the key. */
  ghost function LastAnswer(s: Gov, acts: Acts, key: CertKey): (i: Option<nat>)
    ensures i.Some? ==> i.value < |acts| && acts[i.value].0.RecordResult?
                        && StateForVerdict(acts[i.value].0.report.verdict).Some?
  {
    if acts == [] then None
    else
      var n := |acts| - 1;
      if Answers(Run(s, acts[..n]), acts[n].0, key) then Some(n) else LastAnswer(s, acts[..n], key)
  }

  /** The position of the first accepted result of any kind. */
  ghost function FirstResult(s: Gov, acts: Acts, key: CertKey): (i: Option<nat>)
    ensures i.Some? ==> i.value < |acts| && acts[i.value].0.RecordResult?
                        && StateForVerdict(acts[i.value].0.report.verdict).Some?
  {
    if acts == [] then None
    else
      var n := |acts| - 1;
      if FirstResult(s, acts[..n], key).Some? then FirstResult(s, acts[..n], key)
      else if Accepts(Run(s, acts[..n]), acts[n].0, key) then Some(n)
      else None
  }

  lemma AcceptsInAPrefix(s: Gov, acts: Acts, key: CertKey, j: nat)
    requires j < |acts| - 1
    ensures var prefix := acts[..|acts| - 1];
            && prefix[j] == acts[j]
            && Accepts(Run(s, prefix[..j]), prefix[j].0, key) == Accepts(Run(s, acts[..j]), acts[j].0, key)
            && Answers(Run(s, prefix[..j]), prefix[j].0, key) == Answers(Run(s, acts[..j]), acts[j].0, key)
  {
    assert acts[..|acts| - 1][..j] == acts[..j];
  }

  /** The last answer is one its tables accepted, and after it they accepted none. */
  lemma {:induction false} LastAnswerIsExact(s: Gov, acts: Acts, key: CertKey, j: nat)
    requires j < |acts|
    ensures LastAnswer(s, acts, key) == Some(j) ==> Answers(Run(s, acts[..j]), acts[j].0, key)
    ensures LastAnswer(s, acts, key).None? || LastAnswer(s, acts, key).value < j ==>
              !Answers(Run(s, acts[..j]), acts[j].0, key)
    decreases |acts|
  {
    var n := |acts| - 1;
    if j < n {
      LastAnswerIsExact(s, acts[..n], key, j);
      AcceptsInAPrefix(s, acts, key, j);
    }
  }

  /** The first result is one its tables accepted, and before it they accepted none. */
  lemma {:induction false} FirstResultIsExact(s: Gov, acts: Acts, key: CertKey, j: nat)
    requires j < |acts|
    ensures FirstResult(s, acts, key) == Some(j) ==> Accepts(Run(s, acts[..j]), acts[j].0, key)
    ensures FirstResult(s, acts, key).None? || j < FirstResult(s, acts, key).value ==>
              !Accepts(Run(s, acts[..j]), acts[j].0, key)
    decreases |acts|
  {
    var n := |acts| - 1;
    if j < n {
      FirstResultIsExact(s, acts[..n], key, j);
      AcceptsInAPrefix(s, acts, key, j);
    }
  }

  /** The result whose row stands at the end: the last answer, or with none and no row to begin with, the first. */
  ghost function Governing(s: Gov, acts: Acts, key: CertKey): (i: Option<nat>)
    ensures i.Some? ==> i.value < |acts| && acts[i.value].0.RecordResult?
                        && StateForVerdict(acts[i.value].0.report.verdict).Some?
  {
    if LastAnswer(s, acts, key).Some? then LastAnswer(s, acts, key)
    else if key in s.certs then None
    else FirstResult(s, acts, key)
  }

  /** No act but `record_result` writes a certification. */
  predicate RecordsAlone(acts: Acts) {
    forall i :: 0 <= i < |acts| ==> !acts[i].0.CertifyForSimulation? && !acts[i].0.RecomputeStaleness?
  }

  /** The row of `key` that the governing result leaves: its own columns, under the first row's id and issue date. */
  ghost predicate RuledBy(s: Gov, acts: Acts, key: CertKey, row: Option<Cert>) {
    match Governing(s, acts, key)
    case None => row == CertAt(s.certs, key)
    case Some(i) =>
      && row.Some? && FirstResult(s, acts, key).Some?
      && (key in s.certs ==> row.value.id == s.certs[key].id)
      && row.value == Proposed(acts[i].0.report, row.value.id, acts[i].1)
                        .(issuedAt := if key in s.certs then s.certs[key].issuedAt
                                      else acts[FirstResult(s, acts, key).value].1)
  }

  /** The table judges a proposed row by what it says, not by its id or its date. */
  lemma RefusalIgnoresIdentity(s: Gov, key: CertKey, r: Report, id: CertId, now: Time)
    requires StateForVerdict(r.verdict).Some?
    ensures TableRefusal(s, key, Proposed(r, id, now)) == TableRefusal(s, key, Proposed(r, 0, 0))
  {
  }

  /** A result leaves a row exactly when the tables it meets accept it and, finding one already, it is an answer. */
  lemma RecordWrites(s: Gov, key: CertKey, r: Report, now: Time)
    ensures var after := Next(s, RecordResult(key, r), now);
            if Accepted(s, key, r) && Writes(s, key, r.verdict)
            then after.certs == Upserted(s.certs, key, Proposed(r, s.nextId, now))
            else after.certs == s.certs
  {
    if RecordRefusal(r).None? {
      RefusalIgnoresIdentity(s, key, r, s.nextId, now);
    }
  }

  /**
   * An answer the guards and the constraints accept replaces its row, unless it certifies an agent on
   * text that is no longer its module's; then the table refuses it and the row stands.
   */
  lemma AnswersReplaceIff(s: Gov, key: CertKey, r: Report, now: Time)
    requires Acceptable(key, r) && r.verdict !in NOT_AN_ANSWER && (key.UnitA? ==> key.agent in s.agents)
    ensures var step, live := Step(s, RecordResult(key, r), now),
                              if key.UnitA? then LiveInstruction(s, key.forge, key.mod) else None;
            if r.verdict == PASS && live.Some? && r.hash != Some(live.value.hash) then step == Err(TextNotLive)
            else step.Ok? && step.value.certs == Upserted(s.certs, key, Proposed(r, s.nextId, now))
  {
    RefusalIgnoresIdentity(s, key, r, s.nextId, now);
    RecordWrites(s, key, r, now);
  }

  lemma OtherActsKeepCerts(s: Gov, act: Act, now: Time)
    requires !act.RecordResult? && !act.CertifyForSimulation? && !act.RecomputeStaleness?
    ensures Next(s, act, now).certs == s.certs
  {
  }

  /** What one act makes of one key's row. */
  function Rewritten(s: Gov, act: Act, now: Time, key: CertKey): Option<Cert> {
    var before := CertAt(s.certs, key);
    if !Accepts(s, act, key) || (act.report.verdict in NOT_AN_ANSWER && before.Some?) then before
    else
      var row := Proposed(act.report, s.nextId, now);
      Some(if before.Some? then row.(id := before.value.id, issuedAt := before.value.issuedAt) else row)
  }

  lemma StepRecords(s: Gov, act: Act, now: Time, key: CertKey)
    requires !act.CertifyForSimulation? && !act.RecomputeStaleness?
    ensures CertAt(Next(s, act, now).certs, key) == Rewritten(s, act, now, key)
  {
    if act.RecordResult? {
      RecordWrites(s, act.key, act.report, now);
    } else {
      OtherActsKeepCerts(s, act, now);
    }
  }

  /** A certification never appears without a result its tables accepted. */
  lemma {:induction false} RowsComeFromResults(s: Gov, acts: Acts, key: CertKey)
    requires RecordsAlone(acts)
    ensures key in Run(s, acts).certs <==> key in s.certs || FirstResult(s, acts, key).Some?
  {
    if acts != [] {
      var n := |acts| - 1;
      RowsComeFromResults(s, acts[..n], key);
      StepRecords(Run(s, acts[..n]), acts[n].0, acts[n].1, key);
    }
  }

  lemma RuledByOneMore(s: Gov, acts: Acts, key: CertKey)
    requires acts != []
    requires var before := Run(s, acts[..|acts| - 1]);
             && RuledBy(s, acts[..|acts| - 1], key, CertAt(before.certs, key))
             && (key in before.certs <==> key in s.certs || FirstResult(s, acts[..|acts| - 1], key).Some?)
    ensures RuledBy(s, acts, key, Rewritten(Run(s, acts[..|acts| - 1]), acts[|acts| - 1].0, acts[|acts| - 1].1, key))
  {
    var n := |acts| - 1;
    if !Accepts(Run(s, acts[..n]), acts[n].0, key) {
      assert Governing(s, acts, key) == Governing(s, acts[..n], key);
      assert FirstResult(s, acts, key) == FirstResult(s, acts[..n], key);
    } else if Answers(Run(s, acts[..n]), acts[n].0, key) {
      assert Governing(s, acts, key) == Some(n);
    }
  }

  /**
   * The closed form of any run in which only `record_result` certifies: each key's row is that of the
   * last answer its tables accepted, PROVISIONAL and REVOKED included, or the first such result's if
   * nothing ever answered.
   */
  lemma {:induction false} LastAnswerRules(s: Gov, acts: Acts, key: CertKey)
    requires RecordsAlone(acts)
    ensures RuledBy(s, acts, key, CertAt(Run(s, acts).certs, key))
  {
    if acts != [] {
      var n := |acts| - 1;
      LastAnswerRules(s, acts[..n], key);
      RowsComeFromResults(s, acts[..n], key);
      StepRecords(Run(s, acts[..n]), acts[n].0, acts[n].1, key);
      RuledByOneMore(s, acts, key);
    }
  }

  // ------------------------------------------------ void certifications

  /** The row names a declaration that has been left. */
  predicate Void(s: Gov, key: CertKey) {
    key in s.certs && SimulationVoid(s.sims, s.certs[key])
  }

  /** The act rewrites the row: an accepted answer for its key, or a new simulation certification of its department. */
  ghost predicate Replaces(s: Gov, act: Act, now: Time, key: CertKey) {
    match act
    case RecordResult(k, report) => k == key && report.verdict !in NOT_AN_ANSWER && Recorded(s, key, report, now).Ok?
    case CertifyForSimulation(venture, department, forge, me, reason) =>
      key == UnitB(department, forge) && CertifiedForSimulation(s, venture, department, forge, me, reason, now).Ok?
    case _ => false
  }

  ghost predicate NeverReplaced(s: Gov, acts: Acts, key: CertKey) {
    acts != [] ==>
      var n := |acts| - 1;
      NeverReplaced(s, acts[..n], key) && !Replaces(Run(s, acts[..n]), acts[n].0, acts[n].1, key)
  }

  lemma DepartmentWrittenKeepsSims(s: Gov, department: Department, forge: ForgeId, row: Cert)
    requires DepartmentWritten(s, department, forge, row).Ok?
    ensures DepartmentWritten(s, department, forge, row).value.sims == s.sims
  {
  }

  lemma CertifyingKeepsSims(s: Gov, venture: VentureId, department: Department, forge: ForgeId, me: Humans.Human,
                            reason: string, now: Time)
    ensures Next(s, CertifyForSimulation(venture, department, forge, me, reason), now).sims == s.sims
  {
    if CertifiedForSimulation(s, venture, department, forge, me, reason, now).Ok? {
      DepartmentWrittenKeepsSims(s, department, forge, PermittedRow(s, venture, department, forge, me, reason, now));
    }
  }

  lemma OtherActsKeepSims(s: Gov, act: Act, now: Time)
    requires !act.Declare? && !act.Leave? && !act.CertifyForSimulation?
    ensures Next(s, act, now).sims == s.sims
  {
  }

  lemma StepKeepsDeclarations(s: Gov, act: Act, now: Time)
    requires Sound(s)
    ensures Simulation.DeclarationsStand(s.sims, Next(s, act, now).sims)
  {
    if act.CertifyForSimulation? {
      CertifyingKeepsSims(s, act.venture, act.department, act.forge, act.me, act.reason, now);
    } else if !act.Declare? && !act.Leave? {
      OtherActsKeepSims(s, act, now);
    }
  }

  /** What was declared stays as declared, and leaving, by whom and when and why, never un-happens. */
  lemma {:induction false} DeclarationsStand(s: Gov, acts: Acts)
    requires Sound(s)
    ensures Simulation.DeclarationsStand(s.sims, Run(s, acts).sims)
  {
    if acts != [] {
      var n := |acts| - 1;
      DeclarationsStand(s, acts[..n]);
      RowsStaySound(s, acts[..n]);
      StepKeepsDeclarations(Run(s, acts[..n]), acts[n].0, acts[n].1);
    }
  }

  lemma CertifyTouchesOne(s: Gov, venture: VentureId, department: Department, forge: ForgeId, me: Humans.Human,
                          reason: string, now: Time, key: CertKey)
    requires key in s.certs && key != UnitB(department, forge)
    ensures var after := Next(s, CertifyForSimulation(venture, department, forge, me, reason), now);
            key in after.certs && after.certs[key] == s.certs[key]
  {
  }

  /** Short of replacing it, nothing changes which declaration a row names. */
  lemma StepKeepsDeclarationOf(s: Gov, act: Act, now: Time, key: CertKey)
    requires key in s.certs && !Replaces(s, act, now, key)
    ensures key in Next(s, act, now).certs
    ensures Next(s, act, now).certs[key].simulationRef == s.certs[key].simulationRef
  {
    match act
    case CertifyForSimulation(venture, department, forge, me, reason) =>
      if key != UnitB(department, forge) {
        CertifyTouchesOne(s, venture, department, forge, me, reason, now, key);
      }
    case RecordResult(_, report) => RecordWrites(s, act.key, report, now);
    case RecomputeStaleness(_, _) =>
    case _ => OtherActsKeepCerts(s, act, now);
  }

  lemma StepKeepsVoid(s: Gov, act: Act, now: Time, key: CertKey)
    requires Sound(s) && Void(s, key) && !Replaces(s, act, now, key)
    ensures Void(Next(s, act, now), key)
    ensures Next(s, act, now).certs[key].simulationRef == s.certs[key].simulationRef
  {
    StepKeepsDeclarations(s, act, now);
    StepKeepsDeclarationOf(s, act, now, key);
  }

  /** Void rows stay void until an answer or a new simulation certification replaces them. */
  lemma {:induction false} VoidUntilReplaced(s: Gov, acts: Acts, key: CertKey)
    requires Sound(s) && Void(s, key) && NeverReplaced(s, acts, key)
    ensures Void(Run(s, acts), key) && Run(s, acts).certs[key].simulationRef == s.certs[key].simulationRef
  {
    if acts != [] {
      var n := |acts| - 1;
      VoidUntilReplaced(s, acts[..n], key);
      RowsStaySound(s, acts[..n]);
      StepKeepsVoid(Run(s, acts[..n]), acts[n].0, acts[n].1, key);
    }
  }

  /** And being replaced is what ends it: a void row after the act is void because the act did not replace it. */
  lemma ReplacingEndsVoid(s: Gov, act: Act, now: Time, key: CertKey)
    requires Sound(s) && Void(s, key)
    ensures Void(Next(s, act, now), key) <==> !Replaces(s, act, now, key)
  {
    if !Replaces(s, act, now, key) {
      StepKeepsVoid(s, act, now, key);
    } else if act.RecordResult? {
      RecordWrites(s, key, act.report, now);
    }
  }

  /** Leaving voids exactly the certifications that name the declaration being left. */
  lemma LeavingVoidsExactly(s: Gov, venture: VentureId, me: Humans.Human, reason: string, now: Time, key: CertKey)
    requires Step(s, Leave(venture, me, reason), now).Ok?
    ensures Void(Next(s, Leave(venture, me, reason), now), key) <==>
            Void(s, key) || (key in s.certs && s.certs[key].simulationRef == Simulation.Current(s.sims, venture))
  {
  }

  /** No grant resolves through a void certification, whatever else is in order. */
  lemma VoidRefuses(s: Gov, ask: Ask)
    requires ask.agent in s.agents && Void(s, UnitB(s.agents[ask.agent].department, ask.forge))
    ensures !Resolves(s, ask)
  {
  }

  /**
   * Once a venture leaves simulation, every call by an agent of a department certified under that
   * declaration is refused in every later state, whatever happens meanwhile - the venture declaring
   * simulation again included - until that department's row is replaced.
   */
  lemma LeavingRefusesUntilReplaced(s: Gov, venture: VentureId, me: Humans.Human, reason: string, now: Time,
                                    acts: Acts, ask: Ask)
    requires Sound(s) && Step(s, Leave(venture, me, reason), now).Ok?
    requires var after := Next(s, Leave(venture, me, reason), now);
             && ask.agent in Run(after, acts).agents
             && var key := UnitB(Run(after, acts).agents[ask.agent].department, ask.forge);
             && key in s.certs && s.certs[key].simulationRef == Simulation.Current(s.sims, venture)
             && NeverReplaced(after, acts, key)
    ensures !Resolves(Run(Next(s, Leave(venture, me, reason), now), acts), ask)
  {
    var after := Next(s, Leave(venture, me, reason), now);
    var key := UnitB(Run(after, acts).agents[ask.agent].department, ask.forge);
    StepKeepsSound(s, Leave(venture, me, reason), now);
    LeavingVoidsExactly(s, venture, me, reason, now, key);
    VoidUntilReplaced(after, acts, key);
    VoidRefuses(Run(after, acts), ask);
  }

  // ------------------------------------------------ republishing

  lemma {:induction false} ClosedRowsAreNotLive(h: History, row: Row)
    requires row.Live() && forall i :: 0 <= i < |h| ==> !h[i].Live()
    ensures LiveRow(h + [row]) == Some(row)
  {
    if h != [] {
      assert (h + [row])[1..] == h[1..] + [row];
      ClosedRowsAreNotLive(h[1..], row);
    }
  }

  /** Publishing new text decertifies, at the next sweep, every agent certified on another text of that module. */
  lemma RepublishingDecertifiesAgents(s: Gov, key: CertKey, draft: Draft, now: Time, later: Time)
    requires key.UnitA? && key in s.certs && s.certs[key].state == Certified && key.forge in s.registry.forges
    requires s.certs[key].hash != Some(InstructionHash(draft.content))
    requires Step(s, Author(key.forge, key.mod, draft), now).Ok?
    ensures var published := Next(s, Author(key.forge, key.mod, draft), now);
            Recomputed(published, key.forge, None, later).Ok? ==>
              key in Recomputed(published, key.forge, None, later).value.certs
              && Recomputed(published, key.forge, None, later).value.certs[key].state == StaleInstructions
  {
    var published := Next(s, Author(key.forge, key.mod, draft), now);
    var h := RowsOf(s.instructions, (key.forge, key.mod));
    var row := Row(draft.version, draft.apiVersion, draft.sensitivity, InstructionHash(draft.content), now, None);
    ClosedRowsAreNotLive(Superseded(h, now), row);
    assert LiveInstruction(published, key.forge, key.mod) == Some(row);
    assert Restale(published, key) == Ok(Some(StaleInstructions));
  }

  /**
   * But no amount of republishing touches a department: after any run of authoring, a sweep makes of
   * a Unit B row what it would have made of it before.
   */
  lemma {:induction false} RepublishingSparesDepartments(s: Gov, acts: Acts, key: CertKey)
    requires key.UnitB? && key in s.certs && key.forge in s.registry.forges
    requires forall i :: 0 <= i < |acts| ==> acts[i].0.Author?
    ensures var end := Run(s, acts);
            && end.certs == s.certs && end.registry == s.registry && Restale(end, key) == Restale(s, key)
  {
    if acts != [] {
      RepublishingSparesDepartments(s, acts[..|acts| - 1], key);
    }
  }

  // ------------------------------------------------ text an agent was not examined on

  /** Some accepted act authored the module. */
  ghost predicate Authors(s: Gov, act: Act, now: Time, forge: ForgeId, mod: ModuleId) {
    act.Author? && act.forge == forge && act.mod == mod && Step(s, act, now).Ok?
  }

  /** The act writes the row. */
  predicate WritesRow(s: Gov, act: Act, key: CertKey) {
    Accepts(s, act, key) && Writes(s, key, act.report.verdict)
  }

  /** The module was authored at `i`, and nothing after that wrote the row. */
  ghost predicate AuthoredSince(s: Gov, acts: Acts, key: CertKey, i: nat)
    requires key.UnitA?
  {
    && i < |acts| && Authors(Run(s, acts[..i]), acts[i].0, acts[i].1, key.forge, key.mod)
    && forall j :: i < j < |acts| ==> !WritesRow(Run(s, acts[..j]), acts[j].0, key)
  }

  /** The row stands on its module's live text, if it stands at all. */
  predicate RowOnLiveText(s: Gov, key: CertKey) {
    key in s.certs ==> OnLiveText(s, key, s.certs[key])
  }

  lemma WritesInAPrefix(s: Gov, acts: Acts, key: CertKey, j: nat)
    requires j < |acts| - 1
    ensures WritesRow(Run(s, acts[..|acts| - 1][..j]), acts[..|acts| - 1][j].0, key)
            == WritesRow(Run(s, acts[..j]), acts[j].0, key)
  {
    assert acts[..|acts| - 1][..j] == acts[..j];
  }

  lemma AuthoredSinceExtends(s: Gov, acts: Acts, key: CertKey, i: nat)
    requires key.UnitA? && acts != [] && AuthoredSince(s, acts[..|acts| - 1], key, i)
    requires !WritesRow(Run(s, acts[..|acts| - 1]), acts[|acts| - 1].0, key)
    ensures AuthoredSince(s, acts, key, i)
  {
    var n := |acts| - 1;
    assert acts[..n][..i] == acts[..i];
    forall j | i < j < |acts| ensures !WritesRow(Run(s, acts[..j]), acts[j].0, key) {
      if j < n {
        WritesInAPrefix(s, acts, key, j);
      }
    }
  }

  lemma AuthoringElsewhere(s: Gov, act: Act, now: Time, forge: ForgeId, mod: ModuleId)
    requires !Authors(s, act, now, forge, mod)
    ensures LiveInstruction(Next(s, act, now), forge, mod) == LiveInstruction(s, forge, mod)
  {
  }

  /** An act that neither authors the module nor writes the row leaves a row on live text there. */
  lemma StepKeepsLiveText(s: Gov, act: Act, now: Time, key: CertKey)
    requires key.UnitA? && RowOnLiveText(s, key) && !Authors(s, act, now, key.forge, key.mod) && !WritesRow(s, act, key)
    ensures RowOnLiveText(Next(s, act, now), key)
  {
    AuthoringElsewhere(s, act, now, key.forge, key.mod);
    match act
    case RecordResult(_, report) => RecordWrites(s, act.key, report, now);
    case CertifyForSimulation(_, _, _, _, _) =>
    case RecomputeStaleness(_, _) =>
    case _ => OtherActsKeepCerts(s, act, now);
  }

  /** What is written is on live text: the table refuses the rest. */
  lemma WritingIsOnLiveText(s: Gov, act: Act, now: Time, key: CertKey)
    requires key.UnitA? && WritesRow(s, act, key)
    ensures RowOnLiveText(Next(s, act, now), key)
  {
    RecordWrites(s, key, act.report, now);
    AuthoringElsewhere(s, act, now, key.forge, key.mod);
  }

  /**
   * An agent is certified on text that is not its module's live text only because the module was
   * authored again after the agent's row was last written.
   */
  lemma {:induction false} OffTextOnlyByAuthoring(s: Gov, acts: Acts, key: CertKey) returns (i: nat)
    requires key.UnitA? && RowOnLiveText(s, key)
    ensures !RowOnLiveText(Run(s, acts), key) ==> AuthoredSince(s, acts, key, i)
  {
    i := 0;
    if acts != [] {
      var n := |acts| - 1;
      var before, act, now := Run(s, acts[..n]), acts[n].0, acts[n].1;
      i := OffTextOnlyByAuthoring(s, acts[..n], key);
      if WritesRow(before, act, key) {
        WritingIsOnLiveText(before, act, now, key);
      } else if Authors(before, act, now, key.forge, key.mod) {
        i := n;
      } else if RowOnLiveText(before, key) {
        StepKeepsLiveText(before, act, now, key);
      } else {
        AuthoredSinceExtends(s, acts, key, i);
      }
    }
  }

  // ------------------------------------------------ evidence and simulation

  predicate CarriesEvidence(s: Gov, key: CertKey) {
    key in s.certs && s.certs[key].evidence.Some?
  }

  ghost predicate NeverAnswered(s: Gov, acts: Acts, key: CertKey) {
    acts != [] ==>
      var n := |acts| - 1;
      NeverAnswered(s, acts[..n], key) && !Answers(Run(s, acts[..n]), acts[n].0, key)
  }

  lemma EvidenceDecides(s: Gov, venture: VentureId, department: Department, forge: ForgeId, me: Humans.Human,
                        reason: string, now: Time)
    requires CertifyRefusal(s, venture, department, forge, me, reason).None?
    ensures var step := Step(s, CertifyForSimulation(venture, department, forge, me, reason), now);
            if CarriesEvidence(s, UnitB(department, forge)) then step == Err(CheckRefused) else step.Ok?
  {
    EvidenceBlocksSimulation(s, venture, department, forge, me, reason, now);
  }

  lemma EvidenceRefuses(s: Gov, venture: VentureId, department: Department, forge: ForgeId, me: Humans.Human,
                        reason: string, now: Time)
    requires CarriesEvidence(s, UnitB(department, forge))
    ensures Step(s, CertifyForSimulation(venture, department, forge, me, reason), now).Err?
  {
    if CertifyRefusal(s, venture, department, forge, me, reason).None? {
      EvidenceDecides(s, venture, department, forge, me, reason, now);
    }
  }

  lemma StepKeepsEvidence(s: Gov, act: Act, now: Time, key: CertKey)
    requires CarriesEvidence(s, key) && !Answers(s, act, key)
    ensures CarriesEvidence(Next(s, act, now), key)
  {
    match act
    case CertifyForSimulation(venture, department, forge, me, reason) =>
      if key == UnitB(department, forge) {
        EvidenceRefuses(s, venture, department, forge, me, reason, now);
      } else {
        CertifyTouchesOne(s, venture, department, forge, me, reason, now, key);
      }
    case RecordResult(_, report) => RecordWrites(s, act.key, report, now);
    case RecomputeStaleness(_, _) =>
    case _ => OtherActsKeepCerts(s, act, now);
  }

  /**
   * A department whose exam left evidence, a failed one included, cannot be certified for simulation
   * by anybody in any later state, whatever is declared, until another answer replaces the exam's row.
   */
  lemma {:induction false} EvidenceBlocksUntilAnswered(s: Gov, acts: Acts, venture: VentureId, department: Department,
                                                       forge: ForgeId, me: Humans.Human, reason: string, now: Time)
    requires CarriesEvidence(s, UnitB(department, forge)) && NeverAnswered(s, acts, UnitB(department, forge))
    ensures CarriesEvidence(Run(s, acts), UnitB(department, forge))
    ensures Step(Run(s, acts), CertifyForSimulation(venture, department, forge, me, reason), now).Err?
  {
    if acts != [] {
      var n := |acts| - 1;
      EvidenceBlocksUntilAnswered(s, acts[..n], venture, department, forge, me, reason, now);
      StepKeepsEvidence(Run(s, acts[..n]), acts[n].0, acts[n].1, UnitB(department, forge));
    }
    EvidenceRefuses(Run(s, acts), venture, department, forge, me, reason, now);
  }

  // ------------------------------------------------ where runs begin

  function Empty(registry: Registry, hex: Hash -> string): Gov {
    Gov(map[], map[], map[], map[], map[], registry, 0, hex)
  }

  /** The tables begin sound, so every state any run reaches from them is. */
  lemma {:induction false} ReachableIsSound(registry: Registry, hex: Hash -> string, acts: Acts)
    ensures Sound(Run(Empty(registry, hex), acts))
  {
    RowsStaySound(Empty(registry, hex), acts);
  }
}
