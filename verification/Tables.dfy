/**
 * The governance tables: certifications, grants, simulation declarations, instructions,
 * identities and the Forge registry. Every call and every decision reads them afresh.
 */
module Tables {
  import opened Wrappers
  import opened Versions
  import opened Instructions
  import Humans

  type AgentId = nat
  type CertId = nat
  type SimulationId = nat
  type Department = string
  type VentureId = string

  // ------------------------------------------------ certification

  datatype Tier = Suggest | Propose | AutoExecute

  function TierRank(tier: Tier): nat {
    match tier
    case Suggest => 1
    case Propose => 2
    case AutoExecute => 3
  }

  datatype State =
    | Certified | Provisional | StaleInstructions | StaleForge | InTraining | NeverCertified | Failed | Withdrawn

  datatype Verdict = PASS | PROVISIONAL | FAIL | TIMEOUT | NOT_RUN | IN_PROGRESS | REVOKED | UNKNOWN(name: string)

  datatype Basis = Tested | Attested | Bootstrap | Simulation

  /** What a verdict says of the model that answered. */
  datatype ModelIdentity = ModelIdentity(digest: Option<string>, temperature: Option<real>, maxTokens: Option<int>,
                                         fingerprint: Option<string>)

  datatype ModelColumns = ModelColumns(digest: Option<string>, temperature: Option<real>, maxTokens: Option<int>,
                                       identity: Option<ModelIdentity>, fingerprint: Option<string>)

  /** Unit A is agent, Forge and module; Unit B is department and Forge, with no venture. */
  datatype CertKey =
    | UnitA(agent: AgentId, forge: ForgeId, mod: ModuleId)
    | UnitB(department: Department, forge: ForgeId)

  datatype Cert = Cert(id: CertId, state: State, tier: Option<Tier>, hash: Option<Hash>, apiVersion: Option<Version>,
                       rubric: string, score: Option<real>, threshold: Option<real>, pack: Option<string>,
                       agentModel: Option<string>, verdict: Option<Verdict>, model: ModelColumns, basis: Basis,
                       attestationRef: Option<nat>, simulationRef: Option<SimulationId>, evidence: Option<string>,
                       issuedAt: Time, updatedAt: Time)

  const ANSWERED: set<Verdict> := {PASS, PROVISIONAL, FAIL, REVOKED}

  const NOT_AN_ANSWER: set<Verdict> := {TIMEOUT, IN_PROGRESS, NOT_RUN}

  /** The table's CHECK constraints, those that relate one column to another. */
  predicate Checks(key: CertKey, c: Cert) {
    && (c.state == Certified ==> c.hash.Some? && c.apiVersion.Some? && c.tier.Some?)
    && (c.verdict.Some? && c.verdict.value in ANSWERED ==> c.agentModel.Some?)
    && (c.verdict.Some? && c.basis != Attested && c.state in {Certified, Provisional} ==>
          c.agentModel.Some? && c.model.digest.Some? && c.model.temperature.Some? && c.model.maxTokens.Some?)
    && (c.basis == Attested <==> c.attestationRef.Some?)
    && (c.basis == Attested ==> key.UnitB?)
    && (c.basis == Simulation <==> c.simulationRef.Some?)
    && (c.basis == Simulation ==> key.UnitB?)
    && (c.basis == Simulation ==> c.verdict.None? && c.agentModel.None? && c.model.digest.None? && c.score.None?)
    && (c.evidence.Some? ==> c.basis == Tested)
  }

  // ------------------------------------------------ grants, declarations, the rest

  /** The ladder derives a grant's id from what it grants; every other grant has an id of its own. */
  datatype GrantId = LadderGrant(venture: VentureId, agent: AgentId, forge: ForgeId, mod: ModuleId) | OtherGrant(n: nat)

  datatype Origin = Ladder | Phase0 | Unknown

  datatype Grant = Grant(agent: AgentId, forge: ForgeId, mod: ModuleId, venture: VentureId, tier: Option<Tier>,
                         operationRef: Option<CertId>, departmentRef: Option<CertId>, grantedAt: Time,
                         activatedAt: Option<Time>, supersededAt: Option<Time>, origin: Origin) {
    predicate Live() { supersededAt.None? }

    predicate Is(agent: AgentId, forge: ForgeId, mod: ModuleId, venture: VentureId) {
      this.agent == agent && this.forge == forge && this.mod == mod && this.venture == venture
    }
  }

  datatype Leaving = Leaving(at: Time, actor: Humans.HumanId, reason: string)

  datatype Declaration = Declaration(venture: VentureId, declaredBy: Humans.HumanId, declaredAt: Time, reason: string,
                                     left: Option<Leaving>)

  datatype Agent = Agent(department: Department, active: bool)

  datatype Registry = Registry(forges: map<ForgeId, Version>, modules: set<ModuleKey>, exclusions: set<ModuleKey>,
                               credentials: set<ForgeId>)

  /** `nextId` stands for uuid4, an id nobody has drawn before; `hex` is how a hash is spelled. */
  datatype Gov = Gov(certs: map<CertKey, Cert>, grants: map<GrantId, Grant>, sims: map<SimulationId, Declaration>,
                     instructions: map<ModuleKey, History>, agents: map<AgentId, Agent>, registry: Registry,
                     nextId: nat, hex: Hash -> string)

  datatype Refusal =
    | BadAttester | NoBootstrapReason | ReasonOnAVerdict | UnknownVerdict | NoModelNamed | NoModelIdentity
    | NoBasis | NoProvisionalBasis | TextNotLive | CheckRefused
    | EmptyReason | NotAuthorized | NotAPerson | NotInSimulation | AlreadyInSimulation | NoModules | NoInstruction
    | UnregisteredForge | Unpinned | NotAuthored(cause: AuthorError)
    | NoGrantsNamed | NoSuchGrant | AlreadyRetired | NothingActive | ModuleIsExcluded | NotRegistered
    | NoSuchAgent | AlreadyGranted | NoCertification

  function LiveInstruction(s: Gov, forge: ForgeId, mod: ModuleId): Option<Row> {
    LiveRow(RowsOf(s.instructions, (forge, mod)))
  }

  function CertAt(certs: map<CertKey, Cert>, key: CertKey): Option<Cert> {
    if key in certs then Some(certs[key]) else None
  }

  /** Whether the permission a certification rests on has been left. */
  predicate SimulationVoid(sims: map<SimulationId, Declaration>, c: Cert) {
    c.simulationRef.Some? && c.simulationRef.value in sims && sims[c.simulationRef.value].left.Some?
  }

  /** A live grant of this department's on this Forge. */
  predicate InContext(agents: map<AgentId, Agent>, g: Grant, department: Department, forge: ForgeId) {
    g.agent in agents && agents[g.agent].department == department && g.forge == forge && g.Live()
  }
}
