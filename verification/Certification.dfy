/**
 * Recording certifications, pointing grants at them, certifying a department for simulation,
 * and marking stale what the instructions or the Forge have outrun.
 */
module Certification {
  import opened Text
  import opened Wrappers
  import opened Versions
  import opened Instructions
  import opened Tables
  import Basis
  import Simulation
  import Humans

  // ------------------------------------------------ recording a result

  datatype Attester = SimForge | Phase0Bootstrap | Somebody(name: string)

  datatype Report = Report(verdict: Verdict, rubric: string, tier: Option<Tier>, hash: Option<Hash>,
                           apiVersion: Option<Version>, score: Option<real>, threshold: Option<real>,
                           pack: Option<string>, agentModel: Option<string>, identity: Option<ModelIdentity>,
                           attester: Attester, bootstrapReason: Option<string>, attestationRef: Option<nat>,
                           evidence: Option<string>)

  function StateForVerdict(verdict: Verdict): Option<State> {
    match verdict
    case PASS => Some(Certified)
    case PROVISIONAL => Some(Provisional)
    case FAIL => Some(Failed)
    case TIMEOUT => Some(InTraining)
    case NOT_RUN => Some(NeverCertified)
    case IN_PROGRESS => Some(InTraining)
    case REVOKED => Some(Withdrawn)
    case UNKNOWN(_) => None
  }

  predicate Given(text: Option<string>) { text.Some? && text.value != "" }

  /** The three promoted facts; an empty digest is no digest. */
  function Scalars(identity: Option<ModelIdentity>): ModelColumns {
    match identity
    case None => ModelColumns(None, None, None, None, None)
    case Some(m) =>
      ModelColumns(if Given(m.digest) then m.digest else None, m.temperature, m.maxTokens, identity, m.fingerprint)
  }

  /** The guards of `record_result`, in its order. */
  function RecordRefusal(r: Report): Option<Refusal> {
    var m, state := Scalars(r.identity), StateForVerdict(r.verdict);
    if r.attester.Somebody? then Some(BadAttester)
    else if r.attester.Phase0Bootstrap? && !Given(r.bootstrapReason) then Some(NoBootstrapReason)
    else if r.attester.SimForge? && Given(r.bootstrapReason) then Some(ReasonOnAVerdict)
    else if state.None? then Some(UnknownVerdict)
    else if r.attester.SimForge? && r.verdict in ANSWERED && (r.agentModel.None? || Blank(r.agentModel.value))
    then Some(NoModelNamed)
    else if r.attester.SimForge? && r.attestationRef.None? && state.value in {Certified, Provisional}
            && (m.digest.None? || m.temperature.None? || m.maxTokens.None?)
    then Some(NoModelIdentity)
    else if state.value == Certified && (r.hash.None? || !Given(r.apiVersion) || r.tier.None?) then Some(NoBasis)
    else if state.value == Provisional && (r.hash.None? || !Given(r.apiVersion)) then Some(NoProvisionalBasis)
    else None
  }

  /** The row the INSERT proposes. A bootstrap and an attestation name no model, and only SimForge writes a verdict. */
  function Proposed(r: Report, id: CertId, now: Time): Cert
    requires StateForVerdict(r.verdict).Some?
  {
    var bootstrap := r.attester.Phase0Bootstrap?;
    Cert(id, StateForVerdict(r.verdict).value, r.tier, r.hash, r.apiVersion, r.rubric, r.score, r.threshold,
         if bootstrap then Some("NO SCENARIO RUN - " + if r.bootstrapReason.Some? then r.bootstrapReason.value else "")
         else r.pack,
         if bootstrap then None else r.agentModel,
         if bootstrap then None else Some(r.verdict),
         if bootstrap || r.attestationRef.Some? then Scalars(None) else Scalars(r.identity),
         if bootstrap then Bootstrap else if r.attestationRef.Some? then Attested else Tested,
         r.attestationRef, None, r.evidence, now, now)
  }

  /** Whether the guards and the CHECK constraints accept a report, whatever the tables hold. */
  predicate Acceptable(key: CertKey, r: Report) {
    RecordRefusal(r).None? && Checks(key, Proposed(r, 0, 0))
  }

  /**
   * The guards stand in for the constraints except where an attestation is attached to what cannot
   * be attested, or evidence to what had no examiner.
   */
  lemma GuardsCoverChecks(key: CertKey, r: Report, id: CertId, now: Time)
    requires RecordRefusal(r).None?
    ensures Checks(key, Proposed(r, id, now)) <==>
            && (r.attestationRef.None? || (key.UnitB? && r.attester.SimForge?))
            && (r.evidence.None? || (r.attester.SimForge? && r.attestationRef.None?))
  {
  }

  /** A failed exam of an agent, posted with an attestation: no guard objects and the table refuses it. */
  lemma GuardsMissAnAttestedAgent(agent: AgentId, forge: ForgeId, mod: ModuleId)
    ensures exists r :: RecordRefusal(r).None? && !Checks(UnitA(agent, forge, mod), Proposed(r, 0, 0))
  {
    var r := Report(FAIL, "rubric", None, None, None, None, None, None, Some("model"), None,
                    SimForge, None, Some(1), None);
    assert Strip("model") == "model";
    assert RecordRefusal(r).None? && !Checks(UnitA(agent, forge, mod), Proposed(r, 0, 0));
  }

  /** An attested department's PASS, posted with the evidence the sweep fetches beside every verdict: likewise. */
  lemma GuardsMissEvidenceBesideAnAttestation(department: Department, forge: ForgeId, hash: Hash)
    ensures exists r: Report :: r.verdict == PASS && r.attestationRef.Some? && r.evidence.Some?
                        && RecordRefusal(r).None? && !Checks(UnitB(department, forge), Proposed(r, 0, 0))
  {
    var r := Report(PASS, "rubric", Some(Suggest), Some(hash), Some("1.0.0"), None, None, None, Some("model"), None,
                    SimForge, None, Some(1), Some("observed"));
    assert Strip("model") == "model";
    assert RecordRefusal(r).None? && !Checks(UnitB(department, forge), Proposed(r, 0, 0));
  }

  /** The trigger: a certified Unit A row names the text its module's live instruction has, if it has one. */
  predicate OnLiveText(s: Gov, key: CertKey, c: Cert) {
    key.UnitA? && c.state == Certified && LiveInstruction(s, key.forge, key.mod).Some? ==>
      c.hash == Some(LiveInstruction(s, key.forge, key.mod).value.hash)
  }

  /** What the table itself refuses: the trigger, then the constraints, then the reference to the agent. */
  function TableRefusal(s: Gov, key: CertKey, row: Cert): Option<Refusal> {
    if !OnLiveText(s, key, row) then Some(TextNotLive)
    else if !Checks(key, row) then Some(CheckRefused)
    else if key.UnitA? && key.agent !in s.agents then Some(NoSuchAgent)
    else None
  }

  /** Whether a report would be written over these tables, were there no standing row to preserve. */
  predicate Accepted(s: Gov, key: CertKey, r: Report) {
    RecordRefusal(r).None? && TableRefusal(s, key, Proposed(r, 0, 0)).None?
  }

  /** An upsert keeps the id and the issue date of the row it replaces, and nothing else. */
  function Upserted(certs: map<CertKey, Cert>, key: CertKey, row: Cert): map<CertKey, Cert> {
    certs[key := if key in certs then row.(id := certs[key].id, issuedAt := certs[key].issuedAt) else row]
  }

  /** Every live grant of the department on the Forge, pointed at the certification in force. */
  function Repointed(agents: map<AgentId, Agent>, grants: map<GrantId, Grant>, department: Department, forge: ForgeId,
                     id: CertId): map<GrantId, Grant> {
    map g | g in grants ::
      if InContext(agents, grants[g], department, forge) then grants[g].(departmentRef := Some(id)) else grants[g]
  }

  /** Written for the first time, or because something answered. */
  predicate Writes(s: Gov, key: CertKey, verdict: Verdict) {
    verdict !in NOT_AN_ANSWER || key !in s.certs
  }

  function Recorded(s: Gov, key: CertKey, r: Report, now: Time): Result<Gov, Refusal> {
    if RecordRefusal(r).Some? then Err(RecordRefusal(r).value)
    else if !Writes(s, key, r.verdict) then Ok(s)
    else if TableRefusal(s, key, Proposed(r, s.nextId, now)).Some?
    then Err(TableRefusal(s, key, Proposed(r, s.nextId, now)).value)
    else
      var certs := Upserted(s.certs, key, Proposed(r, s.nextId, now));
      Ok(s.(certs := certs, nextId := s.nextId + 1,
            grants := if key.UnitB? && key.department != ""
                      then Repointed(s.agents, s.grants, key.department, key.forge, certs[key].id) else s.grants))
  }

  // ------------------------------------------------ what recording does, in the stored columns

  /** A verdict on no exam finished: nothing was learned. */
  predicate Silent(verdict: Verdict) { verdict == TIMEOUT || verdict == IN_PROGRESS || verdict == NOT_RUN }

  /** What the guards let through, fact by fact. */
  lemma ReportPassesIff(r: Report)
    ensures RecordRefusal(r).None? <==>
            && (r.attester.SimForge? || r.attester.Phase0Bootstrap?) && !r.verdict.UNKNOWN?
            && (r.attester.Phase0Bootstrap? ==> r.bootstrapReason.Some? && r.bootstrapReason.value != "")
            && (r.attester.SimForge? && r.bootstrapReason.Some? ==> r.bootstrapReason.value == "")
            && (r.attester.SimForge? && !Silent(r.verdict) ==> r.agentModel.Some? && !AllBlank(r.agentModel.value))
            && (r.attester.SimForge? && r.attestationRef.None? && (r.verdict == PASS || r.verdict == PROVISIONAL) ==>
                  && r.identity.Some? && r.identity.value.digest.Some? && r.identity.value.digest.value != ""
                  && r.identity.value.temperature.Some? && r.identity.value.maxTokens.Some?)
            && (r.verdict == PASS || r.verdict == PROVISIONAL ==>
                  r.hash.Some? && r.apiVersion.Some? && r.apiVersion.value != "")
            && (r.verdict == PASS ==> r.tier.Some?)
  {
    if r.agentModel.Some? {
      BlankIffAllBlank(r.agentModel.value);
    }
  }

  /** A refusal names a fault the report has. */
  lemma RecordRefusalIsTrue(r: Report)
    requires RecordRefusal(r).Some?
    ensures match RecordRefusal(r).value
            case BadAttester => !r.attester.SimForge? && !r.attester.Phase0Bootstrap?
            case NoBootstrapReason =>
              r.attester.Phase0Bootstrap? && (r.bootstrapReason.Some? ==> r.bootstrapReason.value == "")
            case ReasonOnAVerdict => r.attester.SimForge? && r.bootstrapReason.Some? && r.bootstrapReason.value != ""
            case UnknownVerdict => r.verdict.UNKNOWN?
            case NoModelNamed =>
              r.attester.SimForge? && !Silent(r.verdict) && (r.agentModel.Some? ==> AllBlank(r.agentModel.value))
            case NoModelIdentity =>
              && r.attester.SimForge? && r.attestationRef.None? && (r.verdict == PASS || r.verdict == PROVISIONAL)
              && (r.identity.Some? ==>
                    || (r.identity.value.digest.Some? ==> r.identity.value.digest.value == "")
                    || r.identity.value.temperature.None? || r.identity.value.maxTokens.None?)
            case NoBasis =>
              r.verdict == PASS && (r.hash.None? || r.tier.None? || (r.apiVersion.Some? ==> r.apiVersion.value == ""))
            case NoProvisionalBasis =>
              r.verdict == PROVISIONAL && (r.hash.None? || (r.apiVersion.Some? ==> r.apiVersion.value == ""))
            case _ => false
  {
    if r.agentModel.Some? {
      BlankIffAllBlank(r.agentModel.value);
    }
  }

  /** The state each verdict means. */
  predicate Means(verdict: Verdict, state: State) {
    match verdict
    case PASS => state == Certified
    case PROVISIONAL => state == Provisional
    case FAIL => state == Failed
    case TIMEOUT => state == InTraining
    case IN_PROGRESS => state == InTraining
    case NOT_RUN => state == NeverCertified
    case REVOKED => state == Withdrawn
    case UNKNOWN(_) => false
  }

  /** The row says what was reported: what it was earned against, what it was earned with, and on whose word. */
  predicate SaysWhatWasReported(c: Cert, r: Report, now: Time) {
    && Means(r.verdict, c.state) && c.tier == r.tier && c.hash == r.hash && c.apiVersion == r.apiVersion
    && c.rubric == r.rubric && c.score == r.score && c.threshold == r.threshold && c.evidence == r.evidence
    && c.attestationRef == r.attestationRef && c.simulationRef.None? && c.updatedAt == now
    && (if r.attester.Phase0Bootstrap?
        then c.basis == Bootstrap && c.verdict.None? && c.agentModel.None?
             && r.bootstrapReason.Some? && c.pack == Some("NO SCENARIO RUN - " + r.bootstrapReason.value)
        else c.basis == (if r.attestationRef.Some? then Attested else Tested)
             && c.verdict == Some(r.verdict) && c.agentModel == r.agentModel && c.pack == r.pack)
    && (if r.attester.SimForge? && r.attestationRef.None? && r.identity.Some?
        then var m := r.identity.value;
             && c.model.digest == (if m.digest == Some("") then None else m.digest)
             && c.model.temperature == m.temperature && c.model.maxTokens == m.maxTokens
             && c.model.identity == r.identity && c.model.fingerprint == m.fingerprint
        else && c.model.digest.None? && c.model.temperature.None? && c.model.maxTokens.None? && c.model.identity.None?
             && c.model.fingerprint.None?)
  }

  lemma ProposedSaysIt(r: Report, id: CertId, now: Time)
    requires RecordRefusal(r).None?
    ensures SaysWhatWasReported(Proposed(r, id, now), r, now)
    ensures Proposed(r, id, now).id == id && Proposed(r, id, now).issuedAt == now
  {
  }

  /** The live grants of a department on a Forge name this certification, and no other grant has changed. */
  predicate RepointedTo(s: Gov, after: map<GrantId, Grant>, department: Department, forge: ForgeId, id: CertId) {
    && after.Keys == s.grants.Keys
    && forall g :: g in s.grants ==>
         if s.grants[g].agent in s.agents && s.agents[s.grants[g].agent].department == department
            && s.grants[g].forge == forge && s.grants[g].supersededAt.None?
         then after[g] == s.grants[g].(departmentRef := Some(id))
         else after[g] == s.grants[g]
  }

  /** The row of one key is put, under the id and issue date the key already had if it had one. */
  ghost predicate RowPut(s: Gov, after: Gov, key: CertKey, r: Report, now: Time) {
    && after.certs.Keys == s.certs.Keys + {key}
    && (forall k :: k in s.certs && k != key ==> after.certs[k] == s.certs[k])
    && SaysWhatWasReported(after.certs[key], r, now)
    && (if key in s.certs
        then after.certs[key].id == s.certs[key].id && after.certs[key].issuedAt == s.certs[key].issuedAt
        else after.certs[key].id == s.nextId && after.certs[key].issuedAt == now)
  }

  lemma RecordPutsTheRow(s: Gov, key: CertKey, r: Report, now: Time)
    requires Recorded(s, key, r, now).Ok? && !(Silent(r.verdict) && key in s.certs)
    ensures RowPut(s, Recorded(s, key, r, now).value, key, r, now)
  {
    ProposedSaysIt(r, s.nextId, now);
  }

  /**
   * An accepted result that finds no row, or answers, leaves a row that says what was reported, under
   * the id and issue date the key already had if it had one, and points the department's live grants
   * at it; one that is silent over a standing row leaves everything alone.
   */
  lemma RecordTakesEffect(s: Gov, key: CertKey, r: Report, now: Time)
    requires Recorded(s, key, r, now).Ok?
    ensures var after := Recorded(s, key, r, now).value;
            if Silent(r.verdict) && key in s.certs then after == s
            else
              && RowPut(s, after, key, r, now)
              && after == s.(certs := after.certs, grants := after.grants, nextId := s.nextId + 1)
              && (if key.UnitB? && key.department != ""
                  then RepointedTo(s, after.grants, key.department, key.forge, after.certs[key].id)
                  else after.grants == s.grants)
  {
    if !(Silent(r.verdict) && key in s.certs) {
      RecordPutsTheRow(s, key, r, now);
    }
  }

  /** What the table lets through besides: live text for a certified agent, what may be attested, an agent it knows. */
  lemma RecordOkIff(s: Gov, key: CertKey, r: Report, now: Time)
    ensures var live := if key.UnitA? then LiveInstruction(s, key.forge, key.mod) else None;
            Recorded(s, key, r, now).Ok? <==>
            && RecordRefusal(r).None?
            && (!(Silent(r.verdict) && key in s.certs) ==>
                  && (r.verdict == PASS && live.Some? ==> r.hash == Some(live.value.hash))
                  && (r.attestationRef.Some? ==> key.UnitB? && r.attester.SimForge?)
                  && (r.evidence.Some? ==> r.attester.SimForge? && r.attestationRef.None?)
                  && (key.UnitA? ==> key.agent in s.agents))
  {
    if RecordRefusal(r).None? {
      GuardsCoverChecks(key, r, s.nextId, now);
      ProposedSaysIt(r, s.nextId, now);
    }
  }

  // ------------------------------------------------ certifying for simulation

  /** The modules a department holds on a Forge for a venture, from its live grants. */
  function DepartmentModules(s: Gov, venture: VentureId, department: Department, forge: ForgeId): set<ModuleId> {
    set g | g in s.grants && s.grants[g].venture == venture && InContext(s.agents, s.grants[g], department, forge)
      :: s.grants[g].mod
  }

  /** Every member module's live hash, spelled. */
  function MemberDigests(s: Gov, forge: ForgeId, modules: set<ModuleId>): map<string, string>
    requires forall m :: m in modules ==> LiveInstruction(s, forge, m).Some?
  {
    map m | m in modules :: s.hex(LiveInstruction(s, forge, m).value.hash)
  }

  /** The composite a department is bound to: the hash of its members' hashes, joined as text. */
  function DepartmentBasis(s: Gov, forge: ForgeId, modules: set<ModuleId>): Hash
    requires forall m :: m in modules ==> LiveInstruction(s, forge, m).Some?
  {
    BasisHash(Basis.PREFIX + Basis.Material(MemberDigests(s, forge, modules)))
  }

  /** The modules' live hashes are spelled at the fixed width, and no two of them alike. */
  ghost predicate Spelled(s: Gov, t: Gov, forge: ForgeId, modules: set<ModuleId>, others: set<ModuleId>)
    requires forall m :: m in modules ==> LiveInstruction(s, forge, m).Some?
    requires forall m :: m in others ==> LiveInstruction(t, forge, m).Some?
  {
    && s.hex == t.hex
    && (forall m :: m in modules ==> Basis.IsDigest(s.hex(LiveInstruction(s, forge, m).value.hash)))
    && (forall m :: m in others ==> Basis.IsDigest(t.hex(LiveInstruction(t, forge, m).value.hash)))
    && (forall m :: m in modules && m in others
          && s.hex(LiveInstruction(s, forge, m).value.hash) == t.hex(LiveInstruction(t, forge, m).value.hash)
          ==> LiveInstruction(s, forge, m).value.hash == LiveInstruction(t, forge, m).value.hash)
  }

  lemma PrefixCancels(prefix: string, a: string, b: string)
    ensures prefix + a == prefix + b <==> a == b
  {
    assert (prefix + a)[|prefix|..] == a && (prefix + b)[|prefix|..] == b;
  }

  lemma DigestsAgreeIff(s: Gov, t: Gov, forge: ForgeId, modules: set<ModuleId>, others: set<ModuleId>)
    requires forall m :: m in modules ==> LiveInstruction(s, forge, m).Some?
    requires forall m :: m in others ==> LiveInstruction(t, forge, m).Some?
    requires Spelled(s, t, forge, modules, others)
    ensures MemberDigests(s, forge, modules) == MemberDigests(t, forge, others) <==>
            && modules == others
            && forall m :: m in modules ==>
                 LiveInstruction(s, forge, m).value.hash == LiveInstruction(t, forge, m).value.hash
  {
    var a, b := MemberDigests(s, forge, modules), MemberDigests(t, forge, others);
    assert a.Keys == modules && b.Keys == others;
    if a == b {
      assert forall m :: m in modules ==> a[m] == b[m];
    }
  }

  lemma DigestsArePlain(s: Gov, forge: ForgeId, modules: set<ModuleId>)
    requires modules != {}
    requires forall m :: m in modules ==> '\n' !in m && LiveInstruction(s, forge, m).Some?
                                          && Basis.IsDigest(s.hex(LiveInstruction(s, forge, m).value.hash))
    ensures MemberDigests(s, forge, modules) != map[] && Basis.Plain(MemberDigests(s, forge, modules))
  {
    assert MemberDigests(s, forge, modules).Keys == modules;
  }

  lemma BasesAgreeIff(a: map<string, string>, b: map<string, string>)
    requires a != map[] && b != map[] && Basis.Plain(a) && Basis.Plain(b)
    ensures BasisHash(Basis.PREFIX + Basis.Material(a)) == BasisHash(Basis.PREFIX + Basis.Material(b)) <==> a == b
  {
    PrefixCancels(Basis.PREFIX, Basis.Material(a), Basis.Material(b));
    Basis.MaterialIdentifies(a, b);
  }

  /**
   * The basis changes when any member's instruction does or the membership does, and not otherwise,
   * for module ids that hold no line end.
   */
  lemma BasisIdentifiesItsMembers(s: Gov, t: Gov, forge: ForgeId, modules: set<ModuleId>, others: set<ModuleId>)
    requires modules != {} && others != {}
    requires forall m :: m in modules ==> '\n' !in m && LiveInstruction(s, forge, m).Some?
    requires forall m :: m in others ==> '\n' !in m && LiveInstruction(t, forge, m).Some?
    requires Spelled(s, t, forge, modules, others)
    ensures DepartmentBasis(s, forge, modules) == DepartmentBasis(t, forge, others) <==>
            && modules == others
            && forall m :: m in modules ==>
                 LiveInstruction(s, forge, m).value.hash == LiveInstruction(t, forge, m).value.hash
  {
    DigestsAgreeIff(s, t, forge, modules, others);
    DigestsArePlain(s, forge, modules);
    DigestsArePlain(t, forge, others);
    BasesAgreeIff(MemberDigests(s, forge, modules), MemberDigests(t, forge, others));
  }

  /** The row the simulation upsert leaves: the columns it does not list survive from the row it replaces. */
  function SimulationRow(standing: Option<Cert>, id: CertId, hash: Hash, version: Version, declaration: SimulationId,
                         reason: string, now: Time): Cert {
    match standing
    case None =>
      Cert(id, Certified, Some(Suggest), Some(hash), Some(version), "office/simulation/" + Spell(declaration),
           None, None, Some("NO EXAM - simulation: " + Strip(reason)), None, None, Scalars(None),
           Simulation, None, Some(declaration), None, now, now)
    case Some(c) =>
      c.(state := Certified, tier := Some(Suggest), hash := Some(hash), apiVersion := Some(version),
         pack := Some("NO EXAM - simulation: " + Strip(reason)), basis := Simulation,
         simulationRef := Some(declaration), attestationRef := None, verdict := None, agentModel := None,
         model := c.model.(digest := None), score := None,
         issuedAt := now, updatedAt := now)
  }

  /** The guards of `certify_for_simulation`, in its order. */
  ghost function CertifyRefusal(s: Gov, venture: VentureId, department: Department, forge: ForgeId, me: Humans.Human,
                                reason: string): (refusal: Option<Refusal>)
    ensures refusal.None? ==> Simulation.Current(s.sims, venture).Some? && forge in s.registry.forges
    ensures refusal.None? ==>
              forall m :: m in DepartmentModules(s, venture, department, forge) ==> LiveInstruction(s, forge, m).Some?
  {
    var modules := DepartmentModules(s, venture, department, forge);
    if Blank(reason) then Some(EmptyReason)
    else if Humans.Authorize(me, Humans.Ivan, None).Err? then Some(NotAuthorized)
    else if me.origin != Humans.Person then Some(NotAPerson)
    else if Simulation.Current(s.sims, venture).None? then Some(NotInSimulation)
    else if modules == {} then Some(NoModules)
    else if exists m :: m in modules && LiveInstruction(s, forge, m).None? then Some(NoInstruction)
    else if forge !in s.registry.forges then Some(UnregisteredForge)
    else None
  }

  /** The row the upsert of a permitted certification leaves. */
  ghost function PermittedRow(s: Gov, venture: VentureId, department: Department, forge: ForgeId, me: Humans.Human,
                              reason: string, now: Time): Cert
    requires CertifyRefusal(s, venture, department, forge, me, reason).None?
  {
    SimulationRow(CertAt(s.certs, UnitB(department, forge)), s.nextId,
                  DepartmentBasis(s, forge, DepartmentModules(s, venture, department, forge)), s.registry.forges[forge],
                  Simulation.Current(s.sims, venture).value, reason, now)
  }

  /** A department's row and the references to it, written together unless a constraint refuses the row. */
  function DepartmentWritten(s: Gov, department: Department, forge: ForgeId, row: Cert): Result<Gov, Refusal> {
    var key := UnitB(department, forge);
    if !Checks(key, row) then Err(CheckRefused)
    else Ok(s.(certs := s.certs[key := row], nextId := s.nextId + 1,
               grants := Repointed(s.agents, s.grants, department, forge, row.id)))
  }

  ghost function CertifiedForSimulation(s: Gov, venture: VentureId, department: Department, forge: ForgeId,
                                        me: Humans.Human, reason: string, now: Time): Result<Gov, Refusal> {
    var refusal := CertifyRefusal(s, venture, department, forge, me, reason);
    if refusal.Some? then Err(refusal.value)
    else DepartmentWritten(s, department, forge, PermittedRow(s, venture, department, forge, me, reason, now))
  }

  lemma SimulationRowChecks(key: CertKey, standing: Option<Cert>, id: CertId, hash: Hash, version: Version,
                            declaration: SimulationId, reason: string, now: Time)
    requires key.UnitB?
    ensures Checks(key, SimulationRow(standing, id, hash, version, declaration, reason, now)) <==>
            standing.None? || standing.value.evidence.None?
  {
  }

  /**
   * The upsert lists the columns it clears and the evidence is not among them: an otherwise permitted
   * simulation certification is refused exactly when the department's standing row carries evidence.
   */
  lemma EvidenceBlocksSimulation(s: Gov, venture: VentureId, department: Department, forge: ForgeId, me: Humans.Human,
                                 reason: string, now: Time)
    requires CertifyRefusal(s, venture, department, forge, me, reason).None?
    ensures var r := CertifiedForSimulation(s, venture, department, forge, me, reason, now);
            var key := UnitB(department, forge);
            && (r.Err? <==> key in s.certs && s.certs[key].evidence.Some?)
            && (r.Err? ==> r.error == CheckRefused)
  {
    var key := UnitB(department, forge);
    SimulationRowChecks(key, CertAt(s.certs, key), s.nextId,
                        DepartmentBasis(s, forge, DepartmentModules(s, venture, department, forge)),
                        s.registry.forges[forge], Simulation.Current(s.sims, venture).value, reason, now);
  }

  /** What permits a simulation certification, fact by fact. */
  lemma PermittedIff(s: Gov, venture: VentureId, department: Department, forge: ForgeId, me: Humans.Human,
                     reason: string)
    ensures CertifyRefusal(s, venture, department, forge, me, reason).None? <==>
            && !AllBlank(reason) && me.active && me.Holds(Humans.Ivan, None) && me.origin == Humans.Person
            && (exists d :: d in s.sims && s.sims[d].venture == venture && s.sims[d].left.None?)
            && (exists g :: g in s.grants && IsMember(s, s.grants[g], venture, department, forge))
            && (forall g :: g in s.grants && IsMember(s, s.grants[g], venture, department, forge) ==>
                  LiveInstruction(s, forge, s.grants[g].mod).Some?)
            && forge in s.registry.forges
  {
    BlankIffAllBlank(reason);
    Humans.AuthorizedIff(me, None);
    assert forall d :: Simulation.IsCurrent(s.sims, d, venture) <==>
             d in s.sims && s.sims[d].venture == venture && !s.sims[d].left.Some?;
    ModulesAreMembers(s, venture, department, forge);
  }

  lemma ModulesAreMembers(s: Gov, venture: VentureId, department: Department, forge: ForgeId)
    ensures forall g :: g in s.grants && IsMember(s, s.grants[g], venture, department, forge) ==>
              s.grants[g].mod in DepartmentModules(s, venture, department, forge)
    ensures forall m :: m in DepartmentModules(s, venture, department, forge) ==>
              exists g :: g in s.grants && s.grants[g].mod == m && IsMember(s, s.grants[g], venture, department, forge)
  {
    forall m | m in DepartmentModules(s, venture, department, forge)
      ensures exists g :: g in s.grants && s.grants[g].mod == m
                          && IsMember(s, s.grants[g], venture, department, forge)
    {
      var g :| g in s.grants && s.grants[g].mod == m && s.grants[g].venture == venture
               && InContext(s.agents, s.grants[g], department, forge);
      assert IsMember(s, s.grants[g], venture, department, forge);
    }
  }

  /** A refusal names something that is so. */
  lemma CertifyRefusalIsTrue(s: Gov, venture: VentureId, department: Department, forge: ForgeId, me: Humans.Human,
                             reason: string)
    requires CertifyRefusal(s, venture, department, forge, me, reason).Some?
    ensures match CertifyRefusal(s, venture, department, forge, me, reason).value
            case EmptyReason => AllBlank(reason)
            case NotAuthorized => !(me.active && me.Holds(Humans.Ivan, None))
            case NotAPerson => me.origin != Humans.Person
            case NotInSimulation => forall d :: d in s.sims && s.sims[d].venture == venture ==> s.sims[d].left.Some?
            case NoModules => forall g :: g in s.grants ==> !IsMember(s, s.grants[g], venture, department, forge)
            case NoInstruction => exists g :: g in s.grants && IsMember(s, s.grants[g], venture, department, forge)
                                              && LiveInstruction(s, forge, s.grants[g].mod).None?
            case UnregisteredForge => forge !in s.registry.forges
            case _ => false
  {
    BlankIffAllBlank(reason);
    Humans.AuthorizedIff(me, None);
    assert forall d :: d in s.sims && s.sims[d].venture == venture && !s.sims[d].left.Some? ==>
             Simulation.IsCurrent(s.sims, d, venture);
    ModulesAreMembers(s, venture, department, forge);
  }

  /** A live grant of the venture's, on the Forge, held in the department: its module is a member. */
  predicate IsMember(s: Gov, g: Grant, venture: VentureId, department: Department, forge: ForgeId) {
    && g.venture == venture && g.forge == forge && g.supersededAt.None?
    && g.agent in s.agents && s.agents[g.agent].department == department
  }

  /** The text the basis is hashed from lists every member module and no other, each with its live hash. */
  ghost predicate ListsMembers(s: Gov, digests: map<string, string>, venture: VentureId, department: Department,
                               forge: ForgeId)
  {
    && (forall m :: m in digests <==>
          exists g :: g in s.grants && s.grants[g].mod == m && IsMember(s, s.grants[g], venture, department, forge))
    && (forall m :: m in digests ==>
          LiveInstruction(s, forge, m).Some? && digests[m] == s.hex(LiveInstruction(s, forge, m).value.hash))
  }

  /** Certified at the floor, against the department's members and the Forge as they are, on a live declaration. */
  ghost predicate SaysSimulation(s: Gov, c: Cert, venture: VentureId, department: Department, forge: ForgeId,
                                 reason: string, now: Time)
  {
    && c.state == Certified && c.tier == Some(Suggest) && c.basis == Simulation && c.attestationRef.None?
    && forge in s.registry.forges && c.apiVersion == Some(s.registry.forges[forge])
    && (exists digests :: ListsMembers(s, digests, venture, department, forge)
                          && c.hash == Some(BasisHash("office/unit-b/v1\n" + Basis.Material(digests))))
    && c.simulationRef.Some? && c.simulationRef.value in s.sims
    && s.sims[c.simulationRef.value].venture == venture && s.sims[c.simulationRef.value].left.None?
    && c.pack == Some("NO EXAM - simulation: " + Strip(reason))
    && c.verdict.None? && c.agentModel.None? && c.model.digest.None? && c.score.None?
    && c.issuedAt == now && c.updatedAt == now
  }

  /** The columns the upsert does not list. */
  predicate KeepsUnlisted(c: Cert, standing: Cert) {
    && c.id == standing.id && c.rubric == standing.rubric && c.threshold == standing.threshold
    && c.evidence == standing.evidence && c.model.temperature == standing.model.temperature
    && c.model.maxTokens == standing.model.maxTokens && c.model.identity == standing.model.identity
    && c.model.fingerprint == standing.model.fingerprint
  }

  /** A first row has no column to keep. */
  predicate IsFirst(c: Cert, id: CertId) {
    && c.id == id && c.simulationRef.Some? && c.rubric == "office/simulation/" + Spell(c.simulationRef.value)
    && c.threshold.None? && c.evidence.None? && c.model.temperature.None? && c.model.maxTokens.None?
    && c.model.identity.None? && c.model.fingerprint.None?
  }

  lemma MembersAreListed(s: Gov, venture: VentureId, department: Department, forge: ForgeId)
    requires forall m :: m in DepartmentModules(s, venture, department, forge) ==> LiveInstruction(s, forge, m).Some?
    ensures ListsMembers(s, MemberDigests(s, forge, DepartmentModules(s, venture, department, forge)),
                         venture, department, forge)
  {
    ModulesAreMembers(s, venture, department, forge);
  }

  lemma PermittedRowSaysIt(s: Gov, venture: VentureId, department: Department, forge: ForgeId, me: Humans.Human,
                           reason: string, now: Time)
    requires CertifyRefusal(s, venture, department, forge, me, reason).None?
    ensures var row, key := PermittedRow(s, venture, department, forge, me, reason, now), UnitB(department, forge);
            && SaysSimulation(s, row, venture, department, forge, reason, now)
            && (key in s.certs ==> KeepsUnlisted(row, s.certs[key])) && (key !in s.certs ==> IsFirst(row, s.nextId))
  {
    var digests := MemberDigests(s, forge, DepartmentModules(s, venture, department, forge));
    MembersAreListed(s, venture, department, forge);
    assert PermittedRow(s, venture, department, forge, me, reason, now).hash
           == Some(BasisHash("office/unit-b/v1\n" + Basis.Material(digests)));
  }

  /** The columns outside the row: every live grant of the department names it, and nothing else changes. */
  ghost predicate OnlyDepartmentChanged(s: Gov, after: Gov, department: Department, forge: ForgeId) {
    var key := UnitB(department, forge);
    && after.certs.Keys == s.certs.Keys + {key}
    && (forall k :: k in s.certs && k != key ==> after.certs[k] == s.certs[k])
    && RepointedTo(s, after.grants, department, forge, after.certs[key].id)
    && after == s.(certs := after.certs, grants := after.grants, nextId := s.nextId + 1)
  }

  lemma WritingADepartment(s: Gov, department: Department, forge: ForgeId, row: Cert)
    requires DepartmentWritten(s, department, forge, row).Ok?
    ensures var after := DepartmentWritten(s, department, forge, row).value;
            OnlyDepartmentChanged(s, after, department, forge) && after.certs[UnitB(department, forge)] == row
  {
  }

  /**
   * A simulation certification leaves the department's row certified at the floor on the venture's
   * current declaration, bound to its members' live instructions and the Forge's version, claiming no
   * exam and not void; every live grant of the department names it, and nothing else changes.
   */
  lemma CertifyingTakesEffect(s: Gov, venture: VentureId, department: Department, forge: ForgeId, me: Humans.Human,
                              reason: string, now: Time)
    requires CertifiedForSimulation(s, venture, department, forge, me, reason, now).Ok?
    ensures var after, key := CertifiedForSimulation(s, venture, department, forge, me, reason, now).value,
                              UnitB(department, forge);
            && OnlyDepartmentChanged(s, after, department, forge)
            && SaysSimulation(s, after.certs[key], venture, department, forge, reason, now)
            && !SimulationVoid(after.sims, after.certs[key])
            && (key in s.certs ==> KeepsUnlisted(after.certs[key], s.certs[key]))
            && (key !in s.certs ==> IsFirst(after.certs[key], s.nextId))
  {
    var row := PermittedRow(s, venture, department, forge, me, reason, now);
    var after := DepartmentWritten(s, department, forge, row).value;
    assert CertifiedForSimulation(s, venture, department, forge, me, reason, now) == Ok(after);
    WritingADepartment(s, department, forge, row);
    assert SaysSimulation(s, row, venture, department, forge, reason, now) by {
      PermittedRowSaysIt(s, venture, department, forge, me, reason, now);
    }
    assert !SimulationVoid(s.sims, row);
    if UnitB(department, forge) in s.certs {
      assert KeepsUnlisted(row, s.certs[UnitB(department, forge)]) by {
        PermittedRowSaysIt(s, venture, department, forge, me, reason, now);
      }
    } else {
      assert IsFirst(row, s.nextId) by {
        PermittedRowSaysIt(s, venture, department, forge, me, reason, now);
      }
    }
  }

  // ------------------------------------------------ staleness

  /** The rows one sweep looks at: certified, on this registered Forge, and on this module if one is named. */
  predicate Considered(s: Gov, key: CertKey, forge: ForgeId, mod: Option<ModuleId>) {
    && key in s.certs && s.certs[key].state == Certified && key.forge == forge && forge in s.registry.forges
    && (mod.None? || (key.UnitA? && key.mod == mod.value))
  }

  /** The live text a row is compared with; Unit B is compared with none. */
  function LiveFor(s: Gov, key: CertKey): Option<Row> {
    if key.UnitA? then LiveInstruction(s, key.forge, key.mod) else None
  }

  /** What a row becomes, if anything; refuses when it must compare a version that is not pinned. */
  function Restale(s: Gov, key: CertKey): Result<Option<State>, Refusal>
    requires key in s.certs && key.forge in s.registry.forges
  {
    var c, live := s.certs[key], LiveFor(s, key);
    if key.UnitA? && live.None? then Ok(Some(StaleInstructions))
    else if live.Some? && c.hash != Some(live.value.hash) then Ok(Some(StaleInstructions))
    else if c.apiVersion.None? then Err(Unpinned)
    else
      match ForgeVersionStale(c.apiVersion.value, s.registry.forges[key.forge],
                              if live.Some? then live.value.sensitivity else MajorMinor)
      case Err(_) => Err(Unpinned)
      case Ok(stale) => Ok(if stale then Some(StaleForge) else None)
  }

  predicate Unreadable(s: Gov, key: CertKey, forge: ForgeId, mod: Option<ModuleId>) {
    Considered(s, key, forge, mod) && Restale(s, key).Err?
  }

  predicate Falls(s: Gov, key: CertKey, forge: ForgeId, mod: Option<ModuleId>) {
    Considered(s, key, forge, mod) && Restale(s, key).Ok? && Restale(s, key).value.Some?
  }

  /** The certifications after a sweep that read every row. */
  function Swept(s: Gov, forge: ForgeId, mod: Option<ModuleId>, now: Time): map<CertKey, Cert> {
    map key | key in s.certs ::
      if Falls(s, key, forge, mod) then s.certs[key].(state := Restale(s, key).value.value, updatedAt := now)
      else s.certs[key]
  }

  /** One unreadable row refuses the whole sweep before anything is written. */
  ghost function Recomputed(s: Gov, forge: ForgeId, mod: Option<ModuleId>, now: Time): Result<Gov, Refusal> {
    if exists key :: Unreadable(s, key, forge, mod) then Err(Unpinned)
    else Ok(s.(certs := Swept(s, forge, mod, now)))
  }

  /** The row is certified against what is live now: its module's text if it has one, and the Forge's version. */
  predicate UpToDate(s: Gov, key: CertKey)
    requires key in s.certs && key.forge in s.registry.forges
  {
    && (key.UnitA? ==> LiveFor(s, key).Some? && s.certs[key].hash == Some(LiveFor(s, key).value.hash))
    && s.certs[key].apiVersion.Some?
    && Fresh(s.certs[key].apiVersion.value, s.registry.forges[key.forge],
             if LiveFor(s, key).Some? then LiveFor(s, key).value.sensitivity else MajorMinor)
  }

  lemma OnlyCurrentRowsStand(s: Gov, key: CertKey)
    requires key in s.certs && key.forge in s.registry.forges
    ensures Restale(s, key) == Ok(None) <==> UpToDate(s, key)
  {
  }

  /**
   * After a sweep of a registered Forge the certified rows are exactly those that were certified
   * and are current; every other row of the table is the row it was but for its state.
   */
  lemma SweepLeavesTheCurrent(s: Gov, forge: ForgeId, now: Time, key: CertKey)
    requires Recomputed(s, forge, None, now).Ok? && key in s.certs && forge in s.registry.forges
    ensures var after := Recomputed(s, forge, None, now).value;
            && key in after.certs
            && (key.forge == forge ==>
                  (after.certs[key].state == Certified <==> s.certs[key].state == Certified && UpToDate(s, key)))
            && (after.certs[key] != s.certs[key] ==>
                  Falls(s, key, forge, None)
                  && after.certs[key].state in {StaleInstructions, StaleForge}
                  && after.certs[key] == s.certs[key].(state := after.certs[key].state, updatedAt := now))
  {
    assert !Unreadable(s, key, forge, None);
    if key.forge == forge {
      OnlyCurrentRowsStand(s, key);
    }
  }

  /**
   * What a sweep makes of each row, whether or not one module is named: an agent's on text that is not
   * live falls to its instructions, any other on a version the Forge has left falls to the Forge, and
   * the rest, with every row that was not certified or not asked about, stand as they were.
   */
  lemma SweepTakesEffect(s: Gov, forge: ForgeId, only: Option<ModuleId>, now: Time, key: CertKey)
    requires Recomputed(s, forge, only, now).Ok? && key in s.certs
    ensures var after, c := Recomputed(s, forge, only, now).value, s.certs[key];
            var live := if key.UnitA? then LiveInstruction(s, key.forge, key.mod) else None;
            && after == s.(certs := after.certs) && after.certs.Keys == s.certs.Keys
            && after.certs[key] ==
               if c.state != Certified || key.forge != forge || forge !in s.registry.forges
                  || (only.Some? && !(key.UnitA? && key.mod == only.value)) then c
               else if key.UnitA? && (live.None? || c.hash != Some(live.value.hash))
               then c.(state := StaleInstructions, updatedAt := now)
               else if c.apiVersion.Some? && Fresh(c.apiVersion.value, s.registry.forges[forge],
                                                   if live.Some? then live.value.sensitivity else MajorMinor)
               then c
               else c.(state := StaleForge, updatedAt := now)
  {
    assert !Unreadable(s, key, forge, only);
  }

  /** A second sweep finds nothing to do. */
  lemma SweepIsIdempotent(s: Gov, forge: ForgeId, mod: Option<ModuleId>, now: Time, later: Time)
    requires Recomputed(s, forge, mod, now).Ok?
    ensures Recomputed(Recomputed(s, forge, mod, now).value, forge, mod, later) == Recomputed(s, forge, mod, now)
  {
    var after := Recomputed(s, forge, mod, now).value;
    forall key ensures !Unreadable(after, key, forge, mod) && !Falls(after, key, forge, mod) {
      assert !Unreadable(s, key, forge, mod);
      if Considered(after, key, forge, mod) {
        assert !Falls(s, key, forge, mod) && Considered(s, key, forge, mod);
        assert Restale(after, key) == Restale(s, key);
      }
    }
    assert Swept(after, forge, mod, later) == after.certs;
  }

  /**
   * A sweep refuses exactly when some certified row it would compare on version carries an
   * unpinned one, or the Forge itself does and any row gets that far.
   */
  lemma SweepRefusesIff(s: Gov, forge: ForgeId, mod: Option<ModuleId>, now: Time)
    requires forge in s.registry.forges
    ensures Recomputed(s, forge, mod, now).Err? <==>
            exists key :: Considered(s, key, forge, mod)
                          && (key.UnitA? ==>
                                LiveFor(s, key).Some? && s.certs[key].hash == Some(LiveFor(s, key).value.hash))
                          && (s.certs[key].apiVersion.None? || !Pinned(s.certs[key].apiVersion.value)
                              || !Pinned(s.registry.forges[forge]))
  {
    if Recomputed(s, forge, mod, now).Err? {
      var key :| Unreadable(s, key, forge, mod);
      assert Considered(s, key, forge, mod);
    }
    if key :| Considered(s, key, forge, mod)
              && (key.UnitA? ==> LiveFor(s, key).Some? && s.certs[key].hash == Some(LiveFor(s, key).value.hash))
              && (s.certs[key].apiVersion.None? || !Pinned(s.certs[key].apiVersion.value)
                  || !Pinned(s.registry.forges[forge])) {
      assert Unreadable(s, key, forge, mod);
    }
  }
}
