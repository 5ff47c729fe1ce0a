/**
 * Grants: issued, activated at Gate 11, deactivated, retired, and resolved on every call against
 * the tables as they stand.
 */
module Grants {
  import opened Text
  import opened Wrappers
  import opened Instructions
  import opened Tables
  import Certification
  import Humans

  // ------------------------------------------------ resolving a call

  /** The key a call asks about. */
  datatype Ask = Ask(agent: AgentId, forge: ForgeId, mod: ModuleId, venture: VentureId)

  datatype Resolved = Resolved(grant: GrantId, tier: Tier, certifiedTier: Tier, simulationOnly: bool)

  datatype Denial =
    | ModuleExcluded | UnknownForge | NotGranted | IdentityInactive | MissingReference
    | NotCertified(unitA: State, unitB: State) | CertificationVoid | NamesNoModel | GrantSuperseded
    | GrantNotActivated | NoCredential | NoTierPlanned | UncertifiedTier

  /** A grant of the key that the query's inner joins keep. */
  predicate Candidate(s: Gov, ask: Ask, g: GrantId) {
    && g in s.grants && s.grants[g].Is(ask.agent, ask.forge, ask.mod, ask.venture)
    && ask.agent in s.agents && ask.forge in s.registry.forges && (ask.forge, ask.mod) in s.registry.modules
  }

  /** `ORDER BY (superseded_at IS NOT NULL), granted_at DESC`: g sorts no later than h. */
  predicate SortsFirst(g: Grant, h: Grant) {
    (g.Live() && !h.Live()) || (g.Live() == h.Live() && g.grantedAt >= h.grantedAt)
  }

  /** A row `LIMIT 1` may return; grants issued at the same instant tie. */
  ghost predicate Top(s: Gov, ask: Ask, g: GrantId) {
    Candidate(s, ask, g) && forall h :: Candidate(s, ask, h) ==> SortsFirst(s.grants[g], s.grants[h])
  }

  function UnitAOf(s: Gov, ask: Ask): Option<Cert> {
    CertAt(s.certs, UnitA(ask.agent, ask.forge, ask.mod))
  }

  /** Unit B is the agent's department's, as the department is now. */
  function UnitBOf(s: Gov, ask: Ask): Option<Cert>
    requires ask.agent in s.agents
  {
    CertAt(s.certs, UnitB(s.agents[ask.agent].department, ask.forge))
  }

  function StateOf(c: Option<Cert>): State {
    if c.Some? then c.value.state else NeverCertified
  }

  /** Certified tier caps declared tier. */
  function CapTier(declared: Tier, certified: Option<Tier>): Option<Tier> {
    if certified.None? then None
    else Some(if TierRank(declared) <= TierRank(certified.value) then declared else certified.value)
  }

  /** The refusal ladder over the row the query returned, rung by rung. */
  function Decide(s: Gov, ask: Ask, g: GrantId): Result<Resolved, Denial>
    requires Candidate(s, ask, g)
  {
    var grant, a, b := s.grants[g], UnitAOf(s, ask), UnitBOf(s, ask);
    if (ask.forge, ask.mod) in s.registry.exclusions then Err(ModuleExcluded)
    else if !s.agents[ask.agent].active then Err(IdentityInactive)
    else if grant.operationRef.None? || grant.departmentRef.None? then Err(MissingReference)
    else if StateOf(a) != Certified || StateOf(b) != Certified then Err(NotCertified(StateOf(a), StateOf(b)))
    else if SimulationVoid(s.sims, b.value) then Err(CertificationVoid)
    else if a.value.verdict.Some? && !Certification.Given(a.value.model.digest) then Err(NamesNoModel)
    else if !grant.Live() then Err(GrantSuperseded)
    else if grant.activatedAt.None? then Err(GrantNotActivated)
    else if ask.forge !in s.registry.credentials then Err(NoCredential)
    else if grant.tier.None? then Err(NoTierPlanned)
    else if a.value.tier.None? then Err(UncertifiedTier)
    else Ok(Resolved(g, CapTier(grant.tier.value, a.value.tier).value, a.value.tier.value, b.value.basis == Simulation))
  }

  /** Why a key with no row at all is refused. */
  function NoRow(s: Gov, ask: Ask): Denial {
    if (ask.forge, ask.mod) in s.registry.exclusions then ModuleExcluded
    else if (ask.forge, ask.mod) !in s.registry.modules then UnknownForge
    else NotGranted
  }

  // ------------------------------------------------ the one condition behind the ladder

  /** The newest live grant of the key. */
  ghost predicate NewestLive(s: Gov, ask: Ask, g: GrantId) {
    && g in s.grants && s.grants[g].Live() && s.grants[g].Is(ask.agent, ask.forge, ask.mod, ask.venture)
    && forall h :: h in s.grants && s.grants[h].Live() && s.grants[h].Is(ask.agent, ask.forge, ask.mod, ask.venture)
         ==> s.grants[g].grantedAt >= s.grants[h].grantedAt
  }

  /** Certified, and the permission behind it still stands. */
  predicate Standing(s: Gov, key: CertKey) {
    key in s.certs && s.certs[key].state == Certified && !SimulationVoid(s.sims, s.certs[key])
  }

  /** Everything a call needs besides the grant: an active agent of both certified units on a usable module. */
  predicate Qualified(s: Gov, ask: Ask) {
    && (ask.forge, ask.mod) in s.registry.modules && (ask.forge, ask.mod) !in s.registry.exclusions
    && ask.forge in s.registry.forges && ask.forge in s.registry.credentials
    && ask.agent in s.agents && s.agents[ask.agent].active
    && var a, b := UnitA(ask.agent, ask.forge, ask.mod), UnitB(s.agents[ask.agent].department, ask.forge);
    && a in s.certs && s.certs[a].state == Certified && Standing(s, b)
    && s.certs[a].tier.Some? && (s.certs[a].verdict.Some? ==> Certification.Given(s.certs[a].model.digest))
  }

  /** Activated, with a planned tier and both references. */
  predicate Usable(g: Grant) {
    g.activatedAt.Some? && g.tier.Some? && g.operationRef.Some? && g.departmentRef.Some?
  }

  /** The condition: a newest live grant of the key that is usable, held by somebody qualified. */
  ghost predicate Authorized(s: Gov, ask: Ask, g: GrantId) {
    NewestLive(s, ask, g) && Usable(s.grants[g]) && Qualified(s, ask)
  }

  /** The lesser tier: the top one takes both, and either at the floor is the floor. */
  predicate Lesser(tier: Tier, planned: Tier, certified: Tier) {
    && (tier == AutoExecute <==> planned == AutoExecute && certified == AutoExecute)
    && (tier == Suggest <==> planned == Suggest || certified == Suggest)
  }

  /** What a call that is let through is given: its row's tier capped by its certification's, and what that rests on. */
  predicate Gives(s: Gov, ask: Ask, g: GrantId, r: Resolved) {
    var a, b := UnitA(ask.agent, ask.forge, ask.mod),
                UnitB(if ask.agent in s.agents then s.agents[ask.agent].department else "", ask.forge);
    && r.grant == g && g in s.grants && s.grants[g].tier.Some? && a in s.certs && b in s.certs
    && s.certs[a].tier == Some(r.certifiedTier) && Lesser(r.tier, s.grants[g].tier.value, r.certifiedTier)
    && (r.simulationOnly <==> s.certs[b].basis == Simulation)
    && (Checks(b, s.certs[b]) ==> (r.simulationOnly <==> s.certs[b].simulationRef.Some?))
  }

  /** The whole ladder, whatever it reports first, is this one condition; the tier granted is the lesser of the two. */
  lemma LadderIsOneCondition(s: Gov, ask: Ask, g: GrantId)
    requires Top(s, ask, g)
    ensures Decide(s, ask, g).Ok? <==> Authorized(s, ask, g)
    ensures Decide(s, ask, g).Ok? ==> Gives(s, ask, g, Decide(s, ask, g).value)
  {
    if Authorized(s, ask, g) {
      assert SortsFirst(s.grants[g], s.grants[g]);
    }
    if Decide(s, ask, g).Ok? {
      forall h | h in s.grants && s.grants[h].Live() && s.grants[h].Is(ask.agent, ask.forge, ask.mod, ask.venture)
        ensures s.grants[g].grantedAt >= s.grants[h].grantedAt
      {
        assert Candidate(s, ask, h);
      }
    }
  }

  /** What would refuse a row, most basic first. */
  datatype Fault =
    | Excluded | Inactive | Unreferenced | Uncertified | Void | Nameless | Past | Inert | Keyless | Tierless

  /** The fault is there, in the columns. */
  predicate HasFault(s: Gov, ask: Ask, g: Grant, fault: Fault)
    requires ask.agent in s.agents
  {
    var a, b := UnitA(ask.agent, ask.forge, ask.mod), UnitB(s.agents[ask.agent].department, ask.forge);
    match fault
    case Excluded => (ask.forge, ask.mod) in s.registry.exclusions
    case Inactive => !s.agents[ask.agent].active
    case Unreferenced => g.operationRef.None? || g.departmentRef.None?
    case Uncertified =>
      !(a in s.certs && s.certs[a].state == Certified && b in s.certs && s.certs[b].state == Certified)
    case Void => b in s.certs && s.certs[b].simulationRef.Some? && s.certs[b].simulationRef.value in s.sims
                 && s.sims[s.certs[b].simulationRef.value].left.Some?
    case Nameless => a in s.certs && s.certs[a].verdict.Some?
                     && (s.certs[a].model.digest.None? || s.certs[a].model.digest.value == "")
    case Past => g.supersededAt.Some?
    case Inert => g.activatedAt.None?
    case Keyless => ask.forge !in s.registry.credentials
    case Tierless => g.tier.None?
  }

  /** The denial names the fault; an uncertified one the state of each unit, never certified where there is no row. */
  predicate Names(s: Gov, ask: Ask, denial: Denial, fault: Fault)
    requires ask.agent in s.agents
  {
    var a, b := UnitA(ask.agent, ask.forge, ask.mod), UnitB(s.agents[ask.agent].department, ask.forge);
    match fault
    case Excluded => denial == ModuleExcluded
    case Inactive => denial == IdentityInactive
    case Unreferenced => denial == MissingReference
    case Uncertified =>
      denial == NotCertified(if a in s.certs then s.certs[a].state else NeverCertified,
                             if b in s.certs then s.certs[b].state else NeverCertified)
    case Void => denial == CertificationVoid
    case Nameless => denial == NamesNoModel
    case Past => denial == GrantSuperseded
    case Inert => denial == GrantNotActivated
    case Keyless => denial == NoCredential
    case Tierless => denial == NoTierPlanned
  }

  const FAULTS: seq<Fault> :=
    [Excluded, Inactive, Unreferenced, Uncertified, Void, Nameless, Past, Inert, Keyless, Tierless]

  /** A refusal names the most basic fault there is. */
  lemma RefusalsNameTheFirstFault(s: Gov, ask: Ask, g: GrantId, i: nat)
    requires Candidate(s, ask, g) && i < |FAULTS|
    requires HasFault(s, ask, s.grants[g], FAULTS[i])
    requires forall j :: 0 <= j < i ==> !HasFault(s, ask, s.grants[g], FAULTS[j])
    ensures Decide(s, ask, g).Err? && Names(s, ask, Decide(s, ask, g).error, FAULTS[i])
  {
    assert i > 0 ==> !HasFault(s, ask, s.grants[g], FAULTS[0]);
    assert i > 1 ==> !HasFault(s, ask, s.grants[g], FAULTS[1]);
    assert i > 2 ==> !HasFault(s, ask, s.grants[g], FAULTS[2]);
    assert i > 3 ==> !HasFault(s, ask, s.grants[g], FAULTS[3]);
    assert i > 4 ==> !HasFault(s, ask, s.grants[g], FAULTS[4]);
    assert i > 5 ==> !HasFault(s, ask, s.grants[g], FAULTS[5]);
    assert i > 6 ==> !HasFault(s, ask, s.grants[g], FAULTS[6]);
    assert i > 7 ==> !HasFault(s, ask, s.grants[g], FAULTS[7]);
    assert i > 8 ==> !HasFault(s, ask, s.grants[g], FAULTS[8]);
  }

  /** A key with no row is refused as excluded, unregistered or not granted, in that order. */
  lemma NoRowSaysWhy(s: Gov, ask: Ask)
    ensures (ask.forge, ask.mod) in s.registry.exclusions ==> NoRow(s, ask) == ModuleExcluded
    ensures (ask.forge, ask.mod) !in s.registry.exclusions && (ask.forge, ask.mod) !in s.registry.modules ==>
              NoRow(s, ask) == UnknownForge
    ensures (ask.forge, ask.mod) !in s.registry.exclusions && (ask.forge, ask.mod) in s.registry.modules ==>
              NoRow(s, ask) == NotGranted
  {
  }

  /** A call is told its grant was superseded only when every grant of the key has been, whatever their dates. */
  lemma SupersededMeansNoneLive(s: Gov, ask: Ask, g: GrantId)
    requires Top(s, ask, g) && Decide(s, ask, g) == Err(GrantSuperseded)
    ensures !HoldsLive(s.grants, ask.agent, ask.forge, ask.mod, ask.venture)
  {
    forall h | h in s.grants && s.grants[h].Is(ask.agent, ask.forge, ask.mod, ask.venture) ensures !s.grants[h].Live() {
      assert Candidate(s, ask, h);
      assert SortsFirst(s.grants[g], s.grants[h]);
    }
  }

  /** Where the key has a live grant, the rows the query may return are its newest live ones. */
  lemma TopIsNewestLive(s: Gov, ask: Ask, g: GrantId, live: GrantId)
    requires Candidate(s, ask, live) && s.grants[live].Live()
    ensures Top(s, ask, g) <==> NewestLive(s, ask, g)
  {
    if Top(s, ask, g) {
      assert SortsFirst(s.grants[g], s.grants[live]);
      forall h | h in s.grants && s.grants[h].Live() && s.grants[h].Is(ask.agent, ask.forge, ask.mod, ask.venture)
        ensures s.grants[g].grantedAt >= s.grants[h].grantedAt
      {
        assert Candidate(s, ask, h);
      }
    }
  }

  /** Some newest live grant of the key is authorized. */
  ghost predicate Resolves(s: Gov, ask: Ask) { exists g :: Authorized(s, ask, g) }

  /** The query and its ladder let a call through just when some newest live grant of its key is authorized. */
  lemma ResolvesIff(s: Gov, ask: Ask)
    ensures Resolves(s, ask) <==> exists g :: Top(s, ask, g) && Decide(s, ask, g).Ok?
  {
    if g :| Authorized(s, ask, g) {
      assert Candidate(s, ask, g);
      TopIsNewestLive(s, ask, g, g);
      LadderIsOneCondition(s, ask, g);
    }
    if g :| Top(s, ask, g) && Decide(s, ask, g).Ok? {
      LadderIsOneCondition(s, ask, g);
    }
  }

  /** Only two live grants issued at one instant leave it to the database which of the two answers. */
  lemma RefusedOnlyByTies(s: Gov, ask: Ask, g: GrantId)
    requires Top(s, ask, g) && !Authorized(s, ask, g) && Resolves(s, ask)
    ensures exists h :: h != g && NewestLive(s, ask, g) && NewestLive(s, ask, h)
  {
    var h :| Authorized(s, ask, h);
    assert Candidate(s, ask, h);
    TopIsNewestLive(s, ask, g, h);
  }

  // ------------------------------------------------ issuing, activating, retiring

  function IdOf(certs: map<CertKey, Cert>, key: CertKey): Option<CertId> {
    if key in certs then Some(certs[key].id) else None
  }

  /** What every writer of a grant must have: an identity, and a registered module that is not excluded. */
  function IssueRefusal(s: Gov, agent: AgentId, forge: ForgeId, mod: ModuleId): Option<Refusal> {
    if agent !in s.agents then Some(NoSuchAgent)
    else if (forge, mod) !in s.registry.modules then Some(NotRegistered)
    else if (forge, mod) in s.registry.exclusions then Some(ModuleIsExcluded)
    else None
  }

  /** The ladder's upsert: both references resolved now, history left alone, and a retired row left retired. */
  function LadderIssued(s: Gov, agent: AgentId, forge: ForgeId, mod: ModuleId, venture: VentureId, tier: Option<Tier>,
                        now: Time): Result<Gov, Refusal> {
    if IssueRefusal(s, agent, forge, mod).Some? then Err(IssueRefusal(s, agent, forge, mod).value)
    else
      var id := LadderGrant(venture, agent, forge, mod);
      var a := IdOf(s.certs, UnitA(agent, forge, mod));
      var b := IdOf(s.certs, UnitB(s.agents[agent].department, forge));
      var g := if id in s.grants
               then s.grants[id].(tier := tier, operationRef := a, departmentRef := b, origin := Ladder)
               else Grant(agent, forge, mod, venture, tier, a, b, now, None, None, Ladder);
      Ok(s.(grants := s.grants[id := g]))
  }

  predicate ReplacedBy(grants: map<GrantId, Grant>, g: GrantId, l: GrantId) {
    && g in grants && l in grants && l != g && grants[g].origin == Phase0 && grants[g].Live()
    && grants[l].origin == Ladder && grants[l].Live()
    && grants[l].Is(grants[g].agent, grants[g].forge, grants[g].mod, grants[g].venture)
  }

  predicate Replaced(grants: map<GrantId, Grant>, g: GrantId, venture: VentureId) {
    g in grants && grants[g].venture == venture && exists l :: l in grants && ReplacedBy(grants, g, l)
  }

  /** The Phase 0 grants of a venture that a live ladder grant replaces are retired, and no other. */
  function ReplacedRetired(grants: map<GrantId, Grant>, venture: VentureId, now: Time): map<GrantId, Grant> {
    map g | g in grants ::
      if Replaced(grants, g, venture) then grants[g].(supersededAt := Some(now)) else grants[g]
  }

  predicate HoldsLive(grants: map<GrantId, Grant>, agent: AgentId, forge: ForgeId, mod: ModuleId, venture: VentureId) {
    exists g :: g in grants && grants[g].Live() && grants[g].Is(agent, forge, mod, venture)
  }

  /** Any row of the agent's for the module, in any venture, retired ones included. */
  predicate EverGranted(grants: map<GrantId, Grant>, agent: AgentId, forge: ForgeId, mod: ModuleId) {
    exists g :: g in grants && grants[g].agent == agent && grants[g].forge == forge && grants[g].mod == mod
  }

  /**
   * Phase 0's grant: active from the start, naming the two certifications just recorded, and refused
   * over any earlier row unless a live revocation covers the call (`revoked`).
   */
  function BootstrapIssued(s: Gov, agent: AgentId, forge: ForgeId, mod: ModuleId, venture: VentureId, tier: Tier,
                           revoked: bool, now: Time): Result<Gov, Refusal> {
    if IssueRefusal(s, agent, forge, mod).Some? then Err(IssueRefusal(s, agent, forge, mod).value)
    else if EverGranted(s.grants, agent, forge, mod) && !revoked then Err(AlreadyGranted)
    else
      var a := IdOf(s.certs, UnitA(agent, forge, mod));
      var b := IdOf(s.certs, UnitB(s.agents[agent].department, forge));
      if a.None? || b.None? then Err(NoCertification)
      else
        Ok(s.(grants := s.grants[OtherGrant(s.nextId) := Grant(agent, forge, mod, venture, Some(tier), a, b, now,
                                                               Some(now), None, Phase0)],
              nextId := s.nextId + 1))
  }

  /** A row of `certification` with this id, of this unit, certified and live. */
  predicate StandsAs(s: Gov, id: CertId, key: CertKey) {
    key in s.certs && s.certs[key].id == id && Standing(s, key)
  }

  /** Gate 11's predicate: both certifications are read through the grant's own references. */
  predicate Activates(s: Gov, g: Grant, venture: VentureId) {
    && g.agent in s.agents && s.agents[g.agent].active && g.venture == venture
    && g.activatedAt.None? && g.Live() && g.tier.Some? && g.operationRef.Some? && g.departmentRef.Some?
    && !(exists key :: key in s.certs && s.certs[key].id == g.operationRef.value
                       && s.certs[key].verdict.Some? && s.certs[key].model.digest.None?)
    && (exists key :: key in s.certs && key.UnitA? && StandsAs(s, g.operationRef.value, key))
    && (exists key :: key in s.certs && key.UnitB? && StandsAs(s, g.departmentRef.value, key))
  }

  /** Gate 11, with `covered` the grants under a live revocation. */
  function Activated(s: Gov, venture: VentureId, covered: set<GrantId>, now: Time): Gov {
    s.(grants := map g | g in s.grants ::
         if Activates(s, s.grants[g], venture) && g !in covered then s.grants[g].(activatedAt := Some(now))
         else s.grants[g])
  }

  /** Named grants only, all of them or none. */
  function RetireRefusal(s: Gov, ids: set<GrantId>, me: Humans.Human, reason: string): Option<Refusal> {
    if Blank(reason) then Some(EmptyReason)
    else if ids == {} then Some(NoGrantsNamed)
    else if exists g :: g in ids && g !in s.grants then Some(NoSuchGrant)
    else if exists g :: g in ids && !s.grants[g].Live() then Some(AlreadyRetired)
    else if exists g :: g in ids && Humans.Authorize(me, Humans.VentureOperator, Some(s.grants[g].venture)).Err?
    then Some(NotAuthorized)
    else if me.origin != Humans.Person then Some(NotAPerson)
    else None
  }

  function WithRetired(grants: map<GrantId, Grant>, ids: set<GrantId>, now: Time): map<GrantId, Grant> {
    map g | g in grants :: if g in ids then grants[g].(supersededAt := Some(now)) else grants[g]
  }

  function Retired(s: Gov, ids: set<GrantId>, me: Humans.Human, reason: string, now: Time): Result<Gov, Refusal> {
    if RetireRefusal(s, ids, me, reason).Some? then Err(RetireRefusal(s, ids, me, reason).value)
    else Ok(s.(grants := WithRetired(s.grants, ids, now)))
  }

  function WithDeactivated(grants: map<GrantId, Grant>, venture: VentureId): map<GrantId, Grant> {
    map g | g in grants :: if grants[g].venture == venture then grants[g].(activatedAt := None) else grants[g]
  }

  predicate HasActive(grants: map<GrantId, Grant>, venture: VentureId) {
    exists g :: g in grants && grants[g].venture == venture && grants[g].activatedAt.Some?
  }

  /** Back to awaiting Gate 11; nothing is revoked and no reference moves. */
  function Deactivated(s: Gov, venture: VentureId, me: Humans.Human, reason: string): Result<Gov, Refusal> {
    if Blank(reason) then Err(EmptyReason)
    else if Humans.Authorize(me, Humans.VentureOperator, Some(venture)).Err? then Err(NotAuthorized)
    else if !HasActive(s.grants, venture) then Err(NothingActive)
    else Ok(s.(grants := WithDeactivated(s.grants, venture)))
  }

  // ------------------------------------------------ what the writers do, in the stored columns

  /** The one grant changed is `id`. */
  ghost predicate OnlyGrantChanged(s: Gov, after: Gov, id: GrantId) {
    && after == s.(grants := after.grants, nextId := after.nextId) && after.grants.Keys == s.grants.Keys + {id}
    && forall g :: g in s.grants && g != id ==> after.grants[g] == s.grants[g]
  }

  /** The references a grant is written with: the ids in force for its agent's module and department. */
  predicate NamesInForce(s: Gov, g: Grant) {
    var a, b := UnitA(g.agent, g.forge, g.mod),
                UnitB(if g.agent in s.agents then s.agents[g.agent].department else "", g.forge);
    && g.operationRef == (if a in s.certs then Some(s.certs[a].id) else None)
    && g.departmentRef == (if b in s.certs then Some(s.certs[b].id) else None)
  }

  /** A grant may be written for a known agent on a registered module that is not excluded. */
  predicate MayIssue(s: Gov, agent: AgentId, forge: ForgeId, mod: ModuleId) {
    agent in s.agents && (forge, mod) in s.registry.modules && (forge, mod) !in s.registry.exclusions
  }

  /** The ladder writes the one grant of a key, tier and references fresh: inactive if new, its history kept if not. */
  lemma LadderTakesEffect(s: Gov, agent: AgentId, forge: ForgeId, mod: ModuleId, venture: VentureId, tier: Option<Tier>,
                          now: Time)
    ensures LadderIssued(s, agent, forge, mod, venture, tier, now).Ok? <==> MayIssue(s, agent, forge, mod)
    ensures MayIssue(s, agent, forge, mod) ==>
              var after := LadderIssued(s, agent, forge, mod, venture, tier, now).value;
              var id := LadderGrant(venture, agent, forge, mod);
              && OnlyGrantChanged(s, after, id) && after.nextId == s.nextId
              && after.grants[id].tier == tier && after.grants[id].origin == Ladder
              && (id !in s.grants ==>
                    && after.grants[id].Is(agent, forge, mod, venture) && after.grants[id].grantedAt == now
                    && after.grants[id].activatedAt.None? && after.grants[id].supersededAt.None?
                    && NamesInForce(s, after.grants[id]))
              && (id in s.grants && s.grants[id].Is(agent, forge, mod, venture) ==>
                    && NamesInForce(s, after.grants[id]) && after.grants[id].Is(agent, forge, mod, venture)
                    && after.grants[id].grantedAt == s.grants[id].grantedAt
                    && after.grants[id].activatedAt == s.grants[id].activatedAt
                    && after.grants[id].supersededAt == s.grants[id].supersededAt)
  {
  }

  /** Phase 0 writes one new active grant on two recorded certifications, over no earlier one but a revoked one. */
  lemma BootstrapTakesEffect(s: Gov, agent: AgentId, forge: ForgeId, mod: ModuleId, venture: VentureId, tier: Tier,
                             revoked: bool, now: Time)
    requires OtherGrant(s.nextId) !in s.grants
    ensures BootstrapIssued(s, agent, forge, mod, venture, tier, revoked, now).Ok? <==>
            && MayIssue(s, agent, forge, mod)
            && (revoked || forall g :: g in s.grants && s.grants[g].agent == agent && s.grants[g].forge == forge ==>
                             s.grants[g].mod != mod)
            && UnitA(agent, forge, mod) in s.certs && UnitB(s.agents[agent].department, forge) in s.certs
    ensures var r := BootstrapIssued(s, agent, forge, mod, venture, tier, revoked, now);
            r.Ok? ==>
              var id := OtherGrant(s.nextId);
              && OnlyGrantChanged(s, r.value, id) && r.value.nextId > s.nextId
              && NamesInForce(s, r.value.grants[id])
              && r.value.grants[id] == Grant(agent, forge, mod, venture, Some(tier), r.value.grants[id].operationRef,
                                             r.value.grants[id].departmentRef, now, Some(now), None, Phase0)
  {
  }

  /** A Phase 0 grant of the venture is retired exactly where a live ladder grant of the same key stands beside it. */
  lemma ReplacingTakesEffect(grants: map<GrantId, Grant>, venture: VentureId, now: Time)
    ensures ReplacedRetired(grants, venture, now).Keys == grants.Keys
    ensures forall g :: g in grants ==>
              ReplacedRetired(grants, venture, now)[g]
              == if grants[g].origin == Phase0 && grants[g].supersededAt.None? && grants[g].venture == venture
                    && (exists l :: l in grants && l != g && grants[l].origin == Ladder && grants[l].supersededAt.None?
                                    && grants[l].agent == grants[g].agent && grants[l].forge == grants[g].forge
                                    && grants[l].mod == grants[g].mod && grants[l].venture == venture)
                 then grants[g].(supersededAt := Some(now)) else grants[g]
  {
    forall g | g in grants
      ensures Replaced(grants, g, venture) <==>
              && grants[g].origin == Phase0 && grants[g].supersededAt.None? && grants[g].venture == venture
              && (exists l :: l in grants && l != g && grants[l].origin == Ladder && grants[l].supersededAt.None?
                              && grants[l].agent == grants[g].agent && grants[l].forge == grants[g].forge
                              && grants[l].mod == grants[g].mod && grants[l].venture == venture)
    {
      if l :| l in grants && l != g && grants[l].origin == Ladder && grants[l].supersededAt.None?
              && grants[l].agent == grants[g].agent && grants[l].forge == grants[g].forge
              && grants[l].mod == grants[g].mod && grants[l].venture == venture
              && grants[g].origin == Phase0 && grants[g].supersededAt.None? && grants[g].venture == venture {
        assert ReplacedBy(grants, g, l);
      }
    }
  }

  /**
   * Retirement takes a reason, at least one grant, all of them there and live, a person, and a role in
   * the venture of each; then each of them, and nothing else, is retired as of now.
   */
  lemma RetiringTakesEffect(s: Gov, ids: set<GrantId>, me: Humans.Human, reason: string, now: Time)
    ensures Retired(s, ids, me, reason, now).Ok? <==>
            && !AllBlank(reason) && ids != {} && me.origin == Humans.Person
            && (forall g :: g in ids ==> g in s.grants && s.grants[g].supersededAt.None?)
            && (forall g :: g in ids && g in s.grants ==>
                  me.active && exists role :: me.Holds(role, Some(s.grants[g].venture)))
    ensures var r := Retired(s, ids, me, reason, now);
            r.Ok? ==>
              && r.value == s.(grants := r.value.grants) && r.value.grants.Keys == s.grants.Keys
              && forall g :: g in s.grants ==>
                   r.value.grants[g] == if g in ids then s.grants[g].(supersededAt := Some(now)) else s.grants[g]
  {
    BlankIffAllBlank(reason);
    forall g | g in ids && g in s.grants
      ensures Humans.Authorize(me, Humans.VentureOperator, Some(s.grants[g].venture)).Ok? <==>
              me.active && exists role :: me.Holds(role, Some(s.grants[g].venture))
    {
      Humans.AuthorizedIff(me, Some(s.grants[g].venture));
    }
  }

  /** A refusal to retire names something that is so. */
  lemma RetireRefusalIsTrue(s: Gov, ids: set<GrantId>, me: Humans.Human, reason: string)
    requires RetireRefusal(s, ids, me, reason).Some?
    ensures match RetireRefusal(s, ids, me, reason).value
            case EmptyReason => AllBlank(reason)
            case NoGrantsNamed => ids == {}
            case NoSuchGrant => exists g :: g in ids && g !in s.grants
            case AlreadyRetired => exists g :: g in ids && g in s.grants && s.grants[g].supersededAt.Some?
            case NotAuthorized =>
              exists g :: g in ids && g in s.grants
                          && !(me.active && exists role :: me.Holds(role, Some(s.grants[g].venture)))
            case NotAPerson => me.origin != Humans.Person
            case _ => false
  {
    BlankIffAllBlank(reason);
    forall g | g in ids && g in s.grants
      ensures Humans.Authorize(me, Humans.VentureOperator, Some(s.grants[g].venture)).Ok? <==>
              me.active && exists role :: me.Holds(role, Some(s.grants[g].venture))
    {
      Humans.AuthorizedIff(me, Some(s.grants[g].venture));
    }
  }

  /** Deactivation takes a reason, a role in the venture and something active; then nothing of the venture's is. */
  lemma DeactivatingTakesEffect(s: Gov, venture: VentureId, me: Humans.Human, reason: string)
    ensures Deactivated(s, venture, me, reason).Ok? <==>
            && !AllBlank(reason) && me.active && (exists role :: me.Holds(role, Some(venture)))
            && (exists g :: g in s.grants && s.grants[g].venture == venture && s.grants[g].activatedAt.Some?)
    ensures var r := Deactivated(s, venture, me, reason);
            r.Ok? ==>
              && r.value == s.(grants := r.value.grants) && r.value.grants.Keys == s.grants.Keys
              && forall g :: g in s.grants ==>
                   r.value.grants[g] == if s.grants[g].venture == venture then s.grants[g].(activatedAt := None)
                                        else s.grants[g]
  {
    BlankIffAllBlank(reason);
    Humans.AuthorizedIff(me, Some(venture));
  }
}
