/** The governance tables as the broker holds and updates them, one commit a method. */
module Broker {
  import opened Text
  import opened Wrappers
  import opened Instructions
  import opened Tables
  import opened Certification
  import opened Grants
  import Basis
  import Simulation
  import Humans

  datatype CertState = CertState(id: CertId, state: State, tier: Option<Tier>)

  function StateAt(certs: map<CertKey, Cert>, key: CertKey): CertState
    requires key in certs
  {
    CertState(certs[key].id, certs[key].state, certs[key].tier)
  }

  /** The rows a method changed. */
  ghost function Changed<K, V>(before: map<K, V>, after: map<K, V>): set<K> {
    set k | k in after && (k !in before || before[k] != after[k])
  }

  /** The rows a sweep marks stale. */
  ghost function Falling(s: Gov, forge: ForgeId, only: Option<ModuleId>): set<CertKey> {
    set key | key in s.certs && Falls(s, key, forge, only)
  }

  class GovernanceTables {
    var certs: map<CertKey, Cert>
    var grants: map<GrantId, Grant>
    var sims: map<SimulationId, Declaration>
    var instructions: map<ModuleKey, History>
    var agents: map<AgentId, Agent>
    var registry: Registry
    var nextId: nat
    const hex: Hash -> string

    constructor (registry: Registry, hex: Hash -> string)
      ensures State() == Gov(map[], map[], map[], map[], map[], registry, 0, hex)
    {
      certs, grants, sims, instructions, agents := map[], map[], map[], map[], map[];
      this.registry, nextId, this.hex := registry, 0, hex;
    }

    function State(): Gov
      reads this
    {
      Gov(certs, grants, sims, instructions, agents, registry, nextId, hex)
    }

    /** Points every live grant of the department on the Forge at `id`, and counts the references that moved. */
    method RepointDepartmentGrants(department: Department, forge: ForgeId, id: CertId) returns (moved: nat)
      modifies this`grants
      ensures grants == Repointed(agents, old(grants), department, forge, id)
      ensures moved == |Changed(old(grants), grants)|
    {
      var left := grants.Keys;
      moved := 0;
      ghost var done: set<GrantId> := {};
      while left != {}
        invariant left <= old(grants).Keys == grants.Keys
        invariant forall g :: g in left ==> grants[g] == old(grants)[g]
        invariant forall g :: g in grants && g !in left ==>
                    grants[g] == Repointed(agents, old(grants), department, forge, id)[g]
        invariant done == Changed(old(grants), grants) && moved == |done| && done !! left
        decreases left
      {
        var g :| g in left;
        if InContext(agents, grants[g], department, forge) && grants[g].departmentRef != Some(id) {
          grants := grants[g := grants[g].(departmentRef := Some(id))];
          moved := moved + 1;
          done := done + {g};
        }
        left := left - {g};
      }
    }

    /** A verdict becomes a certification; one that is not an answer leaves a standing row alone. */
    method RecordResult(key: CertKey, r: Report, now: Time) returns (result: Result<CertState, Refusal>)
      modifies this
      ensures var spec := Recorded(old(State()), key, r, now);
              if spec.Err? then result == Err(spec.error) && State() == old(State())
              else State() == spec.value && key in certs && result == Ok(StateAt(certs, key))
    {
      var refusal := RecordRefusal(r);
      if refusal.Some? {
        return Err(refusal.value);
      }
      if r.verdict in NOT_AN_ANSWER && key in certs {
        return Ok(StateAt(certs, key));
      }
      var row := Proposed(r, nextId, now);
      var refused := TableRefusal(State(), key, row);
      if refused.Some? {
        return Err(refused.value);
      }
      nextId := nextId + 1;
      if key in certs {
        row := row.(id := certs[key].id, issuedAt := certs[key].issuedAt);
      }
      certs := certs[key := row];
      if key.UnitB? && key.department != "" {
        var _ := RepointDepartmentGrants(key.department, key.forge, row.id);
      }
      return Ok(CertState(row.id, row.state, row.tier));
    }

    /** The venture's live declaration; the table admits at most one. */
    method CurrentDeclaration(venture: VentureId) returns (d: Option<SimulationId>)
      requires Simulation.OneLive(sims)
      ensures d == Simulation.Current(sims, venture)
    {
      var left := sims.Keys;
      while left != {}
        invariant left <= sims.Keys
        invariant forall e :: Simulation.IsCurrent(sims, e, venture) ==> e in left
        decreases left
      {
        var e :| e in left;
        if sims[e].venture == venture && sims[e].left.None? {
          assert Simulation.IsCurrent(sims, e, venture);
          return Some(e);
        }
        left := left - {e};
      }
      return None;
    }

    /** The department's basis, from each module's instruction in force; one module without one refuses it. */
    method ComposeBasis(forge: ForgeId, modules: set<ModuleId>) returns (r: Result<Hash, Refusal>)
      ensures r.Err? ==>
                r.error == NoInstruction && exists m :: m in modules && LiveInstruction(State(), forge, m).None?
      ensures r.Ok? ==> forall m :: m in modules ==> LiveInstruction(State(), forge, m).Some?
      ensures r.Ok? ==> r.value == DepartmentBasis(State(), forge, modules)
    {
      var digests: map<string, string> := map[];
      var left := modules;
      while left != {}
        invariant left <= modules && digests.Keys == modules - left
        invariant forall m :: m in digests ==>
                    && LiveInstruction(State(), forge, m).Some?
                    && digests[m] == hex(LiveInstruction(State(), forge, m).value.hash)
        decreases left
      {
        var m :| m in left;
        var current := LiveInstruction(State(), forge, m);
        if current.None? {
          return Err(NoInstruction);
        }
        digests := digests[m := hex(current.value.hash)];
        left := left - {m};
      }
      assert digests == MemberDigests(State(), forge, modules);
      return Ok(BasisHash(Basis.PREFIX + Basis.Material(digests)));
    }

    /** Who may certify what on which declaration, and the basis it would be bound to. */
    method PermitCertification(venture: VentureId, department: Department, forge: ForgeId, me: Humans.Human,
                               reason: string)
      returns (r: Result<(Hash, SimulationId), Refusal>)
      requires Simulation.OneLive(sims)
      ensures r.Err? ==> CertifyRefusal(State(), venture, department, forge, me, reason) == Some(r.error)
      ensures r.Ok? ==>
                && CertifyRefusal(State(), venture, department, forge, me, reason).None?
                && r.value.0 == DepartmentBasis(State(), forge, DepartmentModules(State(), venture, department, forge))
                && Some(r.value.1) == Simulation.Current(sims, venture)
    {
      if Strip(reason) == "" {
        return Err(EmptyReason);
      }
      if Humans.Authorize(me, Humans.Ivan, None).Err? {
        return Err(NotAuthorized);
      }
      if me.origin != Humans.Person {
        return Err(NotAPerson);
      }
      var declaration := CurrentDeclaration(venture);
      if declaration.None? {
        return Err(NotInSimulation);
      }
      var modules := DepartmentModules(State(), venture, department, forge);
      if modules == {} {
        return Err(NoModules);
      }
      var hash := ComposeBasis(forge, modules);
      if hash.Err? {
        return Err(hash.error);
      }
      if forge !in registry.forges {
        return Err(UnregisteredForge);
      }
      return Ok((hash.value, declaration.value));
    }

    /** Certifies a department on its venture's declaration, and repoints its grants in the same commit. */
    method CertifyForSimulation(venture: VentureId, department: Department, forge: ForgeId, me: Humans.Human,
                                reason: string, now: Time)
      returns (result: Result<(CertState, nat), Refusal>)
      requires Simulation.OneLive(sims)
      modifies this
      ensures var spec := CertifiedForSimulation(old(State()), venture, department, forge, me, reason, now);
              if spec.Err? then result == Err(spec.error) && State() == old(State())
              else
                State() == spec.value && UnitB(department, forge) in certs && result.Ok?
                && result.value.0 == StateAt(certs, UnitB(department, forge))
                && result.value.1 == |Changed(old(grants), grants)|
    {
      var permit := PermitCertification(venture, department, forge, me, reason);
      if permit.Err? {
        return Err(permit.error);
      }
      var row := SimulationRow(CertAt(certs, UnitB(department, forge)), nextId, permit.value.0, registry.forges[forge],
                               permit.value.1, reason, now);
      assert row == PermittedRow(State(), venture, department, forge, me, reason, now);
      result := WriteDepartment(department, forge, row);
    }

    /** The upsert and the references, in one commit, unless a constraint refuses the row. */
    method WriteDepartment(department: Department, forge: ForgeId, row: Cert)
      returns (result: Result<(CertState, nat), Refusal>)
      modifies this
      ensures var spec := DepartmentWritten(old(State()), department, forge, row);
              if spec.Err? then result == Err(spec.error) && State() == old(State())
              else
                && State() == spec.value && UnitB(department, forge) in certs && certs[UnitB(department, forge)] == row
                && result == Ok((StateAt(certs, UnitB(department, forge)), |Changed(old(grants), grants)|))
    {
      var key := UnitB(department, forge);
      if !Checks(key, row) {
        return Err(CheckRefused);
      }
      nextId := nextId + 1;
      certs := certs[key := row];
      var moved := RepointDepartmentGrants(department, forge, row.id);
      return Ok((CertState(row.id, row.state, row.tier), moved));
    }

    /** Reads every considered row first, so one version it cannot read refuses the sweep before it writes. */
    method FindStale(forge: ForgeId, only: Option<ModuleId>) returns (r: Result<map<CertKey, State>, Refusal>)
      ensures r.Err? <==> exists key :: Unreadable(State(), key, forge, only)
      ensures r.Err? ==> r.error == Unpinned
      ensures r.Ok? ==> forall key :: key in r.value <==> Falls(State(), key, forge, only)
      ensures r.Ok? ==> forall key :: key in r.value ==>
                Falls(State(), key, forge, only) && Restale(State(), key) == Ok(Some(r.value[key]))
    {
      var changed: map<CertKey, State> := map[];
      var left := set key | key in certs && Considered(State(), key, forge, only);
      while left != {}
        invariant forall key :: key in left ==> Considered(State(), key, forge, only)
        invariant forall key :: Considered(State(), key, forge, only) && key !in left ==> Restale(State(), key).Ok?
        invariant forall key :: key in changed <==> Falls(State(), key, forge, only) && key !in left
        invariant forall key :: key in changed ==>
                    Falls(State(), key, forge, only) && Restale(State(), key) == Ok(Some(changed[key]))
        decreases left
      {
        var key :| key in left;
        var c, live := certs[key], LiveFor(State(), key);
        if key.UnitA? && live.None? {
          changed := changed[key := StaleInstructions];
        } else if live.Some? && c.hash != Some(live.value.hash) {
          changed := changed[key := StaleInstructions];
        } else {
          var stale := Restale(State(), key);
          if stale.Err? {
            assert Unreadable(State(), key, forge, only);
            return Err(Unpinned);
          }
          if stale.value.Some? {
            changed := changed[key := StaleForge];
          }
        }
        left := left - {key};
      }
      return Ok(changed);
    }

    method SetStates(changed: map<CertKey, State>, now: Time)
      requires changed.Keys <= certs.Keys
      modifies this`certs
      ensures certs == map key | key in old(certs) ::
                if key in changed then old(certs)[key].(state := changed[key], updatedAt := now) else old(certs)[key]
    {
      var left := changed.Keys;
      while left != {}
        invariant left <= changed.Keys && certs.Keys == old(certs).Keys
        invariant forall key :: key in certs && (key in left || key !in changed) ==> certs[key] == old(certs)[key]
        invariant forall key :: key in changed && key !in left ==>
                    certs[key] == old(certs)[key].(state := changed[key], updatedAt := now)
        decreases left
      {
        var key :| key in left;
        certs := certs[key := certs[key].(state := changed[key], updatedAt := now)];
        left := left - {key};
      }
    }

    /** The ids of the rows, each once. */
    method IdsOf(keys: set<CertKey>) returns (ids: seq<CertId>)
      requires keys <= certs.Keys
      ensures |ids| == |keys|
      ensures forall id :: id in ids <==> exists key :: key in keys && certs[key].id == id
    {
      var left := keys;
      ids := [];
      while left != {}
        invariant left <= keys && |ids| + |left| == |keys|
        invariant forall id :: id in ids <==> exists key :: key in keys && key !in left && certs[key].id == id
        decreases left
      {
        var key :| key in left;
        ids := ids + [certs[key].id];
        left := left - {key};
      }
    }

    /** Marks stale what is stale and returns exactly the ids it changed, each once. */
    method RecomputeStaleness(forge: ForgeId, only: Option<ModuleId>, now: Time)
      returns (r: Result<seq<CertId>, Refusal>)
      modifies this`certs
      ensures var spec := Recomputed(old(State()), forge, only, now);
              if spec.Err? then r == Err(spec.error) && State() == old(State()) else State() == spec.value && r.Ok?
      ensures r.Ok? ==> forall id :: id in r.value <==>
                exists key :: Falls(old(State()), key, forge, only) && old(certs)[key].id == id
      ensures r.Ok? ==> |r.value| == |Falling(old(State()), forge, only)|
    {
      ghost var before := State();
      var found := FindStale(forge, only);
      if found.Err? {
        return Err(found.error);
      }
      assert State() == before;
      var ids := IdsOf(found.value.Keys);
      SetStates(found.value, now);
      assert certs == Swept(before, forge, only, now);
      assert found.value.Keys == Falling(before, forge, only);
      assert State() == before.(certs := Swept(before, forge, only, now));
      return Ok(ids);
    }

    method Declare(venture: VentureId, me: Humans.Human, reason: string, now: Time)
      returns (r: Result<SimulationId, Refusal>)
      requires Simulation.OneLive(sims)
      modifies this
      ensures var spec := Simulation.Declared(old(State()), venture, me, reason, now);
              if spec.Err? then r == Err(spec.error) && State() == old(State())
              else State() == spec.value && r.Ok? && Simulation.IsCurrent(sims, r.value, venture)
    {
      if Strip(reason) == "" {
        return Err(EmptyReason);
      }
      if me.origin != Humans.Person {
        return Err(NotAPerson);
      }
      var current := CurrentDeclaration(venture);
      if current.Some? {
        return Err(AlreadyInSimulation);
      }
      var id := nextId;
      sims := sims[id := Declaration(venture, me.id, now, Strip(reason), None)];
      nextId := nextId + 1;
      return Ok(id);
    }

    method Leave(venture: VentureId, me: Humans.Human, reason: string, now: Time)
      returns (r: Result<SimulationId, Refusal>)
      requires Simulation.OneLive(sims)
      modifies this
      ensures var spec := Simulation.Left(old(State()), venture, me, reason, now);
              if spec.Err? then r == Err(spec.error) && State() == old(State())
              else State() == spec.value && r.Ok? && Simulation.IsCurrent(old(sims), r.value, venture)
    {
      if Strip(reason) == "" {
        return Err(EmptyReason);
      }
      if me.origin != Humans.Person {
        return Err(NotAPerson);
      }
      var current := CurrentDeclaration(venture);
      if current.None? {
        return Err(NotInSimulation);
      }
      var d := current.value;
      sims := sims[d := sims[d].(left := Some(Leaving(now, me.id, Strip(reason))))];
      return Ok(d);
    }

    /** All the named grants, or none. */
    method Retire(ids: set<GrantId>, me: Humans.Human, reason: string, now: Time) returns (refusal: Option<Refusal>)
      modifies this`grants
      ensures var spec := Retired(old(State()), ids, me, reason, now);
              if spec.Err? then refusal == Some(spec.error) && State() == old(State())
              else refusal == None && State() == spec.value
    {
      refusal := RetireRefusal(State(), ids, me, reason);
      if refusal.Some? {
        return;
      }
      var left := ids;
      while left != {}
        invariant left <= ids <= grants.Keys == old(grants).Keys
        invariant forall g :: g in grants ==>
                    grants[g] == if g in ids && g !in left then old(grants)[g].(supersededAt := Some(now))
                                 else old(grants)[g]
        decreases left
      {
        var g :| g in left;
        grants := grants[g := grants[g].(supersededAt := Some(now))];
        left := left - {g};
      }
      assert grants == WithRetired(old(grants), ids, now);
    }

    /** Clears every activation of the venture's, and counts them. */
    method Deactivate(venture: VentureId, me: Humans.Human, reason: string) returns (r: Result<nat, Refusal>)
      modifies this`grants
      ensures var spec := Deactivated(old(State()), venture, me, reason);
              if spec.Err? then r == Err(spec.error) && State() == old(State())
              else State() == spec.value && r == Ok(|Changed(old(grants), grants)|)
    {
      if Strip(reason) == "" {
        return Err(EmptyReason);
      }
      if Humans.Authorize(me, Humans.VentureOperator, Some(venture)).Err? {
        return Err(NotAuthorized);
      }
      var targets := set g | g in grants && grants[g].venture == venture && grants[g].activatedAt.Some?;
      if targets == {} {
        assert forall g :: g in grants ==> g !in targets;
        return Err(NothingActive);
      }
      var before := grants;
      ghost var g :| g in targets;
      assert HasActive(before, venture);
      grants := map g | g in before :: if g in targets then before[g].(activatedAt := None) else before[g];
      assert grants == WithDeactivated(before, venture);
      assert targets == Changed(before, grants);
      return Ok(|targets|);
    }

    /** The row the resolving query returns, if any. */
    method SelectRow(ask: Ask) returns (row: Option<GrantId>)
      ensures row.Some? ==> Top(State(), ask, row.value)
      ensures row.None? ==> forall g :: !Candidate(State(), ask, g)
    {
      row := None;
      var left := set g | g in grants && Candidate(State(), ask, g);
      while left != {}
        invariant forall g :: g in left ==> Candidate(State(), ask, g)
        invariant row.None? ==> forall g :: Candidate(State(), ask, g) ==> g in left
        invariant row.Some? ==> Candidate(State(), ask, row.value)
        invariant row.Some? ==>
                    forall h :: Candidate(State(), ask, h) && h !in left ==> SortsFirst(grants[row.value], grants[h])
        decreases left
      {
        var g :| g in left;
        if row.None? || SortsFirst(grants[g], grants[row.value]) {
          row := Some(g);
        }
        left := left - {g};
      }
    }

    /** The decision made on every call: the row, then the ladder. */
    method ResolveGrant(ask: Ask) returns (r: Result<Resolved, Denial>)
      ensures r.Ok? ==> Authorized(State(), ask, r.value.grant) && Decide(State(), ask, r.value.grant) == r
      ensures r.Ok? ==> Gives(State(), ask, r.value.grant, r.value)
      ensures r.Err? && (forall g :: !Candidate(State(), ask, g)) ==> r.error == NoRow(State(), ask)
      ensures r.Err? && (exists g :: Candidate(State(), ask, g)) ==>
                exists g :: Top(State(), ask, g) && !Authorized(State(), ask, g) && Decide(State(), ask, g) == r
      ensures r.Ok? ==> Resolves(State(), ask)
      ensures r.Err? && Resolves(State(), ask) ==>
                exists g, h :: g != h && NewestLive(State(), ask, g) && NewestLive(State(), ask, h)
    {
      var row := SelectRow(ask);
      if row.None? {
        ResolvesIff(State(), ask);
        if (ask.forge, ask.mod) in registry.exclusions {
          return Err(ModuleExcluded);
        }
        if (ask.forge, ask.mod) !in registry.modules {
          return Err(UnknownForge);
        }
        return Err(NotGranted);
      }
      LadderIsOneCondition(State(), ask, row.value);
      if !Authorized(State(), ask, row.value) && Resolves(State(), ask) {
        RefusedOnlyByTies(State(), ask, row.value);
      }
      r := Ladder(ask, row.value);
    }

    method Ladder(ask: Ask, g: GrantId) returns (r: Result<Resolved, Denial>)
      requires Candidate(State(), ask, g)
      ensures r == Decide(State(), ask, g)
    {
      var grant := grants[g];
      var unitA := CertAt(certs, UnitA(ask.agent, ask.forge, ask.mod));
      var unitB := CertAt(certs, UnitB(agents[ask.agent].department, ask.forge));
      if (ask.forge, ask.mod) in registry.exclusions {
        return Err(ModuleExcluded);
      }
      if !agents[ask.agent].active {
        return Err(IdentityInactive);
      }
      if grant.operationRef.None? || grant.departmentRef.None? {
        return Err(MissingReference);
      }
      var a, b := StateOf(unitA), StateOf(unitB);
      if a != Certified || b != Certified {
        return Err(NotCertified(a, b));
      }
      if SimulationVoid(sims, unitB.value) {
        return Err(CertificationVoid);
      }
      if unitA.value.verdict.Some? && !Given(unitA.value.model.digest) {
        return Err(NamesNoModel);
      }
      if grant.supersededAt.Some? {
        return Err(GrantSuperseded);
      }
      if grant.activatedAt.None? {
        return Err(GrantNotActivated);
      }
      if ask.forge !in registry.credentials {
        return Err(NoCredential);
      }
      if grant.tier.None? {
        return Err(NoTierPlanned);
      }
      var tier := CapTier(grant.tier.value, unitA.value.tier);
      if tier.None? {
        return Err(UncertifiedTier);
      }
      return Ok(Resolved(g, tier.value, unitA.value.tier.value, unitB.value.basis == Simulation));
    }
  }
}
