/**
 * The references a grant carries: that they name the certification in force, when a move breaks
 * that, what retirement fixes for good, and that Gate 11, which reads through the references,
 * agrees with the resolver, which reads through the keys.
 */
module References {
  import opened Wrappers
  import opened Instructions
  import opened Tables
  import opened Certification
  import opened Grants
  import opened Governance
  import Humans

  function DepartmentKey(s: Gov, g: Grant): CertKey
    requires g.agent in s.agents
  {
    UnitB(s.agents[g.agent].department, g.forge)
  }

  /** The grant names its department's certification in force, or none while there is none. */
  predicate FollowsDepartment(s: Gov, g: Grant)
    requires g.agent in s.agents
  {
    var key := DepartmentKey(s, g);
    g.departmentRef == IdOf(s.certs, key) || (key.department == "" && g.departmentRef.None?)
  }

  /** Unit A references are not moved, so one may be missing; it never names another row. */
  predicate NamesOwnUnitA(s: Gov, g: Grant) {
    g.operationRef.Some? ==> g.operationRef == IdOf(s.certs, UnitA(g.agent, g.forge, g.mod))
  }

  predicate RefOk(s: Gov, id: GrantId)
    requires id in s.grants
  {
    var g := s.grants[id];
    && g.agent in s.agents && NamesOwnUnitA(s, g) && (g.Live() ==> FollowsDepartment(s, g))
    && (id.LadderGrant? ==> g.Is(id.agent, id.forge, id.mod, id.venture))
  }

  ghost predicate RefsFollow(s: Gov) {
    forall id :: id in s.grants ==> RefOk(s, id)
  }

  /** Putting a row at a key and pointing the department's grants at it keeps one grant's references true. */
  lemma PuttingKeepsRef(s: Gov, key: CertKey, row: Cert, after: Gov, id: GrantId)
    requires id in s.grants && RefOk(s, id) && (key in s.certs ==> row.id == s.certs[key].id)
    requires after.certs == s.certs[key := row] && after.agents == s.agents
    requires after.grants == if key.UnitB? then Repointed(s.agents, s.grants, key.department, key.forge, row.id)
                             else s.grants
    ensures id in after.grants && RefOk(after, id)
  {
  }

  /** With no department named nothing is pointed anywhere, and none of its grants need be. */
  lemma PuttingUnnamedKeepsRef(s: Gov, key: CertKey, row: Cert, after: Gov, id: GrantId)
    requires id in s.grants && RefOk(s, id) && (key in s.certs ==> row.id == s.certs[key].id)
    requires after.certs == s.certs[key := row] && after.agents == s.agents && after.grants == s.grants
    requires key.UnitB? && key.department == ""
    ensures RefOk(after, id)
  {
  }

  lemma RecordKeepsRefs(s: Gov, key: CertKey, r: Report, now: Time)
    requires RefsFollow(s)
    ensures RefsFollow(Next(s, RecordResult(key, r), now))
  {
    var after := Next(s, RecordResult(key, r), now);
    if after != s {
      forall id | id in after.grants ensures RefOk(after, id) {
        assert RefOk(s, id);
        if key.UnitB? && key.department == "" {
          PuttingUnnamedKeepsRef(s, key, after.certs[key], after, id);
        } else {
          PuttingKeepsRef(s, key, after.certs[key], after, id);
        }
      }
    }
  }

  lemma CertifyKeepsRefs(s: Gov, venture: VentureId, department: Department, forge: ForgeId, me: Humans.Human,
                         reason: string, now: Time)
    requires RefsFollow(s)
    ensures RefsFollow(Next(s, CertifyForSimulation(venture, department, forge, me, reason), now))
  {
    var after := Next(s, CertifyForSimulation(venture, department, forge, me, reason), now);
    var key := UnitB(department, forge);
    if CertifiedForSimulation(s, venture, department, forge, me, reason, now).Ok? {
      forall id | id in after.grants ensures RefOk(after, id) {
        assert RefOk(s, id);
        PuttingKeepsRef(s, key, after.certs[key], after, id);
      }
    }
  }

  /** Acts that leave every grant and every certification's id alone. */
  lemma QuietActsKeepRefs(s: Gov, act: Act, now: Time)
    requires RefsFollow(s)
    requires act.RecomputeStaleness? || act.Author? || act.Declare? || act.Leave? || act.Appoint? || act.SetIdentity?
             || act.Register?
    ensures RefsFollow(Next(s, act, now))
  {
    var after := Next(s, act, now);
    forall id | id in after.grants ensures RefOk(after, id) {
      assert RefOk(s, id);
    }
  }

  /** Acts on when a grant answers, not on what it names. */
  lemma LifeActsKeepRefs(s: Gov, act: Act, now: Time)
    requires RefsFollow(s) && (act.RetireReplaced? || act.Activate? || act.Retire? || act.Deactivate?)
    ensures RefsFollow(Next(s, act, now))
  {
    var after := Next(s, act, now);
    forall id | id in after.grants ensures RefOk(after, id) {
      assert RefOk(s, id);
    }
  }

  lemma IssueKeepsRefs(s: Gov, act: Act, now: Time)
    requires RefsFollow(s) && (act.IssueLadder? || act.IssueBootstrap?)
    ensures RefsFollow(Next(s, act, now))
  {
    var after := Next(s, act, now);
    forall id | id in after.grants ensures RefOk(after, id) {
      if id in s.grants {
        assert RefOk(s, id);
      }
    }
  }

  /** Nobody changes department. */
  predicate NobodyMoves(acts: Acts) {
    forall i :: 0 <= i < |acts| ==> !acts[i].0.MoveAgent?
  }

  /**
   * In every state reached without anybody changing department, every live grant references its
   * department's certification in force, and none while there is none.
   */
  lemma {:induction false} ReferencesFollow(s: Gov, acts: Acts)
    requires RefsFollow(s) && NobodyMoves(acts)
    ensures RefsFollow(Run(s, acts))
  {
    if acts != [] {
      var n := |acts| - 1;
      ReferencesFollow(s, acts[..n]);
      var before, act, now := Run(s, acts[..n]), acts[n].0, acts[n].1;
      match act
      case RecordResult(key, r) => RecordKeepsRefs(before, key, r, now);
      case CertifyForSimulation(venture, department, forge, me, reason) =>
        CertifyKeepsRefs(before, venture, department, forge, me, reason, now);
      case IssueLadder(_, _, _, _, _) => IssueKeepsRefs(before, act, now);
      case IssueBootstrap(_, _, _, _, _, _) => IssueKeepsRefs(before, act, now);
      case RetireReplaced(_) => LifeActsKeepRefs(before, act, now);
      case Activate(_, _) => LifeActsKeepRefs(before, act, now);
      case Retire(_, _, _) => LifeActsKeepRefs(before, act, now);
      case Deactivate(_, _, _) => LifeActsKeepRefs(before, act, now);
      case _ => QuietActsKeepRefs(before, act, now);
    }
  }

  /** The tables begin with every reference true, so without roster moves they stay so. */
  lemma {:induction false} ReachableReferencesFollow(registry: Registry, hex: Hash -> string, acts: Acts)
    requires NobodyMoves(acts)
    ensures RefsFollow(Run(Empty(registry, hex), acts))
  {
    ReferencesFollow(Empty(registry, hex), acts);
  }

  /** What a roster move must not meet: a live grant elsewhere that names, or would have to name, a certification. */
  predicate Untied(s: Gov, g: Grant, department: Department)
    requires g.agent in s.agents
  {
    || s.agents[g.agent].department == department
    || (g.departmentRef.None? && (department == "" || UnitB(department, g.forge) !in s.certs))
  }

  /** A move keeps the references true exactly when every live grant of the agent is untied. */
  lemma MoveKeepsRefsIff(s: Gov, agent: AgentId, department: Department, now: Time)
    requires Sound(s) && RefsFollow(s) && agent in s.agents
    ensures RefsFollow(Next(s, MoveAgent(agent, department), now)) <==>
            forall id :: id in s.grants && s.grants[id].agent == agent && s.grants[id].Live()
                         ==> Untied(s, s.grants[id], department)
  {
    var after := Next(s, MoveAgent(agent, department), now);
    forall id | id in s.grants
      ensures RefOk(after, id) <==>
              (s.grants[id].agent == agent && s.grants[id].Live() ==> Untied(s, s.grants[id], department))
    {
      assert RefOk(s, id);
      var g := s.grants[id];
      if g.agent == agent && g.Live() && g.departmentRef.Some? {
        var old', new' := DepartmentKey(s, g), DepartmentKey(after, g);
        assert g.departmentRef == IdOf(s.certs, old');
        assert new' != old' && new' in s.certs ==> s.certs[new'].id != s.certs[old'].id;
      }
    }
  }

  /** A department's certification, as Phase 0 records a failure. */
  function SampleCert(id: CertId): Cert {
    Proposed(Report(FAIL, "phase-0", None, None, None, None, None, None, None, None, Phase0Bootstrap, Some("no run"),
                    None, None), id, 0)
  }

  /** One agent of research, holding one grant of the ladder's, with research and sales both certified on the Forge. */
  function Sample(departmentRef: Option<CertId>, supersededAt: Option<Time>): Gov {
    Gov(map[UnitB("research", "crm") := SampleCert(7), UnitB("sales", "crm") := SampleCert(8)],
        map[LadderGrant("acme", 1, "crm", "lookup")
              := Grant(1, "crm", "lookup", "acme", Some(Suggest), None, departmentRef, 0, None, supersededAt, Ladder)],
        map[], map[], map[1 := Agent("research", true)],
        Registry(map["crm" := "1.0.0"], {("crm", "lookup")}, {}, {"crm"}), 9, _ => "")
  }

  lemma SampleIsSound(departmentRef: Option<CertId>, supersededAt: Option<Time>)
    ensures var s := Sample(departmentRef, supersededAt);
            Sound(s) && IdOf(s.certs, UnitB("research", "crm")) == Some(7)
    ensures "research" != "sales"
  {
    var s, research, sales := Sample(departmentRef, supersededAt), UnitB("research", "crm"), UnitB("sales", "crm");
    assert |"research"| != |"sales"|;
    assert s.certs.Keys == {research, sales} && s.certs[research].id == 7 && s.certs[sales].id == 8;
    assert SoundCerts(s) by {
      assert RowSound(s, research) && RowSound(s, sales);
    }
  }

  lemma SampleFollows()
    ensures RefsFollow(Sample(Some(7), None))
  {
    var s := Sample(Some(7), None);
    SampleIsSound(Some(7), None);
    forall id | id in s.grants ensures RefOk(s, id) {
      assert DepartmentKey(s, s.grants[id]) == UnitB("research", "crm");
    }
  }

  /** The roster moves people: one move and a live grant names the certification of a department its agent left. */
  lemma MovingBreaksReferences()
    ensures Sound(Sample(Some(7), None)) && RefsFollow(Sample(Some(7), None))
    ensures !RefsFollow(Next(Sample(Some(7), None), MoveAgent(1, "sales"), 1))
  {
    var s, id := Sample(Some(7), None), LadderGrant("acme", 1, "crm", "lookup");
    SampleIsSound(Some(7), None);
    SampleFollows();
    MoveKeepsRefsIff(s, 1, "sales", 1);
    assert id in s.grants && !Untied(s, s.grants[id], "sales");
  }

  /** The act writes the department's certification on the Forge: an accepted result, or a simulation certification. */
  ghost predicate WritesUnitB(s: Gov, act: Act, now: Time, department: Department, forge: ForgeId) {
    && Step(s, act, now).Ok?
    && ((act.RecordResult? && act.key == UnitB(department, forge) && Writes(s, act.key, act.report.verdict))
        || (act.CertifyForSimulation? && act.department == department && act.forge == forge))
  }

  /** The next certification written for the department puts its references right, however they came to be wrong. */
  lemma UnitBWritesHeal(s: Gov, act: Act, now: Time, department: Department, forge: ForgeId, id: GrantId)
    requires department != "" && WritesUnitB(s, act, now, department, forge)
    requires id in s.grants && InContext(s.agents, s.grants[id], department, forge)
    ensures var after := Next(s, act, now); id in after.grants && FollowsDepartment(after, after.grants[id])
  {
  }

  // ------------------------------------------------ retirement

  /** The ladder applies this very grant again. */
  predicate Reapplies(act: Act, id: GrantId) {
    act.IssueLadder? && id == LadderGrant(act.venture, act.agent, act.forge, act.mod)
  }

  predicate SameReferences(g: Grant, h: Grant) {
    g.departmentRef == h.departmentRef && g.operationRef == h.operationRef
  }

  /** What the ladder would resolve the grant's references to now. */
  predicate AlreadyResolved(s: Gov, g: Grant) {
    g.agent in s.agents && g.operationRef == IdOf(s.certs, UnitA(g.agent, g.forge, g.mod))
    && g.departmentRef == IdOf(s.certs, DepartmentKey(s, g))
  }

  /** A grant keeps its key, and a retired one its date and its references. */
  predicate Evolves(g: Grant, later: Grant) {
    && later.Is(g.agent, g.forge, g.mod, g.venture)
    && (!g.Live() ==> later.supersededAt == g.supersededAt && SameReferences(later, g))
  }

  lemma RecordingEvolves(s: Gov, key: CertKey, r: Report, now: Time, id: GrantId)
    requires id in s.grants
    ensures var after := Next(s, RecordResult(key, r), now);
            id in after.grants && Evolves(s.grants[id], after.grants[id])
  {
  }

  lemma DepartmentWrittenEvolves(s: Gov, department: Department, forge: ForgeId, row: Cert, id: GrantId)
    requires id in s.grants && DepartmentWritten(s, department, forge, row).Ok?
    ensures var after := DepartmentWritten(s, department, forge, row).value;
            id in after.grants && Evolves(s.grants[id], after.grants[id])
  {
  }

  lemma CertifyingEvolves(s: Gov, venture: VentureId, department: Department, forge: ForgeId, me: Humans.Human,
                          reason: string, now: Time, id: GrantId)
    requires id in s.grants
    ensures var after := Next(s, CertifyForSimulation(venture, department, forge, me, reason), now);
            id in after.grants && Evolves(s.grants[id], after.grants[id])
  {
    if CertifiedForSimulation(s, venture, department, forge, me, reason, now).Ok? {
      DepartmentWrittenEvolves(s, department, forge, PermittedRow(s, venture, department, forge, me, reason, now), id);
    }
  }

  lemma RetiringEvolves(s: Gov, ids: set<GrantId>, me: Humans.Human, reason: string, now: Time, id: GrantId)
    requires id in s.grants
    ensures var after := Next(s, Retire(ids, me, reason), now);
            id in after.grants && Evolves(s.grants[id], after.grants[id])
  {
    if RetireRefusal(s, ids, me, reason).None? {
      assert forall g :: g in ids ==> g in s.grants && s.grants[g].Live();
    }
  }

  lemma ReplacingEvolves(s: Gov, venture: VentureId, now: Time, id: GrantId)
    requires id in s.grants
    ensures var after := Next(s, RetireReplaced(venture), now);
            id in after.grants && Evolves(s.grants[id], after.grants[id])
  {
  }

  lemma ActivatingEvolves(s: Gov, venture: VentureId, covered: set<GrantId>, now: Time, id: GrantId)
    requires id in s.grants
    ensures var after := Next(s, Activate(venture, covered), now);
            id in after.grants && Evolves(s.grants[id], after.grants[id])
  {
  }

  lemma IssuesEvolve(s: Gov, act: Act, now: Time, id: GrantId)
    requires Sound(s) && id in s.grants && !Reapplies(act, id) && (act.IssueLadder? || act.IssueBootstrap?)
    ensures id in Next(s, act, now).grants && Next(s, act, now).grants[id] == s.grants[id]
  {
  }

  lemma OtherActsEvolve(s: Gov, act: Act, now: Time, id: GrantId)
    requires id in s.grants
    requires act.RecomputeStaleness? || act.Author? || act.Declare? || act.Leave? || act.Deactivate? || act.Appoint?
             || act.SetIdentity? || act.MoveAgent? || act.Register?
    ensures id in Next(s, act, now).grants && Evolves(s.grants[id], Next(s, act, now).grants[id])
  {
  }

  lemma StepEvolves(s: Gov, act: Act, now: Time, id: GrantId)
    requires Sound(s) && id in s.grants && !Reapplies(act, id)
    ensures id in Next(s, act, now).grants && Evolves(s.grants[id], Next(s, act, now).grants[id])
  {
    if act.RecordResult? {
      RecordingEvolves(s, act.key, act.report, now, id);
    } else if act.CertifyForSimulation? {
      CertifyingEvolves(s, act.venture, act.department, act.forge, act.me, act.reason, now, id);
    } else if act.Retire? {
      RetiringEvolves(s, act.ids, act.me, act.reason, now, id);
    } else if act.RetireReplaced? {
      ReplacingEvolves(s, act.venture, now, id);
    } else if act.Activate? {
      ActivatingEvolves(s, act.venture, act.covered, now, id);
    } else if act.IssueLadder? || act.IssueBootstrap? {
      IssuesEvolve(s, act, now, id);
    } else {
      OtherActsEvolve(s, act, now, id);
    }
  }

  lemma ReapplyingResolves(s: Gov, act: Act, now: Time, id: GrantId)
    requires Sound(s) && id in s.grants && Reapplies(act, id)
    ensures var after := Next(s, act, now);
            && id in after.grants && after.grants[id].supersededAt == s.grants[id].supersededAt
            && after.grants[id].Is(s.grants[id].agent, s.grants[id].forge, s.grants[id].mod, s.grants[id].venture)
            && (SameReferences(after.grants[id], s.grants[id]) <==>
                  IssueRefusal(s, act.agent, act.forge, act.mod).Some? || AlreadyResolved(s, s.grants[id]))
  {
  }

  /** One act leaves a retired grant's references alone unless the ladder re-applies it and finds them changed. */
  lemma StepKeepsRetired(s: Gov, act: Act, now: Time, id: GrantId)
    requires Sound(s) && id in s.grants && !s.grants[id].Live()
    ensures var after := Next(s, act, now);
            && id in after.grants && after.grants[id].supersededAt == s.grants[id].supersededAt
            && (SameReferences(after.grants[id], s.grants[id]) <==>
                  !Reapplies(act, id) || IssueRefusal(s, act.agent, act.forge, act.mod).Some?
                  || AlreadyResolved(s, s.grants[id]))
  {
    if Reapplies(act, id) {
      ReapplyingResolves(s, act, now, id);
    } else {
      StepEvolves(s, act, now, id);
    }
  }

  /** So history is rewritten: here the ladder gives a retired grant a reference it never had. */
  lemma ReapplyingRewritesHistory()
    ensures var s, id := Sample(None, Some(5)), LadderGrant("acme", 1, "crm", "lookup");
            && Sound(s) && id in s.grants && !s.grants[id].Live()
            && id in Next(s, IssueLadder(1, "crm", "lookup", "acme", None), 6).grants
            && !SameReferences(Next(s, IssueLadder(1, "crm", "lookup", "acme", None), 6).grants[id], s.grants[id])
  {
    var s, id := Sample(None, Some(5)), LadderGrant("acme", 1, "crm", "lookup");
    SampleIsSound(None, Some(5));
    StepKeepsRetired(s, IssueLadder(1, "crm", "lookup", "acme", None), 6, id);
    assert DepartmentKey(s, s.grants[id]) == UnitB("research", "crm");
  }

  /**
   * A retired grant is retired for good, at the date it stopped answering, and its references are
   * history: only the ladder re-applying that very grant rewrites them.
   */
  lemma {:induction false} RetirementStands(s: Gov, acts: Acts, id: GrantId)
    requires Sound(s) && id in s.grants && !s.grants[id].Live()
    ensures var end := Run(s, acts);
            && id in end.grants && end.grants[id].supersededAt == s.grants[id].supersededAt
            && ((forall i :: 0 <= i < |acts| ==> !Reapplies(acts[i].0, id)) ==>
                  SameReferences(end.grants[id], s.grants[id]))
  {
    if acts != [] {
      var n := |acts| - 1;
      RetirementStands(s, acts[..n], id);
      RowsStaySound(s, acts[..n]);
      StepKeepsRetired(Run(s, acts[..n]), acts[n].0, acts[n].1, id);
    }
  }

  predicate BootstrapsFor(act: Act, ask: Ask) {
    act.IssueBootstrap? && act.revoked && ask == Ask(act.agent, act.forge, act.mod, act.venture)
  }

  predicate HoldsLiveFor(s: Gov, ask: Ask) { HoldsLive(s.grants, ask.agent, ask.forge, ask.mod, ask.venture) }

  lemma StepGrantsNothing(s: Gov, act: Act, now: Time, ask: Ask)
    requires Sound(s) && !HoldsLiveFor(s, ask) && !BootstrapsFor(act, ask)
    requires LadderGrant(ask.venture, ask.agent, ask.forge, ask.mod) in s.grants
    ensures !HoldsLiveFor(Next(s, act, now), ask)
  {
    var after := Next(s, act, now);
    forall g | g in after.grants && after.grants[g].Is(ask.agent, ask.forge, ask.mod, ask.venture)
      ensures !after.grants[g].Live()
    {
      if g in s.grants {
        StepKeepsGrantKey(s, act, now, g);
        if !s.grants[g].Live() {
          StepKeepsRetired(s, act, now, g);
        }
      } else {
        NewGrants(s, act, now, g);
      }
    }
  }

  lemma StepKeepsGrantKey(s: Gov, act: Act, now: Time, g: GrantId)
    requires Sound(s) && g in s.grants
    ensures var after := Next(s, act, now);
            && g in after.grants
            && after.grants[g].Is(s.grants[g].agent, s.grants[g].forge, s.grants[g].mod, s.grants[g].venture)
  {
    if Reapplies(act, g) {
      ReapplyingResolves(s, act, now, g);
    } else {
      StepEvolves(s, act, now, g);
    }
  }

  lemma NewGrants(s: Gov, act: Act, now: Time, g: GrantId)
    requires g in Next(s, act, now).grants && g !in s.grants
    ensures Reapplies(act, g) || act.IssueBootstrap?
    ensures act.IssueBootstrap? ==> Next(s, act, now).grants[g].Is(act.agent, act.forge, act.mod, act.venture)
  {
  }

  /**
   * Retiring the ladder's grant of a key is final: the ladder's id for the key is taken by the
   * retired row, so however often it is re-applied nothing resolves for the key again unless
   * Phase 0 issues another.
   */
  lemma {:induction false} RetiringALadderGrantIsFinal(s: Gov, acts: Acts, ask: Ask)
    requires Sound(s) && !HoldsLiveFor(s, ask) && LadderGrant(ask.venture, ask.agent, ask.forge, ask.mod) in s.grants
    requires forall i :: 0 <= i < |acts| ==> !BootstrapsFor(acts[i].0, ask)
    ensures var end := Run(s, acts);
            && !HoldsLiveFor(end, ask) && LadderGrant(ask.venture, ask.agent, ask.forge, ask.mod) in end.grants
            && !Resolves(end, ask)
  {
    if acts != [] {
      var n := |acts| - 1;
      RetiringALadderGrantIsFinal(s, acts[..n], ask);
      RowsStaySound(s, acts[..n]);
      StepKeepsGrantKey(Run(s, acts[..n]), acts[n].0, acts[n].1,
                        LadderGrant(ask.venture, ask.agent, ask.forge, ask.mod));
      StepGrantsNothing(Run(s, acts[..n]), acts[n].0, acts[n].1, ask);
    }
  }

  // ------------------------------------------------ deactivation

  /** Gate 11 for the venture, or a Phase 0 grant in it: the two ways a grant becomes active. */
  predicate ActivatesIn(act: Act, venture: VentureId) {
    (act.Activate? || act.IssueBootstrap?) && act.venture == venture
  }

  lemma CertActsActivateNothing(s: Gov, act: Act, now: Time, venture: VentureId)
    requires !HasActive(s.grants, venture) && (act.RecordResult? || act.CertifyForSimulation?)
    ensures !HasActive(Next(s, act, now).grants, venture)
  {
    var after := Next(s, act, now);
    if g :| g in after.grants && after.grants[g].venture == venture && after.grants[g].activatedAt.Some? {
      assert g in s.grants && s.grants[g].venture == venture && s.grants[g].activatedAt.Some?;
    }
  }

  lemma GrantActsActivateNothing(s: Gov, act: Act, now: Time, venture: VentureId)
    requires !HasActive(s.grants, venture) && !ActivatesIn(act, venture)
    requires act.Activate? || act.IssueBootstrap? || act.IssueLadder? || act.Deactivate? || act.Retire?
             || act.RetireReplaced?
    ensures !HasActive(Next(s, act, now).grants, venture)
  {
    var after := Next(s, act, now);
    if g :| g in after.grants && after.grants[g].venture == venture && after.grants[g].activatedAt.Some? {
      assert g in s.grants && s.grants[g].venture == venture && s.grants[g].activatedAt.Some?;
    }
  }

  lemma OtherActsKeepGrants(s: Gov, act: Act, now: Time)
    requires act.RecomputeStaleness? || act.Author? || act.Declare? || act.Leave? || act.Appoint? || act.SetIdentity?
             || act.MoveAgent? || act.Register?
    ensures Next(s, act, now).grants == s.grants
  {
  }

  /**
   * A deactivated venture stays deactivated: nothing of its own resolves, whatever is certified,
   * issued, re-applied, declared or registered meanwhile, until Gate 11 runs for it or Phase 0
   * issues a grant in it.
   */
  lemma {:induction false} DeactivatedUntilGateEleven(s: Gov, acts: Acts, ask: Ask)
    requires !HasActive(s.grants, ask.venture)
    requires forall i :: 0 <= i < |acts| ==> !ActivatesIn(acts[i].0, ask.venture)
    ensures !HasActive(Run(s, acts).grants, ask.venture) && !Resolves(Run(s, acts), ask)
  {
    if acts != [] {
      var n := |acts| - 1;
      var before, act, now := Run(s, acts[..n]), acts[n].0, acts[n].1;
      DeactivatedUntilGateEleven(s, acts[..n], ask);
      if act.RecordResult? || act.CertifyForSimulation? {
        CertActsActivateNothing(before, act, now, ask.venture);
      } else if act.Activate? || act.IssueBootstrap? || act.IssueLadder? || act.Deactivate? || act.Retire?
                || act.RetireReplaced? {
        GrantActsActivateNothing(before, act, now, ask.venture);
      } else {
        OtherActsKeepGrants(before, act, now);
      }
    }
  }

  // ------------------------------------------------ Gate 11 and the resolver

  /** The module may be called at all: registered, not excluded, on a Forge with a credential. */
  predicate Callable(s: Gov, ask: Ask) {
    && (ask.forge, ask.mod) in s.registry.modules && (ask.forge, ask.mod) !in s.registry.exclusions
    && ask.forge in s.registry.forges && ask.forge in s.registry.credentials
  }

  /** The row with this id, as a reference finds it: certified, on no declaration that has been left. */
  predicate Carries(s: Gov, key: CertKey, id: Option<CertId>) {
    && key in s.certs && id == Some(s.certs[key].id) && s.certs[key].state == Certified
    && forall d :: d in s.sims && s.certs[key].simulationRef == Some(d) ==> s.sims[d].left.None?
  }

  /** A live grant not yet active, planned, an active agent's, whose references name one certified row of each unit. */
  ghost predicate Awaits(s: Gov, g: Grant) {
    && g.activatedAt.None? && g.supersededAt.None? && g.tier.Some?
    && g.agent in s.agents && s.agents[g.agent].active
    && exists a, b :: Carries(s, a, g.operationRef) && Carries(s, b, g.departmentRef) && a.UnitA? && b.UnitB?
                      && (s.certs[a].verdict.Some? ==> s.certs[a].model.digest.Some?)
  }

  /** Gate 11 dates the venture's grants that await it and no revocation covers, each once, and touches nothing else. */
  lemma GateElevenTakesEffect(s: Gov, venture: VentureId, covered: set<GrantId>, now: Time)
    requires UniqueIds(s.certs)
    ensures var after := Activated(s, venture, covered, now);
            && after == s.(grants := after.grants) && after.grants.Keys == s.grants.Keys
            && forall g :: g in s.grants ==>
                 after.grants[g] == if s.grants[g].venture == venture && g !in covered && Awaits(s, s.grants[g])
                                    then s.grants[g].(activatedAt := Some(now)) else s.grants[g]
  {
    forall g | g in s.grants
      ensures Activates(s, s.grants[g], venture) <==> s.grants[g].venture == venture && Awaits(s, s.grants[g])
    {
      GateElevenIff(s, s.grants[g], venture);
    }
  }

  lemma GateElevenIff(s: Gov, g: Grant, venture: VentureId)
    requires UniqueIds(s.certs)
    ensures Activates(s, g, venture) <==> g.venture == venture && Awaits(s, g)
  {
    if Activates(s, g, venture) {
      var a :| a in s.certs && a.UnitA? && StandsAs(s, g.operationRef.value, a);
      var b :| b in s.certs && b.UnitB? && StandsAs(s, g.departmentRef.value, b);
      assert Carries(s, a, g.operationRef) && Carries(s, b, g.departmentRef);
    }
    if Awaits(s, g) {
      var a, b :| Carries(s, a, g.operationRef) && Carries(s, b, g.departmentRef) && a.UnitA? && b.UnitB?
                  && (s.certs[a].verdict.Some? ==> s.certs[a].model.digest.Some?);
      assert StandsAs(s, g.operationRef.value, a) && StandsAs(s, g.departmentRef.value, b);
      assert forall key :: key in s.certs && s.certs[key].id == g.operationRef.value ==> key == a;
    }
  }

  /** With true references, what Gate 11 reads through them is what the resolver reads through the keys. */
  lemma GateReadsTheKeys(s: Gov, id: GrantId)
    requires Sound(s) && RefsFollow(s) && id in s.grants && s.grants[id].activatedAt.None? && s.grants[id].Live()
    ensures var g := s.grants[id];
            Activates(s, g, g.venture) <==>
              && s.agents[g.agent].active && g.tier.Some? && g.operationRef.Some? && g.departmentRef.Some?
              && Standing(s, UnitA(g.agent, g.forge, g.mod)) && Standing(s, DepartmentKey(s, g))
  {
    var g := s.grants[id];
    assert RefOk(s, id);
    var a, b := UnitA(g.agent, g.forge, g.mod), DepartmentKey(s, g);
    if g.operationRef.Some? && g.departmentRef.Some? {
      assert RowSound(s, a) && RowSound(s, b);
      assert forall key :: key in s.certs && s.certs[key].id == g.operationRef.value ==> key == a;
      assert forall key :: key in s.certs && s.certs[key].id == g.departmentRef.value ==> key == b;
      assert StandsAs(s, g.operationRef.value, a) <==> Standing(s, a);
      assert StandsAs(s, g.departmentRef.value, b) <==> Standing(s, b);
    }
  }

  lemma UnitAIsNeverVoid(s: Gov, ask: Ask)
    requires Sound(s)
    ensures var a := UnitA(ask.agent, ask.forge, ask.mod);
            Standing(s, a) <==> a in s.certs && s.certs[a].state == Certified
    ensures var a := UnitA(ask.agent, ask.forge, ask.mod);
            Standing(s, a) ==> s.certs[a].tier.Some? && (s.certs[a].verdict.Some? ==> Given(s.certs[a].model.digest))
  {
    var a := UnitA(ask.agent, ask.forge, ask.mod);
    if a in s.certs {
      assert RowSound(s, a);
    }
  }

  /**
   * In every state reached without anybody changing department, Gate 11 activates an inactive grant
   * exactly when the resolver would then let its holder call: two spellings of "certified", one
   * through the grant's references and one through its keys, decide alike.
   */
  lemma GateElevenAgreesWithTheResolver(s: Gov, acts: Acts, ask: Ask, id: GrantId, covered: set<GrantId>, now: Time)
    requires Sound(s) && RefsFollow(s) && NobodyMoves(acts)
    requires var at := Run(s, acts);
             NewestLive(at, ask, id) && at.grants[id].activatedAt.None? && id !in covered && Callable(at, ask)
    ensures var at := Run(s, acts);
            Activates(at, at.grants[id], ask.venture) <==> Authorized(Activated(at, ask.venture, covered, now), ask, id)
  {
    RowsStaySound(s, acts);
    ReferencesFollow(s, acts);
    var at := Run(s, acts);
    var after := Activated(at, ask.venture, covered, now);
    assert RefOk(at, id);
    GateReadsTheKeys(at, id);
    UnitAIsNeverVoid(at, ask);
    assert NewestLive(after, ask, id);
    assert Qualified(after, ask) <==> Qualified(at, ask);
  }
}
