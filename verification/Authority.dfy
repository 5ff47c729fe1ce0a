/**
 * Where authority comes from: over every run, what a certified row was written by, and what a call
 * that is let through rests on.
 */
module Authority {
  import opened Wrappers
  import opened Instructions
  import opened Tables
  import opened Certification
  import opened Grants
  import opened Governance
  import Humans

  // ------------------------------------------------ what makes a certified row, and what ends one

  predicate CertifiedAt(s: Gov, key: CertKey) {
    key in s.certs && s.certs[key].state == Certified
  }

  /** An act that certifies: a PASS, or a simulation certification. */
  predicate Confers(act: Act) {
    (act.RecordResult? && act.report.verdict == PASS) || act.CertifyForSimulation?
  }

  /** A sweep that runs finds the row outrun, and marks it. */
  ghost predicate Lapses(s: Gov, act: Act, now: Time, key: CertKey) {
    act.RecomputeStaleness? && Recomputed(s, act.forge, act.only, now).Ok? && Falls(s, key, act.forge, act.only)
  }

  /** The tables after the first `n` acts. */
  ghost function After(s: Gov, acts: Acts, n: nat): Gov
    requires n <= |acts|
  {
    Run(s, acts[..n])
  }

  /** The act at `i` wrote the row and certified it. */
  ghost predicate ConfersAt(s: Gov, acts: Acts, key: CertKey, i: nat)
    requires i < |acts|
  {
    Confers(acts[i].0) && Replaces(After(s, acts, i), acts[i].0, acts[i].1, key)
  }

  /** The act at `i` neither replaced the row nor found it outrun. */
  ghost predicate SparesAt(s: Gov, acts: Acts, key: CertKey, i: nat)
    requires i < |acts|
  {
    var before := After(s, acts, i);
    !Replaces(before, acts[i].0, acts[i].1, key) && !Lapses(before, acts[i].0, acts[i].1, key)
  }

  /** After `n` acts the row is from the act at `i`, which certified it; nothing since replaced or outran it. */
  ghost predicate RestsOn(s: Gov, acts: Acts, n: nat, key: CertKey, i: nat)
    requires n <= |acts|
  {
    i < n && ConfersAt(s, acts, key, i) && forall j :: i < j < n ==> SparesAt(s, acts, key, j)
  }

  /** What the act left in the row: an examined row says what its PASS reported, a permitted one the floor. */
  predicate Reads(c: Cert, act: Act, now: Time) {
    if act.RecordResult? then SaysWhatWasReported(c, act.report, now)
    else c.tier == Some(Suggest) && c.simulationRef.Some? && c.verdict.None?
  }

  lemma RecordingConfers(s: Gov, act: Act, now: Time, key: CertKey)
    requires act.RecordResult? && Replaces(s, act, now, key)
    ensures var after := Next(s, act, now);
            key in after.certs && (CertifiedAt(after, key) <==> Confers(act)) && Reads(after.certs[key], act, now)
  {
    RecordTakesEffect(s, key, act.report, now);
  }

  lemma CertifyingConfers(s: Gov, act: Act, now: Time, key: CertKey)
    requires act.CertifyForSimulation? && Replaces(s, act, now, key)
    ensures CertifiedAt(Next(s, act, now), key) && Reads(Next(s, act, now).certs[key], act, now)
  {
    CertifyingTakesEffect(s, act.venture, act.department, act.forge, act.me, act.reason, now);
  }

  /** The row of `key` was certified before just when it is after, and is then the same row. */
  ghost predicate Stands(s: Gov, after: Gov, key: CertKey) {
    (CertifiedAt(after, key) <==> CertifiedAt(s, key)) && (CertifiedAt(s, key) ==> after.certs[key] == s.certs[key])
  }

  lemma RecordingElsewhere(s: Gov, other: CertKey, r: Report, now: Time, key: CertKey)
    requires Recorded(s, other, r, now).Ok? && (key != other || Silent(r.verdict))
    ensures Stands(s, Recorded(s, other, r, now).value, key)
  {
    RecordTakesEffect(s, other, r, now);
  }

  lemma SweepingElsewhere(s: Gov, act: Act, now: Time, key: CertKey)
    requires act.RecomputeStaleness?
    ensures CertifiedAt(Next(s, act, now), key) <==> CertifiedAt(s, key) && !Lapses(s, act, now, key)
    ensures CertifiedAt(Next(s, act, now), key) ==> Next(s, act, now).certs[key] == s.certs[key]
  {
    if Step(s, act, now).Ok? && key in s.certs {
      SweepTakesEffect(s, act.forge, act.only, now, key);
    }
  }

  lemma ChangingOneDepartment(s: Gov, after: Gov, department: Department, forge: ForgeId, key: CertKey)
    requires OnlyDepartmentChanged(s, after, department, forge) && key != UnitB(department, forge)
    ensures Stands(s, after, key)
  {
  }

  /** Short of an act that replaces the row, a certified row only lapses or stands as it is, and none appears. */
  lemma StandsOrLapses(s: Gov, act: Act, now: Time, key: CertKey)
    requires !Replaces(s, act, now, key)
    ensures CertifiedAt(Next(s, act, now), key) <==> CertifiedAt(s, key) && !Lapses(s, act, now, key)
    ensures CertifiedAt(Next(s, act, now), key) ==> Next(s, act, now).certs[key] == s.certs[key]
  {
    match act
    case RecordResult(other, report) =>
      if Step(s, act, now).Ok? {
        RecordingElsewhere(s, other, report, now, key);
      }
    case CertifyForSimulation(venture, department, forge, me, reason) =>
      if Step(s, act, now).Ok? {
        CertifyingTakesEffect(s, venture, department, forge, me, reason, now);
        ChangingOneDepartment(s, Next(s, act, now), department, forge, key);
      }
    case RecomputeStaleness(_, _) => SweepingElsewhere(s, act, now, key);
    case _ => OtherActsKeepCerts(s, act, now);
  }

  lemma ReplacingConfers(s: Gov, act: Act, now: Time, key: CertKey)
    requires Replaces(s, act, now, key)
    ensures var after := Next(s, act, now);
            key in after.certs && (CertifiedAt(after, key) <==> Confers(act)) && Reads(after.certs[key], act, now)
  {
    if act.RecordResult? {
      RecordingConfers(s, act, now, key);
    } else {
      CertifyingConfers(s, act, now, key);
    }
  }

  // ------------------------------------------------ every certified row rests on the act that certified it

  lemma OneMore(s: Gov, acts: Acts, n: nat)
    requires n < |acts|
    ensures After(s, acts, n + 1) == Next(After(s, acts, n), acts[n].0, acts[n].1)
  {
    assert acts[..n + 1][..n] == acts[..n];
  }

  lemma SparedStands(s: Gov, acts: Acts, n: nat, key: CertKey)
    requires 0 < n <= |acts| && SparesAt(s, acts, key, n - 1) && CertifiedAt(After(s, acts, n - 1), key)
    ensures CertifiedAt(After(s, acts, n), key)
    ensures After(s, acts, n).certs[key] == After(s, acts, n - 1).certs[key]
  {
    OneMore(s, acts, n - 1);
    StandsOrLapses(After(s, acts, n - 1), acts[n - 1].0, acts[n - 1].1, key);
  }

  lemma ConferredReads(s: Gov, acts: Acts, key: CertKey, i: nat)
    requires i < |acts| && ConfersAt(s, acts, key, i)
    ensures CertifiedAt(After(s, acts, i + 1), key) && Reads(After(s, acts, i + 1).certs[key], acts[i].0, acts[i].1)
  {
    OneMore(s, acts, i);
    ReplacingConfers(After(s, acts, i), acts[i].0, acts[i].1, key);
  }

  /** A row that rests on an act is certified, and reads as that act left it. */
  lemma {:induction false} RestingIsCertified(s: Gov, acts: Acts, n: nat, key: CertKey, i: nat)
    requires n <= |acts| && RestsOn(s, acts, n, key, i)
    ensures CertifiedAt(After(s, acts, n), key) && Reads(After(s, acts, n).certs[key], acts[i].0, acts[i].1)
  {
    if i == n - 1 {
      ConferredReads(s, acts, key, i);
    } else {
      RestingIsCertified(s, acts, n - 1, key, i);
      SparedStands(s, acts, n, key);
    }
  }

  /** One act more: the row rests where it did, or on that act, or is not certified. */
  lemma RestsOneMore(s: Gov, acts: Acts, n: nat, key: CertKey, i: nat) returns (j: nat)
    requires 0 < n <= |acts| && (CertifiedAt(After(s, acts, n - 1), key) ==> RestsOn(s, acts, n - 1, key, i))
    ensures CertifiedAt(After(s, acts, n), key) ==> RestsOn(s, acts, n, key, j)
  {
    var before, act, now := After(s, acts, n - 1), acts[n - 1].0, acts[n - 1].1;
    OneMore(s, acts, n - 1);
    if Replaces(before, act, now, key) {
      ReplacingConfers(before, act, now, key);
      j := n - 1;
    } else {
      StandsOrLapses(before, act, now, key);
      j := i;
    }
  }

  /** Where a certified row's authority is to be found. */
  lemma {:induction false} CertifiedRests(s: Gov, acts: Acts, n: nat, key: CertKey) returns (i: nat)
    requires n <= |acts| && !CertifiedAt(s, key)
    ensures CertifiedAt(After(s, acts, n), key) ==> RestsOn(s, acts, n, key, i)
  {
    i := 0;
    if n > 0 {
      i := CertifiedRests(s, acts, n - 1, key);
      i := RestsOneMore(s, acts, n, key, i);
    }
  }

  /**
   * The whole life of a certification, over every run of every act: a row is certified exactly when
   * some PASS or simulation certification its tables accepted wrote it, nothing has replaced it since
   * and no sweep has found it outrun.
   */
  lemma CertifiedIff(s: Gov, acts: Acts, n: nat, key: CertKey)
    requires n <= |acts| && !CertifiedAt(s, key)
    ensures CertifiedAt(After(s, acts, n), key) <==> exists i :: RestsOn(s, acts, n, key, i)
  {
    var i := CertifiedRests(s, acts, n, key);
    if i :| RestsOn(s, acts, n, key, i) {
      RestingIsCertified(s, acts, n, key, i);
    }
  }

  /** A PASS for the key that the tables it met accepted reported this tier on this text. */
  ghost predicate Passed(s: Gov, acts: Acts, i: nat, key: CertKey, tier: Tier, hash: Option<Hash>) {
    && i < |acts| && Accepts(After(s, acts, i), acts[i].0, key)
    && acts[i].0.report.verdict == PASS && acts[i].0.report.tier == Some(tier) && acts[i].0.report.hash == hash
  }

  lemma AgentsRestOnAPass(s: Gov, acts: Acts, n: nat, key: CertKey, i: nat)
    requires n <= |acts| && RestsOn(s, acts, n, key, i) && key.UnitA?
    ensures var end := After(s, acts, n);
            && key in end.certs && end.certs[key].tier.Some?
            && Passed(s, acts, i, key, end.certs[key].tier.value, end.certs[key].hash)
  {
    RestingIsCertified(s, acts, n, key, i);
    var act := acts[i].0;
    assert act.RecordResult? && act.report.verdict == PASS;
    AcceptedHasATier(After(s, acts, i), key, act.report, acts[i].1);
  }

  lemma AcceptedHasATier(s: Gov, key: CertKey, r: Report, now: Time)
    requires Recorded(s, key, r, now).Ok? && r.verdict == PASS
    ensures Accepted(s, key, r) && r.tier.Some?
  {
    RefusalIgnoresIdentity(s, key, r, s.nextId, now);
    ReportPassesIff(r);
  }

  lemma DepartmentsRestOnEither(s: Gov, acts: Acts, n: nat, key: CertKey, i: nat)
    requires n <= |acts| && RestsOn(s, acts, n, key, i) && SoundCerts(After(s, acts, n))
    ensures var end := After(s, acts, n);
            key in end.certs && (end.certs[key].basis == Simulation <==> acts[i].0.CertifyForSimulation?)
  {
    RestingIsCertified(s, acts, n, key, i);
    assert RowSound(After(s, acts, n), key);
  }

  lemma LettingThroughReads(s: Gov, ask: Ask, g: GrantId)
    requires Candidate(s, ask, g) && Decide(s, ask, g).Ok?
    ensures var a, b := UnitA(ask.agent, ask.forge, ask.mod), UnitB(s.agents[ask.agent].department, ask.forge);
            && CertifiedAt(s, a) && s.certs[a].tier == Some(Decide(s, ask, g).value.certifiedTier)
            && CertifiedAt(s, b) && (Decide(s, ask, g).value.simulationOnly <==> s.certs[b].basis == Simulation)
  {
  }

  /**
   * From the empty tables, and whatever is done to them, a call let through at a certified tier has
   * behind it a PASS of that agent on that very module at that tier and on its row's text, which no
   * later result replaced and no sweep found outrun; and behind its department's row either a PASS of
   * the department or, when the answer is marked so, a simulation certification.
   */
  lemma CallsAreEarned(registry: Registry, hex: Hash -> string, acts: Acts, ask: Ask, g: GrantId)
    returns (i: nat, j: nat)
    requires Candidate(Run(Empty(registry, hex), acts), ask, g)
    requires Decide(Run(Empty(registry, hex), acts), ask, g).Ok?
    ensures var s, n := Empty(registry, hex), |acts|;
            var end, a := Run(s, acts), UnitA(ask.agent, ask.forge, ask.mod);
            var b, given := UnitB(end.agents[ask.agent].department, ask.forge), Decide(end, ask, g).value;
            && RestsOn(s, acts, n, a, i) && a in end.certs
            && Passed(s, acts, i, a, given.certifiedTier, end.certs[a].hash)
            && RestsOn(s, acts, n, b, j) && (given.simulationOnly <==> acts[j].0.CertifyForSimulation?)
  {
    var s, n := Empty(registry, hex), |acts|;
    var end := Run(s, acts);
    assert acts[..n] == acts;
    ReachableIsSound(registry, hex, acts);
    LettingThroughReads(end, ask, g);
    i := CertifiedRests(s, acts, n, UnitA(ask.agent, ask.forge, ask.mod));
    AgentsRestOnAPass(s, acts, n, UnitA(ask.agent, ask.forge, ask.mod), i);
    j := CertifiedRests(s, acts, n, UnitB(end.agents[ask.agent].department, ask.forge));
    DepartmentsRestOnEither(s, acts, n, UnitB(end.agents[ask.agent].department, ask.forge), j);
  }

  // ------------------------------------------------ the simulation mark

  /** In sound tables a call is marked simulation-only when the department's row in force rests on a declaration. */
  lemma MarkedIffOnADeclaration(s: Gov, ask: Ask, g: GrantId)
    requires SoundCerts(s) && Candidate(s, ask, g) && Decide(s, ask, g).Ok?
    ensures var b := UnitB(s.agents[ask.agent].department, ask.forge);
            && b in s.certs && (Decide(s, ask, g).value.simulationOnly <==> s.certs[b].simulationRef.Some?)
            && (s.certs[b].simulationRef.Some? ==>
                  && s.certs[b].simulationRef.value in s.sims
                  && s.sims[s.certs[b].simulationRef.value].left.None?)
  {
    assert RowSound(s, UnitB(s.agents[ask.agent].department, ask.forge));
  }

  /** All a call needs but its department: an active member of it, certified on a usable module, and a grant in use. */
  ghost predicate WantsDepartment(s: Gov, ask: Ask, g: GrantId, department: Department) {
    && NewestLive(s, ask, g)
    && s.grants[g].activatedAt.Some? && s.grants[g].tier.Some? && s.grants[g].operationRef.Some?
    && ask.agent in s.agents && s.agents[ask.agent] == Agent(department, true)
    && (ask.forge, ask.mod) in s.registry.modules && (ask.forge, ask.mod) !in s.registry.exclusions
    && ask.forge in s.registry.credentials && CertifiedAt(s, UnitA(ask.agent, ask.forge, ask.mod))
  }

  lemma CertifyingCompletes(s: Gov, after: Gov, ask: Ask, g: GrantId, department: Department)
    requires SoundCerts(s) && WantsDepartment(s, ask, g, department) && ask.forge in s.registry.forges
    requires OnlyDepartmentChanged(s, after, department, ask.forge)
    requires CertifiedAt(after, UnitB(department, ask.forge))
    requires !SimulationVoid(after.sims, after.certs[UnitB(department, ask.forge)])
    ensures Authorized(after, ask, g)
  {
    assert RowSound(s, UnitA(ask.agent, ask.forge, ask.mod));
    assert NewestLive(after, ask, g);
  }

  /**
   * What simulation certification is for: as soon as it succeeds, every member of the department who
   * lacked nothing else is let through on the Forge, in whichever venture, at no more than its own
   * certified tier and marked simulation-only.
   */
  lemma SimulationLetsCallsThrough(s: Gov, venture: VentureId, department: Department, forge: ForgeId,
                                   me: Humans.Human, reason: string, now: Time, ask: Ask, g: GrantId)
    requires Sound(s) && Step(s, CertifyForSimulation(venture, department, forge, me, reason), now).Ok?
    requires ask.forge == forge && WantsDepartment(s, ask, g, department)
    ensures var after := Next(s, CertifyForSimulation(venture, department, forge, me, reason), now);
            && Resolves(after, ask) && Authorized(after, ask, g) && Candidate(after, ask, g)
            && Decide(after, ask, g).Ok? && Decide(after, ask, g).value.simulationOnly
            && Gives(after, ask, g, Decide(after, ask, g).value)
  {
    var after := Next(s, CertifyForSimulation(venture, department, forge, me, reason), now);
    CertifyingTakesEffect(s, venture, department, forge, me, reason, now);
    CertifyingCompletes(s, after, ask, g, department);
    assert Candidate(after, ask, g);
    TopIsNewestLive(after, ask, g, g);
    LadderIsOneCondition(after, ask, g);
  }
}
