/** Concrete tables on which what one would expect of the broker fails. */
module Witnesses {
  import opened Text
  import opened Wrappers
  import opened Versions
  import opened Instructions
  import opened Tables
  import opened Certification
  import opened Grants
  import opened Governance
  import Simulation
  import Humans

  const RESEARCH := UnitB("research", "crm")

  const LOOKUP := LadderGrant("acme", 1, "crm", "lookup")

  const LOOKUP_TEXT := Row("v1", "1.0.0", MajorMinor, InstructionHash(map[]), 0, None)

  /** A venture in simulation, and one agent of research holding one live grant on one written-up module. */
  function Stage(): Gov {
    Gov(map[],
        map[LOOKUP := Grant(1, "crm", "lookup", "acme", Some(Suggest), None, None, 0, None, None, Ladder)],
        map[3 := Declaration("acme", 9, 0, "pilot", None)],
        map[("crm", "lookup") := [LOOKUP_TEXT]],
        map[1 := Agent("research", true)],
        Registry(map["crm" := "1.0.0"], {("crm", "lookup")}, {}, {"crm"}), 9, _ => "")
  }

  function Founder(): Humans.Human {
    Humans.Human(9, true, Humans.Person, {(Humans.Ivan, None)})
  }

  /** What the verdict sweep sends of a department's failed exam: the evidence beside the verdict. */
  function FailedExam(): Report {
    Report(FAIL, "rubric", None, None, None, None, None, None, Some("model"), None,
           SimForge, None, None, Some("observed"))
  }

  function Certify(): Act { CertifyForSimulation("acme", "research", "crm", Founder(), "pilot") }

  /** The tables a simulation certification looks at are the stage's. */
  predicate OnStage(s: Gov) {
    && s.sims == Stage().sims && s.instructions == Stage().instructions && s.agents == Stage().agents
    && s.registry == Stage().registry && s.grants.Keys == {LOOKUP}
    && InContext(s.agents, s.grants[LOOKUP], "research", "crm")
    && s.grants[LOOKUP].venture == "acme" && s.grants[LOOKUP].mod == "lookup"
  }

  lemma StageModules(s: Gov)
    requires OnStage(s)
    ensures DepartmentModules(s, "acme", "research", "crm") == {"lookup"}
  {
    assert LOOKUP in s.grants;
  }

  lemma FounderMayCertify()
    ensures Humans.Authorize(Founder(), Humans.Ivan, None).Ok?
  {
    assert (Humans.Ivan, None) in Founder().roles;
  }

  lemma StagePermits(s: Gov)
    requires OnStage(s)
    ensures CertifyRefusal(s, "acme", "research", "crm", Founder(), "pilot").None?
  {
    assert Strip("pilot") == "pilot";
    FounderMayCertify();
    StageModules(s);
    assert Simulation.IsCurrent(s.sims, 3, "acme");
    assert LiveInstruction(s, "crm", "lookup") == Some(LOOKUP_TEXT);
  }

  lemma FailedExamIsRecorded()
    ensures Step(Stage(), RecordResult(RESEARCH, FailedExam()), 1).Ok?
    ensures OnStage(Next(Stage(), RecordResult(RESEARCH, FailedExam()), 1))
    ensures CarriesEvidence(Next(Stage(), RecordResult(RESEARCH, FailedExam()), 1), RESEARCH)
  {
    assert Strip("model") == "model";
    GuardsCoverChecks(RESEARCH, FailedExam(), Stage().nextId, 1);
    RecordWrites(Stage(), RESEARCH, FailedExam(), 1);
  }

  /** On the stage research may be certified for simulation; let it first fail an exam and it may not. */
  lemma AFailedExamBlocksSimulation()
    ensures Step(Stage(), Certify(), 2).Ok?
    ensures Step(Next(Stage(), RecordResult(RESEARCH, FailedExam()), 1), Certify(), 2) == Err(CheckRefused)
  {
    assert Step(Stage(), Certify(), 2).Ok? by {
      StagePermits(Stage());
      EvidenceDecides(Stage(), "acme", "research", "crm", Founder(), "pilot", 2);
    }
    var failed := Next(Stage(), RecordResult(RESEARCH, FailedExam()), 1);
    assert Step(failed, Certify(), 2) == Err(CheckRefused) by {
      FailedExamIsRecorded();
      StagePermits(failed);
      EvidenceDecides(failed, "acme", "research", "crm", Founder(), "pilot", 2);
    }
  }

  /** A PASS on the text the agent was examined on, which has since been replaced. */
  function LatePass(hash: Hash): Report {
    Report(PASS, "rubric", Some(Suggest), Some(hash), Some("1.0.0"), None, None, None, Some("model"),
           Some(ModelIdentity(Some("digest"), Some(0.0), Some(1), None)), SimForge, None, None, None)
  }

  /** The table refuses it, and the agent is left with whatever row it had. */
  lemma ALatePassIsRefused(hash: Hash)
    requires hash != LOOKUP_TEXT.hash
    ensures Step(Stage(), RecordResult(UnitA(1, "crm", "lookup"), LatePass(hash)), 1) == Err(TextNotLive)
  {
    assert Strip("model") == "model";
    assert LiveInstruction(Stage(), "crm", "lookup") == Some(LOOKUP_TEXT);
    AnswersReplaceIff(Stage(), UnitA(1, "crm", "lookup"), LatePass(hash), 1);
  }
}
