/** Declaring a venture in simulation, and leaving it once. */
module Simulation {
  import opened Text
  import opened Wrappers
  import opened Instructions
  import opened Tables
  import Humans

  predicate IsCurrent(sims: map<SimulationId, Declaration>, d: SimulationId, venture: VentureId) {
    d in sims && sims[d].venture == venture && sims[d].left.None?
  }

  /** `one_live_simulation_per_venture`. */
  ghost predicate OneLive(sims: map<SimulationId, Declaration>) {
    forall d, e, venture :: IsCurrent(sims, d, venture) && IsCurrent(sims, e, venture) ==> d == e
  }

  /** The venture's live declaration; None means not in simulation. */
  ghost function Current(sims: map<SimulationId, Declaration>, venture: VentureId): (r: Option<SimulationId>)
    ensures r.Some? ==> IsCurrent(sims, r.value, venture)
    ensures r.None? ==> forall d :: !IsCurrent(sims, d, venture)
  {
    if exists d :: IsCurrent(sims, d, venture) then
      var d :| IsCurrent(sims, d, venture);
      Some(d)
    else None
  }

  ghost function Declared(s: Gov, venture: VentureId, me: Humans.Human, reason: string, now: Time)
    : Result<Gov, Refusal>
  {
    if Blank(reason) then Err(EmptyReason)
    else if me.origin != Humans.Person then Err(NotAPerson)
    else if Current(s.sims, venture).Some? then Err(AlreadyInSimulation)
    else Ok(s.(sims := s.sims[s.nextId := Declaration(venture, me.id, now, Strip(reason), None)],
               nextId := s.nextId + 1))
  }

  ghost function Left(s: Gov, venture: VentureId, me: Humans.Human, reason: string, now: Time): Result<Gov, Refusal> {
    if Blank(reason) then Err(EmptyReason)
    else if me.origin != Humans.Person then Err(NotAPerson)
    else if Current(s.sims, venture).None? then Err(NotInSimulation)
    else
      var d := Current(s.sims, venture).value;
      Ok(s.(sims := s.sims[d := s.sims[d].(left := Some(Leaving(now, me.id, Strip(reason))))]))
  }

  /** Declared by a person, with a reason, where nothing is declared: one new declaration, and nothing else changes. */
  lemma DeclaringTakesEffect(s: Gov, venture: VentureId, me: Humans.Human, reason: string, now: Time)
    ensures var r := Declared(s, venture, me, reason, now);
            && (r.Ok? <==> !AllBlank(reason) && me.origin == Humans.Person
                           && forall d :: d in s.sims && s.sims[d].venture == venture ==> s.sims[d].left.Some?)
            && (r.Ok? ==>
                  && r.value == s.(sims := r.value.sims, nextId := r.value.nextId) && r.value.nextId > s.nextId
                  && r.value.sims == s.sims[s.nextId := Declaration(venture, me.id, now, Strip(reason), None)])
  {
    BlankIffAllBlank(reason);
    assert forall d :: IsCurrent(s.sims, d, venture) <==>
             d in s.sims && s.sims[d].venture == venture && !s.sims[d].left.Some?;
  }

  /** Left by a person, with a reason, where something is declared: that declaration is left, and nothing else is. */
  lemma LeavingTakesEffect(s: Gov, venture: VentureId, me: Humans.Human, reason: string, now: Time)
    ensures var r := Left(s, venture, me, reason, now);
            && (r.Ok? <==> !AllBlank(reason) && me.origin == Humans.Person
                           && exists d :: d in s.sims && s.sims[d].venture == venture && s.sims[d].left.None?)
            && (r.Ok? ==>
                  && r.value == s.(sims := r.value.sims)
                  && exists d :: d in s.sims && s.sims[d].venture == venture && s.sims[d].left.None?
                       && r.value.sims == s.sims[d := s.sims[d].(left := Some(Leaving(now, me.id, Strip(reason))))])
  {
    BlankIffAllBlank(reason);
    if d :| d in s.sims && s.sims[d].venture == venture && s.sims[d].left.None? {
      assert IsCurrent(s.sims, d, venture);
    }
  }

  /** What was declared stays declared, and what was left stays left, by whom and when. */
  ghost predicate DeclarationsStand(sims: map<SimulationId, Declaration>, later: map<SimulationId, Declaration>) {
    forall d :: d in sims ==> d in later && (sims[d].left.Some? ==> later[d] == sims[d])
                                         && later[d] == sims[d].(left := later[d].left)
  }
}
