/**
 * Reconciling a call against the venture's Forge Manifest, and what a violation does to the
 * agent's rate limit.
 */
module Manifest {
  import opened Wrappers
  import opened Limits

  const THROTTLE_FACTOR := 0.1
  const THROTTLE_SECONDS := 900

  type VentureId = string
  type ModuleId = string

  datatype Match = Required | DeclaredOnly

  datatype IncidentKind = UndeclaredForgeCall | InUseNotRequired

  datatype Incident = Incident(kind: IncidentKind, venture: VentureId, forge: ForgeId, mod: ModuleId, agent: AgentId)

  /** The agent refills at no more than a tenth of its rate for 900 seconds from `now`, whatever follows. */
  ghost predicate SlowedFrom(t: Table, now: real, agent: AgentId) {
    forall run, at ::
      Ordered(now, run) && now <= at < now + THROTTLE_SECONDS as real ==> SlowAt(After(t, run), agent, at)
  }

  predicate SlowAt(t: Table, agent: AgentId, at: real) {
    var key := AgentKey(agent);
    key in t && t[key].EffectiveRate(at) <= THROTTLE_FACTOR * t[key].rate
  }

  /** The table a violation leaves. */
  function Slowed(t: Table, now: real, agent: AgentId): Table {
    Throttled(t, now, agent, THROTTLE_FACTOR, THROTTLE_SECONDS).0
  }

  lemma ViolationSlows(t: Table, now: real, agent: AgentId)
    requires WellFormed(t, now)
    ensures SlowedFrom(Slowed(t, now, agent), now, agent)
  {
    forall run, at | Ordered(now, run) && now <= at < now + THROTTLE_SECONDS as real
      ensures SlowAt(After(Slowed(t, now, agent), run), agent, at)
    {
      ThrottleHolds(t, now, agent, THROTTLE_FACTOR, THROTTLE_SECONDS, run, at);
    }
  }

  /** In figures: a tenth of the rate at most, for 900 seconds at least, in a bucket of ten at five a second if new. */
  lemma ViolationInFigures(t: Table, now: real, agent: AgentId)
    ensures var slowed, key := Slowed(t, now, agent), AgentKey(agent);
            && key in slowed && slowed[key].factor <= 0.1
            && slowed[key].until.Some? && slowed[key].until.value >= now + 900.0
            && (key !in t ==> slowed[key] == Bucket(10.0, 10.0, 5.0, now, 0.1, Some(now + 900.0)))
            && (forall k :: k in t && k != key ==> k in slowed && slowed[k] == t[k])
  {
    ThrottleTakesEffect(t, now, agent, 0.1, 900);
  }

  /**
   * From a violation to calls: in the 900 seconds after one, whether or not the agent had a
   * bucket, it is charged at most its burst plus a tenth of its refill over the window.
   */
  lemma ViolationRateBound(t: Table, now: real, agent: AgentId, run: seq<Timed>)
    requires WellFormed(t, now) && Ordered(now, run) && run != []
    requires Unconfigured(run, AgentKey(agent))
    requires forall k :: 0 <= k < |run| ==> run[k].at < now + THROTTLE_SECONDS as real
    ensures var slowed := Slowed(t, now, agent);
            AgentKey(agent) in slowed
            && Debits(slowed, run, AgentKey(agent)) as real
                 <= slowed[AgentKey(agent)].max
                    + Accrued(THROTTLE_FACTOR * slowed[AgentKey(agent)].rate, run[0].at, run[|run| - 1].at)
  {
    var key, slowed := AgentKey(agent), Slowed(t, now, agent);
    StepKeepsWellFormed(t, now, Throttle(agent, THROTTLE_FACTOR, THROTTLE_SECONDS));
    var b := slowed[key];
    assert b.Valid() && b.until.Some? && now + THROTTLE_SECONDS as real <= b.until.value;
    ThrottledRateWithin(b, THROTTLE_FACTOR);
    ThrottledRunBound(slowed, now, run, key, b.until.value, THROTTLE_FACTOR * b.rate);
  }

  class ManifestGate {
    const limiter: RateLimiter
    var required: map<(VentureId, ForgeId, ModuleId), bool>
    var incidents: seq<Incident>

    constructor (limiter: RateLimiter)
      ensures this.limiter == limiter && required == map[] && incidents == []
    {
      this.limiter := limiter;
      required := map[];
      incidents := [];
    }

    /**
     * Required calls pass and touch nothing. Anything else is a HIGH incident and a throttle;
     * a declared module still proceeds, an undeclared one is refused with the incident.
     */
    method Check(venture: VentureId, forge: ForgeId, mod: ModuleId, agent: AgentId, now: real)
      returns (r: Result<Match, Incident>)
      requires WellFormed(limiter.buckets, now)
      modifies this`incidents, limiter
      ensures r == Ok(Required) <==> (venture, forge, mod) in required && required[(venture, forge, mod)]
      ensures r.Err? <==> (venture, forge, mod) !in required
      ensures r == Ok(Required) ==> incidents == old(incidents) && limiter.buckets == old(limiter.buckets)
      ensures r != Ok(Required) ==> SlowedFrom(limiter.buckets, now, agent)
      ensures r != Ok(Required) ==> limiter.buckets == Slowed(old(limiter.buckets), now, agent)
      ensures r == Ok(DeclaredOnly) ==>
                incidents == old(incidents) + [Incident(InUseNotRequired, venture, forge, mod, agent)]
      ensures r.Err? ==>
                r.error == Incident(UndeclaredForgeCall, venture, forge, mod, agent)
                && incidents == old(incidents) + [r.error]
    {
      var key := (venture, forge, mod);
      if key in required && required[key] {
        return Ok(Required);
      }
      var kind := if key in required then InUseNotRequired else UndeclaredForgeCall;
      var incident := Incident(kind, venture, forge, mod, agent);
      incidents := incidents + [incident];
      ViolationSlows(limiter.buckets, now, agent);
      var throttled := limiter.ThrottleAgent(agent, THROTTLE_FACTOR, THROTTLE_SECONDS, now);
      assert throttled;
      return if key in required then Ok(DeclaredOnly) else Err(incident);
    }
  }
}
