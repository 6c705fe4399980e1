// Combat: the closed-form scenario analysis, the step-by-step combat runtime,
// and the proof that the first predicts the second.

module Actors {
  import opened Wrappers
  import opened MachineWords

  datatype ActorKind = Player | Enemy

  datatype Position = Position(x: int, y: int, z: int)

  datatype Actor = Actor(id: nat, kind: ActorKind, archetype: string, position: Position, health: nat, maxHealth: nat)

  type ActorMap = map<nat, Actor>

  function DistanceSquared(a: Position, b: Position): nat {
    Square(a.x - b.x) + Square(a.y - b.y) + Square(a.z - b.z)
  }

  /** Cells walked between two positions on the floor. */
  function Steps(a: Position, b: Position): nat {
    Abs(b.x - a.x) + Abs(b.z - a.z)
  }

  function Damaged(actors: ActorMap, id: nat, damage: nat): ActorMap {
    if id in actors then actors[id := actors[id].(health := SaturatingSub(actors[id].health, damage))] else actors
  }

  class ActorRegistry {
    var actors: ActorMap

    constructor ()
      ensures actors == map[]
    {
      actors := map[];
    }

    method ApplyDamage(id: nat, damage: nat) returns (actor: Option<Actor>)
      modifies this
      ensures actors == Damaged(old(actors), id, damage)
      ensures actor == if id in old(actors) then Some(actors[id]) else None
    {
      if id !in actors {
        return None;
      }
      var updated := actors[id];
      updated := updated.(health := SaturatingSub(updated.health, damage));
      actors := actors[id := updated];
      actor := Some(updated);
    }

    method UpdatePosition(id: nat, position: Position) returns (actor: Option<Actor>)
      modifies this
      ensures actors == if id in old(actors) then old(actors)[id := old(actors)[id].(position := position)] else old(actors)
      ensures actor == if id in old(actors) then Some(actors[id]) else None
    {
      if id !in actors {
        return None;
      }
      actors := actors[id := actors[id].(position := position)];
      actor := Some(actors[id]);
    }
  }
}

module CombatAnalysis {
  import opened Wrappers
  import opened MachineWords

  datatype AttackProfile = AttackProfile(damage: U32, range: I32, cooldownMs: U64)

  datatype PressureProfile = PressureProfile(
    damage: U32, initialAttacks: U32, acceptedHitsPerCounterattack: U32, maximumCounterattacks: U32)

  datatype Scenario = Scenario(
    attack: AttackProfile, targetHealth: U32, targetDistanceSquared: int, attackerCount: U32,
    clientAttackIntervalMs: U64, roundTripMs: U64, pressure: PressureProfile)

  datatype Metrics = Metrics(
    requiredHits: nat, requiredVolleys: nat, effectiveAttackIntervalMs: nat,
    theoreticalTtkMs: nat, effectiveTtkMs: nat, overkillDamage: nat,
    damagePerSecondMilli: nat, cooldownDutyBasisPoints: nat,
    rangeMarginSquared: int, inRange: bool,
    expectedHostileAttacks: nat, expectedIncomingDamage: nat)

  datatype AnalysisError =
    | ZeroDamage | NegativeRange | ZeroCooldown | ZeroTargetHealth | NegativeDistanceSquared
    | ZeroAttackers | InvalidPressure | ArithmeticOverflow

  function DivCeil(a: nat, b: nat): nat
    requires b > 0
  {
    if a % b == 0 then a / b else a / b + 1
  }

  function ValidateScenario(s: Scenario): Option<AnalysisError> {
    if s.attack.damage == 0 then Some(ZeroDamage)
    else if s.attack.range < 0 then Some(NegativeRange)
    else if s.attack.cooldownMs == 0 then Some(ZeroCooldown)
    else if s.targetHealth == 0 then Some(ZeroTargetHealth)
    else if s.targetDistanceSquared < 0 then Some(NegativeDistanceSquared)
    else if s.attackerCount == 0 then Some(ZeroAttackers)
    else if (s.pressure.initialAttacks > 0 || s.pressure.maximumCounterattacks > 0) && s.pressure.damage == 0 then
      Some(InvalidPressure)
    else if s.pressure.maximumCounterattacks > 0 && s.pressure.acceptedHitsPerCounterattack == 0 then
      Some(InvalidPressure)
    else None
  }

  /** `u64::checked_mul`, and the other checked steps. */
  function Checked(value: nat, limit: nat): Result<nat, AnalysisError> {
    if value <= limit then Ok(value) else Err(ArithmeticOverflow)
  }

  function HostileAttacksForHits(requiredHits: nat, pressure: PressureProfile): Result<nat, AnalysisError>
    requires pressure.maximumCounterattacks > 0 ==> pressure.acceptedHitsPerCounterattack > 0
  {
    var nonlethalHits := SaturatingSub(requiredHits, 1);
    var counterattacks :=
      if pressure.maximumCounterattacks == 0 then 0
      else Min(nonlethalHits / pressure.acceptedHitsPerCounterattack, pressure.maximumCounterattacks);
    Checked(pressure.initialAttacks + counterattacks, U32_MAX)
  }

  /** `analyze_scenario`, one checked step after another. */
  function AnalyzeScenario(s: Scenario): Result<Metrics, AnalysisError> {
    var invalid := ValidateScenario(s);
    if invalid.Some? then Err(invalid.value) else
    var requiredHits := DivCeil(s.targetHealth, s.attack.damage);
    var requiredVolleys := DivCeil(requiredHits, s.attackerCount);
    var theoreticalTtkMs :- Checked(Times(SaturatingSub(requiredVolleys, 1), s.attack.cooldownMs), U64_MAX);
    var interval := Max(Max(s.attack.cooldownMs, s.clientAttackIntervalMs), s.roundTripMs);
    var effectiveTtkMs :- Checked(Times(SaturatingSub(requiredVolleys, 1), interval), U64_MAX);
    var totalDamage :- Checked(Times(requiredHits, s.attack.damage), U64_MAX);
    if totalDamage < s.targetHealth then Err(ArithmeticOverflow) else
    var rate :- Checked(s.attack.damage * 1_000_000, U64_MAX);
    var duty :- Checked(s.attack.cooldownMs * 10_000, U64_MAX);
    var margin := Square(s.attack.range) - s.targetDistanceSquared;
    if margin < I64_MIN then Err(ArithmeticOverflow) else
    var hostile :- HostileAttacksForHits(requiredHits, s.pressure);
    var incoming :- Checked(Times(hostile, s.pressure.damage), U64_MAX);
    Ok(Metrics(
      requiredHits, requiredVolleys, interval, theoreticalTtkMs, effectiveTtkMs,
      totalDamage - s.targetHealth, Quotient(rate, s.attack.cooldownMs), Quotient(duty, interval),
      margin, margin >= 0, hostile, incoming))
  }

  lemma CeilingBounds(a: nat, b: nat)
    requires a > 0 && b > 0
    ensures 1 <= DivCeil(a, b) <= a
    ensures Times(DivCeil(a, b) - 1, b) < a <= Times(DivCeil(a, b), b)
  {
    var q, r := a / b, a % b;
    assert a == q * b + r;
    TimesGrows(q, b);
    if r == 0 {
      assert q > 0;
      TimesStep(q - 1, b);
    } else {
      TimesStep(q, b);
    }
  }

  lemma WordProducts()
    ensures Times(U32_MAX, U32_MAX) <= U64_MAX
  {
  }

  /** Distances are `i64`, so the margin cannot underflow. */
  ghost predicate DistanceFits(s: Scenario) {
    s.targetDistanceSquared <= I64_MAX
  }

  /** What the reported metrics mean for the caller. */
  lemma MetricsBound(s: Scenario, m: Metrics)
    requires AnalyzeScenario(s) == Ok(m)
    ensures m.overkillDamage < s.attack.damage
    ensures m.requiredVolleys * s.attackerCount >= m.requiredHits
    ensures m.theoreticalTtkMs <= m.effectiveTtkMs
    ensures m.effectiveAttackIntervalMs >= s.attack.cooldownMs && m.cooldownDutyBasisPoints <= 10_000
    ensures m.inRange <==> s.targetDistanceSquared <= Square(s.attack.range)
    ensures m.damagePerSecondMilli * s.attack.cooldownMs <= s.attack.damage * 1_000_000
  {
    CeilingBounds(s.targetHealth, s.attack.damage);
    CeilingBounds(m.requiredHits, s.attackerCount);
    TimesMonotone(m.requiredVolleys - 1, s.attack.cooldownMs, m.requiredVolleys - 1, m.effectiveAttackIntervalMs);
    TimesStep(m.requiredHits - 1, s.attack.damage);
    QuotientAtMost(s.attack.cooldownMs * 10_000, m.effectiveAttackIntervalMs, 10_000);
    QuotientBelow(s.attack.damage * 1_000_000, s.attack.cooldownMs);
    hide Quotient, Square;
  }

  lemma QuotientAtMost(a: nat, b: nat, c: nat)
    requires b > 0 && a <= b * c
    ensures Quotient(a, b) <= c
  {
    if a / b > c {
      TimesMonotone(c + 1, b, a / b, b);
      assert Times(a / b, b) <= a;
      TimesStep(c, b);
      TimesCommutes(b, c);
    }
  }

  lemma QuotientBelow(a: nat, b: nat)
    requires b > 0
    ensures Quotient(a, b) * b <= a
  {
  }

  /**
   * On a valid scenario the analysis overflows exactly when the effective time,
   * the duty product or the attack count does not fit its word; every other
   * checked step is safe.
   */
  lemma OverflowsExactly(s: Scenario)
    requires ValidateScenario(s).None? && DistanceFits(s)
    ensures var hits := DivCeil(s.targetHealth, s.attack.damage);
      var volleys := DivCeil(hits, s.attackerCount);
      var interval := Max(Max(s.attack.cooldownMs, s.clientAttackIntervalMs), s.roundTripMs);
      var overflows := Times(volleys - 1, interval) > U64_MAX
        || s.attack.cooldownMs * 10_000 > U64_MAX
        || HostileAttacksForHits(hits, s.pressure).Err?;
      AnalyzeScenario(s) == Err(ArithmeticOverflow) <==> overflows
    ensures AnalyzeScenario(s).Err? ==> AnalyzeScenario(s).error == ArithmeticOverflow
  {
    WordProducts();
    var hits := DivCeil(s.targetHealth, s.attack.damage);
    var volleys := DivCeil(hits, s.attackerCount);
    var interval := Max(Max(s.attack.cooldownMs, s.clientAttackIntervalMs), s.roundTripMs);
    CeilingBounds(s.targetHealth, s.attack.damage);
    CeilingBounds(hits, s.attackerCount);
    TimesMonotone(volleys - 1, s.attack.cooldownMs, volleys - 1, interval);
    TimesMonotone(hits, s.attack.damage, U32_MAX, U32_MAX);
    var hostile := HostileAttacksForHits(hits, s.pressure);
    if hostile.Ok? {
      TimesMonotone(hostile.value, s.pressure.damage, U32_MAX, U32_MAX);
    }
  }
}

module CombatRuntime {
  import opened Wrappers
  import opened MachineWords
  import opened Actors
  import opened CombatAnalysis

  datatype CombatError = ActorNotFound | InvalidTarget | OutOfRange | CooldownActive
  datatype DamageResult = DamageResult(damage: nat, remainingHealth: nat, killed: bool)

  /** One call of `attack`. */
  datatype Call = Call(attacker: nat, target: nat, at: nat)

  datatype Field = Field(readyAt: map<nat, nat>, actors: ActorMap)

  /** The first check that rejects a call, if any. */
  function Rejection(field: Field, call: Call, profile: AttackProfile): Option<CombatError> {
    if call.attacker !in field.actors || call.target !in field.actors then Some(ActorNotFound)
    else
      var attacker, target := field.actors[call.attacker], field.actors[call.target];
      if attacker.kind != Player || attacker.health == 0 || target.kind != Enemy || target.health == 0 then
        Some(InvalidTarget)
      else if DistanceSquared(attacker.position, target.position) > Square(profile.range) then
        Some(OutOfRange)
      else if call.attacker in field.readyAt && call.at < field.readyAt[call.attacker] then
        Some(CooldownActive)
      else None
  }

  /** An accepted call starts the attacker's cooldown and damages the target. */
  function Struck(field: Field, call: Call, profile: AttackProfile): Field {
    if Rejection(field, call, profile).Some? then field
    else Field(
      field.readyAt[call.attacker := SaturatingAdd(call.at, profile.cooldownMs)],
      Damaged(field.actors, call.target, profile.damage))
  }

  class Runtime {
    var readyAt: map<nat, nat>

    constructor ()
      ensures readyAt == map[]
    {
      readyAt := map[];
    }

    method Attack(registry: ActorRegistry, call: Call, profile: AttackProfile)
      returns (r: Result<DamageResult, CombatError>)
      modifies this, registry
      ensures Field(readyAt, registry.actors) == Struck(Field(old(readyAt), old(registry.actors)), call, profile)
      ensures match Rejection(Field(old(readyAt), old(registry.actors)), call, profile)
        case Some(error) => r == Err(error)
        case None =>
          && call.target in registry.actors
          && var health := registry.actors[call.target].health;
             r == Ok(DamageResult(profile.damage, health, health == 0))
    {
      if call.attacker !in registry.actors {
        return Err(ActorNotFound);
      }
      var attacker := registry.actors[call.attacker];
      if call.target !in registry.actors {
        return Err(ActorNotFound);
      }
      var target := registry.actors[call.target];
      if attacker.kind != Player || attacker.health == 0 || target.kind != Enemy || target.health == 0 {
        return Err(InvalidTarget);
      }
      var distanceSquared := DistanceSquared(attacker.position, target.position);
      if distanceSquared > Square(profile.range) {
        return Err(OutOfRange);
      }
      if call.attacker in readyAt && call.at < readyAt[call.attacker] {
        return Err(CooldownActive);
      }
      readyAt := readyAt[call.attacker := SaturatingAdd(call.at, profile.cooldownMs)];
      var damaged := registry.ApplyDamage(call.target, profile.damage);
      var health := damaged.value.health;
      r := Ok(DamageResult(profile.damage, health, health == 0));
    }
  }

  // ----- runs of calls -----

  function After(field: Field, calls: seq<Call>, profile: AttackProfile): Field {
    if calls == [] then field
    else Struck(After(field, calls[..|calls| - 1], profile), calls[|calls| - 1], profile)
  }

  /** The accepted calls on `target`, in order. */
  function Hits(field: Field, calls: seq<Call>, profile: AttackProfile, target: nat): seq<Call> {
    if calls == [] then []
    else
      var front, last := calls[..|calls| - 1], calls[|calls| - 1];
      Hits(field, front, profile, target) +
      (if last.target == target && Rejection(After(field, front, profile), last, profile).None? then [last] else [])
  }

  ghost predicate Chronological(calls: seq<Call>) {
    forall i, j :: 0 <= i < j < |calls| ==> calls[i].at <= calls[j].at
  }

  /** No cooldown of the run saturates. */
  ghost predicate ClockFits(calls: seq<Call>, profile: AttackProfile) {
    forall c :: c in calls ==> c.at + profile.cooldownMs <= U64_MAX
  }

  function CountBy(hits: seq<Call>, attacker: nat): nat {
    if hits == [] then 0
    else CountBy(hits[..|hits| - 1], attacker) + (if hits[|hits| - 1].attacker == attacker then 1 else 0)
  }

  ghost predicate Enemies(field: Field, target: nat) {
    target in field.actors && field.actors[target].kind == Enemy
  }

  /** Every hit takes the profile's damage, and nothing else touches the target. */
  lemma {:induction false} HealthAfterHits(field: Field, calls: seq<Call>, profile: AttackProfile, target: nat)
    requires Enemies(field, target)
    ensures var after := After(field, calls, profile);
      && Enemies(after, target)
      && after.actors[target].health == SaturatingSub(field.actors[target].health, Times(|Hits(field, calls, profile, target)|, profile.damage))
    ensures |Hits(field, calls, profile, target)| > 0 ==>
      Times(|Hits(field, calls, profile, target)| - 1, profile.damage) < field.actors[target].health
  {
    hide Times, DistanceSquared, Square;
    TimesStep(0, profile.damage);
    if calls != [] {
      var front, last := calls[..|calls| - 1], calls[|calls| - 1];
      HealthAfterHits(field, front, profile, target);
      TimesStep(|Hits(field, front, profile, target)|, profile.damage);
    }
  }

  /** Every hit is one of the calls. */
  lemma {:induction false} HitsAreCalls(field: Field, calls: seq<Call>, profile: AttackProfile, target: nat)
    ensures forall h :: h in Hits(field, calls, profile, target) ==> h in calls && h.target == target
  {
    if calls != [] {
      HitsAreCalls(field, calls[..|calls| - 1], profile, target);
    }
  }

  /** The spacing facts about one attacker after a run. */
  ghost predicate Spaced(after: Field, hits: seq<Call>, cooldown: nat, attacker: nat) {
    var count := CountBy(hits, attacker);
    count > 0 ==>
      && hits != []
      && attacker in after.readyAt
      && hits[0].at + Times(count, cooldown) <= after.readyAt[attacker]
      && hits[0].at + Times(count - 1, cooldown) <= hits[|hits| - 1].at
  }

  /** One more call keeps the spacing. */
  lemma SpacingStep(before: Field, hits: seq<Call>, profile: AttackProfile, target: nat, attacker: nat, last: Call)
    requires Spaced(before, hits, profile.cooldownMs, attacker)
    requires hits != [] ==> hits[0].at <= last.at && hits[|hits| - 1].at <= last.at
    requires last.at + profile.cooldownMs <= U64_MAX
    ensures var accepted := last.target == target && Rejection(before, last, profile).None?;
      Spaced(Struck(before, last, profile), if accepted then hits + [last] else hits, profile.cooldownMs, attacker)
  {
    hide Times, DistanceSquared, Square;
    var count := CountBy(hits, attacker);
    assert hits == [] ==> count == 0;
    TimesStep(count, profile.cooldownMs);
    TimesStep(0, profile.cooldownMs);
    CountAppended(hits, last, attacker);
    if count > 0 {
      TimesStep(count - 1, profile.cooldownMs);
    }
  }

  /** The c-th hit of one attacker comes at least c - 1 cooldowns after the first hit of all. */
  lemma {:induction false} AttackersAreSpaced(field: Field, calls: seq<Call>, profile: AttackProfile, target: nat,
      attacker: nat)
    requires Chronological(calls) && ClockFits(calls, profile)
    ensures Spaced(After(field, calls, profile), Hits(field, calls, profile, target), profile.cooldownMs, attacker)
  {
    if calls != [] {
      var front, last := calls[..|calls| - 1], calls[|calls| - 1];
      AttackersAreSpaced(field, front, profile, target, attacker);
      var before := After(field, front, profile);
      var hits := Hits(field, front, profile, target);
      HitsAreCalls(field, front, profile, target);
      assert last in calls;
      forall h | h in hits ensures h.at <= last.at {
        var k :| 0 <= k < |front| && front[k] == h;
        assert calls[k].at <= calls[|calls| - 1].at;
      }
      hide Times, Spaced, Rejection, Struck;
      SpacingStep(before, hits, profile, target, attacker, last);
      assert hits + [] == hits;
    }
  }

  /** Each attacker with a hit cools down past it. */
  ghost predicate CoolsDown(after: Field, hits: seq<Call>, cooldown: nat) {
    forall i :: 0 <= i < |hits| ==>
      hits[i].attacker in after.readyAt && hits[i].at + cooldown <= after.readyAt[hits[i].attacker]
  }

  ghost predicate PairwiseSpaced(hits: seq<Call>, cooldown: nat) {
    forall i, j :: 0 <= i < j < |hits| && hits[i].attacker == hits[j].attacker ==> hits[i].at + cooldown <= hits[j].at
  }

  /** Over any run of calls, in any order, one attacker's hits are pairwise a cooldown apart. */
  lemma {:induction false} HitsAreSpaced(field: Field, calls: seq<Call>, profile: AttackProfile, target: nat)
    requires ClockFits(calls, profile)
    ensures PairwiseSpaced(Hits(field, calls, profile, target), profile.cooldownMs)
    ensures CoolsDown(After(field, calls, profile), Hits(field, calls, profile, target), profile.cooldownMs)
  {
    hide DistanceSquared, Square;
    if calls != [] {
      HitsAreSpaced(field, calls[..|calls| - 1], profile, target);
      assert calls[|calls| - 1] in calls;
    }
  }

  function Without(hits: seq<Call>, attacker: nat): seq<Call> {
    if hits == [] then []
    else
      Without(hits[..|hits| - 1], attacker) +
      (if hits[|hits| - 1].attacker == attacker then [] else [hits[|hits| - 1]])
  }

  lemma CountAppended(hits: seq<Call>, hit: Call, attacker: nat)
    ensures CountBy(hits + [hit], attacker) == CountBy(hits, attacker) + (if hit.attacker == attacker then 1 else 0)
  {
    assert (hits + [hit])[..|hits|] == hits;
  }

  lemma {:induction false} WithoutCounts(hits: seq<Call>, attacker: nat)
    ensures |hits| == |Without(hits, attacker)| + CountBy(hits, attacker)
    ensures forall b :: b != attacker ==> CountBy(Without(hits, attacker), b) == CountBy(hits, b)
    ensures forall h :: h in Without(hits, attacker) ==> h in hits && h.attacker != attacker
  {
    if hits != [] {
      var front, last := hits[..|hits| - 1], hits[|hits| - 1];
      WithoutCounts(front, attacker);
      if last.attacker == attacker {
        assert Without(hits, attacker) == Without(front, attacker);
      } else {
        forall b | b != attacker ensures CountBy(Without(hits, attacker), b) == CountBy(hits, b) {
          CountAppended(Without(front, attacker), last, b);
        }
      }
    }
  }

  /** If no attacker of the group lands more than `most` hits, the group lands at most `most` each. */
  lemma {:induction false} GroupTotal(hits: seq<Call>, attackers: set<nat>, most: nat)
    requires forall h :: h in hits ==> h.attacker in attackers
    requires forall a :: a in attackers ==> CountBy(hits, a) <= most
    ensures |hits| <= Times(|attackers|, most)
    decreases attackers
  {
    if hits != [] {
      assert hits[0] in hits;
      var a := hits[0].attacker;
      var others := attackers - {a};
      hide Times;
      WithoutCounts(hits, a);
      GroupTotal(Without(hits, a), others, most);
      assert |attackers| == |others| + 1;
      TimesStep(|others|, most);
    }
  }

  /** The scenario the analysis is asked about, for a run against `target`. */
  ghost predicate Describes(s: Scenario, field: Field, profile: AttackProfile, target: nat, attackers: set<nat>) {
    && s.attack == profile
    && Enemies(field, target) && field.actors[target].health == s.targetHealth
    && |attackers| == s.attackerCount
  }

  /**
   * No group can beat the closed form. In every chronological run of calls, if
   * the hits on the target come from the scenario's attackers and the target
   * ends dead, then it took exactly `requiredHits` hits and at least
   * `theoreticalTtkMs` from the first hit to the last.
   */
  lemma TimeToDefeatIsOptimal(s: Scenario, m: Metrics, field: Field, calls: seq<Call>, target: nat, attackers: set<nat>)
    requires AnalyzeScenario(s) == Ok(m) && Describes(s, field, s.attack, target, attackers)
    requires Chronological(calls) && ClockFits(calls, s.attack)
    requires forall h :: h in Hits(field, calls, s.attack, target) ==> h.attacker in attackers
    requires target in After(field, calls, s.attack).actors && After(field, calls, s.attack).actors[target].health == 0
    ensures var hits := Hits(field, calls, s.attack, target);
      && |hits| == m.requiredHits && |hits| > 0
      && hits[0].at + m.theoreticalTtkMs <= hits[|hits| - 1].at
  {
    hide Times, DistanceSquared, Square, DivCeil, Rejection, Spaced, CountBy, After, Hits;
    KillTakesRequiredHits(s, m, field, calls, target);
    var hits := Hits(field, calls, s.attack, target);
    CeilingBounds(s.targetHealth, s.attack.damage);
    CeilingBounds(m.requiredHits, s.attackerCount);
    if hits[|hits| - 1].at < hits[0].at + m.theoreticalTtkMs {
      var most := m.requiredVolleys - 1;
      forall a | a in attackers ensures CountBy(hits, a) <= most {
        AttackersAreSpaced(field, calls, s.attack, target, a);
        FewHitsInTime(After(field, calls, s.attack), hits, s.attack.cooldownMs, a, most);
      }
      GroupTotal(hits, attackers, most);
      TimesCommutes(|attackers|, most);
    }
  }

  lemma FewHitsInTime(after: Field, hits: seq<Call>, cooldown: nat, attacker: nat, most: nat)
    requires hits != [] && Spaced(after, hits, cooldown, attacker)
    requires hits[|hits| - 1].at < hits[0].at + Times(most, cooldown)
    ensures CountBy(hits, attacker) <= most
  {
    hide Times;
    var count := CountBy(hits, attacker);
    if count > most {
      TimesMonotone(most, cooldown, count - 1, cooldown);
    }
  }

  /** Killing takes exactly the closed form's number of hits, whoever fires. */
  lemma KillTakesRequiredHits(s: Scenario, m: Metrics, field: Field, calls: seq<Call>, target: nat)
    requires AnalyzeScenario(s) == Ok(m)
    requires Enemies(field, target) && field.actors[target].health == s.targetHealth
    requires target in After(field, calls, s.attack).actors && After(field, calls, s.attack).actors[target].health == 0
    ensures |Hits(field, calls, s.attack, target)| == m.requiredHits
  {
    hide Times, DistanceSquared, Square, DivCeil;
    HealthAfterHits(field, calls, s.attack, target);
    CeilingBounds(s.targetHealth, s.attack.damage);
    SameQuotient(|Hits(field, calls, s.attack, target)|, m.requiredHits, s.attack.damage, s.targetHealth);
  }

  lemma SameQuotient(a: nat, b: nat, d: nat, health: nat)
    requires d > 0 && health > 0 && b > 0
    requires Times(a, d) >= health && (a > 0 ==> Times(a - 1, d) < health)
    requires Times(b, d) >= health && Times(b - 1, d) < health
    ensures a == b
  {
    if a < b {
      TimesMonotone(a, d, b - 1, d);
    } else if b < a {
      TimesMonotone(b, d, a - 1, d);
    }
  }

  // ----- the volley schedule attains the bound -----

  /** Everyone fires once per cooldown, in a fixed order. */
  function Row(j: nat, n: nat): nat
    requires n > 0
  {
    j / n
  }

  function Slot(j: nat, n: nat): (k: nat)
    requires n > 0
    ensures k < n
  {
    j % n
  }

  function VolleyCall(ids: seq<nat>, target: nat, start: nat, cooldown: nat, j: nat): Call
    requires |ids| > 0
  {
    Call(ids[Slot(j, |ids|)], target, start + Times(Row(j, |ids|), cooldown))
  }

  function Volleys(ids: seq<nat>, target: nat, start: nat, cooldown: nat, count: nat): seq<Call>
    requires |ids| > 0
  {
    if count == 0 then []
    else Volleys(ids, target, start, cooldown, count - 1) + [VolleyCall(ids, target, start, cooldown, count - 1)]
  }

  ghost predicate InLine(field: Field, id: nat, target: nat, profile: AttackProfile) {
    && id in field.actors && field.actors[id].kind == Player && field.actors[id].health > 0
    && target in field.actors && field.actors[target].kind == Enemy
    && DistanceSquared(field.actors[id].position, field.actors[target].position) <= Square(profile.range)
  }

  ghost predicate FiringLine(field: Field, ids: seq<nat>, target: nat, profile: AttackProfile) {
    && |ids| > 0 && Enemies(field, target)
    && (forall i, j :: 0 <= i < j < |ids| ==> ids[i] != ids[j])
    && forall i :: 0 <= i < |ids| ==> InLine(field, ids[i], target, profile)
  }

  ghost predicate ReadyBy(field: Field, id: nat, time: nat) {
    id in field.readyAt ==> field.readyAt[id] <= time
  }

  /** Everyone is ready at the volley they fire in next. */
  ghost predicate LineReady(field: Field, ids: seq<nat>, start: nat, cooldown: nat, volley: nat, fired: nat) {
    forall i :: 0 <= i < |ids| ==>
      ReadyBy(field, ids[i], start + Times(if i < fired then volley + 1 else volley, cooldown))
  }

  lemma NextSlot(j: nat, n: nat)
    requires n > 0
    ensures Row(0, n) == 0 && Slot(0, n) == 0
    ensures Slot(j, n) + 1 < n ==> Row(j + 1, n) == Row(j, n) && Slot(j + 1, n) == Slot(j, n) + 1
    ensures Slot(j, n) + 1 == n ==> Row(j + 1, n) == Row(j, n) + 1 && Slot(j + 1, n) == 0
  {
    var q, r := j / n, j % n;
    assert j == Times(q, n) + r;
    TimesStep(q, n);
    UniqueDivMod(0, n, 0, 0);
    if r + 1 < n {
      UniqueDivMod(j + 1, n, q, r + 1);
    } else {
      UniqueDivMod(j + 1, n, q + 1, 0);
    }
  }

  /** One accepted volley call. */
  lemma VolleyCallHits(field: Field, ids: seq<nat>, target: nat, start: nat, profile: AttackProfile, volley: nat,
      fired: nat)
    requires FiringLine(field, ids, target, profile) && fired < |ids|
    requires LineReady(field, ids, start, profile.cooldownMs, volley, fired)
    requires field.actors[target].health > 0
    ensures var call := Call(ids[fired], target, start + Times(volley, profile.cooldownMs));
      var after := Struck(field, call, profile);
      && Rejection(field, call, profile).None?
      && FiringLine(after, ids, target, profile)
      && after.actors[target].health == SaturatingSub(field.actors[target].health, profile.damage)
      && (if fired + 1 < |ids| then LineReady(after, ids, start, profile.cooldownMs, volley, fired + 1)
          else LineReady(after, ids, start, profile.cooldownMs, volley + 1, 0))
  {
    hide Times, DistanceSquared, Square;
    TimesStep(volley, profile.cooldownMs);
    var call := Call(ids[fired], target, start + Times(volley, profile.cooldownMs));
    assert InLine(field, ids[fired], target, profile);
    var after := Struck(field, call, profile);
    forall i | 0 <= i < |ids| ensures InLine(after, ids[i], target, profile) {
      assert InLine(field, ids[i], target, profile);
    }
  }

  ghost predicate VolleyOutcome(field: Field, ids: seq<nat>, target: nat, start: nat, profile: AttackProfile,
      count: nat)
    requires |ids| > 0 && Enemies(field, target)
  {
    var calls := Volleys(ids, target, start, profile.cooldownMs, count);
    var after := After(field, calls, profile);
    && Hits(field, calls, profile, target) == calls && |calls| == count
    && FiringLine(after, ids, target, profile)
    && after.actors[target].health == SaturatingSub(field.actors[target].health, Times(count, profile.damage))
    && LineReady(after, ids, start, profile.cooldownMs, Row(count, |ids|), Slot(count, |ids|))
  }

  /** After `count` volley calls: all were hits, and the attackers already fired
      in this volley cool down until the next one. */
  lemma {:induction false} VolleysHit(field: Field, ids: seq<nat>, target: nat, start: nat, profile: AttackProfile,
      count: nat)
    requires FiringLine(field, ids, target, profile)
    requires LineReady(field, ids, start, profile.cooldownMs, 0, 0)
    requires forall k :: 0 <= k < count ==> Times(k, profile.damage) < field.actors[target].health
    ensures VolleyOutcome(field, ids, target, start, profile, count)
  {
    hide Times, Row, Slot, DistanceSquared, Square, InLine, Rejection, LineReady;
    var cooldown := profile.cooldownMs;
    if count == 0 {
      NextSlot(0, |ids|);
      TimesStep(0, profile.damage);
    } else {
      var j := count - 1;
      TimesStep(j, profile.damage);
      VolleysHit(field, ids, target, start, profile, j);
      var front := Volleys(ids, target, start, cooldown, j);
      var call := VolleyCall(ids, target, start, cooldown, j);
      var calls := Volleys(ids, target, start, cooldown, count);
      assert calls == front + [call] && calls[..|calls| - 1] == front;
      VolleyCallHits(After(field, front, profile), ids, target, start, profile, Row(j, |ids|), Slot(j, |ids|));
      NextSlot(j, |ids|);
    }
  }

  /** The volley schedule kills on its last hit and no earlier, `elapsed` after its first. */
  ghost predicate Attained(field: Field, ids: seq<nat>, target: nat, start: nat, profile: AttackProfile, hits: nat,
      elapsed: nat)
  {
    && |ids| > 0 && hits > 0 && Enemies(field, target)
    && VolleyOutcome(field, ids, target, start, profile, hits)
    && VolleyOutcome(field, ids, target, start, profile, hits - 1)
    && var calls := Volleys(ids, target, start, profile.cooldownMs, hits);
       && |calls| == hits && calls[..hits - 1] == Volleys(ids, target, start, profile.cooldownMs, hits - 1)
       && calls[0].at == start && calls[hits - 1].at == start + elapsed
       && After(field, calls, profile).actors[target].health == 0
       && After(field, calls[..hits - 1], profile).actors[target].health > 0
  }

  lemma ScheduleKills(field: Field, ids: seq<nat>, target: nat, start: nat, profile: AttackProfile, hits: nat)
    requires FiringLine(field, ids, target, profile) && LineReady(field, ids, start, profile.cooldownMs, 0, 0)
    requires hits > 0 && Times(hits - 1, profile.damage) < field.actors[target].health <= Times(hits, profile.damage)
    ensures Attained(field, ids, target, start, profile, hits, Times(Row(hits - 1, |ids|), profile.cooldownMs))
  {
    hide Times, Row, Slot, DistanceSquared, Square, InLine, LineReady, After, Hits;
    forall k | 0 <= k < hits ensures Times(k, profile.damage) < field.actors[target].health {
      TimesMonotone(k, profile.damage, hits - 1, profile.damage);
    }
    VolleysHit(field, ids, target, start, profile, hits);
    VolleysHit(field, ids, target, start, profile, hits - 1);
    VolleysBegin(ids, target, start, profile.cooldownMs, hits);
  }

  /**
   * The closed form is attained: volleys every cooldown kill the target on hit
   * `requiredHits` and no earlier, exactly `theoreticalTtkMs` after the first hit.
   */
  lemma VolleysAttain(s: Scenario, m: Metrics, field: Field, ids: seq<nat>, target: nat, start: nat)
    requires AnalyzeScenario(s) == Ok(m) && |ids| == s.attackerCount
    requires FiringLine(field, ids, target, s.attack) && Enemies(field, target) && field.actors[target].health == s.targetHealth
    requires forall i :: 0 <= i < |ids| ==> ReadyBy(field, ids[i], start)
    ensures Attained(field, ids, target, start, s.attack, m.requiredHits, m.theoreticalTtkMs)
  {
    hide Times, Row, FiringLine, DivCeil, Attained;
    CeilingBounds(s.targetHealth, s.attack.damage);
    CeilingBounds(m.requiredHits, s.attackerCount);
    TimesStep(0, s.attack.cooldownMs);
    LastVolley(m.requiredHits, s.attackerCount);
    ScheduleKills(field, ids, target, start, s.attack, m.requiredHits);
  }

  lemma LastVolley(count: nat, n: nat)
    requires count > 0 && n > 0
    ensures Row(count - 1, n) == DivCeil(count, n) - 1
  {
    NextSlot(count - 1, n);
  }

  lemma {:induction false} VolleysBegin(ids: seq<nat>, target: nat, start: nat, cooldown: nat, count: nat)
    requires |ids| > 0 && count > 0
    ensures var calls := Volleys(ids, target, start, cooldown, count);
      && |calls| == count && calls[0].at == start
      && calls[count - 1].at == start + Times(Row(count - 1, |ids|), cooldown)
      && calls[..count - 1] == Volleys(ids, target, start, cooldown, count - 1)
  {
    hide Times, Row, Slot;
    if count > 1 {
      VolleysBegin(ids, target, start, cooldown, count - 1);
    } else {
      NextSlot(0, |ids|);
      TimesStep(0, cooldown);
    }
  }
}
