// The analysis' figures, each as the least, the greatest or the product it
// stands for.

module CombatFigures {
  import opened Wrappers
  import opened MachineWords
  import opened CombatAnalysis

  /** The least number of shares that covers an amount. */
  ghost predicate LeastCover(count: nat, share: nat, amount: nat) {
    amount <= Times(count, share) && (count > 0 ==> Times(count - 1, share) < amount)
  }

  /** The greatest number of whole parts in an amount. */
  ghost predicate WholeParts(count: nat, part: nat, amount: nat) {
    Times(count, part) <= amount < Times(count + 1, part)
  }

  lemma QuotientIsWhole(a: nat, b: nat)
    requires b > 0
    ensures WholeParts(Quotient(a, b), b, a)
  {
    assert a == Times(a / b, b) + a % b;
    TimesStep(a / b, b);
  }

  /** The slowest of three intervals. */
  ghost predicate SlowestOf(slowest: nat, a: nat, b: nat, c: nat) {
    a <= slowest && b <= slowest && c <= slowest && (slowest == a || slowest == b || slowest == c)
  }

  /** One counterattack for each whole interval of non-lethal hits, up to the maximum. */
  ghost predicate CountersFor(counters: nat, hits: nat, pressure: PressureProfile) {
    && counters <= pressure.maximumCounterattacks
    && Times(counters, pressure.acceptedHitsPerCounterattack) <= hits
    && (counters < pressure.maximumCounterattacks ==> hits < Times(counters + 1, pressure.acceptedHitsPerCounterattack))
  }

  lemma CountersFit(hits: nat, pressure: PressureProfile)
    requires pressure.maximumCounterattacks > 0 && pressure.acceptedHitsPerCounterattack > 0
    ensures CountersFor(
      Min(Quotient(hits, pressure.acceptedHitsPerCounterattack), pressure.maximumCounterattacks), hits, pressure)
  {
    hide Quotient, Times;
    var interval := pressure.acceptedHitsPerCounterattack;
    QuotientIsWhole(hits, interval);
    var counters := Min(Quotient(hits, interval), pressure.maximumCounterattacks);
    TimesMonotone(counters, interval, Quotient(hits, interval), interval);
  }

  /**
   * Whenever the analysis answers: hits are the least that cover the health,
   * volleys the least that cover the hits, overkill is what the hits deal
   * beyond the health, and the two times are one cooldown, or the slowest of the
   * three intervals, between volleys.
   */
  lemma KillFiguresAreExact(s: Scenario, m: Metrics)
    requires AnalyzeScenario(s) == Ok(m)
    ensures LeastCover(m.requiredHits, s.attack.damage, s.targetHealth)
    ensures LeastCover(m.requiredVolleys, s.attackerCount, m.requiredHits)
    ensures m.overkillDamage + s.targetHealth == Times(m.requiredHits, s.attack.damage)
    ensures m.requiredVolleys > 0 && m.theoreticalTtkMs == Times(m.requiredVolleys - 1, s.attack.cooldownMs)
    ensures SlowestOf(m.effectiveAttackIntervalMs, s.attack.cooldownMs, s.clientAttackIntervalMs, s.roundTripMs)
    ensures m.effectiveTtkMs == Times(m.requiredVolleys - 1, m.effectiveAttackIntervalMs)
  {
    FiguresByName(s, m);
    hide Times, DivCeil, Quotient, Square, AnalyzeScenario;
    CeilingBounds(s.targetHealth, s.attack.damage);
    CeilingBounds(m.requiredHits, s.attackerCount);
  }

  /** The rate and the duty are whole quotients, and the margin the difference of two squares. */
  lemma RateFiguresAreExact(s: Scenario, m: Metrics)
    requires AnalyzeScenario(s) == Ok(m)
    ensures WholeParts(m.damagePerSecondMilli, s.attack.cooldownMs, s.attack.damage * 1_000_000)
    ensures WholeParts(m.cooldownDutyBasisPoints, m.effectiveAttackIntervalMs, s.attack.cooldownMs * 10_000)
    ensures m.rangeMarginSquared == Times(Abs(s.attack.range), Abs(s.attack.range)) - s.targetDistanceSquared
    ensures m.inRange <==> m.rangeMarginSquared >= 0
  {
    FiguresByName(s, m);
    hide Times, DivCeil, Quotient, AnalyzeScenario, WholeParts;
    QuotientIsWhole(s.attack.damage * 1_000_000, s.attack.cooldownMs);
    QuotientIsWhole(s.attack.cooldownMs * 10_000, m.effectiveAttackIntervalMs);
  }

  /** The attacks expected are the initial ones and the counters of the non-lethal hits, each dealing the pressure's damage. */
  lemma PressureFiguresAreExact(s: Scenario, m: Metrics)
    requires AnalyzeScenario(s) == Ok(m)
    ensures m.requiredHits > 0 && m.expectedHostileAttacks >= s.pressure.initialAttacks
    ensures var counters := m.expectedHostileAttacks - s.pressure.initialAttacks;
      if s.pressure.maximumCounterattacks == 0 then counters == 0 else CountersFor(counters, m.requiredHits - 1, s.pressure)
    ensures m.expectedIncomingDamage == Times(m.expectedHostileAttacks, s.pressure.damage)
  {
    FiguresByName(s, m);
    hide Times, DivCeil, Quotient, Square, AnalyzeScenario, CountersFor;
    if s.pressure.maximumCounterattacks > 0 {
      CountersFit(m.requiredHits - 1, s.pressure);
    }
  }

  /** The figures as the code names them. */
  lemma FiguresByName(s: Scenario, m: Metrics)
    requires AnalyzeScenario(s) == Ok(m)
    ensures s.attack.damage > 0 && s.attack.cooldownMs > 0 && s.targetHealth > 0 && s.attackerCount > 0
    ensures s.pressure.maximumCounterattacks > 0 ==> s.pressure.acceptedHitsPerCounterattack > 0
    ensures m.requiredHits == DivCeil(s.targetHealth, s.attack.damage) && m.requiredHits > 0
    ensures m.requiredVolleys == DivCeil(m.requiredHits, s.attackerCount) && m.requiredVolleys > 0
    ensures m.effectiveAttackIntervalMs == Max(Max(s.attack.cooldownMs, s.clientAttackIntervalMs), s.roundTripMs)
    ensures m.theoreticalTtkMs == Times(m.requiredVolleys - 1, s.attack.cooldownMs)
    ensures m.effectiveTtkMs == Times(m.requiredVolleys - 1, m.effectiveAttackIntervalMs)
    ensures m.overkillDamage + s.targetHealth == Times(m.requiredHits, s.attack.damage)
    ensures m.damagePerSecondMilli == Quotient(s.attack.damage * 1_000_000, s.attack.cooldownMs)
    ensures m.cooldownDutyBasisPoints == Quotient(s.attack.cooldownMs * 10_000, m.effectiveAttackIntervalMs)
    ensures m.rangeMarginSquared == Square(s.attack.range) - s.targetDistanceSquared
    ensures m.inRange <==> m.rangeMarginSquared >= 0
    ensures m.expectedHostileAttacks == s.pressure.initialAttacks + (
      if s.pressure.maximumCounterattacks == 0 then 0
      else Min(Quotient(m.requiredHits - 1, s.pressure.acceptedHitsPerCounterattack), s.pressure.maximumCounterattacks))
    ensures m.expectedIncomingDamage == Times(m.expectedHostileAttacks, s.pressure.damage)
  {
    CeilingBounds(s.targetHealth, s.attack.damage);
    CeilingBounds(DivCeil(s.targetHealth, s.attack.damage), s.attackerCount);
    hide Times, DivCeil, Square;
  }

  /** A scenario is valid exactly when something attacks something, and any pressure it names can be put on. */
  lemma ValidExactly(s: Scenario)
    ensures ValidateScenario(s).None? <==>
      && s.attack.damage > 0 && s.attack.range >= 0 && s.attack.cooldownMs > 0
      && s.targetHealth > 0 && s.targetDistanceSquared >= 0 && s.attackerCount > 0
      && (s.pressure.initialAttacks > 0 ==> s.pressure.damage > 0)
      && (s.pressure.maximumCounterattacks > 0 ==>
            s.pressure.damage > 0 && s.pressure.acceptedHitsPerCounterattack > 0)
  {
  }
}
