// The combat runtime and the enemy controller joined: players shoot an enemy
// whose controller hears of every hit the enemy survives.

module PressureDuels {
  import opened Wrappers
  import opened MachineWords
  import opened Actors
  import opened CombatAnalysis
  import CombatRuntime
  import opened AiController
  import opened AiPressure

  type Call = CombatRuntime.Call
  type Field = CombatRuntime.Field

  datatype Move = Fired(call: Call) | Placed(actor: nat, position: Position)

  /** The fight so far: hits accepted on the enemy, and whom each counterattack was aimed at. */
  datatype Duel = Duel(field: Field, brain: Brain, hits: nat, countered: seq<nat>)

  predicate Lands(d: Duel, call: Call, profile: AttackProfile, enemy: nat) {
    call.target == enemy && CombatRuntime.Rejection(d.field, call, profile).None?
  }

  /** The attack is resolved first; a hit the enemy survives is reported with its attacker, the killing one is not. */
  function Fire(d: Duel, call: Call, profile: AttackProfile, enemy: nat): Duel {
    var field := CombatRuntime.Struck(d.field, call, profile);
    if !Lands(d, call, profile, enemy) then d.(field := field)
    else if field.actors[enemy].health == 0 then Duel(field, d.brain, d.hits + 1, d.countered)
    else
      var brain := HitBrain(d.brain);
      Duel(field.(actors := HitActors(d.brain, field.actors, enemy, Some(call.attacker)).0), brain, d.hits + 1,
           if brain.counterattacks > d.brain.counterattacks then d.countered + [call.attacker] else d.countered)
  }

  function Make(d: Duel, move: Move, profile: AttackProfile, enemy: nat): Duel {
    match move
    case Fired(call) => Fire(d, call, profile, enemy)
    case Placed(actor, position) =>
      if actor in d.field.actors
      then d.(field := d.field.(actors := d.field.actors[actor := d.field.actors[actor].(position := position)]))
      else d
  }

  function Fight(d: Duel, moves: seq<Move>, profile: AttackProfile, enemy: nat): Duel {
    if moves == [] then d else Make(Fight(d, moves[..|moves| - 1], profile, enemy), moves[|moves| - 1], profile, enemy)
  }

  function Aimed(targets: seq<nat>, player: nat): nat {
    if targets == [] then 0
    else Aimed(targets[..|targets| - 1], player) + (if targets[|targets| - 1] == player then 1 else 0)
  }

  lemma AimedSnoc(targets: seq<nat>, last: nat, player: nat)
    ensures Aimed(targets + [last], player) == Aimed(targets, player) + (if last == player then 1 else 0)
  {
    assert (targets + [last])[..|targets|] == targets;
  }

  predicate IsPlayer(actors: ActorMap, id: nat) {
    id in actors && actors[id].kind == Player
  }

  /** Hits the controller has heard of: all, but for the killing one. */
  function Reported(d: Duel, enemy: nat): nat
    requires enemy in d.field.actors
  {
    if d.field.actors[enemy].health == 0 then SaturatingSub(d.hits, 1) else d.hits
  }

  /** The enemy's health by the hits, whatever the rest. */
  ghost predicate EnemyKept(d: Duel, damage: nat, enemy: nat, health: nat) {
    && enemy in d.field.actors && d.field.actors[enemy].kind == Enemy
    && d.field.actors[enemy].health == SaturatingSub(health, Times(d.hits, damage))
    && (d.hits > 0 ==> Times(d.hits - 1, damage) < health)
  }

  ghost predicate BrainKept(d: Duel, pressure: PressureProfile, enemy: nat)
    requires enemy in d.field.actors
  {
    && d.brain.pressure == pressure && PressureReady(d.brain) && d.brain.initialAttacks == pressure.initialAttacks
    && d.brain.acceptedHits == Reported(d, enemy)
    && d.brain.counterattacks == Counterattacks(pressure, d.brain.acceptedHits) == |d.countered|
  }

  /** Players lose what was aimed at them, and nothing else. */
  ghost predicate PlayersKept(d: Duel, pressure: PressureProfile, actors: ActorMap) {
    forall id :: IsPlayer(actors, id) ==>
      && IsPlayer(d.field.actors, id)
      && d.field.actors[id].health == SaturatingSub(actors[id].health, Times(Aimed(d.countered, id), pressure.damage))
  }

  ghost predicate DuelKept(d: Duel, s: Scenario, enemy: nat, actors: ActorMap) {
    && EnemyKept(d, s.attack.damage, enemy, s.targetHealth)
    && BrainKept(d, s.pressure, enemy)
    && PlayersKept(d, s.pressure, actors)
  }

  lemma FireKeepsEnemy(d: Duel, call: Call, profile: AttackProfile, enemy: nat, health: nat)
    requires EnemyKept(d, profile.damage, enemy, health)
    ensures EnemyKept(Fire(d, call, profile, enemy), profile.damage, enemy, health)
  {
    hide Times, DistanceSquared, Square, Counters, HitBrain;
    TimesStep(d.hits, profile.damage);
  }

  lemma AliveMeansFewHits(d: Duel, profile: AttackProfile, enemy: nat, health: U32)
    requires EnemyKept(d, profile.damage, enemy, health) && profile.damage > 0 && d.field.actors[enemy].health > 0
    ensures d.hits < U32_MAX
  {
    TimesGrows(d.hits, profile.damage);
  }

  lemma FireKeepsBrain(d: Duel, call: Call, s: Scenario, enemy: nat)
    requires EnemyKept(d, s.attack.damage, enemy, s.targetHealth) && s.attack.damage > 0
    requires BrainKept(d, s.pressure, enemy)
    ensures var after := Fire(d, call, s.attack, enemy);
      enemy in after.field.actors && BrainKept(after, s.pressure, enemy)
  {
    FireKeepsEnemy(d, call, s.attack, enemy, s.targetHealth);
    var after := Fire(d, call, s.attack, enemy);
    if Lands(d, call, s.attack, enemy) {
      AliveMeansFewHits(d, s.attack, enemy, s.targetHealth);
      if after.field.actors[enemy].health > 0 {
        AliveMeansFewHits(after, s.attack, enemy, s.targetHealth);
        HitCounts(d.brain);
      }
    }
    hide Times, DistanceSquared, Square, Counterattacks, EnemyKept;
  }

  lemma FireKeepsPlayers(d: Duel, call: Call, s: Scenario, enemy: nat, actors: ActorMap)
    requires EnemyKept(d, s.attack.damage, enemy, s.targetHealth) && BrainKept(d, s.pressure, enemy)
    requires PlayersKept(d, s.pressure, actors)
    ensures PlayersKept(Fire(d, call, s.attack, enemy), s.pressure, actors)
  {
    var after := Fire(d, call, s.attack, enemy);
    hide Times, DistanceSquared, Square, Counterattacks, Aimed;
    forall id | IsPlayer(actors, id)
      ensures IsPlayer(after.field.actors, id)
      ensures after.field.actors[id].health
        == SaturatingSub(actors[id].health, Times(Aimed(after.countered, id), s.pressure.damage))
    {
      AimedSnoc(d.countered, call.attacker, id);
      OneMoreAttack(actors[id].health, Aimed(d.countered, id), s.pressure.damage);
    }
  }

  lemma MoveKeeps(d: Duel, move: Move, s: Scenario, enemy: nat, actors: ActorMap)
    requires DuelKept(d, s, enemy, actors) && s.attack.damage > 0
    ensures DuelKept(Make(d, move, s.attack, enemy), s, enemy, actors)
  {
    match move
    case Fired(call) =>
      FireKeepsEnemy(d, call, s.attack, enemy, s.targetHealth);
      FireKeepsBrain(d, call, s, enemy);
      FireKeepsPlayers(d, call, s, enemy, actors);
      hide Fire, EnemyKept, BrainKept, PlayersKept;
    case Placed(_, _) =>
      hide Times, Counterattacks, Aimed;
  }

  lemma {:induction false} FightKeeps(d: Duel, moves: seq<Move>, s: Scenario, enemy: nat, actors: ActorMap)
    requires DuelKept(d, s, enemy, actors) && s.attack.damage > 0
    ensures DuelKept(Fight(d, moves, s.attack, enemy), s, enemy, actors)
  {
    if moves != [] {
      FightKeeps(d, moves[..|moves| - 1], s, enemy, actors);
      MoveKeeps(Fight(d, moves[..|moves| - 1], s.attack, enemy), moves[|moves| - 1], s, enemy, actors);
      hide DuelKept, Make;
    }
  }

  // ----- from a fresh controller -----

  /** The opening: no hits, and only the engaged player is attacked. */
  ghost predicate Opened(e: Engagement, actors: ActorMap, enemy: nat, player: nat) {
    && e.brain.acceptedHits == 0 && e.brain.counterattacks == 0
    && enemy in actors && enemy in e.actors
    && e.actors[enemy].health == actors[enemy].health && e.actors[enemy].kind == Enemy
    && forall id :: IsPlayer(actors, id) ==>
      && IsPlayer(e.actors, id)
      && (id != player ==> e.actors[id].health == actors[id].health)
  }

  lemma {:induction false} OpeningKeeps(pressure: PressureProfile, actors: ActorMap, enemy: nat, player: nat,
      turns: seq<Turn>)
    requires Facing(actors, enemy, player) && NoHits(turns)
    ensures Opened(Engage(pressure, actors, enemy, player, turns), actors, enemy, player)
  {
    if turns != [] {
      hide DistanceSquared, Square, StepToward;
      OpeningKeeps(pressure, actors, enemy, player, turns[..|turns| - 1]);
    }
  }

  /** The duel that starts where an opening left the actors, nobody cooling down. */
  function Begin(e: Engagement): Duel {
    Duel(CombatRuntime.Field(map[], e.actors), e.brain, 0, [])
  }

  lemma BeginIsKept(s: Scenario, e: Engagement, actors: ActorMap, enemy: nat, player: nat)
    requires Opened(e, actors, enemy, player) && actors[enemy].health == s.targetHealth > 0
    requires e.brain.pressure == s.pressure && PressureReady(e.brain)
    requires e.brain.initialAttacks <= s.pressure.initialAttacks
    ensures DuelKept(Begin(e), s, enemy, e.actors)
  {
    hide Times;
    NoHitsNoCounters(s.pressure);
    TimesStep(0, s.attack.damage);
    TimesStep(0, s.pressure.damage);
  }

  /** The attacks launched at a player over the whole fight. */
  function LaunchedAt(d: Duel, id: nat, player: nat): nat {
    (if id == player then d.brain.initialAttacks else 0) + Aimed(d.countered, id)
  }

  lemma SaturatedTwice(health: nat, a: nat, b: nat, damage: nat)
    ensures SaturatingSub(SaturatingSub(health, Times(a, damage)), Times(b, damage))
      == SaturatingSub(health, Times(a + b, damage))
  {
    assert Times(a + b, damage) == Times(a, damage) + Times(b, damage);
  }

  /** The scenario the analysis is asked about, with an opening that makes the pressure ready. */
  ghost predicate Opens(s: Scenario, actors: ActorMap, enemy: nat, player: nat, opening: seq<Turn>) {
    && Facing(actors, enemy, player) && actors[enemy].health == s.targetHealth
    && NoHits(opening) && PressureReady(Engage(s.pressure, actors, enemy, player, opening).brain)
  }

  /** The opening, then the moves. */
  function Fought(s: Scenario, actors: ActorMap, enemy: nat, player: nat, opening: seq<Turn>, moves: seq<Move>): Duel
    requires Facing(actors, enemy, player)
  {
    Fight(Begin(Engage(s.pressure, actors, enemy, player, opening)), moves, s.attack, enemy)
  }

  /** Every player has lost the attacks launched at it. */
  ghost predicate Lost(d: Duel, s: Scenario, actors: ActorMap, player: nat) {
    forall id :: IsPlayer(actors, id) ==>
      && IsPlayer(d.field.actors, id)
      && d.field.actors[id].health
        == SaturatingSub(actors[id].health, Times(LaunchedAt(d, id, player), s.pressure.damage))
  }

  ghost predicate AsAnalyzed(d: Duel, s: Scenario, m: Metrics) {
    && d.hits == m.requiredHits
    && d.brain.initialAttacks + |d.countered| == m.expectedHostileAttacks
    && Times(d.brain.initialAttacks + |d.countered|, s.pressure.damage) == m.expectedIncomingDamage
  }

  lemma PlayersLose(s: Scenario, e: Engagement, d: Duel, actors: ActorMap, enemy: nat, player: nat)
    requires Facing(actors, enemy, player) && Opened(e, actors, enemy, player)
    requires Accounts(e, s.pressure, enemy, player, actors[player].health) && PressureReady(e.brain)
    requires DuelKept(d, s, enemy, e.actors)
    ensures Lost(d, s, actors, player)
  {
    hide Times, Aimed, EnemyKept, Counterattacks;
    forall id | IsPlayer(actors, id)
      ensures IsPlayer(d.field.actors, id)
      ensures d.field.actors[id].health
        == SaturatingSub(actors[id].health, Times(LaunchedAt(d, id, player), s.pressure.damage))
    {
      SaturatedTwice(actors[id].health, s.pressure.initialAttacks, Aimed(d.countered, id), s.pressure.damage);
    }
  }

  lemma DeathMatchesAnalysis(s: Scenario, m: Metrics, d: Duel, enemy: nat, actors: ActorMap)
    requires AnalyzeScenario(s) == Ok(m) && DuelKept(d, s, enemy, actors) && d.field.actors[enemy].health == 0
    ensures AsAnalyzed(d, s, m)
  {
    hide Times, Quotient, Square, DivCeil, PlayersKept;
    CeilingBounds(s.targetHealth, s.attack.damage);
    TimesStep(0, s.attack.damage);
    CombatRuntime.SameQuotient(d.hits, m.requiredHits, s.attack.damage, s.targetHealth);
  }

  /**
   * The whole fight. A fresh controller is ticked until its pressure is ready; then players shoot, in any
   * order and at any time, and every hit the enemy survives is reported. Over every such run each player's
   * health is its start less the attacks launched at it; and when the enemy dies it has taken exactly the
   * required hits, and has launched exactly the expected attacks, whose damage is the expected one.
   */
  lemma FightMatchesAnalysis(s: Scenario, m: Metrics, actors: ActorMap, enemy: nat, player: nat, opening: seq<Turn>,
      moves: seq<Move>)
    requires AnalyzeScenario(s) == Ok(m) && Opens(s, actors, enemy, player, opening)
    ensures var d := Fought(s, actors, enemy, player, opening, moves);
      && Lost(d, s, actors, player)
      && enemy in d.field.actors
      && (d.field.actors[enemy].health == 0 ==> AsAnalyzed(d, s, m))
  {
    assert s.attack.damage > 0 && s.targetHealth > 0;
    hide Fight, Engage, DuelKept, Times, AnalyzeScenario, Accounts, Opened, Facing, Lost, AsAnalyzed;
    var e := Engage(s.pressure, actors, enemy, player, opening);
    OpeningIsKept(s, actors, enemy, player, opening);
    FightKeeps(Begin(e), moves, s, enemy, e.actors);
    var d := Fight(Begin(e), moves, s.attack, enemy);
    PlayersLose(s, e, d, actors, enemy, player);
    EnemyIsThere(d, s, enemy, e.actors);
    if d.field.actors[enemy].health == 0 {
      DeathMatchesAnalysis(s, m, d, enemy, e.actors);
    }
  }

  lemma OpeningIsKept(s: Scenario, actors: ActorMap, enemy: nat, player: nat, opening: seq<Turn>)
    requires Opens(s, actors, enemy, player, opening) && s.targetHealth > 0
    ensures var e := Engage(s.pressure, actors, enemy, player, opening);
      && Accounts(e, s.pressure, enemy, player, actors[player].health)
      && Opened(e, actors, enemy, player)
      && DuelKept(Begin(e), s, enemy, e.actors)
  {
    EngagementsAccount(s.pressure, actors, enemy, player, opening);
    OpeningKeeps(s.pressure, actors, enemy, player, opening);
    hide Engage, Times, Counterattacks, DuelKept;
    BeginIsKept(s, Engage(s.pressure, actors, enemy, player, opening), actors, enemy, player);
  }

  lemma EnemyIsThere(d: Duel, s: Scenario, enemy: nat, actors: ActorMap)
    requires DuelKept(d, s, enemy, actors)
    ensures enemy in d.field.actors
    ensures d.field.actors[enemy].health == SaturatingSub(s.targetHealth, Times(d.hits, s.attack.damage))
  {
    hide PlayersKept, BrainKept;
  }

  // ----- a fight that is won -----

  lemma FightSnoc(d: Duel, moves: seq<Move>, move: Move, profile: AttackProfile, enemy: nat)
    ensures Fight(d, moves + [move], profile, enemy) == Make(Fight(d, moves, profile, enemy), move, profile, enemy)
  {
    assert (moves + [move])[..|moves|] == moves;
    hide Make;
  }

  /** A player in range and ready by `time`, after `hits` hits. */
  ghost predicate Shooting(d: Duel, profile: AttackProfile, enemy: nat, player: nat, time: nat, hits: nat) {
    && d.hits == hits
    && CombatRuntime.ReadyBy(d.field, player, time)
    && (forall id :: id in d.countered ==> id == player)
    && enemy in d.field.actors && player in d.field.actors
    && DistanceSquared(d.field.actors[player].position, d.field.actors[enemy].position) <= Square(profile.range)
  }

  lemma QuotientMonotone(a: nat, b: nat, n: nat)
    requires a <= b && n > 0
    ensures a / n <= b / n
  {
    TimesStep(b / n, n);
    assert a == Times(a / n, n) + a % n && b == Times(b / n, n) + b % n;
    hide Times;
    if a / n > b / n {
      TimesMonotone(b / n + 1, n, a / n, n);
    }
  }

  lemma FewerHitsFewerCounters(pressure: PressureProfile, a: nat, b: nat)
    requires a <= b
    ensures Counterattacks(pressure, a) <= Counterattacks(pressure, b)
  {
    if pressure.acceptedHitsPerCounterattack > 0 {
      QuotientMonotone(a, b, pressure.acceptedHitsPerCounterattack);
    }
  }

  lemma {:induction false} AimedAtMost(targets: seq<nat>, player: nat)
    ensures Aimed(targets, player) <= |targets|
  {
    if targets != [] {
      AimedAtMost(targets[..|targets| - 1], player);
    }
  }

  /** Counterattacks launched before the last hit leave a player standing whose health is above them all. */
  lemma PlayerStands(d: Duel, s: Scenario, enemy: nat, actors: ActorMap, player: nat, required: nat)
    requires DuelKept(d, s, enemy, actors) && IsPlayer(actors, player) && d.hits < required
    requires Times(Counterattacks(s.pressure, required - 1), s.pressure.damage) < actors[player].health
    ensures IsPlayer(d.field.actors, player) && d.field.actors[player].health > 0
  {
    AimedAtMost(d.countered, player);
    FewerHitsFewerCounters(s.pressure, Reported(d, enemy), required - 1);
    TimesMonotone(
      Aimed(d.countered, player), s.pressure.damage, Counterattacks(s.pressure, required - 1), s.pressure.damage);
    hide Times, Counterattacks, Aimed, EnemyKept;
  }

  lemma EnemyStands(d: Duel, s: Scenario, enemy: nat, actors: ActorMap, required: nat)
    requires DuelKept(d, s, enemy, actors) && d.hits < required && Times(required - 1, s.attack.damage) < s.targetHealth
    ensures d.field.actors[enemy].health > 0
  {
    TimesMonotone(d.hits, s.attack.damage, required - 1, s.attack.damage);
    hide Times, PlayersKept, BrainKept;
  }

  lemma ShotLands(d: Duel, s: Scenario, enemy: nat, actors: ActorMap, player: nat, time: nat)
    requires DuelKept(d, s, enemy, actors) && IsPlayer(d.field.actors, player) && d.field.actors[player].health > 0
    requires d.field.actors[enemy].health > 0 && Shooting(d, s.attack, enemy, player, time, d.hits)
    ensures Shooting(Make(d, Fired(CombatRuntime.Call(player, enemy, time)), s.attack, enemy), s.attack, enemy, player,
      time + s.attack.cooldownMs, d.hits + 1)
  {
    hide Times, DistanceSquared, Square, PlayersKept, BrainKept, Counters;
    assert Lands(d, CombatRuntime.Call(player, enemy, time), s.attack, enemy);
  }

  /** `hits` shots, one every cooldown. */
  lemma ShotsLand(d: Duel, s: Scenario, enemy: nat, actors: ActorMap, player: nat, required: nat,
      hits: nat) returns (moves: seq<Move>)
    requires DuelKept(d, s, enemy, actors) && s.attack.damage > 0 && hits <= required && required > 0
    requires IsPlayer(actors, player) && Shooting(d, s.attack, enemy, player, 0, 0)
    requires Times(Counterattacks(s.pressure, required - 1), s.pressure.damage) < actors[player].health
    requires Times(required - 1, s.attack.damage) < s.targetHealth
    ensures DuelKept(Fight(d, moves, s.attack, enemy), s, enemy, actors)
    ensures Shooting(
      Fight(d, moves, s.attack, enemy), s.attack, enemy, player, Times(hits, s.attack.cooldownMs), hits)
  {
    hide Times, Counterattacks, DuelKept, Shooting, Make;
    TimesStep(0, s.attack.cooldownMs);
    moves := [];
    for k := 0 to hits
      invariant DuelKept(Fight(d, moves, s.attack, enemy), s, enemy, actors)
      invariant Shooting(Fight(d, moves, s.attack, enemy), s.attack, enemy, player, Times(k, s.attack.cooldownMs), k)
    {
      var f := Fight(d, moves, s.attack, enemy);
      var move := Fired(CombatRuntime.Call(player, enemy, Times(k, s.attack.cooldownMs)));
      HitsSoFar(f, s.attack, enemy, player, Times(k, s.attack.cooldownMs), k);
      PlayerStands(f, s, enemy, actors, player, required);
      EnemyStands(f, s, enemy, actors, required);
      ShotLands(f, s, enemy, actors, player, Times(k, s.attack.cooldownMs));
      MoveKeeps(f, move, s, enemy, actors);
      FightSnoc(d, moves, move, s.attack, enemy);
      TimesStep(k, s.attack.cooldownMs);
      moves := moves + [move];
    }
  }

  lemma HitsSoFar(d: Duel, profile: AttackProfile, enemy: nat, player: nat, time: nat, hits: nat)
    requires Shooting(d, profile, enemy, player, time, hits)
    ensures d.hits == hits && Aimed(d.countered, player) == |d.countered|
  {
    AllAimed(d.countered, player);
  }

  lemma {:induction false} AllAimed(targets: seq<nat>, player: nat)
    requires forall id :: id in targets ==> id == player
    ensures Aimed(targets, player) == |targets|
  {
    if targets != [] {
      var front, last := targets[..|targets| - 1], targets[|targets| - 1];
      assert targets == front + [last] && last in targets;
      assert forall id :: id in front ==> id in targets;
      AllAimed(front, player);
    }
  }

  /** Beside the enemy, in range of it, and with more health than the damage to come. */
  ghost predicate Confident(s: Scenario, m: Metrics, actors: ActorMap, enemy: nat, player: nat) {
    && Facing(actors, enemy, player) && actors[enemy].health == s.targetHealth
    && DistanceSquared(actors[enemy].position, actors[player].position) <= Square(ATTACK_RANGE)
    && DistanceSquared(actors[player].position, actors[enemy].position) <= Square(s.attack.range)
    && actors[player].health > m.expectedIncomingDamage
  }

  /** Ready to shoot, with enough health left for the counterattacks. */
  ghost predicate Prepared(d: Duel, s: Scenario, enemy: nat, player: nat, required: nat) {
    && DuelKept(d, s, enemy, d.field.actors) && IsPlayer(d.field.actors, player)
    && Shooting(d, s.attack, enemy, player, 0, 0)
    && required > 0
    && Times(Counterattacks(s.pressure, required - 1), s.pressure.damage) < d.field.actors[player].health
    && Times(required - 1, s.attack.damage) < s.targetHealth <= Times(required, s.attack.damage)
  }

  lemma OpeningLeaves(s: Scenario, m: Metrics, actors: ActorMap, enemy: nat, player: nat) returns (opening: seq<Turn>)
    requires AnalyzeScenario(s) == Ok(m) && Confident(s, m, actors, enemy, player)
    ensures Opens(s, actors, enemy, player, opening)
    ensures Prepared(Begin(Engage(s.pressure, actors, enemy, player, opening)), s, enemy, player, m.requiredHits)
  {
    assert s.targetHealth > 0 && s.attack.damage > 0;
    opening := LaunchesInitialAttacks(s.pressure, actors, enemy, player, s.pressure.initialAttacks);
    var e := Engage(s.pressure, actors, enemy, player, opening);
    hide Engage, Times, DistanceSquared, Square, Counterattacks, AnalyzeScenario, DivCeil, DuelKept;
    CeilingBounds(s.targetHealth, s.attack.damage);
    OpeningIsKept(s, actors, enemy, player, opening);
    ExpectedInParts(s, m);
  }

  lemma ExpectedInParts(s: Scenario, m: Metrics)
    requires AnalyzeScenario(s) == Ok(m)
    ensures m.requiredHits == DivCeil(s.targetHealth, s.attack.damage) && m.requiredHits > 0
    ensures m.expectedIncomingDamage
      == Times(s.pressure.initialAttacks, s.pressure.damage)
        + Times(Counterattacks(s.pressure, m.requiredHits - 1), s.pressure.damage)
  {
    CeilingBounds(s.targetHealth, s.attack.damage);
    var counters := Counterattacks(s.pressure, m.requiredHits - 1);
    assert m.expectedHostileAttacks == s.pressure.initialAttacks + counters;
    assert Times(s.pressure.initialAttacks + counters, s.pressure.damage)
      == Times(s.pressure.initialAttacks, s.pressure.damage) + Times(counters, s.pressure.damage);
  }

  lemma LoserOfAll(d: Duel, s: Scenario, m: Metrics, actors: ActorMap, player: nat)
    requires Lost(d, s, actors, player) && AsAnalyzed(d, s, m) && IsPlayer(actors, player)
    requires Aimed(d.countered, player) == |d.countered| && actors[player].health > m.expectedIncomingDamage
    ensures player in d.field.actors && d.field.actors[player].health == actors[player].health - m.expectedIncomingDamage
  {
    hide Times, Aimed;
  }

  /**
   * A lone player beside the enemy, in range of it and with more health than the expected damage, wins the fight,
   * and ends with exactly that damage taken.
   */
  lemma SurvivorWins(s: Scenario, m: Metrics, actors: ActorMap, enemy: nat, player: nat)
    returns (opening: seq<Turn>, moves: seq<Move>)
    requires AnalyzeScenario(s) == Ok(m) && Confident(s, m, actors, enemy, player)
    ensures Opens(s, actors, enemy, player, opening)
    ensures var d := Fought(s, actors, enemy, player, opening, moves);
      && enemy in d.field.actors && d.field.actors[enemy].health == 0
      && player in d.field.actors && d.field.actors[player].health == actors[player].health - m.expectedIncomingDamage
  {
    assert s.attack.damage > 0;
    assert IsPlayer(actors, player) && actors[player].health > m.expectedIncomingDamage;
    hide Times, Counterattacks, DistanceSquared, Square, AnalyzeScenario, Engage, Fight, Shooting, DuelKept;
    hide Opens, Confident, Lost, AsAnalyzed;
    opening := OpeningLeaves(s, m, actors, enemy, player);
    var start := Begin(Engage(s.pressure, actors, enemy, player, opening));
    moves := ShotsLand(start, s, enemy, start.field.actors, player, m.requiredHits, m.requiredHits);
    var d := Fight(start, moves, s.attack, enemy);
    HitsSoFar(d, s.attack, enemy, player, Times(m.requiredHits, s.attack.cooldownMs), m.requiredHits);
    EnemyIsThere(d, s, enemy, start.field.actors);
    FightMatchesAnalysis(s, m, actors, enemy, player, opening, moves);
    LoserOfAll(d, s, m, actors, player);
  }
}
