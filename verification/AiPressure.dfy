// The shared enemy controller, and the pressure it puts on the players.

module AiController {
  import opened Wrappers
  import opened MachineWords
  import opened Actors
  import opened CombatAnalysis

  const DETECTION_RANGE: int := 12
  const ATTACK_RANGE: int := 2

  datatype AiState = Idle | Detect | Chase | Attack | Dead

  datatype AiEvent =
    | StateChanged(state: AiState)
    | Moved(actor: nat, position: Position)
    | Attacked(source: nat, target: nat, damage: nat, remainingHealth: nat, killed: bool)

  /** The controller's fields as a value. */
  datatype Brain = Brain(state: AiState, pressure: PressureProfile, initialAttacks: U32, acceptedHits: U32, counterattacks: U32)

  function Fresh(pressure: PressureProfile): Brain {
    Brain(Idle, pressure, 0, 0, 0)
  }

  predicate PressureReady(b: Brain) {
    b.state == Attack && b.initialAttacks >= b.pressure.initialAttacks
  }

  predicate CanStrike(actors: ActorMap, enemy: nat, player: nat) {
    && enemy in actors && player in actors
    && actors[enemy].kind == Enemy && actors[enemy].health > 0
    && actors[player].kind == Player && actors[player].health > 0
  }

  /** `attack_target`: damages a living player, otherwise does nothing. */
  function Strike(actors: ActorMap, enemy: nat, player: nat, damage: nat): (ActorMap, Option<AiEvent>) {
    if !CanStrike(actors, enemy, player) then (actors, None)
    else
      var after := Damaged(actors, player, damage);
      var health := after[player].health;
      (after, Some(Attacked(enemy, player, damage, health, health == 0)))
  }

  /** Whether the hit being counted triggers a counterattack. */
  predicate Counters(b: Brain, hits: nat) {
    && b.pressure.maximumCounterattacks != 0
    && b.pressure.acceptedHitsPerCounterattack != 0
    && b.counterattacks < b.pressure.maximumCounterattacks
    && hits % b.pressure.acceptedHitsPerCounterattack == 0
  }

  function Saturated(n: nat): U32 {
    if n > U32_MAX then U32_MAX else n
  }

  function HitBrain(b: Brain): Brain {
    if b.state != Attack then b
    else
      var hits := Saturated(b.acceptedHits + 1);
      if Counters(b, hits) then b.(acceptedHits := hits, counterattacks := b.counterattacks + 1)
      else b.(acceptedHits := hits)
  }

  function HitActors(b: Brain, actors: ActorMap, enemy: nat, player: Option<nat>): (ActorMap, Option<AiEvent>) {
    if b.state != Attack || !Counters(b, Saturated(b.acceptedHits + 1)) || player.None? then (actors, None)
    else Strike(actors, enemy, player.value, b.pressure.damage)
  }

  function Sign(n: int): int {
    if n > 0 then 1 else if n < 0 then -1 else 0
  }

  function StepToward(from: Position, to: Position): Position {
    Position(from.x + Sign(to.x - from.x), from.y + Sign(to.y - from.y), from.z + Sign(to.z - from.z))
  }

  function TickBrain(b: Brain, actors: ActorMap, enemy: nat, player: nat): Brain {
    if enemy !in actors then b.(state := Dead)
    else if player !in actors then b
    else
      var distance := DistanceSquared(actors[enemy].position, actors[player].position);
      match b.state
      case Idle => if distance <= Square(DETECTION_RANGE) then b.(state := Detect) else b
      case Detect => b.(state := Chase)
      case Chase => if distance <= Square(ATTACK_RANGE) then b.(state := Attack) else b
      case Attack => if b.initialAttacks < b.pressure.initialAttacks then b.(initialAttacks := b.initialAttacks + 1) else b
      case Dead => b
  }

  function TickActors(b: Brain, actors: ActorMap, enemy: nat, player: nat): ActorMap {
    if enemy !in actors || player !in actors then actors
    else
      var from, to := actors[enemy].position, actors[player].position;
      if b.state == Chase && DistanceSquared(from, to) > Square(ATTACK_RANGE) then
        actors[enemy := actors[enemy].(position := StepToward(from, to))]
      else if b.state == Attack && b.initialAttacks < b.pressure.initialAttacks then
        Strike(actors, enemy, player, b.pressure.damage).0
      else actors
  }

  /** What a tick reports: the stage entered, the step taken, or the attack made. */
  function TickEvents(b: Brain, actors: ActorMap, enemy: nat, player: nat): seq<AiEvent> {
    if enemy !in actors then [StateChanged(Dead)]
    else if player !in actors then []
    else
      var after := TickBrain(b, actors, enemy, player);
      if after.state != b.state then [StateChanged(after.state)]
      else if b.state == Chase then [Moved(enemy, TickActors(b, actors, enemy, player)[enemy].position)]
      else if after.initialAttacks != b.initialAttacks then
        match Strike(actors, enemy, player, b.pressure.damage).1
        case Some(event) => [event]
        case None => []
      else []
  }

  class Controller {
    var state: AiState
    const pressure: PressureProfile
    var initialAttacks: U32
    var acceptedHits: U32
    var counterattacks: U32

    function View(): Brain
      reads this
    {
      Brain(state, pressure, initialAttacks, acceptedHits, counterattacks)
    }

    constructor (pressure: PressureProfile)
      ensures View() == Fresh(pressure)
    {
      this.pressure := pressure;
      state, initialAttacks, acceptedHits, counterattacks := Idle, 0, 0, 0;
    }

    method AttackTarget(registry: ActorRegistry, enemy: nat, player: nat) returns (event: Option<AiEvent>)
      modifies registry
      ensures (registry.actors, event) == Strike(old(registry.actors), enemy, player, pressure.damage)
    {
      if enemy !in registry.actors || player !in registry.actors {
        return None;
      }
      if !CanStrike(registry.actors, enemy, player) {
        return None;
      }
      var damaged := registry.ApplyDamage(player, pressure.damage);
      var health := damaged.value.health;
      event := Some(Attacked(enemy, player, pressure.damage, health, health == 0));
    }

    method AcceptedHit(registry: ActorRegistry, enemy: nat, player: Option<nat>) returns (event: Option<AiEvent>)
      modifies this, registry
      ensures View() == HitBrain(old(View()))
      ensures (registry.actors, event) == HitActors(old(View()), old(registry.actors), enemy, player)
    {
      if state != Attack {
        return None;
      }
      acceptedHits := Saturated(acceptedHits + 1);
      if pressure.maximumCounterattacks == 0 || pressure.acceptedHitsPerCounterattack == 0
        || counterattacks >= pressure.maximumCounterattacks
        || acceptedHits % pressure.acceptedHitsPerCounterattack != 0
      {
        return None;
      }
      counterattacks := counterattacks + 1;
      if player.None? {
        return None;
      }
      event := AttackTarget(registry, enemy, player.value);
    }

    method Tick(registry: ActorRegistry, enemy: nat, player: nat) returns (events: seq<AiEvent>)
      modifies this, registry
      ensures View() == TickBrain(old(View()), old(registry.actors), enemy, player)
      ensures registry.actors == TickActors(old(View()), old(registry.actors), enemy, player)
      ensures events == TickEvents(old(View()), old(registry.actors), enemy, player)
    {
      if enemy !in registry.actors {
        state := Dead;
        return [StateChanged(Dead)];
      }
      if player !in registry.actors {
        return [];
      }
      var from, to := registry.actors[enemy].position, registry.actors[player].position;
      var distance := DistanceSquared(from, to);
      if state == Idle && distance <= Square(DETECTION_RANGE) {
        state := Detect;
        return [StateChanged(state)];
      }
      if state == Detect {
        state := Chase;
        return [StateChanged(state)];
      }
      if state == Chase && distance <= Square(ATTACK_RANGE) {
        state := Attack;
        return [StateChanged(state)];
      }
      if state == Chase {
        var position := StepToward(from, to);
        var moved := registry.UpdatePosition(enemy, position);
        return [Moved(enemy, position)];
      }
      if state == Attack && initialAttacks < pressure.initialAttacks {
        initialAttacks := initialAttacks + 1;
        var event := AttackTarget(registry, enemy, player);
        return if event.Some? then [event.value] else [];
      }
      events := [];
    }
  }
}

module AiPressure {
  import opened Wrappers
  import opened MachineWords
  import opened Actors
  import opened CombatAnalysis
  import opened AiController

  /** The closed form for the counterattacks alone. */
  function Counterattacks(pressure: PressureProfile, hits: nat): nat {
    if pressure.maximumCounterattacks == 0 || pressure.acceptedHitsPerCounterattack == 0 then 0
    else Min(hits / pressure.acceptedHitsPerCounterattack, pressure.maximumCounterattacks)
  }

  lemma QuotientStep(hits: nat, interval: nat)
    requires interval > 0
    ensures (hits + 1) / interval == hits / interval + (if (hits + 1) % interval == 0 then 1 else 0)
  {
    var q, r := hits / interval, hits % interval;
    assert hits == Times(q, interval) + r;
    TimesStep(q, interval);
    if r + 1 == interval {
      UniqueDivMod(hits + 1, interval, q + 1, 0);
    } else {
      UniqueDivMod(hits + 1, interval, q, r + 1);
    }
  }

  // ----- engagements -----

  /** One enemy's controller and the actors it acts on. */
  datatype Engagement = Engagement(brain: Brain, actors: ActorMap)

  /** What happens in an engagement: a tick, an accepted hit that leaves the enemy alive, or a step of the player. */
  datatype Turn = Ticked | Struck(enemyHealth: nat) | Walked(position: Position)

  function Attacks(b: Brain): nat {
    b.initialAttacks + b.counterattacks
  }

  function Take(e: Engagement, enemy: nat, player: nat, turn: Turn): Engagement
    requires enemy in e.actors && player in e.actors
  {
    match turn
    case Ticked => Engagement(TickBrain(e.brain, e.actors, enemy, player), TickActors(e.brain, e.actors, enemy, player))
    case Struck(health) =>
      var wounded := e.actors[enemy := e.actors[enemy].(health := health)];
      Engagement(HitBrain(e.brain), HitActors(e.brain, wounded, enemy, Some(player)).0)
    case Walked(position) => e.(actors := e.actors[player := e.actors[player].(position := position)])
  }

  /** An enemy that can fight, and a player. */
  predicate Facing(actors: ActorMap, enemy: nat, player: nat) {
    && enemy in actors && actors[enemy].kind == Enemy && actors[enemy].health > 0
    && player in actors && actors[player].kind == Player
  }

  /** Any interleaving of turns, from a fresh controller; no hit in it is the killing one. */
  function Engage(pressure: PressureProfile, actors: ActorMap, enemy: nat, player: nat, turns: seq<Turn>): (e: Engagement)
    requires Facing(actors, enemy, player)
    ensures enemy in e.actors && player in e.actors
  {
    if turns == [] then Engagement(Fresh(pressure), actors)
    else Take(Engage(pressure, actors, enemy, player, turns[..|turns| - 1]), enemy, player, turns[|turns| - 1])
  }

  ghost predicate NonLethal(turns: seq<Turn>) {
    forall i :: 0 <= i < |turns| && turns[i].Struck? ==> turns[i].enemyHealth > 0
  }

  ghost predicate NoHits(turns: seq<Turn>) {
    forall i :: 0 <= i < |turns| ==> !turns[i].Struck?
  }

  /** The controller's counters before they saturate, and the damage they account for. */
  ghost predicate Accounts(e: Engagement, pressure: PressureProfile, enemy: nat, player: nat, health: nat) {
    && Facing(e.actors, enemy, player)
    && e.brain.pressure == pressure
    && e.brain.initialAttacks <= pressure.initialAttacks
    && (e.brain.acceptedHits < U32_MAX ==> e.brain.counterattacks == Counterattacks(pressure, e.brain.acceptedHits))
    && e.actors[player].health == SaturatingSub(health, Times(Attacks(e.brain), pressure.damage))
  }

  lemma NoHitsNoCounters(pressure: PressureProfile)
    ensures Counterattacks(pressure, 0) == 0
  {
    if pressure.acceptedHitsPerCounterattack > 0 {
      UniqueDivMod(0, pressure.acceptedHitsPerCounterattack, 0, 0);
    }
  }

  /** The counters of one hit follow the closed form. */
  lemma HitCounts(b: Brain)
    requires b.acceptedHits + 1 < U32_MAX && b.counterattacks == Counterattacks(b.pressure, b.acceptedHits)
    ensures HitBrain(b).counterattacks == Counterattacks(b.pressure, HitBrain(b).acceptedHits)
  {
    if b.pressure.acceptedHitsPerCounterattack > 0 {
      QuotientStep(b.acceptedHits, b.pressure.acceptedHitsPerCounterattack);
    }
  }

  /** One more attack takes one more share of the damage, down to nothing. */
  lemma OneMoreAttack(health: nat, attacks: nat, damage: nat)
    ensures SaturatingSub(SaturatingSub(health, Times(attacks, damage)), damage)
      == SaturatingSub(health, Times(attacks + 1, damage))
  {
    TimesStep(attacks, damage);
  }

  lemma TurnAccounts(e: Engagement, pressure: PressureProfile, enemy: nat, player: nat, health: nat, turn: Turn)
    requires Accounts(e, pressure, enemy, player, health) && (turn.Struck? ==> turn.enemyHealth > 0)
    ensures Accounts(Take(e, enemy, player, turn), pressure, enemy, player, health)
  {
    OneMoreAttack(health, Attacks(e.brain), pressure.damage);
    if turn.Struck? && e.brain.acceptedHits + 1 < U32_MAX {
      HitCounts(e.brain);
    }
    hide Times, Counterattacks, DistanceSquared, Square, StepToward;
  }

  lemma {:induction false} EngagementsAccount(pressure: PressureProfile, actors: ActorMap, enemy: nat,
      player: nat, turns: seq<Turn>)
    requires Facing(actors, enemy, player) && NonLethal(turns)
    ensures Accounts(Engage(pressure, actors, enemy, player, turns), pressure, enemy, player, actors[player].health)
  {
    if turns == [] {
      NoHitsNoCounters(pressure);
      TimesStep(0, pressure.damage);
      hide Times, Counterattacks;
    } else {
      var front := turns[..|turns| - 1];
      EngagementsAccount(pressure, actors, enemy, player, front);
      TurnAccounts(
        Engage(pressure, actors, enemy, player, front), pressure, enemy, player, actors[player].health, turns[|turns| - 1]);
      hide Accounts, Take;
    }
  }

  /**
   * Over any interleaving of ticks, non-lethal hits and steps, k accepted hits have launched exactly
   * min(k / interval, maximum) counterattacks, and no more initial attacks than the profile has.
   */
  lemma {:induction false} CountersMatchClosedForm(pressure: PressureProfile, actors: ActorMap, enemy: nat,
      player: nat, turns: seq<Turn>)
    requires Facing(actors, enemy, player) && NonLethal(turns)
    requires Engage(pressure, actors, enemy, player, turns).brain.acceptedHits < U32_MAX
    ensures var b := Engage(pressure, actors, enemy, player, turns).brain;
      b.counterattacks == Counterattacks(pressure, b.acceptedHits) && b.initialAttacks <= pressure.initialAttacks
  {
    EngagementsAccount(pressure, actors, enemy, player, turns);
  }

  /**
   * Over the same runs every attack launched lands in full: the player's health is its start less
   * all of them, down to zero.
   */
  lemma {:induction false} DamageLands(pressure: PressureProfile, actors: ActorMap, enemy: nat, player: nat,
      turns: seq<Turn>)
    requires Facing(actors, enemy, player) && NonLethal(turns)
    ensures var e := Engage(pressure, actors, enemy, player, turns);
      e.actors[player].health == SaturatingSub(actors[player].health, Times(Attacks(e.brain), pressure.damage))
  {
    EngagementsAccount(pressure, actors, enemy, player, turns);
  }

  /**
   * The analysis predicts the simulation. Whatever the interleaving, a controller that has launched its
   * initial attacks and taken every hit of the fight but the last has launched exactly the attacks the
   * closed form expects, and the player has lost exactly the expected damage (or all of its health).
   */
  lemma {:induction false} PressureMatchesAnalysis(
    s: Scenario, m: Metrics, actors: ActorMap, enemy: nat, player: nat, turns: seq<Turn>)
    requires AnalyzeScenario(s) == Ok(m)
    requires Facing(actors, enemy, player) && NonLethal(turns)
    requires var b := Engage(s.pressure, actors, enemy, player, turns).brain;
      PressureReady(b) && b.acceptedHits == m.requiredHits - 1
    ensures var e := Engage(s.pressure, actors, enemy, player, turns);
      && Attacks(e.brain) == m.expectedHostileAttacks
      && e.actors[player].health == SaturatingSub(actors[player].health, m.expectedIncomingDamage)
  {
    CeilingBounds(s.targetHealth, s.attack.damage);
    EngagementsAccount(s.pressure, actors, enemy, player, turns);
    hide Times, Quotient, Square, Engage, DivCeil;
  }

  // ----- such an engagement exists -----

  lemma EngageSnoc(pressure: PressureProfile, actors: ActorMap, enemy: nat, player: nat, turns: seq<Turn>, turn: Turn)
    requires Facing(actors, enemy, player)
    ensures Engage(pressure, actors, enemy, player, turns + [turn])
      == Take(Engage(pressure, actors, enemy, player, turns), enemy, player, turn)
    ensures NonLethal(turns + [turn]) <==> NonLethal(turns) && (turn.Struck? ==> turn.enemyHealth > 0)
  {
    assert (turns + [turn])[..|turns|] == turns;
    hide Take;
  }

  /** Standing in attack range, the enemy detects, chases and is in attack after three ticks. */
  ghost predicate StandStill(after: ActorMap, before: ActorMap, enemy: nat, player: nat) {
    && enemy in before && enemy in after && after[enemy].position == before[enemy].position
    && player in before && player in after && after[player].position == before[player].position
  }

  lemma ReachesAttack(pressure: PressureProfile, actors: ActorMap, enemy: nat, player: nat) returns (turns: seq<Turn>)
    requires Facing(actors, enemy, player)
    requires DistanceSquared(actors[enemy].position, actors[player].position) <= Square(ATTACK_RANGE)
    ensures NoHits(turns)
    ensures Engage(pressure, actors, enemy, player, turns) == Engagement(Fresh(pressure).(state := Attack), actors)
  {
    assert Square(ATTACK_RANGE) == 4 && Square(DETECTION_RANGE) == 144;
    hide DistanceSquared, Square;
    turns := [];
    EngageSnoc(pressure, actors, enemy, player, turns, Ticked);
    turns := turns + [Ticked];
    EngageSnoc(pressure, actors, enemy, player, turns, Ticked);
    turns := turns + [Ticked];
    EngageSnoc(pressure, actors, enemy, player, turns, Ticked);
    turns := turns + [Ticked];
  }

  lemma {:induction false} LaunchesInitialAttacks(pressure: PressureProfile, actors: ActorMap, enemy: nat,
      player: nat, n: nat)
    returns (turns: seq<Turn>)
    requires Facing(actors, enemy, player) && n <= pressure.initialAttacks
    requires DistanceSquared(actors[enemy].position, actors[player].position) <= Square(ATTACK_RANGE)
    ensures NoHits(turns)
    ensures Engage(pressure, actors, enemy, player, turns).brain == Fresh(pressure).(state := Attack, initialAttacks := n)
    ensures StandStill(Engage(pressure, actors, enemy, player, turns).actors, actors, enemy, player)
  {
    if n == 0 {
      turns := ReachesAttack(pressure, actors, enemy, player);
    } else {
      turns := LaunchesInitialAttacks(pressure, actors, enemy, player, n - 1);
      EngageSnoc(pressure, actors, enemy, player, turns, Ticked);
      turns := turns + [Ticked];
    }
  }

  /** Beside a living player, an engagement with all its initial attacks and any number of hits exists. */
  lemma {:induction false} PressureIsReached(pressure: PressureProfile, actors: ActorMap, enemy: nat,
      player: nat, hits: nat)
    returns (turns: seq<Turn>)
    requires Facing(actors, enemy, player) && hits < U32_MAX
    requires DistanceSquared(actors[enemy].position, actors[player].position) <= Square(ATTACK_RANGE)
    ensures NonLethal(turns)
    ensures var b := Engage(pressure, actors, enemy, player, turns).brain; PressureReady(b) && b.acceptedHits == hits
  {
    if hits == 0 {
      turns := LaunchesInitialAttacks(pressure, actors, enemy, player, pressure.initialAttacks);
    } else {
      turns := PressureIsReached(pressure, actors, enemy, player, hits - 1);
      EngageSnoc(pressure, actors, enemy, player, turns, Struck(1));
      EngagementsAccount(pressure, actors, enemy, player, turns);
      turns := turns + [Struck(1)];
    }
  }
}
