// One tick of the shared enemy controller, in coordinates.

module AiTicks {
  import opened Wrappers
  import opened MachineWords
  import opened Actors
  import opened CombatAnalysis
  import opened AiController

  /** How far apart two places are along the axis where they are furthest. */
  function Gap(a: Position, b: Position): nat {
    Max(Abs(a.x - b.x), Max(Abs(a.y - b.y), Abs(a.z - b.z)))
  }

  predicate Within(a: Position, b: Position, reach: nat) {
    var dx, dy, dz := a.x - b.x, a.y - b.y, a.z - b.z;
    dx * dx + dy * dy + dz * dz <= reach * reach
  }

  lemma SquareIsProduct(n: int)
    ensures Square(n) == n * n
  {
  }

  lemma WithinIsDistance(a: Position, b: Position, reach: nat)
    ensures DistanceSquared(a, b) <= Square(reach) <==> Within(a, b, reach)
  {
    SquareIsProduct(a.x - b.x);
    SquareIsProduct(a.y - b.y);
    SquareIsProduct(a.z - b.z);
    SquareIsProduct(reach);
  }

  /** A chasing step closes the gap by exactly one, and no axis opens. */
  lemma StepsCloser(from: Position, to: Position)
    ensures var next := StepToward(from, to);
      && Gap(next, to) == SaturatingSub(Gap(from, to), 1)
      && Abs(next.x - to.x) == SaturatingSub(Abs(from.x - to.x), 1)
      && Abs(next.y - to.y) == SaturatingSub(Abs(from.y - to.y), 1)
      && Abs(next.z - to.z) == SaturatingSub(Abs(from.z - to.z), 1)
      && Abs(next.x - from.x) <= 1 && Abs(next.y - from.y) <= 1 && Abs(next.z - from.z) <= 1
  {
  }

  /** The stage after a tick, for an enemy and a player who are both there. */
  ghost predicate StageAfter(before: AiState, from: Position, to: Position, after: AiState) {
    match before
    case Idle => after == if Within(from, to, 12) then Detect else Idle
    case Detect => after == Chase
    case Chase => after == if Within(from, to, 2) then Attack else Chase
    case Attack => after == Attack
    case Dead => after == Dead
  }

  predicate IsLiving(actors: ActorMap, id: nat, kind: ActorKind) {
    id in actors && actors[id].kind == kind && actors[id].health > 0
  }

  /**
   * A tick does one thing: it goes a stage further, or steps closer while it
   * chases out of reach, or launches the next initial attack, which costs a
   * living player the pressure's damage and is reported with what is left.
   */
  lemma TicksExactly(b: Brain, actors: ActorMap, enemy: nat, player: nat)
    requires enemy in actors && player in actors && enemy != player
    ensures var after, left := TickBrain(b, actors, enemy, player), TickActors(b, actors, enemy, player);
      var events := TickEvents(b, actors, enemy, player);
      var from, to := actors[enemy].position, actors[player].position;
      var chases := b.state == Chase && !Within(from, to, 2);
      var launches := b.state == Attack && b.initialAttacks < b.pressure.initialAttacks;
      var lands := launches && IsLiving(actors, enemy, Enemy) && IsLiving(actors, player, Player);
      && StageAfter(b.state, from, to, after.state)
      && after == b.(state := after.state, initialAttacks := if launches then b.initialAttacks + 1 else b.initialAttacks)
      && left.Keys == actors.Keys
      && (forall id :: id in actors && id != enemy && id != player ==> left[id] == actors[id])
      && left[enemy] == actors[enemy].(position := left[enemy].position)
      && (if chases then left[enemy].position == StepToward(from, to) else left[enemy].position == from)
      && left[player] == actors[player].(
           health := if lands then SaturatingSub(actors[player].health, b.pressure.damage) else actors[player].health)
      && events == (
           if after.state != b.state then [StateChanged(after.state)]
           else if chases then [Moved(enemy, left[enemy].position)]
           else if lands then [Attacked(enemy, player, b.pressure.damage, left[player].health, left[player].health == 0)]
           else [])
  {
    WithinIsDistance(actors[enemy].position, actors[player].position, 12);
    WithinIsDistance(actors[enemy].position, actors[player].position, 2);
    hide DistanceSquared, Square, Within, StepToward;
  }

  /** Without its enemy the controller is dead; without its player it waits. */
  lemma TicksAlone(b: Brain, actors: ActorMap, enemy: nat, player: nat)
    requires enemy !in actors || player !in actors
    ensures TickActors(b, actors, enemy, player) == actors
    ensures TickBrain(b, actors, enemy, player) == if enemy !in actors then b.(state := Dead) else b
    ensures TickEvents(b, actors, enemy, player) == if enemy !in actors then [StateChanged(Dead)] else []
  {
  }

  /**
   * A hit accepted in attack is counted, and every interval-th one below the
   * maximum is answered, at the player named, if it lives.
   */
  lemma HitsExactly(b: Brain, actors: ActorMap, enemy: nat, player: Option<nat>)
    requires b.acceptedHits < U32_MAX
    ensures var after, (left, event) := HitBrain(b), HitActors(b, actors, enemy, player);
      var answers := b.state == Attack && b.counterattacks < b.pressure.maximumCounterattacks
        && b.pressure.acceptedHitsPerCounterattack > 0 && (b.acceptedHits + 1) % b.pressure.acceptedHitsPerCounterattack == 0;
      var lands := answers && player.Some? && IsLiving(actors, enemy, Enemy) && IsLiving(actors, player.value, Player);
      && after == b.(acceptedHits := if b.state == Attack then b.acceptedHits + 1 else b.acceptedHits,
                     counterattacks := if answers then b.counterattacks + 1 else b.counterattacks)
      && (if lands then
            var health := SaturatingSub(actors[player.value].health, b.pressure.damage);
            && left == actors[player.value := actors[player.value].(health := health)]
            && event == Some(Attacked(enemy, player.value, b.pressure.damage, health, health == 0))
          else left == actors && event == None)
  {
  }
}
