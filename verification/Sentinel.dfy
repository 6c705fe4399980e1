// The Signal Sentinel: the barrier's slab test over exact reals, the sentinel's
// shot cadence, and the Distant Signal lane that is played around both.

/** The west-sector barrier footprint and segments through it. */
module Barrier {
  import opened Wrappers
  import opened Actors

  /** One coordinate of a segment, with the barrier's extent along it. */
  datatype Axis = Axis(origin: int, target: int, minimum: real, maximum: real)

  function Along(a: Axis, t: real): real {
    a.origin as real + t * (a.target - a.origin) as real
  }

  predicate Within(a: Axis, t: real) {
    a.minimum <= Along(a, t) <= a.maximum
  }

  function XAxis(from: Position, to: Position): Axis {
    Axis(from.x, to.x, -6.0, -2.0)
  }

  function ZAxis(from: Position, to: Position): Axis {
    Axis(from.z, to.z, 0.5, 1.5)
  }

  /** The point at parameter `t` of the segment lies in the barrier. */
  predicate Touches(from: Position, to: Position, t: real) {
    0.0 <= t <= 1.0 && Within(XAxis(from, to), t) && Within(ZAxis(from, to), t)
  }

  ghost predicate Crosses(from: Position, to: Position) {
    exists t: real :: Touches(from, to, t)
  }

  /** The parameters still possible: none, or `near <= t <= far`. */
  datatype Window = Window(near: real, far: real) {
    predicate Holds(t: real) {
      near <= t <= far
    }
  }

  function RealMin(a: real, b: real): real {
    if a <= b then a else b
  }

  function RealMax(a: real, b: real): real {
    if a >= b then a else b
  }

  function Clip(w: Window, a: Axis): Option<Window> {
    var delta := (a.target - a.origin) as real;
    if delta == 0.0 then
      if a.origin as real < a.minimum || a.origin as real > a.maximum then None else Some(w)
    else
      var first := (a.minimum - a.origin as real) / delta;
      var last := (a.maximum - a.origin as real) / delta;
      var near := RealMax(w.near, RealMin(first, last));
      var far := RealMin(w.far, RealMax(first, last));
      if near > far then None else Some(Window(near, far))
  }

  function CoverBlocks(from: Position, to: Position): bool {
    match Clip(Window(0.0, 1.0), XAxis(from, to))
    case None => false
    case Some(w) => Clip(w, ZAxis(from, to)).Some?
  }

  lemma DivisionOrders(a: real, d: real, t: real)
    requires d != 0.0
    ensures d > 0.0 ==> (a / d <= t <==> a <= t * d)
    ensures d < 0.0 ==> (a / d <= t <==> t * d <= a)
    ensures d > 0.0 ==> (t <= a / d <==> t * d <= a)
    ensures d < 0.0 ==> (t <= a / d <==> a <= t * d)
  {
    var q := a / d;
    assert q * d == a;
    assert (t - q) * d == t * d - a;
  }

  /** Clipping to an axis keeps exactly the parameters within the axis. */
  lemma ClipIsExact(w: Window, a: Axis, t: real)
    requires a.minimum <= a.maximum
    ensures w.Holds(t) && Within(a, t) <==> Clip(w, a).Some? && Clip(w, a).value.Holds(t)
  {
    var delta := (a.target - a.origin) as real;
    if delta != 0.0 {
      DivisionOrders(a.minimum - a.origin as real, delta, t);
      DivisionOrders(a.maximum - a.origin as real, delta, t);
    }
  }

  lemma ClipIsProper(w: Window, a: Axis)
    requires w.near <= w.far
    ensures Clip(w, a).Some? ==> Clip(w, a).value.near <= Clip(w, a).value.far
  {
  }

  /** The slab test is exact: it reports a block iff a point of the segment lies in the barrier. */
  lemma CoverIsExact(from: Position, to: Position)
    ensures CoverBlocks(from, to) <==> Crosses(from, to)
  {
    var start := Window(0.0, 1.0);
    var x, z := XAxis(from, to), ZAxis(from, to);
    ClipIsProper(start, x);
    if Crosses(from, to) {
      var t :| Touches(from, to, t);
      ClipIsExact(start, x, t);
      ClipIsExact(Clip(start, x).value, z, t);
    }
    if CoverBlocks(from, to) {
      var w := Clip(start, x).value;
      ClipIsProper(w, z);
      var t := Clip(w, z).value.near;
      ClipIsExact(w, z, t);
      ClipIsExact(start, x, t);
      assert Touches(from, to, t);
    }
  }

  /** `cover_blocks_segment`, axis by axis, against the geometry itself. */
  method CoverBlocksSegment(from: Position, to: Position) returns (blocked: bool)
    ensures blocked <==> Crosses(from, to)
    ensures blocked == CoverBlocks(from, to)
  {
    CoverIsExact(from, to);
    var near, far := 0.0, 1.0;
    var axes := [XAxis(from, to), ZAxis(from, to)];
    var i := 0;
    while i < |axes|
      invariant 0 <= i <= 2
      invariant near <= far
      invariant forall k :: 0 <= k < 2 ==> axes[k].minimum <= axes[k].maximum
      invariant forall t: real :: Window(near, far).Holds(t) <==> 0.0 <= t <= 1.0 && forall k :: 0 <= k < i ==> Within(axes[k], t)
    {
      var axis := axes[i];
      ghost var before := Window(near, far);
      var origin := axis.origin as real;
      var delta := axis.target as real - origin;
      if delta == 0.0 {
        if origin < axis.minimum || origin > axis.maximum {
          forall t: real ensures !Touches(from, to, t) {
            ClipIsExact(before, axis, t);
          }
          return false;
        }
      } else {
        var first := (axis.minimum - origin) / delta;
        var last := (axis.maximum - origin) / delta;
        near := RealMax(near, RealMin(first, last));
        far := RealMin(far, RealMax(first, last));
        if near > far {
          forall t: real ensures !Touches(from, to, t) {
            ClipIsExact(before, axis, t);
          }
          return false;
        }
      }
      forall t: real ensures Window(near, far).Holds(t) <==> before.Holds(t) && Within(axis, t) {
        ClipIsExact(before, axis, t);
      }
      i := i + 1;
    }
    assert Window(near, far).Holds(near);
    assert Within(axes[0], near) && Within(axes[1], near);
    assert Touches(from, to, near);
    blocked := true;
  }

  /** A unit step stays between its ends. */
  lemma UnitStep(a: Axis, t: real)
    requires 0.0 <= t <= 1.0 && -1 <= a.target - a.origin <= 1
    ensures a.origin == a.target ==> Along(a, t) == a.origin as real
    ensures a.origin < a.target ==> a.origin as real <= Along(a, t) <= a.target as real
    ensures a.target < a.origin ==> a.target as real <= Along(a, t) <= a.origin as real
  {
    var delta := (a.target - a.origin) as real;
    assert delta == 0.0 || delta == 1.0 || delta == -1.0;
  }

  lemma Reversed(a: Axis, t: real)
    ensures Along(a.(origin := a.target, target := a.origin), 1.0 - t) == Along(a, t)
  {
  }

  lemma CrossingReverses(from: Position, to: Position)
    requires Crosses(from, to)
    ensures Crosses(to, from)
  {
    var t :| Touches(from, to, t);
    Reversed(XAxis(from, to), t);
    Reversed(ZAxis(from, to), t);
    assert Touches(to, from, 1.0 - t);
  }

  /** Cover is mutual: the same geometry blocks both directions. */
  lemma CoverIsSymmetric(from: Position, to: Position)
    ensures CoverBlocks(from, to) == CoverBlocks(to, from)
  {
    CoverIsExact(from, to);
    CoverIsExact(to, from);
    if Crosses(from, to) {
      CrossingReverses(from, to);
    }
    if Crosses(to, from) {
      CrossingReverses(to, from);
    }
  }

  /** A point taken as a segment is blocked iff it stands in the one row of cells under the barrier. */
  lemma PointBlocked(p: Position)
    ensures CoverBlocks(p, p) <==> -6 <= p.x <= -2 && p.z == 1
  {
  }
}

module Sentinel {
  import opened Wrappers
  import opened MachineWords
  import opened Actors
  import opened Barrier

  const SENTINEL_POSITION := Position(-4, 0, -4)
  const SENTINEL_HEALTH: nat := 200
  const SHOT_INTERVAL_MS: nat := 1_800
  const SHOT_DAMAGE: nat := 12
  const SHOT_RANGE_SQUARED: nat := 144

  datatype Shot = Shot(source: nat, target: nat, damage: nat, remainingHealth: nat, killed: bool)

  predicate CanHit(actors: ActorMap, enemy: nat, player: nat) {
    && enemy in actors && player in actors
    && actors[enemy].kind == Enemy && actors[enemy].health != 0
    && actors[player].kind == Player && actors[player].health != 0
    && DistanceSquared(actors[enemy].position, actors[player].position) <= SHOT_RANGE_SQUARED
    && !CoverBlocks(actors[enemy].position, actors[player].position)
  }

  class SignalSentinel {
    var nextShotMs: nat

    constructor ()
      ensures nextShotMs == SHOT_INTERVAL_MS
    {
      nextShotMs := SHOT_INTERVAL_MS;
    }

    method Tick(registry: ActorRegistry, enemy: nat, player: nat, now: nat) returns (event: Option<Shot>)
      modifies this, registry
      ensures nextShotMs == if now < old(nextShotMs) then old(nextShotMs) else SaturatingAdd(now, SHOT_INTERVAL_MS)
      ensures event.Some? <==> old(nextShotMs) <= now && CanHit(old(registry.actors), enemy, player)
      ensures registry.actors ==
        if event.Some? then Damaged(old(registry.actors), player, SHOT_DAMAGE) else old(registry.actors)
      ensures event.Some? ==>
        var left := SaturatingSub(old(registry.actors)[player].health, SHOT_DAMAGE);
        event.value == Shot(enemy, player, SHOT_DAMAGE, left, left == 0)
    {
      if now < nextShotMs {
        return None;
      }
      nextShotMs := SaturatingAdd(now, SHOT_INTERVAL_MS);
      if enemy !in registry.actors || player !in registry.actors {
        return None;
      }
      var source, target := registry.actors[enemy], registry.actors[player];
      var blocked := CoverBlocksSegment(source.position, target.position);
      if source.kind != Enemy || source.health == 0 || target.kind != Player || target.health == 0
         || DistanceSquared(source.position, target.position) > SHOT_RANGE_SQUARED || blocked
      {
        return None;
      }
      var hit := registry.ApplyDamage(player, SHOT_DAMAGE);
      event := Some(Shot(enemy, player, SHOT_DAMAGE, hit.value.health, hit.value.health == 0));
    }
  }
}

/** `SignalRun`: the bounded firing lane around the barrier. */
module SignalLane {
  import opened Wrappers
  import opened MachineWords
  import opened Actors
  import opened Barrier
  import opened Sentinel

  const SPAWN := Position(-4, 0, 4)

  datatype Weapon = ScatterCaster | RailDriver | Other(name: string)

  datatype Profile = Profile(damage: nat, range: nat, cooldownMs: nat, maxHealth: nat)

  datatype Action = Move(position: Position) | Attack | Observe

  datatype Terminal = Completed | Defeated

  datatype Effect = Effect(outgoingDamage: nat, incomingDamage: nat, terminal: Option<Terminal>)

  datatype SignalRun = SignalRun(
    position: Position, health: nat, enemyHealth: nat, weapon: Weapon, profile: Profile,
    lastElapsedMs: nat, nextShotMs: nat, attackReadyMs: nat)

  datatype Update = Update(run: SignalRun, effect: Effect)

  datatype Error = ClockReversed | InvalidMovement | BlockedShot | Cooldown | OutOfRange | TerminalRun

  predicate Walkable(p: Position) {
    p.y == 0 && -9 <= p.x <= 1 && 0 <= p.z <= 5 && !CoverBlocks(p, p)
  }

  /** The shared movement rule of the lane and of Last Reserve. */
  predicate ValidMove(from: Position, to: Position) {
    Walkable(to) && Steps(from, to) == 1 && !CoverBlocks(from, to)
  }

  predicate Exposed(p: Position) {
    !CoverBlocks(p, SENTINEL_POSITION)
  }

  function PositionedDamage(weapon: Weapon, damage: nat, distanceSquared: nat): Option<nat> {
    if weapon == RailDriver && distanceSquared < 16 then None
    else if weapon == ScatterCaster && distanceSquared > 9 then Some(damage / 2)
    else Some(damage)
  }

  function ValidateAction(run: SignalRun, elapsed: nat, action: Action): Result<nat, Error> {
    match action
    case Move(position) => if ValidMove(run.position, position) then Ok(0) else Err(InvalidMovement)
    case Observe => Ok(0)
    case Attack =>
      var distance := DistanceSquared(run.position, SENTINEL_POSITION);
      if !Exposed(run.position) then Err(BlockedShot)
      else if elapsed < run.attackReadyMs then Err(Cooldown)
      else if distance > Square(run.profile.range) then Err(OutOfRange)
      else match PositionedDamage(run.weapon, run.profile.damage, distance)
        case None => Err(OutOfRange)
        case Some(damage) => Ok(damage)
  }

  /** A due shot, resolved at the accepted position before the action. */
  function Incoming(run: SignalRun, elapsed: nat): nat {
    if elapsed >= run.nextShotMs && DistanceSquared(run.position, SENTINEL_POSITION) <= SHOT_RANGE_SQUARED
       && Exposed(run.position)
    then SHOT_DAMAGE else 0
  }

  function Planned(run: SignalRun, elapsed: nat, action: Action, requested: nat): Update {
    var incoming := Incoming(run, elapsed);
    var shot := run.(
      lastElapsedMs := elapsed,
      nextShotMs := if elapsed >= run.nextShotMs then SaturatingAdd(elapsed, SHOT_INTERVAL_MS) else run.nextShotMs,
      health := SaturatingSub(run.health, incoming));
    if shot.health == 0 then Update(shot, Effect(0, incoming, Some(Defeated)))
    else match action
      case Observe => Update(shot, Effect(0, incoming, None))
      case Move(position) => Update(shot.(position := position), Effect(0, incoming, None))
      case Attack =>
        var enemyHealth := SaturatingSub(run.enemyHealth, requested);
        Update(shot.(enemyHealth := enemyHealth, attackReadyMs := SaturatingAdd(elapsed, run.profile.cooldownMs)),
               Effect(requested, incoming, if enemyHealth == 0 then Some(Completed) else None))
  }

  function Planning(run: SignalRun, elapsed: nat, action: Action): Result<Update, Error> {
    if run.health == 0 || run.enemyHealth == 0 then Err(TerminalRun)
    else if elapsed < run.lastElapsedMs then Err(ClockReversed)
    else match ValidateAction(run, elapsed, action)
      case Err(error) => Err(error)
      case Ok(requested) => Ok(Planned(run, elapsed, action, requested))
  }

  /** `SignalRun::apply`: edits a copy and its effect field by field. */
  method Apply(run: SignalRun, elapsed: nat, action: Action) returns (r: Result<Update, Error>)
    ensures r == Planning(run, elapsed, action)
  {
    if run.health == 0 || run.enemyHealth == 0 {
      return Err(TerminalRun);
    }
    if elapsed < run.lastElapsedMs {
      return Err(ClockReversed);
    }
    var requested :- ValidateAction(run, elapsed, action);
    var next := run;
    var effect := Effect(0, 0, None);
    next := next.(lastElapsedMs := elapsed);
    if elapsed >= next.nextShotMs {
      next := next.(nextShotMs := SaturatingAdd(elapsed, SHOT_INTERVAL_MS));
      var blocked := CoverBlocksSegment(run.position, SENTINEL_POSITION);
      if DistanceSquared(run.position, SENTINEL_POSITION) <= SHOT_RANGE_SQUARED && !blocked {
        effect := effect.(incomingDamage := SHOT_DAMAGE);
        next := next.(health := SaturatingSub(next.health, effect.incomingDamage));
      }
    }
    if next.health == 0 {
      effect := effect.(terminal := Some(Defeated));
    } else {
      match action {
        case Move(position) =>
          next := next.(position := position);
        case Attack =>
          effect := effect.(outgoingDamage := requested);
          next := next.(enemyHealth := SaturatingSub(next.enemyHealth, requested));
          next := next.(attackReadyMs := SaturatingAdd(elapsed, run.profile.cooldownMs));
          if next.enemyHealth == 0 {
            effect := effect.(terminal := Some(Completed));
          }
        case Observe =>
      }
    }
    return Ok(Update(next, effect));
  }

  // ----- movement -----

  /** The walkable cells, by their coordinates. */
  lemma WalkableCells(p: Position)
    ensures Walkable(p) <==> p.y == 0 && -9 <= p.x <= 1 && 0 <= p.z <= 5 && !(-6 <= p.x <= -2 && p.z == 1)
  {
    PointBlocked(p);
  }

  lemma SquareAtMost(n: int, bound: nat)
    requires Abs(n) <= bound
    ensures Square(n) <= bound * bound
  {
    TimesMonotone(Abs(n), Abs(n), bound, bound);
  }

  /** Every walkable cell is within the sentinel's range. */
  lemma LaneIsInRange(p: Position)
    requires Walkable(p)
    ensures DistanceSquared(p, SENTINEL_POSITION) <= SHOT_RANGE_SQUARED
  {
    SquareAtMost(p.x + 4, 5);
    SquareAtMost(p.z + 4, 9);
  }

  /** Between walkable neighbours the barrier is never in the way, so on the
      lane the movement rule is: one step, onto a walkable cell. */
  lemma NeighboursAreClear(from: Position, to: Position)
    requires Walkable(from) && Walkable(to) && Steps(from, to) == 1
    ensures !CoverBlocks(from, to)
  {
    WalkableCells(from);
    WalkableCells(to);
    CoverIsExact(from, to);
    if Crosses(from, to) {
      var t :| Touches(from, to, t);
      UnitStep(XAxis(from, to), t);
      UnitStep(ZAxis(from, to), t);
      hide Along;
      assert false;
    }
  }

  // ----- runs -----

  datatype Timed = Timed(at: nat, action: Action)

  /** An accepted run with its tallies. */
  datatype Play = Play(run: SignalRun, attacks: nat, shots: nat, path: seq<Position>)

  function Start(weapon: Weapon, profile: Profile): Play {
    Play(SignalRun(SPAWN, profile.maxHealth, SENTINEL_HEALTH, weapon, profile, 0, SHOT_INTERVAL_MS, 0), 0, 0, [SPAWN])
  }

  function Accept(p: Play, step: Timed): Play {
    match Planning(p.run, step.at, step.action)
    case Err(_) => p
    case Ok(update) =>
      Play(update.run,
           p.attacks + (if step.action.Attack? && update.run.health > 0 then 1 else 0),
           p.shots + (if update.effect.incomingDamage > 0 then 1 else 0),
           p.path + [update.run.position])
  }

  function PlayAll(weapon: Weapon, profile: Profile, steps: seq<Timed>): Play {
    if steps == [] then Start(weapon, profile)
    else Accept(PlayAll(weapon, profile, steps[..|steps| - 1]), steps[|steps| - 1])
  }

  ghost predicate ClearPath(path: seq<Position>) {
    && (forall i :: 0 <= i < |path| ==> Walkable(path[i]) && !Crosses(path[i], path[i]))
    && (forall i, j :: 0 <= i && j == i + 1 && j < |path| ==> !Crosses(path[i], path[j]))
  }

  ghost predicate Tallied(p: Play) {
    var r := p.run;
    && |p.path| > 0 && p.path[|p.path| - 1] == r.position
    && ClearPath(p.path)
    && Times(p.attacks, r.profile.cooldownMs) <= r.attackReadyMs
    && r.attackReadyMs <= r.lastElapsedMs + r.profile.cooldownMs
    && SENTINEL_HEALTH <= r.enemyHealth + Times(p.attacks, r.profile.damage)
    && SHOT_INTERVAL_MS * (p.shots + 1) <= r.nextShotMs
    && SHOT_INTERVAL_MS * p.shots <= r.lastElapsedMs
    && r.profile.maxHealth <= r.health + SHOT_DAMAGE * p.shots
    && (r.health > 0 ==> r.health + SHOT_DAMAGE * p.shots == r.profile.maxHealth)
  }

  lemma PathGrows(path: seq<Position>, next: Position)
    requires |path| > 0 && ClearPath(path)
    requires next == path[|path| - 1] || ValidMove(path[|path| - 1], next)
    ensures ClearPath(path + [next])
  {
    var here := path[|path| - 1];
    CoverIsExact(here, next);
    CoverIsExact(next, next);
  }

  lemma StepKeepsTallies(p: Play, step: Timed)
    requires Tallied(p) && step.at <= CLOCK_LIMIT && p.run.profile.cooldownMs <= 100_000
    ensures Tallied(Accept(p, step))
  {
    var r := p.run;
    match Planning(r, step.at, step.action)
    case Err(_) =>
    case Ok(update) =>
      hide Times, Square, DistanceSquared;
      TimesStep(p.attacks, r.profile.cooldownMs);
      TimesStep(p.attacks, r.profile.damage);
      PathGrows(p.path, update.run.position);
  }

  ghost predicate Clocked(profile: Profile, steps: seq<Timed>) {
    profile.cooldownMs <= 100_000 && forall i :: 0 <= i < |steps| ==> steps[i].at <= CLOCK_LIMIT
  }

  lemma {:induction false} RunKeepsTallies(weapon: Weapon, profile: Profile, steps: seq<Timed>)
    requires Clocked(profile, steps)
    ensures Tallied(PlayAll(weapon, profile, steps)) && PlayAll(weapon, profile, steps).run.profile == profile
  {
    if steps == [] {
      PointBlocked(SPAWN);
      CoverIsExact(SPAWN, SPAWN);
      hide Crosses;
      TimesStep(0, profile.cooldownMs);
      TimesStep(0, profile.damage);
    } else {
      RunKeepsTallies(weapon, profile, steps[..|steps| - 1]);
      StepKeepsTallies(PlayAll(weapon, profile, steps[..|steps| - 1]), steps[|steps| - 1]);
    }
  }

  /** No accepted run ever stands in the barrier or moves through it. */
  lemma {:induction false} RunsStayClear(weapon: Weapon, profile: Profile, steps: seq<Timed>)
    ensures var p := PlayAll(weapon, profile, steps);
      ClearPath(p.path) && p.path != [] && p.path[|p.path| - 1] == p.run.position
  {
    if steps == [] {
      PointBlocked(SPAWN);
      CoverIsExact(SPAWN, SPAWN);
      hide Crosses;
    } else {
      var before, step := PlayAll(weapon, profile, steps[..|steps| - 1]), steps[|steps| - 1];
      RunsStayClear(weapon, profile, steps[..|steps| - 1]);
      hide PlayAll, ClearPath;
      match Planning(before.run, step.at, step.action)
      case Err(_) =>
      case Ok(update) =>
        PathGrows(before.path, update.run.position);
    }
  }

  /**
   * Silencing the sentinel takes at least `n` accepted attacks covering its health, hence
   * `n - 1` cooldowns; and by any time T at most T / 1,800 shots have landed.
   */
  lemma {:induction false} SilencingTakesTime(weapon: Weapon, profile: Profile, steps: seq<Timed>)
    requires Clocked(profile, steps)
    ensures var p := PlayAll(weapon, profile, steps);
      && SHOT_INTERVAL_MS * p.shots <= p.run.lastElapsedMs
      && (p.run.enemyHealth == 0 ==>
            && SENTINEL_HEALTH <= Times(p.attacks, profile.damage)
            && Times(p.attacks, profile.cooldownMs) <= p.run.lastElapsedMs + profile.cooldownMs)
  {
    RunKeepsTallies(weapon, profile, steps);
  }

  /** Whoever can shoot can be shot: an accepted attack is made from a cell the sentinel hits when due. */
  lemma AttackersAreExposed(run: SignalRun, elapsed: nat)
    requires Walkable(run.position) && Planning(run, elapsed, Attack).Ok?
    ensures !CoverBlocks(SENTINEL_POSITION, run.position)
    ensures elapsed >= run.nextShotMs ==> Planning(run, elapsed, Attack).value.effect.incomingDamage == SHOT_DAMAGE
  {
    LaneIsInRange(run.position);
    CoverIsSymmetric(run.position, SENTINEL_POSITION);
  }
}
