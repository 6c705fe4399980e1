// The Crossed Guard pair: two telegraphed members and the cadence that lets
// only one of them warn at a time.

module Bulwark {
  import opened Wrappers
  import opened MachineWords
  import opened Actors

  const HEALTH: nat := 240
  const DAMAGE: nat := 14
  const WINDUP_MS: nat := 1_600
  const RECOVERY_MS: nat := 1_800

  predicate ArenaContains(p: Position) {
    p.y == 0 && 5 <= p.x <= 10 && -10 <= p.z <= -5
  }

  datatype Facing = North | East | South | West {
    /** The dominant direction; coincident actors keep the current facing. */
    function Toward(origin: Position, target: Position): Facing {
      var dx, dz := target.x - origin.x, target.z - origin.z;
      if dx == 0 && dz == 0 then this
      else if Abs(dx) >= Abs(dz) then (if dx > 0 then East else West)
      else if dz > 0 then South
      else North
    }

    predicate Protects(origin: Position, attacker: Position) {
      var dx, dz := attacker.x - origin.x, attacker.z - origin.z;
      var (forward, lateral) := match this
        case North => (-dz, dx)
        case East => (dx, dz)
        case South => (dz, dx)
        case West => (-dx, dz);
      origin.y == attacker.y && forward > 0 && forward >= Abs(lateral)
    }
  }

  datatype Action = Brace(facing: Facing) | Slam(facing: Facing, damage: nat)

  predicate SlamHits(facing: Facing, origin: Position, player: Position) {
    && ArenaContains(origin) && ArenaContains(player) && facing.Protects(origin, player)
    && Square(player.x - origin.x) + Square(player.z - origin.z) <= 4
  }

  /** Turning toward someone on the same floor puts them in the protected sector, where alone a slam can land. */
  lemma TurningCovers(facing: Facing, origin: Position, target: Position)
    requires origin.y == target.y && origin != target
    ensures facing.Toward(origin, target).Protects(origin, target)
    ensures forall p :: SlamHits(facing.Toward(origin, target), origin, p) ==> facing.Toward(origin, target).Protects(origin, p)
  {
  }

  /** The sector opposite a facing is exposed: whoever circles behind is neither blocked nor slammed. */
  lemma BehindIsExposed(facing: Facing, origin: Position, p: Position, mirrored: Position)
    requires facing.Protects(origin, p)
    requires mirrored == Position(2 * origin.x - p.x, p.y, 2 * origin.z - p.z)
    ensures !facing.Protects(origin, mirrored) && !SlamHits(facing, origin, mirrored)
  {
  }

  /** The guard's fields as a value. */
  datatype Guard = Guard(facing: Facing, braced: bool, readyAtMs: nat)

  const INITIAL: Guard := Guard(West, true, WINDUP_MS)

  function Tick(g: Guard, now: nat, origin: Position, player: Position): (Guard, Option<Action>) {
    if now < g.readyAtMs || !ArenaContains(origin) || !ArenaContains(player) then (g, None)
    else if g.braced then
      (Guard(g.facing, false, SaturatingAdd(now, RECOVERY_MS)),
       Some(Slam(g.facing, if SlamHits(g.facing, origin, player) then DAMAGE else 0)))
    else
      var facing := g.facing.Toward(origin, player);
      (Guard(facing, true, SaturatingAdd(now, WINDUP_MS)), Some(Brace(facing)))
  }

  function Confirm(g: Guard, now: nat): Guard {
    g.(readyAtMs := Max(g.readyAtMs, SaturatingAdd(now, if g.braced then WINDUP_MS else RECOVERY_MS)))
  }

  class SteelBulwark {
    var facing: Facing
    var braced: bool
    var readyAtMs: nat

    function View(): Guard
      reads this
    {
      Guard(facing, braced, readyAtMs)
    }

    constructor ()
      ensures View() == INITIAL
    {
      facing, braced, readyAtMs := West, true, WINDUP_MS;
    }

    method ConfirmAt(now: nat)
      modifies this
      ensures View() == Confirm(old(View()), now)
    {
      var interval := if braced then WINDUP_MS else RECOVERY_MS;
      readyAtMs := Max(readyAtMs, SaturatingAdd(now, interval));
    }

    method TickAt(now: nat, origin: Position, player: Position) returns (action: Option<Action>)
      modifies this
      ensures (View(), action) == Tick(old(View()), now, origin, player)
    {
      if now < readyAtMs || !ArenaContains(origin) || !ArenaContains(player) {
        return None;
      }
      if braced {
        braced := false;
        readyAtMs := SaturatingAdd(now, RECOVERY_MS);
        action := Some(Slam(facing, if SlamHits(facing, origin, player) then DAMAGE else 0));
      } else {
        facing := facing.Toward(origin, player);
        braced := true;
        readyAtMs := SaturatingAdd(now, WINDUP_MS);
        action := Some(Brace(facing));
      }
    }
  }
}

module Lancer {
  import opened Wrappers
  import opened MachineWords
  import opened Actors

  const HEALTH: nat := 200
  const DAMAGE: nat := 18
  const WINDUP_MS: nat := 1_800
  const RECOVERY_MS: nat := 1_400
  const OPENING_MS: nat := 700

  predicate ArenaContains(p: Position) {
    p.y == 0 && 2 <= p.x <= 10 && 5 <= p.z <= 10
  }

  predicate Between(a: int, b: int, v: int) {
    Min(a, b) <= v <= Max(a, b)
  }

  predicate ChargeHits(origin: Position, target: Position, player: Position) {
    && ArenaContains(origin) && ArenaContains(target) && ArenaContains(player)
    && ((origin.x == target.x && player.x == origin.x && Between(origin.z, target.z, player.z))
        || (origin.z == target.z && player.z == origin.z && Between(origin.x, target.x, player.x)))
  }

  datatype Action =
    | Windup(origin: Position, target: Position)
    | Resolved(origin: Position, target: Position, damage: nat)

  datatype Charger = Charger(readyAtMs: nat, locked: Option<(Position, Position)>)

  const INITIAL: Charger := Charger(OPENING_MS, None)

  /** The charge locks the player's coordinate on the dominant axis. */
  function LockedTarget(enemy: Position, player: Position): Position {
    if Abs(player.x - enemy.x) >= Abs(player.z - enemy.z) then enemy.(x := player.x) else enemy.(z := player.z)
  }

  /**
   * A locked charge runs along one axis from the lancer: it hits exactly the arena cells between the two
   * ends, so leaving both of the lancer's lines avoids it.
   */
  lemma ChargesRunStraight(enemy: Position, player: Position, p: Position)
    requires ArenaContains(enemy) && ArenaContains(player) && ArenaContains(p)
    ensures ArenaContains(LockedTarget(enemy, player))
    ensures ChargeHits(enemy, LockedTarget(enemy, player), p) <==>
      if Abs(player.x - enemy.x) >= Abs(player.z - enemy.z)
      then p.z == enemy.z && Between(enemy.x, player.x, p.x)
      else p.x == enemy.x && Between(enemy.z, player.z, p.z)
    ensures p.x != enemy.x && p.z != enemy.z ==> !ChargeHits(enemy, LockedTarget(enemy, player), p)
  {
  }

  function Tick(c: Charger, now: nat, enemy: Position, player: Position): (Charger, Option<Action>) {
    if now < c.readyAtMs || !ArenaContains(enemy) || !ArenaContains(player) then (c, None)
    else match c.locked
      case Some((origin, target)) =>
        (Charger(SaturatingAdd(now, RECOVERY_MS), None),
         Some(Resolved(origin, target, if ChargeHits(origin, target, player) then DAMAGE else 0)))
      case None =>
        var target := LockedTarget(enemy, player);
        (Charger(SaturatingAdd(now, WINDUP_MS), Some((enemy, target))), Some(Windup(enemy, target)))
  }

  function Confirm(c: Charger, now: nat): Charger {
    c.(readyAtMs := Max(c.readyAtMs, SaturatingAdd(now, if c.locked.Some? then WINDUP_MS else RECOVERY_MS)))
  }

  class GlassLancer {
    var readyAtMs: nat
    var locked: Option<(Position, Position)>

    function View(): Charger
      reads this
    {
      Charger(readyAtMs, locked)
    }

    constructor ()
      ensures View() == INITIAL
    {
      readyAtMs, locked := OPENING_MS, None;
    }

    method ConfirmAt(now: nat)
      modifies this
      ensures View() == Confirm(old(View()), now)
    {
      var interval := if locked.Some? then WINDUP_MS else RECOVERY_MS;
      readyAtMs := Max(readyAtMs, SaturatingAdd(now, interval));
    }

    method TickAt(now: nat, enemy: Position, player: Position) returns (action: Option<Action>)
      modifies this
      ensures (View(), action) == Tick(old(View()), now, enemy, player)
    {
      if now < readyAtMs || !ArenaContains(enemy) || !ArenaContains(player) {
        return None;
      }
      if locked.Some? {
        var (origin, target) := locked.value;
        locked := None;
        readyAtMs := SaturatingAdd(now, RECOVERY_MS);
        return Some(Resolved(origin, target, if ChargeHits(origin, target, player) then DAMAGE else 0));
      }
      var target := enemy;
      if Abs(player.x - enemy.x) >= Abs(player.z - enemy.z) {
        target := target.(x := player.x);
      } else {
        target := target.(z := player.z);
      }
      locked := Some((enemy, target));
      readyAtMs := SaturatingAdd(now, WINDUP_MS);
      action := Some(Windup(enemy, target));
    }
  }
}

module Cadences {
  import opened Wrappers
  import opened MachineWords
  import Bulwark
  import Lancer

  const BREATHER_MS: nat := 600

  datatype Member = Guard | Charger {
    function Other(): Member {
      if this == Guard then Charger else Guard
    }
  }

  datatype Warning = Warning(member: Member, resolvesAtMs: nat, durationMs: nat)

  /** The cadence over its two members; actor ids are resolved at the brain. */
  datatype Cadence = Cadence(guardAlive: bool, chargerAlive: bool, next: Member, availableAtMs: nat, warning: Option<Warning>) {
    predicate Alive(m: Member) {
      if m == Guard then guardAlive else chargerAlive
    }
  }

  const INITIAL: Cadence := Cadence(true, true, Guard, 0, None)

  function WindupOf(m: Member): nat {
    if m == Guard then Bulwark.WINDUP_MS else Lancer.WINDUP_MS
  }

  function ReadyMember(c: Cadence, now: nat): Option<Member> {
    if c.warning.Some? || now < c.availableAtMs then None
    else if c.Alive(c.next) then Some(c.next)
    else if c.Alive(c.next.Other()) then Some(c.next.Other())
    else None
  }

  function BeginWarning(c: Cadence, m: Member, now: nat): (Cadence, bool) {
    if ReadyMember(c, now) != Some(m) then (c, false)
    else (c.(warning := Some(Warning(m, SaturatingAdd(now, WindupOf(m)), WindupOf(m)))), true)
  }

  function ResolveWarning(c: Cadence, m: Member, now: nat): (Cadence, bool) {
    if c.warning.None? || c.warning.value.member != m || now < c.warning.value.resolvesAtMs then (c, false)
    else (c.(warning := None, next := m.Other(), availableAtMs := SaturatingAdd(now, BREATHER_MS)), true)
  }

  function Retire(c: Cadence, m: Member, now: nat): Cadence {
    var c := if m == Guard then c.(guardAlive := false) else c.(chargerAlive := false);
    if c.warning.Some? && c.warning.value.member == m then
      c.(warning := None, next := m.Other(), availableAtMs := SaturatingAdd(now, BREATHER_MS))
    else c
  }

  function Confirm(c: Cadence, now: nat): Cadence {
    match c.warning
    case Some(w) => c.(warning := Some(w.(resolvesAtMs := Max(w.resolvesAtMs, SaturatingAdd(now, w.durationMs)))))
    case None => c.(availableAtMs := Max(c.availableAtMs, SaturatingAdd(now, BREATHER_MS)))
  }

  class EliteCadence {
    const actors: (nat, nat)
    var alive: (bool, bool)
    var next: Member
    var availableAtMs: nat
    var warning: Option<Warning>

    ghost predicate Valid()
    {
      actors.0 != 0 && actors.1 != 0 && actors.0 != actors.1
    }

    function View(): Cadence
      reads this
    {
      Cadence(alive.0, alive.1, next, availableAtMs, warning)
    }

    function MemberOf(actor: nat): Option<Member>
      requires Valid()
    {
      if actor == actors.0 then Some(Guard) else if actor == actors.1 then Some(Charger) else None
    }

    constructor (bulwark: nat, lancer: nat)
      requires bulwark != 0 && lancer != 0 && bulwark != lancer
      ensures Valid() && actors == (bulwark, lancer) && View() == INITIAL
    {
      actors := (bulwark, lancer);
      alive, next, availableAtMs, warning := (true, true), Guard, 0, None;
    }

    function ReadyActor(now: nat): (actor: Option<nat>)
      requires Valid()
      reads this
      ensures actor.Some? <==> ReadyMember(View(), now).Some?
      ensures actor.Some? ==> MemberOf(actor.value) == ReadyMember(View(), now)
    {
      match ReadyMember(View(), now)
      case None => None
      case Some(m) => Some(if m == Guard then actors.0 else actors.1)
    }

    method BeginWarningFor(actor: nat, now: nat) returns (accepted: bool)
      requires Valid()
      modifies this
      ensures match MemberOf(actor)
        case Some(m) => (View(), accepted) == BeginWarning(old(View()), m, now)
        case None => View() == old(View()) && !accepted
    {
      if ReadyActor(now) != Some(actor) {
        return false;
      }
      var duration := if actor == actors.0 then Bulwark.WINDUP_MS else Lancer.WINDUP_MS;
      var member := if actor == actors.0 then Guard else Charger;
      warning := Some(Warning(member, SaturatingAdd(now, duration), duration));
      accepted := true;
    }

    method ResolveWarningFor(actor: nat, now: nat) returns (accepted: bool)
      requires Valid()
      modifies this
      ensures match MemberOf(actor)
        case Some(m) => (View(), accepted) == ResolveWarning(old(View()), m, now)
        case None => View() == old(View()) && !accepted
    {
      if warning.None? || MemberOf(actor) != Some(warning.value.member) || now < warning.value.resolvesAtMs {
        return false;
      }
      warning := None;
      next := if actor == actors.0 then Charger else Guard;
      availableAtMs := SaturatingAdd(now, BREATHER_MS);
      accepted := true;
    }

    method RetireActor(actor: nat, now: nat)
      requires Valid()
      modifies this
      ensures match MemberOf(actor)
        case Some(m) => View() == Retire(old(View()), m, now)
        case None => View() == old(View())
    {
      var member := MemberOf(actor);
      if member.Some? {
        alive := if member.value == Guard then (false, alive.1) else (alive.0, false);
        if warning.Some? && warning.value.member == member.value {
          warning := None;
          next := member.value.Other();
          availableAtMs := SaturatingAdd(now, BREATHER_MS);
        }
      }
    }

    method ConfirmAt(now: nat)
      modifies this
      ensures View() == Confirm(old(View()), now)
    {
      if warning.Some? {
        var w := warning.value;
        warning := Some(w.(resolvesAtMs := Max(w.resolvesAtMs, SaturatingAdd(now, w.durationMs))));
      } else {
        availableAtMs := Max(availableAtMs, SaturatingAdd(now, BREATHER_MS));
      }
    }
  }
}

module CrossedGuard {
  import opened Wrappers
  import opened MachineWords
  import opened Actors
  import opened Cadences
  import Bulwark
  import Lancer

  function ToSouth(p: Position): Position {
    p.(z := p.z + 15)
  }

  function ToNorth(p: Position): Position {
    p.(z := p.z - 15)
  }

  /** `NorthPadLancer::tick`: the locked charge, run in the south pad's coordinates. */
  function NorthTick(c: Lancer.Charger, now: nat, origin: Position, player: Position)
    : (Lancer.Charger, Option<Lancer.Action>)
  {
    if !Bulwark.ArenaContains(origin) || !Bulwark.ArenaContains(player) then (c, None)
    else
      var (after, action) := Lancer.Tick(c, now, ToSouth(origin), ToSouth(player));
      match action
      case None => (after, None)
      case Some(Windup(o, t)) => (after, Some(Lancer.Windup(ToNorth(o), ToNorth(t))))
      case Some(Resolved(o, t, damage)) => (after, Some(Lancer.Resolved(ToNorth(o), ToNorth(t), damage)))
  }

  predicate NorthChargeHits(origin: Position, target: Position, player: Position) {
    && Bulwark.ArenaContains(origin) && Bulwark.ArenaContains(target) && Bulwark.ArenaContains(player)
    && Lancer.ChargeHits(ToSouth(origin), ToSouth(target), ToSouth(player))
  }

  /** In the north pad, a resolved charge carries the locked ends in world coordinates and the damage its own test gives. */
  lemma NorthResolvesInWorld(c: Lancer.Charger, now: nat, origin: Position, player: Position, from: Position,
      to: Position)
    requires c.locked == Some((ToSouth(from), ToSouth(to))) && c.readyAtMs <= now
    requires Bulwark.ArenaContains(origin) && Bulwark.ArenaContains(player) && Bulwark.ArenaContains(from) && Bulwark.ArenaContains(to)
    ensures NorthTick(c, now, origin, player).1
      == Some(Lancer.Resolved(from, to, if NorthChargeHits(from, to, player) then Lancer.DAMAGE else 0))
  {
    assert Lancer.ArenaContains(ToSouth(origin)) && Lancer.ArenaContains(ToSouth(player));
    assert ToNorth(ToSouth(from)) == from && ToNorth(ToSouth(to)) == to;
  }

  datatype Action = Defense(bulwark: Bulwark.Action) | Charge(lancer: Lancer.Action)

  datatype Brain = Brain(bulwarkId: nat, partnerId: nat, cadence: Cadence, defense: Bulwark.Guard, charge: Lancer.Charger)

  function Initial(bulwarkId: nat, partnerId: nat): Brain {
    Brain(bulwarkId, partnerId, BeginWarning(Cadences.INITIAL, Guard, 0).0, Bulwark.INITIAL, Lancer.INITIAL)
  }

  predicate LivingEnemy(actor: Option<Actor>, id: nat) {
    && actor.Some? && actor.value.id == id && actor.value.kind == Enemy
    && actor.value.health > 0 && Bulwark.ArenaContains(actor.value.position)
  }

  predicate ValidPlayer(player: Actor) {
    player.kind == Player && player.health > 0 && Bulwark.ArenaContains(player.position)
  }

  /** The member whose turn it is. */
  function Selected(b: Brain, now: nat): Option<Member> {
    if b.cadence.warning.Some? then Some(b.cadence.warning.value.member) else ReadyMember(b.cadence, now)
  }

  /** The selected member's own proposal, before the cadence is asked. */
  function Proposal(b: Brain, now: nat, guard: Option<Actor>, partner: Option<Actor>, player: Actor)
    : Option<(Brain, Action)>
  {
    if !ValidPlayer(player) then None
    else match Selected(b, now)
      case None => None
      case Some(Guard) =>
        if !LivingEnemy(guard, b.bulwarkId) then None
        else
          var (defense, action) := Bulwark.Tick(b.defense, now, guard.value.position, player.position);
          if action.None? then None else Some((b.(defense := defense), Defense(action.value)))
      case Some(Charger) =>
        if !LivingEnemy(partner, b.partnerId) then None
        else
          var (charge, action) := NorthTick(b.charge, now, partner.value.position, player.position);
          if action.None? then None else Some((b.(charge := charge), Charge(action.value)))
  }

  function MemberOf(action: Action): Member {
    if action.Defense? then Guard else Charger
  }

  predicate Resolves(action: Action) {
    match action
    case Defense(a) => a.Slam?
    case Charge(a) => a.Resolved?
  }

  /** The tick itself: the proposal counts only if the cadence accepts it. */
  function Tick(b: Brain, now: nat, guard: Option<Actor>, partner: Option<Actor>, player: Actor)
    : (Brain, Option<Action>)
  {
    match Proposal(b, now, guard, partner, player)
    case None => (b, None)
    case Some((proposed, action)) =>
      var (cadence, accepted) :=
        if Resolves(action) then ResolveWarning(b.cadence, MemberOf(action), now)
        else BeginWarning(b.cadence, MemberOf(action), now);
      if accepted then (proposed.(cadence := cadence), Some(action)) else (b, None)
  }

  function ConfirmAction(b: Brain, action: Action, now: nat): Brain {
    var b := match action
      case Defense(_) => b.(defense := Bulwark.Confirm(b.defense, now))
      case Charge(_) => b.(charge := Lancer.Confirm(b.charge, now));
    b.(cadence := Cadences.Confirm(b.cadence, now))
  }

  function RetireActor(b: Brain, actor: nat, now: nat): Brain {
    if actor == b.bulwarkId then b.(cadence := Retire(b.cadence, Guard, now))
    else if actor == b.partnerId then b.(cadence := Retire(b.cadence, Charger, now))
    else b
  }

  /** The brain owns its parts as values, so a proposal is a copy of one part. */
  class EliteBrain {
    const bulwarkId: nat
    const partnerId: nat
    var cadence: Cadence
    var defense: Bulwark.Guard
    var charge: Lancer.Charger

    function View(): Brain
      reads this
    {
      Brain(bulwarkId, partnerId, cadence, defense, charge)
    }

    constructor (bulwarkId: nat, partnerId: nat)
      requires bulwarkId != 0 && partnerId != 0 && bulwarkId != partnerId
      ensures View() == Initial(bulwarkId, partnerId)
    {
      this.bulwarkId, this.partnerId := bulwarkId, partnerId;
      cadence := BeginWarning(Cadences.INITIAL, Guard, 0).0;
      defense, charge := Bulwark.INITIAL, Lancer.INITIAL;
    }

    method TickAt(now: nat, guard: Option<Actor>, partner: Option<Actor>, player: Actor)
      returns (action: Option<Action>)
      modifies this
      ensures (View(), action) == Tick(old(View()), now, guard, partner, player)
    {
      if !ValidPlayer(player) {
        return None;
      }
      var selected := if cadence.warning.Some? then Some(cadence.warning.value.member) else ReadyMember(cadence, now);
      if selected.None? {
        return None;
      }
      var accepted: bool, agreed: Cadence;
      if selected.value == Guard {
        if !LivingEnemy(guard, bulwarkId) {
          return None;
        }
        var (proposed, act) := Bulwark.Tick(defense, now, guard.value.position, player.position);
        if act.None? {
          return None;
        }
        match act.value {
          case Brace(_) => var r := BeginWarning(cadence, Guard, now); agreed, accepted := r.0, r.1;
          case Slam(_, _) => var r := ResolveWarning(cadence, Guard, now); agreed, accepted := r.0, r.1;
        }
        if !accepted {
          return None;
        }
        cadence, defense := agreed, proposed;
        action := Some(Defense(act.value));
      } else {
        if !LivingEnemy(partner, partnerId) {
          return None;
        }
        var (proposed, act) := NorthTick(charge, now, partner.value.position, player.position);
        if act.None? {
          return None;
        }
        match act.value {
          case Windup(_, _) => var r := BeginWarning(cadence, Charger, now); agreed, accepted := r.0, r.1;
          case Resolved(_, _, _) => var r := ResolveWarning(cadence, Charger, now); agreed, accepted := r.0, r.1;
        }
        if !accepted {
          return None;
        }
        cadence, charge := agreed, proposed;
        action := Some(Charge(act.value));
      }
    }

    method ConfirmAt(action: Action, now: nat)
      modifies this
      ensures View() == ConfirmAction(old(View()), action, now)
    {
      match action {
        case Defense(_) => defense := Bulwark.Confirm(defense, now);
        case Charge(_) => charge := Lancer.Confirm(charge, now);
      }
      cadence := Cadences.Confirm(cadence, now);
    }

    method RetireAt(actor: nat, now: nat)
      modifies this
      ensures View() == RetireActor(old(View()), actor, now)
    {
      if actor == bulwarkId {
        cadence := Retire(cadence, Guard, now);
      } else if actor == partnerId {
        cadence := Retire(cadence, Charger, now);
      }
    }
  }

  /** `EliteBrain::new`: two distinct, real actors. */
  method NewBrain(bulwarkId: nat, partnerId: nat) returns (brain: Option<EliteBrain>)
    ensures brain.Some? <==> bulwarkId != 0 && partnerId != 0 && bulwarkId != partnerId
    ensures brain.Some? ==> fresh(brain.value) && brain.value.View() == Initial(bulwarkId, partnerId)
  {
    if bulwarkId == 0 || partnerId == 0 || bulwarkId == partnerId {
      return None;
    }
    var created := new EliteBrain(bulwarkId, partnerId);
    brain := Some(created);
  }

  // ----- what every run keeps -----

  /** A step of the server: a tick published only with its own confirmation, or a confirmed death. */
  datatype Step =
    | Turn(at: nat, guard: Option<Actor>, partner: Option<Actor>, player: Actor, confirmedAt: nat)
    | Death(actor: nat, at: nat)

  /** One danger window: when its warning was confirmed and when it resolved. */
  datatype Danger = Danger(member: Member, warnedAt: nat, resolvedAt: nat)

  datatype Track = Track(brain: Brain, clock: nat, warnedAt: nat, dangers: seq<Danger>)

  function Start(bulwarkId: nat, partnerId: nat): Track {
    Track(Initial(bulwarkId, partnerId), 0, 0, [])
  }

  ghost predicate Legal(t: Track, s: Step) {
    && t.clock <= s.at
    && s.at + 10_000 <= U64_MAX
    && (s.Turn? ==> s.at <= s.confirmedAt && s.confirmedAt + 10_000 <= U64_MAX)
  }

  function Advance(t: Track, s: Step): Track {
    match s
    case Death(actor, at) => t.(brain := RetireActor(t.brain, actor, at), clock := at)
    case Turn(at, guard, partner, player, confirmedAt) =>
      var (ticked, action) := Tick(t.brain, at, guard, partner, player);
      if action.None? then t.(clock := at)
      else
        var brain := ConfirmAction(ticked, action.value, confirmedAt);
        if Resolves(action.value) then
          Track(brain, confirmedAt, t.warnedAt, t.dangers + [Danger(MemberOf(action.value), t.warnedAt, at)])
        else
          Track(brain, confirmedAt, confirmedAt, t.dangers)
  }

  function WindingUp(b: Brain, m: Member): bool {
    if m == Guard then b.defense.braced else b.charge.locked.Some?
  }

  function ReadyAt(b: Brain, m: Member): nat {
    if m == Guard then b.defense.readyAtMs else b.charge.readyAtMs
  }

  /** A living member winds up iff the cadence holds its warning, on one deadline. */
  ghost predicate MemberAgrees(b: Brain, m: Member) {
    b.cadence.Alive(m) ==>
      && (WindingUp(b, m) <==> b.cadence.warning.Some? && b.cadence.warning.value.member == m)
      && (WindingUp(b, m) ==> ReadyAt(b, m) == b.cadence.warning.value.resolvesAtMs)
  }

  ghost predicate Agrees(b: Brain) {
    && b.bulwarkId != b.partnerId
    && MemberAgrees(b, Guard) && MemberAgrees(b, Charger)
    && (b.cadence.warning.Some? ==>
          && b.cadence.Alive(b.cadence.warning.value.member)
          && b.cadence.warning.value.durationMs == WindupOf(b.cadence.warning.value.member))
  }

  const MIN_GAP_MS: nat := 2_200

  /** Every window follows its confirmed warning by the full wind-up, and the
      one before it by at least the breather and the shorter wind-up. */
  ghost predicate WellSpaced(dangers: seq<Danger>) {
    && (forall i :: 0 <= i < |dangers| ==> dangers[i].warnedAt + WindupOf(dangers[i].member) <= dangers[i].resolvedAt)
    && forall i, j :: 0 <= i < j < |dangers| ==> dangers[i].resolvedAt + MIN_GAP_MS <= dangers[j].resolvedAt
  }

  ghost predicate Invariant(t: Track) {
    && Agrees(t.brain)
    && WellSpaced(t.dangers)
    && (forall i :: 0 <= i < |t.dangers| ==> t.dangers[i].resolvedAt <= t.clock)
    && var c := t.brain.cadence;
       match c.warning
       case Some(w) =>
         && t.warnedAt + w.durationMs <= w.resolvesAtMs
         && forall i :: 0 <= i < |t.dangers| ==> t.dangers[i].resolvedAt + BREATHER_MS + w.durationMs <= w.resolvesAtMs
       case None =>
         forall i :: 0 <= i < |t.dangers| ==> t.dangers[i].resolvedAt + BREATHER_MS <= c.availableAtMs
  }

  /** The "not accepted" branches are dead: whatever a member proposes, the cadence accepts. */
  lemma ProposalsAreAccepted(b: Brain, now: nat, guard: Option<Actor>, partner: Option<Actor>, player: Actor)
    requires Agrees(b)
    ensures match Proposal(b, now, guard, partner, player)
      case None => Tick(b, now, guard, partner, player) == (b, None)
      case Some((_, action)) => Tick(b, now, guard, partner, player).1 == Some(action)
  {
  }

  /** A late enough tick acts while a member lives: only the living members' own timers and records matter. */
  lemma LateTicksAct(b: Brain, now: nat, guard: Option<Actor>, partner: Option<Actor>, player: Actor)
    requires Agrees(b) && ValidPlayer(player)
    requires b.cadence.guardAlive || b.cadence.chargerAlive
    requires b.cadence.guardAlive ==> LivingEnemy(guard, b.bulwarkId) && now >= b.defense.readyAtMs
    requires b.cadence.chargerAlive ==> LivingEnemy(partner, b.partnerId) && now >= b.charge.readyAtMs
    requires now >= b.cadence.availableAtMs
    ensures Tick(b, now, guard, partner, player).1.Some?
  {
    ProposalsAreAccepted(b, now, guard, partner, player);
  }

  lemma InvariantHolds(bulwarkId: nat, partnerId: nat)
    requires bulwarkId != 0 && partnerId != 0 && bulwarkId != partnerId
    ensures Invariant(Start(bulwarkId, partnerId))
  {
  }

  lemma AgreementIsKept(t: Track, s: Step)
    requires Agrees(t.brain) && Legal(t, s)
    ensures Agrees(Advance(t, s).brain)
  {
    if s.Turn? {
      ProposalsAreAccepted(t.brain, s.at, s.guard, s.partner, s.player);
    }
  }

  /** What a turn does to the cadence, once its confirmation is in. */
  lemma TurnEffect(t: Track, s: Step)
    requires Agrees(t.brain) && Legal(t, s) && s.Turn?
    ensures var (ticked, action) := Tick(t.brain, s.at, s.guard, s.partner, s.player);
      var before, after := t.brain.cadence, Advance(t, s).brain.cadence;
      && (action.None? ==> after == before)
      && (action.Some? && Resolves(action.value) ==>
            && before.warning.Some? && before.warning.value.member == MemberOf(action.value)
            && before.warning.value.resolvesAtMs <= s.at
            && after.warning.None? && after.availableAtMs >= s.at + BREATHER_MS)
      && (action.Some? && !Resolves(action.value) ==>
            && before.warning.None? && before.availableAtMs <= s.at
            && after.warning.Some?
            && after.warning.value.resolvesAtMs >= s.confirmedAt + after.warning.value.durationMs)
  {
    ProposalsAreAccepted(t.brain, s.at, s.guard, s.partner, s.player);
  }

  lemma StepKeepsInvariant(t: Track, s: Step)
    requires Invariant(t) && Legal(t, s)
    ensures Invariant(Advance(t, s))
  {
    AgreementIsKept(t, s);
    if s.Turn? {
      TurnEffect(t, s);
      hide Tick, ConfirmAction, Agrees, Proposal;
      var after := Advance(t, s);
      var w := t.brain.cadence.warning;
      if |after.dangers| > |t.dangers| {
        assert WindupOf(w.value.member) >= MIN_GAP_MS - BREATHER_MS;
        assert w.value.durationMs == WindupOf(w.value.member) by { KnownDuration(t.brain); }
      }
    }
  }

  lemma KnownDuration(b: Brain)
    requires Agrees(b) && b.cadence.warning.Some?
    ensures b.cadence.warning.value.durationMs == WindupOf(b.cadence.warning.value.member)
  {
  }

  function Run(t: Track, steps: seq<Step>): Track {
    if steps == [] then t else Advance(Run(t, steps[..|steps| - 1]), steps[|steps| - 1])
  }

  ghost predicate LegalRun(t: Track, steps: seq<Step>) {
    steps == [] || (LegalRun(t, steps[..|steps| - 1]) && Legal(Run(t, steps[..|steps| - 1]), steps[|steps| - 1]))
  }

  /**
   * Over every legal run of ticks, late confirmations and deaths: cadence and
   * members agree, every danger window follows its confirmed warning by the full
   * wind-up, and any two windows are at least 2,200 ms apart.
   */
  lemma {:induction false} EveryRunIsSafe(bulwarkId: nat, partnerId: nat, steps: seq<Step>)
    requires bulwarkId != 0 && partnerId != 0 && bulwarkId != partnerId
    requires LegalRun(Start(bulwarkId, partnerId), steps)
    ensures Agrees(Run(Start(bulwarkId, partnerId), steps).brain)
    ensures WellSpaced(Run(Start(bulwarkId, partnerId), steps).dangers)
    ensures Invariant(Run(Start(bulwarkId, partnerId), steps))
  {
    if steps == [] {
      InvariantHolds(bulwarkId, partnerId);
    } else {
      var front := steps[..|steps| - 1];
      EveryRunIsSafe(bulwarkId, partnerId, front);
      StepKeepsInvariant(Run(Start(bulwarkId, partnerId), front), steps[|steps| - 1]);
    }
  }

  /** Members take turns: the same one strikes twice running only once the other is dead. */
  ghost predicate TakesTurns(c: Cadence, dangers: seq<Danger>) {
    && (forall i, j :: 0 <= i && j == i + 1 && j < |dangers| && dangers[i].member == dangers[j].member ==>
          !c.Alive(dangers[i].member.Other()))
    && (dangers != [] ==> var other := dangers[|dangers| - 1].member.Other(); c.next == other || !c.Alive(other))
    && (c.warning.Some? ==> c.warning.value.member == c.next || !c.Alive(c.next))
  }

  lemma StepTakesTurns(t: Track, s: Step)
    requires Agrees(t.brain) && Legal(t, s) && TakesTurns(t.brain.cadence, t.dangers)
    ensures TakesTurns(Advance(t, s).brain.cadence, Advance(t, s).dangers)
  {
    if s.Turn? {
      ProposalsAreAccepted(t.brain, s.at, s.guard, s.partner, s.player);
      hide Bulwark.Tick, NorthTick, Bulwark.Confirm, Lancer.Confirm, LivingEnemy, ValidPlayer;
    }
  }

  /** Over every legal run the two members alternate while both live. */
  lemma {:induction false} EveryRunTakesTurns(bulwarkId: nat, partnerId: nat, steps: seq<Step>)
    requires bulwarkId != 0 && partnerId != 0 && bulwarkId != partnerId
    requires LegalRun(Start(bulwarkId, partnerId), steps)
    ensures var t := Run(Start(bulwarkId, partnerId), steps); TakesTurns(t.brain.cadence, t.dangers)
  {
    if steps != [] {
      var front := steps[..|steps| - 1];
      EveryRunIsSafe(bulwarkId, partnerId, front);
      EveryRunTakesTurns(bulwarkId, partnerId, front);
      StepTakesTurns(Run(Start(bulwarkId, partnerId), front), steps[|steps| - 1]);
      hide Advance, Agrees, TakesTurns, WellSpaced, Legal;
    }
  }
}
