// What the Crossed Guard does to the player, told by the log of its published
// actions and by coordinates alone.

module EliteDeeds {
  import opened Wrappers
  import opened MachineWords
  import opened Actors
  import opened Cadences
  import opened CrossedGuard
  import Bulwark
  import Lancer

  /** A published action: when it was proposed and confirmed, and where member and player stood. */
  datatype Deed = Deed(action: Action, at: nat, confirmedAt: nat, origin: Position, player: Position)

  function DeedOf(t: Track, s: Step): Option<Deed> {
    match s
    case Death(_, _) => None
    case Turn(at, guard, partner, player, confirmedAt) =>
      match Tick(t.brain, at, guard, partner, player).1
      case None => None
      case Some(action) =>
        var member := if action.Defense? then guard else partner;
        match member
        case None => None
        case Some(actor) => Some(Deed(action, at, confirmedAt, actor.position, player.position))
  }

  function DeedsOf(t: Track, steps: seq<Step>): seq<Deed> {
    if steps == [] then []
    else
      var front, last := steps[..|steps| - 1], steps[|steps| - 1];
      match DeedOf(Run(t, front), last)
      case None => DeedsOf(t, front)
      case Some(deed) => DeedsOf(t, front) + [deed]
  }

  /** The last deed of one member before a place in the log. */
  function LastOf(deeds: seq<Deed>, member: Member): Option<Deed> {
    if deeds == [] then None
    else if MemberOf(deeds[|deeds| - 1].action) == member then Some(deeds[|deeds| - 1])
    else LastOf(deeds[..|deeds| - 1], member)
  }

  // ----- the Bulwark, in coordinates -----

  /** `p` lies in the quarter plane the facing looks into, its diagonals included. */
  ghost predicate Before(facing: Bulwark.Facing, origin: Position, p: Position) {
    var east, south := p.x - origin.x, p.z - origin.z;
    match facing
    case East => east > 0 && -east <= south <= east
    case West => east < 0 && east <= south <= -east
    case South => south > 0 && -south <= east <= south
    case North => south < 0 && south <= east <= -south
  }

  /** Within two cells as the crow flies. */
  ghost predicate Near(origin: Position, p: Position) {
    var east, south := p.x - origin.x, p.z - origin.z;
    east * east + south * south <= 4
  }

  /** The facing the player is seen from: along x on the diagonals, and the old one from the same cell. */
  ghost predicate Turned(old_: Bulwark.Facing, facing: Bulwark.Facing, origin: Position, player: Position) {
    if origin.x == player.x && origin.z == player.z then facing == old_
    else
      && Before(facing, origin, player)
      && (Abs(player.x - origin.x) == Abs(player.z - origin.z) ==> facing.East? || facing.West?)
  }

  /** What a Bulwark's deed has to be, given its last one. */
  ghost predicate RightDefense(last: Option<Deed>, deed: Deed)
    requires deed.action.Defense?
  {
    var facing := if last.Some? && last.value.action.Defense? then last.value.action.bulwark.facing else Bulwark.West;
    var ready := if last.None? then 1_600 else last.value.confirmedAt + (if Resolves(last.value.action) then 1_800 else 1_600);
    && ready <= deed.at
    && match deed.action.bulwark
       case Brace(turned) =>
         && last.Some? && Resolves(last.value.action) && Turned(facing, turned, deed.origin, deed.player)
       case Slam(slammed, damage) =>
         && (last.Some? ==> !Resolves(last.value.action))
         && slammed == facing
         && damage == if Before(facing, deed.origin, deed.player) && Near(deed.origin, deed.player) then 14 else 0
  }

  // ----- the lancer, in coordinates -----

  /** The end of a charge: the player's place on the axis along which it is further away. */
  ghost predicate Aimed(origin: Position, player: Position, end: Position) {
    && end.y == origin.y
    && if Abs(player.x - origin.x) >= Abs(player.z - origin.z) then end.x == player.x && end.z == origin.z
       else end.x == origin.x && end.z == player.z
  }

  ghost predicate OnTheWay(from: Position, to: Position, p: Position) {
    || (from.z == to.z == p.z && (from.x <= p.x <= to.x || to.x <= p.x <= from.x))
    || (from.x == to.x == p.x && (from.z <= p.z <= to.z || to.z <= p.z <= from.z))
  }

  ghost predicate RightCharge(last: Option<Deed>, deed: Deed)
    requires deed.action.Charge?
  {
    var ready := if last.None? then 700 else last.value.confirmedAt + (if Resolves(last.value.action) then 1_400 else 1_800);
    && ready <= deed.at
    && match deed.action.lancer
       case Windup(from, to) =>
         && (last.Some? ==> Resolves(last.value.action))
         && from == deed.origin && Aimed(deed.origin, deed.player, to)
       case Resolved(from, to, damage) =>
         && last.Some? && last.value.action == Charge(Lancer.Windup(from, to))
         && damage == if OnTheWay(from, to, deed.player) then 18 else 0
  }

  ghost predicate RightDeed(before: seq<Deed>, deed: Deed) {
    match deed.action
    case Defense(_) => RightDefense(LastOf(before, Guard), deed)
    case Charge(_) => RightCharge(LastOf(before, Charger), deed)
  }

  ghost predicate AllRight(deeds: seq<Deed>) {
    forall i :: 0 <= i < |deeds| ==> RightDeed(deeds[..i], deeds[i])
  }

  // ----- what the members remember of their last deeds -----

  ghost predicate GuardRemembers(g: Bulwark.Guard, last: Option<Deed>) {
    match last
    case None => g == Bulwark.Guard(Bulwark.West, true, 1_600)
    case Some(deed) =>
      && deed.action.Defense? && g.facing == deed.action.bulwark.facing
      && g.braced == !Resolves(deed.action)
      && g.readyAtMs == deed.confirmedAt + (if Resolves(deed.action) then 1_800 else 1_600)
  }

  ghost predicate ChargerRemembers(c: Lancer.Charger, last: Option<Deed>) {
    match last
    case None => c == Lancer.Charger(700, None)
    case Some(deed) =>
      && deed.action.Charge?
      && c.readyAtMs == deed.confirmedAt + (if Resolves(deed.action) then 1_400 else 1_800)
      && match deed.action.lancer
         case Windup(from, to) =>
           && c.locked == Some((ToSouth(from), ToSouth(to)))
           && Bulwark.ArenaContains(from) && Bulwark.ArenaContains(to)
         case Resolved(_, _, _) => c.locked.None?
  }

  ghost predicate Remembers(b: Brain, deeds: seq<Deed>) {
    GuardRemembers(b.defense, LastOf(deeds, Guard)) && ChargerRemembers(b.charge, LastOf(deeds, Charger))
  }

  lemma LastOfSnoc(deeds: seq<Deed>, deed: Deed, m: Member)
    ensures LastOf(deeds + [deed], m) == if MemberOf(deed.action) == m then Some(deed) else LastOf(deeds, m)
  {
    assert (deeds + [deed])[..|deeds|] == deeds;
  }

  /** Turning, in coordinates. */
  lemma TurnsToSee(old_: Bulwark.Facing, origin: Position, player: Position)
    requires origin.y == player.y
    ensures Turned(old_, old_.Toward(origin, player), origin, player)
  {
  }

  /** A slam's reach, in coordinates. */
  lemma SlamsNearBefore(facing: Bulwark.Facing, origin: Position, player: Position)
    requires Bulwark.ArenaContains(origin) && Bulwark.ArenaContains(player)
    ensures Bulwark.SlamHits(facing, origin, player) <==> Before(facing, origin, player) && Near(origin, player)
  {
  }

  lemma GuardTickIsRight(g: Bulwark.Guard, last: Option<Deed>, s: Step)
    requires s.Turn? && s.guard.Some? && GuardRemembers(g, last)
    requires s.at <= s.confirmedAt && s.confirmedAt + 10_000 <= U64_MAX
    ensures var (after, action) := Bulwark.Tick(g, s.at, s.guard.value.position, s.player.position);
      action.Some? ==>
        var deed := Deed(Defense(action.value), s.at, s.confirmedAt, s.guard.value.position, s.player.position);
        RightDefense(last, deed) && GuardRemembers(Bulwark.Confirm(after, s.confirmedAt), Some(deed))
  {
    var origin, player := s.guard.value.position, s.player.position;
    if Bulwark.Tick(g, s.at, origin, player).1.Some? {
      TurnsToSee(g.facing, origin, player);
      SlamsNearBefore(g.facing, origin, player);
      hide Bulwark.Facing.Toward, Bulwark.SlamHits, Before, Near, Turned;
    }
  }

  /** What a lancer's tick is, when it is one. */
  lemma NorthTickShows(c: Lancer.Charger, at: nat, origin: Position, player: Position)
    requires NorthTick(c, at, origin, player).1.Some? && at + 10_000 <= U64_MAX
    ensures Bulwark.ArenaContains(origin) && Bulwark.ArenaContains(player) && c.readyAtMs <= at
    ensures var (after, action) := NorthTick(c, at, origin, player);
      match c.locked
      case None =>
        var to := Lancer.LockedTarget(ToSouth(origin), ToSouth(player));
        && after == Lancer.Charger(at + 1_800, Some((ToSouth(origin), to)))
        && action == Some(Lancer.Windup(origin, ToNorth(to)))
      case Some((from, to)) =>
        && after == Lancer.Charger(at + 1_400, None)
        && action == Some(Lancer.Resolved(
             ToNorth(from), ToNorth(to), if Lancer.ChargeHits(from, to, ToSouth(player)) then 18 else 0))
  {
    assert ToNorth(ToSouth(origin)) == origin;
    hide Lancer.ChargeHits, Lancer.LockedTarget;
  }

  lemma ChargerTickIsRight(c: Lancer.Charger, last: Option<Deed>, s: Step)
    requires s.Turn? && s.partner.Some? && ChargerRemembers(c, last)
    requires s.at <= s.confirmedAt && s.confirmedAt + 10_000 <= U64_MAX
    ensures var (after, action) := NorthTick(c, s.at, s.partner.value.position, s.player.position);
      action.Some? ==>
        var deed := Deed(Charge(action.value), s.at, s.confirmedAt, s.partner.value.position, s.player.position);
        RightCharge(last, deed) && ChargerRemembers(Lancer.Confirm(after, s.confirmedAt), Some(deed))
  {
    hide NorthTick, Lancer.ChargeHits, Lancer.LockedTarget, OnTheWay, Aimed, Bulwark.ArenaContains;
    var origin, player := s.partner.value.position, s.player.position;
    if NorthTick(c, s.at, origin, player).1.Some? {
      NorthTickShows(c, s.at, origin, player);
      if c.locked.None? {
        var to := Lancer.LockedTarget(ToSouth(origin), ToSouth(player));
        LocksTheLine(origin, player);
        assert ToSouth(ToNorth(to)) == to;
      } else {
        var (from, to) := c.locked.value;
        assert last.value.action.lancer.Windup?;
        ChargesTheLine(last.value.action.lancer.origin, last.value.action.lancer.target, player);
        assert ToNorth(from) == last.value.action.lancer.origin && ToNorth(to) == last.value.action.lancer.target;
      }
    }
  }

  /** A wind-up's line, in the north pad's coordinates. */
  lemma LocksTheLine(origin: Position, player: Position)
    requires Bulwark.ArenaContains(origin) && Bulwark.ArenaContains(player)
    ensures var to := ToNorth(Lancer.LockedTarget(ToSouth(origin), ToSouth(player)));
      Aimed(origin, player, to) && Bulwark.ArenaContains(to)
  {
  }

  /** A charge's line, in the north pad's coordinates. */
  lemma ChargesTheLine(from: Position, to: Position, player: Position)
    requires Bulwark.ArenaContains(from) && Bulwark.ArenaContains(to) && Bulwark.ArenaContains(player)
    ensures Lancer.ChargeHits(ToSouth(from), ToSouth(to), ToSouth(player)) <==> OnTheWay(from, to, player)
  {
  }

  /** A step acts through one member, or leaves both as they were. */
  lemma StepTouchesOne(t: Track, s: Step)
    ensures var after := Advance(t, s).brain;
      match DeedOf(t, s)
      case None => after.defense == t.brain.defense && after.charge == t.brain.charge
      case Some(deed) =>
        && s.Turn?
        && match deed.action
           case Defense(action) =>
             && s.guard.Some?
             && var (guard, proposed) := Bulwark.Tick(t.brain.defense, s.at, s.guard.value.position, s.player.position);
             && proposed == Some(action)
             && deed == Deed(Defense(action), s.at, s.confirmedAt, s.guard.value.position, s.player.position)
             && after.defense == Bulwark.Confirm(guard, s.confirmedAt) && after.charge == t.brain.charge
           case Charge(action) =>
             && s.partner.Some?
             && var (charger, proposed) := NorthTick(t.brain.charge, s.at, s.partner.value.position, s.player.position);
             && proposed == Some(action)
             && deed == Deed(Charge(action), s.at, s.confirmedAt, s.partner.value.position, s.player.position)
             && after.charge == Lancer.Confirm(charger, s.confirmedAt) && after.defense == t.brain.defense
  {
    hide Bulwark.Tick, NorthTick, Bulwark.Confirm, Lancer.Confirm, BeginWarning, ResolveWarning, Retire, Cadences.Confirm;
  }

  lemma StepIsRight(t: Track, s: Step, deeds: seq<Deed>)
    requires Legal(t, s) && Remembers(t.brain, deeds)
    ensures match DeedOf(t, s)
      case None => Remembers(Advance(t, s).brain, deeds)
      case Some(deed) => RightDeed(deeds, deed) && Remembers(Advance(t, s).brain, deeds + [deed])
  {
    StepTouchesOne(t, s);
    if DeedOf(t, s).Some? {
      var deed := DeedOf(t, s).value;
      LastOfSnoc(deeds, deed, Guard);
      LastOfSnoc(deeds, deed, Charger);
      match deed.action
      case Defense(_) => GuardTickIsRight(t.brain.defense, LastOf(deeds, Guard), s);
      case Charge(_) => ChargerTickIsRight(t.brain.charge, LastOf(deeds, Charger), s);
    }
    hide Advance, DeedOf, Bulwark.Tick, NorthTick, Bulwark.Confirm, Lancer.Confirm, GuardRemembers, ChargerRemembers;
    hide RightDefense, RightCharge, LastOf;
  }

  /**
   * Over every legal run, every published action is the one coordinates and the
   * member's last action ask for. A slam strikes toward the facing of the brace
   * before it, West at first, and does 14 exactly to a player in that quarter
   * within two cells; a brace looks at the player where he stood. A charge
   * resolves along the line locked by the wind-up before it and does 18 exactly
   * to a player on it. Each waits out the member's interval from the last
   * confirmation.
   */
  lemma {:induction false} EveryDeedIsRight(bulwarkId: nat, partnerId: nat, steps: seq<Step>)
    requires bulwarkId != 0 && partnerId != 0 && bulwarkId != partnerId
    requires LegalRun(Start(bulwarkId, partnerId), steps)
    ensures var t := Start(bulwarkId, partnerId);
      AllRight(DeedsOf(t, steps)) && Remembers(Run(t, steps).brain, DeedsOf(t, steps))
  {
    if steps != [] {
      var t, front, last := Start(bulwarkId, partnerId), steps[..|steps| - 1], steps[|steps| - 1];
      EveryDeedIsRight(bulwarkId, partnerId, front);
      StepIsRight(Run(t, front), last, DeedsOf(t, front));
      hide Advance, DeedOf, Remembers, RightDeed, Legal;
      var deeds := DeedsOf(t, steps);
      forall i | 0 <= i < |deeds| ensures RightDeed(deeds[..i], deeds[i]) {
        if i < |DeedsOf(t, front)| {
          assert deeds[..i] == DeedsOf(t, front)[..i];
        } else {
          assert deeds[..i] == DeedsOf(t, front);
        }
      }
    }
  }

  // ----- who acts, and when -----

  /** A living actor of a kind on the pad, in coordinates. */
  ghost predicate InPlay(actor: Actor, kind: ActorKind) {
    && actor.kind == kind && actor.health > 0
    && actor.position.y == 0 && 5 <= actor.position.x <= 10 && -10 <= actor.position.z <= -5
  }

  /** It is the member's turn: its warning stands, or nobody's does, the pad has rested, and it is next or alone. */
  ghost predicate HasTurn(b: Brain, m: Member, now: nat) {
    match b.cadence.warning
    case Some(w) => w.member == m
    case None => now >= b.cadence.availableAtMs && b.cadence.Alive(m) && (b.cadence.next == m || !b.cadence.Alive(b.cadence.next))
  }

  /** The member's own actor is in play and its timer has run out. */
  ghost predicate CanAct(b: Brain, m: Member, now: nat, guard: Option<Actor>, partner: Option<Actor>) {
    if m == Guard then
      guard.Some? && guard.value.id == b.bulwarkId && InPlay(guard.value, Enemy) && now >= b.defense.readyAtMs
    else
      partner.Some? && partner.value.id == b.partnerId && InPlay(partner.value, Enemy) && now >= b.charge.readyAtMs
  }

  /** In every agreeing state a tick acts exactly when the player is in play and the member whose turn it is can act. */
  lemma ActsExactly(b: Brain, now: nat, guard: Option<Actor>, partner: Option<Actor>, player: Actor)
    requires Agrees(b)
    ensures var action := Tick(b, now, guard, partner, player).1;
      && (action.Some? <==>
            InPlay(player, Player) && exists m :: HasTurn(b, m, now) && CanAct(b, m, now, guard, partner))
      && (action.Some? ==> HasTurn(b, MemberOf(action.value), now) && CanAct(b, MemberOf(action.value), now, guard, partner))
  {
    ProposalsAreAccepted(b, now, guard, partner, player);
    assert HasTurn(b, Guard, now) || HasTurn(b, Charger, now) || Selected(b, now).None?;
  }

  /** Which warning stands, and since when the pad rests, told by deeds and deaths alone. */
  datatype Pace = Pace(standing: Option<Member>, restingFrom: Option<nat>)

  function PaceAfter(p: Pace, deed: Option<Deed>, s: Step, bulwarkId: nat, partnerId: nat): Pace {
    match s
    case Turn(_, _, _, _, _) =>
      (match deed
       case None => p
       case Some(d) =>
         if Resolves(d.action) then Pace(None, Some(d.confirmedAt)) else p.(standing := Some(MemberOf(d.action))))
    case Death(actor, at) =>
      if (p.standing == Some(Guard) && actor == bulwarkId) || (p.standing == Some(Charger) && actor == partnerId)
      then Pace(None, Some(at)) else p
  }

  function PaceOf(t: Track, steps: seq<Step>): Pace {
    if steps == [] then Pace(Some(Guard), None)
    else
      var front, last := steps[..|steps| - 1], steps[|steps| - 1];
      PaceAfter(PaceOf(t, front), DeedOf(Run(t, front), last), last, t.brain.bulwarkId, t.brain.partnerId)
  }

  ghost predicate Paces(b: Brain, p: Pace) {
    match b.cadence.warning
    case Some(w) => p.standing == Some(w.member)
    case None =>
      p.standing.None? && b.cadence.availableAtMs == (if p.restingFrom.None? then 0 else p.restingFrom.value + 600)
  }

  ghost predicate Fell(steps: seq<Step>, actor: nat) {
    exists i :: 0 <= i < |steps| && steps[i].Death? && steps[i].actor == actor
  }

  lemma FellSnoc(steps: seq<Step>, s: Step, actor: nat)
    ensures Fell(steps + [s], actor) <==> Fell(steps, actor) || (s.Death? && s.actor == actor)
  {
    var more := steps + [s];
    assert more[|steps|] == s;
    assert forall i :: 0 <= i < |steps| ==> more[i] == steps[i];
  }

  lemma StepFells(t: Track, s: Step)
    requires t.brain.bulwarkId != t.brain.partnerId
    ensures var before, after := t.brain.cadence, Advance(t, s).brain.cadence;
      && (after.guardAlive <==> before.guardAlive && !(s.Death? && s.actor == t.brain.bulwarkId))
      && (after.chargerAlive <==> before.chargerAlive && !(s.Death? && s.actor == t.brain.partnerId))
  {
    hide Proposal, Bulwark.Confirm, Lancer.Confirm;
    if s.Turn? {
      TickKeepsLives(t.brain, s.at, s.guard, s.partner, s.player);
      hide Tick;
    }
  }

  lemma TickKeepsLives(b: Brain, now: nat, guard: Option<Actor>, partner: Option<Actor>, player: Actor)
    ensures var after := Tick(b, now, guard, partner, player).0.cadence;
      after.guardAlive == b.cadence.guardAlive && after.chargerAlive == b.cadence.chargerAlive
  {
    hide Bulwark.Tick, NorthTick, ReadyMember;
  }

  lemma StepPaces(t: Track, s: Step, p: Pace)
    requires Legal(t, s) && Agrees(t.brain) && Paces(t.brain, p)
    ensures Paces(Advance(t, s).brain, PaceAfter(p, DeedOf(t, s), s, t.brain.bulwarkId, t.brain.partnerId))
    ensures Advance(t, s).brain.bulwarkId == t.brain.bulwarkId && Advance(t, s).brain.partnerId == t.brain.partnerId
  {
    if s.Turn? {
      ProposalsAreAccepted(t.brain, s.at, s.guard, s.partner, s.player);
    }
    hide Bulwark.Tick, NorthTick, Bulwark.Confirm, Lancer.Confirm, Bulwark.ArenaContains;
  }

  /**
   * Over every legal run: the cadence's warning is the one standing by deeds
   * and deaths, and without one the pad rests 600 ms from the confirmation of
   * the last resolution, or from the death that cut a warning short; a member
   * lives for the cadence until its death is recorded.
   */
  lemma {:induction false} EveryRunRests(bulwarkId: nat, partnerId: nat, steps: seq<Step>)
    requires bulwarkId != 0 && partnerId != 0 && bulwarkId != partnerId
    requires LegalRun(Start(bulwarkId, partnerId), steps)
    ensures var t := Start(bulwarkId, partnerId);
      && Paces(Run(t, steps).brain, PaceOf(t, steps))
      && Run(t, steps).brain.bulwarkId == bulwarkId && Run(t, steps).brain.partnerId == partnerId
      && (Run(t, steps).brain.cadence.guardAlive <==> !Fell(steps, bulwarkId))
      && (Run(t, steps).brain.cadence.chargerAlive <==> !Fell(steps, partnerId))
  {
    if steps != [] {
      var t, front := Start(bulwarkId, partnerId), steps[..|steps| - 1];
      EveryRunRests(bulwarkId, partnerId, front);
      EveryRunIsSafe(bulwarkId, partnerId, front);
      hide Advance, DeedOf, Agrees, Paces, Legal, WellSpaced, PaceAfter, Fell;
      assert steps == front + [steps[|steps| - 1]];
      FellSnoc(front, steps[|steps| - 1], bulwarkId);
      FellSnoc(front, steps[|steps| - 1], partnerId);
      StepFells(Run(t, front), steps[|steps| - 1]);
      StepPaces(Run(t, front), steps[|steps| - 1], PaceOf(t, front));
    }
  }
}
