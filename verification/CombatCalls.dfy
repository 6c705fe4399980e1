// Which attack calls land, over any run of them, told by the field the run
// started from: who stands where, who lives, who has fired.

module CombatCalls {
  import opened Wrappers
  import opened MachineWords
  import opened Actors
  import opened CombatAnalysis
  import opened CombatRuntime

  /** Within the profile's range as the crow flies. */
  predicate Reaches(from: Position, to: Position, range: int) {
    var dx, dy, dz := to.x - from.x, to.y - from.y, to.z - from.z;
    dx * dx + dy * dy + dz * dz <= range * range
  }

  lemma ReachIsRange(from: Position, to: Position, range: int)
    ensures DistanceSquared(from, to) <= Square(range) <==> Reaches(from, to, range)
  {
    SquareIsProduct(from.x - to.x, to.x - from.x);
    SquareIsProduct(from.y - to.y, to.y - from.y);
    SquareIsProduct(from.z - to.z, to.z - from.z);
    SquareIsProduct(range, range);
  }

  lemma SquareIsProduct(n: int, m: int)
    requires n == m || n == -m
    ensures Square(n) == m * m
  {
  }

  /** The calls of a run that were accepted, in order. */
  function Accepted(field: Field, calls: seq<Call>, profile: AttackProfile): seq<Call> {
    if calls == [] then []
    else
      var front, last := calls[..|calls| - 1], calls[|calls| - 1];
      Accepted(field, front, profile) + (if Rejection(After(field, front, profile), last, profile).None? then [last] else [])
  }

  /** How many calls were on a target. */
  function CountOn(calls: seq<Call>, target: nat): nat {
    if calls == [] then 0
    else CountOn(calls[..|calls| - 1], target) + (if calls[|calls| - 1].target == target then 1 else 0)
  }

  lemma CountOnSnoc(calls: seq<Call>, call: Call, target: nat)
    ensures CountOn(calls + [call], target) == CountOn(calls, target) + (if call.target == target then 1 else 0)
  {
    assert (calls + [call])[..|calls|] == calls;
  }

  predicate IsLiving(field: Field, id: nat, kind: ActorKind) {
    id in field.actors && field.actors[id].kind == kind && field.actors[id].health > 0
  }

  /**
   * Whether a call lands after the `earlier` accepted ones: a player who lives
   * fires at an enemy the earlier hits have not killed, within range, a cooldown
   * after each of its own earlier calls.
   */
  ghost predicate Lands(field: Field, earlier: seq<Call>, call: Call, profile: AttackProfile) {
    && IsLiving(field, call.attacker, Player)
    && call.target in field.actors && field.actors[call.target].kind == Enemy
    && Times(CountOn(earlier, call.target), profile.damage) < field.actors[call.target].health
    && Reaches(field.actors[call.attacker].position, field.actors[call.target].position, profile.range)
    && (call.attacker in field.readyAt ==> field.readyAt[call.attacker] <= call.at)
    && forall e :: e in earlier && e.attacker == call.attacker ==> SaturatingAdd(e.at, profile.cooldownMs) <= call.at
  }

  /** Times of calls are 64-bit words. */
  ghost predicate Timed(calls: seq<Call>) {
    forall c :: c in calls ==> c.at <= U64_MAX
  }

  /** The actors after a run: only health has changed, by the accepted calls on each. */
  ghost predicate ActorsAfter(field: Field, accepted: seq<Call>, damage: nat, after: ActorMap) {
    && after.Keys == field.actors.Keys
    && forall id :: id in field.actors ==>
      after[id] == field.actors[id].(
        health := SaturatingSub(field.actors[id].health, Times(CountOn(accepted, id), damage)))
  }

  /** Everyone is ready when the last of their accepted calls allows it. */
  ghost predicate ReadyAfter(field: Field, accepted: seq<Call>, cooldown: nat, readyAt: map<nat, nat>) {
    && (forall id :: id in field.readyAt ==> id in readyAt && field.readyAt[id] <= readyAt[id])
    && (forall e :: e in accepted ==>
          e.attacker in readyAt && SaturatingAdd(e.at, cooldown) <= readyAt[e.attacker])
    && (forall id :: id in readyAt ==>
          || (id in field.readyAt && readyAt[id] == field.readyAt[id])
          || exists e :: e in accepted && e.attacker == id && readyAt[id] == SaturatingAdd(e.at, cooldown))
  }

  ghost predicate OnEnemies(field: Field, accepted: seq<Call>) {
    forall e :: e in accepted ==> e.target in field.actors && field.actors[e.target].kind == Enemy
  }

  ghost predicate Settled(field: Field, accepted: seq<Call>, profile: AttackProfile, after: Field) {
    && ActorsAfter(field, accepted, profile.damage, after.actors)
    && ReadyAfter(field, accepted, profile.cooldownMs, after.readyAt)
    && OnEnemies(field, accepted)
  }

  lemma {:induction false} NoneOn(calls: seq<Call>, target: nat)
    requires forall e :: e in calls ==> e.target != target
    ensures CountOn(calls, target) == 0
  {
    if calls != [] {
      var front, last := calls[..|calls| - 1], calls[|calls| - 1];
      assert calls == front + [last] && last in calls;
      assert forall e :: e in front ==> e in calls;
      NoneOn(front, target);
    }
  }

  /** On a settled field the code's checks ask for exactly what landing needs. */
  lemma ChecksAreLanding(field: Field, accepted: seq<Call>, profile: AttackProfile, after: Field, call: Call)
    requires Settled(field, accepted, profile, after)
    ensures Rejection(after, call, profile).None? <==> Lands(field, accepted, call, profile)
  {
    if call.attacker in field.actors && call.target in field.actors {
      ReachIsRange(after.actors[call.attacker].position, after.actors[call.target].position, profile.range);
      if field.actors[call.attacker].kind == Player {
        NoneOn(accepted, call.attacker);
        TimesStep(0, profile.damage);
      }
    }
    hide Times, DistanceSquared, Square, Reaches, CountOn;
    ReadyIsDue(field, accepted, profile, after, call);
    hide ReadyAfter;
  }

  lemma ReadyIsDue(field: Field, accepted: seq<Call>, profile: AttackProfile, after: Field, call: Call)
    requires ReadyAfter(field, accepted, profile.cooldownMs, after.readyAt)
    ensures (call.attacker in after.readyAt ==> after.readyAt[call.attacker] <= call.at) <==> (
      && (call.attacker in field.readyAt ==> field.readyAt[call.attacker] <= call.at)
      && forall e :: e in accepted && e.attacker == call.attacker ==> SaturatingAdd(e.at, profile.cooldownMs) <= call.at)
  {
  }

  lemma OneMoreOn(health: nat, count: nat, damage: nat)
    ensures SaturatingSub(SaturatingSub(health, Times(count, damage)), damage) == SaturatingSub(health, Times(count + 1, damage))
  {
    TimesStep(count, damage);
  }

  /** What a call that passes the checks does. */
  lemma LandingFacts(after: Field, call: Call, profile: AttackProfile)
    requires Rejection(after, call, profile).None?
    ensures Struck(after, call, profile) == Field(
      after.readyAt[call.attacker := SaturatingAdd(call.at, profile.cooldownMs)],
      Damaged(after.actors, call.target, profile.damage))
    ensures call.target in after.actors && after.actors[call.target].kind == Enemy
    ensures call.attacker in after.readyAt ==> after.readyAt[call.attacker] <= call.at
  {
  }

  lemma DamageSettles(field: Field, accepted: seq<Call>, damage: nat, after: ActorMap, call: Call)
    requires ActorsAfter(field, accepted, damage, after) && call.target in after
    ensures ActorsAfter(field, accepted + [call], damage, Damaged(after, call.target, damage))
  {
    hide Times, CountOn;
    var next := Damaged(after, call.target, damage);
    forall id | id in field.actors
      ensures next[id] == field.actors[id].(
        health := SaturatingSub(field.actors[id].health, Times(CountOn(accepted + [call], id), damage)))
    {
      CountOnSnoc(accepted, call, id);
      OneMoreOn(field.actors[id].health, CountOn(accepted, id), damage);
    }
  }

  /** A landed call keeps the field settled. */
  lemma LandingSettles(field: Field, accepted: seq<Call>, profile: AttackProfile, after: Field, call: Call)
    requires Settled(field, accepted, profile, after) && Rejection(after, call, profile).None? && call.at <= U64_MAX
    ensures Settled(field, accepted + [call], profile, Struck(after, call, profile))
  {
    hide Rejection, Struck, Damaged, Times, CountOn;
    LandingFacts(after, call, profile);
    DamageSettles(field, accepted, profile.damage, after.actors, call);
    ReadySnoc(field, accepted, profile.cooldownMs, after.readyAt, call);
    hide ReadyAfter;
  }

  lemma ReadySnoc(field: Field, accepted: seq<Call>, cooldown: nat, readyAt: map<nat, nat>, call: Call)
    requires ReadyAfter(field, accepted, cooldown, readyAt) && call.at <= U64_MAX
    requires call.attacker in readyAt ==> readyAt[call.attacker] <= call.at
    ensures ReadyAfter(field, accepted + [call], cooldown, readyAt[call.attacker := SaturatingAdd(call.at, cooldown)])
  {
    var next := readyAt[call.attacker := SaturatingAdd(call.at, cooldown)];
    forall id | id in next
      ensures (id in field.readyAt && next[id] == field.readyAt[id])
        || exists e :: e in accepted + [call] && e.attacker == id && next[id] == SaturatingAdd(e.at, cooldown)
    {
      if id == call.attacker {
        assert call in accepted + [call];
      } else if !(id in field.readyAt && readyAt[id] == field.readyAt[id]) {
        var e :| e in accepted && e.attacker == id && readyAt[id] == SaturatingAdd(e.at, cooldown);
        assert e in accepted + [call];
      }
    }
  }

  /** Over any run the field is the one it started from, less the accepted calls. */
  lemma {:induction false} RunsSettle(field: Field, calls: seq<Call>, profile: AttackProfile)
    requires Timed(calls)
    ensures Settled(field, Accepted(field, calls, profile), profile, After(field, calls, profile))
  {
    if calls == [] {
      TimesStep(0, profile.damage);
    } else {
      hide Settled, Rejection;
      var front, last := calls[..|calls| - 1], calls[|calls| - 1];
      assert forall c :: c in front ==> c in calls;
      assert last in calls;
      RunsSettle(field, front, profile);
      if Rejection(After(field, front, profile), last, profile).None? {
        LandingSettles(field, Accepted(field, front, profile), profile, After(field, front, profile), last);
      } else {
        assert Accepted(field, front, profile) + [] == Accepted(field, front, profile);
      }
    }
  }

  /**
   * After any run, a call lands exactly when its player lives, its enemy is
   * still alive after the hits so far, it is within range and its cooldown is
   * over; and a call that does not land changes nothing.
   */
  lemma CallsLandExactly(field: Field, calls: seq<Call>, profile: AttackProfile, call: Call)
    requires Timed(calls)
    ensures var accepted := Accepted(field, calls, profile);
      Accepted(field, calls + [call], profile) == if Lands(field, accepted, call, profile) then accepted + [call] else accepted
    ensures !Lands(field, Accepted(field, calls, profile), call, profile) ==>
      After(field, calls + [call], profile) == After(field, calls, profile)
  {
    RunsSettle(field, calls, profile);
    ChecksAreLanding(field, Accepted(field, calls, profile), profile, After(field, calls, profile), call);
    assert (calls + [call])[..|calls|] == calls;
    hide Settled, Lands, Rejection;
  }

  /** The hits on one target are the accepted calls on it. */
  lemma {:induction false} HitsAreAccepted(field: Field, calls: seq<Call>, profile: AttackProfile, target: nat)
    ensures |Hits(field, calls, profile, target)| == CountOn(Accepted(field, calls, profile), target)
    ensures forall h :: h in Hits(field, calls, profile, target) <==> h in Accepted(field, calls, profile) && h.target == target
  {
    if calls != [] {
      var front, last := calls[..|calls| - 1], calls[|calls| - 1];
      HitsAreAccepted(field, front, profile, target);
      var before := Accepted(field, front, profile);
      CountOnSnoc(before, last, target);
      assert before + [] == before;
      hide Rejection, After, CountOn;
    }
  }

  /** Every hit comes from a player who lived and stood within range when the run began, on an enemy. */
  lemma {:induction false} HitsComeFromReach(field: Field, calls: seq<Call>, profile: AttackProfile, target: nat)
    requires Timed(calls)
    ensures forall h :: h in Hits(field, calls, profile, target) ==>
      && IsLiving(field, h.attacker, Player) && IsLiving(field, target, Enemy)
      && Reaches(field.actors[h.attacker].position, field.actors[target].position, profile.range)
  {
    if calls != [] {
      var front, last := calls[..|calls| - 1], calls[|calls| - 1];
      assert forall c :: c in front ==> c in calls;
      HitsComeFromReach(field, front, profile, target);
      RunsSettle(field, front, profile);
      ChecksAreLanding(field, Accepted(field, front, profile), profile, After(field, front, profile), last);
      hide Settled, Rejection, Reaches, Times;
    }
  }

  /** A refused call is told the first thing it lacks: actors, fitness, range, then time. */
  lemma RefusalsNameTheFirst(field: Field, call: Call, profile: AttackProfile)
    ensures var known := call.attacker in field.actors && call.target in field.actors;
      var fit := IsLiving(field, call.attacker, Player) && IsLiving(field, call.target, Enemy);
      var refusal := Rejection(field, call, profile);
      && (refusal == Some(ActorNotFound) <==> !known)
      && (refusal == Some(InvalidTarget) <==> known && !fit)
      && (fit ==>
            var near := Reaches(field.actors[call.attacker].position, field.actors[call.target].position, profile.range);
            var due := call.attacker in field.readyAt ==> field.readyAt[call.attacker] <= call.at;
            && (refusal == Some(OutOfRange) <==> !near)
            && (refusal == Some(CooldownActive) <==> near && !due))
  {
    if call.attacker in field.actors && call.target in field.actors {
      ReachIsRange(field.actors[call.attacker].position, field.actors[call.target].position, profile.range);
    }
    hide Reaches, DistanceSquared, Square;
  }
}
