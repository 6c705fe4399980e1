// Bits of natural numbers, and the route resolver's 63-bit mixer.

/** Exclusive or and right shift on unbounded naturals, one bit at a time. */
module Bits {
  function Xor(a: nat, b: nat): nat {
    if a == 0 && b == 0 then 0 else 2 * Xor(a / 2, b / 2) + BitXor(a % 2, b % 2)
  }

  function BitXor(p: nat, q: nat): (r: nat)
    ensures r < 2
  {
    if p == q then 0 else 1
  }

  function Shr(a: nat, k: nat): nat {
    if k == 0 then a else Shr(a / 2, k - 1)
  }

  function Pow2(k: nat): (p: nat)
    ensures p > 0
  {
    if k == 0 then 1 else 2 * Pow2(k - 1)
  }

  lemma {:induction false} XorIdentity(a: nat)
    ensures Xor(a, 0) == a && Xor(a, a) == 0
  {
    if a > 0 {
      XorIdentity(a / 2);
    }
  }

  lemma XorHalves(a: nat, b: nat)
    ensures Xor(a, b) / 2 == Xor(a / 2, b / 2) && Xor(a, b) % 2 == BitXor(a % 2, b % 2)
  {
  }

  lemma {:induction false} XorAssociates(a: nat, b: nat, c: nat)
    ensures Xor(Xor(a, b), c) == Xor(a, Xor(b, c))
    decreases a + b + c
  {
    if a > 0 || b > 0 || c > 0 {
      XorAssociates(a / 2, b / 2, c / 2);
      hide Xor;
      XorHalves(a, b);
      XorHalves(b, c);
      XorHalves(Xor(a, b), c);
      XorHalves(a, Xor(b, c));
      SameParts(Xor(Xor(a, b), c), Xor(a, Xor(b, c)));
    }
  }

  lemma SameParts(x: nat, y: nat)
    requires x / 2 == y / 2 && x % 2 == y % 2
    ensures x == y
  {
  }

  /** Xoring the same word twice changes nothing. */
  lemma XorCancels(a: nat, b: nat)
    ensures Xor(Xor(a, b), b) == a
  {
    XorAssociates(a, b, b);
    XorIdentity(b);
    XorIdentity(a);
  }

  lemma {:induction false} XorBound(a: nat, b: nat, k: nat)
    requires a < Pow2(k) && b < Pow2(k)
    ensures Xor(a, b) < Pow2(k)
  {
    if k > 0 {
      XorBound(a / 2, b / 2, k - 1);
    }
  }

  lemma {:induction false} ShrXor(a: nat, b: nat, k: nat)
    ensures Shr(Xor(a, b), k) == Xor(Shr(a, k), Shr(b, k))
  {
    if k > 0 {
      XorHalves(a, b);
      ShrXor(a / 2, b / 2, k - 1);
    }
  }

  lemma {:induction false} ShrShr(a: nat, i: nat, j: nat)
    ensures Shr(Shr(a, i), j) == Shr(a, i + j)
  {
    if i > 0 {
      ShrShr(a / 2, i - 1, j);
    }
  }

  lemma {:induction false} ShrVanishes(a: nat, width: nat, k: nat)
    requires a < Pow2(width) && width <= k
    ensures Shr(a, k) == 0
  {
    if k > 0 {
      ShrVanishes(a / 2, if width == 0 then 0 else width - 1, k - 1);
    }
  }

  lemma {:induction false} ShrShrinks(a: nat, k: nat)
    ensures Shr(a, k) <= a
  {
    if k > 0 {
      ShrShrinks(a / 2, k - 1);
    }
  }

  /** One mixing step, `x ^= x >> k`, and the fold that undoes it. */
  function XorShift(x: nat, k: nat): nat {
    Xor(x, Shr(x, k))
  }

  function UnXorShift(y: nat, k: nat): nat {
    Xor(XorShift(y, k), Shr(y, 2 * k))
  }

  lemma {:induction false} XorTelescopes(x: nat, x1: nat, x2: nat)
    ensures Xor(Xor(Xor(x, x1), Xor(x1, x2)), x2) == x
    ensures Xor(Xor(Xor(x, x1), x2), Xor(x1, x2)) == x
  {
    XorAssociates(x, x1, x2);
    XorCancels(x, Xor(x1, x2));
    XorAssociates(Xor(x, x1), Xor(x1, x2), x2);
    XorCancels(x1, x2);
    XorCancels(x, x1);
  }

  /** Folding twice undoes a xor-shift of a word at most three shifts wide. */
  lemma XorShiftInverts(x: nat, width: nat, k: nat)
    requires x < Pow2(width) && width <= 3 * k
    ensures UnXorShift(XorShift(x, k), k) == x
    ensures XorShift(UnXorShift(x, k), k) == x
  {
    var x1, x2 := Shr(x, k), Shr(x, 2 * k);
    assert Shr(x1, k) == x2 by { ShrShr(x, k, k); }
    assert Shr(x1, 2 * k) == 0 && Shr(x2, k) == 0 by {
      ShrShr(x, k, 2 * k);
      ShrShr(x, 2 * k, k);
      ShrVanishes(x, width, 3 * k);
    }
    XorTelescopes(x, x1, x2);
    XorIdentity(x2);
    assert Shr(Xor(x, x1), k) == Xor(x1, x2) by { ShrXor(x, x1, k); }
    assert Shr(Xor(x, x1), 2 * k) == x2 by { ShrXor(x, x1, 2 * k); }
    assert Shr(Xor(Xor(x, x1), x2), k) == Xor(x1, x2) by {
      ShrXor(Xor(x, x1), x2, k);
      XorIdentity(Xor(x1, x2));
    }
  }

  lemma XorShiftBound(x: nat, width: nat, k: nat)
    requires x < Pow2(width)
    ensures XorShift(x, k) < Pow2(width) && UnXorShift(x, k) < Pow2(width)
  {
    ShrShrinks(x, k);
    ShrShrinks(x, 2 * k);
    XorBound(x, Shr(x, k), width);
    XorBound(XorShift(x, k), Shr(x, 2 * k), width);
  }
}

/**
 * Two finite sets related by mutually inverse maps have the same size, and half
 * of an even range is odd.
 */
module Counting {
  ghost predicate Inverse<T(!new), U(!new)>(a: set<T>, b: set<U>, f: T -> U, g: U -> T) {
    && (forall x :: x in a ==> f(x) in b && g(f(x)) == x)
    && (forall y :: y in b ==> g(y) in a && f(g(y)) == y)
  }

  lemma {:induction false} SameSize<T(!new), U(!new)>(a: set<T>, b: set<U>, f: T -> U, g: U -> T)
    requires Inverse(a, b, f, g)
    ensures |a| == |b|
  {
    if a == {} {
      if y :| y in b {
        assert g(y) in a;
      }
    } else {
      var x :| x in a;
      SameSize(a - {x}, b - {f(x)}, f, g);
    }
  }

  lemma {:induction false} ParityHalves(n: nat, parity: nat)
    requires parity < 2
    ensures |set t: nat | t < 2 * n && t % 2 == parity| == n
  {
    if n > 0 {
      var below := set t: nat | t < 2 * (n - 1) && t % 2 == parity;
      var all := set t: nat | t < 2 * n && t % 2 == parity;
      var top := 2 * (n - 1) + parity;
      assert top % 2 == parity;
      assert all == below + {top};
      ParityHalves(n - 1, parity);
    }
  }
}

/** Two routes, two events each, chosen by a permuted 63-bit seed. */
module RouteResolver {
  import opened Bits
  import opened MachineWords
  import Counting

  /** `MAX_ROUTE_SEED + 1`; masking with `MAX_ROUTE_SEED` is a remainder. */
  const SEEDS: nat := 0x8000_0000_0000_0000
  const BREACH_SALT: nat := 0x4252_4541_4348_0001
  const STABILIZE_SALT: nat := 0x5354_4142_494c_0002
  const FIRST_MULTIPLIER: nat := 0x3f79_d71b_4cb0_a89d
  const SECOND_MULTIPLIER: nat := 0x1c69_b3f7_4ac4_ae35
  const FIRST_INVERSE: nat := 0x0054_c1dd_764b_1db5
  const SECOND_INVERSE: nat := 0x447c_8f6b_6baf_b41d

  datatype RouteId = Breach | Stabilize

  datatype EventId = OverchargedArmor | ArcSurge | ShieldedChannel | ResidualFeedback {
    function Route(): RouteId {
      match this
      case OverchargedArmor | ArcSurge => Breach
      case ShieldedChannel | ResidualFeedback => Stabilize
    }
  }

  datatype Effect = Effect(wardenHealthBasisPoints: nat, wardenCounterDamage: nat)

  datatype Resolved = Resolved(route: RouteId, seed: nat, event: EventId, effect: Effect)

  type Seed = s: nat | s < SEEDS

  function Events(route: RouteId): seq<EventId> {
    match route
    case Breach => [OverchargedArmor, ArcSurge]
    case Stabilize => [ShieldedChannel, ResidualFeedback]
  }

  function EventEffect(event: EventId): Effect {
    match event
    case OverchargedArmor => Effect(12_000, 15)
    case ArcSurge => Effect(10_000, 20)
    case ShieldedChannel => Effect(10_000, 10)
    case ResidualFeedback => Effect(11_000, 15)
  }

  function WrappingMul(a: nat, b: nat): nat {
    a * b % (U64_MAX + 1)
  }

  function Mask(value: nat): Seed {
    value % SEEDS
  }

  function Permute63(value: nat): Seed {
    var mixed := Mask(value);
    var mixed := XorShift(mixed, 30);
    var mixed := Mask(WrappingMul(mixed, FIRST_MULTIPLIER));
    var mixed := XorShift(mixed, 27);
    var mixed := Mask(WrappingMul(mixed, SECOND_MULTIPLIER));
    var mixed := XorShift(mixed, 31);
    Mask(mixed)
  }

  /** The inverse mixer; the server never needs it, the proof does. */
  function Unpermute63(ticket: Seed): Seed {
    var mixed := UnXorShift(ticket, 31);
    var mixed := Mask(mixed * SECOND_INVERSE);
    var mixed := UnXorShift(mixed, 27);
    var mixed := Mask(mixed * FIRST_INVERSE);
    var mixed := UnXorShift(mixed, 30);
    Mask(mixed)
  }

  function Salt(route: RouteId): Seed {
    match route
    case Breach => BREACH_SALT
    case Stabilize => STABILIZE_SALT
  }

  function ResolveEvent(route: RouteId, seed: Seed): Resolved {
    var ticket := Permute63(Xor(seed, Salt(route)));
    var index := if ticket % 2 != 0 then 1 else 0;
    var event := Events(route)[index];
    Resolved(route, seed, event, EventEffect(event))
  }

  lemma SixtyThreeBits()
    ensures Pow2(63) == SEEDS
  {
    assert Pow2(7) == 128;
    assert Pow2(14) == 16_384;
    assert Pow2(21) == 2_097_152;
    assert Pow2(28) == 268_435_456;
    assert Pow2(35) == 34_359_738_368;
    assert Pow2(42) == 4_398_046_511_104;
    assert Pow2(49) == 562_949_953_421_312;
    assert Pow2(56) == 72_057_594_037_927_936;
  }

  lemma RemainderOf(value: int, quotient: int, x: Seed)
    requires value == x + quotient * SEEDS
    ensures value % SEEDS == x
  {
  }

  /** Wrapping at 64 bits first does not change the low 63. */
  lemma WrapThenMask(value: nat)
    ensures value % (U64_MAX + 1) % SEEDS == value % SEEDS
  {
    var q, r := value / (U64_MAX + 1), value % (U64_MAX + 1);
    RemainderOf(value, 2 * q + r / SEEDS, r % SEEDS);
  }

  lemma ProductTelescopes(x: int, a: int, b: int, wraps: int, q: int, n: int)
    requires a * b == 1 + wraps * n
    ensures (x * a - q * n) * b == x + (x * wraps - q * b) * n
  {
    calc {
      (x * a - q * n) * b;
      x * a * b - q * n * b;
      { assert x * a * b == x * (a * b); assert q * n * b == q * b * n; }
      x * (1 + wraps * n) - q * b * n;
      { assert x * (1 + wraps * n) == x + x * (wraps * n); assert x * (wraps * n) == x * wraps * n; }
      x + x * wraps * n - q * b * n;
      { assert (x * wraps - q * b) * n == x * wraps * n - q * b * n; }
      x + (x * wraps - q * b) * n;
    }
  }

  /** Multiplying by inverse residues, with a remainder in between, is the identity. */
  lemma ResiduesInvert(x: Seed, a: nat, b: nat, wraps: nat)
    requires a * b == 1 + wraps * SEEDS
    ensures (x * a % SEEDS) * b % SEEDS == x
  {
    var product := x * a;
    var q, r := product / SEEDS, product % SEEDS;
    assert r == x * a - q * SEEDS;
    ProductTelescopes(x, a, b, wraps, q, SEEDS);
    RemainderOf(r * b, x * wraps - q * b, x);
  }

  /** Multipliers whose product is one modulo 2^63 undo each other. */
  lemma MultiplyInverts(x: Seed, a: nat, b: nat, wraps: nat)
    requires a * b == 1 + wraps * SEEDS
    ensures Mask(Mask(WrappingMul(x, a)) * b) == x
    ensures Mask(WrappingMul(Mask(x * b), a)) == x
  {
    WrapThenMask(x * a);
    ResiduesInvert(x, a, b, wraps);
    WrapThenMask(Mask(x * b) * a);
    assert b * a == a * b;
    ResiduesInvert(x, b, a, wraps);
  }

  lemma FirstMultiplyInverts(x: Seed)
    ensures Mask(Mask(WrappingMul(x, FIRST_MULTIPLIER)) * FIRST_INVERSE) == x
    ensures Mask(WrappingMul(Mask(x * FIRST_INVERSE), FIRST_MULTIPLIER)) == x
  {
    MultiplyInverts(x, FIRST_MULTIPLIER, FIRST_INVERSE, 11_830_851_201_955_104);
  }

  lemma SecondMultiplyInverts(x: Seed)
    ensures Mask(Mask(WrappingMul(x, SECOND_MULTIPLIER)) * SECOND_INVERSE) == x
    ensures Mask(WrappingMul(Mask(x * SECOND_INVERSE), SECOND_MULTIPLIER)) == x
  {
    MultiplyInverts(x, SECOND_MULTIPLIER, SECOND_INVERSE, 1_095_445_460_478_000_709);
  }

  lemma ShiftInverts(x: Seed, k: nat)
    requires 21 <= k
    ensures XorShift(x, k) < SEEDS && UnXorShift(x, k) < SEEDS
    ensures UnXorShift(XorShift(x, k), k) == x
    ensures XorShift(UnXorShift(x, k), k) == x
  {
    SixtyThreeBits();
    XorShiftBound(x, 63, k);
    XorShiftInverts(x, 63, k);
  }

  lemma MaskKeeps(x: Seed)
    ensures Mask(x) == x
  {
  }

  /** The mixer is a permutation of the legal seeds. */
  lemma PermuteIsBijective(x: Seed)
    ensures Unpermute63(Permute63(x)) == x
    ensures Permute63(Unpermute63(x)) == x
  {
    hide XorShift, UnXorShift, WrappingMul, Mask;
    MaskKeeps(x);
    assert Unpermute63(Permute63(x)) == x by {
      var a := XorShift(x, 30);
      ShiftInverts(x, 30);
      var b := Mask(WrappingMul(a, FIRST_MULTIPLIER));
      FirstMultiplyInverts(a);
      var c := XorShift(b, 27);
      ShiftInverts(b, 27);
      var d := Mask(WrappingMul(c, SECOND_MULTIPLIER));
      SecondMultiplyInverts(c);
      ShiftInverts(d, 31);
      MaskKeeps(XorShift(d, 31));
    }
    assert Permute63(Unpermute63(x)) == x by {
      var e := UnXorShift(x, 31);
      ShiftInverts(x, 31);
      var f := Mask(e * SECOND_INVERSE);
      SecondMultiplyInverts(e);
      var g := UnXorShift(f, 27);
      ShiftInverts(f, 27);
      var h := Mask(g * FIRST_INVERSE);
      FirstMultiplyInverts(g);
      ShiftInverts(h, 30);
      MaskKeeps(UnXorShift(h, 30));
    }
  }

  function TicketOf(route: RouteId, seed: nat): nat {
    Permute63(Xor(seed, Salt(route)))
  }

  function SeedOf(route: RouteId, ticket: nat): nat {
    Xor(Unpermute63(Mask(ticket)), Salt(route))
  }

  lemma TicketsMatchSeeds(route: RouteId, x: Seed)
    ensures TicketOf(route, x) < SEEDS && SeedOf(route, TicketOf(route, x)) == x
    ensures SeedOf(route, x) < SEEDS && TicketOf(route, SeedOf(route, x)) == x
  {
    hide Permute63, Unpermute63, Xor;
    SixtyThreeBits();
    var salted := Xor(x, Salt(route));
    XorBound(x, Salt(route), 63);
    XorCancels(x, Salt(route));
    PermuteIsBijective(salted);
    var unmixed := Unpermute63(x);
    PermuteIsBijective(x);
    XorBound(unmixed, Salt(route), 63);
    XorCancels(unmixed, Salt(route));
  }

  ghost function SeedsResolvingTo(route: RouteId, event: EventId): set<nat> {
    set seed: nat | seed < SEEDS && ResolveEvent(route, seed).event == event
  }

  /** The parity of the ticket that selects an event of its own route. */
  function Parity(event: EventId): nat {
    if event == ArcSurge || event == ResidualFeedback then 1 else 0
  }

  lemma ResolvesByParity(route: RouteId, event: EventId, seed: Seed)
    ensures ResolveEvent(route, seed).event == event <==> event.Route() == route && TicketOf(route, seed) % 2 == Parity(event)
  {
    hide Permute63, Xor;
  }

  /** Exactly half of the legal seeds of a route resolve to each of its two
      events, and none to another route's event. */
  lemma EventsAreEquallyLikely(route: RouteId, event: EventId)
    ensures |SeedsResolvingTo(route, event)| == if event.Route() == route then SEEDS / 2 else 0
  {
    hide TicketOf, SeedOf, ResolveEvent;
    var seeds := SeedsResolvingTo(route, event);
    forall seed: Seed ensures seed in seeds <==> event.Route() == route && TicketOf(route, seed) % 2 == Parity(event) {
      ResolvesByParity(route, event, seed);
    }
    if event.Route() != route {
      assert seeds == {};
    } else {
      var tickets := set t: nat | t < 2 * (SEEDS / 2) && t % 2 == Parity(event);
      forall seed | seed in seeds
        ensures TicketOf(route, seed) in tickets && SeedOf(route, TicketOf(route, seed)) == seed
      {
        TicketsMatchSeeds(route, seed);
      }
      forall ticket | ticket in tickets
        ensures SeedOf(route, ticket) in seeds && TicketOf(route, SeedOf(route, ticket)) == ticket
      {
        TicketsMatchSeeds(route, ticket);
      }
      Counting.SameSize(seeds, tickets, s => TicketOf(route, s), t => SeedOf(route, t));
      Counting.ParityHalves(SEEDS / 2, Parity(event));
    }
  }
}
