// The challenge catalogue: contracts, modifier presets, rule identities,
// objectives and the published policies that admit them.

module ChallengeCatalog {
  import opened Wrappers

  datatype ContractId =
    | CloseQuarters | MeridianCircuit | CoolantRecovery | BastionLink
    | PrismDiscipline | DistantSignal | LastReserve | RelayGauntlet

  datatype Modifier = WestApproach | BastionFirst | SingleReserve | Pace

  datatype Preset =
    | Baseline | West | Bastion | Reserve | Paced
    | WestPaced | BastionReserve | ReservePaced
  {
    predicate IsBaseline() {
      this == Baseline
    }

    function Modifiers(): seq<Modifier> {
      match this
      case Baseline => []
      case West => [WestApproach]
      case Bastion => [BastionFirst]
      case Reserve => [SingleReserve]
      case Paced => [Pace]
      case WestPaced => [WestApproach, Pace]
      case BastionReserve => [BastionFirst, SingleReserve]
      case ReservePaced => [SingleReserve, Pace]
    }

    predicate Has(modifier: Modifier) {
      modifier in Modifiers()
    }

    predicate AvailableFor(contract: ContractId) {
      match this
      case Baseline => true
      case West | WestPaced => contract == MeridianCircuit
      case Bastion | Reserve | BastionReserve | ReservePaced => contract == RelayGauntlet
      case Paced => contract == MeridianCircuit || contract == RelayGauntlet
    }

    function TimeGoalMs(contract: ContractId): Option<nat> {
      if !AvailableFor(contract) || !Has(Pace) then None
      else match contract
        case MeridianCircuit => Some(60_000)
        case RelayGauntlet => Some(180_000)
        case _ => None
    }
  }

  datatype Objective =
    | LancerCleared | MenderCleared | LensRead | GalleryRead | LogRead | Returned
    | CoolantRetrieved | CoolantTransferred | CoolantDelivered | BulwarkCleared | PrismCleared | SentinelCleared
    | WestRelayCharged | EastRelayCharged | ReserveReturned
    | GauntletSupportCleared | GauntletBastionCleared | GauntletPrismCleared

  /** A revision name; wrapped so that two names are compared as one value. */
  datatype Revision = Revision(name: string)

  datatype Rules = Rules(
    contract: ContractId, contractRevision: Revision, gameplayRevision: Revision, seed: nat, preset: Preset)

  /** The eight published policies, oldest first, and every other name. */
  datatype Policy = V1 | V2 | V3 | V4 | V5 | V6 | V7 | V8 | Unpublished(name: string) {
    function Rank(): nat {
      match this
      case V1 => 1 case V2 => 2 case V3 => 3 case V4 => 4
      case V5 => 5 case V6 => 6 case V7 => 7 case V8 => 8
      case Unpublished(_) => 0
    }

    predicate Published() {
      !Unpublished?
    }
  }

  const INITIAL: set<ContractId> := {CloseQuarters, MeridianCircuit}
  const RECOVERY: set<ContractId> := INITIAL + {CoolantRecovery}
  const ELITE: set<ContractId> := RECOVERY + {BastionLink}
  const PRISM: set<ContractId> := ELITE + {PrismDiscipline}
  const SIGNAL: set<ContractId> := PRISM + {DistantSignal}
  const SURVIVAL: set<ContractId> := SIGNAL + {LastReserve}

  predicate ContractAvailable(contract: ContractId, policy: Policy) {
    match policy
    case V1 => contract in INITIAL
    case V2 => contract in RECOVERY
    case V3 => contract in ELITE
    case V4 => contract in PRISM
    case V5 => contract in SIGNAL
    case V6 => contract in SURVIVAL
    case V7 | V8 => true
    case Unpublished(_) => false
  }

  predicate RulesAvailable(rules: Rules, policy: Policy) {
    ContractAvailable(rules.contract, policy) && (rules.preset.IsBaseline() || policy == V8)
  }

  function BaselineRules(contract: ContractId): Rules {
    match contract
    case CloseQuarters => Rules(contract, Revision("close-quarters-v1"), Revision("m37-baseline-v1"), 37_001, Baseline)
    case MeridianCircuit => Rules(contract, Revision("meridian-circuit-v1"), Revision("m37-baseline-v1"), 37_002, Baseline)
    case CoolantRecovery => Rules(contract, Revision("coolant-recovery-v1"), Revision("m37-recovery-v1"), 37_003, Baseline)
    case BastionLink => Rules(contract, Revision("bastion-link-v1"), Revision("m37-elite-v1"), 37_004, Baseline)
    case PrismDiscipline => Rules(contract, Revision("prism-discipline-v1"), Revision("m37-prism-v1"), 37_005, Baseline)
    case DistantSignal => Rules(contract, Revision("distant-signal-v1"), Revision("m37-signal-v1"), 37_006, Baseline)
    case LastReserve => Rules(contract, Revision("last-reserve-v1"), Revision("m37-survival-v1"), 37_007, Baseline)
    case RelayGauntlet => Rules(contract, Revision("relay-gauntlet-v1"), Revision("m37-gauntlet-v1"), 37_008, Baseline)
  }

  /** `rules_with_preset`; `None` stands for its one error, invalid modifiers. */
  function RulesWithPreset(contract: ContractId, preset: Preset): Option<Rules> {
    if !preset.AvailableFor(contract) then None
    else if preset.IsBaseline() then Some(BaselineRules(contract))
    else Some(BaselineRules(contract).(gameplayRevision := Revision("m37-modifiers-v1"), preset := preset))
  }

  function CompleteMask(contract: ContractId): bv8 {
    match contract
    case CloseQuarters | BastionLink => 0x3
    case MeridianCircuit => 0xF
    case CoolantRecovery | LastReserve | RelayGauntlet => 0x7
    case PrismDiscipline | DistantSignal => 0x1
  }

  /** Contracts whose objectives come in one order. */
  predicate Sequential(contract: ContractId) {
    contract == CoolantRecovery || contract == LastReserve || contract == RelayGauntlet
  }

  function Bit(objective: Objective, contract: ContractId): Option<bv8> {
    match (contract, objective)
    case (RelayGauntlet, GauntletSupportCleared) => Some(1)
    case (LastReserve, WestRelayCharged) => Some(1)
    case (DistantSignal, SentinelCleared) => Some(1)
    case (PrismDiscipline, PrismCleared) => Some(1)
    case (CloseQuarters, LancerCleared) => Some(1)
    case (BastionLink, BulwarkCleared) => Some(1)
    case (MeridianCircuit, LensRead) => Some(1)
    case (CoolantRecovery, CoolantRetrieved) => Some(1)
    case (RelayGauntlet, GauntletBastionCleared) => Some(2)
    case (LastReserve, EastRelayCharged) => Some(2)
    case (CloseQuarters, MenderCleared) => Some(2)
    case (BastionLink, MenderCleared) => Some(2)
    case (MeridianCircuit, GalleryRead) => Some(2)
    case (CoolantRecovery, CoolantTransferred) => Some(2)
    case (RelayGauntlet, GauntletPrismCleared) => Some(4)
    case (LastReserve, ReserveReturned) => Some(4)
    case (MeridianCircuit, LogRead) => Some(4)
    case (CoolantRecovery, CoolantDelivered) => Some(4)
    case (MeridianCircuit, Returned) => Some(8)
    case _ => None
  }

  function ObjectiveBit(rules: Rules, objective: Objective): Option<bv8> {
    if rules.contract == RelayGauntlet && rules.preset.Has(BastionFirst) && objective == GauntletBastionCleared then Some(1)
    else if rules.contract == RelayGauntlet && rules.preset.Has(BastionFirst) && objective == GauntletSupportCleared then Some(2)
    else Bit(objective, rules.contract)
  }

  // ----- the catalogue's shape -----

  ghost predicate Admissible(rules: Rules) {
    RulesWithPreset(rules.contract, rules.preset) == Some(rules)
  }

  /** A number for each admissible identity: the eight baselines, then the variants. */
  function Code(contract: ContractId, preset: Preset): nat {
    match (contract, preset)
    case (CloseQuarters, _) => 0
    case (CoolantRecovery, _) => 1
    case (BastionLink, _) => 2
    case (PrismDiscipline, _) => 3
    case (DistantSignal, _) => 4
    case (LastReserve, _) => 5
    case (MeridianCircuit, Baseline) => 6
    case (MeridianCircuit, West) => 7
    case (MeridianCircuit, WestPaced) => 8
    case (MeridianCircuit, _) => 9
    case (RelayGauntlet, Baseline) => 10
    case (RelayGauntlet, Bastion) => 11
    case (RelayGauntlet, Reserve) => 12
    case (RelayGauntlet, BastionReserve) => 13
    case (RelayGauntlet, ReservePaced) => 14
    case (RelayGauntlet, _) => 15
  }

  function CodeOf(rules: Rules): nat {
    Code(rules.contract, rules.preset)
  }

  lemma CodeIsInjective(a: Rules, b: Rules)
    requires Admissible(a) && Admissible(b)
    ensures CodeOf(a) < 16
    ensures CodeOf(a) == CodeOf(b) ==> a == b
  {
    hide BaselineRules;
  }

  ghost predicate DistinctAdmissible(rules: seq<Rules>) {
    && (forall i :: 0 <= i < |rules| ==> Admissible(rules[i]))
    && (forall i, j :: 0 <= i < j < |rules| ==> rules[i] != rules[j])
  }

  function Codes(rules: seq<Rules>): set<nat> {
    set i | 0 <= i < |rules| :: CodeOf(rules[i])
  }

  lemma CodesSnoc(rules: seq<Rules>, last: Rules)
    ensures Codes(rules + [last]) == Codes(rules) + {CodeOf(last)}
  {
    hide CodeOf;
    var more := rules + [last];
    forall c | c in Codes(more) ensures c in Codes(rules) + {CodeOf(last)} {
      var i :| 0 <= i < |more| && c == CodeOf(more[i]);
      assert i < |rules| ==> rules[i] == more[i];
    }
    forall c | c in Codes(rules) ensures c in Codes(more) {
      var i :| 0 <= i < |rules| && c == CodeOf(rules[i]);
      assert more[i] == rules[i];
    }
    assert more[|rules|] == last;
  }

  lemma {:induction false} CodesAreDistinct(rules: seq<Rules>)
    requires DistinctAdmissible(rules)
    ensures |Codes(rules)| == |rules|
    ensures forall c :: c in Codes(rules) ==> c < 16
  {
    if rules != [] {
      hide Admissible, CodeOf;
      var front, last := rules[..|rules| - 1], rules[|rules| - 1];
      CodesAreDistinct(front);
      forall i | 0 <= i < |rules| - 1 ensures CodeOf(rules[i]) != CodeOf(last) {
        CodeIsInjective(rules[i], last);
      }
      CodeIsInjective(last, last);
      assert CodeOf(last) !in Codes(front);
      assert rules == front + [last];
      CodesSnoc(front, last);
    }
  }

  lemma {:induction false} BoundedSet(s: set<nat>, n: nat)
    requires forall c :: c in s ==> c < n
    ensures |s| <= n
  {
    if n > 0 {
      var rest := s - {n - 1};
      BoundedSet(rest, n - 1);
      assert s <= rest + {n - 1};
    } else {
      assert s == {};
    }
  }

  /** Pairwise distinct admissible rule identities number at most sixteen. */
  lemma AtMostSixteen(rules: seq<Rules>)
    requires DistinctAdmissible(rules)
    ensures |rules| <= 16
  {
    CodesAreDistinct(rules);
    BoundedSet(Codes(rules), 16);
  }

  /** The bound is tight: the catalogue has exactly sixteen identities. */
  lemma SixteenExist() returns (rules: seq<Rules>)
    ensures |rules| == 16 && DistinctAdmissible(rules)
  {
    var contracts := [
      CloseQuarters, CoolantRecovery, BastionLink, PrismDiscipline, DistantSignal, LastReserve,
      MeridianCircuit, MeridianCircuit, MeridianCircuit, MeridianCircuit,
      RelayGauntlet, RelayGauntlet, RelayGauntlet, RelayGauntlet, RelayGauntlet, RelayGauntlet];
    var presets := [
      Baseline, Baseline, Baseline, Baseline, Baseline, Baseline,
      Baseline, West, WestPaced, Paced,
      Baseline, Bastion, Reserve, BastionReserve, ReservePaced, Paced];
    rules := seq(16, (i: int) requires 0 <= i < 16 => IdentityOf(contracts[i], presets[i]));
    forall i | 0 <= i < 16 ensures Admissible(rules[i]) && CodeOf(rules[i]) == i {
    }
    hide Admissible, CodeOf, IdentityOf;
  }

  /** The catalogue entry of an available pair (any pair's baseline entry otherwise). */
  function IdentityOf(contract: ContractId, preset: Preset): Rules {
    match RulesWithPreset(contract, preset)
    case Some(rules) => rules
    case None => BaselineRules(contract)
  }

  /** Later policies admit everything earlier ones do. */
  lemma PoliciesExtend(rules: Rules, p: Policy, q: Policy)
    requires p.Published() && q.Published() && p.Rank() <= q.Rank() && RulesAvailable(rules, p)
    ensures RulesAvailable(rules, q)
  {
  }
}
