// Which saves validate, in plain terms: sets of objectives, distinct records,
// ids in order.

module ChallengeSaves {
  import opened Wrappers
  import opened ChallengeCatalog
  import opened ObjectiveBits
  import opened ChallengeJournal
  import opened ChallengeCommands

  // ----- counting objectives -----

  function One(rules: Rules, x: bv8, bit: bv8): set<Objective> {
    if InMask(rules.contract, bit) && x & bit != 0 then {ForBit(rules, bit)} else {}
  }

  lemma DoneInParts(rules: Rules, x: bv8)
    ensures Done(rules, x) == One(rules, x, 1) + One(rules, x, 2) + One(rules, x, 4) + One(rules, x, 8)
  {
    hide Asked, ObjectiveBit, ForBit, Sequential;
    forall bit: bv8 | InMask(rules.contract, bit)
      ensures ForBit(rules, bit) in Asked(rules.contract) && ObjectiveBit(rules, ForBit(rules, bit)) == Some(bit)
    {
      EveryBitIsAsked(rules, bit);
    }
    forall o | o in Done(rules, x)
      ensures o in One(rules, x, 1) + One(rules, x, 2) + One(rules, x, 4) + One(rules, x, 8)
    {
      BitsAreInMask(rules, o);
      var bit := ObjectiveBit(rules, o).value;
      DistinctBits(rules, o, ForBit(rules, bit));
      assert o in One(rules, x, bit);
    }
  }

  lemma PartsAreApart(rules: Rules, x: bv8, a: bv8, b: bv8)
    requires a != b
    ensures One(rules, x, a) * One(rules, x, b) == {}
  {
    if InMask(rules.contract, a) && InMask(rules.contract, b) {
      EveryBitIsAsked(rules, a);
      EveryBitIsAsked(rules, b);
    }
    hide Asked, ObjectiveBit, ForBit, InMask;
  }

  /** A word within the mask has as many bits as objectives. */
  lemma BitsCountObjectives(rules: Rules, x: bv8)
    requires x & !CompleteMask(rules.contract) == 0
    ensures CountOnes(x) == |Done(rules, x)|
  {
    MaskedBits(rules.contract, x);
    OneCounts(rules, x, 1);
    OneCounts(rules, x, 2);
    OneCounts(rules, x, 4);
    OneCounts(rules, x, 8);
    PartsCount(rules, x);
    hide Done, One, InMask, CompleteMask, BitAt;
  }

  lemma PartsCount(rules: Rules, x: bv8)
    ensures |Done(rules, x)| == |One(rules, x, 1)| + |One(rules, x, 2)| + |One(rules, x, 4)| + |One(rules, x, 8)|
  {
    hide Done, One;
    DoneInParts(rules, x);
    PartsAreApart(rules, x, 1, 2);
    PartsAreApart(rules, x, 1, 4);
    PartsAreApart(rules, x, 1, 8);
    PartsAreApart(rules, x, 2, 4);
    PartsAreApart(rules, x, 2, 8);
    PartsAreApart(rules, x, 4, 8);
    FourApart(One(rules, x, 1), One(rules, x, 2), One(rules, x, 4), One(rules, x, 8));
  }

  lemma OneCounts(rules: Rules, x: bv8, bit: bv8)
    requires x & bit != 0 ==> InMask(rules.contract, bit)
    ensures |One(rules, x, bit)| == BitAt(x, bit)
  {
    hide ForBit, InMask;
  }

  lemma FourApart(a: set<Objective>, b: set<Objective>, c: set<Objective>, d: set<Objective>)
    requires a * b == {} && a * c == {} && a * d == {} && b * c == {} && b * d == {} && c * d == {}
    ensures |a + b + c + d| == |a| + |b| + |c| + |d|
  {
    assert (a + b) * c == {} && (a + b + c) * d == {};
  }

  lemma MaskedBits(contract: ContractId, x: bv8)
    requires x & !CompleteMask(contract) == 0
    ensures BitAt(x, 0x10) == 0 && BitAt(x, 0x20) == 0 && BitAt(x, 0x40) == 0 && BitAt(x, 0x80) == 0
    ensures x & 1 != 0 ==> InMask(contract, 1)
    ensures x & 2 != 0 ==> InMask(contract, 2)
    ensures x & 4 != 0 ==> InMask(contract, 4)
    ensures x & 8 != 0 ==> InMask(contract, 8)
  {
  }

  // ----- good runs -----

  /** Objectives done only after all they need, none beyond what is asked for, all exactly when completed. */
  ghost predicate GoodObjectives(run: Run, completed: bool) {
    var done := Done(run.rules, run.objectives);
    && run.objectives & !CompleteMask(run.rules.contract) == 0
    && (completed <==> done == Asked(run.rules.contract))
    && forall o :: o in done ==> Needed(run.rules, o) <= done
  }

  ghost predicate GoodRun(run: Run, revision: nat, completed: bool) {
    && 1 <= run.runId
    && run.runId + |Done(run.rules, run.objectives)| <= revision
    && RulesWithPreset(run.rules.contract, run.rules.preset) == Some(run.rules)
    && GoodObjectives(run, completed)
    && (run.elapsedMs.Some? <==> completed && TimeGoal(run.rules).Some?)
    && (run.elapsedMs.Some? ==> run.elapsedMs.value <= MAX_REVISION)
    && run.equipment.admitted && run.equipment.loadoutRevision <= MAX_REVISION
    && (run.rules.contract == DistantSignal ==> run.equipment.reachesLane)
  }

  ghost predicate ClosedByBits(rules: Rules, x: bv8) {
    forall o :: o in Asked(rules.contract) && Holds(rules, x, o) ==>
      forall n :: n in Needed(rules, o) ==> Holds(rules, x, n)
  }

  lemma ClosedMeansInOrder(rules: Rules, x: bv8)
    requires Sequential(rules.contract) && x & !CompleteMask(rules.contract) == 0
    ensures ClosedByBits(rules, x) <==> x == 0 || x == 1 || x == 3 || x == 7
  {
    var a, b, c := ForBit(rules, 1), ForBit(rules, 2), ForBit(rules, 4);
    EveryBitIsAsked(rules, 1);
    EveryBitIsAsked(rules, 2);
    EveryBitIsAsked(rules, 4);
    ThreeInOrder(rules, x);
    SmallBits(x);
  }

  lemma SmallBits(x: bv8)
    requires x & !7 == 0
    ensures x == 0 || x == 1 || x == 3 || x == 7 <==> (x & 2 != 0 ==> x & 1 != 0) && (x & 4 != 0 ==> x & 1 != 0 && x & 2 != 0)
  {
  }

  lemma ThreeInOrder(rules: Rules, x: bv8)
    requires Sequential(rules.contract)
    ensures var a, b, c := ForBit(rules, 1), ForBit(rules, 2), ForBit(rules, 4);
      && Needed(rules, a) == {} && Needed(rules, b) == {a} && Needed(rules, c) == {a, b}
      && Asked(rules.contract) == {a, b, c}
  {
  }

  lemma DoneIsClosed(rules: Rules, x: bv8)
    ensures ClosedByBits(rules, x) <==> forall o :: o in Done(rules, x) ==> Needed(rules, o) <= Done(rules, x)
  {
    forall o | o in Asked(rules.contract) ensures Needed(rules, o) <= Asked(rules.contract) {
      NeedsAreAsked(rules, o);
    }
    hide Asked, Needed, Holds;
  }

  lemma MeridianIsClosed(rules: Rules, x: bv8)
    requires rules.contract == MeridianCircuit && x & !CompleteMask(MeridianCircuit) == 0
    ensures ClosedByBits(rules, x) <==> (x & 8 != 0 ==> x == 15)
  {
    ReturnedNeedsAll(rules, x);
    assert x & 8 != 0 && x & 1 != 0 && x & 2 != 0 && x & 4 != 0 <==> x == 15;
  }

  lemma ReturnedNeedsAll(rules: Rules, x: bv8)
    requires rules.contract == MeridianCircuit
    ensures ClosedByBits(rules, x) <==> (x & 8 != 0 ==> x & 1 != 0 && x & 2 != 0 && x & 4 != 0)
  {
    assert Holds(rules, x, Returned) <==> x & 8 != 0;
    assert Holds(rules, x, LensRead) <==> x & 1 != 0;
    assert Holds(rules, x, GalleryRead) <==> x & 2 != 0;
    assert Holds(rules, x, LogRead) <==> x & 4 != 0;
    hide Holds;
    assert Returned in Asked(rules.contract) && LensRead in Needed(rules, Returned);
    assert GalleryRead in Needed(rules, Returned) && LogRead in Needed(rules, Returned);
  }

  lemma FreeIsClosed(rules: Rules, x: bv8)
    requires !Sequential(rules.contract) && rules.contract != MeridianCircuit
    ensures ClosedByBits(rules, x)
  {
    forall o | o in Asked(rules.contract) ensures Needed(rules, o) == {} {
      FreeNeedsNothing(rules, o);
    }
    hide Asked, Needed, Holds;
  }

  /** The code's word tests, as sets. */
  lemma SoundBitsAreGood(run: Run, completed: bool)
    ensures BitsAreSound(run.objectives, run.rules.contract, completed) <==> GoodObjectives(run, completed)
  {
    var rules, x := run.rules, run.objectives;
    if x & !CompleteMask(rules.contract) == 0 {
      DoneIsClosed(rules, x);
      MaskIsAll(rules, x);
      if Sequential(rules.contract) {
        ClosedMeansInOrder(rules, x);
        assert rules.contract != MeridianCircuit;
      } else if rules.contract == MeridianCircuit {
        MeridianIsClosed(rules, x);
        assert CompleteMask(rules.contract) == 15;
      } else {
        FreeIsClosed(rules, x);
      }
    }
    hide ClosedByBits, Asked, Needed, Done, Sequential;
  }

  lemma GoodRunsAreValid(run: Run, revision: nat, completed: bool)
    ensures RunIsValid(run, revision, completed) <==> GoodRun(run, revision, completed)
  {
    SoundBitsAreGood(run, completed);
    if run.objectives & !CompleteMask(run.rules.contract) == 0 {
      BitsCountObjectives(run.rules, run.objectives);
    }
    assert BitsAreSound(run.objectives, run.rules.contract, completed) ==>
      run.objectives & !CompleteMask(run.rules.contract) == 0;
    assert GoodObjectives(run, completed) ==> run.objectives & !CompleteMask(run.rules.contract) == 0;
    hide BitsAreSound, GoodObjectives, CountOnes, Done, CompleteMask, TimeGoal, RulesWithPreset;
  }

  // ----- good saves -----

  /** Records of good completed runs, one for each rules, all older than the active run and none newer than the last. */
  ghost predicate GoodRecords(s: State) {
    && |s.records| <= 16
    && (forall i :: 0 <= i < |s.records| ==> GoodRun(s.records[i], s.revision, true))
    && (forall i, j :: 0 <= i < j < |s.records| ==>
          s.records[i].rules != s.records[j].rules && s.records[i].runId != s.records[j].runId)
    && (s.active.Some? ==> forall i :: 0 <= i < |s.records| ==> s.records[i].runId < s.active.value.runId)
    && (s.records != [] ==> s.lastResult.Some?)
    && (s.lastResult.Some? ==> forall i :: 0 <= i < |s.records| ==>
          && s.records[i].runId <= s.lastResult.value.run.runId
          && (s.records[i].runId == s.lastResult.value.run.runId ==> s.records[i] == s.lastResult.value.run))
  }

  ghost predicate GoodResult(s: State, result: AttemptResult) {
    && GoodRun(result.run, s.revision, result.outcome == Completed)
    && (s.active.Some? ==> result.run.runId < s.active.value.runId)
    && (result.outcome == Completed ==> exists i :: 0 <= i < |s.records| && s.records[i].rules == result.run.rules)
  }

  ghost predicate GoodSave(s: State) {
    && s.revision <= MAX_REVISION
    && (s.revision > 0 ==> s.active.Some? || s.lastResult.Some?)
    && (s.active.Some? ==> GoodRun(s.active.value, s.revision, false))
    && (s.lastResult.Some? ==> GoodResult(s, s.lastResult.value))
    && GoodRecords(s)
  }

  lemma GoodRecordsAreValid(s: State)
    ensures |s.records| <= 16 && RecordsAreValid(s) <==> GoodRecords(s)
  {
    hide RunIsValid, GoodRun;
    forall i | 0 <= i < |s.records| ensures RunIsValid(s.records[i], s.revision, true) <==> GoodRun(s.records[i], s.revision, true) {
      GoodRunsAreValid(s.records[i], s.revision, true);
    }
    if GoodRecords(s) {
      forall i | 0 <= i < |s.records| ensures RecordAgrees(s, i) {
      }
    }
    if RecordsAreValid(s) {
      ValidRecordsAreDistinct(s);
      forall i | 0 <= i < |s.records|
        ensures s.active.Some? ==> s.records[i].runId < s.active.value.runId
        ensures s.lastResult.Some? && s.records[i].runId <= s.lastResult.value.run.runId
        ensures s.records[i].runId == s.lastResult.value.run.runId ==> s.records[i] == s.lastResult.value.run
      {
        assert RecordAgrees(s, i);
      }
      if s.records != [] {
        assert RecordAgrees(s, 0);
      }
    }
  }

  /** A save validates exactly when it is good. */
  lemma ValidationMeans(s: State)
    ensures Validation(s).None? <==> GoodSave(s)
  {
    ValidationIsExact(s);
    GoodRecordsAreValid(s);
    if s.active.Some? {
      GoodRunsAreValid(s.active.value, s.revision, false);
    }
    if s.lastResult.Some? {
      GoodRunsAreValid(s.lastResult.value.run, s.revision, s.lastResult.value.outcome == Completed);
    }
    hide Validation, RunIsValid, GoodRun, RecordsAreValid, GoodRecords;
  }
}
