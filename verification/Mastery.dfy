// The mastery archive: earliest qualifying attempts by goal, and the badges
// they earn, however the history is read.

module Mastery {
  import opened Wrappers
  import opened MachineWords

  datatype Goal = Breacher | Marksman | Guard | RoutePlanner | TargetPriority | PrismExecution {
    /** The derived order the archive sorts by. */
    function Rank(): nat {
      match this
      case Breacher => 0 case Marksman => 1 case Guard => 2
      case RoutePlanner => 3 case TargetPriority => 4 case PrismExecution => 5
    }
  }

  datatype Reason =
    | Achieved | CompleteContract | UseBuild | PreserveReserve | UseWestRoute | ReduceRouteMoves | MenderFirst | AvoidPrismDamage

  datatype Assessment = Assessment(goal: Goal, reason: Reason)

  datatype Attempt = Attempt(runId: nat, assessments: seq<Assessment>, routeMoves: Option<nat>, prismDamage: Option<nat>)

  datatype Record = Record(goal: Goal, runId: nat)

  datatype Badge = ArsenalAdept | FieldTactician | PrismAdept {
    function Goals(): seq<Goal> {
      match this
      case ArsenalAdept => [Breacher, Marksman, Guard]
      case FieldTactician => [RoutePlanner, TargetPriority]
      case PrismAdept => [PrismExecution]
    }

    function Rank(): nat {
      match this case ArsenalAdept => 0 case FieldTactician => 1 case PrismAdept => 2
    }
  }

  const BADGES: seq<Badge> := [ArsenalAdept, FieldTactician, PrismAdept]

  datatype BadgeRecord = BadgeRecord(badge: Badge, runId: nat)

  // ----- records -----

  ghost predicate Distinct(records: seq<Record>) {
    forall i, j :: 0 <= i < j < |records| ==> records[i].goal != records[j].goal
  }

  ghost predicate Ascending(records: seq<Record>) {
    forall i, j :: 0 <= i < j < |records| ==> records[i].goal.Rank() < records[j].goal.Rank()
  }

  function EntryOf(records: seq<Record>, goal: Goal): (entry: Option<nat>)
    ensures entry.Some? ==> Record(goal, entry.value) in records
    ensures entry.None? ==> forall i :: 0 <= i < |records| ==> records[i].goal != goal
  {
    if records == [] then None
    else if records[0].goal == goal then Some(records[0].runId)
    else EntryOf(records[1..], goal)
  }

  lemma {:induction false} EntryIsUnique(records: seq<Record>, i: nat)
    requires Distinct(records) && i < |records|
    ensures EntryOf(records, records[i].goal) == Some(records[i].runId)
  {
    if i > 0 {
      EntryIsUnique(records[1..], i - 1);
    }
  }

  ghost predicate SameEntries(a: seq<Record>, b: seq<Record>) {
    forall goal :: EntryOf(a, goal) == EntryOf(b, goal)
  }

  /** In ascending order, equal entries mean equal records. */
  lemma {:induction false} AscendingIsCanonical(a: seq<Record>, b: seq<Record>)
    requires Ascending(a) && Ascending(b) && SameEntries(a, b)
    ensures a == b
  {
    if a == [] || b == [] {
      if a != [] {
        EntryIsUnique(a, 0);
      }
      if b != [] {
        EntryIsUnique(b, 0);
      }
    } else {
      HeadIsLeast(a, b);
      HeadIsLeast(b, a);
      assert a[0].goal == b[0].goal by {
        RanksAreDistinct(a[0].goal, b[0].goal);
      }
      forall goal ensures EntryOf(a[1..], goal) == EntryOf(b[1..], goal) {
        assert EntryOf(a, goal) == EntryOf(b, goal);
        if goal == a[0].goal {
          assert EntryOf(a[1..], goal) == None && EntryOf(b[1..], goal) == None;
        }
      }
      AscendingIsCanonical(a[1..], b[1..]);
      EntryIsUnique(a, 0);
      EntryIsUnique(b, 0);
      assert a == [a[0]] + a[1..] && b == [b[0]] + b[1..];
    }
  }

  lemma RanksAreDistinct(a: Goal, b: Goal)
    requires a.Rank() == b.Rank()
    ensures a == b
  {
  }

  lemma HeadIsLeast(a: seq<Record>, b: seq<Record>)
    requires a != [] && b != [] && Ascending(a) && Ascending(b) && SameEntries(a, b)
    ensures a[0].goal.Rank() <= b[0].goal.Rank()
  {
    EntryIsUnique(b, 0);
    assert EntryOf(a, b[0].goal) == EntryOf(b, b[0].goal);
  }

  function Inserted(sorted: seq<Record>, record: Record): seq<Record> {
    if sorted == [] then [record]
    else if record.goal.Rank() < sorted[0].goal.Rank() then [record] + sorted
    else [sorted[0]] + Inserted(sorted[1..], record)
  }

  /** `sort_by_key` on the goal. */
  function SortedByGoal(records: seq<Record>): seq<Record> {
    if records == [] then [] else Inserted(SortedByGoal(records[1..]), records[0])
  }

  lemma {:induction false} InsertedMembers(sorted: seq<Record>, record: Record)
    ensures forall r :: r in Inserted(sorted, record) <==> r == record || r in sorted
  {
    if sorted != [] {
      assert sorted == [sorted[0]] + sorted[1..];
      InsertedMembers(sorted[1..], record);
    }
  }

  lemma EntryOfCons(head: Record, rest: seq<Record>, goal: Goal)
    ensures EntryOf([head] + rest, goal) == if head.goal == goal then Some(head.runId) else EntryOf(rest, goal)
  {
    assert ([head] + rest)[1..] == rest;
  }

  lemma {:induction false} InsertedEntry(sorted: seq<Record>, record: Record, goal: Goal)
    requires EntryOf(sorted, record.goal) == None
    ensures EntryOf(Inserted(sorted, record), goal)
      == if goal == record.goal then Some(record.runId) else EntryOf(sorted, goal)
  {
    if sorted == [] || record.goal.Rank() < sorted[0].goal.Rank() {
      EntryOfCons(record, sorted, goal);
      assert [record] + [] == [record];
    } else {
      InsertedEntry(sorted[1..], record, goal);
      EntryOfCons(sorted[0], Inserted(sorted[1..], record), goal);
    }
  }

  lemma {:induction false} InsertedIsAscending(sorted: seq<Record>, record: Record)
    requires Ascending(sorted) && EntryOf(sorted, record.goal) == None
    ensures Ascending(Inserted(sorted, record))
  {
    if sorted != [] && sorted[0].goal.Rank() <= record.goal.Rank() {
      var rest := Inserted(sorted[1..], record);
      InsertedIsAscending(sorted[1..], record);
      RanksDiffer(sorted[0].goal, record.goal);
      forall i | 0 <= i < |rest| ensures sorted[0].goal.Rank() < rest[i].goal.Rank() {
        InsertedMembers(sorted[1..], record);
        assert rest[i] in rest;
      }
      hide EntryOf, Goal.Rank;
    }
  }

  lemma RanksDiffer(a: Goal, b: Goal)
    requires a != b
    ensures a.Rank() != b.Rank()
  {
  }

  lemma {:induction false} SortingKeepsEntries(records: seq<Record>)
    requires Distinct(records)
    ensures Ascending(SortedByGoal(records)) && SameEntries(SortedByGoal(records), records)
  {
    if records != [] {
      SortingKeepsEntries(records[1..]);
      EntryIsUnique(records, 0);
      assert EntryOf(records[1..], records[0].goal) == None;
      var sorted := SortedByGoal(records[1..]);
      InsertedIsAscending(sorted, records[0]);
      forall goal ensures EntryOf(Inserted(sorted, records[0]), goal) == EntryOf(records, goal) {
        InsertedEntry(sorted, records[0], goal);
      }
    }
  }

  // ----- the archive -----

  predicate AchievesIn(assessments: seq<Assessment>, goal: Goal) {
    exists i :: 0 <= i < |assessments| && assessments[i] == Assessment(goal, Achieved)
  }

  predicate Achieves(attempt: Attempt, goal: Goal) {
    AchievesIn(attempt.assessments, goal)
  }

  /** An entry after an attempt: the earlier of the two ids, if the attempt achieved the goal. */
  function Merged(entry: Option<nat>, achieved: bool, runId: nat): Option<nat> {
    if !achieved then entry else if entry.None? then Some(runId) else Some(Min(entry.value, runId))
  }

  function Later(last: Option<Attempt>, attempt: Attempt): Option<Attempt> {
    if last.None? || last.value.runId < attempt.runId then Some(attempt) else last
  }

  class Archive {
    var records: seq<Record>
    var lastAttempt: Option<Attempt>

    constructor ()
      ensures records == [] && lastAttempt == None
    {
      records, lastAttempt := [], None;
    }

    method Observe(attempt: Attempt)
      requires Ascending(records)
      modifies this
      ensures Ascending(records)
      ensures forall goal :: EntryOf(records, goal) == Merged(EntryOf(old(records), goal), Achieves(attempt, goal), attempt.runId)
      ensures lastAttempt == Later(old(lastAttempt), attempt)
    {
      AscendingIsDistinct(records);
      var index := 0;
      while index < |attempt.assessments|
        invariant 0 <= index <= |attempt.assessments|
        invariant Distinct(records) && lastAttempt == old(lastAttempt)
        invariant forall goal ::
          EntryOf(records, goal) == Merged(EntryOf(old(records), goal), AchievesIn(attempt.assessments[..index], goal), attempt.runId)
      {
        var assessment := attempt.assessments[index];
        ghost var before := records;
        if assessment.reason == Achieved {
          Admit(assessment.goal, attempt.runId);
        }
        forall goal
          ensures EntryOf(records, goal) ==
            Merged(EntryOf(old(records), goal), AchievesIn(attempt.assessments[..index + 1], goal), attempt.runId)
        {
          OneMore(attempt.assessments, index, goal);
          assert EntryOf(before, goal) ==
            Merged(EntryOf(old(records), goal), AchievesIn(attempt.assessments[..index], goal), attempt.runId);
        }
        index := index + 1;
      }
      assert attempt.assessments[..index] == attempt.assessments;
      SortingKeepsEntries(records);
      records := SortedByGoal(records);
      if lastAttempt.None? || lastAttempt.value.runId < attempt.runId {
        lastAttempt := Some(attempt);
      }
    }

    /** Keep the smaller id of the goal's record, or add one. */
    method Admit(goal: Goal, runId: nat)
      requires Distinct(records)
      modifies this`records
      ensures Distinct(records)
      ensures forall other :: EntryOf(records, other) == Merged(EntryOf(old(records), other), other == goal, runId)
    {
      var i := 0;
      while i < |records| && records[i].goal != goal
        invariant 0 <= i <= |records|
        invariant forall j :: 0 <= j < i ==> records[j].goal != goal
      {
        i := i + 1;
      }
      if i < |records| {
        EntryIsUnique(records, i);
        ghost var before := records;
        forall other ensures EntryOf(before[i := Record(goal, Min(before[i].runId, runId))], other)
          == if other == goal then Some(Min(before[i].runId, runId)) else EntryOf(before, other)
        {
          EntryUpdated(before, i, Min(before[i].runId, runId), other);
        }
        records := records[i := Record(goal, Min(records[i].runId, runId))];
      } else {
        assert EntryOf(records, goal) == None;
        EntryAppended(records, Record(goal, runId));
        records := records + [Record(goal, runId)];
      }
    }
  }

  lemma AscendingIsDistinct(records: seq<Record>)
    requires Ascending(records)
    ensures Distinct(records)
  {
  }

  lemma OneMore(assessments: seq<Assessment>, index: nat, goal: Goal)
    requires index < |assessments|
    ensures AchievesIn(assessments[..index + 1], goal) <==>
      AchievesIn(assessments[..index], goal) || assessments[index] == Assessment(goal, Achieved)
  {
    var more := assessments[..index + 1];
    assert more[index] == assessments[index];
    assert forall i :: 0 <= i < index ==> more[i] == assessments[..index][i];
  }

  lemma {:induction false} EntryUpdated(records: seq<Record>, i: nat, runId: nat, other: Goal)
    requires Distinct(records) && i < |records|
    ensures EntryOf(records[i := Record(records[i].goal, runId)], other)
      == if other == records[i].goal then Some(runId) else EntryOf(records, other)
  {
    var after := records[i := Record(records[i].goal, runId)];
    if i > 0 {
      EntryUpdated(records[1..], i - 1, runId, other);
      assert after[1..] == records[1..][i - 1 := Record(records[i].goal, runId)];
    } else {
      assert after[1..] == records[1..];
    }
  }

  lemma {:induction false} EntryAppended(records: seq<Record>, record: Record)
    requires EntryOf(records, record.goal) == None
    ensures forall other ::
      EntryOf(records + [record], other) == if other == record.goal then Some(record.runId) else EntryOf(records, other)
  {
    if records == [] {
      assert records + [record] == [record];
    } else {
      assert (records + [record])[1..] == records[1..] + [record];
      EntryAppended(records[1..], record);
    }
  }
}

/** The archive over whole histories, and the badges it earns. */
module MasteryHistory {
  import opened Wrappers
  import opened MachineWords
  import opened Mastery

  /** The archive's fields as a value. */
  datatype Archived = Archived(records: seq<Record>, lastAttempt: Option<Attempt>)

  /** One observation: what `Observe` promises about the archive before and after it. */
  ghost predicate Observes(before: Archived, attempt: Attempt, after: Archived) {
    && Ascending(after.records)
    && (forall goal :: EntryOf(after.records, goal) == Merged(EntryOf(before.records, goal), Achieves(attempt, goal), attempt.runId))
    && after.lastAttempt == Later(before.lastAttempt, attempt)
  }

  /** An archive reached from the empty one by observing the attempts in order. */
  ghost predicate Reads(history: seq<Attempt>, archive: Archived) {
    if history == [] then archive == Archived([], None)
    else
      var front, last := history[..|history| - 1], history[|history| - 1];
      exists before :: Reads(front, before) && Observes(before, last, archive)
  }

  lemma ReadsSnoc(front: seq<Attempt>, before: Archived, last: Attempt, after: Archived)
    requires Reads(front, before) && Observes(before, last, after)
    ensures Reads(front + [last], after)
  {
    assert (front + [last])[..|front|] == front;
    hide Observes;
  }

  method ReadAll(history: seq<Attempt>) returns (archive: Archive)
    ensures fresh(archive) && Reads(history, Archived(archive.records, archive.lastAttempt))
  {
    archive := new Archive();
    var i := 0;
    assert history[..0] == [];
    while i < |history|
      invariant 0 <= i <= |history| && fresh(archive)
      invariant Ascending(archive.records)
      invariant Reads(history[..i], Archived(archive.records, archive.lastAttempt))
    {
      ghost var before := Archived(archive.records, archive.lastAttempt);
      archive.Observe(history[i]);
      ghost var after := Archived(archive.records, archive.lastAttempt);
      assert Observes(before, history[i], after);
      ReadsSnoc(history[..i], before, history[i], after);
      assert history[..i + 1] == history[..i] + [history[i]];
      i := i + 1;
    }
    assert history[..i] == history;
  }

  // ----- what the archive holds -----

  ghost predicate EverAchieved(history: seq<Attempt>, goal: Goal) {
    exists i :: 0 <= i < |history| && Achieves(history[i], goal)
  }

  /** The least run id of an attempt achieving the goal. */
  ghost predicate IsEarliest(history: seq<Attempt>, goal: Goal, runId: nat) {
    && (exists i :: 0 <= i < |history| && Achieves(history[i], goal) && history[i].runId == runId)
    && (forall i :: 0 <= i < |history| && Achieves(history[i], goal) ==> runId <= history[i].runId)
  }

  ghost predicate IsLatest(history: seq<Attempt>, attempt: Attempt) {
    attempt in history && forall i :: 0 <= i < |history| ==> history[i].runId <= attempt.runId
  }

  lemma ObservingKeepsEarliest(front: seq<Attempt>, last: Attempt, goal: Goal, before: Option<nat>)
    requires before.Some? <==> EverAchieved(front, goal)
    requires before.Some? ==> IsEarliest(front, goal, before.value)
    ensures var after := Merged(before, Achieves(last, goal), last.runId);
      && (after.Some? <==> EverAchieved(front + [last], goal))
      && (after.Some? ==> IsEarliest(front + [last], goal, after.value))
  {
    hide Achieves;
    var history := front + [last];
    assert history[|front|] == last;
    assert forall i :: 0 <= i < |front| ==> history[i] == front[i];
    if EverAchieved(front, goal) {
      var i :| 0 <= i < |front| && Achieves(front[i], goal) && front[i].runId == before.value;
      assert Achieves(history[i], goal) && history[i].runId == before.value;
    }
    if Achieves(last, goal) {
      assert Achieves(history[|front|], goal) && history[|front|].runId == last.runId;
    }
  }

  lemma {:induction false} ArchiveHoldsTheEarliest(history: seq<Attempt>, archive: Archived, goal: Goal)
    requires Reads(history, archive)
    ensures Ascending(archive.records)
    ensures EntryOf(archive.records, goal).Some? <==> EverAchieved(history, goal)
    ensures EntryOf(archive.records, goal).Some? ==> IsEarliest(history, goal, EntryOf(archive.records, goal).value)
  {
    if history != [] {
      var front, last := history[..|history| - 1], history[|history| - 1];
      var before :| Reads(front, before) && Observes(before, last, archive);
      hide Reads, Achieves, EntryOf, IsEarliest, EverAchieved;
      ArchiveHoldsTheEarliest(front, before, goal);
      assert history == front + [last];
      ObservingKeepsEarliest(front, last, goal, EntryOf(before.records, goal));
    }
  }

  lemma {:induction false} ArchiveHoldsTheLatest(history: seq<Attempt>, archive: Archived)
    requires Reads(history, archive)
    ensures archive.lastAttempt.Some? <==> history != []
    ensures archive.lastAttempt.Some? ==> IsLatest(history, archive.lastAttempt.value)
  {
    if history != [] {
      var front, last := history[..|history| - 1], history[|history| - 1];
      var before :| Reads(front, before) && Observes(before, last, archive);
      hide Reads, Achieves, EntryOf, Merged;
      ArchiveHoldsTheLatest(front, before);
      assert history == front + [last];
    }
  }

  ghost predicate SameAttempts(a: seq<Attempt>, b: seq<Attempt>) {
    forall attempt :: attempt in a <==> attempt in b
  }

  ghost predicate OneAttemptPerRun(history: seq<Attempt>) {
    forall i, j :: 0 <= i < |history| && 0 <= j < |history| && history[i].runId == history[j].runId ==> history[i] == history[j]
  }

  lemma SameEarliest(a: seq<Attempt>, b: seq<Attempt>, goal: Goal, first: nat, second: nat)
    requires SameAttempts(a, b) && IsEarliest(a, goal, first) && IsEarliest(b, goal, second)
    ensures first == second
  {
    hide Achieves;
    var i :| 0 <= i < |a| && Achieves(a[i], goal) && a[i].runId == first;
    assert a[i] in b;
    var j :| 0 <= j < |b| && Achieves(b[j], goal) && b[j].runId == second;
    assert b[j] in a;
  }

  lemma SameEver(a: seq<Attempt>, b: seq<Attempt>, goal: Goal)
    requires SameAttempts(a, b) && EverAchieved(a, goal)
    ensures EverAchieved(b, goal)
  {
    hide Achieves;
    var i :| 0 <= i < |a| && Achieves(a[i], goal);
    assert a[i] in b;
  }

  /** The archive depends only on which attempts were observed: not on their order, and not on repetition. */
  lemma OrderAndRepetitionDoNotMatter(a: seq<Attempt>, b: seq<Attempt>, first: Archived, second: Archived)
    requires Reads(a, first) && Reads(b, second) && SameAttempts(a, b) && OneAttemptPerRun(a)
    ensures first == second
  {
    hide Reads, Achieves;
    forall goal ensures EntryOf(first.records, goal) == EntryOf(second.records, goal) {
      ArchiveHoldsTheEarliest(a, first, goal);
      ArchiveHoldsTheEarliest(b, second, goal);
      if EverAchieved(a, goal) {
        SameEver(a, b, goal);
        SameEarliest(a, b, goal, EntryOf(first.records, goal).value, EntryOf(second.records, goal).value);
      } else if EverAchieved(b, goal) {
        SameEver(b, a, goal);
      }
    }
    ArchiveHoldsTheEarliest(a, first, Breacher);
    ArchiveHoldsTheEarliest(b, second, Breacher);
    ArchiveHoldsTheLatest(a, first);
    ArchiveHoldsTheLatest(b, second);
    AscendingIsCanonical(first.records, second.records);
    if a != [] {
      assert a[0] in b;
      LatestIsUnique(a, b, first.lastAttempt.value, second.lastAttempt.value);
    }
  }

  lemma LatestIsUnique(a: seq<Attempt>, b: seq<Attempt>, first: Attempt, second: Attempt)
    requires SameAttempts(a, b) && OneAttemptPerRun(a) && IsLatest(a, first) && IsLatest(b, second)
    ensures first == second
  {
    assert first in b && second in a;
    var i :| 0 <= i < |a| && a[i] == first;
    var j :| 0 <= j < |a| && a[j] == second;
  }

  // ----- badges -----

  /** The ids of the records of all the goals, if each has one. */
  function RunsOf(records: seq<Record>, goals: seq<Goal>): Option<seq<nat>> {
    if goals == [] then Some([])
    else match (EntryOf(records, goals[0]), RunsOf(records, goals[1..]))
      case (Some(id), Some(rest)) => Some([id] + rest)
      case _ => None
  }

  function Greatest(ids: seq<nat>): nat {
    if ids == [] then 0 else Max(ids[0], Greatest(ids[1..]))
  }

  function BadgeFor(records: seq<Record>, badge: Badge): Option<BadgeRecord> {
    match RunsOf(records, badge.Goals())
    case None => None
    case Some(ids) => Some(BadgeRecord(badge, Greatest(ids)))
  }

  /** `Archive::badges`: in the badges' order, those whose goals all have a record. */
  method Badges(archive: Archive) returns (badges: seq<BadgeRecord>)
    ensures forall badge: Badge, id: nat ::
      BadgeRecord(badge, id) in badges <==> BadgeFor(archive.records, badge) == Some(BadgeRecord(badge, id))
    ensures forall i, j :: 0 <= i < j < |badges| ==> badges[i].badge.Rank() < badges[j].badge.Rank()
  {
    badges := [];
    var i := 0;
    while i < |BADGES|
      invariant 0 <= i <= |BADGES|
      invariant forall badge: Badge, id: nat ::
        BadgeRecord(badge, id) in badges <==> badge.Rank() < i && BadgeFor(archive.records, badge) == Some(BadgeRecord(badge, id))
      invariant forall k :: 0 <= k < |badges| ==> badges[k].badge.Rank() < i
      invariant forall j, k :: 0 <= j < k < |badges| ==> badges[j].badge.Rank() < badges[k].badge.Rank()
    {
      assert BADGES[i].Rank() == i;
      var earned := BadgeFor(archive.records, BADGES[i]);
      if earned.Some? {
        badges := badges + [earned.value];
      }
      i := i + 1;
    }
  }

  /** The attempts with run id at most `n` alone achieve all of the goals. */
  ghost predicate EarnedBy(history: seq<Attempt>, goals: seq<Goal>, n: nat) {
    forall g :: g in goals ==> AchievedBy(history, g, n)
  }

  ghost predicate AchievedBy(history: seq<Attempt>, goal: Goal, n: nat) {
    exists i :: 0 <= i < |history| && history[i].runId <= n && Achieves(history[i], goal)
  }

  lemma {:induction false} RunsAreEarliest(history: seq<Attempt>, archive: Archived, goals: seq<Goal>, n: nat)
    requires Reads(history, archive)
    ensures EarnedBy(history, goals, n) <==> RunsOf(archive.records, goals).Some? && Greatest(RunsOf(archive.records, goals).value) <= n
  {
    hide Reads, Achieves;
    if goals != [] {
      var goal := goals[0];
      ArchiveHoldsTheEarliest(history, archive, goal);
      RunsAreEarliest(history, archive, goals[1..], n);
      EarnedAlone(history, archive, goal, n);
      hide AchievedBy, IsEarliest, EverAchieved;
      assert forall g :: g in goals <==> g == goal || g in goals[1..];
    }
  }

  lemma EarnedAlone(history: seq<Attempt>, archive: Archived, goal: Goal, n: nat)
    requires EntryOf(archive.records, goal).Some? <==> EverAchieved(history, goal)
    requires EntryOf(archive.records, goal).Some? ==> IsEarliest(history, goal, EntryOf(archive.records, goal).value)
    ensures AchievedBy(history, goal, n) <==> EntryOf(archive.records, goal).Some? && EntryOf(archive.records, goal).value <= n
  {
    hide Achieves, EntryOf;
    if AchievedBy(history, goal, n) {
      var i :| 0 <= i < |history| && history[i].runId <= n && Achieves(history[i], goal);
    }
  }

  /**
   * A badge is awarded iff its goals were all achieved, and its run id is then the least `n` for
   * which the attempts numbered at most `n` already earn it.
   */
  lemma BadgesDateFromTheLastGoal(history: seq<Attempt>, archive: Archived, badge: Badge)
    requires Reads(history, archive)
    ensures BadgeFor(archive.records, badge).Some? <==> forall g :: g in badge.Goals() ==> EverAchieved(history, g)
    ensures BadgeFor(archive.records, badge).Some? ==>
      forall n :: EarnedBy(history, badge.Goals(), n) <==> BadgeFor(archive.records, badge).value.runId <= n
  {
    hide Reads, Achieves;
    forall n: nat ensures EarnedBy(history, badge.Goals(), n) <==>
      RunsOf(archive.records, badge.Goals()).Some? && Greatest(RunsOf(archive.records, badge.Goals()).value) <= n
    {
      RunsAreEarliest(history, archive, badge.Goals(), n);
    }
    EarnedEventually(history, archive, badge.Goals());
  }

  lemma {:induction false} EarnedEventually(history: seq<Attempt>, archive: Archived, goals: seq<Goal>)
    requires Reads(history, archive)
    ensures RunsOf(archive.records, goals).Some? <==> forall g :: g in goals ==> EverAchieved(history, g)
  {
    hide Reads, Achieves;
    if goals != [] {
      ArchiveHoldsTheEarliest(history, archive, goals[0]);
      EarnedEventually(history, archive, goals[1..]);
      assert goals == [goals[0]] + goals[1..];
    }
  }

  /** The place of the first attempt with the greatest run id. */
  ghost predicate IsFirstLatest(history: seq<Attempt>, i: int) {
    && 0 <= i < |history|
    && (forall j :: 0 <= j < i ==> history[j].runId < history[i].runId)
    && (forall j :: i < j < |history| ==> history[j].runId <= history[i].runId)
  }

  lemma FirstLatestSnoc(front: seq<Attempt>, last: Attempt, i: nat)
    requires IsFirstLatest(front, i)
    ensures IsFirstLatest(front + [last], if front[i].runId < last.runId then |front| else i)
  {
    var more := front + [last];
    assert more[|front|] == last && forall j :: 0 <= j < |front| ==> more[j] == front[j];
  }

  /** Of several attempts with the greatest run id, the one read first is held. */
  lemma {:induction false} ArchiveHoldsTheFirstLatest(history: seq<Attempt>, archive: Archived)
    requires Reads(history, archive) && history != []
    ensures archive.lastAttempt.Some?
    ensures exists i :: IsFirstLatest(history, i) && history[i] == archive.lastAttempt.value
  {
    var front, last := history[..|history| - 1], history[|history| - 1];
    var before :| Reads(front, before) && Observes(before, last, archive);
    hide Reads, Achieves, EntryOf, Merged;
    assert history == front + [last] && archive.lastAttempt == Later(before.lastAttempt, last);
    hide Observes;
    ArchiveHoldsTheLatest(front, before);
    hide IsLatest;
    if front == [] {
      assert IsFirstLatest(history, 0);
    } else {
      ArchiveHoldsTheFirstLatest(front, before);
      var i :| IsFirstLatest(front, i) && front[i] == before.lastAttempt.value;
      assert i < |front|;
      FirstLatestSnoc(front, last, i);
      hide IsFirstLatest;
      assert history[i] == front[i] && history[|front|] == last;
    }
  }

  /** Which goals earn which badge. */
  lemma GoalsOfTheBadges(history: seq<Attempt>, archive: Archived)
    requires Reads(history, archive)
    ensures BadgeFor(archive.records, ArsenalAdept).Some? <==>
      EverAchieved(history, Breacher) && EverAchieved(history, Marksman) && EverAchieved(history, Guard)
    ensures BadgeFor(archive.records, FieldTactician).Some? <==>
      EverAchieved(history, RoutePlanner) && EverAchieved(history, TargetPriority)
    ensures BadgeFor(archive.records, PrismAdept).Some? <==> EverAchieved(history, PrismExecution)
  {
    hide EverAchieved, BadgeFor, Reads;
    BadgesDateFromTheLastGoal(history, archive, ArsenalAdept);
    BadgesDateFromTheLastGoal(history, archive, FieldTactician);
    BadgesDateFromTheLastGoal(history, archive, PrismAdept);
  }
}
