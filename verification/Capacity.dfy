/**
 How far concurrent triages can overcommit the week. Each one reads the remaining capacity,
 waits for the model, and commits on the strength of what it had read.
 */
module Capacity {
  import opened Wrappers
  import opened PyText
  import opened Gatekeeper
  import opened Tables
  import opened TableLaws
  import opened Pipeline
  import opened PipelineSafety

  /** The minutes an item takes from the week as an accepted "do it now". */
  function DoNow(item: Item): int {
    var d := item.draft;
    if d.kind == "task" && item.status == "open" && d.decision == "do_now" && d.effort.Some? then d.effort.value else 0
  }

  function DoNowMinutes(items: seq<Item>): int {
    if items == [] then 0 else DoNowMinutes(items[..|items| - 1]) + DoNow(items[|items| - 1])
  }

  /** A triage that may still commit a "do it now". */
  predicate IsHopeful(job: Job) {
    job.Deciding? && job.remaining > 0
  }

  function Hopeful(jobs: seq<Job>): nat {
    if jobs == [] then 0 else Hopeful(jobs[..|jobs| - 1]) + (if IsHopeful(jobs[|jobs| - 1]) then 1 else 0)
  }

  /** The triages between snapshot and commit. */
  function InFlight(jobs: seq<Job>): nat {
    if jobs == [] then 0 else InFlight(jobs[..|jobs| - 1]) + (if jobs[|jobs| - 1].Deciding? then 1 else 0)
  }

  predicate EffortsPositive(items: seq<Item>) {
    forall i :: 0 <= i < |items| && items[i].draft.effort.Some? ==> items[i].draft.effort.value > 0
  }

  /** The conditions of the bound on one step. */
  predicate Restrained(s: State, step: Step, weekly: int, effort: nat)
    requires Enabled(s, step)
  {
    match step
    case Snapshot(_, w) => w == weekly
    case Decide(j, a) =>
      var d := Judge(a, s.jobs[j].text, s.jobs[j].remaining).value;
      d.effort.Some? ==> d.effort.value <= effort
    case ChangeItemStatus(i, status, _) => i < |s.db.items| && status == OPEN ==> s.db.items[i].status == OPEN
    case _ => true
  }

  /** Weekly capacity fixed, efforts at most `effort`, nothing reopened, at most k triages in flight. */
  predicate RestrainedRun(s: State, steps: seq<Step>, weekly: int, k: nat, effort: nat)
    requires Runs(s, steps)
    decreases |steps|
  {
    && InFlight(s.jobs) <= k
    && (steps != [] ==>
          Restrained(s, steps[0], weekly, effort) && RestrainedRun(Apply(s, steps[0]), steps[1..], weekly, k, effort))
  }

  /** The last minute at which a snapshot is still positive. */
  function Threshold(weekly: int): nat {
    if weekly > 0 then 60 * weekly - 1 else 0
  }

  /** The potential: what is accepted plus what may still be accepted. */
  predicate Covered(s: State, weekly: int, k: nat, effort: nat) {
    DoNowMinutes(s.db.items) + effort * Hopeful(s.jobs) <= Threshold(weekly) + k * effort
  }

  // ---- Sums ----

  lemma {:induction false} DoNowSnoc(items: seq<Item>, item: Item)
    ensures DoNowMinutes(items + [item]) == DoNowMinutes(items) + DoNow(item)
  {
    assert (items + [item])[..|items|] == items;
  }

  lemma {:induction false} DoNowUpdate(items: seq<Item>, i: nat, item: Item)
    requires i < |items|
    ensures DoNowMinutes(items[i := item]) == DoNowMinutes(items) - DoNow(items[i]) + DoNow(item)
  {
    var n := |items| - 1;
    if i < n {
      DoNowUpdate(items[..n], i, item);
      assert items[i := item][..n] == items[..n][i := item];
    } else {
      assert items[i := item][..n] == items[..n];
    }
  }

  lemma {:induction false} DoNowWithinCommitted(items: seq<Item>)
    requires EffortsPositive(items)
    ensures 0 <= DoNowMinutes(items) <= CommittedMinutes(items)
  {
    if items != [] {
      DoNowWithinCommitted(items[..|items| - 1]);
    }
  }

  lemma {:induction false} HopefulUpdate(jobs: seq<Job>, j: nat, job: Job)
    requires j < |jobs|
    ensures Hopeful(jobs[j := job])
            == Hopeful(jobs) - (if IsHopeful(jobs[j]) then 1 else 0) + (if IsHopeful(job) then 1 else 0)
  {
    var n := |jobs| - 1;
    if j < n {
      HopefulUpdate(jobs[..n], j, job);
      assert jobs[j := job][..n] == jobs[..n][j := job];
    } else {
      assert jobs[j := job][..n] == jobs[..n];
    }
  }

  lemma {:induction false} HopefulSnoc(jobs: seq<Job>, job: Job)
    requires !job.Deciding?
    ensures Hopeful(jobs + [job]) == Hopeful(jobs)
  {
    assert (jobs + [job])[..|jobs|] == jobs;
  }

  lemma {:induction false} HopefulInFlight(jobs: seq<Job>)
    ensures Hopeful(jobs) <= InFlight(jobs)
  {
    if jobs != [] {
      HopefulInFlight(jobs[..|jobs| - 1]);
    }
  }

  lemma ScaleAtMost(effort: nat, a: nat, b: nat)
    requires a <= b
    ensures effort * a <= effort * b
  {
  }

  lemma OneFewer(effort: nat, n: nat)
    requires n > 0
    ensures effort * (n - 1) + effort == effort * n
  {
  }

  // ---- One step ----

  lemma StepEfforts(s: State, step: Step)
    requires EffortsPositive(s.db.items) && Enabled(s, step)
    ensures EffortsPositive(Apply(s, step).db.items)
  {
    hide HasText;
    if step.Decide? {
      var job := s.jobs[step.job];
      var d := Judge(step.answer, job.text, job.remaining).value;
      assert d.effort.Some? ==> d.effort.value > 0;
    } else if Apply(s, step).db.items != s.db.items {
      hide Judge;
      var i := ItemTouched(s, step);
      hide Apply;
    }
  }

  /** Steps outside triage never add accepted minutes or hopeful jobs. */
  lemma StepPlain(s: State, step: Step, weekly: int, effort: nat)
    requires EffortsPositive(s.db.items) && Enabled(s, step) && Restrained(s, step, weekly, effort)
    requires !step.Snapshot? && !step.Decide?
    ensures DoNowMinutes(Apply(s, step).db.items) <= DoNowMinutes(s.db.items)
    ensures Hopeful(Apply(s, step).jobs) <= Hopeful(s.jobs)
  {
    PlainItems(s, step, weekly, effort);
    PlainJobs(s, step);
  }

  lemma PlainJobs(s: State, step: Step)
    requires Enabled(s, step) && !step.Snapshot? && !step.Decide?
    ensures Hopeful(Apply(s, step).jobs) <= Hopeful(s.jobs)
  {
    hide Judge, HasText;
    var t := Apply(s, step);
    if |t.jobs| > |s.jobs| {
      HopefulSnoc(s.jobs, t.jobs[|s.jobs|]);
      assert t.jobs == s.jobs + [t.jobs[|s.jobs|]];
    } else if t.jobs != s.jobs && t.jobs != [] {
      assert t.jobs == s.jobs[step.job := t.jobs[step.job]];
      HopefulUpdate(s.jobs, step.job, t.jobs[step.job]);
    }
  }

  lemma PlainItems(s: State, step: Step, weekly: int, effort: nat)
    requires EffortsPositive(s.db.items) && Enabled(s, step) && Restrained(s, step, weekly, effort)
    requires !step.Snapshot? && !step.Decide?
    ensures DoNowMinutes(Apply(s, step).db.items) <= DoNowMinutes(s.db.items)
  {
    hide Judge, HasText, Apply, DoNowMinutes;
    var t := Apply(s, step);
    if t.db.items != s.db.items {
      var i := ItemTouched(s, step);
      DoNowUpdate(s.db.items, i, t.db.items[i]);
      assert DoNow(t.db.items[i]) <= DoNow(s.db.items[i]);
    }
  }

  lemma ItemTouched(s: State, step: Step) returns (i: nat)
    requires Enabled(s, step) && !step.Decide? && Apply(s, step).db.items != s.db.items
    ensures i < |s.db.items| == |Apply(s, step).db.items|
    ensures Apply(s, step).db.items == s.db.items[i := Apply(s, step).db.items[i]]
    ensures var a, b := s.db.items[i], Apply(s, step).db.items[i];
            || (a.draft == b.draft.(title := a.draft.title) && a.status == b.status)
            || (step.ChangeItemStatus? && i == step.item && b == a.(status := step.status))
  {
    hide Judge, HasText;
    match step {
      case Embed(j, _) => i := s.jobs[j].item;
      case Match(j, _) => i := s.jobs[j].item;
      case EmbedItem(k) => i := k;
      case ChangeItemStatus(k, _, _) => i := k;
      case Retitle(k, _) => i := k;
      case Remind(k) => i := k;
      case _ =>
    }
  }

  lemma StepSnapshot(s: State, step: Step, weekly: int, k: nat, effort: nat)
    requires Covered(s, weekly, k, effort) && EffortsPositive(s.db.items)
    requires Enabled(s, step) && step.Snapshot? && step.weekly == weekly
    requires InFlight(Apply(s, step).jobs) <= k
    ensures Covered(Apply(s, step), weekly, k, effort)
  {
    hide Judge, HasText;
    var t := Apply(s, step);
    HopefulUpdate(s.jobs, step.job, t.jobs[step.job]);
    if IsHopeful(t.jobs[step.job]) {
      DoNowWithinCommitted(s.db.items);
      HopefulInFlight(t.jobs);
      ScaleAtMost(effort, Hopeful(t.jobs), k);
    }
  }

  /** A decision adds its item, and accepted minutes only where the snapshot left some. */
  lemma DecisionAdds(s: State, step: Step, weekly: int, effort: nat)
    requires Enabled(s, step) && step.Decide? && Restrained(s, step, weekly, effort)
    ensures var job, t := s.jobs[step.job], Apply(s, step);
            && DoNowMinutes(t.db.items) <= DoNowMinutes(s.db.items) + (if job.remaining > 0 then effort else 0)
            && t.jobs == s.jobs[step.job := Embedding(|s.db.items|)]
  {
    hide HasText;
    var job := s.jobs[step.job];
    var item := Apply(s, step).db.items[|s.db.items|];
    DoNowSnoc(s.db.items, item);
    GateRule(step.answer, job.text, job.remaining);
    hide Judge;
    assert DoNow(item) <= if job.remaining > 0 then effort else 0;
  }

  lemma StepDecide(s: State, step: Step, weekly: int, k: nat, effort: nat)
    requires Covered(s, weekly, k, effort)
    requires Enabled(s, step) && step.Decide? && Restrained(s, step, weekly, effort)
    ensures Covered(Apply(s, step), weekly, k, effort)
  {
    hide Judge, HasText;
    DecisionAdds(s, step, weekly, effort);
    var t, job := Apply(s, step), s.jobs[step.job];
    hide Apply;
    HopefulUpdate(s.jobs, step.job, t.jobs[step.job]);
    if IsHopeful(job) {
      OneFewer(effort, Hopeful(s.jobs));
      assert Hopeful(t.jobs) == Hopeful(s.jobs) - 1;
    }
  }

  lemma StepCovered(s: State, step: Step, weekly: int, k: nat, effort: nat)
    requires Covered(s, weekly, k, effort) && EffortsPositive(s.db.items)
    requires Enabled(s, step) && Restrained(s, step, weekly, effort)
    requires InFlight(Apply(s, step).jobs) <= k
    ensures Covered(Apply(s, step), weekly, k, effort)
  {
    hide Judge, HasText, Apply;
    if step.Snapshot? {
      StepSnapshot(s, step, weekly, k, effort);
    } else if step.Decide? {
      StepDecide(s, step, weekly, k, effort);
    } else {
      StepPlain(s, step, weekly, effort);
      ScaleAtMost(effort, Hopeful(Apply(s, step).jobs), Hopeful(s.jobs));
    }
  }

  lemma {:induction false} RunCovered(s: State, steps: seq<Step>, weekly: int, k: nat, effort: nat)
    requires Covered(s, weekly, k, effort) && EffortsPositive(s.db.items)
    requires Runs(s, steps) && RestrainedRun(s, steps, weekly, k, effort)
    ensures Covered(Exec(s, steps), weekly, k, effort)
    decreases |steps|
  {
    if steps != [] {
      assert InFlight(Apply(s, steps[0]).jobs) <= k;
      StepCovered(s, steps[0], weekly, k, effort);
      StepEfforts(s, steps[0]);
      RunCovered(Apply(s, steps[0]), steps[1..], weekly, k, effort);
    }
  }

  /** The largest effort that a task can really get: the column holds no more. */
  function Capped(effort: nat): nat {
    if effort < MAX_INT4 then effort else MAX_INT4
  }

  /** A restrained run is restrained by any larger effort, and by what the column holds of its own. */
  lemma {:induction false} RestrainedByCap(s: State, steps: seq<Step>, weekly: int, k: nat, effort: nat, other: nat)
    requires Runs(s, steps) && RestrainedRun(s, steps, weekly, k, effort)
    requires other >= effort || other == Capped(effort)
    ensures RestrainedRun(s, steps, weekly, k, other)
    decreases |steps|
  {
    hide Judge, InFlight, Apply, HasText;
    if steps != [] {
      RestrainedByCap(Apply(s, steps[0]), steps[1..], weekly, k, effort, other);
    }
  }

  /**
   The overcommit bound. From any state with no accepted minutes, in every reachable state the
   open "do it now" tasks total at most one minute less than the week (nothing when the week is
   empty) plus k times the largest effort.
   */
  lemma {:induction false} OvercommitBound(s: State, steps: seq<Step>, weekly: int, k: nat, effort: nat)
    requires DoNowMinutes(s.db.items) == 0 && EffortsPositive(s.db.items)
    requires Runs(s, steps) && RestrainedRun(s, steps, weekly, k, effort)
    ensures DoNowMinutes(Exec(s, steps).db.items) <= Threshold(weekly) + k * Capped(effort)
    ensures weekly > 0 ==> DoNowMinutes(Exec(s, steps).db.items) < 60 * weekly + k * Capped(effort)
  {
    assert InFlight(s.jobs) <= k;
    hide Runs, Exec, Hopeful, EffortsPositive, RestrainedRun, Capped;
    RestrainedByCap(s, steps, weekly, k, effort, Capped(effort));
    HopefulInFlight(s.jobs);
    ScaleAtMost(Capped(effort), Hopeful(s.jobs), k);
    RunCovered(s, steps, weekly, k, Capped(effort));
    var n: nat := Hopeful(Exec(s, steps).jobs);
    ScaleAtMost(Capped(effort), 0, n);
  }

  // ---- What is left of the week, over a run ----

  /** How a step changes the minutes left: a new task takes its effort, closing gives it back, reopening takes it. */
  function Moves(s: State, step: Step): int
    requires Enabled(s, step)
  {
    match step
    case Decide(j, a) => -TaskEffort(Judge(a, s.jobs[j].text, s.jobs[j].remaining).value)
    case ChangeItemStatus(i, status, _) =>
      if i >= |s.db.items| || (s.db.items[i].status == "open") == (status == "open") then 0
      else if status == "open" then -TaskEffort(s.db.items[i].draft)
      else TaskEffort(s.db.items[i].draft)
    case _ => 0
  }

  function AllMoves(s: State, steps: seq<Step>): int
    requires Runs(s, steps)
    decreases |steps|
  {
    if steps == [] then 0 else Moves(s, steps[0]) + AllMoves(Apply(s, steps[0]), steps[1..])
  }

  lemma StepMoves(s: State, step: Step, weekly: int)
    requires Enabled(s, step)
    ensures Remaining(Apply(s, step).db, weekly) == Remaining(s.db, weekly) + Moves(s, step)
  {
    hide Judge, HasText, CommittedMinutes;
    match step {
      case Decide(j, a) =>
        CommitTakesRemaining(s.db, s.jobs[j].row, Judge(a, s.jobs[j].text, s.jobs[j].remaining).value, weekly);
      case ChangeItemStatus(i, status, differs) =>
        if i < |s.db.items| {
          StatusMovesRemaining(s.db, i, status, differs, weekly);
        }
      case _ => StepKeepsRemaining(s, step, weekly);
    }
  }

  lemma StepKeepsRemaining(s: State, step: Step, weekly: int)
    requires Enabled(s, step) && !step.Decide? && !step.ChangeItemStatus?
    ensures Remaining(Apply(s, step).db, weekly) == Remaining(s.db, weekly)
  {
    hide Judge, HasText, CommittedMinutes, TaskEffort;
    var t := Apply(s, step);
    if t.db.items != s.db.items {
      var i := ItemTouched(s, step);
      CommittedUpdate(s.db.items, i, t.db.items[i]);
    }
  }

  /**
   Conservation: over every run, what is left of the week changes by the efforts of the tasks that
   come in, are closed and are reopened, and by nothing else.
   */
  lemma {:induction false} RemainingConserved(s: State, steps: seq<Step>, weekly: int)
    requires Runs(s, steps)
    ensures Remaining(Exec(s, steps).db, weekly) == Remaining(s.db, weekly) + AllMoves(s, steps)
    decreases |steps|
  {
    hide Remaining, Apply, Moves, Enabled;
    if steps != [] {
      StepMoves(s, steps[0], weekly);
      RemainingConserved(Apply(s, steps[0]), steps[1..], weekly);
    }
  }

  // ---- The bound is reached ----

  function Accept(minutes: int): Answer {
    Answer(JStr("task"), JNull, JNull, JNull, JInt(minutes), None, JNull, JStr(DO_NOW), JNull, JStr("x"), JNull)
  }

  const IDEA := Message(None, Some(7), 7, Some("x"), Text, None, false)

  lemma {:induction false} InFlightUpdate(jobs: seq<Job>, j: nat, job: Job)
    requires j < |jobs|
    ensures InFlight(jobs[j := job])
            == InFlight(jobs) - (if jobs[j].Deciding? then 1 else 0) + (if job.Deciding? then 1 else 0)
  {
    var n := |jobs| - 1;
    if j < n {
      InFlightUpdate(jobs[..n], j, job);
      assert jobs[j := job][..n] == jobs[..n][j := job];
    } else {
      assert jobs[j := job][..n] == jobs[..n];
    }
  }

  lemma {:induction false} InFlightSnoc(jobs: seq<Job>, job: Job)
    ensures InFlight(jobs + [job]) == InFlight(jobs) + (if job.Deciding? then 1 else 0)
  {
    assert (jobs + [job])[..|jobs|] == jobs;
  }

  /** One more step at the end of a restrained run. */
  lemma {:induction false} RestrainedSnoc(s: State, steps: seq<Step>, step: Step, weekly: int, k: nat, effort: nat)
    requires Runs(s, steps) && RestrainedRun(s, steps, weekly, k, effort)
    requires Enabled(Exec(s, steps), step) && Restrained(Exec(s, steps), step, weekly, effort)
    requires InFlight(Apply(Exec(s, steps), step).jobs) <= k
    ensures Runs(s, steps + [step]) && RestrainedRun(s, steps + [step], weekly, k, effort)
    ensures Exec(s, steps + [step]) == Apply(Exec(s, steps), step)
    decreases |steps|
  {
    hide Apply, Enabled, Restrained, InFlight;
    if steps == [] {
      assert [] + [step] == [step];
      assert [step][1..] == [];
    } else {
      RestrainedSnoc(Apply(s, steps[0]), steps[1..], step, weekly, k, effort);
      assert (steps + [step])[1..] == steps[1..] + [step];
    }
  }

  lemma {:induction false} NothingRestrained(s: State, weekly: int, k: nat, effort: nat)
    requires InFlight(s.jobs) <= k
    ensures Runs(s, []) && RestrainedRun(s, [], weekly, k, effort) && Exec(s, []) == s
  {
  }

  /** An idea arrives and is scheduled for triage. */
  lemma IdeaArrives(s: State, weekly: int, effort: nat)
    ensures Enabled(s, Capture(IDEA)) && Restrained(s, Capture(IDEA), weekly, effort)
    ensures var t, j := Apply(s, Capture(IDEA)), |s.jobs|;
            && t.jobs == s.jobs + [Replying(|s.db.inbox|, IDEA)] && t.db.items == s.db.items
            && Enabled(t, Schedule(j)) && Restrained(t, Schedule(j), weekly, effort)
            && Apply(t, Schedule(j)).jobs == s.jobs + [Triaging(|s.db.inbox|, Some("x"))]
            && Apply(t, Schedule(j)).db.items == s.db.items
  {
    hide HasText, Judge;
    assert !Captured(s.db.inbox, IDEA.updateId);
    var replying, triaging := Replying(|s.db.inbox|, IDEA), Triaging(|s.db.inbox|, Some("x"));
    assert (s.jobs + [replying])[|s.jobs| := triaging] == s.jobs + [triaging];
  }

  lemma SnapshotStep(s: State, j: nat, weekly: int, effort: nat)
    requires j < |s.jobs| && s.jobs[j].Triaging? && s.jobs[j].raw == Some("x")
    ensures Enabled(s, Snapshot(j, weekly)) && Restrained(s, Snapshot(j, weekly), weekly, effort)
    ensures Apply(s, Snapshot(j, weekly)) ==
            s.(jobs := s.jobs[j := Deciding(s.jobs[j].row, "x", 60 * weekly - CommittedMinutes(s.db.items))])
  {
    assert HasText(Some("x"));
  }

  /** The verdict on an accepted request: an open task of so many minutes, to be done now. */
  lemma Accepted(minutes: nat, remaining: int)
    requires 0 < minutes <= MAX_INT4 && remaining > 0
    ensures Judge(Accept(minutes), "x", remaining).Returned?
    ensures var d := Judge(Accept(minutes), "x", remaining).value;
            d.kind == TASK && d.decision == DO_NOW && d.effort == Some(minutes) && StorableDraft(d)
  {
    StorableIff(Accept(minutes), "x", remaining);
    StripTrimmed("x");
    assert DO_NOW == VALID_DECISIONS[0] && DO_NOW in VALID_DECISIONS;
    assert TASK == VALID_ITEM_TYPES[0] && TASK in VALID_ITEM_TYPES;
    assert !Blank("x");
  }

  lemma AcceptStep(s: State, j: nat, minutes: nat, weekly: int, effort: nat)
    requires j < |s.jobs| && s.jobs[j].Deciding? && s.jobs[j].text == "x" && s.jobs[j].remaining > 0
    requires 0 < minutes <= effort && minutes <= MAX_INT4
    ensures Enabled(s, Decide(j, Accept(minutes))) && Restrained(s, Decide(j, Accept(minutes)), weekly, effort)
    ensures var t := Apply(s, Decide(j, Accept(minutes)));
            && t.jobs == s.jobs[j := Embedding(|s.db.items|)]
            && DoNowMinutes(t.db.items) == DoNowMinutes(s.db.items) + minutes
            && CommittedMinutes(t.db.items) == CommittedMinutes(s.db.items) + minutes
  {
    hide Judge, Blank;
    Accepted(minutes, s.jobs[j].remaining);
    var t := Apply(s, Decide(j, Accept(minutes)));
    var item := t.db.items[|s.db.items|];
    DoNowSnoc(s.db.items, item);
    assert t.db.items == s.db.items + [item];
    assert t.db.items[..|s.db.items|] == s.db.items;
  }

  /** One more triage between snapshot and commit: an idea arrives and its triage reads the capacity. */
  lemma OneMoreInFlight(start: State, before: seq<Step>, weekly: int, k: nat, effort: nat) returns (steps: seq<Step>)
    requires Runs(start, before) && RestrainedRun(start, before, weekly, k, effort)
    requires InFlight(Exec(start, before).jobs) < k
    ensures Runs(start, steps) && RestrainedRun(start, steps, weekly, k, effort)
    ensures var s, t := Exec(start, before), Exec(start, steps);
            && t.db.items == s.db.items && InFlight(t.jobs) == InFlight(s.jobs) + 1
            && t.jobs == s.jobs + [Deciding(|s.db.inbox|, "x", 60 * weekly - CommittedMinutes(s.db.items))]
  {
    hide Apply, Enabled, Restrained, Runs, RestrainedRun, Exec, CommittedMinutes, InFlight;
    var s := Exec(start, before);
    var j, row := |s.jobs|, |s.db.inbox|;
    IdeaArrives(s, weekly, effort);
    InFlightSnoc(s.jobs, Replying(row, IDEA));
    InFlightSnoc(s.jobs, Triaging(row, Some("x")));
    RestrainedSnoc(start, before, Capture(IDEA), weekly, k, effort);
    steps := before + [Capture(IDEA)];
    RestrainedSnoc(start, steps, Schedule(j), weekly, k, effort);
    steps := steps + [Schedule(j)];
    var t := Exec(start, steps);
    SnapshotStep(t, j, weekly, effort);
    var deciding := Deciding(row, "x", 60 * weekly - CommittedMinutes(s.db.items));
    InFlightUpdate(t.jobs, j, deciding);
    RestrainedSnoc(start, steps, Snapshot(j, weekly), weekly, k, effort);
    steps := steps + [Snapshot(j, weekly)];
    assert t.jobs[j := deciding] == s.jobs + [deciding];
  }

  /** A triage that saw capacity left gets its task in. */
  lemma OneAccepted(start: State, before: seq<Step>, j: nat, minutes: nat, weekly: int, k: nat, effort: nat)
    returns (steps: seq<Step>)
    requires Runs(start, before) && RestrainedRun(start, before, weekly, k, effort)
    requires 0 < minutes <= effort && minutes <= MAX_INT4 && InFlight(Exec(start, before).jobs) <= k
    requires var s := Exec(start, before);
             j < |s.jobs| && s.jobs[j].Deciding? && s.jobs[j].text == "x" && s.jobs[j].remaining > 0
    ensures Runs(start, steps) && RestrainedRun(start, steps, weekly, k, effort)
    ensures var s, t := Exec(start, before), Exec(start, steps);
            && t.jobs == s.jobs[j := Embedding(|s.db.items|)] && InFlight(t.jobs) == InFlight(s.jobs) - 1
            && DoNowMinutes(t.db.items) == DoNowMinutes(s.db.items) + minutes
            && CommittedMinutes(t.db.items) == CommittedMinutes(s.db.items) + minutes
  {
    hide Apply, Enabled, Restrained, Runs, RestrainedRun, Exec, CommittedMinutes, DoNowMinutes, InFlight, Accept;
    var s, decide := Exec(start, before), Decide(j, Accept(minutes));
    AcceptStep(s, j, minutes, weekly, effort);
    InFlightUpdate(s.jobs, j, Embedding(|s.db.items|));
    RestrainedSnoc(start, before, decide, weekly, k, effort);
    steps := before + [decide];
  }

  lemma EmptyStart(now: int)
    ensures DoNowMinutes(Init(now).db.items) == 0 && CommittedMinutes(Init(now).db.items) == 0
    ensures InFlight(Init(now).jobs) == 0 && EffortsPositive(Init(now).db.items)
  {
  }

  /** One after another, n triages get a task of one minute in. */
  lemma {:induction false} FillWeek(now: int, n: nat, weekly: int, k: nat, effort: nat) returns (steps: seq<Step>)
    requires n < 60 * weekly && k >= 1 && effort >= 1
    ensures Runs(Init(now), steps) && RestrainedRun(Init(now), steps, weekly, k, effort)
    ensures var t := Exec(Init(now), steps);
            DoNowMinutes(t.db.items) == n && CommittedMinutes(t.db.items) == n && InFlight(t.jobs) == 0
  {
    hide Runs, RestrainedRun, Exec, CommittedMinutes, DoNowMinutes, InFlight, Init;
    var start := Init(now);
    if n == 0 {
      EmptyStart(now);
      NothingRestrained(start, weekly, k, effort);
      steps := [];
    } else {
      steps := FillWeek(now, n - 1, weekly, k, effort);
      var j := |Exec(start, steps).jobs|;
      steps := OneMoreInFlight(start, steps, weekly, k, effort);
      steps := OneAccepted(start, steps, j, 1, weekly, k, effort);
    }
  }

  /** The last n jobs wait for the model after a positive snapshot. */
  predicate Waiting(jobs: seq<Job>, n: nat) {
    && n <= |jobs|
    && forall j :: |jobs| - n <= j < |jobs| ==> jobs[j].Deciding? && jobs[j].text == "x" && jobs[j].remaining > 0
  }

  /** n triages read the capacity while some is left. */
  lemma {:induction false} AllSnapshot(start: State, before: seq<Step>, n: nat, weekly: int, k: nat, effort: nat)
    returns (steps: seq<Step>)
    requires Runs(start, before) && RestrainedRun(start, before, weekly, k, effort) && n <= k
    requires var s := Exec(start, before);
             InFlight(s.jobs) == 0 && CommittedMinutes(s.db.items) < 60 * weekly
    ensures Runs(start, steps) && RestrainedRun(start, steps, weekly, k, effort)
    ensures var s, t := Exec(start, before), Exec(start, steps);
            t.db.items == s.db.items && InFlight(t.jobs) == n && Waiting(t.jobs, n)
  {
    hide Runs, RestrainedRun, Exec, CommittedMinutes, InFlight;
    if n == 0 {
      steps := before;
    } else {
      steps := AllSnapshot(start, before, n - 1, weekly, k, effort);
      steps := OneMoreInFlight(start, steps, weekly, k, effort);
    }
  }

  /** The n waiting triages from position `first` on all get a task of the largest effort in. */
  lemma {:induction false} AllAccepted(
      start: State, before: seq<Step>, first: nat, n: nat, weekly: int, k: nat, effort: nat)
    returns (steps: seq<Step>)
    requires Runs(start, before) && RestrainedRun(start, before, weekly, k, effort) && 1 <= effort <= MAX_INT4
    requires var s := Exec(start, before);
             && InFlight(s.jobs) <= k && first + n <= |s.jobs|
             && forall j :: first <= j < first + n ==>
                  s.jobs[j].Deciding? && s.jobs[j].text == "x" && s.jobs[j].remaining > 0
    ensures Runs(start, steps) && RestrainedRun(start, steps, weekly, k, effort)
    ensures DoNowMinutes(Exec(start, steps).db.items) == DoNowMinutes(Exec(start, before).db.items) + n * effort
    decreases n
  {
    hide Runs, RestrainedRun, Exec, DoNowMinutes, CommittedMinutes, InFlight;
    if n == 0 {
      steps := before;
    } else {
      var one := OneAccepted(start, before, first + n - 1, effort, weekly, k, effort);
      steps := AllAccepted(start, one, first, n - 1, weekly, k, effort);
      OneFewer(effort, n);
    }
  }

  /**
   The bound cannot be lowered, whatever the week, the number of triages in flight and the largest
   effort: from the empty database, 60W - 1 minutes are accepted one by one, k triages read the
   last minute, and all k tasks of the largest effort get in.
   */
  lemma BoundReached(now: int, weekly: int, k: nat, effort: nat) returns (steps: seq<Step>)
    requires weekly >= 1 && k >= 1 && effort >= 1
    ensures DoNowMinutes(Init(now).db.items) == 0 && EffortsPositive(Init(now).db.items)
    ensures Runs(Init(now), steps) && RestrainedRun(Init(now), steps, weekly, k, effort)
    ensures DoNowMinutes(Exec(Init(now), steps).db.items) == Threshold(weekly) + k * Capped(effort)
  {
    EmptyStart(now);
    var start, most := Init(now), Capped(effort);
    assert 1 <= most <= MAX_INT4 && most <= effort;
    hide Runs, RestrainedRun, Exec, DoNowMinutes, CommittedMinutes, InFlight, Init, Capped;
    steps := FillWeek(now, 60 * weekly - 1, weekly, k, most);
    steps := AllSnapshot(start, steps, k, weekly, k, most);
    steps := AllAccepted(start, steps, |Exec(start, steps).jobs| - k, k, weekly, k, most);
    RestrainedByCap(start, steps, weekly, k, most, effort);
  }
}
