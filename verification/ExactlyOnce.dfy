/**
 Exactly one item per text, and progress, when a sweep never picks a row that a live handler or
 job still holds. Without that condition both fail; concrete runs at the end show it.
 */
module ExactlyOnce {
  import opened Wrappers
  import opened PyText
  import opened Gatekeeper
  import opened Tables
  import opened Pipeline
  import opened PipelineSafety

  /** No handler or job holds row r. */
  predicate Alone(s: State, r: nat) {
    forall j :: 0 <= j < |s.jobs| ==> RowOf(s.jobs[j]) != Some(r)
  }

  predicate Exclusive(s: State, step: Step) {
    (step.SweepTranscription? || step.SweepTriage?) ==> Alone(s, step.row)
  }

  predicate ExclusiveSweeps(s: State, steps: seq<Step>)
    requires Runs(s, steps)
    decreases |steps|
  {
    steps != [] ==> Exclusive(s, steps[0]) && ExclusiveSweeps(Apply(s, steps[0]), steps[1..])
  }

  function ItemsOf(items: seq<Item>, r: nat): nat {
    if items == [] then 0
    else ItemsOf(items[..|items| - 1], r) + (if items[|items| - 1].inboxId == r then 1 else 0)
  }

  /** What a row must look like while this job holds it. */
  predicate JobFits(db: Db, job: Job)
    requires JobOk(db, job)
  {
    match job
    case Replying(r, _) => db.inbox[r].processedAt.None? && !db.inbox[r].status.Failed? && !db.inbox[r].status.Done?
    case Transcribing(r, _) => db.inbox[r].processedAt.None? && db.inbox[r].status.Pending?
    case AudioStored(r) => db.inbox[r].processedAt.None? && db.inbox[r].status.Pending?
    case Triaging(r, raw) => AwaitsTriage(db.inbox[r]) && db.inbox[r].rawText == raw
    case Deciding(r, text, _) => AwaitsTriage(db.inbox[r]) && db.inbox[r].rawText == Some(text) && !Blank(text)
    case _ => true
  }

  predicate AwaitsTriage(row: Row) {
    row.processedAt.None? && (row.status.NotApplicable? || row.status.Done?)
  }

  /** The items a row has are exactly the ones its state calls for. */
  predicate RowSettled(db: Db, r: nat)
    requires r < |db.inbox|
  {
    var row := db.inbox[r];
    && (row.processedAt.Some? ==> row.status.NotApplicable? || row.status.Done?)
    && ItemsOf(db.items, r) == if row.processedAt.Some? && HasText(row.rawText) then 1 else 0
  }

  predicate OneJobPerRow(jobs: seq<Job>) {
    forall i, j :: 0 <= i < j < |jobs| && RowOf(jobs[i]).Some? ==> RowOf(jobs[i]) != RowOf(jobs[j])
  }

  predicate Exact(s: State) {
    && Safe(s)
    && OneJobPerRow(s.jobs)
    && (forall j :: 0 <= j < |s.jobs| ==> JobFits(s.db, s.jobs[j]))
    && (forall r :: 0 <= r < |s.db.inbox| ==> RowSettled(s.db, r))
  }

  // ---- Counting items ----

  lemma {:induction false} NoItemsYet(items: seq<Item>, r: nat)
    requires forall i :: 0 <= i < |items| ==> items[i].inboxId != r
    ensures ItemsOf(items, r) == 0
  {
    if items != [] {
      NoItemsYet(items[..|items| - 1], r);
    }
  }

  lemma {:induction false} ItemsOfSnoc(items: seq<Item>, item: Item, r: nat)
    ensures ItemsOf(items + [item], r) == ItemsOf(items, r) + (if item.inboxId == r then 1 else 0)
  {
    assert (items + [item])[..|items|] == items;
  }

  lemma {:induction false} SameOwnersSameCount(a: seq<Item>, b: seq<Item>, r: nat)
    requires |a| == |b| && forall i :: 0 <= i < |a| ==> a[i].inboxId == b[i].inboxId
    ensures ItemsOf(a, r) == ItemsOf(b, r)
  {
    if a != [] {
      SameOwnersSameCount(a[..|a| - 1], b[..|b| - 1], r);
    }
  }

  // ---- One step ----

  lemma StepOneJobPerRow(s: State, step: Step)
    requires Exact(s) && Enabled(s, step) && Exclusive(s, step)
    ensures OneJobPerRow(Apply(s, step).jobs)
  {
    hide Judge, HasText, GatesOk, RowsOk, UpdatesDistinct, ItemsOk, RowSettled, JobFits;
    var t := Apply(s, step);
    forall i, j | 0 <= i < j < |t.jobs| && RowOf(t.jobs[i]).Some?
      ensures RowOf(t.jobs[i]) != RowOf(t.jobs[j])
    {
      if j < |s.jobs| {
        assert RowOf(t.jobs[i]) == RowOf(s.jobs[i]);
        assert RowOf(t.jobs[j]) == RowOf(s.jobs[j]) || RowOf(t.jobs[j]).None?;
      } else {
        assert t.jobs[i] == s.jobs[i] && JobOk(s.db, s.jobs[i]);
      }
    }
  }

  /** The step works on no row that another job holds. */
  lemma OtherRowTouched(s: State, step: Step, j: nat)
    requires OneJobPerRow(s.jobs) && Enabled(s, step) && j < |s.jobs| && RowOf(s.jobs[j]).Some?
    requires !((Settles(step) || step.KeepAudio?) && step.job == j)
    ensures Touched(s, step) != RowOf(s.jobs[j])
  {
    if Settles(step) || step.KeepAudio? {
      JobRow(s, step);
      assert step.job < |s.jobs|;
      hide Enabled;
    }
  }

  /** A job the step leaves alone still fits: the step works on another row. */
  lemma OtherJobFits(s: State, step: Step, j: nat)
    requires Exact(s) && Enabled(s, step) && j < |s.jobs| && j < |Apply(s, step).jobs|
    requires Apply(s, step).jobs[j] == s.jobs[j] && !((Settles(step) || step.KeepAudio?) && step.job == j)
    requires JobOk(Apply(s, step).db, s.jobs[j])
    ensures JobFits(Apply(s, step).db, s.jobs[j])
  {
    hide Apply, Enabled, OneJobPerRow, Safe, RowSettled;
    JobInTable(s, j);
    assert JobFits(s.db, s.jobs[j]);
    if RowOf(s.jobs[j]).Some? {
      OtherRowTouched(s, step, j);
      OtherRowsKept(s, step, RowOf(s.jobs[j]).value);
    }
  }

  lemma ScheduledJobFits(s: State, j: nat)
    requires Exact(s) && Enabled(s, Schedule(j))
    requires JobOk(s.db, ScheduledJob(s.jobs[j].row, s.jobs[j].msg))
    ensures JobFits(s.db, ScheduledJob(s.jobs[j].row, s.jobs[j].msg))
  {
    JobInTable(s, j);
    assert JobFits(s.db, s.jobs[j]) && RowOk(s.db.inbox[s.jobs[j].row]);
    hide Judge, HasText, Safe, OneJobPerRow, RowSettled;
  }

  /** A job whose audio, transcript or capacity was stored fits its next phase. */
  lemma AdvancedJobFits(s: State, step: Step)
    requires Exact(s) && Enabled(s, step) && (step.KeepAudio? || step.KeepTranscript? || step.Snapshot?)
    requires step.job < |Apply(s, step).jobs| && JobOk(Apply(s, step).db, Apply(s, step).jobs[step.job])
    ensures JobFits(Apply(s, step).db, Apply(s, step).jobs[step.job])
  {
    JobInTable(s, step.job);
    assert JobFits(s.db, s.jobs[step.job]);
    hide Judge, Blank, Safe, OneJobPerRow, RowSettled, CommittedMinutes;
  }

  lemma OthersAreDone(s: State, step: Step, j: nat)
    requires Enabled(s, step) && j < |s.jobs| && j < |Apply(s, step).jobs|
    requires Apply(s, step).jobs[j] != s.jobs[j] || ((Settles(step) || step.KeepAudio?) && step.job == j)
    requires !step.Schedule? && !step.KeepAudio? && !step.KeepTranscript? && !step.Snapshot?
    ensures RowOf(Apply(s, step).jobs[j]).None?
  {
    hide Judge, HasText;
  }

  lemma MovedIsStepped(s: State, step: Step, j: nat)
    requires Enabled(s, step) && (step.Schedule? || step.KeepAudio? || step.KeepTranscript? || step.Snapshot?)
    requires j < |s.jobs| && j < |Apply(s, step).jobs| && (Apply(s, step).jobs[j] != s.jobs[j] || step.job == j)
    ensures j == step.job
    ensures step.Schedule? ==>
              Apply(s, step).db == s.db && Apply(s, step).jobs[j] == ScheduledJob(s.jobs[j].row, s.jobs[j].msg)
  {
    hide Judge, HasText;
  }

  /** A job the step moves on fits its next phase. */
  lemma MovedJobFits(s: State, step: Step, j: nat)
    requires Exact(s) && Enabled(s, step) && j < |s.jobs| && j < |Apply(s, step).jobs|
    requires Apply(s, step).jobs[j] != s.jobs[j] || ((Settles(step) || step.KeepAudio?) && step.job == j)
    requires JobOk(Apply(s, step).db, Apply(s, step).jobs[j])
    ensures JobFits(Apply(s, step).db, Apply(s, step).jobs[j])
  {
    hide Apply, Exact;
    if step.Schedule? || step.KeepAudio? || step.KeepTranscript? || step.Snapshot? {
      MovedIsStepped(s, step, j);
      if step.Schedule? {
        ScheduledJobFits(s, j);
      } else {
        AdvancedJobFits(s, step);
      }
      hide JobFits;
    } else {
      OthersAreDone(s, step, j);
    }
  }

  /** A job the step opens fits. */
  lemma NewJobFits(s: State, step: Step)
    requires Exact(s) && Enabled(s, step) && |Apply(s, step).jobs| > |s.jobs|
    requires JobOk(Apply(s, step).db, Apply(s, step).jobs[|s.jobs|])
    ensures JobFits(Apply(s, step).db, Apply(s, step).jobs[|s.jobs|])
  {
    hide Judge, HasText, GatesOk, UpdatesDistinct, ItemsOk, OneJobPerRow, ItemsOf;
    if step.SweepTranscription? {
      assert RowSettled(s.db, step.row);
    }
  }

  lemma StepJobsFit(s: State, step: Step)
    requires Exact(s) && Enabled(s, step)
    ensures var t := Apply(s, step);
            Safe(t) && forall j :: 0 <= j < |t.jobs| ==> JobFits(t.db, t.jobs[j])
  {
    hide Enabled, RowSettled, OneJobPerRow, JobFits, GatesOk, UpdatesDistinct, ItemsOk, RowsOk;
    StepSafe(s, step);
    AtMostOneNewJob(s, step);
    var t := Apply(s, step);
    hide Apply;
    forall j | 0 <= j < |t.jobs|
      ensures JobFits(t.db, t.jobs[j])
    {
      assert JobOk(t.db, t.jobs[j]);
      if j >= |s.jobs| {
        NewJobFits(s, step);
      } else if t.jobs[j] != s.jobs[j] || ((Settles(step) || step.KeepAudio?) && step.job == j) {
        MovedJobFits(s, step, j);
      } else {
        OtherJobFits(s, step, j);
      }
    }
  }

  /** Only a decision adds an item, and it adds one for its own row. */
  lemma {:induction false} StepCounts(s: State, step: Step, r: nat)
    requires Safe(s) && Enabled(s, step)
    ensures ItemsOf(Apply(s, step).db.items, r) ==
            ItemsOf(s.db.items, r) + (if step.Decide? && s.jobs[step.job].row == r then 1 else 0)
  {
    hide Judge, HasText, GatesOk, RowsOk, UpdatesDistinct, ItemsOk, ItemsOf;
    if step.Decide? {
      DecisionAdds(s, step);
      ItemsOfSnoc(s.db.items, Apply(s, step).db.items[|s.db.items|], r);
    } else {
      StepItemsEvolve(s, step);
      SameOwnersSameCount(s.db.items, Apply(s, step).db.items, r);
    }
  }

  lemma DecisionAdds(s: State, step: Step)
    requires Enabled(s, step) && step.Decide?
    ensures var a, b := s.db.items, Apply(s, step).db.items;
            |b| == |a| + 1 && b == a + [b[|a|]] && b[|a|].inboxId == s.jobs[step.job].row
  {
    hide Judge;
  }

  /** The row a step works on is settled as it calls for. */
  lemma TouchedRowSettled(s: State, step: Step, r: nat)
    requires Exact(s) && Enabled(s, step) && Touched(s, step) == Some(r)
    requires r < |s.db.inbox| && r < |Apply(s, step).db.inbox|
    ensures RowSettled(Apply(s, step).db, r)
  {
    hide Judge, Blank, GatesOk, RowsOk, UpdatesDistinct, ItemsOk, OneJobPerRow, ItemsOf;
    StepCounts(s, step, r);
    JobInTable(s, step.job);
    assert RowSettled(s.db, r) && JobFits(s.db, s.jobs[step.job]);
  }

  lemma NewRowSettled(s: State, step: Step)
    requires Exact(s) && Enabled(s, step) && |Apply(s, step).db.inbox| > |s.db.inbox|
    ensures RowSettled(Apply(s, step).db, |s.db.inbox|)
  {
    hide Judge, HasText, GatesOk, RowsOk, UpdatesDistinct, OneJobPerRow, ItemsOf;
    NoItemsYet(s.db.items, |s.db.inbox|);
  }

  lemma StepRowSettled(s: State, step: Step, r: nat)
    requires Exact(s) && Enabled(s, step) && Exclusive(s, step)
    requires r < |Apply(s, step).db.inbox|
    ensures RowSettled(Apply(s, step).db, r)
  {
    hide Judge, HasText, Safe, OneJobPerRow, ItemsOf;
    AtMostOneNewRow(s, step);
    if r == |s.db.inbox| {
      NewRowSettled(s, step);
    } else if Touched(s, step) == Some(r) {
      TouchedRowSettled(s, step, r);
    } else {
      hide Apply;
      assert RowSettled(s.db, r);
      StepCounts(s, step, r);
      OtherRowsKept(s, step, r);
    }
  }

  lemma StepExact(s: State, step: Step)
    requires Exact(s) && Enabled(s, step) && Exclusive(s, step)
    ensures Exact(Apply(s, step))
  {
    StepOneJobPerRow(s, step);
    StepJobsFit(s, step);
    forall r | 0 <= r < |Apply(s, step).db.inbox|
      ensures RowSettled(Apply(s, step).db, r)
    {
      StepRowSettled(s, step, r);
    }
  }

  /** Exactly one item per text, over every run with exclusive sweeps. */
  lemma {:induction false} RunExact(s: State, steps: seq<Step>)
    requires Exact(s) && Runs(s, steps) && ExclusiveSweeps(s, steps)
    ensures Exact(Exec(s, steps))
    decreases |steps|
  {
    if steps != [] {
      StepExact(s, steps[0]);
      RunExact(Apply(s, steps[0]), steps[1..]);
    }
  }

  /** The same for a run from the empty database, stated row by row. */
  lemma {:induction false} OneItemPerText(now: int, steps: seq<Step>, r: nat)
    requires Runs(Init(now), steps) && ExclusiveSweeps(Init(now), steps)
    requires r < |Exec(Init(now), steps).db.inbox|
    ensures var db := Exec(Init(now), steps).db;
            var row := db.inbox[r];
            ItemsOf(db.items, r) == if row.processedAt.Some? && HasText(row.rawText) then 1 else 0
  {
    RunExact(Init(now), steps);
    assert RowSettled(Exec(Init(now), steps).db, r);
  }

  // ---- Progress ----

  /** How many settling steps a row may still need. */
  function Rank(row: Row): nat {
    if row.status.Pending? then 2
    else if AwaitsTriage(row) then 1
    else 0
  }

  function RankSum(inbox: seq<Row>): nat {
    if inbox == [] then 0 else RankSum(inbox[..|inbox| - 1]) + Rank(inbox[|inbox| - 1])
  }

  /** A step never raises the rank of a row, and lowers it where it settles one. */
  lemma StepRank(s: State, step: Step, r: nat)
    requires Exact(s) && Enabled(s, step) && r < |s.db.inbox|
    ensures r < |Apply(s, step).db.inbox|
    ensures var a, b := Rank(s.db.inbox[r]), Rank(Apply(s, step).db.inbox[r]);
            b + (if Settles(step) && RowOf(s.jobs[step.job]) == Some(r) then 1 else 0) <= a
  {
    hide Judge, Blank, GatesOk, RowsOk, UpdatesDistinct, ItemsOk, OneJobPerRow, ItemsOf;
    if Settles(step) || step.KeepAudio? {
      JobInTable(s, step.job);
      assert JobFits(s.db, s.jobs[step.job]);
    }
  }

  lemma {:induction false} RankSumUpdate(inbox: seq<Row>, r: nat, row: Row)
    requires r < |inbox|
    ensures RankSum(inbox[r := row]) == RankSum(inbox) - Rank(inbox[r]) + Rank(row)
  {
    var n := |inbox| - 1;
    if r < n {
      RankSumUpdate(inbox[..n], r, row);
      assert inbox[r := row][..n] == inbox[..n][r := row];
    } else {
      assert inbox[r := row][..n] == inbox[..n];
    }
  }

  /** The step inserts a row. */
  predicate NewCapture(s: State, step: Step) {
    step.Capture? && !Captured(s.db.inbox, step.msg.updateId)
  }

  function Budget(s: State, step: Step): nat {
    if NewCapture(s, step) then 2 else 0
  }

  /** A step that works on a row changes the table at that row only. */
  lemma TouchedOnly(s: State, step: Step)
    requires Safe(s) && Enabled(s, step) && Touched(s, step).Some?
    ensures var r, b := Touched(s, step).value, Apply(s, step).db.inbox;
            r < |s.db.inbox| == |b| && b == s.db.inbox[r := b[r]]
  {
    hide Judge, HasText, GatesOk, RowsOk, UpdatesDistinct, ItemsOk;
    JobInTable(s, step.job);
  }

  lemma UntouchedTable(s: State, step: Step)
    requires Enabled(s, step) && Touched(s, step).None? && Budget(s, step) == 0
    requires !Settles(step) && !step.KeepAudio?
    ensures Apply(s, step).db.inbox == s.db.inbox
  {
    hide Judge, HasText;
  }

  lemma NewRowAppended(s: State, step: Step)
    requires Enabled(s, step)
    ensures Budget(s, step) > 0 ==>
              step.Capture? && Apply(s, step).db.inbox == s.db.inbox + [NewRow(step.msg, s.db.now)]
  {
    hide Judge, HasText;
  }

  lemma NewRankAtMostTwo(msg: Message, now: int)
    ensures Rank(NewRow(msg, now)) <= 2
  {
  }

  lemma SettleRankSum(s: State, step: Step)
    requires Exact(s) && Enabled(s, step) && (Settles(step) || step.KeepAudio?)
    ensures RankSum(Apply(s, step).db.inbox) + (if Settles(step) then 1 else 0) <= RankSum(s.db.inbox)
  {
    JobRow(s, step);
    TouchedOnly(s, step);
    var r := Touched(s, step).value;
    StepRank(s, step, r);
    hide Apply, Enabled, Exact, Rank, RankSum, Settles;
    RankSumUpdate(s.db.inbox, r, Apply(s, step).db.inbox[r]);
  }

  lemma JobRow(s: State, step: Step)
    requires Enabled(s, step) && (Settles(step) || step.KeepAudio?)
    ensures Touched(s, step).Some? && Touched(s, step) == RowOf(s.jobs[step.job])
  {
    hide Judge, HasText;
  }

  lemma {:induction false} CaptureRankSum(inbox: seq<Row>, msg: Message, now: int)
    ensures RankSum(inbox + [NewRow(msg, now)]) <= RankSum(inbox) + 2
  {
    NewRankAtMostTwo(msg, now);
    assert (inbox + [NewRow(msg, now)])[..|inbox|] == inbox;
    hide NewRow, Rank;
  }

  lemma StepRankSum(s: State, step: Step)
    requires Exact(s) && Enabled(s, step)
    ensures RankSum(Apply(s, step).db.inbox) + (if Settles(step) then 1 else 0)
            <= RankSum(s.db.inbox) + Budget(s, step)
  {
    if Settles(step) || step.KeepAudio? {
      SettleRankSum(s, step);
      hide Apply, Enabled, Exact, RankSum;
    } else if Budget(s, step) > 0 {
      NewRowAppended(s, step);
      hide Apply, Enabled, Exact, RankSum;
      CaptureRankSum(s.db.inbox, step.msg, s.db.now);
    } else {
      hide Apply, Enabled, Exact, RankSum;
      UntouchedTable(s, step);
    }
  }

  function Settled(steps: seq<Step>): nat {
    if steps == [] then 0 else (if Settles(steps[0]) then 1 else 0) + Settled(steps[1..])
  }

  function NewCaptures(s: State, steps: seq<Step>): nat
    requires Runs(s, steps)
    decreases |steps|
  {
    if steps == [] then 0
    else (if NewCapture(s, steps[0]) then 1 else 0) + NewCaptures(Apply(s, steps[0]), steps[1..])
  }

  /** The rank sum is a termination measure: a run settles at most two steps per captured row. */
  lemma {:induction false} SettlingIsBounded(s: State, steps: seq<Step>)
    requires Exact(s) && Runs(s, steps) && ExclusiveSweeps(s, steps)
    ensures Settled(steps) + RankSum(Exec(s, steps).db.inbox) <= RankSum(s.db.inbox) + 2 * NewCaptures(s, steps)
    decreases |steps|
  {
    hide Exact, Exclusive, Enabled, Apply, Settles, RankSum, NewCapture;
    if steps != [] {
      StepRankSum(s, steps[0]);
      StepExact(s, steps[0]);
      SettlingIsBounded(Apply(s, steps[0]), steps[1..]);
    }
  }

  /** No run with exclusive sweeps ever raises the rank of a row. */
  lemma {:induction false} RankNeverRises(s: State, steps: seq<Step>, r: nat)
    requires Exact(s) && Runs(s, steps) && ExclusiveSweeps(s, steps) && r < |s.db.inbox|
    ensures r < |Exec(s, steps).db.inbox|
    ensures Rank(Exec(s, steps).db.inbox[r]) <= Rank(s.db.inbox[r])
    decreases |steps|
  {
    if steps != [] {
      StepRank(s, steps[0], r);
      StepExact(s, steps[0]);
      RankNeverRises(Apply(s, steps[0]), steps[1..], r);
    }
  }

  // ---- A sweep in the middle of everything else ----

  /** The job is neither aborted nor dropped by a crash. */
  predicate Uncut(steps: seq<Step>, k: nat) {
    forall n :: 0 <= n < |steps| ==> !steps[n].Crash? && steps[n] != Abort(k)
  }

  /** The job still holds its row, or the row needs no more work. */
  predicate HoldsOrDone(s: State, k: nat, r: nat) {
    && k < |s.jobs| && r < |s.db.inbox|
    && (RowOf(s.jobs[k]) == Some(r) || Rank(s.db.inbox[r]) == 0)
  }

  /** The job itself moves only by its own steps, and lets its row go only with work done. */
  lemma OwnStep(s: State, step: Step, k: nat, r: nat)
    requires Exact(s) && Enabled(s, step) && !step.Crash? && step != Abort(k)
    requires k < |s.jobs| && RowOf(s.jobs[k]) == Some(r)
    ensures k < |Apply(s, step).jobs|
    ensures RowOf(Apply(s, step).jobs[k]) == Some(r) ||
            (Settles(step) && step.job == k)
  {
    hide Judge, HasText, StorableDraft, Safe, OneJobPerRow, RowSettled;
  }

  /** Where a job lets its row go, the row was at its last rank. */
  lemma LastStep(s: State, step: Step, k: nat, r: nat)
    requires Exact(s) && Enabled(s, step) && Settles(step) && step.job == k
    requires k < |s.jobs| && RowOf(s.jobs[k]) == Some(r) && r < |s.db.inbox| && r < |Apply(s, step).db.inbox|
    requires k < |Apply(s, step).jobs| && RowOf(Apply(s, step).jobs[k]) != Some(r)
    ensures Rank(Apply(s, step).db.inbox[r]) == 0
  {
    JobInTable(s, k);
    assert JobFits(s.db, s.jobs[k]);
    hide Judge, Blank, StorableDraft, Safe, OneJobPerRow, RowSettled, CommittedMinutes;
  }

  lemma StepHoldsOrDone(s: State, step: Step, k: nat, r: nat)
    requires Exact(s) && Enabled(s, step) && !step.Crash? && step != Abort(k) && HoldsOrDone(s, k, r)
    ensures HoldsOrDone(Apply(s, step), k, r)
  {
    StepRank(s, step, r);
    if RowOf(s.jobs[k]) == Some(r) {
      OwnStep(s, step, k, r);
      if RowOf(Apply(s, step).jobs[k]) != Some(r) {
        LastStep(s, step, k, r);
      }
    } else {
      JobsStay(s, step);
    }
    hide Apply, Enabled, Exact, Rank;
  }

  lemma JobsStay(s: State, step: Step)
    requires Enabled(s, step) && !step.Crash?
    ensures |s.jobs| <= |Apply(s, step).jobs|
  {
    hide Judge, HasText, StorableDraft;
  }

  lemma {:induction false} RunHoldsOrDone(s: State, steps: seq<Step>, k: nat, r: nat)
    requires Exact(s) && Runs(s, steps) && ExclusiveSweeps(s, steps) && Uncut(steps, k) && HoldsOrDone(s, k, r)
    ensures HoldsOrDone(Exec(s, steps), k, r)
    decreases |steps|
  {
    if steps != [] {
      StepHoldsOrDone(s, steps[0], k, r);
      StepExact(s, steps[0]);
      hide Exact, Apply, Enabled, HoldsOrDone;
      RunHoldsOrDone(Apply(s, steps[0]), steps[1..], k, r);
    }
  }

  /**
   A sweep while everything else goes on: whatever other jobs, captures and exclusive sweeps run in
   between, and however long it takes, once the job that the sweep opened for a row is through, the
   row needs no more work.
   */
  lemma {:induction false} SweptRowSettles(s: State, sweep: Step, steps: seq<Step>)
    requires Exact(s) && Enabled(s, sweep) && IsSweep(sweep)
    requires Alone(s, sweep.row)
    requires Runs(Apply(s, sweep), steps) && ExclusiveSweeps(Apply(s, sweep), steps) && Uncut(steps, |s.jobs|)
    ensures HoldsOrDone(Exec(Apply(s, sweep), steps), |s.jobs|, sweep.row)
  {
    assert Exclusive(s, sweep);
    StepExact(s, sweep);
    assert HoldsOrDone(Apply(s, sweep), |s.jobs|, sweep.row);
    hide Exact, Apply, Enabled, HoldsOrDone, Alone;
    RunHoldsOrDone(Apply(s, sweep), steps, |s.jobs|, sweep.row);
  }

  predicate IsSweep(step: Step) {
    step.SweepTranscription? || step.SweepTriage?
  }

  /** The sweep selects these rows, each once, at one moment. */
  predicate Selected(s: State, sweeps: seq<Step>) {
    && (forall n :: 0 <= n < |sweeps| ==>
          IsSweep(sweeps[n]) && Enabled(s, sweeps[n]) && Alone(s, sweeps[n].row))
    && (forall m, n :: 0 <= m < n < |sweeps| ==> sweeps[m].row != sweeps[n].row)
  }

  lemma OtherStaysSelected(s: State, first: Step, other: Step)
    requires IsSweep(first) && IsSweep(other) && first.row != other.row
    requires Enabled(s, first) && Enabled(s, other) && Alone(s, other.row)
    ensures Enabled(Apply(s, first), other) && Alone(Apply(s, first), other.row)
  {
    hide Judge, HasText;
  }

  lemma RestSelected(s: State, sweeps: seq<Step>)
    requires Selected(s, sweeps) && sweeps != []
    ensures IsSweep(sweeps[0]) && Enabled(s, sweeps[0]) && Exclusive(s, sweeps[0])
    ensures Selected(Apply(s, sweeps[0]), sweeps[1..])
    ensures forall n :: 0 <= n < |sweeps[1..]| ==> IsSweep(sweeps[1..][n])
  {
    hide Apply, Enabled, Alone;
    forall n | 1 <= n < |sweeps|
      ensures IsSweep(sweeps[n]) && Enabled(Apply(s, sweeps[0]), sweeps[n])
      ensures Alone(Apply(s, sweeps[0]), sweeps[n].row)
    {
      OtherStaysSelected(s, sweeps[0], sweeps[n]);
    }
  }

  /** The selection opens one job per row and changes nothing else. */
  lemma {:induction false} SelectionOpens(s: State, sweeps: seq<Step>)
    requires Exact(s) && Selected(s, sweeps)
    ensures Runs(s, sweeps) && ExclusiveSweeps(s, sweeps)
    ensures var t := Exec(s, sweeps);
            Exact(t) && t.db == s.db && |t.jobs| == |s.jobs| + |sweeps|
    decreases |sweeps|
  {
    if sweeps != [] {
      RestSelected(s, sweeps);
      StepExact(s, sweeps[0]);
      SweepOpens(s, sweeps[0]);
      hide Exact, Apply, Enabled, Selected, Exclusive, RowOf, IsSweep;
      SelectionOpens(Apply(s, sweeps[0]), sweeps[1..]);
    }
  }

  /** The jobs stand in the order of the selection. */
  lemma {:induction false} SelectionHolds(s: State, sweeps: seq<Step>, n: nat)
    requires Selected(s, sweeps) && Runs(s, sweeps) && n < |sweeps|
    ensures |s.jobs| + n < |Exec(s, sweeps).jobs| && IsSweep(sweeps[n])
    ensures RowOf(Exec(s, sweeps).jobs[|s.jobs| + n]) == Some(sweeps[n].row)
    decreases |sweeps|
  {
    RestSelected(s, sweeps);
    SweepOpens(s, sweeps[0]);
    var t := Apply(s, sweeps[0]);
    hide Apply, Enabled, Selected, Exclusive, RowOf, IsSweep;
    if n == 0 {
      SelectionKeepsJobs(t, sweeps[1..], |s.jobs|);
    } else {
      SelectionHolds(t, sweeps[1..], n - 1);
    }
  }

  lemma SweepOpens(s: State, sweep: Step)
    requires Enabled(s, sweep) && IsSweep(sweep)
    ensures var t := Apply(s, sweep);
            && t.db == s.db && |t.jobs| == |s.jobs| + 1 && t.jobs[..|s.jobs|] == s.jobs
            && RowOf(t.jobs[|s.jobs|]) == Some(sweep.row)
  {
    hide Judge, HasText;
  }

  lemma {:induction false} SelectionKeepsJobs(s: State, sweeps: seq<Step>, k: nat)
    requires Runs(s, sweeps) && k < |s.jobs|
    requires forall n :: 0 <= n < |sweeps| ==> IsSweep(sweeps[n])
    ensures k < |Exec(s, sweeps).jobs| && Exec(s, sweeps).jobs[k] == s.jobs[k]
    decreases |sweeps|
  {
    if sweeps != [] {
      SweepOpens(s, sweeps[0]);
      var t := Apply(s, sweeps[0]);
      assert t.jobs[k] == t.jobs[..|s.jobs|][k];
      hide Apply, Enabled;
      SelectionKeepsJobs(t, sweeps[1..], k);
    }
  }

  /**
   The same for a whole selection, whose jobs may run in any order and interleave with everything
   else: each selected row whose job is through needs no more work.
   */
  lemma {:induction false} SelectionSettles(s: State, sweeps: seq<Step>, steps: seq<Step>, n: nat)
    requires Exact(s) && Selected(s, sweeps) && n < |sweeps|
    requires Runs(s, sweeps) && Runs(Exec(s, sweeps), steps)
    requires ExclusiveSweeps(Exec(s, sweeps), steps) && Uncut(steps, |s.jobs| + n)
    ensures IsSweep(sweeps[n]) && HoldsOrDone(Exec(Exec(s, sweeps), steps), |s.jobs| + n, sweeps[n].row)
  {
    hide Exact, Runs, Exec, ExclusiveSweeps, Enabled, Uncut, Alone;
    SelectionOpens(s, sweeps);
    SelectionHolds(s, sweeps, n);
    var t, k, r := Exec(s, sweeps), |s.jobs| + n, sweeps[n].row;
    hide Selected;
    assert r < |t.db.inbox| by {
      SelectedInTable(s, sweeps, n);
    }
    assert RowOf(t.jobs[k]) == Some(r);
    assert HoldsOrDone(t, k, r);
    hide HoldsOrDone, RowOf;
    RunHoldsOrDone(t, steps, k, r);
  }

  lemma SelectedInTable(s: State, sweeps: seq<Step>, n: nat)
    requires Selected(s, sweeps) && n < |sweeps|
    ensures IsSweep(sweeps[n]) && sweeps[n].row < |s.db.inbox|
  {
    hide Alone;
  }

  // ---- Why the sweeps must be exclusive ----

  const NOTE := Message(Some(1), Some(7), 7, Some("buy milk"), Text, None, false)
  const PLAIN := Answer(JNull, JStr("x"), JNull, JNull, JNull, None, JNull, JNull, JNull, JNull, JNull)

  lemma PlainIsAccepted(text: string, remaining: int)
    ensures Judge(PLAIN, text, remaining).Returned? && StorableDraft(Judge(PLAIN, text, remaining).value)
  {
    BlankIffAllSpaces("x");
    StripTrimmed("x");
    StorableIff(PLAIN, text, remaining);
    var x := "x";
    assert x[0] in x;
    assert ChosenTitle(PLAIN, text) == x;
  }

  /** The job still has what it takes to store an item. */
  predicate MayStore(job: Job) {
    match job
    case Replying(_, msg) => if msg.kind.Voice? then msg.fileId.Some? else HasText(msg.text)
    case Transcribing(_, msg) => msg.fileId.Some?
    case AudioStored(_) => true
    case Triaging(_, raw) => HasText(raw)
    case Deciding(_, _, _) => true
    case _ => false
  }

  /** A step that brings such a job closer to its item. */
  function Forward(s: State, j: nat): Step
    requires j < |s.jobs| && MayStore(s.jobs[j])
  {
    match s.jobs[j]
    case Replying(_, _) => Schedule(j)
    case Transcribing(_, _) => KeepAudio(j, "a")
    case AudioStored(_) => KeepTranscript(j, "x")
    case Triaging(_, _) => Snapshot(j, 40)
    case Deciding(_, _, _) => Decide(j, PLAIN)
  }

  /** How many such steps are left. */
  function ToGo(job: Job): nat {
    match job
    case Replying(_, _) => 5
    case Transcribing(_, _) => 4
    case AudioStored(_) => 3
    case Triaging(_, _) => 2
    case Deciding(_, _, _) => 1
    case _ => 0
  }

  lemma ForwardEnabled(s: State, j: nat)
    requires j < |s.jobs| && MayStore(s.jobs[j])
    ensures Enabled(s, Forward(s, j))
  {
    if s.jobs[j].Deciding? {
      PlainIsAccepted(s.jobs[j].text, s.jobs[j].remaining);
    }
    hide Judge;
  }

  lemma LetterHasText()
    ensures HasText(Some("x"))
  {
    BlankIffAllSpaces("x");
    var x := "x";
    assert x[0] in x;
  }

  lemma ForwardStep(s: State, j: nat)
    requires j < |s.jobs| && MayStore(s.jobs[j])
    ensures Enabled(s, Forward(s, j))
    ensures var t := Apply(s, Forward(s, j));
            && |t.jobs| == |s.jobs| && t.jobs == s.jobs[j := t.jobs[j]]
            && (if s.jobs[j].Deciding? then |t.db.items| == |s.db.items| + 1
                else MayStore(t.jobs[j]) && RowOf(t.jobs[j]) == RowOf(s.jobs[j]) && ToGo(t.jobs[j]) < ToGo(s.jobs[j]))
            && (!s.jobs[j].Deciding? ==> t.db.items == s.db.items)
  {
    ForwardEnabled(s, j);
    LetterHasText();
    hide Judge, Blank;
  }

  /** The run holds no sweep. */
  predicate NoSweeps(steps: seq<Step>) {
    forall n :: 0 <= n < |steps| ==> !steps[n].SweepTranscription? && !steps[n].SweepTriage?
  }

  lemma NoSweepsJoined(a: seq<Step>, b: seq<Step>)
    requires NoSweeps(a) && NoSweeps(b)
    ensures NoSweeps(a + b)
  {
  }

  lemma {:induction false} NoSweepsExclusive(s: State, steps: seq<Step>)
    requires Runs(s, steps) && NoSweeps(steps)
    ensures ExclusiveSweeps(s, steps)
    decreases |steps|
  {
    hide Apply, Enabled, Alone;
    if steps != [] {
      NoSweepsExclusive(Apply(s, steps[0]), steps[1..]);
    }
  }

  /** A job that may store an item can be run until it has stored one, with no other job moving. */
  lemma {:induction false} JobStores(s: State, j: nat) returns (steps: seq<Step>)
    requires j < |s.jobs| && MayStore(s.jobs[j])
    ensures Runs(s, steps) && NoSweeps(steps)
    ensures var t := Exec(s, steps);
            && |t.jobs| == |s.jobs| && t.jobs == s.jobs[j := t.jobs[j]]
            && ItemsOf(t.db.items, RowOf(s.jobs[j]).value) == ItemsOf(s.db.items, RowOf(s.jobs[j]).value) + 1
    decreases ToGo(s.jobs[j])
  {
    ForwardStep(s, j);
    var step := Forward(s, j);
    var t := Apply(s, step);
    var rest: seq<Step> := [];
    if s.jobs[j].Deciding? {
      DecisionAdds(s, step);
      ItemsOfSnoc(s.db.items, t.db.items[|s.db.items|], s.jobs[j].row);
    }
    hide Apply, Enabled, ItemsOf, MayStore;
    if !s.jobs[j].Deciding? {
      rest := JobStores(t, j);
    }
    steps := [step] + rest;
    assert steps[1..] == rest;
  }

  /** The sweep hands out a row that can still yield an item. */
  predicate Yields(s: State, step: Step) {
    || (step.SweepTriage? && StuckUntriaged(s.db, step.row) && HasText(s.db.inbox[step.row].rawText))
    || (step.SweepTranscription? && StuckPending(s.db, step.row) && s.db.inbox[step.row].msg.fileId.Some?)
  }

  /** In a settled state, whatever job holds such a row may store its item. */
  lemma HolderMayStore(s: State, step: Step, j: nat)
    requires Exact(s) && Yields(s, step) && j < |s.jobs| && RowOf(s.jobs[j]) == Some(step.row)
    ensures MayStore(s.jobs[j]) && ItemsOf(s.db.items, step.row) == 0
  {
    hide Judge, Blank, GatesOk, UpdatesDistinct, ItemsOk, OneJobPerRow, ItemsOf;
    JobInTable(s, j);
    assert JobFits(s.db, s.jobs[j]) && RowOk(s.db.inbox[step.row]) && RowSettled(s.db, step.row);
  }

  lemma SweptJobMayStore(s: State, step: Step)
    requires Yields(s, step)
    ensures Enabled(s, step)
    ensures var t := Apply(s, step);
            && |t.jobs| == |s.jobs| + 1 && t.jobs[..|s.jobs|] == s.jobs && t.db == s.db
            && MayStore(t.jobs[|s.jobs|]) && RowOf(t.jobs[|s.jobs|]) == Some(step.row)
  {
    hide Judge, Blank;
  }

  /** A sweep of a row that some handler or job still holds can be continued to a second item for it. */
  lemma HeldRowDuplicates(s: State, step: Step, j: nat) returns (steps: seq<Step>)
    requires Exact(s) && Yields(s, step) && j < |s.jobs| && RowOf(s.jobs[j]) == Some(step.row)
    ensures Enabled(s, step) && Runs(Apply(s, step), steps) && NoSweeps(steps)
    ensures ItemsOf(Exec(Apply(s, step), steps).db.items, step.row) == 2
  {
    HolderMayStore(s, step, j);
    SweptJobMayStore(s, step);
    hide Apply, Enabled, Exact, MayStore, Yields, ItemsOf, Runs, Exec, NoSweeps;
    var t := Apply(s, step);
    assert t.jobs[j] == s.jobs[j];
    var first := JobStores(t, |s.jobs|);
    var u := Exec(t, first);
    assert u.jobs[j] == s.jobs[j];
    var second := JobStores(u, j);
    RunsCompose(t, first, second);
    NoSweepsJoined(first, second);
    steps := first + second;
  }

  /** However the run goes on after the sweep, its row never gets a second item. */
  ghost predicate NeverTwo(s: State, r: nat) {
    forall steps :: Runs(s, steps) && ExclusiveSweeps(s, steps) ==> ItemsOf(Exec(s, steps).db.items, r) <= 1
  }

  /**
   Exclusive sweeping is the exact condition: a sweep of a row that can still yield an item is
   safe, in every continuation, exactly when no handler or job holds the row.
   */
  lemma SweepSafeIffAlone(s: State, step: Step)
    requires Exact(s) && Yields(s, step)
    ensures Enabled(s, step) && (Alone(s, step.row) <==> NeverTwo(Apply(s, step), step.row))
  {
    SweptJobMayStore(s, step);
    if Alone(s, step.row) {
      SafeWhenAlone(s, step);
    } else {
      var j: nat :| j < |s.jobs| && RowOf(s.jobs[j]) == Some(step.row);
      var steps := HeldRowDuplicates(s, step, j);
      NoSweepsExclusive(Apply(s, step), steps);
      hide Apply, Enabled, Exact, Yields, ItemsOf, Runs, Exec, ExclusiveSweeps;
      assert !(ItemsOf(Exec(Apply(s, step), steps).db.items, step.row) <= 1);
    }
  }

  lemma SafeWhenAlone(s: State, step: Step)
    requires Exact(s) && Yields(s, step) && Enabled(s, step) && Alone(s, step.row)
    ensures NeverTwo(Apply(s, step), step.row)
  {
    hide Apply, Enabled, ItemsOf, Exec, Runs, ExclusiveSweeps, Alone, Safe, OneJobPerRow;
    assert Exclusive(s, step);
    StepExact(s, step);
    StepSafe(s, step);
    var t := Apply(s, step);
    var r := step.row;
    assert r < |t.db.inbox|;
    forall steps | Runs(t, steps) && ExclusiveSweeps(t, steps)
      ensures ItemsOf(Exec(t, steps).db.items, r) <= 1
    {
      RunExact(t, steps);
      RunSafe(t, steps);
      assert RowSettled(Exec(t, steps).db, r);
    }
  }

  /** Handlers aside, no two jobs hold the same row. */
  predicate NoOverlap(jobs: seq<Job>) {
    forall i, j :: 0 <= i < j < |jobs| && !jobs[i].Replying? && !jobs[j].Replying? && RowOf(jobs[i]).Some? ==>
      RowOf(jobs[i]) != RowOf(jobs[j])
  }

  predicate NeverOverlaps(s: State, steps: seq<Step>)
    requires Runs(s, steps)
    decreases |steps|
  {
    NoOverlap(s.jobs) && (steps != [] ==> NeverOverlaps(Apply(s, steps[0]), steps[1..]))
  }

  lemma {:induction false} NeverOverlapsSnoc(s: State, steps: seq<Step>, step: Step)
    requires Runs(s, steps) && NeverOverlaps(s, steps)
    requires Enabled(Exec(s, steps), step) && NoOverlap(Apply(Exec(s, steps), step).jobs)
    ensures Runs(s, steps + [step]) && NeverOverlaps(s, steps + [step])
    ensures Exec(s, steps + [step]) == Apply(Exec(s, steps), step)
    decreases |steps|
  {
    if steps == [] {
      assert [] + [step] == [step];
      assert [step][1..] == [];
    } else {
      NeverOverlapsSnoc(Apply(s, steps[0]), steps[1..], step);
      assert (steps + [step])[1..] == steps[1..] + [step];
    }
  }

  /** One triage, from an open job to a closed one, stores one more item for its row. */
  lemma TriageAgain(s: State, steps: seq<Step>, j: nat) returns (after: seq<Step>)
    requires Runs(s, steps) && NeverOverlaps(s, steps)
    requires var t := Exec(s, steps);
             j < |t.jobs| && t.jobs[j].Triaging? && HasText(t.jobs[j].raw) && t.jobs[j].row < |t.db.inbox|
    requires NoOverlap(Exec(s, steps).jobs)
    ensures Runs(s, after) && NeverOverlaps(s, after)
    ensures var t, u := Exec(s, steps), Exec(s, after);
            && u.jobs == t.jobs[j := Closed] && |u.db.inbox| == |t.db.inbox|
            && ItemsOf(u.db.items, t.jobs[j].row) == ItemsOf(t.db.items, t.jobs[j].row) + 1
  {
    hide Judge, Runs, Exec, NeverOverlaps, ItemsOf, Blank;
    var t := Exec(s, steps);
    var a, b, c := Snapshot(j, 40), Decide(j, PLAIN), Abort(j);
    NeverOverlapsSnoc(s, steps, a);
    PlainIsAccepted(t.jobs[j].raw.value, Remaining(t.db, 40));
    NeverOverlapsSnoc(s, steps + [a], b);
    NeverOverlapsSnoc(s, steps + [a] + [b], c);
    after := steps + [a] + [b] + [c];
    var u := Exec(s, after);
    ItemsOfSnoc(t.db.items, u.db.items[|t.db.items|], t.jobs[j].row);
  }

  /** The state after the note was captured and its handler stalled for so many seconds. */
  function Stalled(seconds: int): State {
    State(Db([NewRow(NOTE, 0)], [], [], seconds), [Replying(0, NOTE)], [])
  }

  lemma NoteIsStorable()
    ensures StorableMessage(NOTE)
  {
  }

  lemma NoteStalls()
    ensures Enabled(Init(0), Capture(NOTE)) && Apply(Init(0), Capture(NOTE)) == Stalled(0)
    ensures Enabled(Stalled(0), Wait(601)) && Apply(Stalled(0), Wait(601)) == Stalled(601)
    ensures NoOverlap(Init(0).jobs) && NoOverlap(Stalled(0).jobs) && NoOverlap(Stalled(601).jobs)
  {
    NoteIsStorable();
    hide StorableMessage;
    assert !Captured([], NOTE.updateId);
    assert [] + [NewRow(NOTE, 0)] == [NewRow(NOTE, 0)];
    assert [] + [Replying(0, NOTE)] == [Replying(0, NOTE)];
  }

  lemma NoteIsSwept()
    ensures Enabled(Stalled(601), SweepTriage(0))
    ensures Apply(Stalled(601), SweepTriage(0)) ==
            Stalled(601).(jobs := [Replying(0, NOTE), Triaging(0, NOTE.text)])
    ensures NoOverlap([Replying(0, NOTE), Triaging(0, NOTE.text)])
  {
    hide HasText;
    assert Stalled(601).db.inbox[0] == NewRow(NOTE, 0);
    assert [Replying(0, NOTE)] + [Triaging(0, NOTE.text)] == [Replying(0, NOTE), Triaging(0, NOTE.text)];
  }

  /** A text message is captured, its handler stalls, and a sweep finds the row ten minutes later. */
  lemma StalledHandler() returns (steps: seq<Step>)
    ensures Runs(Init(0), steps) && NeverOverlaps(Init(0), steps)
    ensures var t := Exec(Init(0), steps);
            t.jobs == [Replying(0, NOTE), Triaging(0, NOTE.text)] && |t.db.inbox| == 1 && t.db.items == []
  {
    var s := Init(0);
    assert Runs(s, []) && NeverOverlaps(s, []) && Exec(s, []) == s;
    hide Enabled, Apply, Runs, Exec, NeverOverlaps, NoOverlap, Init;
    NoteStalls();
    NeverOverlapsSnoc(s, [], Capture(NOTE));
    steps := [] + [Capture(NOTE)];
    NeverOverlapsSnoc(s, steps, Wait(601));
    steps := steps + [Wait(601)];
    NoteIsSwept();
    NeverOverlapsSnoc(s, steps, SweepTriage(0));
    steps := steps + [SweepTriage(0)];
  }

  /**
   Scheduled jobs that never overlap are not enough: a handler still waiting for its reply while
   a sweep triages its row schedules a second triage afterwards. triage_inbox_row does not look
   at processed_at again, so the row gets two items.
   */
  lemma LateHandlerDuplicates() returns (steps: seq<Step>)
    ensures Runs(Init(0), steps) && NeverOverlaps(Init(0), steps)
    ensures ItemsOf(Exec(Init(0), steps).db.items, 0) == 2
  {
    var s := Init(0);
    assert HasText(NOTE.text) by {
      BlankIffAllSpaces("buy milk");
      assert "buy milk"[0] in "buy milk";
    }
    hide Judge, Runs, Exec, NeverOverlaps, HasText, Init;
    steps := StalledHandler();
    assert ItemsOf([], 0) == 0;
    hide ItemsOf;
    steps := TriageAgain(s, steps, 1);
    LateSchedule(Exec(s, steps));
    hide Apply, Enabled, NoOverlap;
    NeverOverlapsSnoc(s, steps, Schedule(0));
    steps := TriageAgain(s, steps + [Schedule(0)], 0);
  }

  /** The reply goes through at last and the handler schedules its own triage. */
  lemma LateSchedule(s: State)
    requires s.jobs == [Replying(0, NOTE), Closed]
    ensures Enabled(s, Schedule(0)) && Apply(s, Schedule(0)).db == s.db
    ensures Apply(s, Schedule(0)).jobs == [Triaging(0, NOTE.text), Closed]
    ensures NoOverlap(Apply(s, Schedule(0)).jobs)
  {
  }
}
