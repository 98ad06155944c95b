/** What every step keeps: overlapping jobs, sweeps and crashes included. */
module PipelineSafety {
  import opened Wrappers
  import opened Gatekeeper
  import opened Tables
  import opened Pipeline

  /**
   Voice rows, and only they, have a transcription status; a finished one has its text and its
   audio, a failed one its error, and a pending one is unprocessed.
   */
  predicate RowOk(row: Row) {
    && row.source == SourceOf(row.msg)
    && (row.status.NotApplicable? <==> !row.msg.kind.Voice?)
    && (row.status.NotApplicable? ==> row.rawText == row.msg.text)
    && (row.status.Done? ==> row.rawText.Some? && row.audioPath.Some?)
    && (row.status.Failed? ==> row.error.Some?)
    && (row.status.Pending? ==> row.processedAt.None?)
  }

  predicate RowsOk(inbox: seq<Row>) {
    forall r :: 0 <= r < |inbox| ==> RowOk(inbox[r])
  }

  /** No non-null update id has two rows. */
  predicate UpdatesDistinct(inbox: seq<Row>) {
    forall q, r :: 0 <= q < r < |inbox| && inbox[q].msg.updateId.Some? ==>
      inbox[q].msg.updateId != inbox[r].msg.updateId
  }

  predicate JobOk(db: Db, job: Job) {
    match job
    case Closed => true
    case Replying(r, msg) => r < |db.inbox| && db.inbox[r].msg == msg
    case Transcribing(r, msg) => r < |db.inbox| && db.inbox[r].msg == msg && msg.kind.Voice?
    case AudioStored(r) => r < |db.inbox| && db.inbox[r].msg.kind.Voice? && db.inbox[r].audioPath.Some?
    case Triaging(r, _) => r < |db.inbox| && !db.inbox[r].status.Pending?
    case Deciding(r, _, _) => r < |db.inbox| && !db.inbox[r].status.Pending?
    case Embedding(i) => i < |db.items|
    case Matching(i) => i < |db.items|
  }

  predicate JobsOk(s: State) {
    forall j :: 0 <= j < |s.jobs| ==> JobOk(s.db, s.jobs[j])
  }

  /** An item belongs to a row, and that row is processed. */
  predicate ItemsOk(db: Db) {
    forall i :: 0 <= i < |db.items| ==>
      db.items[i].inboxId < |db.inbox| && db.inbox[db.items[i].inboxId].processedAt.Some?
  }

  /**
   A stored "do it now" names what to drop, was let in by a positive snapshot and carries no
   downgrade flag; the flags exclude each other and each means "schedule".
   */
  predicate GateOk(d: Draft, remaining: int) {
    && (d.decision == DO_NOW ==>
          d.drop.Some? && d.drop.value != "" && remaining > 0 && !d.missingTradeOff && !d.capacityCapped)
    && !(d.missingTradeOff && d.capacityCapped)
    && (d.missingTradeOff || d.capacityCapped ==> d.decision == DEFAULT_DECISION)
  }

  predicate GatesOk(s: State) {
    && |s.snapshots| == |s.db.items|
    && forall i :: 0 <= i < |s.db.items| ==> GateOk(s.db.items[i].draft, s.snapshots[i])
  }

  predicate Safe(s: State) {
    RowsOk(s.db.inbox) && UpdatesDistinct(s.db.inbox) && JobsOk(s) && ItemsOk(s.db) && GatesOk(s)
  }

  /** How one row may change: its capture is never altered, and nothing gained is lost. */
  predicate RowEvolves(a: Row, b: Row) {
    && a.msg == b.msg && a.source == b.source && a.capturedAt == b.capturedAt
    && (a.processedAt.Some? ==> b.processedAt.Some?)
    && (a.audioPath.Some? ==> b.audioPath.Some?)
    && (a.rawText.Some? ==> b.rawText.Some?)
    && (b.status.Pending? ==> a.status.Pending?)
    && (a.status.NotApplicable? <==> b.status.NotApplicable?)
  }

  /** How one item may change: only its title, status, duplicate flag, embedding and reminder stamp. */
  predicate ItemEvolves(a: Item, b: Item) {
    && a.inboxId == b.inboxId && a.createdAt == b.createdAt && a.draft == b.draft.(title := a.draft.title)
    && (a.embedded ==> b.embedded) && (a.remindedAt.Some? ==> b.remindedAt.Some?)
  }

  /** No row, item or log entry is removed. */
  predicate Evolves(a: Db, b: Db) {
    && |a.inbox| <= |b.inbox| && (forall r :: 0 <= r < |a.inbox| ==> RowEvolves(a.inbox[r], b.inbox[r]))
    && |a.items| <= |b.items| && (forall i :: 0 <= i < |a.items| ==> ItemEvolves(a.items[i], b.items[i]))
    && a.log <= b.log && a.now <= b.now
  }

  lemma EvolvesTransitive(a: Db, b: Db, c: Db)
    requires Evolves(a, b) && Evolves(b, c)
    ensures Evolves(a, c)
  {
    forall r | 0 <= r < |a.inbox|
      ensures RowEvolves(a.inbox[r], c.inbox[r])
    {
      assert RowEvolves(a.inbox[r], b.inbox[r]) && RowEvolves(b.inbox[r], c.inbox[r]);
    }
    forall i | 0 <= i < |a.items|
      ensures ItemEvolves(a.items[i], c.items[i])
    {
      assert ItemEvolves(a.items[i], b.items[i]) && ItemEvolves(b.items[i], c.items[i]);
    }
  }

  lemma StepRowEvolves(s: State, step: Step, r: nat)
    requires Safe(s) && Enabled(s, step) && r < |s.db.inbox| && r < |Apply(s, step).db.inbox|
    ensures RowEvolves(s.db.inbox[r], Apply(s, step).db.inbox[r])
  {
    hide GatesOk, UpdatesDistinct, ItemsOk;
    if Touched(s, step) == Some(r) {
      hide Judge, HasText;
      JobInTable(s, step.job);
      assert RowOk(s.db.inbox[r]);
      hide RowsOk, JobsOk;
    } else {
      OtherRowsKept(s, step, r);
      hide Apply, Enabled, Safe;
    }
  }

  lemma StepRowsEvolve(s: State, step: Step)
    requires Safe(s) && Enabled(s, step)
    ensures var a, b := s.db.inbox, Apply(s, step).db.inbox;
            |a| <= |b| && forall r :: 0 <= r < |a| ==> RowEvolves(a[r], b[r])
  {
    AtMostOneNewRow(s, step);
    hide Apply, Enabled, Safe, RowEvolves;
    forall r | 0 <= r < |s.db.inbox|
      ensures RowEvolves(s.db.inbox[r], Apply(s, step).db.inbox[r])
    {
      StepRowEvolves(s, step, r);
    }
  }

  /** The steps that update an item. */
  predicate EditsItem(step: Step) {
    step.Embed? || step.Match? || step.EmbedItem? || step.ChangeItemStatus? || step.Retitle? || step.Remind?
  }

  lemma EditedItemEvolves(s: State, step: Step, i: nat)
    requires Enabled(s, step) && EditsItem(step) && i < |s.db.items|
    ensures |Apply(s, step).db.items| == |s.db.items| && ItemEvolves(s.db.items[i], Apply(s, step).db.items[i])
  {
    hide Judge, HasText, StorableText, StorableDraft, StorableMessage, Captured, Remaining, Overridden;
  }

  lemma OtherStepsKeepItems(s: State, step: Step)
    requires Enabled(s, step) && !EditsItem(step)
    ensures s.db.items <= Apply(s, step).db.items
  {
    hide Judge, HasText;
  }

  lemma StepItemEvolves(s: State, step: Step, i: nat)
    requires Enabled(s, step) && i < |s.db.items|
    ensures i < |Apply(s, step).db.items| && ItemEvolves(s.db.items[i], Apply(s, step).db.items[i])
  {
    hide Apply, Enabled;
    if EditsItem(step) {
      EditedItemEvolves(s, step, i);
    } else {
      OtherStepsKeepItems(s, step);
      assert Apply(s, step).db.items[i] == s.db.items[i];
    }
  }

  lemma StepItemsEvolve(s: State, step: Step)
    requires Safe(s) && Enabled(s, step)
    ensures var a, b := s.db.items, Apply(s, step).db.items;
            |a| <= |b| && forall i :: 0 <= i < |a| ==> ItemEvolves(a[i], b[i])
  {
    hide Apply, Enabled, Safe, ItemEvolves;
    forall i | 0 <= i < |s.db.items|
      ensures i < |Apply(s, step).db.items| && ItemEvolves(s.db.items[i], Apply(s, step).db.items[i])
    {
      StepItemEvolves(s, step, i);
    }
    if s.db.items != [] {
      StepItemEvolves(s, step, |s.db.items| - 1);
    }
  }

  lemma StepEvolves(s: State, step: Step)
    requires Safe(s) && Enabled(s, step)
    ensures Evolves(s.db, Apply(s, step).db)
  {
    StepRowsEvolve(s, step);
    StepItemsEvolve(s, step);
  }

  /** The row a job still has to settle. */
  function RowOf(job: Job): Option<nat> {
    match job
    case Replying(r, _) => Some(r)
    case Transcribing(r, _) => Some(r)
    case AudioStored(r) => Some(r)
    case Triaging(r, _) => Some(r)
    case Deciding(r, _, _) => Some(r)
    case _ => None
  }

  /** The steps that bring a row forward. */
  predicate Settles(step: Step) {
    step.FailTranscription? || step.KeepTranscript? || step.SkipBlank? || step.Decide?
  }

  /** The row a step updates. */
  function Touched(s: State, step: Step): Option<nat>
    requires Enabled(s, step)
  {
    if Settles(step) || step.KeepAudio? then RowOf(s.jobs[step.job]) else None
  }

  lemma OtherRowsKept(s: State, step: Step, r: nat)
    requires Safe(s) && Enabled(s, step) && r < |s.db.inbox| && Touched(s, step) != Some(r)
    ensures Apply(s, step).db.inbox[r] == s.db.inbox[r]
  {
    hide Judge, HasText, GatesOk, UpdatesDistinct, ItemsOk;
  }

  lemma JobInTable(s: State, j: nat)
    requires Safe(s) && j < |s.jobs|
    ensures JobOk(s.db, s.jobs[j])
    ensures RowOf(s.jobs[j]).Some? ==> RowOf(s.jobs[j]).value < |s.db.inbox|
  {
    hide GatesOk, UpdatesDistinct, ItemsOk, RowsOk;
    assert JobOk(s.db, s.jobs[j]);
  }

  lemma AtMostOneNewRow(s: State, step: Step)
    requires Enabled(s, step)
    ensures |s.db.inbox| <= |Apply(s, step).db.inbox| <= |s.db.inbox| + 1
  {
    hide Judge, HasText;
  }

  lemma TouchedRowOk(s: State, step: Step, r: nat)
    requires Safe(s) && Enabled(s, step) && Touched(s, step) == Some(r)
    requires r < |s.db.inbox| && r < |Apply(s, step).db.inbox|
    ensures RowOk(Apply(s, step).db.inbox[r])
  {
    hide Judge, HasText, GatesOk, UpdatesDistinct, ItemsOk;
    JobInTable(s, step.job);
    assert RowOk(s.db.inbox[r]);
    hide RowsOk, JobsOk;
  }

  lemma NewRowOk(s: State, step: Step)
    requires Enabled(s, step) && |Apply(s, step).db.inbox| > |s.db.inbox|
    ensures RowOk(Apply(s, step).db.inbox[|s.db.inbox|])
  {
    hide Judge, HasText;
  }

  lemma StepRowOk(s: State, step: Step, r: nat)
    requires Safe(s) && Enabled(s, step) && r < |Apply(s, step).db.inbox|
    ensures RowOk(Apply(s, step).db.inbox[r])
  {
    AtMostOneNewRow(s, step);
    assert r < |s.db.inbox| ==> RowOk(s.db.inbox[r]);
    hide Apply, Enabled, RowOk, Safe, RowsOk;
    if r >= |s.db.inbox| {
      NewRowOk(s, step);
    } else if Touched(s, step) == Some(r) {
      TouchedRowOk(s, step, r);
    } else {
      OtherRowsKept(s, step, r);
    }
  }

  lemma StepRowsOk(s: State, step: Step)
    requires Safe(s) && Enabled(s, step)
    ensures RowsOk(Apply(s, step).db.inbox)
  {
    hide Apply, Enabled, RowOk, Safe;
    forall r | 0 <= r < |Apply(s, step).db.inbox|
      ensures RowOk(Apply(s, step).db.inbox[r])
    {
      StepRowOk(s, step, r);
    }
  }

  lemma StepUpdatesDistinct(s: State, step: Step)
    requires Safe(s) && Enabled(s, step)
    ensures UpdatesDistinct(Apply(s, step).db.inbox)
  {
    hide Judge, HasText, GatesOk;
    StepEvolves(s, step);
  }

  lemma JobStaysOk(a: Db, b: Db, job: Job)
    requires JobOk(a, job) && Evolves(a, b)
    ensures JobOk(b, job)
  {
  }

  lemma AtMostOneNewJob(s: State, step: Step)
    requires Enabled(s, step)
    ensures |Apply(s, step).jobs| <= |s.jobs| + 1
  {
    hide Judge, HasText;
  }

  lemma ScheduledJobOk(s: State, j: nat)
    requires Safe(s) && Enabled(s, Schedule(j))
    ensures JobOk(s.db, ScheduledJob(s.jobs[j].row, s.jobs[j].msg))
  {
    hide GatesOk, UpdatesDistinct, ItemsOk;
    JobInTable(s, j);
    assert RowOk(s.db.inbox[s.jobs[j].row]);
  }

  /** A job the step moves on refers to what is there. */
  lemma MovedJobOk(s: State, step: Step, j: nat)
    requires Safe(s) && Enabled(s, step)
    requires j < |s.jobs| && j < |Apply(s, step).jobs| && Apply(s, step).jobs[j] != s.jobs[j]
    ensures JobOk(Apply(s, step).db, Apply(s, step).jobs[j])
  {
    hide Judge, HasText, GatesOk, RowsOk, UpdatesDistinct, ItemsOk;
    JobInTable(s, j);
    if step.Schedule? {
      ScheduledJobOk(s, j);
    }
    hide JobsOk;
  }

  lemma NewJobOk(s: State, step: Step)
    requires Safe(s) && Enabled(s, step) && |Apply(s, step).jobs| > |s.jobs|
    ensures JobOk(Apply(s, step).db, Apply(s, step).jobs[|s.jobs|])
  {
    hide Judge, HasText, GatesOk, UpdatesDistinct, ItemsOk;
  }

  lemma StepJobsOk(s: State, step: Step)
    requires Safe(s) && Enabled(s, step)
    ensures JobsOk(Apply(s, step))
  {
    StepEvolves(s, step);
    AtMostOneNewJob(s, step);
    hide Apply, Enabled, Evolves, JobOk, GatesOk, RowsOk, UpdatesDistinct, ItemsOk;
    var t := Apply(s, step);
    forall j | 0 <= j < |t.jobs|
      ensures JobOk(t.db, t.jobs[j])
    {
      if j >= |s.jobs| {
        NewJobOk(s, step);
      } else if t.jobs[j] != s.jobs[j] {
        MovedJobOk(s, step, j);
      } else {
        JobStaysOk(s.db, t.db, s.jobs[j]);
      }
    }
  }

  lemma StepItemsOk(s: State, step: Step)
    requires Safe(s) && Enabled(s, step)
    ensures ItemsOk(Apply(s, step).db)
  {
    hide Judge, HasText, GatesOk;
    StepEvolves(s, step);
  }

  lemma StepGatesOk(s: State, step: Step)
    requires Safe(s) && Enabled(s, step)
    ensures GatesOk(Apply(s, step))
  {
    hide Judge, HasText, RowsOk, UpdatesDistinct, ItemsOk;
    StepEvolves(s, step);
    if step.Decide? {
      var job := s.jobs[step.job];
      GateRule(step.answer, job.text, job.remaining);
    }
  }

  lemma StepSafe(s: State, step: Step)
    requires Safe(s) && Enabled(s, step)
    ensures Safe(Apply(s, step)) && Evolves(s.db, Apply(s, step).db)
  {
    StepEvolves(s, step);
    StepRowsOk(s, step);
    StepUpdatesDistinct(s, step);
    StepJobsOk(s, step);
    StepItemsOk(s, step);
    StepGatesOk(s, step);
  }

  /** Every run keeps the invariants and loses nothing, whatever overlaps or crashes. */
  lemma {:induction false} RunSafe(s: State, steps: seq<Step>)
    requires Safe(s) && Runs(s, steps)
    ensures Safe(Exec(s, steps)) && Evolves(s.db, Exec(s, steps).db)
    decreases |steps|
  {
    if steps != [] {
      StepSafe(s, steps[0]);
      var t := Apply(s, steps[0]);
      RunSafe(t, steps[1..]);
      EvolvesTransitive(s.db, t.db, Exec(s, steps).db);
    }
  }

  lemma InitSafe(now: int)
    ensures Safe(Init(now))
  {
  }
}
