/**
 The capture -> transcribe -> triage pipeline as a step system. A state is the tables and the
 open background jobs; each step is one transaction, or the end of a job. Whatever happens
 between two transactions (the LLM, the messenger, audio files) is the step's free choice. A
 transaction that fails is not a step; the job it leaves behind ends with `Abort`.
 */
module Pipeline {
  import opened Wrappers
  import opened PyText
  import opened Gatekeeper
  import opened Tables

  datatype Job =
    | Closed
    | Replying(row: nat, msg: Message)                     // the handler, from its insert until it schedules
    | Transcribing(row: nat, msg: Message)                 // transcribe_voice_job, before the audio is stored
    | AudioStored(row: nat)                                // before the transcript is stored
    | Triaging(row: nat, raw: Option<string>)              // triage_inbox_row, before the capacity snapshot
    | Deciding(row: nat, text: string, remaining: int)     // waiting for the model
    | Embedding(item: nat)                                 // after the commit
    | Matching(item: nat)                                  // looking for a duplicate

  /** `snapshots[i]` records the remaining minutes that the triage of item i had read. */
  datatype State = State(db: Db, jobs: seq<Job>, snapshots: seq<int>)

  function Init(now: int): State {
    State(Db([], [], [], now), [], [])
  }

  datatype Step =
    | Capture(msg: Message)
    | Schedule(job: nat)
    | SweepTranscription(row: nat)
    | SweepTriage(row: nat)
    | FailTranscription(job: nat, error: string)
    | KeepAudio(job: nat, path: string)
    | KeepTranscript(job: nat, text: string)
    | SkipBlank(job: nat)
    | Snapshot(job: nat, weekly: int)
    | Decide(job: nat, answer: Answer)
    | Embed(job: nat, stored: bool)
    | Match(job: nat, other: nat)
    | Abort(job: nat)
    | Crash
    | EmbedItem(item: nat)
    | ChangeItemStatus(item: nat, status: string, onlyIfDiffers: bool)
    | Retitle(item: nat, title: string)
    | Remind(item: nat)
    | Wait(seconds: nat)

  predicate HasText(text: Option<string>) {
    text.Some? && !Blank(text.value)
  }

  predicate Enabled(s: State, step: Step) {
    match step
    case Capture(msg) => StorableMessage(msg)
    case Schedule(j) => j < |s.jobs| && s.jobs[j].Replying?
    case SweepTranscription(r) => StuckPending(s.db, r)
    case SweepTriage(r) => StuckUntriaged(s.db, r)
    case FailTranscription(j, error) =>
      j < |s.jobs| && (s.jobs[j].Transcribing? || s.jobs[j].AudioStored?) && StorableText(error)
    case KeepAudio(j, path) =>
      j < |s.jobs| && s.jobs[j].Transcribing? && s.jobs[j].msg.fileId.Some? && StorableText(path)
    case KeepTranscript(j, text) => j < |s.jobs| && s.jobs[j].AudioStored? && StorableText(text)
    case SkipBlank(j) => j < |s.jobs| && s.jobs[j].Triaging? && !HasText(s.jobs[j].raw)
    case Snapshot(j, _) => j < |s.jobs| && s.jobs[j].Triaging? && HasText(s.jobs[j].raw)
    case Decide(j, a) =>
      && j < |s.jobs| && s.jobs[j].Deciding? && Judge(a, s.jobs[j].text, s.jobs[j].remaining).Returned?
      && StorableDraft(Judge(a, s.jobs[j].text, s.jobs[j].remaining).value)
    case Embed(j, _) => j < |s.jobs| && s.jobs[j].Embedding?
    case Match(j, other) =>
      && j < |s.jobs| && s.jobs[j].Matching? && other != s.jobs[j].item && s.jobs[j].item < |s.db.items|
      && other < |s.db.items| && s.db.items[other].status == OPEN
      && s.db.items[other].embedded && s.db.items[s.jobs[j].item].embedded
    case Abort(j) => j < |s.jobs|
    case Retitle(_, title) => StorableText(title)
    case _ => true
  }

  /** The job a message is scheduled as. */
  function ScheduledJob(row: nat, msg: Message): Job {
    if msg.kind.Voice? then Transcribing(row, msg) else Triaging(row, msg.text)
  }

  function SetJob(s: State, j: nat, job: Job): State
    requires j < |s.jobs|
  {
    s.(jobs := s.jobs[j := job])
  }

  function Apply(s: State, step: Step): State
    requires Enabled(s, step)
  {
    match step
    case Capture(msg) =>
      var inserted := InsertRow(s.db, msg);
      if inserted.1.None? then s
      else s.(db := inserted.0, jobs := s.jobs + [Replying(inserted.1.value, msg)])
    case Schedule(j) => SetJob(s, j, ScheduledJob(s.jobs[j].row, s.jobs[j].msg))
    case SweepTranscription(r) => s.(jobs := s.jobs + [Transcribing(r, s.db.inbox[r].msg)])
    case SweepTriage(r) => s.(jobs := s.jobs + [Triaging(r, s.db.inbox[r].rawText)])
    case FailTranscription(j, error) => SetJob(s, j, Closed).(db := MarkFailed(s.db, s.jobs[j].row, error))
    case KeepAudio(j, path) =>
      SetJob(s, j, AudioStored(s.jobs[j].row)).(db := StoreAudio(s.db, s.jobs[j].row, path))
    case KeepTranscript(j, text) =>
      SetJob(s, j, Triaging(s.jobs[j].row, Some(text))).(db := StoreTranscript(s.db, s.jobs[j].row, text))
    case SkipBlank(j) => SetJob(s, j, Closed).(db := MarkProcessed(s.db, s.jobs[j].row))
    case Snapshot(j, weekly) =>
      SetJob(s, j, Deciding(s.jobs[j].row, s.jobs[j].raw.value, Remaining(s.db, weekly)))
    case Decide(j, a) =>
      var job := s.jobs[j];
      SetJob(s, j, Embedding(|s.db.items|)).(
        db := CommitItem(s.db, job.row, Judge(a, job.text, job.remaining).value),
        snapshots := s.snapshots + [job.remaining])
    case Embed(j, stored) =>
      SetJob(s, j, Matching(s.jobs[j].item)).(
        db := if stored then StoreEmbedding(s.db, s.jobs[j].item) else s.db)
    case Match(j, other) => SetJob(s, j, Closed).(db := FlagDuplicate(s.db, s.jobs[j].item, other))
    case Abort(j) => SetJob(s, j, Closed)
    case Crash => s.(jobs := [])
    case EmbedItem(i) => s.(db := StoreEmbedding(s.db, i))
    case ChangeItemStatus(i, status, differs) => s.(db := ChangeStatus(s.db, i, status, differs))
    case Retitle(i, title) => s.(db := SetTitle(s.db, i, title))
    case Remind(i) => s.(db := MarkReminded(s.db, i))
    case Wait(n) => s.(db := s.db.(now := s.db.now + n))
  }

  /** The steps can be taken one after another from s. */
  predicate Runs(s: State, steps: seq<Step>)
    decreases |steps|
  {
    steps != [] ==> Enabled(s, steps[0]) && Runs(Apply(s, steps[0]), steps[1..])
  }

  function Exec(s: State, steps: seq<Step>): State
    requires Runs(s, steps)
    decreases |steps|
  {
    if steps == [] then s else Exec(Apply(s, steps[0]), steps[1..])
  }

  /** Runs compose. */
  lemma {:induction false} RunsCompose(s: State, steps: seq<Step>, more: seq<Step>)
    requires Runs(s, steps) && Runs(Exec(s, steps), more)
    ensures Runs(s, steps + more)
    ensures Exec(s, steps + more) == Exec(Exec(s, steps), more)
    decreases |steps|
  {
    if steps == [] {
      assert steps + more == more;
    } else {
      RunsCompose(Apply(s, steps[0]), steps[1..], more);
      assert (steps + more)[1..] == steps[1..] + more;
    }
  }

  /** One more step at the end of a run. */
  lemma {:induction false} RunsSnoc(s: State, steps: seq<Step>, step: Step)
    requires Runs(s, steps) && Enabled(Exec(s, steps), step)
    ensures Runs(s, steps + [step])
    ensures Exec(s, steps + [step]) == Apply(Exec(s, steps), step)
  {
    assert [step][1..] == [];
    RunsCompose(s, steps, [step]);
  }
}
