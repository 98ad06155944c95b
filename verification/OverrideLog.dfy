/** The calibration log (app/decisions_log.py): completed items that the gatekeeper had turned down. */
module OverrideLog {
  import opened Wrappers
  import opened Gatekeeper
  import opened Tables
  import opened Pipeline
  import opened PipelineSafety

  function Entries(log: seq<LogEntry>, i: nat): nat {
    if log == [] then 0 else Entries(log[..|log| - 1], i) + (if log[|log| - 1].item == i then 1 else 0)
  }

  /** Every log row agrees with its item, whose decision was "decline" or "archive". */
  predicate LogOk(db: Db) {
    forall n :: 0 <= n < |db.log| ==>
      && db.log[n].item < |db.items|
      && Overridden(db.items[db.log[n].item].draft)
      && db.log[n] == OverrideOf(db.log[n].item, db.items[db.log[n].item].draft)
  }

  /** A call that sets item i to "done" and finds its row. */
  predicate Completes(s: State, step: Step, i: nat) {
    step.ChangeItemStatus? && step.item == i && step.status == DONE && ChangesStatus(s.db, i, DONE, step.onlyIfDiffers)
  }

  function DoneCalls(s: State, steps: seq<Step>, i: nat): nat
    requires Runs(s, steps)
    decreases |steps|
  {
    if steps == [] then 0
    else (if Completes(s, steps[0], i) then 1 else 0) + DoneCalls(Apply(s, steps[0]), steps[1..], i)
  }

  predicate IsDone(s: State, i: nat) {
    i < |s.db.items| && s.db.items[i].status == DONE
  }

  /** How often item i really goes from not done to done. */
  function Completions(s: State, steps: seq<Step>, i: nat): nat
    requires Runs(s, steps)
    decreases |steps|
  {
    if steps == [] then 0
    else
      var t := Apply(s, steps[0]);
      (if !IsDone(s, i) && IsDone(t, i) then 1 else 0) + Completions(t, steps[1..], i)
  }

  /** Every close uses the guarded call, as the bot does. */
  predicate Guarded(steps: seq<Step>) {
    forall n :: 0 <= n < |steps| && steps[n].ChangeItemStatus? && steps[n].status == DONE ==> steps[n].onlyIfDiffers
  }

  lemma {:induction false} EntriesSnoc(log: seq<LogEntry>, e: LogEntry, i: nat)
    ensures Entries(log + [e], i) == Entries(log, i) + (if e.item == i then 1 else 0)
  {
    assert (log + [e])[..|log|] == log;
  }

  /** The only step that writes the log is a successful "done" call on an overridden item. */
  lemma StepWritesLog(s: State, step: Step)
    requires Enabled(s, step)
    ensures Apply(s, step).db.log ==
            if step.ChangeItemStatus? && Completes(s, step, step.item) && Overridden(s.db.items[step.item].draft)
            then s.db.log + [OverrideOf(step.item, s.db.items[step.item].draft)]
            else s.db.log
  {
  }

  lemma StepLogOk(s: State, step: Step)
    requires Safe(s) && LogOk(s.db) && Enabled(s, step)
    ensures LogOk(Apply(s, step).db)
  {
    StepItemsEvolve(s, step);
    StepWritesLog(s, step);
    var a, b := s.db, Apply(s, step).db;
    forall n | 0 <= n < |b.log|
      ensures b.log[n].item < |b.items| && Overridden(b.items[b.log[n].item].draft)
      ensures b.log[n] == OverrideOf(b.log[n].item, b.items[b.log[n].item].draft)
    {
      assert b.log[n].item < |a.items|;
      assert ItemEvolves(a.items[b.log[n].item], b.items[b.log[n].item]);
    }
  }

  lemma {:induction false} StepLog(s: State, step: Step, i: nat)
    requires Safe(s) && LogOk(s.db) && Enabled(s, step)
    ensures LogOk(Apply(s, step).db)
    ensures Entries(Apply(s, step).db.log, i)
            == Entries(s.db.log, i)
               + (if Completes(s, step, i) && Overridden(s.db.items[i].draft) then 1 else 0)
  {
    StepLogOk(s, step);
    StepWritesLog(s, step);
    if Apply(s, step).db.log != s.db.log {
      EntriesSnoc(s.db.log, OverrideOf(step.item, s.db.items[step.item].draft), i);
    }
  }

  /**
   Conservation: over any run an item gains one log row per successful "done" call if its
   decision was "decline" or "archive", and none otherwise; every row agrees with its item.
   */
  lemma {:induction false} LogConserved(s: State, steps: seq<Step>, i: nat)
    requires Safe(s) && LogOk(s.db) && Runs(s, steps)
    requires i < |Exec(s, steps).db.items|
    ensures LogOk(Exec(s, steps).db)
    ensures Entries(Exec(s, steps).db.log, i)
            == Entries(s.db.log, i)
               + (if Overridden(Exec(s, steps).db.items[i].draft) then DoneCalls(s, steps, i) else 0)
    decreases |steps|
  {
    if steps != [] {
      var t := Apply(s, steps[0]);
      StepSafe(s, steps[0]);
      StepLog(s, steps[0], i);
      LogConserved(t, steps[1..], i);
      RunSafe(t, steps[1..]);
      if i < |s.db.items| {
        assert ItemEvolves(s.db.items[i], t.db.items[i]);
        assert ItemEvolves(t.db.items[i], Exec(s, steps).db.items[i]);
      }
    }
  }

  /** With guarded closes the calls counted are the real transitions, no matter how often items reopen. */
  lemma {:induction false} GuardedCallsAreCompletions(s: State, steps: seq<Step>, i: nat)
    requires Runs(s, steps) && Guarded(steps)
    ensures DoneCalls(s, steps, i) == Completions(s, steps, i)
    decreases |steps|
  {
    if steps != [] {
      var t := Apply(s, steps[0]);
      assert Guarded(steps[1..]) by {
        assert forall n :: 0 <= n < |steps[1..]| ==> steps[1..][n] == steps[n + 1];
      }
      GuardedStep(s, steps[0], i);
      GuardedCallsAreCompletions(t, steps[1..], i);
    }
  }

  /** Somewhere in the run an unguarded "done" call meets an item i that is already done. */
  predicate Redone(s: State, steps: seq<Step>, i: nat)
    requires Runs(s, steps)
    decreases |steps|
  {
    steps != [] && (RedoneBy(s, steps[0], i) || Redone(Apply(s, steps[0]), steps[1..], i))
  }

  predicate RedoneBy(s: State, step: Step, i: nat) {
    step.ChangeItemStatus? && step.item == i && step.status == DONE && !step.onlyIfDiffers && IsDone(s, i)
  }

  lemma StepCallsAndCompletions(s: State, step: Step, i: nat)
    requires Enabled(s, step)
    ensures !IsDone(s, i) && IsDone(Apply(s, step), i) ==> Completes(s, step, i)
    ensures Completes(s, step, i) && !(!IsDone(s, i) && IsDone(Apply(s, step), i)) <==> RedoneBy(s, step, i)
  {
    hide Judge, HasText;
  }

  /**
   In every run the calls number at least the real transitions, and exactly as many if and only
   if no unguarded call meets an item already done.
   */
  lemma {:induction false} CallsAreCompletionsIff(s: State, steps: seq<Step>, i: nat)
    requires Runs(s, steps)
    ensures DoneCalls(s, steps, i) >= Completions(s, steps, i)
    ensures DoneCalls(s, steps, i) == Completions(s, steps, i) <==> !Redone(s, steps, i)
    decreases |steps|
  {
    if steps != [] {
      StepCallsAndCompletions(s, steps[0], i);
      CallsAreCompletionsIff(Apply(s, steps[0]), steps[1..], i);
      hide Apply, Enabled, Completes, RedoneBy, IsDone;
    }
  }

  /**
   From the empty database, the log rows of an item that was turned down count its real
   completions if and only if no unguarded call met it already done; otherwise they exceed them.
   */
  lemma {:induction false} LogCountsIff(now: int, steps: seq<Step>, i: nat)
    requires Runs(Init(now), steps) && i < |Exec(Init(now), steps).db.items|
    requires Overridden(Exec(Init(now), steps).db.items[i].draft)
    ensures Entries(Exec(Init(now), steps).db.log, i) >= Completions(Init(now), steps, i)
    ensures Entries(Exec(Init(now), steps).db.log, i) == Completions(Init(now), steps, i)
            <==> !Redone(Init(now), steps, i)
  {
    InitSafe(now);
    LogConserved(Init(now), steps, i);
    CallsAreCompletionsIff(Init(now), steps, i);
    assert Entries([], i) == 0;
  }

  lemma GuardedStep(s: State, step: Step, i: nat)
    requires Enabled(s, step)
    requires step.ChangeItemStatus? && step.status == DONE ==> step.onlyIfDiffers
    ensures Completes(s, step, i) <==> !IsDone(s, i) && IsDone(Apply(s, step), i)
  {
  }

  /** For guarded runs from the empty database, an item's log rows count its real completions. */
  lemma {:induction false} LogCountsCompletions(now: int, steps: seq<Step>, i: nat)
    requires Runs(Init(now), steps) && Guarded(steps)
    requires i < |Exec(Init(now), steps).db.items|
    ensures Entries(Exec(Init(now), steps).db.log, i)
            == if Overridden(Exec(Init(now), steps).db.items[i].draft) then Completions(Init(now), steps, i) else 0
  {
    InitSafe(now);
    LogConserved(Init(now), steps, i);
    GuardedCallsAreCompletions(Init(now), steps, i);
  }

  /**
   The unguarded call of the admin page logs again when an item is already done: the count then
   exceeds the real transitions.
   */
  lemma {:induction false} UnguardedCallOvercounts(s: State, i: nat)
    requires i < |s.db.items| && s.db.items[i].status == DONE && Overridden(s.db.items[i].draft)
    ensures var again := ChangeItemStatus(i, DONE, false);
            && Entries(Apply(s, again).db.log, i) == Entries(s.db.log, i) + 1
            && IsDone(s, i) && IsDone(Apply(s, again), i)
  {
    EntriesSnoc(s.db.log, OverrideOf(i, s.db.items[i].draft), i);
  }
}
