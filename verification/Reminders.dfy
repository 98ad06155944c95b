/**
 Deadline reminders (app/reminders.py and _reminder_loop in app/main.py): select the due tasks,
 send each to every allowed user, then stamp it. Any send or stamp may raise, and the process
 may stop anywhere; other writers change items in between.
 */
module Reminders {
  import opened Wrappers
  import opened Gatekeeper
  import opened Tables

  /** A reminder of one task to one user. */
  type Delivery = (nat, int)

  datatype Phase = Idle | Sending(due: seq<nat>, task: nat, users: seq<int>, user: nat)

  /**
   The tables, the loop's position, and its history: every send begun; the sends begun in the
   running iteration for the task at hand; those of iterations aborted before the stamp; and
   those followed by a stamp.
   */
  datatype State = State(
    db: Db, phase: Phase,
    attempts: multiset<Delivery>, current: set<Delivery>, aborted: multiset<Delivery>, settled: set<Delivery>)

  datatype Step =
    | Begin(lead: int, due: seq<nat>, users: seq<int>)
    | Send
    | Stamp
    | Abort
    | ChangeItemStatus(item: nat, status: string, onlyIfDiffers: bool)
    | Retitle(item: nat, title: string)
    | NewItem(row: nat, draft: Draft)
    | Wait(seconds: nat)

  /** due_reminders selects this item; days and hours in seconds of local time. */
  predicate IsDue(db: Db, lead: int, i: nat) {
    && i < |db.items|
    && db.items[i].draft.kind == TASK && db.items[i].status == OPEN && db.items[i].remindedAt.None?
    && db.items[i].draft.deadline.Some?
    && 86400 * db.items[i].draft.deadline.value - 3600 * lead <= db.now
  }

  /**
   Selected are exactly the open tasks that were never reminded of and whose deadline, the midnight
   at which its day begins, is at most `lead` hours away or has passed.
   */
  lemma DueMeans(db: Db, lead: int, i: nat)
    requires i < |db.items|
    ensures var item := db.items[i];
            IsDue(db, lead, i) <==>
              && item.draft.kind == "task" && item.status == "open" && item.remindedAt == None
              && item.draft.deadline.Some?
              && (24 * 3600 * item.draft.deadline.value) as real - db.now as real <= lead as real * 3600.0
  {
  }

  predicate NoRepeats<T(==)>(s: seq<T>) {
    forall i, j :: 0 <= i < j < |s| ==> s[i] != s[j]
  }

  /** The rows of the query, ordered by deadline. */
  ghost predicate DueRows(db: Db, lead: int, due: seq<nat>) {
    && NoRepeats(due)
    && (forall i: nat :: i in due <==> IsDue(db, lead, i))
    && forall p, q :: 0 <= p < q < |due| && due[p] in due && due[q] in due ==>
         db.items[due[p]].draft.deadline.value <= db.items[due[q]].draft.deadline.value
  }

  ghost predicate Enabled(s: State, step: Step) {
    match step
    case Begin(lead, due, users) =>
      s.phase.Idle? && due != [] && users != [] && NoRepeats(users) && DueRows(s.db, lead, due)
    case Send => s.phase.Sending? && s.phase.task < |s.phase.due| && s.phase.user < |s.phase.users|
    case Stamp => s.phase.Sending? && s.phase.task < |s.phase.due| && s.phase.user == |s.phase.users|
    case _ => true
  }

  function Apply(s: State, step: Step): State
    requires Enabled(s, step)
  {
    match step
    case Begin(_, due, users) => s.(phase := Sending(due, 0, users, 0))
    case Send =>
      var d := (s.phase.due[s.phase.task], s.phase.users[s.phase.user]);
      s.(phase := s.phase.(user := s.phase.user + 1),
         attempts := s.attempts + multiset{d}, current := s.current + {d})
    case Stamp =>
      var next := s.phase.task + 1;
      s.(db := MarkReminded(s.db, s.phase.due[s.phase.task]),
         phase := if next < |s.phase.due| then Sending(s.phase.due, next, s.phase.users, 0) else Idle,
         current := {}, settled := s.settled + s.current)
    case Abort => s.(phase := Idle, current := {}, aborted := s.aborted + multiset(s.current))
    case ChangeItemStatus(i, status, differs) => s.(db := ChangeStatus(s.db, i, status, differs))
    case Retitle(i, title) => s.(db := SetTitle(s.db, i, title))
    case NewItem(row, draft) => s.(db := CommitItem(s.db, row, draft))
    case Wait(n) => s.(db := s.db.(now := s.db.now + n))
  }

  predicate Reminded(db: Db, i: nat) {
    i < |db.items| && db.items[i].remindedAt.Some?
  }

  /** The sends of a task to the first n users. */
  function Begun(task: nat, users: seq<int>, n: nat): (sends: set<Delivery>)
    requires n <= |users|
    ensures n == 0 ==> sends == {}
  {
    set u | 0 <= u < n :: (task, users[u])
  }

  /** The running iteration reminds of unstamped tasks only, and has begun exactly the sends it counts. */
  predicate PhaseOk(s: State) {
    match s.phase
    case Idle => s.current == {}
    case Sending(due, task, users, user) =>
      && task < |due| && user <= |users| && NoRepeats(due) && NoRepeats(users)
      && (forall p :: task <= p < |due| ==> due[p] < |s.db.items| && !Reminded(s.db, due[p]))
      && s.current == Begun(due[task], users, user)
  }

  ghost predicate Inv(s: State) {
    && PhaseOk(s)
    && s.attempts == s.aborted + multiset(s.current) + multiset(s.settled)
    && forall d :: d in s.settled ==> Reminded(s.db, d.0)
  }

  /** Items are never removed and stamps never cleared, whatever another writer does. */
  lemma StampsStay(s: State, step: Step)
    requires Enabled(s, step)
    ensures |s.db.items| <= |Apply(s, step).db.items|
    ensures forall i: nat :: Reminded(s.db, i) ==> Reminded(Apply(s, step).db, i)
    ensures !step.Stamp? ==> forall i: nat :: i < |s.db.items| && Reminded(Apply(s, step).db, i) ==> Reminded(s.db, i)
  {
  }

  lemma BeginInv(s: State, step: Step)
    requires Inv(s) && Enabled(s, step) && step.Begin?
    ensures Inv(Apply(s, step))
  {
    var t := Apply(s, step);
    forall p | 0 <= p < |step.due|
      ensures step.due[p] < |t.db.items| && !Reminded(t.db, step.due[p])
    {
      assert step.due[p] in step.due;
    }
  }

  /** The user about to be sent to has not been sent this task in this iteration. */
  lemma SendIsNew(s: State)
    requires Inv(s) && Enabled(s, Send)
    ensures (s.phase.due[s.phase.task], s.phase.users[s.phase.user]) !in s.current
  {
  }

  lemma SendInv(s: State)
    requires Inv(s) && Enabled(s, Send)
    ensures Inv(Apply(s, Send))
  {
    SendIsNew(s);
    var t, d := Apply(s, Send), (s.phase.due[s.phase.task], s.phase.users[s.phase.user]);
    assert multiset(s.current + {d}) == multiset(s.current) + multiset{d};
    var due, task, users := s.phase.due, s.phase.task, s.phase.users;
    assert t.current == Begun(due[task], users, t.phase.user);
  }

  lemma StampedPhaseOk(s: State)
    requires Inv(s) && Enabled(s, Stamp)
    ensures PhaseOk(Apply(s, Stamp))
  {
    hide IsDue, DueRows;
    var t := Apply(s, Stamp);
    if t.phase.Sending? {
      assert Begun(t.phase.due[t.phase.task], t.phase.users, 0) == {};
      forall p | t.phase.task <= p < |t.phase.due|
        ensures t.phase.due[p] < |t.db.items| && !Reminded(t.db, t.phase.due[p])
      {
        assert s.phase.due[p] != s.phase.due[s.phase.task];
      }
    }
  }

  lemma StampInv(s: State)
    requires Inv(s) && Enabled(s, Stamp)
    ensures Inv(Apply(s, Stamp))
  {
    hide IsDue, DueRows, NoRepeats;
    StampsStay(s, Stamp);
    StampedPhaseOk(s);
    assert forall d :: d in s.current ==> d.0 == s.phase.due[s.phase.task] && !Reminded(s.db, d.0);
    hide PhaseOk, Begun;
    assert s.current !! s.settled;
    assert multiset(s.settled + s.current) == multiset(s.settled) + multiset(s.current);
  }

  lemma StepInv(s: State, step: Step)
    requires Inv(s) && Enabled(s, step)
    ensures Inv(Apply(s, step))
  {
    match step {
      case Begin(_, _, _) => BeginInv(s, step);
      case Send => SendInv(s);
      case Stamp => StampInv(s);
      case _ => OtherInv(s, step);
    }
  }

  lemma OtherInv(s: State, step: Step)
    requires Inv(s) && Enabled(s, step) && !step.Begin? && !step.Send? && !step.Stamp?
    ensures Inv(Apply(s, step))
  {
    StampsStay(s, step);
    hide Enabled;
    var t := Apply(s, step);
    if step.Abort? {
      assert t.phase == Idle && t.current == {} && t.db == s.db && t.settled == s.settled;
    } else {
      assert t == s.(db := t.db);
    }
    hide Apply, NoRepeats, Begun;
  }

  ghost predicate Runs(s: State, steps: seq<Step>)
    decreases |steps|
  {
    steps != [] ==> Enabled(s, steps[0]) && Runs(Apply(s, steps[0]), steps[1..])
  }

  ghost function Exec(s: State, steps: seq<Step>): State
    requires Runs(s, steps)
    decreases |steps|
  {
    if steps == [] then s else Exec(Apply(s, steps[0]), steps[1..])
  }

  lemma {:induction false} RunInv(s: State, steps: seq<Step>)
    requires Inv(s) && Runs(s, steps)
    ensures Inv(Exec(s, steps))
    ensures forall i: nat :: Reminded(s.db, i) ==> Reminded(Exec(s, steps).db, i)
    decreases |steps|
  {
    if steps != [] {
      StepInv(s, steps[0]);
      StampsStay(s, steps[0]);
      RunInv(Apply(s, steps[0]), steps[1..]);
    }
  }

  function Start(db: Db): State {
    State(db, Idle, multiset{}, {}, multiset{}, {})
  }

  /**
   In every run, the sends of a task to a user number at most one more than the iterations
   aborted after such a send had begun.
   */
  lemma {:induction false} AttemptsBounded(db: Db, steps: seq<Step>, d: Delivery)
    requires Runs(Start(db), steps)
    ensures Exec(Start(db), steps).attempts[d] <= 1 + Exec(Start(db), steps).aborted[d]
  {
    RunInv(Start(db), steps);
    var s := Exec(Start(db), steps);
    assert d in s.settled ==> Reminded(s.db, d.0);
    assert d in s.current ==> !Reminded(s.db, d.0);
  }

  /**
   What "sent exactly once" comes to: every send of a stamped task began once, plus once for each
   iteration aborted after it had begun. It began exactly once if and only if there was none.
   */
  lemma {:induction false} StampedSends(db: Db, steps: seq<Step>, d: Delivery)
    requires Runs(Start(db), steps) && d in Exec(Start(db), steps).settled
    ensures var s := Exec(Start(db), steps);
            && Reminded(s.db, d.0) && s.attempts[d] == 1 + s.aborted[d]
            && (s.attempts[d] == 1 <==> s.aborted[d] == 0)
  {
    RunInv(Start(db), steps);
    var s := Exec(Start(db), steps);
    hide Runs, Exec, Start;
    assert d in s.settled ==> Reminded(s.db, d.0);
    assert d in s.current ==> !Reminded(s.db, d.0);
  }

  /** With anything due and anyone to tell, an iteration aborted after its first send sends again. */
  lemma SentTwice(db: Db, lead: int, due: seq<nat>, users: seq<int>) returns (steps: seq<Step>)
    requires due != [] && users != [] && NoRepeats(users) && DueRows(db, lead, due)
    ensures Runs(Start(db), steps)
    ensures Exec(Start(db), steps).attempts[(due[0], users[0])] == 2
  {
    var start, d := Start(db), (due[0], users[0]);
    assert Runs(start, []) && Exec(start, []) == start;
    hide Runs, Exec, DueRows, NoRepeats;
    var begin := Begin(lead, due, users);
    Snoc(start, [], begin);
    Snoc(start, [] + [begin], Send);
    Snoc(start, [] + [begin] + [Send], Abort);
    steps := [] + [begin] + [Send] + [Abort];
    assert Exec(start, steps).attempts[d] == 1;
    Snoc(start, steps, begin);
    Snoc(start, steps + [begin], Send);
    steps := steps + [begin] + [Send];
  }

  /** The step takes item i out of "open". */
  predicate Closes(step: Step, i: nat) {
    step.ChangeItemStatus? && step.item == i && step.status != OPEN
  }

  /** Nothing is lost: with the lead time fixed, a due task stays due until it is stamped or leaves "open". */
  lemma {:induction false} DueUntilHandled(s: State, steps: seq<Step>, lead: int, i: nat)
    requires Runs(s, steps) && IsDue(s.db, lead, i)
    ensures var t := Exec(s, steps).db;
            || IsDue(t, lead, i) || Reminded(t, i)
            || (exists n :: 0 <= n < |steps| && Closes(steps[n], i))
    decreases |steps|
  {
    if steps != [] {
      var t := Apply(s, steps[0]);
      if IsDue(t.db, lead, i) {
        DueUntilHandled(t, steps[1..], lead, i);
        if n :| 0 <= n < |steps[1..]| && Closes(steps[1..][n], i) {
          assert steps[n + 1] == steps[1..][n];
        }
      } else if Reminded(t.db, i) {
        StampedStays(t, steps[1..], i);
      } else {
        assert Closes(steps[0], i);
      }
    }
  }

  /** Once stamped, a task is never selected again. */
  lemma {:induction false} StampedStays(s: State, steps: seq<Step>, i: nat)
    requires Runs(s, steps) && Reminded(s.db, i)
    ensures Reminded(Exec(s, steps).db, i)
    ensures forall lead :: !IsDue(Exec(s, steps).db, lead, i)
    decreases |steps|
  {
    if steps != [] {
      StampsStay(s, steps[0]);
      StampedStays(Apply(s, steps[0]), steps[1..], i);
    }
  }

  lemma {:induction false} Snoc(s: State, steps: seq<Step>, step: Step)
    requires Runs(s, steps) && Enabled(Exec(s, steps), step)
    ensures Runs(s, steps + [step]) && Exec(s, steps + [step]) == Apply(Exec(s, steps), step)
    decreases |steps|
  {
    if steps == [] {
      assert [] + [step] == [step];
      assert [step][1..] == [];
    } else {
      Snoc(Apply(s, steps[0]), steps[1..], step);
      assert (steps + [step])[1..] == steps[1..] + [step];
    }
  }

  // ---- The loop ----

  /** One task to the first n users, in order. */
  function SendsTo(task: nat, users: seq<int>, n: nat): seq<Delivery>
    requires n <= |users|
  {
    if n == 0 then [] else SendsTo(task, users, n - 1) + [(task, users[n - 1])]
  }

  lemma {:induction false} NoSends(task: nat, users: seq<int>)
    ensures SendsTo(task, users, 0) == []
  {
  }

  lemma SendsSnoc(task: nat, users: seq<int>, n: nat)
    requires n < |users|
    ensures SendsTo(task, users, n + 1) == SendsTo(task, users, n) + [(task, users[n])]
  {
  }

  /** The first t tasks to every user. */
  function AllSends(due: seq<nat>, users: seq<int>, t: nat): seq<Delivery>
    requires t <= |due|
  {
    if t == 0 then [] else AllSends(due, users, t - 1) + SendsTo(due[t - 1], users, |users|)
  }

  /** Every task before number `at` to every user, and that one to the first n. */
  function SendsBefore(due: seq<nat>, users: seq<int>, at: nat, n: nat): seq<Delivery>
    requires at <= |due| && n <= |users|
  {
    AllSends(due, users, at) + if at < |due| then SendsTo(due[at], users, n) else []
  }

  lemma {:induction false} SendsToAt(task: nat, users: seq<int>, n: nat)
    requires n <= |users|
    ensures |SendsTo(task, users, n)| == n
    ensures forall u :: 0 <= u < n ==> SendsTo(task, users, n)[u] == (task, users[u])
  {
    if n > 0 {
      SendsToAt(task, users, n - 1);
    }
  }

  lemma {:induction false} AllSendsLength(due: seq<nat>, users: seq<int>, t: nat)
    requires t <= |due|
    ensures |AllSends(due, users, t)| == t * |users|
  {
    if t > 0 {
      AllSendsLength(due, users, t - 1);
      SendsToAt(due[t - 1], users, |users|);
      assert t * |users| == (t - 1) * |users| + |users|;
    }
  }

  lemma {:induction false} AllSendsAt(due: seq<nat>, users: seq<int>, t: nat, k: nat, u: nat)
    requires t <= |due| && k < t && u < |users|
    ensures k * |users| + u < |AllSends(due, users, t)|
    ensures AllSends(due, users, t)[k * |users| + u] == (due[k], users[u])
  {
    AllSendsLength(due, users, t - 1);
    SendsToAt(due[t - 1], users, |users|);
    var before, last := AllSends(due, users, t - 1), SendsTo(due[t - 1], users, |users|);
    var place := k * |users| + u;
    assert AllSends(due, users, t) == before + last;
    if k < t - 1 {
      AllSendsAt(due, users, t - 1, k, u);
    }
    hide AllSends, SendsTo;
    assert (before + last)[place] == if k < t - 1 then before[place] else last[u];
  }

  /** Task by task, and each task user by user: the place of every send in the order. */
  lemma SendsInOrder(due: seq<nat>, users: seq<int>, at: nat, n: nat, k: nat, u: nat)
    requires at < |due| && n <= |users| && k <= at && u < if k < at then |users| else n
    ensures |SendsBefore(due, users, at, n)| == at * |users| + n
    ensures k * |users| + u < |SendsBefore(due, users, at, n)|
    ensures SendsBefore(due, users, at, n)[k * |users| + u] == (due[k], users[u])
  {
    AllSendsLength(due, users, at);
    SendsToAt(due[at], users, n);
    if k < at {
      AllSendsAt(due, users, at, k, u);
    }
  }

  lemma {:induction false} NothingToSend(due: seq<nat>, users: seq<int>, t: nat)
    requires t <= |due| && users == []
    ensures AllSends(due, users, t) == []
  {
    if t > 0 {
      NothingToSend(due, users, t - 1);
    }
  }

  lemma OneMoreTask(t: nat, tasks: nat, ops: nat)
    requires t < tasks
    ensures (t + 1) * ops == t * ops + ops <= tasks * ops
  {
    assert tasks * ops == (t + 1) * ops + (tasks - t - 1) * ops;
  }

  lemma NoStepsRun(s: State)
    ensures IsRun(s, [], s)
  {
  }

  ghost predicate IsRun(start: State, steps: seq<Step>, end: State) {
    Runs(start, steps) && Exec(start, steps) == end
  }

  class ReminderLoop {
    var db: Db
    /** The sends begun so far, in order. */
    var outbox: seq<Delivery>
    ghost var state: State

    /** The fields and the history agree. */
    ghost predicate InStep()
      reads this
    {
      Inv(state) && state.db == db && state.attempts == multiset(outbox)
    }

    ghost predicate Valid()
      reads this
    {
      InStep() && state.phase.Idle?
    }

    constructor (db: Db)
      ensures Valid() && this.db == db && outbox == [] && state == Start(db)
    {
      this.db, outbox, state := db, [], Start(db);
    }

    /** The history takes one step of the system. */
    ghost method Record(step: Step, start: State, steps: seq<Step>) returns (more: seq<Step>)
      requires Inv(state) && Enabled(state, step) && IsRun(start, steps, state)
      modifies this`state
      ensures Inv(state) && state == Apply(old(state), step)
      ensures IsRun(start, more, state)
      ensures forall i: nat :: Reminded(old(state).db, i) ==> Reminded(state.db, i)
    {
      Snoc(start, steps, step);
      StepInv(state, step);
      StampsStay(state, step);
      more := steps + [step];
      state := Apply(state, step);
    }

    /** One send is begun. */
    method SendOne(due: seq<nat>, t: nat, users: seq<int>, u: nat, ghost start: State, ghost before: seq<Step>)
      returns (ghost steps: seq<Step>)
      requires InStep() && IsRun(start, before, state)
      requires t < |due| && u < |users| && state.phase == Sending(due, t, users, u)
      modifies this`outbox, this`state
      ensures InStep() && IsRun(start, steps, state) && state.phase == Sending(due, t, users, u + 1)
      ensures outbox == old(outbox) + [(due[t], users[u])]
    {
      outbox := outbox + [(due[t], users[u])];
      steps := Record(Send, start, before);
    }

    /** The task at hand is stamped. */
    method StampOne(due: seq<nat>, t: nat, users: seq<int>, ghost start: State, ghost before: seq<Step>)
      returns (ghost steps: seq<Step>)
      requires InStep() && IsRun(start, before, state)
      requires t < |due| && state.phase == Sending(due, t, users, |users|)
      modifies this`db, this`state
      ensures InStep() && IsRun(start, steps, state)
      ensures state.phase == if t + 1 < |due| then Sending(due, t + 1, users, 0) else Idle
      ensures Reminded(db, due[t]) && forall i: nat :: Reminded(old(db), i) ==> Reminded(db, i)
    {
      assert due[t] < |db.items|;
      db := MarkReminded(db, due[t]);
      steps := Record(Stamp, start, before);
    }

    ghost method GiveUp(start: State, before: seq<Step>) returns (steps: seq<Step>)
      requires InStep() && IsRun(start, before, state)
      modifies this`state
      ensures InStep() && IsRun(start, steps, state) && state.phase == Idle
    {
      steps := Record(Abort, start, before);
    }

    /** The query found rows: the history opens an iteration over them. */
    ghost method Open(lead: int, due: seq<nat>, users: seq<int>) returns (steps: seq<Step>)
      requires Valid() && due != [] && users != [] && NoRepeats(users) && DueRows(db, lead, due)
      modifies this`state
      ensures InStep() && IsRun(old(state), steps, state) && state.phase == Sending(due, 0, users, 0)
    {
      NoStepsRun(state);
      steps := Record(Begin(lead, due, users), state, []);
    }

    /** The inner loop: one task to every user, unless a send raises. */
    method SendToAll(due: seq<nat>, t: nat, users: seq<int>, raises: nat -> bool, firstOp: nat,
                     ghost start: State, ghost before: seq<Step>)
      returns (ok: bool, sent: nat, ghost steps: seq<Step>)
      requires InStep() && IsRun(start, before, state)
      requires t < |due| && state.phase == Sending(due, t, users, 0)
      modifies this`outbox, this`state
      ensures InStep() && IsRun(start, steps, state)
      ensures state.phase == if ok then Sending(due, t, users, |users|) else Idle
      ensures ok <==> forall k :: firstOp <= k < firstOp + |users| ==> !raises(k)
      ensures sent <= |users| && (ok ==> sent == |users|)
      ensures outbox == old(outbox) + SendsTo(due[t], users, sent)
    {
      hide InStep, IsRun, Enabled, Apply, SendsTo;
      ghost var sentBefore := outbox;
      steps := before;
      NoSends(due[t], users);
      for u := 0 to |users|
        invariant InStep() && IsRun(start, steps, state)
        invariant state.phase == Sending(due, t, users, u)
        invariant outbox == sentBefore + SendsTo(due[t], users, u)
        invariant forall k :: firstOp <= k < firstOp + u ==> !raises(k)
      {
        steps := SendOne(due, t, users, u, start, steps);
        SendsSnoc(due[t], users, u);
        assert outbox == sentBefore + (SendsTo(due[t], users, u) + [(due[t], users[u])]);
        if raises(firstOp + u) {
          steps := GiveUp(start, steps);
          return false, u + 1, steps;
        }
      }
      ok, sent := true, |users|;
    }

    /**
     One iteration over the selected rows; operation number k raises when `raises(k)`. It is a
     run of the step system. It gets as far as task number `at`, of which `sent` users were
     served: every earlier task went to every user, in order, and is stamped.
     */
    method Iterate(lead: int, due: seq<nat>, users: seq<int>, raises: nat -> bool)
      returns (completed: bool, at: nat, sent: nat, ghost steps: seq<Step>)
      requires Valid() && DueRows(db, lead, due) && NoRepeats(users)
      modifies this
      ensures Valid() && IsRun(old(state), steps, state)
      ensures at <= |due| && sent <= |users|
      ensures outbox == old(outbox) + SendsBefore(due, users, at, sent)
      ensures forall t :: 0 <= t < at && users != [] ==> Reminded(db, due[t])
      ensures completed ==> at == |due|
      ensures users != [] ==> (completed <==> forall k: nat :: k < |due| * (|users| + 1) ==> !raises(k))
    {
      hide InStep, IsRun, Enabled, Apply, Reminded, DueRows, NoRepeats, SendsTo;
      steps, at, sent := [], 0, 0;
      NoStepsRun(state);
      if due == [] || users == [] {
        if users == [] {
          NothingToSend(due, users, |due|);
        }
        assert outbox == outbox + [];
        return true, |due|, 0, steps;
      }
      ghost var start := state;
      steps := Open(lead, due, users);
      var firstOp := 0;
      for t := 0 to |due|
        invariant firstOp == t * (|users| + 1) && forall k: nat :: k < firstOp ==> !raises(k)
        invariant InStep() && IsRun(start, steps, state)
        invariant state.phase == if t < |due| then Sending(due, t, users, 0) else Idle
        invariant outbox == old(outbox) + AllSends(due, users, t)
        invariant forall p :: 0 <= p < t ==> Reminded(db, due[p])
      {
        OneMoreTask(t, |due|, |users| + 1);
        var ok, n;
        ok, n, steps := SendToAll(due, t, users, raises, firstOp, start, steps);
        assert outbox == old(outbox) + (AllSends(due, users, t) + SendsTo(due[t], users, n));
        if !ok {
          return false, t, n, steps;
        }
        if raises(firstOp + |users|) {
          steps := GiveUp(start, steps);
          return false, t, n, steps;
        }
        steps := StampOne(due, t, users, start, steps);
        firstOp := firstOp + |users| + 1;
      }
      completed, at := true, |due|;
    }
  }
}
